/**
 * Poll mode of the io_uring driver: a registration remembers one interest for
 * both directions. When that loses a waiter, and when it does not.
 */
module UringPolls {
  import opened Prelude
  import opened UringSpec
  import opened UringProofs

  function Waiter(reg: PollReg, write: bool): Option<Waker> {
    if write then reg.writer else reg.reader
  }

  /**
   * A finished poll wakes the waiter of a direction if and only if the interest
   * last asked for is that direction's, or the other waiter is the same task.
   */
  lemma PollWakesWaiterIff(d: Driver, token: nat, result: int, sub: nat, write: bool)
    requires token < TOKEN_LIMIT && token in d.polls && Waiter(d.polls[token], write).Some?
    ensures var reg := d.polls[token];
      Waiter(reg, write).value in WokenBy(d, Cqe(Record(Encode(token, PollKind), 0, sub), result)) <==>
        reg.write == write || Waiter(reg, !write) == Waiter(reg, write)
  {
    KeysAreSound(token);
    assert DecodeToken(Encode(token, PollKind)) == token;
  }

  /**
   * Which waiters a finished poll takes off the registration, woken or not: that
   * of the direction last asked for, and with both asked for, the reader as well,
   * which by PollWakesWaiterIff is then not woken unless it is the writer.
   */
  lemma PollTakesWaiterIff(d: Driver, token: nat, result: int, sub: nat, write: bool)
    requires token < TOKEN_LIMIT && token in d.polls
    ensures var reg := d.polls[token];
      var d' := DrainOne(d, Cqe(Record(Encode(token, PollKind), 0, sub), result));
      var taken := reg.write == write || (reg.read && reg.write);
      && token in d'.polls
      && (Waiter(d'.polls[token], write) == if taken then None else Waiter(reg, write))
      && (Armed(d'.polls[token], write) <==> Armed(reg, write) && !taken)
  {
    KeysAreSound(token);
    assert DecodeToken(Encode(token, PollKind)) == token && DecodeKind(Encode(token, PollKind)) == PollKind;
    assert Encode(token, PollKind) != TIMEOUT_KEY && Encode(token, PollKind) != INTERRUPT_KEY;
  }

  // ---------- Two directions ----------

  /** Some poll of this registration is still on its way. */
  ghost predicate Outstanding(flying: multiset<Record>, token: nat) {
    exists r :: r in flying && r.key == Encode(token, PollKind)
  }

  /** The states of the run below: only the ring and one registration change. */
  function Stage(ring: Ring, reg: PollReg): System {
    Init().(d := Driver(ring, map[], map[0 := reg], {}, false))
  }

  const INTERRUPT_READ: Record := Record(INTERRUPT_KEY, 0, 0)
  const READ_POLL: Record := Record(0, 0, 1)
  const WRITE_POLL: Record := Record(0, 0, 2)
  const BOTH: PollReg := PollReg(false, true, Some(1), true, Some(2), true)
  const READER_LEFT: PollReg := PollReg(false, true, Some(1), true, None, false)

  lemma AwaitBoth(answer: nat -> int)
    ensures Next(Next(Next(Init(), RegisterPoll(0, true, true), answer), SubmitPollEvent(0, 1, true, false, true), answer),
                 SubmitPollEvent(0, 2, false, true, true), answer) == Stage(Ring([INTERRUPT_READ, READ_POLL, WRITE_POLL], [], [], 3), BOTH)
  {
    var y1 := Next(Init(), RegisterPoll(0, true, true), answer);
    assert y1 == Stage(Ring([INTERRUPT_READ], [], [], 1), PollReg(true, true, None, false, None, false));
    var y2 := Next(y1, SubmitPollEvent(0, 1, true, false, true), answer);
    assert y2 == Stage(Ring([INTERRUPT_READ, READ_POLL], [], [], 2), PollReg(true, false, Some(1), true, None, false));
  }

  lemma BothFinish(answer: nat -> int)
    ensures Next(Next(Next(Stage(Ring([INTERRUPT_READ, READ_POLL, WRITE_POLL], [], [], 3), BOTH), KernelTakes(3), answer),
                      KernelCompletes(1), answer), KernelCompletes(1), answer)
      == Stage(Ring([], [INTERRUPT_READ], [Cqe(READ_POLL, answer(1)), Cqe(WRITE_POLL, answer(2))], 3), BOTH)
  {
    var y4 := Next(Stage(Ring([INTERRUPT_READ, READ_POLL, WRITE_POLL], [], [], 3), BOTH), KernelTakes(3), answer);
    assert y4 == Stage(Ring([], [INTERRUPT_READ, READ_POLL, WRITE_POLL], [], 3), BOTH);
    var y5 := Next(y4, KernelCompletes(1), answer);
    assert y5 == Stage(Ring([], [INTERRUPT_READ, WRITE_POLL], [Cqe(READ_POLL, answer(1))], 3), BOTH);
  }

  lemma BothDrained(a: int, b: int)
    ensures Collect(Stage(Ring([], [INTERRUPT_READ], [Cqe(READ_POLL, a), Cqe(WRITE_POLL, b)], 3), BOTH).d, 0) == Stage(Ring([], [INTERRUPT_READ], [], 3), READER_LEFT).d
  {
    var d0 := Stage(Ring([], [INTERRUPT_READ], [Cqe(READ_POLL, a), Cqe(WRITE_POLL, b)], 3), BOTH).d;
    var d1 := DrainFirst(d0);
    assert d1 == Stage(Ring([], [INTERRUPT_READ], [Cqe(WRITE_POLL, b)], 3), READER_LEFT).d;
    var d2 := DrainFirst(d1);
    assert d2 == Stage(Ring([], [INTERRUPT_READ], [], 3), READER_LEFT).d;
    assert DrainAll(d0) == DrainAll(d1) == DrainAll(d2) == d2;
  }

  lemma AfterNone(answer: nat -> int)
    ensures After([], answer) == Init()
  {}

  lemma AfterSeven(a: Event, b: Event, c: Event, d: Event, e: Event, f: Event, g: Event, answer: nat -> int)
    ensures After([a, b, c, d, e, f, g], answer)
      == var y := Next(Next(Next(Init(), a, answer), b, answer), c, answer);
         Next(Next(Next(Next(y, d, answer), e, answer), f, answer), g, answer)
  {
    hide Next, After;
    AfterNone(answer);
    AfterOneMore([], [a], answer);
    AfterOneMore([a], [a, b], answer);
    AfterOneMore([a, b], [a, b, c], answer);
    AfterOneMore([a, b, c], [a, b, c, d], answer);
    AfterOneMore([a, b, c, d], [a, b, c, d, e], answer);
    AfterOneMore([a, b, c, d, e], [a, b, c, d, e, f], answer);
    AfterOneMore([a, b, c, d, e, f], [a, b, c, d, e, f, g], answer);
  }

  /**
   * "A waiter has a poll outstanding" is false: asked to await reading and then
   * writing, with both polls finished, the driver has woken the writer, keeps the
   * reader, and believes its poll still armed, so that it will not submit another.
   */
  lemma TwoDirectionsStrandReader(answer: nat -> int)
    ensures var y := After([RegisterPoll(0, true, true), SubmitPollEvent(0, 1, true, false, true),
                            SubmitPollEvent(0, 2, false, true, true), KernelTakes(3),
                            KernelCompletes(1), KernelCompletes(1), CollectEvent(0)], answer);
      && 0 in y.d.polls && y.d.polls[0].reader == Some(1)
      && !Outstanding(Flying(y.d.ring), 0)
      && SubmitPoll(y.d, 0, 1, true, false, true).ring == y.d.ring
  {
    StrandingRun(answer);
    hide After;
    assert Flying(Ring([], [INTERRUPT_READ], [], 3)) == multiset{INTERRUPT_READ};
  }

  lemma StrandingRun(answer: nat -> int)
    ensures After([RegisterPoll(0, true, true), SubmitPollEvent(0, 1, true, false, true),
                   SubmitPollEvent(0, 2, false, true, true), KernelTakes(3),
                   KernelCompletes(1), KernelCompletes(1), CollectEvent(0)], answer)
      == Stage(Ring([], [INTERRUPT_READ], [], 3), READER_LEFT)
  {
    hide After, Collect, Register, SubmitPoll, KernelStep, Room;
    AfterSeven(RegisterPoll(0, true, true), SubmitPollEvent(0, 1, true, false, true),
               SubmitPollEvent(0, 2, false, true, true), KernelTakes(3),
               KernelCompletes(1), KernelCompletes(1), CollectEvent(0), answer);
    AwaitBoth(answer);
    BothFinish(answer);
    BothDrained(answer(1), answer(2));
  }

  // ---------- One direction at a time ----------

  /** The caller awaits one direction, and not while a poll for the other is armed. */
  predicate AwaitsApart(y: System, e: Event) {
    (e.SubmitPollEvent? || e.ReregisterPoll?) ==>
      e.read != e.write && (e.token in y.d.polls ==> !Armed(y.d.polls[e.token], !e.write))
  }

  /** A direction has a waiter exactly while it is armed; then its poll is outstanding and was what was last asked for. */
  ghost predicate DirectionOk(reg: PollReg, flying: multiset<Record>, token: nat, write: bool) {
    && (Waiter(reg, write).Some? <==> Armed(reg, write))
    && (Armed(reg, write) ==> reg.write == write && reg.read != write && Outstanding(flying, token))
  }

  ghost predicate PollerOk(reg: PollReg, flying: multiset<Record>, token: nat) {
    token < TOKEN_LIMIT && DirectionOk(reg, flying, token, true) && DirectionOk(reg, flying, token, false)
  }

  ghost predicate PollersOk(polls: map<nat, PollReg>, flying: multiset<Record>) {
    forall t | t in polls :: PollerOk(polls[t], flying, t)
  }

  lemma MoreFlightsKeepPollers(polls: map<nat, PollReg>, flying: multiset<Record>, more: multiset<Record>)
    requires PollersOk(polls, flying)
    ensures PollersOk(polls, flying + more)
  {
    forall t | t in polls ensures PollerOk(polls[t], flying + more, t) {
      if Outstanding(flying, t) {
        var r :| r in flying && r.key == Encode(t, PollKind);
        assert r in flying + more;
      }
    }
  }

  /** What a drained entry does to one registration. */
  lemma DrainOnRegistration(d: Driver, e: Cqe, token: nat)
    requires token in d.polls && token < TOKEN_LIMIT
    ensures var d' := DrainOne(d, e);
      && token in d'.polls
      && d'.polls[token] == if e.rec.key == Encode(token, PollKind) then PollDone(d.polls[token]).0 else d.polls[token]
  {
    KeysAreSound(token);
    assert DecodeToken(Encode(token, PollKind)) == token && DecodeKind(Encode(token, PollKind)) == PollKind;
    assert Encode(token, PollKind) != TIMEOUT_KEY && Encode(token, PollKind) != INTERRUPT_KEY;
  }

  /** A registration is disarmed by its own entry, and keeps its poll when another is drained. */
  lemma UnflyKeepsPoller(reg: PollReg, flying: multiset<Record>, rec: Record, token: nat)
    requires PollerOk(reg, flying, token)
    ensures var reg' := if rec.key == Encode(token, PollKind) then PollDone(reg).0 else reg;
      PollerOk(reg', flying - multiset{rec}, token)
  {
    if rec.key != Encode(token, PollKind) && Outstanding(flying, token) {
      var r :| r in flying && r.key == Encode(token, PollKind);
      assert r in flying - multiset{rec};
    }
  }

  lemma DrainKeepsPollers(d: Driver)
    requires d.ring.cq != [] && PollersOk(d.polls, Flying(d.ring))
    ensures var d' := DrainFirst(d); PollersOk(d'.polls, Flying(d'.ring))
  {
    hide Flying, DrainOne, PollerOk, Encode;
    var d', e, flying := DrainFirst(d), d.ring.cq[0], Flying(d.ring);
    var shorter := d.(ring := d.ring.(cq := d.ring.cq[1..]));
    DrainUnflies(d.ring);
    DrainKeepsTokens(shorter, e);
    forall t | t in d'.polls ensures PollerOk(d'.polls[t], flying - multiset{e.rec}, t) {
      TokenIsBounded(d.polls[t], flying, t);
      DrainOnRegistration(shorter, e, t);
      UnflyKeepsPoller(d.polls[t], flying, e.rec, t);
    }
  }

  lemma TokenIsBounded(reg: PollReg, flying: multiset<Record>, token: nat)
    requires PollerOk(reg, flying, token)
    ensures token < TOKEN_LIMIT
  {}

  lemma DrainKeepsTokens(d: Driver, e: Cqe)
    ensures DrainOne(d, e).polls.Keys == d.polls.Keys && DrainOne(d, e).ring == d.ring
  {}

  lemma {:induction false} DrainAllKeepsPollers(d: Driver)
    requires PollersOk(d.polls, Flying(d.ring))
    ensures var d' := DrainAll(d); PollersOk(d'.polls, Flying(d'.ring))
    decreases |d.ring.cq|
  {
    if d.ring.cq != [] {
      hide PollersOk, DrainFirst, Flying;
      DrainKeepsPollers(d);
      DrainShortens(d);
      DrainAllKeepsPollers(DrainFirst(d));
    }
  }

  lemma DrainShortens(d: Driver)
    requires d.ring.cq != []
    ensures |DrainFirst(d).ring.cq| < |d.ring.cq|
  {}

  /** The registration awaited: armed already, newly armed, or cleared after a failed push. */
  lemma AwaitKeepsPollerIff(reg: PollReg, flying: multiset<Record>, rec: Record, token: nat, waker: Waker, write: bool)
    requires PollerOk(reg, flying, token) && rec.key == Encode(token, PollKind)
    ensures var reg' := Awaits(reg, waker, !write, write);
      && (Armed(reg, write) ==> (PollerOk(reg', flying, token) <==> !Armed(reg, !write)))
      && (PollerOk(reg', flying + multiset{rec}, token) <==> !Armed(reg, !write))
      && (PollerOk(Unarmed(reg'), flying, token) <==> !Armed(reg, !write))
  {
    assert rec in flying + multiset{rec};
  }

  lemma AwaitKeepsPollersIff(d: Driver, token: nat, waker: Waker, write: bool, pushed: bool)
    requires PollersOk(d.polls, Flying(d.ring)) && token in d.polls
    ensures var d' := SubmitPoll(d, token, waker, !write, write, pushed);
      PollersOk(d'.polls, Flying(d'.ring)) <==> !Armed(d.polls[token], !write)
  {
    hide Flying, PollerOk, Encode, Awaits, Unarmed, Armed;
    var d' := SubmitPoll(d, token, waker, !write, write, pushed);
    var rec := Record(Encode(token, PollKind), 0, d.ring.nextSub);
    PushFlies(d.ring, rec.key, 0);
    MoreFlightsKeepPollers(d.polls, Flying(d.ring), multiset{rec});
    AwaitKeepsPollerIff(d.polls[token], Flying(d.ring), rec, token, waker, write);
    assert PollersOk(d'.polls, Flying(d'.ring)) ==> PollerOk(d'.polls[token], Flying(d'.ring), token);
  }

  lemma NextKeepsPollers(y: System, e: Event, answer: nat -> int)
    requires PollersOk(y.d.polls, Flying(y.d.ring)) && AwaitsApart(y, e)
    ensures var y' := Next(y, e, answer); PollersOk(y'.d.polls, Flying(y'.d.ring))
  {
    hide Flying, PollersOk, DrainAll, SubmitPoll, Takes, Register;
    match e
    case SubmitPollEvent(token, waker, read, write, pushed) =>
      if token in y.d.polls && token < TOKEN_LIMIT {
        AwaitKeepsPollersIff(y.d, token, waker, write, pushed);
      }
    case KernelTakes(n) => TakeKeepsFlying(y.d.ring, n);
    case KernelCompletes(i) =>
      if i < |y.d.ring.kernel| { CompleteKeepsFlying(y.d.ring, i, answer); }
    case PollEvent(id, waker, token, pushed) =>
      PushKeepsPollers(y.d, Encode(token, CompletionKind), id);
    case PushTimeout =>
      PushKeepsPollers(y.d, TIMEOUT_KEY, 0);
    case CollectEvent(room) =>
      DrainAllKeepsPollers(y.d);
      TakeKeepsFlying(DrainAll(y.d).ring, room);
      PushKeepsPollers(Room(DrainAll(y.d), room), INTERRUPT_KEY, 0);
    case RegisterPoll(token, read, write) => RegistrationKeepsPollers(y, e, answer);
    case ReregisterPoll(token, read, write) => RegistrationKeepsPollers(y, e, answer);
    case DeregisterPoll(token) => RegistrationKeepsPollers(y, e, answer);
    case _ =>
  }

  lemma RegistrationKeepsPollers(y: System, e: Event, answer: nat -> int)
    requires PollersOk(y.d.polls, Flying(y.d.ring)) && AwaitsApart(y, e)
    requires e.RegisterPoll? || e.ReregisterPoll? || e.DeregisterPoll?
    ensures var y' := Next(y, e, answer); PollersOk(y'.d.polls, Flying(y'.d.ring))
  {
    hide Flying;
  }

  lemma PushKeepsPollers(d: Driver, key: nat, op: nat)
    requires PollersOk(d.polls, Flying(d.ring))
    ensures PollersOk(d.polls, Flying(Push(d.ring, key, op)))
  {
    PushFlies(d.ring, key, op);
    MoreFlightsKeepPollers(d.polls, Flying(d.ring), multiset{Record(key, op, d.ring.nextSub)});
  }

  ghost predicate AlwaysApart(events: seq<Event>, answer: nat -> int) {
    forall k | 0 <= k < |events| :: AwaitsApart(After(events[..k], answer), events[k])
  }

  lemma ApartEarlier(events: seq<Event>, answer: nat -> int)
    requires events != [] && AlwaysApart(events, answer)
    ensures AlwaysApart(events[..|events| - 1], answer)
  {
    hide After, AwaitsApart;
    var prefix := events[..|events| - 1];
    forall k | 0 <= k < |prefix| ensures AwaitsApart(After(prefix[..k], answer), prefix[k]) {
      assert prefix[..k] == events[..k];
    }
  }

  lemma NobodyWaits(flying: multiset<Record>)
    ensures PollersOk(map[], flying)
  {}

  lemma {:induction false} AfterKeepsPollers(events: seq<Event>, answer: nat -> int)
    requires AlwaysApart(events, answer)
    ensures var y := After(events, answer); PollersOk(y.d.polls, Flying(y.d.ring))
  {
    hide Next, PollersOk, Flying, AwaitsApart;
    if events == [] {
      NobodyWaits(Flying(After(events, answer).d.ring));
    } else {
      var n := |events| - 1;
      ApartEarlier(events, answer);
      AfterKeepsPollers(events[..n], answer);
      NextKeepsPollers(After(events[..n], answer), events[n], answer);
    }
  }

  /**
   * Awaited in one direction at a time, a registration strands nobody: after any
   * run, with any order of completions, failed submissions, deregistrations and
   * reuse of tokens, a waiter has a poll outstanding, and whichever completion
   * arrives for its token wakes it.
   */
  lemma OneDirectionStrandsNobody(events: seq<Event>, answer: nat -> int, token: nat, write: bool, result: int, sub: nat)
    requires AlwaysApart(events, answer)
    requires var y := After(events, answer); token in y.d.polls && Waiter(y.d.polls[token], write).Some?
    ensures var y := After(events, answer);
      && Outstanding(Flying(y.d.ring), token)
      && WokenBy(y.d, Cqe(Record(Encode(token, PollKind), 0, sub), result)) == [Waiter(y.d.polls[token], write).value]
  {
    AfterKeepsPollers(events, answer);
    var y := After(events, answer);
    hide After, Flying;
    assert PollerOk(y.d.polls[token], Flying(y.d.ring), token);
    PollWakesWaiterIff(y.d, token, result, sub, write);
  }

  // ---------- Awaiting over an armed poll ----------

  /** The event leaves this registration to the kernel: no await, no new interest, no deregistration. */
  predicate LeavesAlone(e: Event, token: nat) {
    !((e.SubmitPollEvent? || e.ReregisterPoll? || e.DeregisterPoll?) && e.token == token)
  }

  predicate AllLeaveAlone(events: seq<Event>, token: nat) {
    forall i | 0 <= i < |events| :: LeavesAlone(events[i], token)
  }

  /**
   * The task `k` waits in one direction; no completion for its token wakes it,
   * and awaiting that direction again submits no poll.
   */
  ghost predicate Stranded(d: Driver, token: nat, write: bool, k: Waker) {
    && token in d.polls && Waiter(d.polls[token], write) == Some(k)
    && (forall sub: nat, result: int :: k !in WokenBy(d, Cqe(Record(Encode(token, PollKind), 0, sub), result)))
    && SubmitsNothing(d, token, !write, write)
  }

  ghost predicate SubmitsNothing(d: Driver, token: nat, read: bool, write: bool)
    requires token in d.polls
  {
    forall waker: Waker, pushed: bool :: SubmitPoll(d, token, waker, read, write, pushed).ring == d.ring
  }

  /** What the registration of a stranded task looks like: armed, while the interest is in the other direction. */
  ghost predicate Overruled(d: Driver, token: nat, write: bool, k: Waker) {
    token in d.polls && var reg := d.polls[token];
      && Waiter(reg, write) == Some(k) && Armed(reg, write)
      && reg.write != write && reg.read == write && Waiter(reg, !write) != Some(k)
  }

  lemma OverruledIsStranded(d: Driver, token: nat, write: bool, k: Waker)
    requires token < TOKEN_LIMIT && Overruled(d, token, write, k)
    ensures Stranded(d, token, write, k)
  {
    forall sub: nat, result: int
      ensures k !in WokenBy(d, Cqe(Record(Encode(token, PollKind), 0, sub), result))
    {
      PollWakesWaiterIff(d, token, result, sub, write);
    }
  }

  lemma DrainKeepsOverruled(d: Driver, e: Cqe, token: nat, write: bool, k: Waker)
    requires token < TOKEN_LIMIT && Overruled(d, token, write, k)
    ensures Overruled(DrainOne(d, e), token, write, k)
  {
    hide DrainOne;
    DrainOnRegistration(d, e, token);
  }

  lemma {:induction false} DrainAllKeepsOverruled(d: Driver, token: nat, write: bool, k: Waker)
    requires token < TOKEN_LIMIT && Overruled(d, token, write, k)
    ensures Overruled(DrainAll(d), token, write, k)
    decreases |d.ring.cq|
  {
    if d.ring.cq != [] {
      hide DrainOne;
      DrainKeepsOverruled(d.(ring := d.ring.(cq := d.ring.cq[1..])), d.ring.cq[0], token, write, k);
      DrainShortens(d);
      DrainAllKeepsOverruled(DrainFirst(d), token, write, k);
    }
  }

  lemma NextKeepsOverruled(y: System, e: Event, token: nat, write: bool, k: Waker, answer: nat -> int)
    requires token < TOKEN_LIMIT && Overruled(y.d, token, write, k) && LeavesAlone(e, token)
    ensures Overruled(Next(y, e, answer).d, token, write, k)
  {
    if e.CollectEvent? {
      hide DrainAll;
      DrainAllKeepsOverruled(y.d, token, write, k);
    }
  }

  lemma {:induction false} RunKeepsOverruled(events: seq<Event>, later: seq<Event>, token: nat, write: bool, k: Waker,
                                             answer: nat -> int)
    requires token < TOKEN_LIMIT && Overruled(After(events, answer).d, token, write, k) && AllLeaveAlone(later, token)
    ensures Overruled(After(events + later, answer).d, token, write, k)
  {
    hide After, Next, Overruled;
    if later == [] {
      assert events + later == events;
    } else {
      var n := |later| - 1;
      RunKeepsOverruled(events, later[..n], token, write, k, answer);
      AfterOneMore(events + later[..n], events + later, answer);
      NextKeepsOverruled(After(events + later[..n], answer), later[n], token, write, k, answer);
    }
  }

  /** After these events the task stays stranded until someone touches its registration. */
  ghost predicate StrandedForGood(events: seq<Event>, token: nat, write: bool, k: Waker, answer: nat -> int) {
    forall later: seq<Event> | AllLeaveAlone(later, token) :: Stranded(After(events + later, answer).d, token, write, k)
  }

  lemma OverruledForGood(events: seq<Event>, token: nat, write: bool, k: Waker, answer: nat -> int)
    requires token < TOKEN_LIMIT && Overruled(After(events, answer).d, token, write, k)
    ensures StrandedForGood(events, token, write, k, answer)
  {
    hide After, Overruled, Stranded;
    forall later: seq<Event> | AllLeaveAlone(later, token)
      ensures Stranded(After(events + later, answer).d, token, write, k)
    {
      RunKeepsOverruled(events, later, token, write, k, answer);
      OverruledIsStranded(After(events + later, answer).d, token, write, k);
    }
  }

  /** One await: it overrules an armed poll of the other direction, whose waiter is another task or lost its own poll. */
  lemma AwaitOverrulesIff(d: Driver, token: nat, waker: Waker, write: bool, pushed: bool, k: Waker)
    requires token < TOKEN_LIMIT && token in d.polls && PollerOk(d.polls[token], Flying(d.ring), token)
    requires Waiter(d.polls[token], !write) == Some(k)
    ensures var d' := SubmitPoll(d, token, waker, !write, write, pushed);
      && (k != waker || !pushed ==> Overruled(d', token, !write, k))
      && (k == waker && pushed ==> !Stranded(d', token, !write, k))
  {
    hide Flying;
    var d' := SubmitPoll(d, token, waker, !write, write, pushed);
    if k == waker && pushed {
      var e := Cqe(Record(Encode(token, PollKind), 0, 0), 0);
      PollWakesWaiterIff(d', token, 0, 0, !write);
      assert k in WokenBy(d', e);
    }
  }

  lemma AfterAwait(events: seq<Event>, token: nat, waker: Waker, write: bool, pushed: bool, answer: nat -> int)
    requires token < TOKEN_LIMIT && token in After(events, answer).d.polls
    ensures After(events + [SubmitPollEvent(token, waker, !write, write, pushed)], answer).d
      == SubmitPoll(After(events, answer).d, token, waker, !write, write, pushed)
  {
    hide After;
    AfterOneMore(events, events + [SubmitPollEvent(token, waker, !write, write, pushed)], answer);
  }

  /**
   * When awaiting one direction strands a task, decided by what the caller knows
   * before the call. After any run that awaits one direction at a time, some task
   * waiting in the other direction is stranded for good if and only if a poll is
   * armed for that direction, unless its waiter is the caller itself and the new
   * poll is submitted. Stranded: whatever the kernel and everyone else do, no
   * completion wakes it and awaiting again submits no poll.
   */
  lemma AwaitStrandsIff(events: seq<Event>, token: nat, waker: Waker, write: bool, pushed: bool, answer: nat -> int)
    requires AlwaysApart(events, answer) && token in After(events, answer).d.polls
    ensures var reg := After(events, answer).d.polls[token];
      (exists k :: Waiter(reg, !write) == Some(k)
         && StrandedForGood(events + [SubmitPollEvent(token, waker, !write, write, pushed)], token, !write, k, answer))
      <==> Armed(reg, !write) && (pushed ==> Waiter(reg, !write) != Some(waker))
  {
    hide After, Next, Flying, Stranded, StrandedForGood, Overruled, SubmitPoll;
    var y, longer := After(events, answer), events + [SubmitPollEvent(token, waker, !write, write, pushed)];
    AfterKeepsPollers(events, answer);
    var reg := y.d.polls[token];
    assert PollerOk(reg, Flying(y.d.ring), token);
    AfterAwait(events, token, waker, write, pushed, answer);
    if Armed(reg, !write) {
      var k := Waiter(reg, !write).value;
      AwaitOverrulesIff(y.d, token, waker, write, pushed, k);
      if pushed && k == waker {
        NotForGood(longer, token, !write, k, answer);
      } else {
        OverruledForGood(longer, token, !write, k, answer);
      }
    }
  }

  /** One half holds of every run: awaiting over an armed poll strands its waiter, if that is another task. */
  lemma AwaitStrandsOther(events: seq<Event>, token: nat, waker: Waker, write: bool, pushed: bool, k: Waker, answer: nat -> int)
    requires token < TOKEN_LIMIT && token in After(events, answer).d.polls && k != waker
    requires var reg := After(events, answer).d.polls[token]; Armed(reg, !write) && Waiter(reg, !write) == Some(k)
    ensures StrandedForGood(events + [SubmitPollEvent(token, waker, !write, write, pushed)], token, !write, k, answer)
  {
    hide After, Next, StrandedForGood;
    AfterAwait(events, token, waker, write, pushed, answer);
    OverruledForGood(events + [SubmitPollEvent(token, waker, !write, write, pushed)], token, !write, k, answer);
  }

  lemma NotForGood(events: seq<Event>, token: nat, write: bool, k: Waker, answer: nat -> int)
    requires !Stranded(After(events, answer).d, token, write, k)
    ensures !StrandedForGood(events, token, write, k, answer)
  {
    var none: seq<Event> := [];
    assert events + none == events && AllLeaveAlone(none, token);
  }
}
