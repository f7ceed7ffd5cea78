/** Every event keeps the invariant of UringSpec, and what that means over whole runs. */
module UringProofs {
  import opened Prelude
  import opened UringSpec

  // ---------- What is in flight ----------

  lemma PushFlies(ring: Ring, key: nat, op: nat)
    ensures Flying(Push(ring, key, op)) == Flying(ring) + multiset{Record(key, op, ring.nextSub)}
  {}

  lemma TakeKeepsFlying(ring: Ring, n: nat)
    ensures Flying(Takes(ring, n)) == Flying(ring)
  {
    var k := Min(n, |ring.sq|);
    assert ring.sq == ring.sq[..k] + ring.sq[k..];
  }

  lemma WithoutIsMultiset<T>(s: seq<T>, i: nat)
    requires i < |s|
    ensures multiset(s) == multiset(Without(s, i)) + multiset{s[i]}
  {
    assert s == s[..i] + [s[i]] + s[i + 1..];
  }

  lemma CompleteKeepsFlying(ring: Ring, i: nat, answer: nat -> int)
    requires i < |ring.kernel|
    ensures Flying(KernelStep(ring, i, answer)) == Flying(ring)
  {
    WithoutIsMultiset(ring.kernel, i);
    var ring' := KernelStep(ring, i, answer);
    assert Records(ring'.cq) == Records(ring.cq) + [ring.kernel[i]];
  }

  lemma DrainUnflies(ring: Ring)
    requires ring.cq != []
    ensures ring.cq[0].rec in Flying(ring)
    ensures Flying(ring.(cq := ring.cq[1..])) == Flying(ring) - multiset{ring.cq[0].rec}
  {
    assert Records(ring.cq) == [ring.cq[0].rec] + Records(ring.cq[1..]);
  }

  // ---------- Submitting ----------

  /** A push is refused exactly when the queue is full and the system call failed or made no room. */
  lemma PushIsAcceptedIff(ring: Ring, capacity: nat, call: SubmitCall)
    requires capacity > 0 && |ring.sq| <= capacity
    ensures Accepts(ring, capacity, call) <==>
      || |ring.sq| < capacity
      || (call.took > 0 && (call.error.Some? ==> call.error.value == EBUSY || call.error.value == ETIME))
    ensures Accepts(ring, capacity, call) ==> |Push(Takes(ring, RoomMade(ring, capacity, call)), 0, 0).sq| <= capacity
  {}

  lemma {:induction false} FinishKeepsFlying(ring: Ring, done: seq<nat>, answer: nat -> int)
    ensures var ring' := Finishes(ring, done, answer); Flying(ring') == Flying(ring) && ring'.sq == ring.sq
    decreases |done|
  {
    hide Flying;
    if done != [] {
      if done[0] < |ring.kernel| {
        CompleteKeepsFlying(ring, done[0], answer);
        FinishKeepsFlying(KernelStep(ring, done[0], answer), done[1..], answer);
      } else {
        FinishKeepsFlying(ring, done[1..], answer);
      }
    }
  }

  lemma CallKeepsFlying(ring: Ring, call: SubmitCall, done: seq<nat>, answer: nat -> int)
    ensures var ring' := Called(ring, call, done, answer).0;
      Flying(ring') == Flying(ring) && ring'.sq == ring.sq[Min(call.took, |ring.sq|)..]
  {
    hide Flying;
    TakeKeepsFlying(ring, call.took);
    FinishKeepsFlying(Takes(ring, call.took), done, answer);
  }

  /**
   * The first half of a collection neither loses nor invents submissions, except
   * for the timeout entry; and unless there is nothing to submit and no wait, it
   * fails or hands the kernel as many entries as the call takes.
   */
  lemma SubmissionsAreHandedOver(ring: Ring, capacity: nat, wait: bool, timed: bool, room: SubmitCall, call: SubmitCall,
                                 done: seq<nat>, answer: nat -> int)
    ensures var (ring', error) := Submitted(ring, capacity, wait, timed, room, call, done, answer);
      var timeout := multiset{Record(TIMEOUT_KEY, 0, ring.nextSub)};
      Flying(ring') == Flying(ring) || (wait && timed && Flying(ring') == Flying(ring) + timeout)
    ensures var (ring', error) := Submitted(ring, capacity, wait, timed, room, call, done, answer);
      error.None? ==>
        if wait && timed then call.took > |ring.sq| ==> ring'.sq == []
        else ring'.sq == ring.sq[Min(call.took, |ring.sq|)..]
    ensures Submitted(ring, capacity, wait, timed, room, call, done, answer).1.Some? <==>
      && (wait || ring.sq != [])
      && ((call.error.Some? && call.error.value != EBUSY && call.error.value != ETIME)
          || (wait && timed && !Accepts(ring, capacity, room)))
  {
    hide Flying, Called;
    CallKeepsFlying(ring, call, done, answer);
    CallFailsIff(ring, call, done, answer);
    var roomy := Takes(ring, RoomMade(ring, capacity, room));
    TakeKeepsFlying(ring, RoomMade(ring, capacity, room));
    PushFlies(roomy, TIMEOUT_KEY, 0);
    CallKeepsFlying(Push(roomy, TIMEOUT_KEY, 0), call, done, answer);
    CallFailsIff(Push(roomy, TIMEOUT_KEY, 0), call, done, answer);
  }

  lemma CallFailsIff(ring: Ring, call: SubmitCall, done: seq<nat>, answer: nat -> int)
    ensures Called(ring, call, done, answer).1 == CallError(call)
  {}

  // ---------- Slab entries against flights ----------

  lemma AddOtherKeepsFlight(flying: multiset<Record>, completions: map<nat, Completion>, owner: map<nat, Record>, r: Record)
    requires FlightOk(flying, completions, owner) && r !in flying && !IsCompletion(r.key)
    ensures FlightOk(flying + multiset{r}, completions, owner)
  {}

  lemma AddCompletionKeepsFlight(flying: multiset<Record>, completions: map<nat, Completion>, owner: map<nat, Record>,
                                 r: Record, c: Completion)
    requires FlightOk(flying, completions, owner) && r !in flying && IsCompletion(r.key)
    requires DecodeToken(r.key) !in completions && c.completed.None?
    ensures var t := DecodeToken(r.key); FlightOk(flying + multiset{r}, completions[t := c], owner[t := r])
  {}

  lemma RemoveOtherKeepsFlight(flying: multiset<Record>, completions: map<nat, Completion>, owner: map<nat, Record>, r: Record)
    requires FlightOk(flying, completions, owner) && r in flying && !IsCompletion(r.key)
    ensures FlightOk(flying - multiset{r}, completions, owner)
  {}

  /** Draining a completion gives its entry a result, or removes it. */
  lemma RemoveCompletionKeepsFlight(flying: multiset<Record>, completions: map<nat, Completion>, owner: map<nat, Record>,
                                    r: Record, c: Completion)
    requires FlightOk(flying, completions, owner) && r in flying && IsCompletion(r.key) && c.completed.Some?
    ensures var t := DecodeToken(r.key);
      && t in completions && t in owner && owner[t] == r && completions[t].completed.None?
      && FlightOk(flying - multiset{r}, completions[t := c], owner)
      && FlightOk(flying - multiset{r}, completions - {t}, owner)
  {}

  /** Wakers and parked buffers do not matter to flights; nor does taking out a finished entry. */
  lemma UpdateKeepsFlight(flying: multiset<Record>, completions: map<nat, Completion>, owner: map<nat, Record>,
                          t: nat, c: Completion)
    requires FlightOk(flying, completions, owner) && t in completions
    ensures c.completed == completions[t].completed ==> FlightOk(flying, completions[t := c], owner)
    ensures completions[t].completed.Some? ==> FlightOk(flying, completions - {t}, owner)
  {}

  // ---------- The interrupt ----------

  lemma AddKeepsArmed(flying: multiset<Record>, rearm: bool, r: Record)
    requires ArmedOk(flying, rearm) && r !in flying
    ensures r.key != INTERRUPT_KEY ==> ArmedOk(flying + multiset{r}, rearm)
    ensures r.key == INTERRUPT_KEY && rearm ==> ArmedOk(flying + multiset{r}, false)
  {
    if r.key != INTERRUPT_KEY && !rearm {
      var q :| IsTheInterrupt(flying, q);
      assert IsTheInterrupt(flying + multiset{r}, q);
    }
    if r.key == INTERRUPT_KEY && rearm {
      assert IsTheInterrupt(flying + multiset{r}, r);
    }
  }

  lemma RemoveKeepsArmed(flying: multiset<Record>, rearm: bool, r: Record)
    requires ArmedOk(flying, rearm) && r in flying && flying[r] == 1
    ensures ArmedOk(flying - multiset{r}, rearm || r.key == INTERRUPT_KEY)
  {
    if !rearm {
      var q :| IsTheInterrupt(flying, q);
      if r.key != INTERRUPT_KEY {
        assert IsTheInterrupt(flying - multiset{r}, q);
      }
    }
  }

  // ---------- Events on the ring ----------

  /** Nothing but the ring changes, and what flies stays the same. */
  lemma MoveKeepsInv(y: System, ring: Ring, answer: nat -> int)
    requires Inv(y, answer) && Flying(ring) == Flying(y.d.ring) && ring.nextSub == y.d.ring.nextSub
    requires QueueAnswersOk(ring.cq, answer)
    ensures Inv(y.(d := y.d.(ring := ring)), answer)
  {
    hide FlightOk, Flying, ArmedOk, NumbersOk, AnswersOk, OwnersOk, BuffersOk, QueueAnswersOk;
  }

  lemma PushKeepsInv(y: System, key: nat, answer: nat -> int)
    requires Inv(y, answer) && !IsCompletion(key) && (key != INTERRUPT_KEY || y.d.rearm)
    ensures Inv(y.(d := y.d.(ring := Push(y.d.ring, key, 0), rearm := y.d.rearm && key != INTERRUPT_KEY)), answer)
  {
    hide FlightOk, Flying, ArmedOk, OwnersOk, BuffersOk, QueueAnswersOk;
    var flying, r := Flying(y.d.ring), Record(key, 0, y.d.ring.nextSub);
    assert r !in flying;
    PushFlies(y.d.ring, key, 0);
    AddOtherKeepsFlight(flying, y.d.completions, y.owner, r);
    AddKeepsArmed(flying, y.d.rearm, r);
  }

  // ---------- Draining ----------

  lemma FlyingIsTracked(y: System, r: Record, answer: nat -> int)
    requires Inv(y, answer) && r in Flying(y.d.ring)
    ensures Flying(y.d.ring)[r] == 1
    ensures IsCompletion(r.key) ==>
      var t := DecodeToken(r.key);
      && t in y.d.completions && t in y.owner && y.owner[t] == r
      && EntryOk(y.d.completions, y.owner, y.ops, t)
  {}

  lemma DrainKeepsRing(ring: Ring, answer: nat -> int)
    requires ring.cq != [] && QueueAnswersOk(ring.cq, answer) && NumbersOk(Flying(ring), ring.nextSub)
    ensures ring.cq[0].result == answer(ring.cq[0].rec.sub)
    ensures QueueAnswersOk(ring.cq[1..], answer)
    ensures NumbersOk(Flying(ring.(cq := ring.cq[1..])), ring.nextSub)
  {
    DrainUnflies(ring);
  }

  lemma DrainOtherKeepsInv(y: System, answer: nat -> int)
    requires Inv(y, answer) && y.d.ring.cq != [] && !IsCompletion(y.d.ring.cq[0].rec.key)
    ensures Inv(y.(d := DrainFirst(y.d)), answer)
  {
    hide FlightOk, Flying, ArmedOk, NumbersOk, AnswersOk, OwnersOk, BuffersOk, QueueAnswersOk;
    var rec := y.d.ring.cq[0].rec;
    DrainUnflies(y.d.ring);
    DrainKeepsRing(y.d.ring, answer);
    FlyingIsTracked(y, rec, answer);
    RemoveOtherKeepsFlight(Flying(y.d.ring), y.d.completions, y.owner, rec);
    RemoveKeepsArmed(Flying(y.d.ring), y.d.rearm, rec);
  }

  lemma DrainCompletionKeepsInv(y: System, answer: nat -> int)
    requires Inv(y, answer) && y.d.ring.cq != [] && IsCompletion(y.d.ring.cq[0].rec.key)
    ensures Inv(y.(d := DrainFirst(y.d)), answer)
  {
    hide FlightOk, Flying, ArmedOk, NumbersOk, AnswersOk, OwnersOk, BuffersOk, QueueAnswersOk;
    var e := y.d.ring.cq[0];
    var t := DecodeToken(e.rec.key);
    DrainUnflies(y.d.ring);
    DrainKeepsRing(y.d.ring, answer);
    FlyingIsTracked(y, e.rec, answer);
    RemoveCompletionKeepsFlight(Flying(y.d.ring), y.d.completions, y.owner, e.rec, Completion(None, Some(e.result), None));
    RemoveKeepsArmed(Flying(y.d.ring), y.d.rearm, e.rec);
    AbsorbKeepsOwners(y.d, y.owner, y.ops, y.created, t, e.result);
    AbsorbKeepsAnswers(y.d, y.owner, y.d.ring.nextSub, y.delivered, t, e.result, answer);
  }

  lemma AbsorbKeepsOwners(d: Driver, owner: map<nat, Record>, ops: map<nat, Op>, created: set<nat>, t: nat, result: int)
    requires OwnersOk(d.completions, owner, ops) && BuffersOk(d.completions, owner, ops, d.released, created)
    requires t in d.completions && t in owner
    ensures var d' := Absorb(d, t, result);
      OwnersOk(d'.completions, owner, ops) && BuffersOk(d'.completions, owner, ops, d'.released, created)
  {
    var d' := Absorb(d, t, result);
    assert EntryOk(d.completions, owner, ops, t);
    forall u | u in d'.completions && u in owner
      ensures EntryOk(d'.completions, owner, ops, u)
    {
      assert EntryOk(d.completions, owner, ops, u);
    }
  }

  lemma AbsorbKeepsAnswers(d: Driver, owner: map<nat, Record>, nextSub: nat, delivered: set<nat>, t: nat, result: int,
                           answer: nat -> int)
    requires AnswersOk(d.completions, owner, nextSub, delivered, answer)
    requires t in d.completions && t in owner && result == answer(owner[t].sub)
    ensures AnswersOk(Absorb(d, t, result).completions, owner, nextSub, delivered, answer)
  {}

  lemma DrainFirstKeepsInv(y: System, answer: nat -> int)
    requires Inv(y, answer) && y.d.ring.cq != []
    ensures Inv(y.(d := DrainFirst(y.d)), answer) && |DrainFirst(y.d).ring.cq| < |y.d.ring.cq|
  {
    hide Inv;
    if IsCompletion(y.d.ring.cq[0].rec.key) {
      DrainCompletionKeepsInv(y, answer);
    } else {
      DrainOtherKeepsInv(y, answer);
    }
  }

  lemma {:induction false} DrainAllKeepsInv(y: System, answer: nat -> int)
    requires Inv(y, answer)
    ensures Inv(y.(d := DrainAll(y.d)), answer)
    decreases |y.d.ring.cq|
  {
    hide Inv;
    if y.d.ring.cq == [] {
      assert y.(d := DrainAll(y.d)) == y;
    } else {
      if IsCompletion(y.d.ring.cq[0].rec.key) {
        DrainCompletionKeepsInv(y, answer);
      } else {
        DrainOtherKeepsInv(y, answer);
      }
      var z := y.(d := DrainFirst(y.d));
      DrainAllKeepsInv(z, answer);
      assert z.(d := DrainAll(z.d)) == y.(d := DrainAll(y.d));
    }
  }

  lemma RoomKeepsInv(y: System, n: nat, answer: nat -> int)
    requires Inv(y, answer)
    ensures Inv(y.(d := Room(y.d, n)), answer)
  {
    hide FlightOk, Flying, ArmedOk, NumbersOk, AnswersOk, OwnersOk, BuffersOk, QueueAnswersOk;
    TakeKeepsFlying(y.d.ring, n);
    MoveKeepsInv(y, Takes(y.d.ring, n), answer);
  }

  lemma CollectKeepsInv(y: System, room: nat, answer: nat -> int)
    requires Inv(y, answer)
    ensures Inv(y.(d := Collect(y.d, room)), answer)
  {
    hide Inv, DrainAll, Takes;
    DrainAllKeepsInv(y, answer);
    var z := y.(d := DrainAll(y.d));
    if z.d.rearm {
      RoomKeepsInv(z, room, answer);
      var w := z.(d := Room(z.d, room));
      PushKeepsInv(w, INTERRUPT_KEY, answer);
      assert w.(d := w.d.(ring := Push(w.d.ring, INTERRUPT_KEY, 0), rearm := false)) == y.(d := Collect(y.d, room));
    } else {
      assert z == y.(d := Collect(y.d, room));
    }
  }

  /** Registrations in poll mode do not matter to completions. */
  lemma PollsDoNotMatter(y: System, polls: map<nat, PollReg>, answer: nat -> int)
    requires Inv(y, answer)
    ensures Inv(y.(d := y.d.(polls := polls)), answer)
  {
    hide FlightOk, Flying, ArmedOk, NumbersOk, AnswersOk, OwnersOk, BuffersOk, QueueAnswersOk;
  }

  lemma SubmitPollKeepsInv(y: System, token: nat, waker: Waker, read: bool, write: bool, pushed: bool, answer: nat -> int)
    requires Inv(y, answer) && token in y.d.polls && token < TOKEN_LIMIT
    ensures Inv(y.(d := SubmitPoll(y.d, token, waker, read, write, pushed)), answer)
  {
    hide Inv;
    var y' := y.(d := SubmitPoll(y.d, token, waker, read, write, pushed));
    PollsDoNotMatter(y, y'.d.polls, answer);
    var z := y.(d := y.d.(polls := y'.d.polls));
    if pushed && !Armed(y.d.polls[token], write) {
      PushKeepsInv(z, Encode(token, PollKind), answer);
      assert z.(d := z.d.(ring := y'.d.ring, rearm := z.d.rearm)) == y';
    } else {
      assert z == y';
    }
  }

  // ---------- Events on operations ----------

  lemma SubmitKeepsInv(y: System, id: nat, waker: Waker, token: nat, answer: nat -> int)
    requires Inv(y, answer) && id in y.ops && y.ops[id].token.None?
    requires token !in y.d.completions && token < TOKEN_LIMIT
    ensures Inv(PollStep(y, id, waker, token, true), answer)
  {
    hide FlightOk, Flying, ArmedOk, AnswersOk, OwnersOk, BuffersOk, QueueAnswersOk;
    KeysAreSound(token);
    var key := Encode(token, CompletionKind);
    assert DecodeToken(key) == token && DecodeKind(key) == CompletionKind && key != INTERRUPT_KEY;
    var flying, r := Flying(y.d.ring), Record(key, id, y.d.ring.nextSub);
    assert r !in flying;
    var c := Completion(Some(waker), None, None);
    PushFlies(y.d.ring, key, id);
    AddCompletionKeepsFlight(flying, y.d.completions, y.owner, r, c);
    AddKeepsArmed(flying, y.d.rearm, r);
    SubmitKeepsOwners(y.d.completions, y.owner, y.ops, y.d.released, y.created, id, token, r, waker);
    SubmitKeepsAnswers(y.d.completions, y.owner, y.d.ring.nextSub, y.delivered, token, r, waker, answer);
  }

  lemma SubmitKeepsOwners(completions: map<nat, Completion>, owner: map<nat, Record>, ops: map<nat, Op>,
                          released: set<nat>, created: set<nat>, id: nat, t: nat, r: Record, waker: Waker)
    requires OwnersOk(completions, owner, ops) && BuffersOk(completions, owner, ops, released, created)
    requires id in ops && ops[id].token.None? && t !in completions && r.op == id
    ensures var completions', owner' := completions[t := Completion(Some(waker), None, None)], owner[t := r];
      var ops' := ops[id := Op(Some(t), r.sub, waker)];
      OwnersOk(completions', owner', ops') && BuffersOk(completions', owner', ops', released, created)
  {
    var completions', owner' := completions[t := Completion(Some(waker), None, None)], owner[t := r];
    var ops' := ops[id := Op(Some(t), r.sub, waker)];
    forall u | u in completions' && u in owner' && u != t
      ensures EntryOk(completions', owner', ops', u)
    {
      assert EntryOk(completions, owner, ops, u);
    }
  }

  lemma SubmitKeepsAnswers(completions: map<nat, Completion>, owner: map<nat, Record>, nextSub: nat, delivered: set<nat>,
                           t: nat, r: Record, waker: Waker, answer: nat -> int)
    requires AnswersOk(completions, owner, nextSub, delivered, answer) && t !in completions && r.sub == nextSub
    ensures AnswersOk(completions[t := Completion(Some(waker), None, None)], owner[t := r], nextSub + 1, delivered, answer)
  {}

  /** The result an operation takes out is the kernel's answer to its own submission, for the first time. */
  lemma TakeResultKeepsInv(y: System, id: nat, waker: Waker, token: nat, pushed: bool, answer: nat -> int)
    requires Inv(y, answer) && id in y.ops && y.ops[id].token.Some?
    requires PollOp(y.ops[id], id, y.d, waker, token, pushed).2.Ready?
    ensures Inv(PollStep(y, id, waker, token, pushed), answer)
    ensures PollOp(y.ops[id], id, y.d, waker, token, pushed).2.result == answer(y.ops[id].sub)
    ensures y.ops[id].sub !in y.delivered
  {
    hide FlightOk, Flying, ArmedOk, NumbersOk, QueueAnswersOk, AnswersOk, OwnersOk, BuffersOk;
    var t := y.ops[id].token.value;
    TokenIsOwned(y.d.completions, y.owner, y.ops, id);
    UpdateKeepsFlight(Flying(y.d.ring), y.d.completions, y.owner, t, y.d.completions[t]);
    TakeKeepsOwners(y.d.completions, y.owner, y.ops, y.d.released, y.created, id);
    TakeKeepsAnswers(y.d.completions, y.owner, y.d.ring.nextSub, y.delivered, t, answer);
  }

  lemma TokenIsOwned(completions: map<nat, Completion>, owner: map<nat, Record>, ops: map<nat, Op>, id: nat)
    requires OwnersOk(completions, owner, ops) && id in ops && ops[id].token.Some?
    ensures var t := ops[id].token.value;
      t in completions && t in owner && owner[t].op == id && owner[t].sub == ops[id].sub
  {
    assert EntryOk(completions, owner, ops, ops[id].token.value);
  }

  lemma TakeKeepsOwners(completions: map<nat, Completion>, owner: map<nat, Record>, ops: map<nat, Op>,
                        released: set<nat>, created: set<nat>, id: nat)
    requires OwnersOk(completions, owner, ops) && BuffersOk(completions, owner, ops, released, created)
    requires id in ops && ops[id].token.Some?
    ensures var completions', ops' := completions - {ops[id].token.value}, ops[id := ops[id].(token := None)];
      OwnersOk(completions', owner, ops') && BuffersOk(completions', owner, ops', released, created)
  {
    var completions', ops' := completions - {ops[id].token.value}, ops[id := ops[id].(token := None)];
    forall u | u in completions' && u in owner
      ensures EntryOk(completions', owner, ops', u)
    {
      assert EntryOk(completions, owner, ops, u);
    }
  }

  lemma TakeKeepsAnswers(completions: map<nat, Completion>, owner: map<nat, Record>, nextSub: nat, delivered: set<nat>,
                         t: nat, answer: nat -> int)
    requires AnswersOk(completions, owner, nextSub, delivered, answer) && t in completions && t in owner
    ensures owner[t].sub !in delivered
    ensures completions[t].completed.Some? ==> completions[t].completed.value == answer(owner[t].sub)
    ensures AnswersOk(completions - {t}, owner, nextSub, delivered + {owner[t].sub}, answer)
  {}

  lemma WaitKeepsInv(y: System, id: nat, waker: Waker, token: nat, pushed: bool, answer: nat -> int)
    requires Inv(y, answer) && id in y.ops && y.ops[id].token.Some?
    requires PollOp(y.ops[id], id, y.d, waker, token, pushed).2.Pending?
    ensures Inv(PollStep(y, id, waker, token, pushed), answer)
  {
    hide FlightOk, Flying, ArmedOk, NumbersOk, QueueAnswersOk, AnswersOk, OwnersOk, BuffersOk;
    var t := y.ops[id].token.value;
    TokenIsOwned(y.d.completions, y.owner, y.ops, id);
    var c := y.d.completions[t].(waiter := Some(waker));
    UpdateKeepsFlight(Flying(y.d.ring), y.d.completions, y.owner, t, c);
    UpdateKeepsAnswers(y.d.completions, y.owner, y.d.ring.nextSub, y.delivered, t, c, answer);
    WaitKeepsOwners(y.d.completions, y.owner, y.ops, y.d.released, y.created, id, waker);
  }

  lemma UpdateKeepsAnswers(completions: map<nat, Completion>, owner: map<nat, Record>, nextSub: nat, delivered: set<nat>,
                           t: nat, c: Completion, answer: nat -> int)
    requires AnswersOk(completions, owner, nextSub, delivered, answer)
    requires t in completions && c.completed == completions[t].completed
    ensures AnswersOk(completions[t := c], owner, nextSub, delivered, answer)
  {}

  lemma WaitKeepsOwners(completions: map<nat, Completion>, owner: map<nat, Record>, ops: map<nat, Op>,
                        released: set<nat>, created: set<nat>, id: nat, waker: Waker)
    requires OwnersOk(completions, owner, ops) && BuffersOk(completions, owner, ops, released, created)
    requires id in ops && ops[id].token.Some? && ops[id].token.value in completions
    ensures var t := ops[id].token.value;
      var completions', ops' := completions[t := completions[t].(waiter := Some(waker))], ops[id := ops[id].(waker := waker)];
      OwnersOk(completions', owner, ops') && BuffersOk(completions', owner, ops', released, created)
  {
    var t := ops[id].token.value;
    var completions', ops' := completions[t := completions[t].(waiter := Some(waker))], ops[id := ops[id].(waker := waker)];
    forall u | u in completions' && u in owner
      ensures EntryOk(completions', owner, ops', u)
    {
      assert EntryOk(completions, owner, ops, u);
    }
  }

  lemma PollKeepsInv(y: System, id: nat, waker: Waker, token: nat, pushed: bool, answer: nat -> int)
    requires Inv(y, answer) && id in y.ops && token !in y.d.completions && token < TOKEN_LIMIT
    ensures Inv(PollStep(y, id, waker, token, pushed), answer)
  {
    hide Inv;
    var poll := PollOp(y.ops[id], id, y.d, waker, token, pushed).2;
    if y.ops[id].token.Some? {
      if poll.Ready? {
        TakeResultKeepsInv(y, id, waker, token, pushed, answer);
      } else {
        WaitKeepsInv(y, id, waker, token, pushed, answer);
      }
    } else if pushed {
      SubmitKeepsInv(y, id, waker, token, answer);
    } else {
      assert y.ops[id := y.ops[id]] == y.ops;
      assert PollStep(y, id, waker, token, pushed) == y;
    }
  }

  lemma DropKeepsInv(y: System, id: nat, answer: nat -> int)
    requires Inv(y, answer) && id in y.ops
    ensures Inv(y.(d := DropOp(y.ops[id], id, y.d), ops := y.ops - {id}), answer)
  {
    hide FlightOk, Flying, ArmedOk, NumbersOk, QueueAnswersOk, AnswersOk, OwnersOk, BuffersOk;
    if y.ops[id].token.Some? {
      var t := y.ops[id].token.value;
      TokenIsOwned(y.d.completions, y.owner, y.ops, id);
      var c := y.d.completions[t].(ignored := Some(id));
      UpdateKeepsFlight(Flying(y.d.ring), y.d.completions, y.owner, t, c);
      UpdateKeepsAnswers(y.d.completions, y.owner, y.d.ring.nextSub, y.delivered, t, c, answer);
    }
    ForgetKeepsOwners(y.d, DropOp(y.ops[id], id, y.d), y.owner, y.ops, id);
    DropKeepsBuffers(y.d, y.owner, y.ops, y.created, id);
  }

  lemma DropKeepsBuffers(d: Driver, owner: map<nat, Record>, ops: map<nat, Op>, created: set<nat>, id: nat)
    requires OwnersOk(d.completions, owner, ops) && BuffersOk(d.completions, owner, ops, d.released, created)
    requires id in ops
    ensures var d' := DropOp(ops[id], id, d); BuffersOk(d'.completions, owner, ops - {id}, d'.released, created)
  {
    assert forall u | u in d.completions && u in owner :: EntryOk(d.completions, owner, ops, u);
  }

  lemma ForgetKeepsOwners(d: Driver, d': Driver, owner: map<nat, Record>, ops: map<nat, Op>, id: nat)
    requires OwnersOk(d.completions, owner, ops) && id in ops
    requires ops[id].token.Some? ==> d' == IgnoreCompletion(d, ops[id].token.value, id)
    requires ops[id].token.None? ==> d'.completions == d.completions
    ensures OwnersOk(d'.completions, owner, ops - {id})
  {
    forall u | u in d'.completions && u in owner
      ensures EntryOk(d'.completions, owner, ops - {id}, u)
    {
      assert EntryOk(d.completions, owner, ops, u);
    }
  }

  lemma TakeBufferKeepsInv(y: System, id: nat, answer: nat -> int)
    requires Inv(y, answer) && id in y.ops && y.ops[id].token.None?
    ensures Inv(y.(ops := y.ops - {id}), answer)
  {
    hide FlightOk, Flying, ArmedOk, NumbersOk, QueueAnswersOk, AnswersOk;
    ForgetKeepsOwners(y.d, y.d, y.owner, y.ops, id);
    assert forall u | u in y.d.completions && u in y.owner :: EntryOk(y.d.completions, y.owner, y.ops, u);
  }

  lemma NewOpKeepsInv(y: System, id: nat, answer: nat -> int)
    requires Inv(y, answer) && id !in y.created
    ensures Inv(y.(ops := y.ops[id := Op(None, 0, 0)], created := y.created + {id}), answer)
  {
    hide FlightOk, Flying, ArmedOk, NumbersOk, QueueAnswersOk, AnswersOk;
    var ops' := y.ops[id := Op(None, 0, 0)];
    forall u | u in y.d.completions && u in y.owner
      ensures EntryOk(y.d.completions, y.owner, ops', u)
    {
      assert EntryOk(y.d.completions, y.owner, y.ops, u);
    }
  }

  lemma NextKeepsInv(y: System, e: Event, answer: nat -> int)
    requires Inv(y, answer)
    ensures Inv(Next(y, e, answer), answer)
  {
    hide Flying, FlightOk, ArmedOk, NumbersOk, AnswersOk, OwnersOk, BuffersOk, PollStep, DropOp, Collect, SubmitPoll, Takes;
    match e
    case NewOp(id) =>
      if id !in y.created { NewOpKeepsInv(y, id, answer); }
    case PollEvent(id, waker, token, pushed) =>
      if id in y.ops && token !in y.d.completions && token < TOKEN_LIMIT {
        PollKeepsInv(y, id, waker, token, pushed, answer);
      }
    case DropEvent(id) =>
      if id in y.ops { DropKeepsInv(y, id, answer); }
    case TakeBuffer(id) =>
      if id in y.ops && y.ops[id].token.None? { TakeBufferKeepsInv(y, id, answer); }
    case RegisterPoll(token, read, write) =>
      PollsDoNotMatter(y, Next(y, e, answer).d.polls, answer);
    case ReregisterPoll(token, read, write) =>
      PollsDoNotMatter(y, Next(y, e, answer).d.polls, answer);
    case DeregisterPoll(token) =>
      PollsDoNotMatter(y, Next(y, e, answer).d.polls, answer);
    case SubmitPollEvent(token, waker, read, write, pushed) =>
      if token in y.d.polls && token < TOKEN_LIMIT {
        SubmitPollKeepsInv(y, token, waker, read, write, pushed, answer);
      }
    case PushTimeout =>
      PushKeepsInv(y, TIMEOUT_KEY, answer);
    case KernelTakes(n) =>
      RoomKeepsInv(y, n, answer);
    case KernelCompletes(i) =>
      if i < |y.d.ring.kernel| {
        CompleteKeepsFlying(y.d.ring, i, answer);
        MoveKeepsInv(y, KernelStep(y.d.ring, i, answer), answer);
      }
    case CollectEvent(room) =>
      CollectKeepsInv(y, room, answer);
  }

  lemma InitIsOk(answer: nat -> int)
    ensures Inv(Init(), answer)
  {
    var r := Record(INTERRUPT_KEY, 0, 0);
    assert Flying(Init().d.ring) == multiset{r};
    assert IsTheInterrupt(multiset{r}, r);
  }

  lemma {:induction false} AfterIsOk(events: seq<Event>, answer: nat -> int)
    ensures Inv(After(events, answer), answer)
  {
    hide Inv, Next;
    if events == [] {
      InitIsOk(answer);
    } else {
      AfterIsOk(events[..|events| - 1], answer);
      NextKeepsInv(After(events[..|events| - 1], answer), events[|events| - 1], answer);
    }
  }

  lemma AfterOneMore(events: seq<Event>, longer: seq<Event>, answer: nat -> int)
    requires |longer| == |events| + 1 && forall i | 0 <= i < |events| :: longer[i] == events[i]
    ensures After(longer, answer) == Next(After(events, answer), longer[|events|], answer)
  {
    assert longer[..|events|] == events;
  }

  // ---------- The theorems ----------

  /**
   * Completion ownership: after any run, for any order in which the kernel
   * finishes operations and any drops, the slab entries without a result are in
   * bijection with the completions in flight.
   */
  lemma EntriesMatchFlights(events: seq<Event>, answer: nat -> int)
    ensures var y := After(events, answer); var flying := Flying(y.d.ring);
      && (forall t :: (t in y.d.completions && y.d.completions[t].completed.None?) <==>
            exists r :: r in flying && IsCompletion(r.key) && DecodeToken(r.key) == t)
      && (forall r | r in flying :: flying[r] == 1)
      && (forall r, q | r in flying && q in flying && IsCompletion(r.key) && IsCompletion(q.key)
            && DecodeToken(r.key) == DecodeToken(q.key) :: r == q)
  {
    var y := After(events, answer);
    AfterIsOk(events, answer);
    hide After, Flying;
    forall t | t in y.d.completions && y.d.completions[t].completed.None?
      ensures exists r :: r in Flying(y.d.ring) && IsCompletion(r.key) && DecodeToken(r.key) == t
    {
      assert y.owner[t] in Flying(y.d.ring);
    }
  }

  /** So a vacant token, the only kind a submission can get, is never one still in flight. */
  lemma TokensAreNotReusedInFlight(events: seq<Event>, answer: nat -> int, token: nat, r: Record)
    requires token !in After(events, answer).d.completions
    requires r in Flying(After(events, answer).d.ring) && IsCompletion(r.key)
    ensures DecodeToken(r.key) != token
  {
    EntriesMatchFlights(events, answer);
  }

  /** An operation receives the kernel's answer to its own submission, and receives it once. */
  lemma OwnResultOnce(events: seq<Event>, answer: nat -> int, id: nat, waker: Waker, token: nat, pushed: bool)
    requires id in After(events, answer).ops
    requires var y := After(events, answer); PollOp(y.ops[id], id, y.d, waker, token, pushed).2.Ready?
    ensures var y := After(events, answer);
      && PollOp(y.ops[id], id, y.d, waker, token, pushed).2.result == answer(y.ops[id].sub)
      && y.ops[id].sub !in y.delivered
  {
    AfterIsOk(events, answer);
    var y := After(events, answer);
    hide After, Inv;
    TakeResultKeepsInv(y, id, waker, token, pushed, answer);
  }

  /**
   * Buffer retention: while a completion is in flight its buffer belongs to the
   * live operation that holds the token, or is parked in the slab under that
   * token; it has not been released.
   */
  lemma BuffersOutliveFlights(events: seq<Event>, answer: nat -> int, r: Record)
    requires r in Flying(After(events, answer).d.ring) && IsCompletion(r.key)
    ensures var y := After(events, answer); var t := DecodeToken(r.key);
      && r.op !in y.d.released
      && ((r.op in y.ops && y.ops[r.op].token == Some(t))
          || (t in y.d.completions && y.d.completions[t].ignored == Some(r.op)))
  {
    AfterIsOk(events, answer);
    FlyingIsTracked(After(events, answer), r, answer);
  }

  /** A released buffer stays out of every later flight, live operation and slab entry. */
  lemma ReleasedBuffersAreUnused(events: seq<Event>, answer: nat -> int, id: nat)
    requires id in After(events, answer).d.released
    ensures var y := After(events, answer);
      && id !in y.ops
      && (forall t | t in y.d.completions :: y.d.completions[t].ignored != Some(id))
      && (forall r | r in Flying(y.d.ring) && IsCompletion(r.key) :: r.op != id)
  {
    AfterIsOk(events, answer);
    var y := After(events, answer);
    hide After, Flying;
    forall t | t in y.d.completions ensures y.d.completions[t].ignored != Some(id) {
      assert EntryOk(y.d.completions, y.owner, y.ops, t);
    }
  }

  /** A waiting operation has its latest waker registered, or its result is there for the next poll. */
  lemma NoStrandedOperation(events: seq<Event>, answer: nat -> int, id: nat)
    requires var y := After(events, answer); id in y.ops && y.ops[id].token.Some?
    ensures var y := After(events, answer); var t := y.ops[id].token.value;
      && t in y.d.completions
      && (y.d.completions[t].completed.Some? || y.d.completions[t].waiter == Some(y.ops[id].waker))
  {
    AfterIsOk(events, answer);
    var y := After(events, answer);
    hide After;
    assert EntryOk(y.d.completions, y.owner, y.ops, y.ops[id].token.value);
  }

  /** Between collections the interrupt read is outstanding, exactly once. */
  lemma InterruptStaysArmed(events: seq<Event>, answer: nat -> int)
    ensures var y := After(events, answer); var flying := Flying(y.d.ring);
      !y.d.rearm && exists r :: IsTheInterrupt(flying, r) && flying[r] == 1
  {
    AfterIsOk(events, answer);
    NeverMidDrain(events, answer);
    var flying := Flying(After(events, answer).d.ring);
    hide After;
    var r :| IsTheInterrupt(flying, r);
    assert flying[r] == 1;
  }

  lemma {:induction false} NeverMidDrain(events: seq<Event>, answer: nat -> int)
    ensures !After(events, answer).d.rearm
  {
    if events != [] {
      NeverMidDrain(events[..|events| - 1], answer);
      StaysOutOfDrain(After(events[..|events| - 1], answer), events[|events| - 1], answer);
      hide Next;
    }
  }

  lemma StaysOutOfDrain(y: System, e: Event, answer: nat -> int)
    requires !y.d.rearm
    ensures !Next(y, e, answer).d.rearm
  {
    hide DrainAll, Push, KernelStep, Takes, Encode;
  }
}
