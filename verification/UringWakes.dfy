/**
 * Who is woken when the completion queue is drained, what an operation gets for
 * it, and where buffers are. Over the runs of UringSpec.
 */
module UringWakes {
  import opened Prelude
  import opened UringSpec
  import opened UringProofs

  // ---------- The wakers of a drain, read off the queue and the slab ----------

  /**
   * The waiter an entry of the completion queue stands for: that of its slab
   * entry, or that of the direction last awaited, for the first entry of a poll.
   */
  ghost function EntryWaiter(d: Driver, i: nat): Option<Waker>
    requires i < |d.ring.cq|
  {
    var key := d.ring.cq[i].rec.key;
    var token := key / 2;
    if key == INTERRUPT_KEY || key == TIMEOUT_KEY then None
    else if key % 2 == 1 then
      if token in d.completions then d.completions[token].waiter else None
    else if token !in d.polls || exists j | 0 <= j < i :: d.ring.cq[j].rec.key == key then None
    else if d.polls[token].write then d.polls[token].writer
    else d.polls[token].reader
  }

  ghost function WaitersFrom(d: Driver, i: nat): seq<Waker>
    requires i <= |d.ring.cq|
    decreases |d.ring.cq| - i
  {
    if i == |d.ring.cq| then []
    else (if EntryWaiter(d, i).Some? then [EntryWaiter(d, i).value] else []) + WaitersFrom(d, i + 1)
  }

  lemma TwiceMeansTwo<T>(s: seq<T>, i: nat, j: nat)
    requires i < j < |s| && s[i] == s[j]
    ensures multiset(s)[s[i]] >= 2
  {
    assert s == s[..j] + s[j..];
    assert s[i] in s[..j] && s[j] in s[j..];
  }

  /** A completion is in the queue once, and no other entry has its key. */
  lemma CompletionsAreUnique(y: System, i: nat, j: nat, answer: nat -> int)
    requires Inv(y, answer) && i < j < |y.d.ring.cq| && IsCompletion(y.d.ring.cq[j].rec.key)
    ensures y.d.ring.cq[i].rec.key != y.d.ring.cq[j].rec.key
  {
    var cq := y.d.ring.cq;
    var records := Records(cq);
    assert records[i] == cq[i].rec && records[j] == cq[j].rec;
    assert cq[i].rec in multiset(records) && cq[j].rec in multiset(records);
    assert cq[i].rec in Flying(y.d.ring) && cq[j].rec in Flying(y.d.ring);
    hide QueueAnswersOk, AnswersOk, OwnersOk, BuffersOk, ArmedOk, NumbersOk;
    if cq[i].rec.key == cq[j].rec.key {
      FlyingIsTracked(y, cq[i].rec, answer);
      FlyingIsTracked(y, cq[j].rec, answer);
      TwiceMeansTwo(records, i, j);
      assert false;
    }
  }

  /** Draining the first entry leaves the waiters of the others as they were. */
  lemma OthersKeepWaiter(y: System, i: nat, answer: nat -> int)
    requires Inv(y, answer) && 0 < i < |y.d.ring.cq|
    ensures var d' := DrainFirst(y.d); |d'.ring.cq| == |y.d.ring.cq| - 1 && EntryWaiter(d', i - 1) == EntryWaiter(y.d, i)
  {
    hide Inv;
    var d, d' := y.d, DrainFirst(y.d);
    var key, first := d.ring.cq[i].rec.key, d.ring.cq[0].rec.key;
    assert forall k | 0 <= k < |d'.ring.cq| :: d'.ring.cq[k] == d.ring.cq[k + 1];
    if IsCompletion(key) {
      CompletionsAreUnique(y, 0, i, answer);
    } else if key != INTERRUPT_KEY && key != TIMEOUT_KEY && key / 2 in d.polls {
      if exists j | 0 <= j < i :: d.ring.cq[j].rec.key == key {
        var j :| 0 <= j < i && d.ring.cq[j].rec.key == key;
        if j > 0 {
          assert d'.ring.cq[j - 1].rec.key == key;
        }
      }
    }
  }

  lemma {:induction false} WaitersShift(y: System, i: nat, answer: nat -> int)
    requires Inv(y, answer) && 0 < i <= |y.d.ring.cq|
    ensures |DrainFirst(y.d).ring.cq| == |y.d.ring.cq| - 1 && WaitersFrom(DrainFirst(y.d), i - 1) == WaitersFrom(y.d, i)
    decreases |y.d.ring.cq| - i
  {
    hide Inv, EntryWaiter, DrainOne;
    DrainShortensBy(y.d);
    if i < |y.d.ring.cq| {
      OthersKeepWaiter(y, i, answer);
      WaitersShift(y, i + 1, answer);
    }
  }

  lemma DrainShortensBy(d: Driver)
    requires d.ring.cq != []
    ensures |DrainFirst(d).ring.cq| == |d.ring.cq| - 1
  {}

  lemma FirstWaiter(d: Driver)
    requires d.ring.cq != []
    ensures WokenBy(d, d.ring.cq[0]) == if EntryWaiter(d, 0).Some? then [EntryWaiter(d, 0).value] else []
  {}

  /**
   * The wakers a drain collects are exactly the waiters of the queue's entries,
   * one after the other, as they stand before the drain.
   */
  lemma {:induction false} WakersAreTheWaiters(y: System, answer: nat -> int)
    requires Inv(y, answer)
    ensures WokenByAll(y.d) == WaitersFrom(y.d, 0)
    decreases |y.d.ring.cq|
  {
    hide Inv, EntryWaiter, DrainFirst, WokenBy;
    if y.d.ring.cq != [] {
      FirstWaiter(y.d);
      DrainFirstKeepsInv(y, answer);
      WakersAreTheWaiters(y.(d := DrainFirst(y.d)), answer);
      WaitersShift(y, 1, answer);
    }
  }

  lemma {:induction false} WaiterIsCollected(d: Driver, i: nat, j: nat)
    requires i <= j < |d.ring.cq| && EntryWaiter(d, j).Some?
    ensures EntryWaiter(d, j).value in WaitersFrom(d, i)
    decreases j - i
  {
    hide EntryWaiter;
    if i < j {
      WaiterIsCollected(d, i + 1, j);
    }
  }

  // ---------- A finished operation is woken and gets its result ----------

  /** The waker of the last poll of the operation that had any effect. */
  function LastWaker(events: seq<Event>, id: nat, answer: nat -> int): Option<Waker> {
    if events == [] then None else
      var n := |events| - 1; var y := After(events[..n], answer);
      match events[n]
      case PollEvent(op, waker, token, pushed) =>
        if op == id && id in y.ops && token !in y.d.completions && token < TOKEN_LIMIT then Some(waker)
        else LastWaker(events[..n], id, answer)
      case _ => LastWaker(events[..n], id, answer)
  }

  lemma StepKeepsWaker(y: System, e: Event, id: nat, answer: nat -> int)
    requires id in Next(y, e, answer).ops && Next(y, e, answer).ops[id].token.Some?
    ensures var op := Next(y, e, answer).ops[id];
      if e.PollEvent? && e.id == id && id in y.ops && e.token !in y.d.completions && e.token < TOKEN_LIMIT
      then op.waker == e.waker else id in y.ops && y.ops[id] == op
  {
    hide DrainAll, Push, Takes, KernelStep, SubmitPoll;
  }

  lemma {:induction false} WakerIsLast(events: seq<Event>, id: nat, answer: nat -> int)
    requires id in After(events, answer).ops && After(events, answer).ops[id].token.Some?
    ensures LastWaker(events, id, answer) == Some(After(events, answer).ops[id].waker)
  {
    hide Next;
    if events == [] {
      NoOperations(answer);
    } else {
      var n := |events| - 1;
      StepKeepsWaker(After(events[..n], answer), events[n], id, answer);
      if !(events[n].PollEvent? && events[n].id == id) {
        WakerIsLast(events[..n], id, answer);
      } else if After(events[..n], answer).ops[id] == After(events, answer).ops[id] {
        WakerIsLast(events[..n], id, answer);
      }
    }
  }

  lemma NoOperations(answer: nat -> int)
    ensures After([], answer).ops == map[]
  {}

  /** The completion of this operation's submission has arrived in the queue. */
  ghost predicate Arrived(y: System, id: nat) {
    && id in y.ops && y.ops[id].token.Some?
    && exists i | 0 <= i < |y.d.ring.cq| :: IsFor(y.d.ring.cq[i].rec.key, y.ops[id].token.value)
  }

  predicate IsFor(key: nat, token: nat) {
    IsCompletion(key) && DecodeToken(key) == token
  }

  /**
   * Completion wakes: after any run, draining the queue wakes every operation
   * whose completion has arrived, by the waker of its last poll.
   */
  lemma FinishedOperationIsWoken(events: seq<Event>, answer: nat -> int, id: nat)
    requires Arrived(After(events, answer), id)
    ensures LastWaker(events, id, answer).Some? && LastWaker(events, id, answer).value in WokenByAll(After(events, answer).d)
  {
    AfterIsOk(events, answer);
    WakerIsLast(events, id, answer);
    var y := After(events, answer);
    hide After, LastWaker;
    var i := ArrivedEntry(y, id, answer);
    WaiterIsCollected(y.d, 0, i);
    WakersAreTheWaiters(y, answer);
  }

  lemma ArrivedEntry(y: System, id: nat, answer: nat -> int) returns (i: nat)
    requires Inv(y, answer) && Arrived(y, id)
    ensures var t := y.ops[id].token.value;
      && i < |y.d.ring.cq| && t in y.owner && y.d.ring.cq[i].rec == y.owner[t] && IsCompletion(y.owner[t].key)
      && EntryWaiter(y.d, i) == Some(y.ops[id].waker)
  {
    var t := y.ops[id].token.value;
    i :| 0 <= i < |y.d.ring.cq| && IsFor(y.d.ring.cq[i].rec.key, t);
    var rec := y.d.ring.cq[i].rec;
    assert Records(y.d.ring.cq)[i] == rec;
    assert rec in multiset(Records(y.d.ring.cq));
    assert rec in Flying(y.d.ring);
    hide Flying, QueueAnswersOk, AnswersOk, BuffersOk, ArmedOk, NumbersOk;
    TokenIsOwned(y.d.completions, y.owner, y.ops, id);
    assert EntryOk(y.d.completions, y.owner, y.ops, t);
    FlyingIsTracked(y, rec, answer);
  }

  // ---------- And then its result is there ----------

  lemma {:induction false} DrainAllUnflies(d: Driver, r: Record)
    requires r in Records(d.ring.cq) && Flying(d.ring)[r] == 1
    ensures r !in Flying(DrainAll(d).ring)
    decreases |d.ring.cq|
  {
    hide DrainOne, Flying;
    DrainUnflies(d.ring);
    DrainMovesQueue(d);
    var d' := DrainFirst(d);
    if d.ring.cq[0].rec == r {
      DrainAllAddsNothing(d', r);
    } else {
      assert Records(d.ring.cq) == [d.ring.cq[0].rec] + Records(d'.ring.cq);
      DrainAllUnflies(d', r);
    }
  }

  lemma DrainMovesQueue(d: Driver)
    requires d.ring.cq != []
    ensures DrainFirst(d).ring == d.ring.(cq := d.ring.cq[1..])
  {}

  lemma {:induction false} DrainAllAddsNothing(d: Driver, r: Record)
    requires r !in Flying(d.ring)
    ensures r !in Flying(DrainAll(d).ring)
    decreases |d.ring.cq|
  {
    hide DrainOne, Flying;
    if d.ring.cq != [] {
      DrainUnflies(d.ring);
      DrainMovesQueue(d);
      DrainAllAddsNothing(DrainFirst(d), r);
    }
  }

  /**
   * Completions are delivered: once its completion has arrived and the driver
   * has collected, the operation's next poll is Ready, with the kernel's answer
   * to its own submission, whatever waker polls it.
   */
  lemma FinishedOperationGetsResult(events: seq<Event>, answer: nat -> int, id: nat, room: nat,
                                    waker: Waker, token: nat, pushed: bool)
    requires Arrived(After(events, answer), id)
    ensures var y := After(events + [CollectEvent(room)], answer);
      id in y.ops && PollOp(y.ops[id], id, y.d, waker, token, pushed).2 == Ready(answer(After(events, answer).ops[id].sub))
  {
    hide After, Next, Inv, Arrived, PollOp;
    AfterOneMore(events, events + [CollectEvent(room)], answer);
    AfterIsOk(events, answer);
    CollectDelivers(After(events, answer), id, room, waker, token, pushed, answer);
  }

  lemma CollectDelivers(y: System, id: nat, room: nat, waker: Waker, token: nat, pushed: bool, answer: nat -> int)
    requires Inv(y, answer) && Arrived(y, id)
    ensures var y' := Next(y, CollectEvent(room), answer);
      id in y'.ops && PollOp(y'.ops[id], id, y'.d, waker, token, pushed).2 == Ready(answer(y.ops[id].sub))
  {
    hide Inv, Collect;
    var y' := Next(y, CollectEvent(room), answer);
    var t := y.ops[id].token.value;
    var i := ArrivedEntry(y, id, answer);
    CollectKeepsInv(y, room, answer);
    RecordIsGone(y, i, room, answer);
    EntryIsComplete(y', t, answer);
    TakeResultKeepsInv(y', id, waker, token, pushed, answer);
  }

  lemma CollectKeepsOperations(y: System, room: nat, answer: nat -> int)
    ensures var y' := Next(y, CollectEvent(room), answer); y'.ops == y.ops && y'.owner == y.owner
  {}

  lemma RecordIsGone(y: System, i: nat, room: nat, answer: nat -> int)
    requires Inv(y, answer) && i < |y.d.ring.cq| && y.d.ring.cq[i].rec.key != INTERRUPT_KEY
    ensures y.d.ring.cq[i].rec !in Flying(Collect(y.d, room).ring)
  {
    var r := y.d.ring.cq[i].rec;
    assert Records(y.d.ring.cq)[i] == r;
    assert r in multiset(Records(y.d.ring.cq));
    assert r in Flying(y.d.ring);
    FlyingIsTracked(y, r, answer);
    hide Inv, Flying, DrainAll;
    DrainAllUnflies(y.d, r);
    TakeKeepsFlying(DrainAll(y.d).ring, room);
    PushFlies(Takes(DrainAll(y.d).ring, room), INTERRUPT_KEY, 0);
  }

  lemma EntryIsComplete(y: System, t: nat, answer: nat -> int)
    requires Inv(y, answer) && t in y.owner && y.owner[t] !in Flying(y.d.ring)
    ensures t in y.d.completions ==> y.d.completions[t].completed.Some?
    ensures forall id | id in y.ops && y.ops[id].token == Some(t) :: t in y.d.completions
  {}
}
