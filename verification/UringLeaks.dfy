/**
 * What a dropped operation leaves in the io_uring driver: slab entries that are
 * never removed, and buffers that do not outlive their flight. Over the runs of
 * UringSpec.
 */
module UringLeaks {
  import opened Prelude
  import opened UringSpec
  import opened UringProofs

  /** An entry that has its result and keeps the buffer of a dropped operation: nothing is left to come for it. */
  ghost predicate Leaked(d: Driver, t: nat, id: nat) {
    t in d.completions && d.completions[t].completed.Some? && d.completions[t].ignored == Some(id)
  }

  /** The operation `id`, holding token `t`, is dropped after its completion has been drained. */
  ghost predicate DropsFinished(y: System, e: Event, t: nat, id: nat) {
    && e == DropEvent(id) && id in y.ops && y.ops[id].token == Some(t)
    && t in y.d.completions && y.d.completions[t].completed.Some?
  }

  /** An operation's own entry keeps no buffer, so a leaked entry is not its entry and it will not take the result. */
  lemma HeldIsNotLeaked(y: System, id: nat, answer: nat -> int)
    requires Inv(y, answer) && id in y.ops && y.ops[id].token.Some?
    ensures var t := y.ops[id].token.value; t in y.d.completions && y.d.completions[t].ignored.None?
  {
    hide FlightOk, Flying, ArmedOk, NumbersOk, QueueAnswersOk, AnswersOk, BuffersOk;
    TokenIsOwned(y.d.completions, y.owner, y.ops, id);
    assert EntryOk(y.d.completions, y.owner, y.ops, y.ops[id].token.value);
  }

  lemma FlightIsUnfinished(y: System, r: Record, answer: nat -> int)
    requires Inv(y, answer) && r in Flying(y.d.ring)
    ensures IsCompletion(r.key) ==>
      var t := DecodeToken(r.key); t in y.d.completions && y.d.completions[t].completed.None?
  {}

  /** An entry with a result has no completion in flight, so a drain passes it by. */
  lemma DrainKeepsLeaks(y: System, t: nat, id: nat, answer: nat -> int)
    requires Inv(y, answer) && y.d.ring.cq != []
    ensures Leaked(DrainFirst(y.d), t, id) <==> Leaked(y.d, t, id)
  {
    hide Flying, ArmedOk, NumbersOk, QueueAnswersOk, AnswersOk, OwnersOk, BuffersOk, FlightOk;
    DrainUnflies(y.d.ring);
    FlightIsUnfinished(y, y.d.ring.cq[0].rec, answer);
  }

  lemma {:induction false} DrainAllKeepsLeaks(y: System, t: nat, id: nat, answer: nat -> int)
    requires Inv(y, answer)
    ensures Leaked(DrainAll(y.d), t, id) <==> Leaked(y.d, t, id)
    decreases |y.d.ring.cq|
  {
    hide Inv, DrainFirst, Leaked;
    if y.d.ring.cq != [] {
      DrainKeepsLeaks(y, t, id, answer);
      DrainFirstKeepsInv(y, answer);
      DrainAllKeepsLeaks(y.(d := DrainFirst(y.d)), t, id, answer);
    }
  }

  /** Leaks arise from drops of finished operations and from nothing else, and nothing undoes them. */
  lemma StepLeaksIff(y: System, e: Event, t: nat, id: nat, answer: nat -> int)
    requires Inv(y, answer)
    ensures Leaked(Next(y, e, answer).d, t, id) <==> Leaked(y.d, t, id) || DropsFinished(y, e, t, id)
  {
    hide Inv, DrainAll;
    if e.CollectEvent? {
      DrainAllKeepsLeaks(y, t, id, answer);
    } else if (e.PollEvent? || e.DropEvent?) && e.id in y.ops && y.ops[e.id].token.Some? {
      HeldIsNotLeaked(y, e.id, answer);
    }
  }

  ghost predicate LeakedIn(events: seq<Event>, t: nat, id: nat, answer: nat -> int) {
    exists k: nat :: k < |events| && DropsFinished(After(events[..k], answer), events[k], t, id)
  }

  lemma LeakedSnoc(events: seq<Event>, t: nat, id: nat, answer: nat -> int)
    requires events != []
    ensures var n := |events| - 1;
      LeakedIn(events, t, id, answer) <==>
        LeakedIn(events[..n], t, id, answer) || DropsFinished(After(events[..n], answer), events[n], t, id)
  {
    hide After, DropsFinished;
    var n := |events| - 1;
    assert forall k: nat | k <= n :: events[..n][..k] == events[..k];
    if LeakedIn(events[..n], t, id, answer) {
      var k: nat :| k < n && DropsFinished(After(events[..n][..k], answer), events[..n][k], t, id);
      assert DropsFinished(After(events[..k], answer), events[k], t, id);
    }
    if LeakedIn(events, t, id, answer) {
      var k: nat :| k < |events| && DropsFinished(After(events[..k], answer), events[k], t, id);
      assert k < n ==> DropsFinished(After(events[..n][..k], answer), events[..n][k], t, id);
    }
  }

  /**
   * "Every slab entry is eventually removed" is false. After any run an entry is
   * leaked if and only if its operation was dropped when its completion had
   * already been drained.
   */
  lemma {:induction false} EntryIsLeakedIff(events: seq<Event>, t: nat, id: nat, answer: nat -> int)
    ensures Leaked(After(events, answer).d, t, id) <==> LeakedIn(events, t, id, answer)
  {
    hide Next, DropsFinished, LeakedIn, Leaked;
    if events == [] {
      NothingLeaks(t, id, answer);
    } else {
      var n := |events| - 1;
      EntryIsLeakedIff(events[..n], t, id, answer);
      AfterIsOk(events[..n], answer);
      StepLeaksIff(After(events[..n], answer), events[n], t, id, answer);
      LeakedSnoc(events, t, id, answer);
    }
  }

  lemma NothingLeaks(t: nat, id: nat, answer: nat -> int)
    ensures !Leaked(Init().d, t, id) && !LeakedIn([], t, id, answer)
  {}

  /** Known before the call: dropping an operation leaks its entry if and only if its result is already there. */
  lemma DropLeaksIff(events: seq<Event>, id: nat, answer: nat -> int)
    requires var y := After(events, answer); id in y.ops && y.ops[id].token.Some?
    ensures var y := After(events, answer); var t := y.ops[id].token.value;
      && t in y.d.completions
      && (Leaked(Next(y, DropEvent(id), answer).d, t, id) <==> y.d.completions[t].completed.Some?)
  {
    var y := After(events, answer);
    AfterIsOk(events, answer);
    hide After, Inv;
    HeldIsNotLeaked(y, id, answer);
    StepLeaksIff(y, DropEvent(id), y.ops[id].token.value, id, answer);
  }

  /**
   * And a leak is for ever: through every further run the entry stays, its token
   * is never vacant again, and the buffer it keeps is never released.
   */
  lemma {:induction false} LeakIsForEver(events: seq<Event>, more: seq<Event>, t: nat, id: nat, answer: nat -> int)
    requires Leaked(After(events, answer).d, t, id)
    ensures var d := After(events + more, answer).d; Leaked(d, t, id) && id !in d.released
  {
    hide After, Next, Inv, Leaked;
    if more == [] {
      assert events + more == events;
    } else {
      var n := |more| - 1;
      var before := events + more[..n];
      LeakIsForEver(events, more[..n], t, id, answer);
      AfterIsOk(before, answer);
      AfterOneMore(before, events + more, answer);
      StepLeaksIff(After(before, answer), more[n], t, id, answer);
    }
    AfterIsOk(events + more, answer);
    LeakedIsKept(After(events + more, answer), t, id, answer);
  }

  lemma LeakedIsKept(y: System, t: nat, id: nat, answer: nat -> int)
    requires Inv(y, answer) && Leaked(y.d, t, id)
    ensures id !in y.d.released
  {
    hide Flying, ArmedOk, NumbersOk, QueueAnswersOk, AnswersOk;
    assert EntryOk(y.d.completions, y.owner, y.ops, t);
  }

  // ---------- Where buffers are ----------

  function ParkedIds(completions: map<nat, Completion>): set<nat> {
    set t | t in completions && completions[t].ignored.Some? :: completions[t].ignored.value
  }

  /** The names of the operations made in a run. */
  function CreatedIn(events: seq<Event>): set<nat> {
    if events == [] then {} else
      var n := |events| - 1;
      CreatedIn(events[..n]) + if events[n].NewOp? then {events[n].id} else {}
  }

  /** The operations whose buffer their owner has taken back. */
  function TakenIn(events: seq<Event>, answer: nat -> int): set<nat> {
    if events == [] then {} else
      var n := |events| - 1;
      TakenIn(events[..n], answer) + TakenBy(After(events[..n], answer), events[n])
  }

  function TakenBy(y: System, e: Event): set<nat> {
    if e.TakeBuffer? && e.id in y.ops && y.ops[e.id].token.None? then {e.id} else {}
  }

  /** Every buffer is in one place: a live operation, the slab, the allocator, or back with the owner of the operation. */
  ghost predicate Conserved(ops: set<nat>, parked: set<nat>, released: set<nat>, taken: set<nat>, created: set<nat>) {
    && ops + parked + released + taken == created
    && ops !! parked !! released !! taken
  }

  ghost predicate ConservedIn(y: System, taken: set<nat>) {
    Conserved(y.ops.Keys, ParkedIds(y.d.completions), y.d.released, taken, y.created)
  }

  lemma ParkedAfterUpdate(completions: map<nat, Completion>, t: nat, c: Completion)
    requires t in completions ==> completions[t].ignored.None?
    ensures ParkedIds(completions[t := c]) == ParkedIds(completions) + if c.ignored.Some? then {c.ignored.value} else {}
    ensures ParkedIds(completions - {t}) == ParkedIds(completions)
  {
    var after := completions[t := c];
    forall id ensures id in ParkedIds(after) <==> id in ParkedIds(completions) || c.ignored == Some(id) {
      if id in ParkedIds(completions) {
        var u :| u in completions && completions[u].ignored == Some(id);
        assert u in after && after[u].ignored == Some(id);
      }
      if c.ignored == Some(id) {
        assert t in after && after[t].ignored == Some(id);
      }
    }
    forall id | id in ParkedIds(completions) ensures id in ParkedIds(completions - {t}) {
      var u :| u in completions && completions[u].ignored == Some(id);
      assert u in completions - {t} && (completions - {t})[u].ignored == Some(id);
    }
  }

  /** Draining takes a parked buffer out of the slab, and releases it. */
  lemma DrainConserves(y: System, taken: set<nat>, answer: nat -> int)
    requires Inv(y, answer) && ConservedIn(y, taken) && y.d.ring.cq != []
    ensures ConservedIn(y.(d := DrainFirst(y.d)), taken)
  {
    hide Flying, ArmedOk, NumbersOk, QueueAnswersOk, AnswersOk, FlightOk, BuffersOk, OwnersOk, EntryOk;
    var e := y.d.ring.cq[0];
    var t := DecodeToken(e.rec.key);
    if IsCompletion(e.rec.key) && t in y.d.completions {
      if y.d.completions[t].ignored.Some? {
        ParkedOnce(y, t, answer);
      } else {
        ParkedAfterUpdate(y.d.completions, t, Completion(None, Some(e.result), None));
      }
    }
  }

  /** No two entries keep the same buffer. */
  lemma ParkedOnce(y: System, t: nat, answer: nat -> int)
    requires Inv(y, answer) && t in y.d.completions && y.d.completions[t].ignored.Some?
    ensures ParkedIds(y.d.completions - {t}) == ParkedIds(y.d.completions) - {y.d.completions[t].ignored.value}
    ensures y.d.completions[t].ignored.value in ParkedIds(y.d.completions)
  {
    hide Flying, ArmedOk, NumbersOk, QueueAnswersOk, AnswersOk;
    var completions, id := y.d.completions, y.d.completions[t].ignored.value;
    var rest := completions - {t};
    assert EntryOk(completions, y.owner, y.ops, t);
    forall u | u in rest && rest[u].ignored.Some? ensures rest[u].ignored.value != id {
      assert EntryOk(completions, y.owner, y.ops, u);
    }
    forall other | other in ParkedIds(completions) && other != id ensures other in ParkedIds(rest) {
      var u :| u in completions && completions[u].ignored == Some(other);
      assert u in rest && rest[u].ignored == Some(other);
    }
    forall other | other in ParkedIds(rest) ensures other in ParkedIds(completions) && other != id {
      var u :| u in rest && rest[u].ignored == Some(other);
      assert u in completions;
    }
  }

  lemma {:induction false} DrainAllConserves(y: System, taken: set<nat>, answer: nat -> int)
    requires Inv(y, answer) && ConservedIn(y, taken)
    ensures ConservedIn(y.(d := DrainAll(y.d)), taken)
    decreases |y.d.ring.cq|
  {
    hide Inv, DrainFirst, Conserved, ParkedIds;
    if y.d.ring.cq == [] {
      assert y.(d := DrainAll(y.d)) == y;
    } else {
      var z := y.(d := DrainFirst(y.d));
      DrainConserves(y, taken, answer);
      DrainFirstKeepsInv(y, answer);
      DrainAllConserves(z, taken, answer);
      assert z.(d := DrainAll(z.d)) == y.(d := DrainAll(y.d));
    }
  }

  lemma OperationsConserve(y: System, e: Event, taken: set<nat>, answer: nat -> int)
    requires Inv(y, answer) && ConservedIn(y, taken) && (e.PollEvent? || e.DropEvent?)
    ensures ConservedIn(Next(y, e, answer), taken)
  {
    hide Inv, ParkedIds, Push, Encode;
    if e.id in y.ops && y.ops[e.id].token.Some? {
      var t := y.ops[e.id].token.value;
      HeldIsNotLeaked(y, e.id, answer);
      ParkedAfterUpdate(y.d.completions, t, y.d.completions[t].(ignored := Some(e.id)));
      if e.PollEvent? {
        ParkedAfterUpdate(y.d.completions, t, y.d.completions[t].(waiter := Some(e.waker)));
      }
    } else if e.PollEvent? {
      if e.token !in y.d.completions {
        ParkedAfterUpdate(y.d.completions, e.token, Completion(Some(e.waker), None, None));
      }
    }
  }

  lemma StepConserves(y: System, e: Event, taken: set<nat>, answer: nat -> int)
    requires Inv(y, answer) && ConservedIn(y, taken)
    ensures ConservedIn(Next(y, e, answer), taken + TakenBy(y, e))
    ensures Next(y, e, answer).created == y.created + if e.NewOp? then {e.id} else {}
  {
    hide Inv, ParkedIds, DrainAll, Push, Takes, KernelStep, Encode;
    var y' := Next(y, e, answer);
    assert !e.TakeBuffer? ==> taken + TakenBy(y, e) == taken;
    if e.CollectEvent? {
      DrainAllConserves(y, taken, answer);
    } else if e.PollEvent? || e.DropEvent? {
      OperationsConserve(y, e, taken, answer);
      CreatedStays(y, e, answer);
    } else if e.NewOp? {
      assert e.id !in y.created ==> y'.ops.Keys == y.ops.Keys + {e.id};
    } else if e.TakeBuffer? {
      assert TakenBy(y, e) != {} ==> y'.ops.Keys == y.ops.Keys - {e.id};
      assert TakenBy(y, e) == {} ==> y' == y && taken + TakenBy(y, e) == taken;
    }
  }

  lemma CreatedStays(y: System, e: Event, answer: nat -> int)
    requires e.PollEvent? || e.DropEvent?
    ensures Next(y, e, answer).created == y.created
  {}

  /**
   * Buffers are conserved: after any run each operation ever made has its buffer
   * in exactly one place. It is with the live operation, parked in the slab,
   * released, or taken back by the operation's owner.
   */
  lemma {:induction false} BuffersAreConserved(events: seq<Event>, answer: nat -> int)
    ensures var y := After(events, answer);
      Conserved(y.ops.Keys, ParkedIds(y.d.completions), y.d.released, TakenIn(events, answer), CreatedIn(events))
    ensures After(events, answer).created == CreatedIn(events)
  {
    hide Next, Inv, Conserved, ParkedIds, TakenBy;
    if events == [] {
      NothingToConserve(answer);
    } else {
      var n := |events| - 1;
      AfterIsOk(events[..n], answer);
      BuffersAreConserved(events[..n], answer);
      StepConserves(After(events[..n], answer), events[n], TakenIn(events[..n], answer), answer);
    }
  }

  lemma NothingToConserve(answer: nat -> int)
    ensures var y := After([], answer);
      y.created == {} && Conserved(y.ops.Keys, ParkedIds(y.d.completions), y.d.released, {}, {})
  {}

  // ---------- Drops outside a runtime ----------

  /** Some completion in flight uses the buffer of this operation. */
  ghost predicate InUse(d: Driver, id: nat) {
    exists r :: r in Flying(d.ring) && IsCompletion(r.key) && r.op == id
  }

  /**
   * "A buffer outlives its flight" needs a driver at the drop. Without one, the
   * buffer is released while in use if and only if the operation's completion is
   * still outstanding.
   */
  lemma OutsideDropReleasesInUseIff(events: seq<Event>, id: nat, answer: nat -> int)
    requires id in After(events, answer).ops
    ensures var y := After(events, answer); var d := DropOutside(id, y.d); var token := y.ops[id].token;
      (id in d.released && InUse(d, id)) <==>
        token.Some? && token.value in y.d.completions && y.d.completions[token.value].completed.None?
  {
    AfterIsOk(events, answer);
    var y := After(events, answer);
    hide After, Flying, ArmedOk, NumbersOk, QueueAnswersOk, AnswersOk, BuffersOk;
    if y.ops[id].token.Some? {
      TokenIsOwned(y.d.completions, y.owner, y.ops, id);
    }
    if InUse(y.d, id) {
      var r :| r in Flying(y.d.ring) && IsCompletion(r.key) && r.op == id;
      assert EntryOk(y.d.completions, y.owner, y.ops, DecodeToken(r.key));
    }
  }
}
