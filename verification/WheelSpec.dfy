/**
 * What the hierarchical timing wheel means, without slot vectors, slab or heap:
 * a clock, a generation counter and a map from live handles to their placement.
 * The class in Wheel.dfy computes exactly these functions; this module
 * proves what they guarantee over every run.
 */
module WheelSpec {
  import opened Prelude

  const NUM_LEVELS: nat := 7
  const SLOTS_PER_LEVEL: nat := 64

  datatype TimerHandle = TimerHandle(index: nat, generation: nat)

  /** A live timer: what it wakes, when it expires, and where it currently sits. */
  datatype Scheduled = Scheduled(waker: Waker, expiry: nat, level: nat, slot: nat, insertedAt: nat)

  datatype WheelState = WheelState(now: nat, issued: nat, live: map<TimerHandle, Scheduled>)

  // ---------- Placement by remaining delay ----------

  /** Ticks covered by one slot of a level: 64^level. */
  function Unit(level: nat): (u: nat)
    ensures u >= 1
  {
    if level == 0 then 1 else 64 * Unit(level - 1)
  }

  /** The level whose span first contains the delay (the top level takes the rest), and its slot. */
  function PlaceFrom(delay: nat, level: nat): (p: (nat, nat))
    requires level < NUM_LEVELS
    ensures level <= p.0 < NUM_LEVELS && p.1 < SLOTS_PER_LEVEL
    ensures p.0 == level || delay >= Unit(p.0)
    decreases NUM_LEVELS - level
  {
    if level == NUM_LEVELS - 1 || delay < Unit(level + 1)
    then (level, (delay / Unit(level)) % SLOTS_PER_LEVEL)
    else PlaceFrom(delay, level + 1)
  }

  function Place(delay: nat): (p: (nat, nat))
    ensures p.0 < NUM_LEVELS && p.1 < SLOTS_PER_LEVEL
    ensures p.0 == 0 <==> delay < SLOTS_PER_LEVEL
    ensures p.0 == 0 ==> p.1 == delay
  {
    assert Unit(0) == 1 && Unit(1) == 64;
    PlaceFrom(delay, 0)
  }

  /** Level `l` and slot `s` are the ones whose span holds the delay. */
  ghost predicate Fits(delay: nat, l: nat, s: nat) {
    && l < NUM_LEVELS
    && (l > 0 ==> delay >= Unit(l))
    && (l < NUM_LEVELS - 1 ==> delay < Unit(l + 1))
    && s == (delay / Unit(l)) % SLOTS_PER_LEVEL
  }

  lemma {:induction false} UnitGrows(a: nat, b: nat)
    requires a <= b
    ensures Unit(a) <= Unit(b)
  {
    if a < b {
      UnitGrows(a, b - 1);
    }
  }

  /** Placement is the one level/slot pair that fits, so `Fits` determines it. */
  lemma {:induction false} PlaceIsTheFit(delay: nat, l: nat, s: nat)
    ensures Fits(delay, l, s) <==> (l, s) == Place(delay)
  {
    PlaceFromFits(delay, 0);
    var p := Place(delay);
    if Fits(delay, l, s) {
      if l < p.0 {
        UnitGrows(l + 1, p.0);
      } else if p.0 < l {
        UnitGrows(p.0 + 1, l);
      }
    }
  }

  lemma {:induction false} PlaceFromFits(delay: nat, level: nat)
    requires level < NUM_LEVELS
    requires level > 0 ==> delay >= Unit(level)
    ensures var p := PlaceFrom(delay, level); Fits(delay, p.0, p.1)
    decreases NUM_LEVELS - level
  {
    if !(level == NUM_LEVELS - 1 || delay < Unit(level + 1)) {
      PlaceFromFits(delay, level + 1);
    }
  }

  // ---------- Which level-0 slots a sweep visits ----------

  ghost predicate Visits(t: nat, slot: nat) {
    t % SLOTS_PER_LEVEL == slot
  }

  /** The first tick at or after `from` whose level-0 slot is `slot`. */
  function FirstVisit(from: nat, slot: nat): (t: nat)
    requires slot < SLOTS_PER_LEVEL
    ensures from <= t < from + SLOTS_PER_LEVEL && Visits(t, slot)
    ensures forall u: nat | from <= u && Visits(u, slot) :: t <= u
  {
    from + (slot - from) % SLOTS_PER_LEVEL
  }

  /** The sweep from tick `from` to tick `to`, both included, visits `slot`. */
  predicate Swept(from: nat, to: nat, slot: nat)
    requires slot < SLOTS_PER_LEVEL
  {
    FirstVisit(from, slot) <= to
  }

  lemma SweptMeansVisited(from: nat, to: nat, slot: nat)
    requires slot < SLOTS_PER_LEVEL
    ensures Swept(from, to, slot) <==> exists t: nat :: from <= t <= to && Visits(t, slot)
  {
    if Swept(from, to, slot) {
      var t := FirstVisit(from, slot);
      assert from <= t <= to && Visits(t, slot);
    }
  }

  /** The code's slot ranges, by wrap-around of the start and end slots, are the swept slots. */
  lemma SweepRanges(from: nat, ticks: nat, slot: nat)
    requires slot < SLOTS_PER_LEVEL
    ensures var a, b := from % SLOTS_PER_LEVEL, (from + ticks) % SLOTS_PER_LEVEL;
      Swept(from, from + ticks, slot) <==>
        || ticks >= SLOTS_PER_LEVEL
        || (a <= b && a <= slot <= b)
        || (a > b && (a <= slot || slot <= b))
  {}

  // ---------- The operations ----------

  /** Where a timer with a positive remaining delay goes when it is placed again. */
  function Replaced(e: Scheduled, now: nat): Scheduled
    requires e.expiry > now
  {
    var p := Place(e.expiry - now);
    e.(level := p.0, slot := p.1)
  }

  /** Advancing looks at every timer above level 0 and at the swept level-0 slots. */
  predicate Touched(e: Scheduled, from: nat, to: nat) {
    e.level >= 1 || (e.slot < SLOTS_PER_LEVEL && Swept(from, to, e.slot))
  }

  predicate Fires(e: Scheduled, from: nat, to: nat) {
    Touched(e, from, to) && e.expiry <= to
  }

  function Insert(s: WheelState, index: nat, waker: Waker, expiry: nat): WheelState {
    var p := Place(if expiry > s.now then expiry - s.now else 0);
    WheelState(s.now, s.issued + 1,
      s.live[TimerHandle(index, s.issued + 1) := Scheduled(waker, expiry, p.0, p.1, s.now)])
  }

  function Remove(s: WheelState, h: TimerHandle): WheelState {
    s.(live := s.live - {h})
  }

  function Fired(s: WheelState, ticks: nat): set<TimerHandle> {
    if ticks == 0 then {} else set h | h in s.live && Fires(s.live[h], s.now, s.now + ticks)
  }

  function Advance(s: WheelState, ticks: nat): WheelState {
    if ticks == 0 then s else
      var to := s.now + ticks;
      WheelState(to, s.issued,
        map h | h in s.live && !Fires(s.live[h], s.now, to) ::
          if Touched(s.live[h], s.now, to) then Replaced(s.live[h], to) else s.live[h])
  }

  /** The least expiry over all live timers, if any timer is live. */
  ghost predicate IsNearest(live: map<TimerHandle, Scheduled>, nearest: Option<nat>) {
    match nearest
    case None => live == map[]
    case Some(t) =>
      && (exists h :: h in live && live[h].expiry == t)
      && (forall h | h in live :: t <= live[h].expiry)
  }

  // ---------- Runs ----------

  datatype Op =
    | InsertOp(index: nat, waker: Waker, expiry: nat)
    | RemoveOp(handle: TimerHandle)
    | AdvanceOp(ticks: nat)

  const Init: WheelState := WheelState(0, 0, map[])

  function Step(s: WheelState, op: Op): WheelState {
    match op
    case InsertOp(index, waker, expiry) => Insert(s, index, waker, expiry)
    case RemoveOp(h) => Remove(s, h)
    case AdvanceOp(ticks) => Advance(s, ticks)
  }

  /** The state after the operations, in order. */
  function Run(s: WheelState, ops: seq<Op>): WheelState {
    if ops == [] then s else Step(Run(s, ops[..|ops| - 1]), ops[|ops| - 1])
  }

  // ---------- The invariant ----------

  /** The tick at which a level-0 timer was put in its present slot. */
  function PlacedAt(e: Scheduled): int {
    if e.expiry > e.insertedAt then e.expiry - e.slot else e.insertedAt
  }

  /**
   * Above level 0 a timer is in the future and sits exactly where its remaining
   * delay says. A level-0 timer was placed by its delay at that time, and no
   * sweep since has visited its slot.
   */
  ghost predicate PlacementOk(e: Scheduled, now: nat) {
    && e.level < NUM_LEVELS && e.slot < SLOTS_PER_LEVEL
    && e.insertedAt <= now
    && (e.level >= 1 ==> e.expiry > now && (e.level, e.slot) == Place(e.expiry - now))
    && (e.level == 0 ==>
          && (if e.expiry > e.insertedAt then e.slot >= 1 else e.slot == 0)
          && e.insertedAt <= PlacedAt(e) <= now
          && (PlacedAt(e) == now || !Swept(PlacedAt(e), now, e.slot)))
  }

  ghost predicate Inv(s: WheelState) {
    && (forall h | h in s.live :: PlacementOk(s.live[h], s.now))
    && (forall h | h in s.live :: h.generation <= s.issued)
  }

  lemma AdvanceKeepsPlacement(e: Scheduled, from: nat, to: nat)
    requires from < to && PlacementOk(e, from) && !Fires(e, from, to)
    ensures PlacementOk(if Touched(e, from, to) then Replaced(e, to) else e, to)
  {
    if !Touched(e, from, to) {
      // neither the sweeps since placement nor this one visit the slot
      var v := FirstVisit(PlacedAt(e), e.slot);
      assert v >= from ==> FirstVisit(from, e.slot) <= v;
    }
  }

  lemma StepKeepsInv(s: WheelState, op: Op)
    requires Inv(s)
    ensures Inv(Step(s, op))
  {
    if op.AdvanceOp? && op.ticks > 0 {
      forall h | h in Step(s, op).live
        ensures PlacementOk(Step(s, op).live[h], Step(s, op).now)
      {
        AdvanceKeepsPlacement(s.live[h], s.now, s.now + op.ticks);
      }
    }
  }

  lemma {:induction false} RunKeepsInv(s: WheelState, ops: seq<Op>)
    requires Inv(s)
    ensures Inv(Run(s, ops))
  {
    if ops != [] {
      RunKeepsInv(s, ops[..|ops| - 1]);
      StepKeepsInv(Run(s, ops[..|ops| - 1]), ops[|ops| - 1]);
    }
  }

  // ---------- Bounded lateness ----------

  /** How late a timer can be, given only the invariant. */
  lemma LatenessFromPlacement(e: Scheduled, now: nat)
    requires PlacementOk(e, now)
    ensures e.expiry > e.insertedAt ==> now <= e.expiry + 61
    ensures e.expiry <= e.insertedAt ==> now <= e.insertedAt + 62
    ensures e.level == 0 ==> e.expiry < now + SLOTS_PER_LEVEL
  {}

  /**
   * In every run of inserts, removals and advances, a timer inserted with a
   * positive delay is never live more than 61 ticks after its expiry; one
   * inserted already expired is gone 62 ticks after its insertion.
   */
  lemma {:induction false} BoundedLateness(ops: seq<Op>, h: TimerHandle)
    requires h in Run(Init, ops).live
    ensures var s := Run(Init, ops); var e := s.live[h];
      && (e.expiry > e.insertedAt ==> s.now <= e.expiry + 61)
      && (e.expiry <= e.insertedAt ==> s.now <= e.insertedAt + 62)
  {
    RunKeepsInv(Init, ops);
    LatenessFromPlacement(Run(Init, ops).live[h], Run(Init, ops).now);
  }

  /** Both bounds are reached: sweeping by absolute tick misses slots keyed by delay. */
  lemma LatenessIsTight()
    ensures var s := Run(Init, [AdvanceOp(2), InsertOp(0, 7, 3), AdvanceOp(62)]);
      && TimerHandle(0, 1) in s.live
      && s.live[TimerHandle(0, 1)].expiry == 3 && s.now == 3 + 61
    ensures var s := Run(Init, [AdvanceOp(1), InsertOp(0, 7, 1), AdvanceOp(62)]);
      && TimerHandle(0, 1) in s.live
      && s.live[TimerHandle(0, 1)].insertedAt == 1 && s.now == 1 + 62
  {
    RunOfThree(AdvanceOp(2), InsertOp(0, 7, 3), AdvanceOp(62));
    LateByUnexpired();
    RunOfThree(AdvanceOp(1), InsertOp(0, 7, 1), AdvanceOp(62));
    LateByExpired();
  }

  lemma EmptyAdvances(n: nat)
    requires n > 0
    ensures Advance(Init, n) == WheelState(n, 0, map[])
  {
    assert Advance(Init, n).live.Keys == {};
  }

  lemma UntouchedStays(s: WheelState, ticks: nat, h: TimerHandle)
    requires h in s.live && ticks > 0 && !Touched(s.live[h], s.now, s.now + ticks)
    ensures h in Advance(s, ticks).live && Advance(s, ticks).live[h] == s.live[h]
  {}

  lemma OneTimer(now: nat, expiry: nat)
    requires expiry < now + SLOTS_PER_LEVEL
    ensures Insert(WheelState(now, 0, map[]), 0, 7, expiry)
      == WheelState(now, 1, map[TimerHandle(0, 1) :=
           Scheduled(7, expiry, 0, if expiry > now then expiry - now else 0, now)])
  {}

  lemma LateByUnexpired()
    ensures var s := Advance(Insert(Advance(Init, 2), 0, 7, 3), 62); var h := TimerHandle(0, 1);
      h in s.live && s.live[h].expiry == 3 && s.now == 64
  {
    hide Insert, Advance;
    EmptyAdvances(2);
    OneTimer(2, 3);
    LonelyTimerStays(WheelState(2, 1, map[TimerHandle(0, 1) := Scheduled(7, 3, 0, 1, 2)]), 62);
  }

  lemma LateByExpired()
    ensures var s := Advance(Insert(Advance(Init, 1), 0, 7, 1), 62); var h := TimerHandle(0, 1);
      h in s.live && s.live[h].insertedAt == 1 && s.now == 63
  {
    hide Insert, Advance;
    EmptyAdvances(1);
    OneTimer(1, 1);
    LonelyTimerStays(WheelState(1, 1, map[TimerHandle(0, 1) := Scheduled(7, 1, 0, 0, 1)]), 62);
  }

  lemma LonelyTimerStays(s: WheelState, ticks: nat)
    requires TimerHandle(0, 1) in s.live && ticks > 0
    requires s.live[TimerHandle(0, 1)].level == 0 && s.live[TimerHandle(0, 1)].slot < SLOTS_PER_LEVEL
    requires !Swept(s.now, s.now + ticks, s.live[TimerHandle(0, 1)].slot)
    ensures var s' := Advance(s, ticks); var h := TimerHandle(0, 1);
      h in s'.live && s'.live[h] == s.live[h] && s'.now == s.now + ticks
  {
    UntouchedStays(s, ticks, TimerHandle(0, 1));
  }

  lemma {:induction false} RunSnoc(s: WheelState, ops: seq<Op>, op: Op)
    ensures Run(s, ops + [op]) == Step(Run(s, ops), op)
  {
    assert (ops + [op])[..|ops|] == ops;
  }

  lemma {:induction false} RunOfThree(a: Op, b: Op, c: Op)
    ensures Run(Init, [a, b, c]) == Step(Step(Step(Init, a), b), c)
  {
    var s := Init;
    RunSnoc(s, [], a);
    RunSnoc(s, [a], b);
    RunSnoc(s, [a, b], c);
    assert [] + [a] == [a] && [a] + [b] == [a, b] && [a, b] + [c] == [a, b, c];
  }

  // ---------- What one advance does ----------

  /**
   * Conservation and exactness: an advance splits the live timers into those
   * still live and those fired; a timer is fired exactly when it is due and
   * either above level 0 or in a level-0 slot visited by some tick of the
   * advance; fired timers are never early and survivors keep waker and expiry.
   */
  lemma AdvanceIsExact(s: WheelState, ticks: nat)
    requires ticks > 0
    ensures var s' := Advance(s, ticks); var fired := Fired(s, ticks);
      && s'.now == s.now + ticks
      && s'.live.Keys + fired == s.live.Keys && s'.live.Keys !! fired
      && (forall h | h in s.live ::
            h in fired <==>
            && s.live[h].expiry <= s'.now
            && (s.live[h].level >= 1
                || exists t: nat :: s.now <= t <= s'.now && Visits(t, s.live[h].slot)))
      && (forall h | h in s'.live ::
            s'.live[h].waker == s.live[h].waker && s'.live[h].expiry == s.live[h].expiry)
  {
    var s' := Advance(s, ticks);
    var fired := Fired(s, ticks);
    assert forall h :: h in s.live ==> (h in fired <==> h !in s'.live);
    assert s'.live.Keys + fired == s.live.Keys;
    forall h | h in s.live
      ensures h in fired <==>
        && s.live[h].expiry <= s'.now
        && (s.live[h].level >= 1
            || exists t: nat :: s.now <= t <= s'.now && Visits(t, s.live[h].slot))
    {
      var slot := s.live[h].slot;
      if slot < SLOTS_PER_LEVEL {
        SweptMeansVisited(s.now, s'.now, slot);
      }
    }
  }

  /** A timer due by the end of the advance that the advance nevertheless leaves behind. */
  ghost predicate Missed(s: WheelState, ticks: nat, h: TimerHandle) {
    h in s.live && s.live[h].expiry <= s.now + ticks && h in Advance(s, ticks).live
  }

  /**
   * "Advance fires every due timer" is false in general. It holds exactly when
   * no due level-0 timer sits outside the swept slots, which the caller can
   * read off the wheel before the call.
   */
  lemma AdvanceFiresAllDueIff(s: WheelState, ticks: nat)
    requires Inv(s) && ticks > 0
    ensures (forall h | h in s.live && s.live[h].expiry <= s.now + ticks :: h in Fired(s, ticks))
      <==>
      (forall h | h in s.live && s.live[h].level == 0 && s.live[h].expiry <= s.now + ticks ::
        Swept(s.now, s.now + ticks, s.live[h].slot))
  {
    assert forall h | h in s.live :: PlacementOk(s.live[h], s.now);
  }

  /** From 63 ticks on, the sweep visits every slot and the whole due set fires. */
  lemma LongAdvanceFiresAllDue(s: WheelState, ticks: nat)
    requires Inv(s) && ticks >= 63
    ensures Fired(s, ticks) == set h | h in s.live && s.live[h].expiry <= s.now + ticks
  {
    assert forall h | h in s.live :: PlacementOk(s.live[h], s.now);
  }

  /** The failing family in its smallest form: at tick 100, a timer due at 105 sits in slot 5. */
  lemma AdvanceMissesADueTimer()
    ensures var s := Insert(Advance(Init, 100), 0, 7, 105); var h := TimerHandle(0, 1);
      Inv(s) && Missed(s, 5, h) && h !in Fired(s, 5)
  {
    StepKeepsInv(Init, AdvanceOp(100));
    StepKeepsInv(Advance(Init, 100), InsertOp(0, 7, 105));
    hide Inv, Insert, Advance;
    EmptyAdvances(100);
    OneTimer(100, 105);
    var s := WheelState(100, 1, map[TimerHandle(0, 1) := Scheduled(7, 105, 0, 5, 100)]);
    LonelyTimerStays(s, 5);
    NotFired(s, 5, TimerHandle(0, 1));
  }

  lemma NotFired(s: WheelState, ticks: nat, h: TimerHandle)
    requires h in Advance(s, ticks).live && ticks > 0
    ensures h !in Fired(s, ticks)
  {}

  // ---------- Firing over whole runs ----------

  /** The timers fired by the i-th operation of a run. */
  ghost function FiredAt(s: WheelState, ops: seq<Op>, i: nat): set<TimerHandle>
    requires i < |ops|
  {
    if ops[i].AdvanceOp? then Fired(Run(s, ops[..i]), ops[i].ticks) else {}
  }

  /** Generations only grow, so a spent handle is never live again. */
  lemma {:induction false} SpentForever(s: WheelState, ops: seq<Op>, h: TimerHandle)
    requires h !in s.live && h.generation <= s.issued
    ensures h !in Run(s, ops).live && h.generation <= Run(s, ops).issued
  {
    if ops != [] {
      SpentForever(s, ops[..|ops| - 1], h);
    }
  }

  /**
   * Stale-handle safety: once a timer has fired or been removed, cancelling its
   * handle again, after any further operations, including reuse of its slab
   * index, changes nothing at all.
   */
  lemma StaleRemoveIsNoOp(s: WheelState, ops: seq<Op>, h: TimerHandle)
    requires h !in s.live && h.generation <= s.issued
    ensures Remove(Run(s, ops), h) == Run(s, ops)
  {
    SpentForever(s, ops, h);
    assert Run(s, ops).live - {h} == Run(s, ops).live;
  }

  lemma {:induction false} RunSplits(s: WheelState, ops: seq<Op>, i: nat)
    requires i <= |ops|
    ensures Run(s, ops) == Run(Run(s, ops[..i]), ops[i..])
  {
    if i == |ops| {
      assert ops[..i] == ops;
    } else {
      RunSplits(s, ops[..|ops| - 1], i);
      assert ops[..|ops| - 1][..i] == ops[..i];
      assert ops[i..][..|ops[i..]| - 1] == ops[..|ops| - 1][i..];
    }
  }

  /**
   * In any run from the empty wheel a timer fires at most once, never before its
   * expiry, and is live at no later point of the run.
   */
  lemma FiresOnceNeverEarly(ops: seq<Op>, i: nat, j: nat, h: TimerHandle)
    requires i < j <= |ops| && h in FiredAt(Init, ops, i)
    ensures h in Run(Init, ops[..i]).live
    ensures Run(Init, ops[..i]).live[h].expiry <= Run(Init, ops[..i + 1]).now
    ensures h !in Run(Init, ops[..j]).live
    ensures j < |ops| ==> h !in FiredAt(Init, ops, j)
  {
    assert ops[..i + 1][..i] == ops[..i];
    RunKeepsInv(Init, ops[..i]);
    var after := Run(Init, ops[..i + 1]);
    assert h !in after.live && h.generation <= after.issued;
    RunSplits(Init, ops[..j], i + 1);
    assert ops[..j][..i + 1] == ops[..i + 1];
    SpentForever(after, ops[..j][i + 1..], h);
  }

  /**
   * No timer is lost: a timer live at the start of a run and not at its end was
   * removed by its handle or fired at some step of the run.
   */
  lemma {:induction false} LeavesOnlyByFiringOrRemoval(s: WheelState, ops: seq<Op>, h: TimerHandle)
    requires Inv(s) && h in s.live && h !in Run(s, ops).live
    ensures exists i: nat :: i < |ops| && (ops[i] == RemoveOp(h) || h in FiredAt(s, ops, i))
  {
    var n := |ops| - 1;
    if h in Run(s, ops[..n]).live {
      assert ops[n] == RemoveOp(h) || h in FiredAt(s, ops, n);
    } else {
      LeavesOnlyByFiringOrRemoval(s, ops[..n], h);
      var i: nat :| i < n && (ops[..n][i] == RemoveOp(h) || h in FiredAt(s, ops[..n], i));
      assert ops[..n][..i] == ops[..i] && ops[..n][i] == ops[i];
      assert ops[i] == RemoveOp(h) || h in FiredAt(s, ops, i);
    }
  }

  /** A live timer keeps its expiry, its waker and its insertion tick through every run. */
  lemma {:induction false} IdentityIsKept(s: WheelState, ops: seq<Op>, h: TimerHandle)
    requires Inv(s) && h in s.live && h in Run(s, ops).live
    ensures var e, e' := s.live[h], Run(s, ops).live[h];
      e'.expiry == e.expiry && e'.waker == e.waker && e'.insertedAt == e.insertedAt
  {
    if ops != [] {
      var prefix := ops[..|ops| - 1];
      RunKeepsInv(s, prefix);
      if h !in Run(s, prefix).live {
        IssuedGrows(s, prefix);
      } else {
        IdentityIsKept(s, prefix, h);
      }
    }
  }

  lemma {:induction false} IssuedGrows(s: WheelState, ops: seq<Op>)
    ensures s.issued <= Run(s, ops).issued
  {
    if ops != [] {
      IssuedGrows(s, ops[..|ops| - 1]);
    }
  }

  /**
   * Every timer is served: unless its handle is removed, a timer live at some
   * point has fired by the time the clock is 62 ticks past its expiry (63 past
   * its insertion if it was inserted already expired).
   */
  lemma EveryTimerFires(s: WheelState, ops: seq<Op>, h: TimerHandle)
    requires Inv(s) && h in s.live
    requires forall i | 0 <= i < |ops| :: ops[i] != RemoveOp(h)
    requires var e := s.live[h];
      Run(s, ops).now >= if e.expiry > e.insertedAt then e.expiry + 62 else e.insertedAt + 63
    ensures exists i: nat :: i < |ops| && h in FiredAt(s, ops, i)
  {
    if h in Run(s, ops).live {
      RunKeepsInv(s, ops);
      IdentityIsKept(s, ops, h);
      LatenessFromPlacement(Run(s, ops).live[h], Run(s, ops).now);
      assert false;
    }
    LeavesOnlyByFiringOrRemoval(s, ops, h);
    var i: nat :| i < |ops| && (ops[i] == RemoveOp(h) || h in FiredAt(s, ops, i));
    assert h in FiredAt(s, ops, i);
  }
}
