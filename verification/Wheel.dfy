/**
 * The timing wheel as the runtime keeps it: a slab of entries, seven levels of
 * sixty-four slot vectors holding slab indices, a heap of expirations that is
 * only cleaned lazily, and a cached minimum. Every public method is proved to
 * compute the corresponding function of WheelSpec on the ghost map `live`.
 */
module Wheel {
  import opened Prelude
  import opened WheelSpec

  datatype TimerEntry = TimerEntry(waker: Waker, expiry: nat, generation: nat, level: nat, slot: nat)

  datatype HeapItem = HeapItem(tick: nat, index: nat, generation: nat)

  /** The vectors of slab indices, by level and slot. */
  type Grid = seq<seq<seq<nat>>>

  // ---------- Slot vectors against slab ----------

  ghost predicate Shape(w: Grid) {
    |w| == NUM_LEVELS && forall l | 0 <= l < NUM_LEVELS :: |w[l]| == SLOTS_PER_LEVEL
  }

  /**
   * Every slab entry occurs exactly once over all vectors, in the vector of its
   * recorded level and slot, except for the entries in `limbo`, whose vector has
   * been taken out and which are about to be processed. No vector holds a dead index.
   */
  ghost predicate WellPlaced(entries: map<nat, TimerEntry>, w: Grid, limbo: seq<nat>) {
    && Shape(w)
    && NoDup(limbo)
    && (forall x | x in limbo :: x in entries)
    && (forall l, s, x | 0 <= l < NUM_LEVELS && 0 <= s < SLOTS_PER_LEVEL && x in w[l][s] ::
          x in entries && entries[x].level == l && entries[x].slot == s && x !in limbo)
    && (forall l, s | 0 <= l < NUM_LEVELS && 0 <= s < SLOTS_PER_LEVEL :: NoDup(w[l][s]))
    && (forall x | x in entries ::
          && entries[x].level < NUM_LEVELS && entries[x].slot < SLOTS_PER_LEVEL
          && (x in limbo || x in w[entries[x].level][entries[x].slot]))
  }

  lemma PlacedHasShape(entries: map<nat, TimerEntry>, w: Grid, limbo: seq<nat>)
    requires WellPlaced(entries, w, limbo)
    ensures Shape(w)
  {}

  function SetSlot(w: Grid, l: nat, s: nat, v: seq<nat>): (w': Grid)
    requires l < |w| && s < |w[l]|
  {
    w[l := w[l][s := v]]
  }

  lemma TakeKeepsPlaced(entries: map<nat, TimerEntry>, w: Grid, l: nat, s: nat)
    requires WellPlaced(entries, w, []) && l < NUM_LEVELS && s < SLOTS_PER_LEVEL
    ensures WellPlaced(entries, SetSlot(w, l, s, []), w[l][s])
  {}

  lemma FireKeepsPlaced(entries: map<nat, TimerEntry>, w: Grid, limbo: seq<nat>)
    requires WellPlaced(entries, w, limbo) && limbo != []
    ensures WellPlaced(entries - {limbo[0]}, w, limbo[1..])
  {
    TailOf(limbo);
  }

  lemma MoveKeepsPlaced(entries: map<nat, TimerEntry>, w: Grid, limbo: seq<nat>, l: nat, s: nat)
    requires WellPlaced(entries, w, limbo) && limbo != []
    requires l < NUM_LEVELS && s < SLOTS_PER_LEVEL
    ensures var x := limbo[0];
      WellPlaced(entries[x := entries[x].(level := l, slot := s)], SetSlot(w, l, s, w[l][s] + [x]), limbo[1..])
  {
    TailOf(limbo);
    assert limbo[0] in limbo;
    AppendKeepsNoDup(w[l][s], limbo[0]);
  }

  lemma PushKeepsPlaced(entries: map<nat, TimerEntry>, w: Grid, x: nat, e: TimerEntry)
    requires WellPlaced(entries, w, []) && x !in entries
    requires e.level < NUM_LEVELS && e.slot < SLOTS_PER_LEVEL
    ensures WellPlaced(entries[x := e], SetSlot(w, e.level, e.slot, w[e.level][e.slot] + [x]), [])
  {
    AppendKeepsNoDup(w[e.level][e.slot], x);
  }

  lemma AppendKeepsNoDup(v: seq<nat>, x: nat)
    requires NoDup(v) && x !in v
    ensures NoDup(v + [x]) && forall y :: y in v + [x] <==> y in v || y == x
  {}

  lemma DropKeepsPlaced(entries: map<nat, TimerEntry>, w: Grid, x: nat, pos: nat)
    requires WellPlaced(entries, w, []) && x in entries
    requires pos < |w[entries[x].level][entries[x].slot]| && w[entries[x].level][entries[x].slot][pos] == x
    ensures var l, s := entries[x].level, entries[x].slot;
      WellPlaced(entries - {x}, SetSlot(w, l, s, w[l][s][..pos] + w[l][s][pos + 1..]), [])
  {
    CutKeepsNoDup(w[entries[x].level][entries[x].slot], pos);
  }

  lemma CutKeepsNoDup(v: seq<nat>, pos: nat)
    requires NoDup(v) && pos < |v|
    ensures var v' := v[..pos] + v[pos + 1..];
      NoDup(v') && forall y :: y in v' <==> y in v && y != v[pos]
  {
    var v' := v[..pos] + v[pos + 1..];
    forall y | y in v && y != v[pos] ensures y in v' {
      var i :| 0 <= i < |v| && v[i] == y;
      assert v'[if i < pos then i else i - 1] == y;
    }
  }

  // ---------- Slab against the abstract timers ----------

  ghost predicate Tied(entries: map<nat, TimerEntry>, live: map<TimerHandle, Scheduled>) {
    && (forall x | x in entries ::
          var h := TimerHandle(x, entries[x].generation);
          && h in live
          && live[h].waker == entries[x].waker && live[h].expiry == entries[x].expiry
          && live[h].level == entries[x].level && live[h].slot == entries[x].slot)
    && (forall h | h in live :: h.index in entries && entries[h.index].generation == h.generation)
  }

  // ---------- The lazily cleaned heap ----------

  predicate Before(a: HeapItem, b: HeapItem) {
    || a.tick < b.tick
    || (a.tick == b.tick && a.index < b.index)
    || (a.tick == b.tick && a.index == b.index && a.generation <= b.generation)
  }

  /** A stale item no longer belongs to the entry at its index. */
  predicate Fresh(entries: map<nat, TimerEntry>, it: HeapItem) {
    it.index in entries && entries[it.index].generation == it.generation
  }

  ghost predicate HeapInv(entries: map<nat, TimerEntry>, heap: multiset<HeapItem>, counter: nat) {
    && (forall x | x in entries ::
          HeapItem(entries[x].expiry, x, entries[x].generation) in heap)
    && (forall it | it in heap :: it.generation <= counter)
    && (forall it | it in heap && Fresh(entries, it) :: entries[it.index].expiry == it.tick)
  }

  lemma {:induction false} LeastExists(heap: multiset<HeapItem>) returns (top: HeapItem)
    requires heap != multiset{}
    ensures top in heap && forall it | it in heap :: Before(top, it)
    decreases |heap|
  {
    var x :| x in heap;
    var rest := heap - multiset{x};
    assert forall it | it in heap :: it == x || it in rest;
    top := x;
    if rest != multiset{} {
      var m := LeastExists(rest);
      top := if Before(x, m) then x else m;
    }
  }

  /** The top of the binary heap: some least item. */
  method Peek(heap: multiset<HeapItem>) returns (top: HeapItem)
    requires heap != multiset{}
    ensures top in heap && forall it | it in heap :: Before(top, it)
  {
    ghost var m := LeastExists(heap);
    top :| top in heap && forall it | it in heap :: Before(top, it);
  }

  /** A fresh top of the heap carries the least expiry over all entries. */
  lemma FreshTopIsNearest(entries: map<nat, TimerEntry>, heap: multiset<HeapItem>, counter: nat,
                          live: map<TimerHandle, Scheduled>, top: HeapItem)
    requires HeapInv(entries, heap, counter) && Tied(entries, live)
    requires top in heap && Fresh(entries, top)
    requires forall it | it in heap :: Before(top, it)
    ensures IsNearest(live, Some(entries[top.index].expiry))
  {
    var h := TimerHandle(top.index, top.generation);
    assert h in live && live[h].expiry == entries[top.index].expiry;
    forall g | g in live
      ensures entries[top.index].expiry <= live[g].expiry
    {
      var it := HeapItem(entries[g.index].expiry, g.index, entries[g.index].generation);
      assert it in heap && Before(top, it);
    }
  }

  lemma PopStaleKeepsHeap(entries: map<nat, TimerEntry>, heap: multiset<HeapItem>, counter: nat, top: HeapItem)
    requires HeapInv(entries, heap, counter) && top in heap && !Fresh(entries, top)
    ensures HeapInv(entries, heap - multiset{top}, counter)
  {
    forall x | x in entries
      ensures HeapItem(entries[x].expiry, x, entries[x].generation) in heap - multiset{top}
    {
      assert HeapItem(entries[x].expiry, x, entries[x].generation) in heap;
    }
  }

  /** Pops stale items until the top is fresh; what remains is still a heap for the slab. */
  method PopStale(entries: map<nat, TimerEntry>, heap: multiset<HeapItem>, ghost counter: nat,
                  ghost live: map<TimerHandle, Scheduled>)
    returns (rest: multiset<HeapItem>, nearest: Option<nat>)
    requires HeapInv(entries, heap, counter) && Tied(entries, live)
    ensures HeapInv(entries, rest, counter) && IsNearest(live, nearest)
  {
    hide HeapInv, Tied, IsNearest;
    rest := heap;
    while rest != multiset{}
      invariant HeapInv(entries, rest, counter)
      decreases |rest|
    {
      var top := Peek(rest);
      if top.index in entries && entries[top.index].generation == top.generation {
        FreshTopIsNearest(entries, rest, counter, live, top);
        nearest := Some(entries[top.index].expiry);
        return;
      }
      PopStaleKeepsHeap(entries, rest, counter, top);
      rest := rest - multiset{top};
    }
    EmptyHeapMeansEmptySlab(entries, rest, counter, live);
    nearest := None;
  }

  lemma EmptyHeapMeansEmptySlab(entries: map<nat, TimerEntry>, heap: multiset<HeapItem>, counter: nat,
                                live: map<TimerHandle, Scheduled>)
    requires HeapInv(entries, heap, counter) && Tied(entries, live) && heap == multiset{}
    ensures IsNearest(live, None)
  {
    assert live.Keys == {};
  }

  // ---------- The three representations together ----------

  ghost predicate Coherent(entries: map<nat, TimerEntry>, w: Grid, limbo: seq<nat>,
                           live: map<TimerHandle, Scheduled>, heap: multiset<HeapItem>, counter: nat)
  {
    && WellPlaced(entries, w, limbo)
    && Tied(entries, live)
    && HeapInv(entries, heap, counter)
  }

  /** An entry is in the vector of its level and slot, or taken out for processing. */
  lemma WhereIs(entries: map<nat, TimerEntry>, w: Grid, limbo: seq<nat>, live: map<TimerHandle, Scheduled>, x: nat)
    requires WellPlaced(entries, w, limbo) && Tied(entries, live)
    requires x in entries || x in limbo
    ensures Shape(w) && x in entries
    ensures entries[x].level < NUM_LEVELS && entries[x].slot < SLOTS_PER_LEVEL
    ensures x in limbo || x in w[entries[x].level][entries[x].slot]
    ensures var h := TimerHandle(x, entries[x].generation);
      h in live && live[h].expiry == entries[x].expiry && live[h].waker == entries[x].waker
  {}

  lemma FireKeepsCoherent(entries: map<nat, TimerEntry>, w: Grid, limbo: seq<nat>,
                          live: map<TimerHandle, Scheduled>, heap: multiset<HeapItem>, counter: nat)
    requires Coherent(entries, w, limbo, live, heap, counter) && limbo != []
    ensures var x := limbo[0]; var h := TimerHandle(x, entries[x].generation);
      h in live && Coherent(entries - {x}, w, limbo[1..], live - {h}, heap, counter)
  {
    FireKeepsPlaced(entries, w, limbo);
    DropKeepsTied(entries, live, heap, counter, limbo[0]);
  }

  lemma DropKeepsTied(entries: map<nat, TimerEntry>, live: map<TimerHandle, Scheduled>,
                      heap: multiset<HeapItem>, counter: nat, x: nat)
    requires Tied(entries, live) && HeapInv(entries, heap, counter) && x in entries
    ensures Tied(entries - {x}, live - {TimerHandle(x, entries[x].generation)})
    ensures HeapInv(entries - {x}, heap, counter)
  {}

  lemma MoveKeepsCoherent(entries: map<nat, TimerEntry>, w: Grid, limbo: seq<nat>,
                          live: map<TimerHandle, Scheduled>, heap: multiset<HeapItem>, counter: nat, l: nat, s: nat)
    requires Coherent(entries, w, limbo, live, heap, counter) && limbo != []
    requires l < NUM_LEVELS && s < SLOTS_PER_LEVEL
    ensures var x := limbo[0]; var h := TimerHandle(x, entries[x].generation);
      && h in live
      && Coherent(entries[x := entries[x].(level := l, slot := s)], SetSlot(w, l, s, w[l][s] + [x]), limbo[1..],
                  live[h := live[h].(level := l, slot := s)], heap, counter)
  {
    hide WellPlaced;
    MoveKeepsPlaced(entries, w, limbo, l, s);
    WhereIs(entries, w, limbo, live, limbo[0]);
    MoveKeepsTied(entries, live, heap, counter, limbo[0], l, s);
  }

  lemma MoveKeepsTied(entries: map<nat, TimerEntry>, live: map<TimerHandle, Scheduled>,
                      heap: multiset<HeapItem>, counter: nat, x: nat, l: nat, s: nat)
    requires Tied(entries, live) && HeapInv(entries, heap, counter) && x in entries
    ensures var h := TimerHandle(x, entries[x].generation);
      h in live && Tied(entries[x := entries[x].(level := l, slot := s)], live[h := live[h].(level := l, slot := s)])
    ensures HeapInv(entries[x := entries[x].(level := l, slot := s)], heap, counter)
  {}

  lemma PushKeepsCoherent(entries: map<nat, TimerEntry>, w: Grid, live: map<TimerHandle, Scheduled>,
                          heap: multiset<HeapItem>, counter: nat, x: nat, e: TimerEntry, at: nat)
    requires Coherent(entries, w, [], live, heap, counter) && x !in entries
    requires e.level < NUM_LEVELS && e.slot < SLOTS_PER_LEVEL && e.generation == counter + 1
    ensures var h := TimerHandle(x, e.generation);
      && h !in live
      && Coherent(entries[x := e], SetSlot(w, e.level, e.slot, w[e.level][e.slot] + [x]), [],
                  live[h := Scheduled(e.waker, e.expiry, e.level, e.slot, at)],
                  heap + multiset{HeapItem(e.expiry, x, e.generation)}, counter + 1)
  {
    PushKeepsPlaced(entries, w, x, e);
    PushKeepsTied(entries, live, heap, counter, x, e, at);
  }

  lemma PushKeepsTied(entries: map<nat, TimerEntry>, live: map<TimerHandle, Scheduled>,
                      heap: multiset<HeapItem>, counter: nat, x: nat, e: TimerEntry, at: nat)
    requires Tied(entries, live) && HeapInv(entries, heap, counter)
    requires x !in entries && e.generation == counter + 1
    ensures Tied(entries[x := e],
      live[TimerHandle(x, e.generation) := Scheduled(e.waker, e.expiry, e.level, e.slot, at)])
    ensures HeapInv(entries[x := e], heap + multiset{HeapItem(e.expiry, x, e.generation)}, counter + 1)
  {}

  lemma DropKeepsCoherent(entries: map<nat, TimerEntry>, w: Grid, live: map<TimerHandle, Scheduled>,
                          heap: multiset<HeapItem>, counter: nat, x: nat, pos: nat)
    requires Coherent(entries, w, [], live, heap, counter) && x in entries
    requires pos < |w[entries[x].level][entries[x].slot]| && w[entries[x].level][entries[x].slot][pos] == x
    ensures var l, s := entries[x].level, entries[x].slot;
      Coherent(entries - {x}, SetSlot(w, l, s, w[l][s][..pos] + w[l][s][pos + 1..]), [],
               live - {TimerHandle(x, entries[x].generation)}, heap, counter)
  {
    DropKeepsPlaced(entries, w, x, pos);
    DropKeepsTied(entries, live, heap, counter, x);
  }

  lemma InsertKeepsNearest(live: map<TimerHandle, Scheduled>, nearest: Option<nat>, h: TimerHandle, e: Scheduled)
    requires IsNearest(live, nearest) && h !in live
    ensures IsNearest(live[h := e],
      Some(match nearest { case None => e.expiry case Some(m) => if m < e.expiry then m else e.expiry }))
  {
    var live' := live[h := e];
    assert live'[h].expiry == e.expiry;
    if nearest.Some? {
      var g :| g in live && live[g].expiry == nearest.value;
      assert live'[g].expiry == nearest.value;
    }
  }

  // ---------- Progress of one advance ----------

  ghost predicate Kept(orig: map<TimerHandle, Scheduled>, cur: map<TimerHandle, Scheduled>, h: TimerHandle)
    requires h in orig
  {
    h in cur && cur[h] == orig[h]
  }

  /** Fired if due, placed by its remaining delay otherwise. */
  ghost predicate Settled(orig: map<TimerHandle, Scheduled>, cur: map<TimerHandle, Scheduled>, now: nat, h: TimerHandle)
    requires h in orig
  {
    if orig[h].expiry <= now then h !in cur
    else h in cur && cur[h] == Replaced(orig[h], now)
  }

  /** The timers of the visited slots are settled and the others untouched. */
  ghost predicate Progress(orig: map<TimerHandle, Scheduled>, cur: map<TimerHandle, Scheduled>, now: nat,
                           done: set<(nat, nat)>)
  {
    && cur.Keys <= orig.Keys
    && (forall h | h in orig ::
          if (orig[h].level, orig[h].slot) in done then Settled(orig, cur, now, h) else Kept(orig, cur, h))
  }

  lemma ProgressStarts(orig: map<TimerHandle, Scheduled>, now: nat)
    ensures Progress(orig, orig, now, {})
  {}

  /** A timer moved into a slot that is visited later is settled the same way again. */
  lemma ProgressComposes(a: map<TimerHandle, Scheduled>, b: map<TimerHandle, Scheduled>, c: map<TimerHandle, Scheduled>,
                         now: nat, done: set<(nat, nat)>, at: (nat, nat))
    requires Progress(a, b, now, done) && Progress(b, c, now, {at})
    ensures Progress(a, c, now, done + {at})
  {
    hide Place;
    forall h | h in a
      ensures if (a[h].level, a[h].slot) in done + {at} then Settled(a, c, now, h) else Kept(a, c, h)
    {
      if h in b {
        assert if (b[h].level, b[h].slot) in {at} then Settled(b, c, now, h) else Kept(b, c, h);
      }
    }
  }

  /** Inside one slot: the timers at the indices processed so far are settled. */
  ghost predicate SlotProgress(before: map<TimerHandle, Scheduled>, cur: map<TimerHandle, Scheduled>, now: nat,
                               processed: seq<nat>)
  {
    && cur.Keys <= before.Keys
    && (forall g, h | g in before && h in before && g.index == h.index :: g == h)
    && (forall h | h in before ::
          if h.index in processed then Settled(before, cur, now, h) else Kept(before, cur, h))
  }

  lemma SlotProgressStarts(entries: map<nat, TimerEntry>, live: map<TimerHandle, Scheduled>, now: nat)
    requires Tied(entries, live)
    ensures SlotProgress(live, live, now, [])
  {}

  lemma SlotProgressFires(before: map<TimerHandle, Scheduled>, cur: map<TimerHandle, Scheduled>, now: nat,
                          processed: seq<nat>, h: TimerHandle)
    requires SlotProgress(before, cur, now, processed) && h in cur && h.index !in processed
    requires cur[h].expiry <= now
    ensures SlotProgress(before, cur - {h}, now, processed + [h.index])
  {}

  lemma SlotProgressMoves(before: map<TimerHandle, Scheduled>, cur: map<TimerHandle, Scheduled>, now: nat,
                          processed: seq<nat>, h: TimerHandle)
    requires SlotProgress(before, cur, now, processed) && h in cur && h.index !in processed
    requires cur[h].expiry > now
    ensures SlotProgress(before, cur[h := Replaced(cur[h], now)], now, processed + [h.index])
  {
    hide Place;
  }

  /** Processing the whole vector of a slot settles exactly the timers placed there. */
  lemma SlotProgressEnds(entries: map<nat, TimerEntry>, w: Grid, before: map<TimerHandle, Scheduled>,
                         cur: map<TimerHandle, Scheduled>, now: nat, level: nat, slot: nat)
    requires WellPlaced(entries, w, []) && Tied(entries, before)
    requires level < NUM_LEVELS && slot < SLOTS_PER_LEVEL
    requires SlotProgress(before, cur, now, w[level][slot])
    ensures Progress(before, cur, now, {(level, slot)})
  {
    forall h | h in before
      ensures h.index in w[level][slot] <==> (before[h].level, before[h].slot) in {(level, slot)}
    {}
  }

  /** The wakers handed out so far belong, one each, to the timers that have left. */
  ghost predicate FiredLog(orig: map<TimerHandle, Scheduled>, cur: map<TimerHandle, Scheduled>,
                           wakers: seq<Waker>, fired: seq<TimerHandle>)
  {
    && cur.Keys <= orig.Keys
    && |wakers| == |fired| && NoDup(fired)
    && (forall h :: h in fired <==> h in orig && h !in cur)
    && (forall i | 0 <= i < |fired| :: wakers[i] == orig[fired[i]].waker)
    && (forall h | h in cur :: cur[h].waker == orig[h].waker)
  }

  lemma FireExtendsLog(orig: map<TimerHandle, Scheduled>, cur: map<TimerHandle, Scheduled>,
                       wakers: seq<Waker>, fired: seq<TimerHandle>, h: TimerHandle)
    requires FiredLog(orig, cur, wakers, fired) && h in cur
    ensures FiredLog(orig, cur - {h}, wakers + [cur[h].waker], fired + [h])
  {
    assert forall g :: g in fired + [h] <==> g in fired || g == h;
  }

  lemma MoveKeepsLog(orig: map<TimerHandle, Scheduled>, cur: map<TimerHandle, Scheduled>,
                     wakers: seq<Waker>, fired: seq<TimerHandle>, h: TimerHandle, l: nat, s: nat)
    requires FiredLog(orig, cur, wakers, fired) && h in cur
    ensures FiredLog(orig, cur[h := cur[h].(level := l, slot := s)], wakers, fired)
  {}

  /** All levels above 0 and the swept level-0 slots visited: that is one advance. */
  lemma ProgressIsAdvance(s: WheelState, ticks: nat, cur: map<TimerHandle, Scheduled>, done: set<(nat, nat)>)
    requires Inv(s) && ticks > 0
    requires Progress(s.live, cur, s.now + ticks, done)
    requires forall l: nat, i: nat | l < NUM_LEVELS && i < SLOTS_PER_LEVEL ::
      (l, i) in done <==> l >= 1 || Swept(s.now, s.now + ticks, i)
    ensures Advance(s, ticks) == WheelState(s.now + ticks, s.issued, cur)
    ensures s.live.Keys - cur.Keys == Fired(s, ticks)
  {
    hide PlacementOk, Fires, Touched, Settled, Kept;
    var goal := Advance(s, ticks).live;
    forall h | h in s.live
      ensures h in cur <==> !Fires(s.live[h], s.now, s.now + ticks)
      ensures h in cur ==> h in goal && cur[h] == goal[h]
    {
      OneTimerAdvances(s, ticks, cur, done, h);
    }
    assert cur.Keys == goal.Keys;
  }

  lemma OneTimerAdvances(s: WheelState, ticks: nat, cur: map<TimerHandle, Scheduled>, done: set<(nat, nat)>,
                         h: TimerHandle)
    requires h in s.live && PlacementOk(s.live[h], s.now) && ticks > 0
    requires if (s.live[h].level, s.live[h].slot) in done
      then Settled(s.live, cur, s.now + ticks, h) else Kept(s.live, cur, h)
    requires forall l: nat, i: nat | l < NUM_LEVELS && i < SLOTS_PER_LEVEL ::
      (l, i) in done <==> l >= 1 || Swept(s.now, s.now + ticks, i)
    ensures h in cur <==> !Fires(s.live[h], s.now, s.now + ticks)
    ensures h in cur ==>
      cur[h] == if Touched(s.live[h], s.now, s.now + ticks) then Replaced(s.live[h], s.now + ticks) else s.live[h]
  {}

  lemma InsertKeepsInv(s: WheelState, index: nat, waker: Waker, expiry: nat)
    requires Inv(s)
    ensures Inv(WheelSpec.Insert(s, index, waker, expiry))
  {
    StepKeepsInv(s, InsertOp(index, waker, expiry));
  }

  lemma RemoveKeepsInv(s: WheelState, h: TimerHandle)
    requires Inv(s)
    ensures Inv(WheelSpec.Remove(s, h))
  {
    StepKeepsInv(s, RemoveOp(h));
  }

  lemma AdvanceKeepsInv(s: WheelState, ticks: nat)
    requires Inv(s)
    ensures Inv(WheelSpec.Advance(s, ticks))
  {
    StepKeepsInv(s, AdvanceOp(ticks));
  }

  class TimingWheel {
    var entries: map<nat, TimerEntry>
    var wheels: Grid
    var currentTick: nat
    var generationCounter: nat
    var minExpiration: Option<nat>
    var heap: multiset<HeapItem>
    ghost var live: map<TimerHandle, Scheduled>

    ghost function State(): WheelState
      reads this
    {
      WheelState(currentTick, generationCounter, live)
    }

    /** What holds even while an advance is under way. */
    ghost predicate Core(limbo: seq<nat>)
      reads this
    {
      Coherent(entries, wheels, limbo, live, heap, generationCounter)
    }

    /** Between public calls: the cached minimum is exact and the run invariant holds. */
    ghost predicate Valid()
      reads this
    {
      && Core([])
      && IsNearest(live, minExpiration)
      && Inv(State())
    }

    /** How far an advance has come: visited slots are settled, departed timers are logged. */
    ghost predicate Walked(orig: map<TimerHandle, Scheduled>, done: set<(nat, nat)>,
                           wakers: seq<Waker>, fired: seq<TimerHandle>)
      reads this
    {
      && Progress(orig, live, currentTick, done)
      && FiredLog(orig, live, wakers, fired)
    }

    constructor ()
      ensures Valid() && State() == Init
    {
      entries := map[];
      wheels := seq(NUM_LEVELS, _ => seq(SLOTS_PER_LEVEL, _ => []));
      currentTick, generationCounter, minExpiration := 0, 0, None;
      heap := multiset{};
      live := map[];
    }

    method IsEmpty() returns (empty: bool)
      requires Valid()
      ensures empty <==> live == map[]
    {
      empty := entries == map[];
      if !empty {
        ghost var x :| x in entries;
        assert TimerHandle(x, entries[x].generation) in live;
      } else {
        assert live.Keys == {};
      }
    }

    /** The nearest expiry; tick 0 is reported as no wakeup at all. */
    method NearestWakeup() returns (tick: Option<nat>)
      requires Valid()
      modifies `heap, `minExpiration
      ensures Valid()
      ensures tick.Some? ==> tick.value > 0 && IsNearest(live, tick)
      ensures tick.None? ==> live == map[] || IsNearest(live, Some(0))
    {
      hide WellPlaced, Tied, HeapInv, Inv;
      RefreshMinExpiration();
      tick := match minExpiration { case None => None case Some(t) => if t == 0 then None else Some(t) };
    }

    /** Pops stale items until the top is fresh: the cached minimum becomes exact. */
    method RefreshMinExpiration()
      requires Core([])
      modifies `heap, `minExpiration
      ensures Core([]) && IsNearest(live, minExpiration)
    {
      hide HeapInv, Tied, IsNearest, WellPlaced;
      heap, minExpiration := PopStale(entries, heap, generationCounter, live);
    }

    method CalculateLevelAndSlot(delay: nat) returns (level: nat, slot: nat)
      ensures Fits(delay, level, slot)
      ensures (level, slot) == Place(delay)
    {
      var unit := 1;
      level := 0;
      while level < NUM_LEVELS - 1
        invariant level < NUM_LEVELS && unit == Unit(level)
        invariant level > 0 ==> delay >= Unit(level)
      {
        if delay <= SLOTS_PER_LEVEL * unit - 1 {
          slot := (delay / unit) % SLOTS_PER_LEVEL;
          PlaceIsTheFit(delay, level, slot);
          return;
        }
        level, unit := level + 1, SLOTS_PER_LEVEL * unit;
      }
      slot := (delay / unit) % SLOTS_PER_LEVEL;
      PlaceIsTheFit(delay, level, slot);
    }

    method Insert(waker: Waker, expiry: nat) returns (handle: TimerHandle)
      requires Valid()
      modifies this
      ensures Valid()
      ensures handle.generation == generationCounter && handle !in old(live)
      ensures State() == WheelSpec.Insert(old(State()), handle.index, waker, expiry)
    {
      hide WellPlaced, Tied, HeapInv, IsNearest, Inv;
      var delay := if expiry > currentTick then expiry - currentTick else 0;
      var level, slot := CalculateLevelAndSlot(delay);
      generationCounter := generationCounter + 1;
      var index := VacantKey(entries);
      handle := TimerHandle(index, generationCounter);
      var entry := TimerEntry(waker, expiry, generationCounter, level, slot);
      assert Shape(wheels) by { PlacedHasShape(entries, wheels, []); }
      ghost var scheduled := Scheduled(waker, expiry, level, slot, currentTick);
      PushKeepsCoherent(entries, wheels, live, heap, old(generationCounter), index, entry, currentTick);
      InsertKeepsNearest(live, minExpiration, handle, scheduled);
      InsertKeepsInv(old(State()), index, waker, expiry);
      assert WheelSpec.Insert(old(State()), index, waker, expiry)
        == WheelState(currentTick, generationCounter, live[handle := scheduled]);
      entries := entries[index := entry];
      wheels := SetSlot(wheels, level, slot, wheels[level][slot] + [index]);
      heap := heap + multiset{HeapItem(expiry, index, generationCounter)};
      live := live[handle := scheduled];
      minExpiration := Some(
        match minExpiration { case None => expiry case Some(m) => if m < expiry then m else expiry });
    }

    /** A stale or foreign handle leaves the wheel as it is; the right one removes just its timer. */
    method Remove(handle: TimerHandle)
      requires Valid()
      modifies this
      ensures Valid()
      ensures State() == WheelSpec.Remove(old(State()), handle)
    {
      hide WellPlaced, HeapInv, IsNearest, Inv;
      if handle.index in entries && entries[handle.index].generation == handle.generation {
        WhereIs(entries, wheels, [], live, handle.index);
        var level, slot, index := entries[handle.index].level, entries[handle.index].slot, handle.index;
        var pos := Position(wheels[level][slot], index);
        DropKeepsCoherent(entries, wheels, live, heap, generationCounter, index, pos);
        wheels := SetSlot(wheels, level, slot, wheels[level][slot][..pos] + wheels[level][slot][pos + 1..]);
        entries := entries - {index};
        live := live - {handle};
        RemoveKeepsInv(old(State()), handle);
        assert State() == WheelSpec.Remove(old(State()), handle);
        RefreshMinExpiration();
      } else {
        assert live - {handle} == live;
      }
    }

    /**
     * Moves the clock and fires. The returned wakers are those of the fired
     * timers, each once.
     */
    method Advance(ticks: nat) returns (wakers: seq<Waker>, ghost fired: seq<TimerHandle>)
      requires Valid()
      modifies this
      ensures Valid()
      ensures State() == WheelSpec.Advance(old(State()), ticks)
      ensures NoDup(fired) && (forall h :: h in fired <==> h in Fired(old(State()), ticks))
      ensures |wakers| == |fired|
      ensures forall i | 0 <= i < |fired| :: fired[i] in old(live) && wakers[i] == old(live)[fired[i]].waker
    {
      hide WellPlaced, Tied, HeapInv, IsNearest, Inv, Progress;
      wakers, fired := [], [];
      if ticks == 0 {
        return;
      }
      ghost var s := State();
      var startTick := currentTick;
      currentTick := currentTick + ticks;
      ghost var done: set<(nat, nat)>;
      ProgressStarts(s.live, currentTick);
      wakers, fired, done := CascadeAllLevels(s.live, wakers, fired);
      wakers, fired, done := SweepLevel0(s.live, startTick, ticks, wakers, fired, done);
      AdvanceKeepsInv(s, ticks);
      ProgressIsAdvance(s, ticks, live, done);
      assert State() == WheelSpec.Advance(s, ticks);
      RefreshMinExpiration();
    }

    /** Visits the level-0 slots between the start and the end tick, in the code's three cases. */
    method SweepLevel0(ghost orig: map<TimerHandle, Scheduled>, startTick: nat, ticks: nat, wakersIn: seq<Waker>,
                       ghost firedIn: seq<TimerHandle>, ghost doneIn: set<(nat, nat)>)
      returns (wakers: seq<Waker>, ghost fired: seq<TimerHandle>, ghost done: set<(nat, nat)>)
      requires ticks > 0 && currentTick == startTick + ticks
      requires Core([]) && Walked(orig, doneIn, wakersIn, firedIn)
      requires forall l: nat, i: nat :: (l, i) in doneIn <==> 1 <= l < NUM_LEVELS && i < SLOTS_PER_LEVEL
      modifies `entries, `wheels, `live
      ensures Core([]) && Walked(orig, done, wakers, fired)
      ensures forall l: nat, i: nat | l < NUM_LEVELS && i < SLOTS_PER_LEVEL ::
        (l, i) in done <==> l >= 1 || Swept(startTick, startTick + ticks, i)
    {
      hide WellPlaced, Tied, HeapInv, Progress, FiredLog, Swept;
      var startSlot := startTick % SLOTS_PER_LEVEL;
      var endSlot := currentTick % SLOTS_PER_LEVEL;
      if ticks >= SLOTS_PER_LEVEL {
        wakers, fired, done := ProcessRange(orig, 0, SLOTS_PER_LEVEL, wakersIn, firedIn, doneIn);
      } else if startSlot <= endSlot {
        wakers, fired, done := ProcessRange(orig, startSlot, endSlot + 1, wakersIn, firedIn, doneIn);
      } else {
        wakers, fired, done := ProcessRange(orig, startSlot, SLOTS_PER_LEVEL, wakersIn, firedIn, doneIn);
        wakers, fired, done := ProcessRange(orig, 0, endSlot + 1, wakers, fired, done);
      }
      forall l: nat, i: nat | l < NUM_LEVELS && i < SLOTS_PER_LEVEL
        ensures (l, i) in done <==> l >= 1 || Swept(startTick, startTick + ticks, i)
      {
        SweepRanges(startTick, ticks, i);
      }
    }

    method CascadeAllLevels(ghost orig: map<TimerHandle, Scheduled>, wakersIn: seq<Waker>, ghost firedIn: seq<TimerHandle>)
      returns (wakers: seq<Waker>, ghost fired: seq<TimerHandle>, ghost done: set<(nat, nat)>)
      requires Core([]) && Walked(orig, {}, wakersIn, firedIn)
      modifies `entries, `wheels, `live
      ensures Core([]) && Walked(orig, done, wakers, fired)
      ensures forall l: nat, i: nat :: (l, i) in done <==> 1 <= l < NUM_LEVELS && i < SLOTS_PER_LEVEL
    {
      hide WellPlaced, Tied, HeapInv, Progress, FiredLog;
      wakers, fired, done := wakersIn, firedIn, {};
      var level := NUM_LEVELS - 1;
      while level >= 1
        invariant 0 <= level < NUM_LEVELS
        invariant Core([]) && Walked(orig, done, wakers, fired)
        invariant forall l: nat, i: nat :: (l, i) in done <==> level < l < NUM_LEVELS && i < SLOTS_PER_LEVEL
      {
        wakers, fired, done := CascadeLevel(orig, level, wakers, fired, done);
        level := level - 1;
      }
    }

    method CascadeLevel(ghost orig: map<TimerHandle, Scheduled>, level: nat, wakersIn: seq<Waker>,
                        ghost firedIn: seq<TimerHandle>, ghost doneIn: set<(nat, nat)>)
      returns (wakers: seq<Waker>, ghost fired: seq<TimerHandle>, ghost done: set<(nat, nat)>)
      requires 1 <= level < NUM_LEVELS
      requires Core([]) && Walked(orig, doneIn, wakersIn, firedIn)
      modifies `entries, `wheels, `live
      ensures Core([]) && Walked(orig, done, wakers, fired)
      ensures forall l: nat, i: nat :: (l, i) in done <==> (l, i) in doneIn || (l == level && i < SLOTS_PER_LEVEL)
    {
      hide WellPlaced, Tied, HeapInv, Progress, FiredLog;
      wakers, fired, done := wakersIn, firedIn, doneIn;
      for slot := 0 to SLOTS_PER_LEVEL
        invariant Core([]) && Walked(orig, done, wakers, fired)
        invariant forall l: nat, i: nat :: (l, i) in done <==> (l, i) in doneIn || (l == level && i < slot)
      {
        wakers, fired := SettleSlot(orig, level, slot, wakers, fired, done);
        done := done + {(level, slot)};
      }
    }

    /** `process_slot_at_level_0` over the slots lo..hi. */
    method ProcessRange(ghost orig: map<TimerHandle, Scheduled>, lo: nat, hi: nat, wakersIn: seq<Waker>,
                        ghost firedIn: seq<TimerHandle>, ghost doneIn: set<(nat, nat)>)
      returns (wakers: seq<Waker>, ghost fired: seq<TimerHandle>, ghost done: set<(nat, nat)>)
      requires lo <= hi <= SLOTS_PER_LEVEL
      requires Core([]) && Walked(orig, doneIn, wakersIn, firedIn)
      modifies `entries, `wheels, `live
      ensures Core([]) && Walked(orig, done, wakers, fired)
      ensures forall l: nat, i: nat :: (l, i) in done <==> (l, i) in doneIn || (l == 0 && lo <= i < hi)
    {
      hide WellPlaced, Tied, HeapInv, Progress, FiredLog;
      wakers, fired, done := wakersIn, firedIn, doneIn;
      for slot := lo to hi
        invariant Core([]) && Walked(orig, done, wakers, fired)
        invariant forall l: nat, i: nat :: (l, i) in done <==> (l, i) in doneIn || (l == 0 && lo <= i < slot)
      {
        wakers, fired := SettleSlot(orig, 0, slot, wakers, fired, done);
        done := done + {(0, slot)};
      }
    }

    /**
     * Takes the vector of one slot and, index by index, fires the due timers and
     * places the others again by their remaining delay.
     */
    method SettleSlot(ghost orig: map<TimerHandle, Scheduled>, level: nat, slot: nat, wakersIn: seq<Waker>,
                      ghost firedIn: seq<TimerHandle>, ghost done: set<(nat, nat)>)
      returns (wakers: seq<Waker>, ghost fired: seq<TimerHandle>)
      requires level < NUM_LEVELS && slot < SLOTS_PER_LEVEL
      requires Core([]) && Walked(orig, done, wakersIn, firedIn)
      modifies `entries, `wheels, `live
      ensures Core([]) && Walked(orig, done + {(level, slot)}, wakers, fired)
    {
      hide HeapInv, FiredLog, SlotProgress, Progress;
      wakers, fired := wakersIn, firedIn;
      var taken := wheels[level][slot];
      TakeKeepsPlaced(entries, wheels, level, slot);
      SlotProgressStarts(entries, live, currentTick);
      ghost var before, slab, grid := live, entries, wheels;
      assert NoDup(taken);
      wheels := SetSlot(wheels, level, slot, []);
      var k := 0;
      assert taken[0..] == taken && taken[..0] == [];
      while k < |taken|
        invariant 0 <= k <= |taken|
        invariant Core(taken[k..])
        invariant FiredLog(orig, live, wakers, fired)
        invariant SlotProgress(before, live, currentTick, taken[..k])
      {
        wakers, fired := SettleOne(orig, before, taken, k, wakers, fired);
        k := k + 1;
      }
      assert taken[k..] == [] && taken[..k] == taken;
      SlotProgressEnds(slab, grid, before, live, currentTick, level, slot);
      ProgressComposes(orig, before, live, currentTick, done, (level, slot));
    }

    /** The body of the slot loops: fire the timer at one index, or place it again. */
    method SettleOne(ghost orig: map<TimerHandle, Scheduled>, ghost before: map<TimerHandle, Scheduled>,
                     taken: seq<nat>, k: nat, wakersIn: seq<Waker>, ghost firedIn: seq<TimerHandle>)
      returns (wakers: seq<Waker>, ghost fired: seq<TimerHandle>)
      requires k < |taken| && NoDup(taken) && Core(taken[k..])
      requires FiredLog(orig, live, wakersIn, firedIn)
      requires SlotProgress(before, live, currentTick, taken[..k])
      modifies `entries, `wheels, `live
      ensures Core(taken[k + 1..])
      ensures FiredLog(orig, live, wakers, fired)
      ensures SlotProgress(before, live, currentTick, taken[..k + 1])
    {
      hide WellPlaced, Tied, HeapInv, FiredLog, SlotProgress;
      wakers, fired := wakersIn, firedIn;
      ghost var limbo := taken[k..];
      var index := taken[k];
      assert limbo[0] == index && limbo[1..] == taken[k + 1..];
      assert index !in taken[..k] && taken[..k + 1] == taken[..k] + [index];
      assert index in limbo;
      WhereIs(entries, wheels, limbo, live, index);
      var entry := entries[index];
      ghost var h := TimerHandle(index, entry.generation);
      if entry.expiry <= currentTick {
        FireKeepsCoherent(entries, wheels, limbo, live, heap, generationCounter);
        FireExtendsLog(orig, live, wakers, fired, h);
        SlotProgressFires(before, live, currentTick, taken[..k], h);
        wakers, fired := wakers + [entry.waker], fired + [h];
        entries := entries - {index};
        live := live - {h};
      } else {
        var newLevel, newSlot := CalculateLevelAndSlot(entry.expiry - currentTick);
        MoveKeepsCoherent(entries, wheels, limbo, live, heap, generationCounter, newLevel, newSlot);
        MoveKeepsLog(orig, live, wakers, fired, h, newLevel, newSlot);
        SlotProgressMoves(before, live, currentTick, taken[..k], h);
        assert live[h].(level := newLevel, slot := newSlot) == Replaced(live[h], currentTick);
        entries := entries[index := entry.(level := newLevel, slot := newSlot)];
        wheels := SetSlot(wheels, newLevel, newSlot, wheels[newLevel][newSlot] + [index]);
        live := live[h := live[h].(level := newLevel, slot := newSlot)];
      }
    }
  }

  /** The first position of an index in a slot vector. */
  method Position(v: seq<nat>, x: nat) returns (pos: nat)
    requires x in v
    ensures pos < |v| && v[pos] == x && x !in v[..pos]
  {
    pos := 0;
    while v[pos] != x
      invariant pos < |v| && x !in v[..pos]
      decreases |v| - pos
    {
      pos := pos + 1;
    }
  }
}
