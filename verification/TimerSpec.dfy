/**
 * The millisecond timer and the Sleep future over it, as functions on values,
 * and the system of one timer, any number of sleeps and a monotone clock.
 * Instants are nanoseconds.
 */
module TimerSpec {
  import opened Prelude
  import opened WheelSpec

  const NANOS_PER_MILLI: nat := 1_000_000

  /** The wheel and the clock reading of the last spin. */
  datatype TimerState = TimerState(wheel: WheelState, instant: nat)

  function Since(later: nat, earlier: nat): nat {
    if later > earlier then later - earlier else 0
  }

  function Millis(nanos: nat): nat {
    nanos / NANOS_PER_MILLI
  }

  /** Whole milliseconds from the last spin to the deadline; below one the waker is woken at once. */
  function Delay(t: TimerState, deadline: nat): nat {
    Millis(Since(deadline, t.instant))
  }

  function Submit(t: TimerState, index: nat, deadline: nat, waker: Waker): (TimerState, Option<TimerHandle>) {
    var delay := Delay(t, deadline);
    if delay < 1 then (t, None)
    else (t.(wheel := Insert(t.wheel, index, waker, t.wheel.now + delay)),
          Some(TimerHandle(index, t.wheel.issued + 1)))
  }

  function Cancel(t: TimerState, h: TimerHandle): TimerState {
    t.(wheel := Remove(t.wheel, h))
  }

  /** An empty wheel is not advanced: only the instant moves. */
  function SpinTicks(t: TimerState, clock: nat): nat {
    if t.wheel.live == map[] then 0 else Millis(Since(clock, t.instant))
  }

  function Spin(t: TimerState, clock: nat): TimerState {
    TimerState(Advance(t.wheel, SpinTicks(t, clock)), clock)
  }

  function SpinFires(t: TimerState, clock: nat): set<TimerHandle> {
    Fired(t.wheel, SpinTicks(t, clock))
  }

  // ---------- Sleep ----------

  datatype ZeroBehavior = Immediate | Yield

  datatype SleepState = SleepState(
    deadline: nat, handle: Option<TimerHandle>, fired: bool, yieldScheduled: bool, zero: ZeroBehavior)

  datatype Poll = Ready | Pending

  function NewSleep(deadline: nat, zero: ZeroBehavior): SleepState {
    SleepState(deadline, None, false, false, zero)
  }

  function Reset(s: SleepState, t: TimerState, deadline: nat): (SleepState, TimerState) {
    (NewSleep(deadline, s.zero), if s.handle.Some? then Cancel(t, s.handle.value) else t)
  }

  function Dropped(s: SleepState, t: TimerState): TimerState {
    if s.handle.Some? then Cancel(t, s.handle.value) else t
  }

  /** A first submission that the timer answered by waking at once; a yield wakes once more. */
  function ImmediateWakeup(s: SleepState, waker: Waker): (SleepState, Poll, seq<Waker>) {
    if s.zero.Yield? && !s.yieldScheduled then (s.(yieldScheduled := true), Pending, [waker])
    else (s.(fired := true), Ready, [])
  }

  /** The new sleep and timer, the answer, and the wakers run on the spot. */
  function PollSleep(s: SleepState, t: TimerState, clock: nat, waker: Waker, index: nat)
    : (r: (SleepState, TimerState, Poll, seq<Waker>))
  {
    if s.fired then (s, t, Ready, [])
    else if s.handle.None? then
      var (t', h) := Submit(t, index, s.deadline, waker);
      if h.Some? then (s.(handle := h), t', Pending, [])
      else var (s', poll, woken) := ImmediateWakeup(s, waker); (s', t', poll, [waker] + woken)
    else if clock >= s.deadline then (s.(fired := true, handle := None), t, Ready, [])
    else
      var (t', h) := Submit(Cancel(t, s.handle.value), index, s.deadline, waker);
      if h.Some? then (s.(handle := h), t', Pending, [])
      else (s.(fired := true, handle := None), t', Ready, [waker])
  }

  // ---------- One timer, many sleeps, one clock ----------

  /**
   * `due` remembers the deadline each handle was submitted for, `delivered` the
   * waker of each handle the timer has woken, `pending` the waker of each sleep
   * whose last poll was Pending, and `ran` the wakers that poll ran on the spot.
   */
  datatype System = System(
    clock: nat, timer: TimerState, sleeps: map<nat, SleepState>,
    due: map<TimerHandle, nat>, delivered: map<TimerHandle, Waker>, pending: map<nat, Waker>,
    ran: map<nat, seq<Waker>>)

  datatype Event =
    | Tick(nanos: nat)
    | SpinTimer
    | Create(id: nat, at: nat, zero: ZeroBehavior)
    | PollOne(id: nat, waker: Waker, index: nat)
    | ResetOne(id: nat, at: nat)
    | DropOne(id: nat)

  function PollOutcome(y: System, id: nat, waker: Waker, index: nat): (SleepState, TimerState, Poll, seq<Waker>)
    requires id in y.sleeps
  {
    PollSleep(y.sleeps[id], y.timer, y.clock, waker, index)
  }

  /** Events on sleeps that do not exist, and creation under a used name, change nothing. */
  function Next(y: System, e: Event): System {
    match e
    case Tick(nanos) => y.(clock := y.clock + nanos)
    case SpinTimer =>
      var fires := SpinFires(y.timer, y.clock);
      y.(timer := Spin(y.timer, y.clock),
         delivered := y.delivered + map h | h in fires && h in y.timer.wheel.live :: y.timer.wheel.live[h].waker)
    case Create(id, at, zero) =>
      if id in y.sleeps then y else y.(sleeps := y.sleeps[id := NewSleep(at, zero)], pending := y.pending - {id})
    case PollOne(id, waker, index) =>
      if id !in y.sleeps then y else
        var (s', t', poll, woken) := PollOutcome(y, id, waker, index);
        y.(timer := t', sleeps := y.sleeps[id := s'],
           due := if poll.Pending? && s'.handle.Some? then y.due[s'.handle.value := s'.deadline] else y.due,
           pending := if poll.Pending? then y.pending[id := waker] else y.pending - {id},
           ran := y.ran[id := woken])
    case ResetOne(id, at) =>
      if id !in y.sleeps then y else
        var (s', t') := Reset(y.sleeps[id], y.timer, at);
        y.(timer := t', sleeps := y.sleeps[id := s'], pending := y.pending - {id})
    case DropOne(id) =>
      if id !in y.sleeps then y else
        y.(timer := Dropped(y.sleeps[id], y.timer), sleeps := y.sleeps - {id}, pending := y.pending - {id})
  }

  const Start: System := System(0, TimerState(Init, 0), map[], map[], map[], map[], map[])

  function After(events: seq<Event>): System {
    if events == [] then Start else Next(After(events[..|events| - 1]), events[|events| - 1])
  }

  // ---------- The invariant ----------

  /** The deadline is less than a millisecond past what the wheel still has to count. */
  ghost predicate OnTime(t: TimerState, h: TimerHandle, deadline: nat)
    requires h in t.wheel.live
  {
    deadline < t.instant + (t.wheel.live[h].expiry - t.wheel.now + 1) * NANOS_PER_MILLI
  }

  ghost predicate TimersOk(y: System) {
    && Inv(y.timer.wheel)
    && y.timer.instant <= y.clock
    && (forall h | h in y.timer.wheel.live ::
          && h in y.due && h !in y.delivered && OnTime(y.timer, h, y.due[h])
          && y.timer.wheel.live[h].insertedAt < y.timer.wheel.live[h].expiry)
    && (forall h | h in y.delivered :: h.generation <= y.timer.wheel.issued)
  }

  /** The deadline has been reached, up to a millisecond, at the last spin. */
  predicate NearlyDue(s: SleepState, t: TimerState) {
    s.deadline < t.instant + NANOS_PER_MILLI
  }

  /** What a sleep holds on to: nothing, a live entry with its waker, or an entry already woken. */
  ghost predicate Armed(y: System, id: nat)
    requires id in y.sleeps && y.sleeps[id].handle.Some?
  {
    var h := y.sleeps[id].handle.value;
    && id in y.pending
    && h.generation <= y.timer.wheel.issued
    && h in y.due && y.due[h] == y.sleeps[id].deadline
    && (if h in y.timer.wheel.live then y.timer.wheel.live[h].waker == y.pending[id]
        else h in y.delivered && y.delivered[h] == y.pending[id] && NearlyDue(y.sleeps[id], y.timer))
  }

  ghost predicate SleepOk(y: System, id: nat)
    requires id in y.sleeps
  {
    var s := y.sleeps[id];
    && (s.fired ==> s.deadline < y.clock + NANOS_PER_MILLI)
    && (s.yieldScheduled ==> s.handle.None? && NearlyDue(s, y.timer))
    && (s.handle.Some? ==> !s.fired && Armed(y, id))
    && (s.handle.None? && id in y.pending ==> s.yieldScheduled && id in y.ran && y.pending[id] in y.ran[id])
  }

  ghost predicate SystemOk(y: System) {
    && TimersOk(y)
    && (forall id | id in y.sleeps :: SleepOk(y, id))
    && (forall i, j | i in y.sleeps && j in y.sleeps && y.sleeps[i].handle.Some? && i != j ::
          y.sleeps[i].handle != y.sleeps[j].handle)
  }

  // ---------- Every event keeps it ----------

  lemma DelayIsZeroIffNearlyDue(t: TimerState, deadline: nat)
    ensures Delay(t, deadline) < 1 <==> deadline < t.instant + NANOS_PER_MILLI
    ensures deadline < t.instant + (Delay(t, deadline) + 1) * NANOS_PER_MILLI
  {}

  /** Spinning drops the fraction of a millisecond, which only makes timers later, never earlier. */
  lemma SpinKeepsOnTime(t: TimerState, clock: nat, h: TimerHandle, deadline: nat)
    requires t.instant <= clock && h in t.wheel.live && OnTime(t, h, deadline)
    ensures deadline < clock + (t.wheel.live[h].expiry - Spin(t, clock).wheel.now + 1) * NANOS_PER_MILLI
  {
    assert t.wheel.live != map[];
    var elapsed := clock - t.instant;
    assert Millis(elapsed) * NANOS_PER_MILLI <= elapsed;
  }

  /** No waker runs a millisecond or more before the deadline its timer was submitted for. */
  lemma WakeIsNeverEarly(y: System, h: TimerHandle)
    requires TimersOk(y) && h in SpinFires(y.timer, y.clock)
    ensures y.due[h] < y.clock + NANOS_PER_MILLI
  {
    SpinKeepsOnTime(y.timer, y.clock, h, y.due[h]);
  }

  lemma SpinKeepsTimers(y: System)
    requires TimersOk(y)
    ensures TimersOk(Next(y, SpinTimer))
  {
    hide PlacementOk, Place, Fires, Touched;
    var y' := Next(y, SpinTimer);
    StepKeepsInv(y.timer.wheel, AdvanceOp(SpinTicks(y.timer, y.clock)));
    forall h | h in y'.timer.wheel.live
      ensures h in y'.due && h !in y'.delivered && OnTime(y'.timer, h, y'.due[h])
      ensures y'.timer.wheel.live[h].insertedAt < y'.timer.wheel.live[h].expiry
    {
      SpinKeepsOnTime(y.timer, y.clock, h, y.due[h]);
    }
    assert forall h | h in y'.delivered :: h in y.delivered || h in y.timer.wheel.live;
  }

  lemma SpinKeepsSleep(y: System, id: nat)
    requires TimersOk(y) && id in y.sleeps && SleepOk(y, id)
    ensures SleepOk(Next(y, SpinTimer), id)
  {
    if y.sleeps[id].handle.Some? {
      var h := y.sleeps[id].handle.value;
      if h in SpinFires(y.timer, y.clock) {
        WakeIsNeverEarly(y, h);
      }
    }
  }

  /** The timer's side of a poll: cancel the old handle if there is one, submit anew. */
  lemma SubmitKeepsTimers(y: System, index: nat, deadline: nat, waker: Waker, y': System)
    requires TimersOk(y)
    requires var (t', h) := Submit(y.timer, index, deadline, waker);
      && y'.timer == t' && y'.clock == y.clock && y'.delivered == y.delivered
      && y'.due == if h.Some? then y.due[h.value := deadline] else y.due
    ensures TimersOk(y')
  {
    hide Inv, Place;
    DelayIsZeroIffNearlyDue(y.timer, deadline);
    StepKeepsInv(y.timer.wheel, InsertOp(index, waker, y.timer.wheel.now + Delay(y.timer, deadline)));
  }

  lemma CancelKeepsTimers(y: System, h: TimerHandle)
    requires TimersOk(y)
    ensures TimersOk(y.(timer := Cancel(y.timer, h)))
  {
    StepKeepsInv(y.timer.wheel, RemoveOp(h));
  }

  lemma PollKeepsTimers(y: System, id: nat, waker: Waker, index: nat)
    requires TimersOk(y) && id in y.sleeps && SleepOk(y, id)
    ensures TimersOk(Next(y, PollOne(id, waker, index)))
  {
    hide Inv, OnTime, Insert;
    var s := y.sleeps[id];
    var y' := Next(y, PollOne(id, waker, index));
    if s.fired {
      assert y'.timer == y.timer;
    } else if s.handle.None? {
      SubmitKeepsTimers(y, index, s.deadline, waker, y');
    } else if y.clock < s.deadline {
      CancelKeepsTimers(y, s.handle.value);
      SubmitKeepsTimers(y.(timer := Cancel(y.timer, s.handle.value)), index, s.deadline, waker, y');
    }
  }

  /** The polled sleep itself ends Ready no more than a millisecond early, or properly armed. */
  lemma PollKeepsOwn(y: System, id: nat, waker: Waker, index: nat)
    requires TimersOk(y) && id in y.sleeps && SleepOk(y, id)
    ensures SleepOk(Next(y, PollOne(id, waker, index)), id)
    ensures PollOutcome(y, id, waker, index).2.Ready? ==> y.sleeps[id].deadline < y.clock + NANOS_PER_MILLI
  {
    hide Inv, OnTime, Place, Millis;
    DelayIsZeroIffNearlyDue(y.timer, y.sleeps[id].deadline);
  }

  /** Polling one sleep cancels and submits under its own handles only. */
  lemma PollKeepsForeignHandle(y: System, id: nat, waker: Waker, index: nat, h: TimerHandle)
    requires id in y.sleeps && y.sleeps[id].handle != Some(h) && h.generation <= y.timer.wheel.issued
    ensures var (s', t', _, _) := PollOutcome(y, id, waker, index);
      && t'.instant == y.timer.instant && t'.wheel.issued >= y.timer.wheel.issued
      && s'.handle != Some(h)
      && (h in t'.wheel.live <==> h in y.timer.wheel.live)
      && (h in t'.wheel.live ==> t'.wheel.live[h] == y.timer.wheel.live[h])
  {}

  lemma PollKeepsOthers(y: System, id: nat, waker: Waker, index: nat, other: nat)
    requires TimersOk(y) && id in y.sleeps && other in y.sleeps && other != id
    requires SleepOk(y, id) && SleepOk(y, other)
    requires y.sleeps[other].handle.Some? ==> y.sleeps[id].handle != y.sleeps[other].handle
    ensures var y' := Next(y, PollOne(id, waker, index));
      SleepOk(y', other) && (y'.sleeps[other].handle.Some? ==> y'.sleeps[id].handle != y'.sleeps[other].handle)
  {
    hide TimersOk, PollSleep;
    if y.sleeps[other].handle.Some? {
      PollKeepsForeignHandle(y, id, waker, index, y.sleeps[other].handle.value);
    } else {
      PollKeepsInstant(y, id, waker, index);
    }
  }

  lemma PollKeepsInstant(y: System, id: nat, waker: Waker, index: nat)
    requires id in y.sleeps
    ensures PollOutcome(y, id, waker, index).1.instant == y.timer.instant
  {}

  lemma EventKeepsSystem(y: System, e: Event)
    requires SystemOk(y)
    ensures SystemOk(Next(y, e))
  {
    hide TimersOk, SleepOk;
    match e
    case Tick(nanos) =>
      TickKeeps(y, nanos);
    case SpinTimer =>
      SpinKeepsTimers(y);
      forall id | id in y.sleeps ensures SleepOk(Next(y, e), id) { SpinKeepsSleep(y, id); }
    case Create(id, at, zero) =>
      if id !in y.sleeps {
        CreateKeeps(y, id, at, zero);
      }
    case PollOne(id, waker, index) =>
      if id in y.sleeps {
        var y' := Next(y, e);
        PollKeepsTimers(y, id, waker, index);
        PollKeepsOwn(y, id, waker, index);
        forall other | other in y'.sleeps && other != id
          ensures SleepOk(y', other)
          ensures y'.sleeps[other].handle.Some? ==> y'.sleeps[id].handle != y'.sleeps[other].handle
        {
          PollKeepsOthers(y, id, waker, index, other);
        }
        assert forall other | other in y'.sleeps && other != id :: y'.sleeps[other] == y.sleeps[other];
      }
    case ResetOne(id, at) =>
      if id in y.sleeps {
        ReleaseKeeps(y, id, y.(sleeps := y.sleeps[id := NewSleep(at, y.sleeps[id].zero)]));
      }
    case DropOne(id) =>
      if id in y.sleeps {
        ReleaseKeeps(y, id, y.(sleeps := y.sleeps - {id}));
      }
  }

  lemma TickKeeps(y: System, nanos: nat)
    requires SystemOk(y)
    ensures SystemOk(Next(y, Tick(nanos)))
  {
    var y' := Next(y, Tick(nanos));
    forall id | id in y'.sleeps ensures SleepOk(y', id) {
      assert SleepOk(y, id);
    }
  }

  lemma CreateKeeps(y: System, id: nat, at: nat, zero: ZeroBehavior)
    requires SystemOk(y) && id !in y.sleeps
    ensures SystemOk(Next(y, Create(id, at, zero)))
  {
    var y' := Next(y, Create(id, at, zero));
    forall other | other in y'.sleeps ensures SleepOk(y', other) {
      assert other != id ==> SleepOk(y, other);
    }
  }

  /** Reset and drop cancel the sleep's own handle and disturb no other sleep. */
  lemma ReleaseKeeps(y: System, id: nat, renamed: System)
    requires SystemOk(y) && id in y.sleeps
    requires renamed == y.(sleeps := renamed.sleeps)
    requires renamed.sleeps.Keys <= y.sleeps.Keys
    requires forall other | other in renamed.sleeps && other != id :: renamed.sleeps[other] == y.sleeps[other]
    requires id in renamed.sleeps ==>
      exists at: nat :: renamed.sleeps[id] == NewSleep(at, y.sleeps[id].zero)
    ensures SystemOk(renamed.(timer := Dropped(y.sleeps[id], y.timer), pending := y.pending - {id}))
  {
    hide Inv, OnTime;
    var y' := renamed.(timer := Dropped(y.sleeps[id], y.timer), pending := y.pending - {id});
    if y.sleeps[id].handle.Some? {
      CancelKeepsTimers(y, y.sleeps[id].handle.value);
    }
    forall other | other in y'.sleeps ensures SleepOk(y', other) {
      assert SleepOk(y, other);
    }
  }

  lemma {:induction false} AfterIsOk(events: seq<Event>)
    ensures SystemOk(After(events))
  {
    if events != [] {
      AfterIsOk(events[..|events| - 1]);
      EventKeepsSystem(After(events[..|events| - 1]), events[|events| - 1]);
    }
  }

  // ---------- What the callers asked for ----------

  datatype Wish = Wish(deadline: nat, zero: ZeroBehavior)

  function WishesAfter(wishes: map<nat, Wish>, e: Event): map<nat, Wish> {
    match e
    case Create(id, at, zero) => if id in wishes then wishes else wishes[id := Wish(at, zero)]
    case ResetOne(id, at) => if id in wishes then wishes[id := wishes[id].(deadline := at)] else wishes
    case DropOne(id) => wishes - {id}
    case _ => wishes
  }

  /** The sleeps there are, and for each the deadline last asked for, told from the events alone. */
  function Wishes(events: seq<Event>): map<nat, Wish> {
    if events == [] then map[] else
      WishesAfter(Wishes(events[..|events| - 1]), events[|events| - 1])
  }

  /** The time that has passed. */
  function ClockAt(events: seq<Event>): nat {
    if events == [] then 0
    else ClockAt(events[..|events| - 1]) + match events[|events| - 1] case Tick(nanos) => nanos case _ => 0
  }

  /** When the timer was last spun. */
  function LastSpinAt(events: seq<Event>): nat {
    if events == [] then 0
    else if events[|events| - 1].SpinTimer? then ClockAt(events[..|events| - 1])
    else LastSpinAt(events[..|events| - 1])
  }

  ghost predicate Honours(sleeps: map<nat, SleepState>, wishes: map<nat, Wish>) {
    && sleeps.Keys == wishes.Keys
    && forall id | id in sleeps :: sleeps[id].deadline == wishes[id].deadline && sleeps[id].zero == wishes[id].zero
  }

  lemma PollKeepsWish(s: SleepState, t: TimerState, clock: nat, waker: Waker, index: nat)
    ensures var s' := PollSleep(s, t, clock, waker, index).0; s'.deadline == s.deadline && s'.zero == s.zero
  {}

  lemma StepHonours(y: System, e: Event, wishes: map<nat, Wish>)
    requires Honours(y.sleeps, wishes)
    ensures Honours(Next(y, e).sleeps, WishesAfter(wishes, e))
  {
    if e.PollOne? && e.id in y.sleeps {
      hide PollSleep;
      PollKeepsWish(y.sleeps[e.id], y.timer, y.clock, e.waker, e.index);
    }
  }

  lemma StepKeepsTime(y: System, e: Event)
    ensures Next(y, e).clock == y.clock + match e case Tick(nanos) => nanos case _ => 0
    ensures Next(y, e).timer.instant == if e.SpinTimer? then y.clock else y.timer.instant
  {}

  /** The state keeps to the events: no deadline is lost or made up, and the clock is the time passed. */
  lemma {:induction false} StateHonoursWishes(events: seq<Event>)
    ensures Honours(After(events).sleeps, Wishes(events))
    ensures After(events).clock == ClockAt(events) && After(events).timer.instant == LastSpinAt(events)
  {
    hide Next, Honours;
    if events == [] {
      assert Honours(map[], map[]) by { NoWishes(); }
    } else {
      var n := |events| - 1;
      StateHonoursWishes(events[..n]);
      StepHonours(After(events[..n]), events[n], Wishes(events[..n]));
      StepKeepsTime(After(events[..n]), events[n]);
    }
  }

  lemma NoWishes()
    ensures Honours(map[], map[])
  {}

  // ---------- The theorems ----------

  /**
   * Never early by a millisecond: whatever sequence of ticks, spins, resets,
   * drops and polls of any number of sleeps came before, a sleep reports Ready
   * only once the clock is past the deadline last asked for minus one millisecond.
   */
  lemma SleepIsNeverEarly(events: seq<Event>, id: nat, waker: Waker, index: nat)
    requires id in After(events).sleeps
    requires PollOutcome(After(events), id, waker, index).2.Ready?
    ensures id in Wishes(events) && Wishes(events)[id].deadline < ClockAt(events) + NANOS_PER_MILLI
  {
    AfterIsOk(events);
    StateHonoursWishes(events);
    hide After, Wishes, ClockAt;
    PollKeepsOwn(After(events), id, waker, index);
  }

  /** And a timer's waker is never run a millisecond or more before its deadline, in any run. */
  lemma WakesAreNeverEarly(events: seq<Event>, h: TimerHandle)
    requires h in SpinFires(After(events).timer, After(events).clock)
    ensures h in After(events).due && After(events).due[h] < After(events).clock + NANOS_PER_MILLI
  {
    AfterIsOk(events);
    WakeIsNeverEarly(After(events), h);
  }

  /**
   * No stranded sleeper: after any run, a sleep whose last poll was Pending has
   * a live timer entry carrying the waker of that poll, or that waker has been
   * woken: by the timer for this very handle, or in the course of that poll.
   */
  lemma NoStrandedSleeper(events: seq<Event>, id: nat)
    requires var y := After(events); id in y.sleeps && id in y.pending
    ensures var y := After(events); var s := y.sleeps[id]; var live := y.timer.wheel.live;
      if s.handle.Some? then
        || (s.handle.value in live && live[s.handle.value].waker == y.pending[id])
        || (s.handle.value in y.delivered && y.delivered[s.handle.value] == y.pending[id])
      else id in y.ran && y.pending[id] in y.ran[id]
  {
    AfterIsOk(events);
    assert SleepOk(After(events), id);
  }

  /** A sleep that has been woken completes on its next poll: it is never re-armed in a loop. */
  lemma WokenSleepCompletes(events: seq<Event>, id: nat, waker: Waker, index: nat)
    requires var y := After(events); id in y.sleeps && id in y.pending
    requires var y := After(events); var s := y.sleeps[id];
      s.handle.None? || s.handle.value in y.delivered
    ensures PollOutcome(After(events), id, waker, index).2.Ready?
  {
    var y := After(events);
    AfterIsOk(events);
    assert SleepOk(y, id);
    assert y.sleeps[id].handle.Some? ==> y.sleeps[id].handle.value !in y.timer.wheel.live;
    DelayIsZeroIffNearlyDue(y.timer, y.sleeps[id].deadline);
  }
}
