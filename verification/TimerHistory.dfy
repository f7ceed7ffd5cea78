/**
 * What the sleeps of a run owe to their pollers, told from the events: who is
 * waiting, who has been woken, when a sleep is Ready, and what a sleep answers
 * that is due at once. Over the runs of TimerSpec.
 */
module TimerHistory {
  import opened Prelude
  import opened WheelSpec
  import opened TimerSpec
  import opened TimerRelease

  /** The waker of the last poll of each sleep whose last event was a poll that answered Pending. */
  function Waiters(events: seq<Event>): map<nat, Waker> {
    if events == [] then map[] else
      var n := |events| - 1; var y, waiters := After(events[..n]), Waiters(events[..n]);
      match events[n]
      case PollOne(id, waker, index) =>
        if id !in y.sleeps then waiters
        else if PollOutcome(y, id, waker, index).2.Pending? then waiters[id := waker] else waiters - {id}
      case Create(id, _, _) => if id in y.sleeps then waiters else waiters - {id}
      case ResetOne(id, _) => if id in y.sleeps then waiters - {id} else waiters
      case DropOne(id) => if id in y.sleeps then waiters - {id} else waiters
      case _ => waiters
  }

  lemma {:induction false} PendingAreWaiters(events: seq<Event>)
    ensures After(events).pending == Waiters(events)
  {
    hide PollSleep, Spin, SpinFires, Reset, Dropped;
    if events != [] {
      PendingAreWaiters(events[..|events| - 1]);
    }
  }

  /** The timer has run this waker for this handle at some spin of the run. */
  ghost predicate WokenBySpin(events: seq<Event>, h: TimerHandle, waker: Waker) {
    exists k | 0 <= k < |events| :: SpinWakes(events, k, h, waker)
  }

  ghost predicate SpinWakes(events: seq<Event>, k: nat, h: TimerHandle, waker: Waker)
    requires k < |events|
  {
    var y := After(events[..k]);
    events[k].SpinTimer? && h in SpinFires(y.timer, y.clock) && h in y.timer.wheel.live
    && y.timer.wheel.live[h].waker == waker
  }

  lemma SpinWakesEarlier(events: seq<Event>, h: TimerHandle, waker: Waker)
    requires events != [] && WokenBySpin(events[..|events| - 1], h, waker)
    ensures WokenBySpin(events, h, waker)
  {
    hide After;
    var n := |events| - 1;
    var k :| 0 <= k < n && SpinWakes(events[..n], k, h, waker);
    assert events[..n][..k] == events[..k];
    assert SpinWakes(events, k, h, waker);
  }

  lemma StepDelivers(y: System, e: Event, h: TimerHandle)
    requires h in Next(y, e).delivered
    ensures var w := Next(y, e).delivered[h];
      || (h in y.delivered && y.delivered[h] == w)
      || (e.SpinTimer? && h in SpinFires(y.timer, y.clock) && h in y.timer.wheel.live && y.timer.wheel.live[h].waker == w)
  {
    hide PollSleep, Spin, SpinFires, Reset, Dropped;
  }

  lemma {:induction false} DeliveredMeansWoken(events: seq<Event>, h: TimerHandle)
    requires h in After(events).delivered
    ensures WokenBySpin(events, h, After(events).delivered[h])
  {
    hide Next, WokenBySpin;
    if events != [] {
      var n := |events| - 1;
      StepDelivers(After(events[..n]), events[n], h);
      if h in After(events[..n]).delivered && After(events[..n]).delivered[h] == After(events).delivered[h] {
        DeliveredMeansWoken(events[..n], h);
        SpinWakesEarlier(events, h, After(events).delivered[h]);
      } else {
        assert SpinWakes(events, n, h, After(events).delivered[h]);
        SpinWakesNow(events, n, h, After(events).delivered[h]);
      }
    }
  }

  lemma SpinWakesNow(events: seq<Event>, k: nat, h: TimerHandle, waker: Waker)
    requires k < |events| && SpinWakes(events, k, h, waker)
    ensures WokenBySpin(events, h, waker)
  {}

  /**
   * Nobody waits in vain: a sleep whose last poll answered Pending has a timer
   * scheduled with the waker of that poll, or some spin of the run has run that
   * waker for it, or that poll ran it on the spot.
   */
  lemma WaiterIsServed(events: seq<Event>, id: nat)
    requires id in Waiters(events)
    ensures var y := After(events); var waker := Waiters(events)[id];
      id in y.sleeps &&
      match y.sleeps[id].handle
      case Some(h) =>
        (h in y.timer.wheel.live && y.timer.wheel.live[h].waker == waker) || WokenBySpin(events, h, waker)
      case None => id in y.ran && waker in y.ran[id]
  {
    PendingAreWaiters(events);
    WaitersExist(events);
    hide After, Waiters;
    NoStrandedSleeper(events, id);
    var y := After(events);
    if y.sleeps[id].handle.Some? && y.sleeps[id].handle.value in y.delivered {
      DeliveredMeansWoken(events, y.sleeps[id].handle.value);
    }
  }

  lemma StepKeepsWaiting(y: System, e: Event)
    requires y.pending.Keys <= y.sleeps.Keys
    ensures Next(y, e).pending.Keys <= Next(y, e).sleeps.Keys
  {
    hide PollSleep, Spin, SpinFires, Reset, Dropped;
  }

  lemma {:induction false} WaitersExist(events: seq<Event>)
    ensures After(events).pending.Keys <= After(events).sleeps.Keys
  {
    hide Next;
    if events != [] {
      WaitersExist(events[..|events| - 1]);
      StepKeepsWaiting(After(events[..|events| - 1]), events[|events| - 1]);
    }
  }

  /** A sleep that has been waiting is Ready as soon as the clock has reached the deadline asked for. */
  lemma WaiterIsReadyWhenDue(events: seq<Event>, id: nat, waker: Waker, index: nat)
    requires id in Waiters(events) && id in Wishes(events) && ClockAt(events) >= Wishes(events)[id].deadline
    ensures id in After(events).sleeps && PollOutcome(After(events), id, waker, index).2.Ready?
  {
    PendingAreWaiters(events);
    StateHonoursWishes(events);
    AfterIsOk(events);
    hide After, Waiters, Wishes, ClockAt;
    var y := After(events);
    assert SleepOk(y, id);
    DelayIsZeroIffNearlyDue(y.timer, y.sleeps[id].deadline);
  }

  /**
   * A first poll: with a millisecond or more to go since the last spin it
   * schedules a timer and wakes nobody. With less, an Immediate sleep is Ready;
   * a Yield sleep answers Pending, has run its waker, and is Ready at the next poll.
   */
  lemma FirstPoll(events: seq<Event>, id: nat, at: nat, zero: ZeroBehavior, waker: Waker, index: nat,
                  again: Waker, index': nat)
    requires id !in Wishes(events)
    ensures var created := events + [Create(id, at, zero)];
      var y, polled := After(created), After(created + [PollOne(id, waker, index)]);
      id in y.sleeps && id in polled.sleeps &&
      var (s, t, poll, woken) := PollOutcome(y, id, waker, index);
      if at >= LastSpinAt(events) + NANOS_PER_MILLI then
        poll.Pending? && woken == [] && s.handle.Some? && s.handle.value in t.wheel.live
      else if zero.Immediate? then poll.Ready? && woken == [waker]
      else poll.Pending? && woken == [waker, waker] && PollOutcome(polled, id, again, index').2.Ready?
  {
    var created := events + [Create(id, at, zero)];
    StateHonoursWishes(events);
    AfterSnoc(events, Create(id, at, zero));
    AfterSnoc(created, PollOne(id, waker, index));
    hide After, LastSpinAt, ClockAt, Wishes;
    var y := After(events);
    DelayIsZeroIffNearlyDue(y.timer, at);
  }

  /** And a reset sleep is a new one. */
  lemma ResetIsCreation(y: System, id: nat, at: nat)
    requires id in y.sleeps
    ensures Next(y, ResetOne(id, at)).sleeps[id] == NewSleep(at, y.sleeps[id].zero)
  {}
}
