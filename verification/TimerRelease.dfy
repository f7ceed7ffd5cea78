/**
 * Which scheduled timers outlive the sleep that scheduled them, and what becomes
 * of them. Over the runs of TimerSpec.
 */
module TimerRelease {
  import opened Prelude
  import opened WheelSpec
  import opened TimerSpec

  ghost predicate Holds(y: System, id: nat, h: TimerHandle) {
    id in y.sleeps && y.sleeps[id].handle == Some(h)
  }

  ghost predicate HeldBySome(y: System, h: TimerHandle) {
    exists id :: Holds(y, id, h)
  }

  /** A poll completes by the clock while its timer is still scheduled: the handle is dropped, not cancelled. */
  ghost predicate Abandons(y: System, e: Event, h: TimerHandle) {
    && e.PollOne? && Holds(y, e.id, h)
    && y.clock >= y.sleeps[e.id].deadline && h in y.timer.wheel.live
  }

  /**
   * "A completed sleep leaves no timer behind" is false: with a deadline of 10
   * milliseconds, a second poll at 20 milliseconds before any spin completes the
   * sleep, and its timer is still scheduled with nobody left to cancel it.
   */
  lemma CompletedSleepLeavesTimer()
    ensures var ms := NANOS_PER_MILLI; var h := TimerHandle(0, 1);
      var events := [Create(0, 10 * ms, Immediate), PollOne(0, 7, 0), Tick(20 * ms), PollOne(0, 7, 1)];
      var y := After(events);
      && y.sleeps.Keys == {0} && y.sleeps[0].fired && y.sleeps[0].handle.None?
      && h in y.timer.wheel.live && y.timer.wheel.live[h].waker == 7
  {
    var ms := NANOS_PER_MILLI;
    var a, b, c, d := Create(0, 10 * ms, Immediate), PollOne(0, 7, 0), Tick(20 * ms), PollOne(0, 7, 1);
    AfterFour(a, b, c, d);
    var y2 := Next(Next(Start, a), b);
    assert Delay(Start.timer, 10 * ms) == 10;
    assert y2.sleeps[0].handle == Some(TimerHandle(0, 1)) && TimerHandle(0, 1) in y2.timer.wheel.live;
  }

  lemma AfterSnoc(events: seq<Event>, e: Event)
    ensures After(events + [e]) == Next(After(events), e)
  {
    assert (events + [e])[..|events|] == events;
  }

  lemma AfterFour(a: Event, b: Event, c: Event, d: Event)
    ensures After([a, b, c, d]) == Next(Next(Next(Next(Start, a), b), c), d)
  {
    hide Next;
    AfterSnoc([], a);
    AfterSnoc([a], b);
    AfterSnoc([a, b], c);
    AfterSnoc([a, b, c], d);
    assert [] + [a] == [a] && [a] + [b] == [a, b] && [a, b] + [c] == [a, b, c] && [a, b, c] + [d] == [a, b, c, d];
  }

  /** Exactly when a poll that completes leaves its timer scheduled, read off before the call. */
  lemma ReadyLeavesTimerIff(events: seq<Event>, id: nat, waker: Waker, index: nat, h: TimerHandle)
    requires Holds(After(events), id, h) && PollOutcome(After(events), id, waker, index).2.Ready?
    ensures var y := After(events);
      h in PollOutcome(y, id, waker, index).1.wheel.live <==> h in y.timer.wheel.live && y.clock >= y.sleeps[id].deadline
  {
    AfterIsOk(events);
    assert SleepOk(After(events), id);
  }

  /** A sleep keeps hold of its timer as long as that is scheduled, unless it abandons it. */
  lemma HoldsOn(y: System, e: Event, id: nat, h: TimerHandle)
    requires SystemOk(y) && Holds(y, id, h) && h in Next(y, e).timer.wheel.live && !Abandons(y, e, h)
    ensures Holds(Next(y, e), id, h)
  {
    hide TimersOk, Place, Touched, Millis;
    assert SleepOk(y, id);
  }

  /** A sleep that comes to hold a timer has just scheduled it. */
  lemma HoldsNew(y: System, e: Event, id: nat, h: TimerHandle)
    requires SystemOk(y) && Holds(Next(y, e), id, h)
    ensures Holds(y, id, h) || h.generation > y.timer.wheel.issued
    ensures !Abandons(y, e, h)
  {
    hide TimersOk, Place, Touched, Millis;
    if e.PollOne? && e.id in y.sleeps {
      assert SleepOk(y, e.id);
    }
  }

  /** And a newly scheduled timer is held. */
  lemma NewIsHeld(y: System, e: Event, h: TimerHandle)
    requires h in Next(y, e).timer.wheel.live && h !in y.timer.wheel.live
    ensures h.generation > y.timer.wheel.issued && HeldBySome(Next(y, e), h)
  {
    hide Place, Touched, Millis;
    assert Holds(Next(y, e), e.id, h);
  }

  lemma StepAbandonsIff(y: System, e: Event, h: TimerHandle)
    requires SystemOk(y) && h in Next(y, e).timer.wheel.live
    ensures !HeldBySome(Next(y, e), h) <==> Abandons(y, e, h) || (h in y.timer.wheel.live && !HeldBySome(y, h))
  {
    hide Next, SystemOk;
    if HeldBySome(Next(y, e), h) {
      var id :| Holds(Next(y, e), id, h);
      HoldsNew(y, e, id, h);
      LiveIsIssued(y, h);
    } else if h in y.timer.wheel.live {
      if HeldBySome(y, h) && !Abandons(y, e, h) {
        var id :| Holds(y, id, h);
        HoldsOn(y, e, id, h);
      }
    } else {
      NewIsHeld(y, e, h);
    }
  }

  lemma LiveIsIssued(y: System, h: TimerHandle)
    requires SystemOk(y)
    ensures h in y.timer.wheel.live ==> h.generation <= y.timer.wheel.issued
  {}

  ghost predicate AbandonedIn(events: seq<Event>, h: TimerHandle) {
    exists k: nat :: k < |events| && Abandons(After(events[..k]), events[k], h)
  }

  lemma AbandonedSnoc(events: seq<Event>, h: TimerHandle)
    requires events != []
    ensures var n := |events| - 1;
      AbandonedIn(events, h) <==> AbandonedIn(events[..n], h) || Abandons(After(events[..n]), events[n], h)
  {
    hide After, Abandons;
    var n := |events| - 1;
    assert forall k: nat | k <= n :: events[..n][..k] == events[..k];
    if AbandonedIn(events[..n], h) {
      var k: nat :| k < n && Abandons(After(events[..n][..k]), events[..n][k], h);
      assert Abandons(After(events[..k]), events[k], h);
    }
    if AbandonedIn(events, h) {
      var k: nat :| k < |events| && Abandons(After(events[..k]), events[k], h);
      assert k < n ==> Abandons(After(events[..n][..k]), events[..n][k], h);
    }
  }

  lemma IssuedGrowsBy(y: System, e: Event)
    ensures y.timer.wheel.issued <= Next(y, e).timer.wheel.issued
  {}

  lemma {:induction false} AbandonedWasIssued(events: seq<Event>, h: TimerHandle)
    requires AbandonedIn(events, h)
    ensures h.generation <= After(events).timer.wheel.issued
  {
    hide Next, SystemOk;
    var n := |events| - 1;
    AbandonedSnoc(events, h);
    IssuedGrowsBy(After(events[..n]), events[n]);
    if AbandonedIn(events[..n], h) {
      AbandonedWasIssued(events[..n], h);
    } else {
      AfterIsOk(events[..n]);
      LiveIsIssued(After(events[..n]), h);
    }
  }

  /**
   * Which timers nobody can cancel any more: after any run, a scheduled timer is
   * held by no sleep if and only if some earlier poll completed by the clock
   * while holding it. Resets, drops and re-registrations never leave one behind.
   */
  lemma {:induction false} TimerIsLeftBehindIff(events: seq<Event>, h: TimerHandle)
    requires h in After(events).timer.wheel.live
    ensures !HeldBySome(After(events), h) <==> AbandonedIn(events, h)
  {
    hide Next, SystemOk, HeldBySome, Abandons, AbandonedIn;
    if events != [] {
      var n := |events| - 1;
      var y, e := After(events[..n]), events[n];
      AfterIsOk(events[..n]);
      StepAbandonsIff(y, e, h);
      AbandonedSnoc(events, h);
      if h in y.timer.wheel.live {
        TimerIsLeftBehindIff(events[..n], h);
      } else {
        NewIsHeld(y, e, h);
        if AbandonedIn(events[..n], h) {
          AbandonedWasIssued(events[..n], h);
        }
      }
    }
  }

  /** Left alone, a timer stays as it is until it fires and its waker runs. */
  ghost predicate Orphaned(y: System, h: TimerHandle, e: Scheduled) {
    if h in y.timer.wheel.live then
      && !HeldBySome(y, h)
      && y.timer.wheel.live[h].expiry == e.expiry && y.timer.wheel.live[h].waker == e.waker
    else h in y.delivered && y.delivered[h] == e.waker
  }

  lemma StepKeepsOrphan(y: System, e: Event, h: TimerHandle, was: Scheduled)
    requires SystemOk(y) && Orphaned(y, h, was)
    ensures Orphaned(Next(y, e), h, was)
  {
    hide Next, SystemOk;
    var y' := Next(y, e);
    if h in y.timer.wheel.live {
      if h in y'.timer.wheel.live {
        StepAbandonsIff(y, e, h);
        assert !Abandons(y, e, h);
        ScheduledStays(y, e, h);
      } else {
        OrphanLeavesByFiring(y, e, h);
      }
    } else {
      EventKeepsSystem(y, e);
      DeliveredStays(y, e, h);
    }
  }

  /** No event changes when a timer expires or whom it wakes. */
  lemma ScheduledStays(y: System, e: Event, h: TimerHandle)
    requires SystemOk(y) && h in y.timer.wheel.live && h in Next(y, e).timer.wheel.live
    ensures var a, b := y.timer.wheel.live[h], Next(y, e).timer.wheel.live[h]; a.expiry == b.expiry && a.waker == b.waker
  {
    hide TimersOk, SleepOk, OnTime, Place, Fires, Touched, Millis;
    LiveIsIssued(y, h);
  }

  lemma DeliveredStays(y: System, e: Event, h: TimerHandle)
    requires SystemOk(Next(y, e)) && h in y.delivered && h !in y.timer.wheel.live
    ensures h in Next(y, e).delivered && Next(y, e).delivered[h] == y.delivered[h] && h !in Next(y, e).timer.wheel.live
  {
    hide PollSleep, Reset, Dropped, Spin, SpinFires, SleepOk;
    assert h in Next(y, e).delivered;
  }

  lemma OrphanLeavesByFiring(y: System, e: Event, h: TimerHandle)
    requires SystemOk(y) && h in y.timer.wheel.live && !HeldBySome(y, h) && h !in Next(y, e).timer.wheel.live
    ensures e.SpinTimer? && h in Next(y, e).delivered && Next(y, e).delivered[h] == y.timer.wheel.live[h].waker
  {
    hide TimersOk, SleepOk, Place, Touched, Millis;
    assert forall id | id in y.sleeps :: !Holds(y, id, h);
  }

  lemma {:induction false} OrphanStays(events: seq<Event>, more: seq<Event>, h: TimerHandle)
    requires h in After(events).timer.wheel.live && !HeldBySome(After(events), h)
    ensures Orphaned(After(events + more), h, After(events).timer.wheel.live[h])
  {
    hide Next, SystemOk, HeldBySome;
    if more == [] {
      assert events + more == events;
    } else {
      var n := |more| - 1;
      OrphanStays(events, more[..n], h);
      AfterIsOk(events + more[..n]);
      AfterSnoc(events + more[..n], more[n]);
      assert events + more[..n] + [more[n]] == events + more;
      StepKeepsOrphan(After(events + more[..n]), more[n], h, After(events).timer.wheel.live[h]);
    }
  }

  /**
   * A timer left behind is not lost: it runs its waker, a spurious wake, and is
   * gone by the time the wheel is 62 ticks past its expiry.
   */
  lemma LeftBehindTimerFires(events: seq<Event>, more: seq<Event>, h: TimerHandle)
    requires h in After(events).timer.wheel.live && AbandonedIn(events, h)
    requires After(events + more).timer.wheel.now >= After(events).timer.wheel.live[h].expiry + 62
    ensures var y := After(events + more);
      h !in y.timer.wheel.live && h in y.delivered && y.delivered[h] == After(events).timer.wheel.live[h].waker
  {
    hide After, AbandonedIn;
    TimerIsLeftBehindIff(events, h);
    OrphanStays(events, more, h);
    AfterIsOk(events + more);
    var wheel := After(events + more).timer.wheel;
    if h in wheel.live {
      LatenessFromPlacement(wheel.live[h], wheel.now);
      assert false;
    }
  }
}
