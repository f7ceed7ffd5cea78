/**
 * The timer driver and the Sleep future as the runtime executes them. Each
 * method is proved to compute the function of TimerSpec of the same name.
 * Clock readings are parameters.
 */
module Timers {
  import opened Prelude
  import opened WheelSpec
  import opened Wheel
  import opened TimerSpec

  class Timer {
    const wheel: TimingWheel
    var instant: nat

    ghost function View(): TimerState
      reads this, wheel
    {
      TimerState(wheel.State(), instant)
    }

    ghost predicate Valid()
      reads this, wheel
    {
      wheel.Valid()
    }

    constructor (clock: nat)
      ensures Valid() && fresh(wheel) && View() == TimerState(Init, clock)
    {
      wheel := new TimingWheel();
      instant := clock;
    }

    /** Schedules the waker, or wakes it at once when less than a millisecond is left. */
    method Submit(deadline: nat, waker: Waker) returns (handle: Option<TimerHandle>, woken: seq<Waker>, ghost index: nat)
      requires Valid()
      modifies this, wheel
      ensures Valid()
      ensures (View(), handle) == TimerSpec.Submit(old(View()), index, deadline, waker)
      ensures woken == if handle.None? then [waker] else []
    {
      hide WellPlaced, Tied, HeapInv, IsNearest, Inv;
      var since := if deadline > instant then deadline - instant else 0;
      var millis := since / NANOS_PER_MILLI;
      if millis < 1 {
        handle, woken, index := None, [waker], 0;
        return;
      }
      var h := wheel.Insert(waker, wheel.currentTick + millis);
      handle, woken, index := Some(h), [], h.index;
    }

    method Cancel(handle: TimerHandle)
      requires Valid()
      modifies this, wheel
      ensures Valid() && View() == TimerSpec.Cancel(old(View()), handle)
    {
      wheel.Remove(handle);
    }

    /**
     * Advances by the elapsed whole milliseconds and wakes what fired. The
     * deadline for the next wait is the distance to the nearest expiry, at
     * least one millisecond, and absent when nothing is scheduled.
     */
    method SpinAndGetDeadline(clock: nat) returns (deadline: Option<nat>, wokenUp: bool, woken: seq<Waker>)
      requires Valid()
      modifies this, wheel
      ensures Valid() && View() == Spin(old(View()), clock)
      ensures wokenUp <==> SpinFires(old(View()), clock) != {}
      ensures multiset(woken) == WakersOf(old(wheel.live), SpinFires(old(View()), clock))
      ensures deadline.None? ==> wheel.live == map[] || IsNearest(wheel.live, Some(0))
      ensures deadline.Some? ==> exists t: nat ::
        && IsNearest(wheel.live, Some(t))
        && deadline.value == (if t > wheel.currentTick + 1 then t - wheel.currentTick else 1)
    {
      hide WellPlaced, Tied, HeapInv, Inv;
      var empty := wheel.IsEmpty();
      if empty {
        instant := clock;
        assert SpinFires(old(View()), clock) == {};
        return None, false, [];
      }
      ghost var before := View();
      var elapsed := if clock > instant then clock - instant else 0;
      instant := clock;
      ghost var fired: seq<TimerHandle>;
      woken, fired := wheel.Advance(elapsed / NANOS_PER_MILLI);
      wokenUp := |woken| > 0;
      ghost var set0 := SpinFires(before, clock);
      assert wokenUp ==> fired[0] in set0;
      FiredWakers(before.wheel.live, fired, set0, woken);
      var nearest := wheel.NearestWakeup();
      if nearest.None? {
        deadline := None;
      } else {
        deadline := Some(if nearest.value > wheel.currentTick + 1 then nearest.value - wheel.currentTick else 1);
        assert IsNearest(wheel.live, Some(nearest.value));
      }
    }
  }

  /** The wakers of a set of timers, with multiplicity. */
  ghost function WakersOf(live: map<TimerHandle, Scheduled>, hs: set<TimerHandle>): multiset<Waker>
    requires hs <= live.Keys
  {
    if hs == {} then multiset{} else
      var h :| h in hs;
      multiset{live[h].waker} + WakersOf(live, hs - {h})
  }

  lemma {:induction false} WakersOfAny(live: map<TimerHandle, Scheduled>, hs: set<TimerHandle>, h: TimerHandle)
    requires hs <= live.Keys && h in hs
    ensures WakersOf(live, hs) == multiset{live[h].waker} + WakersOf(live, hs - {h})
  {
    var g :| g in hs && WakersOf(live, hs) == multiset{live[g].waker} + WakersOf(live, hs - {g});
    if g != h {
      WakersOfAny(live, hs - {g}, h);
      WakersOfAny(live, hs - {h}, g);
      assert hs - {g} - {h} == hs - {h} - {g};
    }
  }

  lemma {:induction false} FiredWakers(live: map<TimerHandle, Scheduled>, fired: seq<TimerHandle>, hs: set<TimerHandle>,
                                       wakers: seq<Waker>)
    requires NoDup(fired) && |wakers| == |fired| && hs <= live.Keys
    requires forall h :: h in fired <==> h in hs
    requires forall i | 0 <= i < |fired| :: wakers[i] == live[fired[i]].waker
    ensures multiset(wakers) == WakersOf(live, hs)
  {
    if fired == [] {
      assert hs == {};
    } else {
      var n := |fired| - 1;
      var h := fired[n];
      FrontOf(fired);
      FiredWakers(live, fired[..n], hs - {h}, wakers[..n]);
      WakersOfAny(live, hs, h);
      assert wakers == wakers[..n] + [wakers[n]];
    }
  }

  class Sleep {
    var deadline: nat
    var handle: Option<TimerHandle>
    var fired: bool
    var yieldScheduled: bool
    const zeroBehavior: ZeroBehavior

    ghost function View(): SleepState
      reads this
    {
      SleepState(deadline, handle, fired, yieldScheduled, zeroBehavior)
    }

    constructor (deadline: nat, zeroBehavior: ZeroBehavior)
      ensures View() == NewSleep(deadline, zeroBehavior)
    {
      this.deadline, handle, fired, yieldScheduled := deadline, None, false, false;
      this.zeroBehavior := zeroBehavior;
    }

    method Reset(timer: Timer, newDeadline: nat)
      requires timer.Valid()
      modifies this, timer, timer.wheel
      ensures timer.Valid()
      ensures (View(), timer.View()) == TimerSpec.Reset(old(View()), old(timer.View()), newDeadline)
      ensures deadline == newDeadline && handle.None? && !fired && !yieldScheduled
    {
      deadline, fired, yieldScheduled := newDeadline, false, false;
      if handle.Some? {
        var h := handle.value;
        handle := None;
        timer.Cancel(h);
      }
    }

    method Drop(timer: Timer)
      requires timer.Valid()
      modifies this, timer, timer.wheel
      ensures timer.Valid() && handle.None?
      ensures timer.View() == Dropped(old(View()), old(timer.View()))
    {
      if handle.Some? {
        var h := handle.value;
        handle := None;
        timer.Cancel(h);
      }
    }

    method HandleImmediateWakeup(waker: Waker) returns (poll: Poll, woken: seq<Waker>)
      modifies this
      ensures (View(), poll, woken) == ImmediateWakeup(old(View()), waker)
      ensures poll.Ready? <==> zeroBehavior.Immediate? || old(yieldScheduled)
      ensures woken == if poll.Pending? then [waker] else []
    {
      match zeroBehavior
      case Immediate =>
        fired := true;
        return Ready, [];
      case Yield =>
        var scheduled := yieldScheduled;
        yieldScheduled := true;
        if !scheduled {
          return Pending, [waker];
        }
        fired := true;
        return Ready, [];
    }

    method Poll(timer: Timer, clock: nat, waker: Waker) returns (poll: Poll, woken: seq<Waker>, ghost index: nat)
      requires timer.Valid()
      modifies this, timer, timer.wheel
      ensures timer.Valid()
      ensures (View(), timer.View(), poll, woken) == PollSleep(old(View()), old(timer.View()), clock, waker, index)
    {
      hide Wheel.WellPlaced, Tied, HeapInv, IsNearest, Inv, TimerSpec.Submit, TimerSpec.Cancel;
      woken, index := [], 0;
      if fired {
        return Ready, woken, index;
      }
      var submitted: Option<TimerHandle>;
      if handle.None? {
        submitted, woken, index := timer.Submit(deadline, waker);
        if submitted.Some? {
          handle := submitted;
          return Pending, woken, index;
        }
        var again: seq<Waker>;
        poll, again := HandleImmediateWakeup(waker);
        woken := woken + again;
        return poll, woken, index;
      }
      if clock >= deadline {
        fired, handle := true, None;
        return Ready, woken, index;
      }
      var h := handle.value;
      handle := None;
      timer.Cancel(h);
      submitted, woken, index := timer.Submit(deadline, waker);
      if submitted.Some? {
        handle := submitted;
        return Pending, woken, index;
      }
      fired := true;
      return Ready, woken, index;
    }
  }
}
