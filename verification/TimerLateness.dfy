/**
 * How late a timer can be by the clock, not just in wheel ticks. Every spin drops
 * the fraction of a millisecond, so the answer depends on the number of spins.
 * Over the runs of TimerSpec.
 */
module TimerLateness {
  import opened Prelude
  import opened WheelSpec
  import opened TimerSpec
  import opened TimerRelease

  // ---------- Spins in quick succession ----------

  function Sum(steps: seq<nat>): nat {
    if steps == [] then 0 else Sum(steps[..|steps| - 1]) + steps[|steps| - 1]
  }

  /** The loop turns: some time passes, then the timer is spun. */
  function Beats(steps: seq<nat>): seq<Event> {
    if steps == [] then []
    else Beats(steps[..|steps| - 1]) + [Tick(steps[|steps| - 1]), SpinTimer]
  }

  predicate AllBelowMilli(steps: seq<nat>) {
    forall i | 0 <= i < |steps| :: steps[i] < NANOS_PER_MILLI
  }

  lemma BeatMovesWheelIff(y: System, step: nat)
    requires y.timer.instant == y.clock
    ensures var y' := Next(Next(y, Tick(step)), SpinTimer);
      && y'.clock == y.clock + step && y'.timer.instant == y'.clock && y'.timer.wheel.now >= y.timer.wheel.now
      && (y'.timer.wheel.now == y.timer.wheel.now <==> y.timer.wheel.live == map[] || step < NANOS_PER_MILLI)
      && (step < NANOS_PER_MILLI ==> y'.timer.wheel == y.timer.wheel)
  {
    hide Fires, Touched, Place;
  }

  /**
   * "The wheel keeps up with the clock" is false. With a timer scheduled, any
   * number of turns of any lengths leaves the wheel where it was, although the
   * clock has advanced by all of them, if and only if each is below a millisecond.
   */
  lemma {:induction false} WheelStandsStillIff(past: seq<Event>, steps: seq<nat>)
    requires var y := After(past); y.timer.instant == y.clock && y.timer.wheel.live != map[]
    ensures var y, y' := After(past), After(past + Beats(steps));
      && y'.clock == y.clock + Sum(steps) && y'.timer.instant == y'.clock
      && y'.timer.wheel.now >= y.timer.wheel.now
      && (y'.timer.wheel.now == y.timer.wheel.now <==> AllBelowMilli(steps))
      && (AllBelowMilli(steps) ==> y'.timer.wheel == y.timer.wheel)
  {
    hide After, Next;
    if steps == [] {
      assert past + Beats(steps) == past;
    } else {
      var n := |steps| - 1;
      var prefix, before := steps[..n], past + Beats(steps[..n]);
      WheelStandsStillIff(past, prefix);
      AfterSnoc(before, Tick(steps[n]));
      AfterSnoc(before + [Tick(steps[n])], SpinTimer);
      assert before + [Tick(steps[n])] + [SpinTimer] == past + Beats(steps);
      BeatMovesWheelIff(After(before), steps[n]);
      assert AllBelowMilli(steps) <==> AllBelowMilli(prefix) && steps[n] < NANOS_PER_MILLI by {
        assert forall i | 0 <= i < n :: prefix[i] == steps[i];
      }
    }
  }

  /** So a sleep of 10 milliseconds can stay scheduled through any number of spins 999999 nanoseconds apart. */
  lemma FastSpinsFreeze(n: nat)
    ensures var past := [Create(0, 10 * NANOS_PER_MILLI, Immediate), PollOne(0, 7, 0)];
      var y := After(past + Beats(Repeat(999_999, n)));
      y.clock == n * 999_999 && y.timer.wheel.now == 0 && TimerHandle(0, 1) in y.timer.wheel.live
  {
    var past := [Create(0, 10 * NANOS_PER_MILLI, Immediate), PollOne(0, 7, 0)];
    OneSleepScheduled();
    RepeatIsConstant(n);
    hide After, Next;
    WheelStandsStillIff(past, Repeat(999_999, n));
  }

  lemma OneSleepScheduled()
    ensures var y := After([Create(0, 10 * NANOS_PER_MILLI, Immediate), PollOne(0, 7, 0)]);
      && y.clock == 0 && y.timer.instant == 0 && y.timer.wheel.now == 0 && TimerHandle(0, 1) in y.timer.wheel.live
  {
    var a, b := Create(0, 10 * NANOS_PER_MILLI, Immediate), PollOne(0, 7, 0);
    AfterSnoc([], a);
    AfterSnoc([a], b);
    assert [] + [a] == [a] && [a] + [b] == [a, b];
    assert Delay(Start.timer, 10 * NANOS_PER_MILLI) == 10;
  }

  lemma {:induction false} RepeatIsConstant(n: nat)
    ensures |Repeat<nat>(999_999, n)| == n && Sum(Repeat(999_999, n)) == n * 999_999
    ensures forall i | 0 <= i < n :: Repeat<nat>(999_999, n)[i] == 999_999
  {
    if n > 0 {
      RepeatIsConstant(n - 1);
      var v, w := Repeat<nat>(999_999, n), Repeat<nat>(999_999, n - 1);
      assert v[..n - 1] == w;
    }
  }

  // ---------- A bound in spins ----------

  function Spins(events: seq<Event>): nat {
    if events == [] then 0
    else Spins(events[..|events| - 1]) + if events[|events| - 1].SpinTimer? then 1 else 0
  }

  /** The instant at which the wheel, as it stands, would reach the timer's expiry. */
  function Target(t: TimerState, h: TimerHandle): int
    requires h in t.wheel.live
  {
    t.instant + (t.wheel.live[h].expiry - t.wheel.now) * NANOS_PER_MILLI
  }

  /** A spin puts a timer off by less than a millisecond. */
  lemma SpinPutsOff(t: TimerState, clock: nat, h: TimerHandle)
    requires t.instant <= clock && h in t.wheel.live && h in Spin(t, clock).wheel.live
    ensures Target(t, h) <= Target(Spin(t, clock), h) < Target(t, h) + NANOS_PER_MILLI
  {
    hide Fires, Touched, Place;
    assert t.wheel.live != map[];
    var elapsed := clock - t.instant;
    assert Millis(elapsed) * NANOS_PER_MILLI <= elapsed < (Millis(elapsed) + 1) * NANOS_PER_MILLI;
  }

  /** And nothing else moves it. */
  lemma StepPutsOff(y: System, e: Event, h: TimerHandle)
    requires SystemOk(y) && h in y.timer.wheel.live && h in Next(y, e).timer.wheel.live
    ensures var before, after := Target(y.timer, h), Target(Next(y, e).timer, h);
      if e.SpinTimer? then before <= after < before + NANOS_PER_MILLI else after == before
  {
    if e.SpinTimer? {
      SpinPutsOff(y.timer, y.clock, h);
    } else {
      ScheduledStays(y, e, h);
      ClockOfWheelStays(y, e);
    }
  }

  lemma ClockOfWheelStays(y: System, e: Event)
    requires !e.SpinTimer?
    ensures Next(y, e).timer.instant == y.timer.instant && Next(y, e).timer.wheel.now == y.timer.wheel.now
  {}

  lemma {:induction false} IssuedGrowsOver(past: seq<Event>, more: seq<Event>)
    ensures After(past).timer.wheel.issued <= After(past + more).timer.wheel.issued
  {
    hide After, Next;
    if more == [] {
      assert past + more == past;
    } else {
      var n := |more| - 1;
      IssuedGrowsOver(past, more[..n]);
      AfterSnoc(past + more[..n], more[n]);
      assert past + more[..n] + [more[n]] == past + more;
      IssuedGrowsBy(After(past + more[..n]), more[n]);
    }
  }

  /** A timer scheduled at both ends of a run was scheduled throughout. */
  lemma LiveBefore(past: seq<Event>, more: seq<Event>, h: TimerHandle)
    requires more != [] && h in After(past).timer.wheel.live && h in After(past + more).timer.wheel.live
    ensures var n := |more| - 1; var y := After(past + more[..n]);
      h in y.timer.wheel.live && After(past + more) == Next(y, more[n])
  {
    hide After, Next, SystemOk;
    var n := |more| - 1;
    var y := After(past + more[..n]);
    AfterSnoc(past + more[..n], more[n]);
    assert past + more[..n] + [more[n]] == past + more;
    AfterIsOk(past);
    LiveIsIssued(After(past), h);
    IssuedGrowsOver(past, more[..n]);
    if h !in y.timer.wheel.live {
      NewIsHeld(y, more[n], h);
    }
  }

  /** The accumulated delay of a timer: under a millisecond for every spin. */
  lemma {:induction false} PutOffBySpins(past: seq<Event>, more: seq<Event>, h: TimerHandle)
    requires h in After(past).timer.wheel.live && h in After(past + more).timer.wheel.live
    ensures var before, after := Target(After(past).timer, h), Target(After(past + more).timer, h);
      before <= after <= before + Spins(more) * NANOS_PER_MILLI
  {
    hide After, Next, SystemOk, Target;
    if more == [] {
      assert past + more == past;
    } else {
      var n := |more| - 1;
      LiveBefore(past, more, h);
      PutOffBySpins(past, more[..n], h);
      AfterIsOk(past + more[..n]);
      StepPutsOff(After(past + more[..n]), more[n], h);
    }
  }

  /**
   * Lateness by the clock: if a timer scheduled for a deadline is still scheduled
   * after a run with k spins, the last of them was at most 61 + k milliseconds
   * after the deadline that had been asked for. By WheelStandsStillIff no bound without k holds.
   */
  lemma RealLateness(past: seq<Event>, id: nat, waker: Waker, index: nat, more: seq<Event>)
    requires id in After(past).sleeps
    requires var p := PollOutcome(After(past), id, waker, index); p.2.Pending? && p.0.handle.Some?
    requires var h := PollOutcome(After(past), id, waker, index).0.handle.value;
      h in After(past + [PollOne(id, waker, index)] + more).timer.wheel.live
    ensures id in Wishes(past)
    ensures LastSpinAt(past + [PollOne(id, waker, index)] + more)
      <= Wishes(past)[id].deadline + (61 + Spins(more)) * NANOS_PER_MILLI
  {
    hide After, Next, SystemOk, PollSleep, Wishes, LastSpinAt, ClockAt;
    StateHonoursWishes(past);
    StateHonoursWishes(past + [PollOne(id, waker, index)] + more);
    var y, e := After(past), PollOne(id, waker, index);
    var h := PollOutcome(y, id, waker, index).0.handle.value;
    AfterSnoc(past, e);
    PollAims(y, id, waker, index);
    PutOffBySpins(past + [e], more, h);
    AfterIsOk(past + [e] + more);
    TargetIsNear(After(past + [e] + more), h);
  }

  /** A new timer aims no later than the deadline. */
  lemma PollAims(y: System, id: nat, waker: Waker, index: nat)
    requires id in y.sleeps
    requires var p := PollOutcome(y, id, waker, index); p.2.Pending? && p.0.handle.Some?
    ensures var h := PollOutcome(y, id, waker, index).0.handle.value; var y' := Next(y, PollOne(id, waker, index));
      h in y'.timer.wheel.live && Target(y'.timer, h) <= y.sleeps[id].deadline
  {
    hide Place;
  }

  lemma TargetIsNear(y: System, h: TimerHandle)
    requires SystemOk(y) && h in y.timer.wheel.live
    ensures y.timer.instant <= Target(y.timer, h) + 61 * NANOS_PER_MILLI
  {
    LatenessFromPlacement(y.timer.wheel.live[h], y.timer.wheel.now);
  }
}
