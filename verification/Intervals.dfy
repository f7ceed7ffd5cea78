/**
 * Periodic ticks with drift compensation: the loops of `Interval::tick` against
 * closed forms, and what whole runs of ticks add up to. Instants and periods are
 * nanoseconds; the clock readings are parameters. A tick says until when it
 * sleeps; the sleep itself only delays the caller.
 */
module Intervals {
  import opened Prelude

  datatype MissedTickBehavior = Skip | CatchUp

  datatype State = State(period: nat, next: Option<nat>)

  /** The stored deadline, or one period from now when there is none. */
  function Base(s: State, now: nat): nat {
    if s.next.Some? then s.next.value else now + s.period
  }

  /** Whole periods from `base` to the first multiple after `now`. */
  function PeriodsPast(base: nat, period: nat, now: nat): nat
    requires period > 0 && base <= now
  {
    (now - base) / period + 1
  }

  /** Where Skip sleeps to; its loop gives up after 2^64 - 1 periods. */
  function SkipTarget(base: nat, period: nat, now: nat): nat {
    if base > now then base
    else if period == 0 then now
    else base + Min(PeriodsPast(base, period, now), U64_MAX) * period
  }

  /** The count CatchUp returns, narrowed to 64 bits as the code does. */
  function Missed(base: nat, period: nat, now: nat): nat
    requires period > 0 && base <= now
  {
    (now - base) / period % (U64_MAX + 1) + 1
  }

  /** The instant a tick sleeps to, if it sleeps, and the number of ticks it reports. */
  datatype Ticked = Ticked(until: Option<nat>, ticks: nat)

  /** One tick: the new state and the answer. `later` is the clock after the call began. */
  function Tick(s: State, mode: MissedTickBehavior, now: nat, later: nat): (State, Ticked) {
    var base := Base(s, now);
    match mode
    case Skip =>
      var target := SkipTarget(base, s.period, now);
      (s.(next := Some(target + s.period)), Ticked(Some(target), 1))
    case CatchUp =>
      if base > now then (s.(next := Some(base + s.period)), Ticked(Some(base), 1))
      else if s.period == 0 then (s.(next := Some(later)), Ticked(None, 1))
      else
        var missed := Missed(base, s.period, now);
        (s.(next := Some(base + missed * s.period + s.period)), Ticked(None, missed))
  }

  class Interval {
    const period: nat
    var next: Option<nat>
    var mode: MissedTickBehavior

    ghost function View(): State
      reads this
    {
      State(period, next)
    }

    constructor (period: nat)
      ensures View() == State(period, None) && mode == Skip
    {
      this.period, next, mode := period, None, Skip;
    }

    method DoTick(now: nat, later: nat) returns (until: Option<nat>, ticks: nat)
      modifies `next
      ensures (View(), Ticked(until, ticks)) == Tick(old(View()), mode, now, later)
      ensures until.Some? ==> next == Some(until.value + period) && ticks == 1
    {
      var base := if next.Some? then next.value else now + period;
      match mode
      case Skip =>
        var target := AdvancePast(base, period, now);
        until, ticks := Some(target), 1;
        next := Some(target + period);
      case CatchUp =>
        if base > now {
          until, ticks := Some(base), 1;
          next := Some(base + period);
        } else if period == 0 {
          until, ticks := None, 1;
          next := Some(later + period);
        } else {
          var missed := (now - base) / period % (U64_MAX + 1) + 1;
          var newNext := base;
          for i := 0 to missed
            invariant newNext == base + i * period
          {
            newNext := newNext + period;
          }
          next := Some(newNext + period);
          until, ticks := None, missed;
        }
    }
  }

  /** The loop of Skip: add periods until the target is in the future. */
  method AdvancePast(base: nat, period: nat, now: nat) returns (target: nat)
    ensures target == SkipTarget(base, period, now)
  {
    target := base;
    if target <= now {
      if period == 0 {
        target := now;
      } else {
        var cnt := 0;
        ghost var past := PeriodsPast(base, period, now);
        while target <= now
          invariant target == base + cnt * period && cnt <= U64_MAX
          invariant cnt <= past && (target <= now ==> cnt < U64_MAX)
          decreases past - cnt
        {
          FurtherPeriod(base, period, now, cnt);
          target := target + period;
          cnt := cnt + 1;
          if cnt == U64_MAX {
            break;
          }
        }
        if cnt < U64_MAX {
          PeriodsPastIsFirst(base, period, now, cnt);
        }
      }
    }
  }

  /** A multiple not after now is short of the first one past it. */
  lemma FurtherPeriod(base: nat, period: nat, now: nat, k: nat)
    requires period > 0 && base <= now && base + k * period <= now
    ensures k + 1 <= PeriodsPast(base, period, now)
  {
    if k > (now - base) / period {
      assert k * period >= ((now - base) / period + 1) * period;
    }
  }

  lemma PeriodsPastIsFirst(base: nat, period: nat, now: nat, k: nat)
    requires period > 0 && base <= now
    ensures base + PeriodsPast(base, period, now) * period > now
    ensures base + k * period > now ==> k >= PeriodsPast(base, period, now)
  {
    var q := (now - base) / period;
    assert now - base < (q + 1) * period;
    if k <= q {
      assert k * period <= q * period;
    }
  }

  /**
   * Skip sleeps to the least instant, among the stored deadline and its later
   * multiples of the period, that is after now: exactly when the number of
   * periods to get there fits the loop counter.
   */
  lemma SkipPicksTheNextInstant(base: nat, period: nat, now: nat)
    requires period > 0
    ensures var target := SkipTarget(base, period, now);
      && (exists k: nat :: target == base + k * period)
      && (forall k: nat :: base + k * period > now ==> target <= base + k * period)
      && (target > now <==> base > now || PeriodsPast(base, period, now) <= U64_MAX)
  {
    var target := SkipTarget(base, period, now);
    if base > now {
      assert target == base + 0 * period;
    } else {
      var n := PeriodsPast(base, period, now);
      var m := Min(n, U64_MAX);
      assert target == base + m * period;
      PeriodsPastIsFirst(base, period, now, m);
      forall k: nat | base + k * period > now
        ensures target <= base + k * period
      {
        PeriodsPastIsFirst(base, period, now, k);
        assert m * period <= k * period;
      }
    }
  }

  /**
   * A call that catches up reports the instants from the stored deadline to now,
   * both included, and stores the second instant after now: exactly when their
   * number fits the counter. It does not sleep.
   */
  lemma CatchUpCountsIff(s: State, now: nat, later: nat)
    requires s.period > 0 && Base(s, now) <= now
    ensures var base, (s', ticked) := Base(s, now), Tick(s, CatchUp, now, later);
      var n := ticked.ticks;
      && n > 0 && ticked.until.None? && s'.next == Some(base + (n + 1) * s.period)
      && base + (n - 1) * s.period <= now
      && (now < base + n * s.period <==> (now - base) / s.period <= U64_MAX)
  {
    var base := Base(s, now);
    MissedBounds(base, s.period, now);
    AddPeriods(Missed(base, s.period, now), 1, s.period);
  }

  lemma MissedBounds(base: nat, period: nat, now: nat)
    requires period > 0 && base <= now
    ensures var n := Missed(base, period, now);
      n > 0 && base + (n - 1) * period <= now && (now < base + n * period <==> (now - base) / period <= U64_MAX)
  {
    var n := Missed(base, period, now);
    MissedIsNarrowed(base, period, now);
    hide Missed;
    QuotientBounds(now - base, period, n - 1);
    QuotientBounds(now - base, period, n);
  }

  lemma MissedIsNarrowed(base: nat, period: nat, now: nat)
    requires period > 0 && base <= now
    ensures var q, n := (now - base) / period, Missed(base, period, now);
      n > 0 && n - 1 <= q && (n == q + 1 <==> q <= U64_MAX)
  {
    Narrowed((now - base) / period);
  }

  lemma Narrowed(q: nat)
    ensures q % (U64_MAX + 1) <= q && (q % (U64_MAX + 1) == q <==> q <= U64_MAX)
  {}

  lemma QuotientBounds(x: nat, period: nat, k: nat)
    requires period > 0
    ensures k * period <= x <==> k <= x / period
  {
    var q := x / period;
    assert q * period <= x < q * period + period;
    if k <= q {
      MulKeepsOrder(k, q, period);
    } else {
      MulKeepsOrder(q + 1, k, period);
      AddPeriods(q, 1, period);
    }
  }

  lemma MulKeepsOrder(a: nat, b: nat, period: nat)
    requires a <= b
    ensures a * period <= b * period
  {}

  /** With a period of zero a tick never waits past the present: it reports one tick, and stays where the clock is. */
  lemma ZeroPeriod(s: State, mode: MissedTickBehavior, now: nat, later: nat)
    requires s.period == 0 && s.next.Some? && s.next.value <= now
    ensures var (s', ticked) := Tick(s, mode, now, later);
      && ticked.ticks == 1 && ticked.until == (if mode.Skip? then Some(now) else None)
      && s'.next == Some(if mode.Skip? then now else later)
  {}

  // ---------- Runs ----------

  /** A call of tick: the mode then set, the clock when it starts and the clock later on. */
  datatype Call = Call(mode: MissedTickBehavior, now: nat, later: nat)

  /** State, ticks reported so far, and calls that found the deadline missed in CatchUp mode. */
  datatype Tally = Tally(s: State, ticks: nat, catchUps: nat)

  predicate IsCatchUp(s: State, c: Call) {
    c.mode.CatchUp? && Base(s, c.now) <= c.now
  }

  function After(period: nat, calls: seq<Call>): Tally {
    if calls == [] then Tally(State(period, None), 0, 0) else
      var t := After(period, calls[..|calls| - 1]);
      var c := calls[|calls| - 1];
      var (s', ticked) := Tick(t.s, c.mode, c.now, c.later);
      Tally(s', t.ticks + ticked.ticks, if IsCatchUp(t.s, c) then t.catchUps + 1 else t.catchUps)
  }

  ghost predicate OnCadence(first: nat, period: nat, deadline: nat) {
    exists m: nat :: deadline == first + m * period
  }

  lemma CadenceStep(first: nat, period: nat, base: nat, k: nat)
    requires OnCadence(first, period, base)
    ensures OnCadence(first, period, base + k * period)
  {
    var m: nat :| base == first + m * period;
    assert base + k * period == first + (m + k) * period;
  }

  lemma TickKeepsCadence(s: State, c: Call, first: nat)
    requires s.period > 0 && OnCadence(first, s.period, Base(s, c.now))
    ensures var s' := Tick(s, c.mode, c.now, c.later).0;
      s'.period == s.period && s'.next.Some? && OnCadence(first, s.period, s'.next.value)
  {
    var base := Base(s, c.now);
    if c.mode.Skip? {
      SkipPicksTheNextInstant(base, s.period, c.now);
      var k: nat :| SkipTarget(base, s.period, c.now) == base + k * s.period;
      CadenceStep(first, s.period, base, k);
      CadenceStep(first, s.period, base + k * s.period, 1);
    } else if base > c.now {
      CadenceStep(first, s.period, base, 1);
    } else {
      var missed := Missed(base, s.period, c.now);
      CadenceStep(first, s.period, base, missed);
      CadenceStep(first, s.period, base + missed * s.period, 1);
    }
  }

  /**
   * Steady cadence: over every run of ticks, in either mode and with the mode
   * switched at will, each deadline is the first one plus a whole number of periods.
   */
  lemma {:induction false} CadenceIsKept(period: nat, calls: seq<Call>)
    requires period > 0 && calls != []
    ensures var t := After(period, calls);
      t.s.period == period && t.s.next.Some? && OnCadence(calls[0].now + period, period, t.s.next.value)
  {
    var prefix, first := calls[..|calls| - 1], calls[0].now + period;
    var t := After(period, prefix);
    if prefix == [] {
      assert first == first + 0 * period;
    } else {
      CadenceIsKept(period, prefix);
    }
    TickKeepsCadence(t.s, calls[|calls| - 1], first);
  }

  ghost predicate IsLeastAfter(first: nat, period: nat, t: nat, bound: nat) {
    && OnCadence(first, period, t) && t > bound
    && forall m: nat :: first + m * period > bound ==> t <= first + m * period
  }

  /** The instant the last call sleeps to. */
  function LastUntil(period: nat, calls: seq<Call>): Option<nat>
    requires calls != []
  {
    var n := |calls| - 1;
    Tick(After(period, calls[..n]).s, calls[n].mode, calls[n].now, calls[n].later).1.until
  }

  lemma InstantsAfter(first: nat, period: nat, previous: nat, m: nat) returns (k: nat)
    requires period > 0 && OnCadence(first, period, previous) && first + m * period > previous
    ensures first + m * period == previous + period + k * period
  {
    var p: nat :| previous == first + p * period;
    MulReflectsOrder(p, m, period);
    k := m - p - 1;
    AddPeriods(p, 1 + k, period);
    AddPeriods(1, k, period);
  }

  lemma MulReflectsOrder(a: nat, b: nat, period: nat)
    requires a * period < b * period
    ensures a < b
  {
    if b <= a {
      MulKeepsOrder(b, a, period);
    }
  }

  /** The periods from the previous target to the next fit the loop counter. */
  predicate FitsCounter(previous: nat, period: nat, now: nat)
    requires period > 0
  {
    previous + period > now || PeriodsPast(previous + period, period, now) <= U64_MAX
  }

  function Later(a: nat, b: nat): nat {
    if a > b then a else b
  }

  /**
   * Skip, call by call: the first call sleeps for a period. Every later one
   * sleeps to the least instant of the cadence that is after both now and the
   * instant the call before slept to, exactly when the periods skipped fit the
   * loop counter; and it reports one tick.
   */
  lemma {:induction false} SkipSleepsToTheNextInstant(period: nat, calls: seq<Call>)
    requires period > 0 && calls != []
    requires forall i | 0 <= i < |calls| :: calls[i].mode.Skip?
    ensures var n := |calls| - 1; var first := calls[0].now + period;
      && LastUntil(period, calls).Some? && After(period, calls).ticks == |calls|
      && After(period, calls).s == State(period, Some(LastUntil(period, calls).value + period))
      && OnCadence(first, period, LastUntil(period, calls).value)
      && (n == 0 ==> LastUntil(period, calls) == Some(first))
    ensures var n := |calls| - 1; n > 0 ==> LastUntil(period, calls[..n]).Some?
    ensures var n := |calls| - 1; var first := calls[0].now + period;
      n > 0 ==>
        var previous, now := LastUntil(period, calls[..n]).value, calls[n].now;
        FitsCounter(previous, period, now) <==>
          IsLeastAfter(first, period, LastUntil(period, calls).value, Later(previous, now))
  {
    var n, first := |calls| - 1, calls[0].now + period;
    if n == 0 {
      assert calls[..0] == [];
      assert first == first + 0 * period;
    } else {
      var prefix, now := calls[..n], calls[n].now;
      SkipSleepsToTheNextInstant(period, prefix);
      SkipStep(period, first, LastUntil(period, prefix).value, now);
    }
  }

  lemma SkipStep(period: nat, first: nat, previous: nat, now: nat)
    requires period > 0 && OnCadence(first, period, previous)
    ensures var target := SkipTarget(previous + period, period, now);
      && OnCadence(first, period, target)
      && (IsLeastAfter(first, period, target, Later(previous, now)) <==> FitsCounter(previous, period, now))
  {
    var base := previous + period;
    var target := SkipTarget(base, period, now);
    SkipPicksTheNextInstant(base, period, now);
    var j: nat :| target == base + j * period;
    CadenceStep(first, period, previous, 1);
    CadenceStep(first, period, base, j);
    assert target >= base > previous;
    if target > now {
      forall m: nat | first + m * period > Later(previous, now)
        ensures target <= first + m * period
      {
        var k := InstantsAfter(first, period, previous, m);
      }
    }
  }

  /**
   * Exact accounting in CatchUp mode: the deadline has advanced by one period
   * for every tick reported and by one more for every call that caught up.
   */
  lemma {:induction false} CatchUpAccounting(period: nat, calls: seq<Call>)
    requires period > 0 && calls != []
    requires forall i | 0 <= i < |calls| :: calls[i].mode.CatchUp?
    ensures var t := After(period, calls);
      && t.s.period == period
      && t.s.next == Some(calls[0].now + period + (t.ticks + t.catchUps) * period)
  {
    var n := |calls| - 1;
    var prefix, c := calls[..n], calls[n];
    var t := After(period, prefix);
    if prefix != [] {
      CatchUpAccounting(period, prefix);
    }
    var base := Base(t.s, c.now);
    assert base == calls[0].now + period + (t.ticks + t.catchUps) * period;
    var t' := After(period, calls);
    if base > c.now {
      AddPeriods(t.ticks + t.catchUps, 1, period);
      assert t'.ticks == t.ticks + 1 && t'.catchUps == t.catchUps;
    } else {
      var missed := Missed(base, period, c.now);
      AddPeriods(t.ticks + t.catchUps, missed + 1, period);
      AddPeriods(missed, 1, period);
      assert t'.ticks == t.ticks + missed && t'.catchUps == t.catchUps + 1;
    }
  }

  lemma AddPeriods(a: nat, b: nat, period: nat)
    ensures (a + b) * period == a * period + b * period
  {}

  /** Each call comes before the deadline that a steady cadence from the first call gives it. */
  predicate CallsArePunctual(period: nat, calls: seq<Call>)
    requires calls != []
  {
    forall i | 0 <= i < |calls| :: calls[i].now < calls[0].now + (i + 1) * period
  }

  /** Calls are punctual exactly when none of them has to catch up, and then each reports one tick. */
  lemma {:induction false} PunctualIff(period: nat, calls: seq<Call>)
    requires period > 0 && calls != []
    requires forall i | 0 <= i < |calls| :: calls[i].mode.CatchUp?
    ensures CallsArePunctual(period, calls) <==> After(period, calls).catchUps == 0
    ensures CallsArePunctual(period, calls) ==> After(period, calls).ticks == |calls|
  {
    var n := |calls| - 1;
    var prefix, c := calls[..n], calls[n];
    if prefix != [] {
      PunctualIff(period, prefix);
      CatchUpAccounting(period, prefix);
      assert CallsArePunctual(period, calls) <==>
        CallsArePunctual(period, prefix) && c.now < calls[0].now + (n + 1) * period by {
        assert forall i | 0 <= i < n :: prefix[i] == calls[i];
      }
      AddPeriods(n, 1, period);
    }
  }

  /**
   * "Every elapsed period is reported as one tick" is false for CatchUp. Over a
   * run it holds exactly when the calls are punctual, which is known from the
   * times of the calls alone; then there is one tick to a call.
   */
  lemma CatchUpReportsAllPeriodsIff(period: nat, calls: seq<Call>)
    requires period > 0 && calls != []
    requires forall i | 0 <= i < |calls| :: calls[i].mode.CatchUp?
    ensures var t := After(period, calls);
      && (t.s.next == Some(calls[0].now + period + t.ticks * period) <==> CallsArePunctual(period, calls))
      && (CallsArePunctual(period, calls) ==> t.ticks == |calls|)
  {
    hide CallsArePunctual;
    CatchUpAccounting(period, calls);
    PunctualIff(period, calls);
    var t := After(period, calls);
    AddPeriods(t.ticks, t.catchUps, period);
    assert t.catchUps > 0 ==> t.catchUps * period > 0;
  }

  /** With period 10 and calls at 0 and 25, ticks 10 and 20 are reported and the next deadline is 40: tick 30 is lost. */
  lemma CatchUpDropsATick()
    ensures var t := After(10, [Call(CatchUp, 0, 0), Call(CatchUp, 25, 25)]);
      t == Tally(State(10, Some(40)), 2, 1)
  {
    var calls := [Call(CatchUp, 0, 0), Call(CatchUp, 25, 25)];
    assert calls[..1] == [Call(CatchUp, 0, 0)] && calls[..1][..0] == [];
    assert After(10, calls[..1]) == Tally(State(10, Some(20)), 1, 0);
  }
}
