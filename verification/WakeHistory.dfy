/**
 * What a run of WakeProtocol owes to its callers, told from the list of events:
 * which tasks have been spawned, woken and finished, whether the root has been
 * woken, and that every such wake is followed by a poll.
 */
module WakeHistory {
  import opened Prelude
  import opened ReadyQueues
  import opened WakeProtocol
  import opened WakeProgress

  // ---------- Told from the events ----------

  /** Futures, wakers and spawned closures of the scheduler's own thread run here. */
  predicate CodeRuns(pc: SchedulerPc) {
    match pc
    case Outside | PollRoot | PollTask(_) => true
    case SpinTimers | SpinBeforeWait(_) | CollectIo | Flush => true
    case _ => false
  }

  predicate FuturesRun(pc: SchedulerPc) {
    match pc case Outside | PollRoot | PollTask(_) => true case _ => false
  }

  function SpawnedIn(batchSize: nat, events: seq<Event>): set<TaskId> {
    if events == [] then {} else
      var n := |events| - 1;
      SpawnedIn(batchSize, events[..n]) +
      if events[n].Spawn? && FuturesRun(After(batchSize, events[..n]).pc) then {events[n].task} else {}
  }

  function FinishedIn(batchSize: nat, events: seq<Event>): set<TaskId> {
    if events == [] then {} else
      var n := |events| - 1;
      var pc := After(batchSize, events[..n]).pc;
      FinishedIn(batchSize, events[..n]) + if events[n] == Polled(true) && pc.PollTask? then {pc.task} else {}
  }

  /** The event wakes the task: from an idle thread, or from code on the scheduler's thread. Spawning wakes, too. */
  predicate WakesTask(s: State, spawned: set<TaskId>, e: Event, x: TaskId) {
    match e
    case ForeignWake(t, y) => y == x && x in spawned && t !in s.wakers
    case LocalWake(y) => y == x && x in spawned && CodeRuns(s.pc)
    case Spawn(y) => y == x && x !in spawned && FuturesRun(s.pc)
    case _ => false
  }

  predicate WakesRoot(s: State, e: Event) {
    match e
    case ForeignWakeRoot(t) => t !in s.wakers
    case LocalWakeRoot => CodeRuns(s.pc)
    case Enter => s.pc.Outside?
    case _ => false
  }

  predicate PollsRoot(s: State, e: Event) {
    !s.pc.PollRoot? && Next(s, e).pc.PollRoot?
  }

  /** Some event has woken the task, and it has not been taken up for a poll since. */
  predicate WokenSince(batchSize: nat, events: seq<Event>, x: TaskId) {
    events != [] &&
      var n := |events| - 1; var s := After(batchSize, events[..n]);
      || WakesTask(s, SpawnedIn(batchSize, events[..n]), events[n], x)
      || (WokenSince(batchSize, events[..n], x) && !Reaches(s, events[n], x))
  }

  /** Some event has woken the root, and no poll of it has begun since. */
  predicate RootWokenSince(batchSize: nat, events: seq<Event>) {
    events != [] &&
      var n := |events| - 1; var s := After(batchSize, events[..n]);
      WakesRoot(s, events[n]) || (RootWokenSince(batchSize, events[..n]) && !PollsRoot(s, events[n]))
  }

  // ---------- The state tells the same ----------

  lemma StepTellsTasks(s: State, e: Event, x: TaskId)
    ensures var s' := Next(s, e);
      && s'.tasks.spawned == s.tasks.spawned + (if e.Spawn? && FuturesRun(s.pc) then {e.task} else {})
      && s'.tasks.finished == s.tasks.finished + (if e == Polled(true) && s.pc.PollTask? then {s.pc.task} else {})
      && (x in s'.tasks.woken <==> WakesTask(s, s.tasks.spawned, e, x) || (x in s.tasks.woken && !Reaches(s, e, x)))
  {}

  /** Only the head of the loop starts a poll of the root. */
  lemma PollsRootAt(s: State, e: Event)
    ensures PollsRoot(s, e) <==> s.pc.TakeReady? && e.Advance? && s.sig.rootReady
  {
    if e.Advance? {
      hide DrainStep, MarkStep, BatchStep;
      SchedulerPolls(s);
    }
  }

  lemma SchedulerPolls(s: State)
    ensures !s.pc.PollRoot? ==> (Scheduler(s).pc.PollRoot? <==> s.pc.TakeReady? && s.sig.rootReady)
    ensures Scheduler(s).sig.rootWoken == (s.sig.rootWoken && !(s.pc.TakeReady? && s.sig.rootReady))
  {}

  lemma StepTellsRoot(s: State, e: Event)
    ensures Next(s, e).sig.rootWoken <==> WakesRoot(s, e) || (s.sig.rootWoken && !PollsRoot(s, e))
  {
    hide PollsRoot, Scheduler;
    PollsRootAt(s, e);
    SchedulerPolls(s);
  }

  lemma {:induction false} StateTellsTasks(batchSize: nat, events: seq<Event>, x: TaskId)
    ensures var s := After(batchSize, events);
      && s.tasks.spawned == SpawnedIn(batchSize, events) && s.tasks.finished == FinishedIn(batchSize, events)
      && (x in s.tasks.woken <==> WokenSince(batchSize, events, x))
  {
    hide Next, Reaches;
    if events != [] {
      var n := |events| - 1;
      StateTellsTasks(batchSize, events[..n], x);
      StepTellsTasks(After(batchSize, events[..n]), events[n], x);
    }
  }

  lemma {:induction false} StateTellsRoot(batchSize: nat, events: seq<Event>)
    ensures After(batchSize, events).sig.rootWoken <==> RootWokenSince(batchSize, events)
  {
    hide Next, PollsRoot;
    if events != [] {
      var n := |events| - 1;
      StateTellsRoot(batchSize, events[..n]);
      StepTellsRoot(After(batchSize, events[..n]), events[n]);
    }
  }

  // ---------- No wake is forgotten ----------

  /**
   * A task that some event has woken, and that has neither finished nor been
   * taken up since, is in a ready queue, in the batch, just popped, or in the
   * hands of the thread that is waking it; a root woken and not polled since is ready.
   */
  lemma NoWakeIsForgotten(batchSize: nat, events: seq<Event>, x: TaskId)
    ensures var s := After(batchSize, events);
      && (WokenSince(batchSize, events, x) && x !in FinishedIn(batchSize, events) ==>
            Waits(s, x) || Held(Holders(s.wakers), x))
      && (RootWokenSince(batchSize, events) ==> s.sig.rootReady)
  {
    hide After;
    StateTellsTasks(batchSize, events, x);
    StateTellsRoot(batchSize, events);
    WakesAreCovered(batchSize, events, x);
  }

  /** So the scheduler blocks for good only if every woken task has finished or been polled, and so has the root. */
  lemma BlockedMeansServed(batchSize: nat, events: seq<Event>, x: TaskId)
    requires var s := After(batchSize, events); s.pc.Waiting? && !s.sig.token && s.wakers == map[]
    ensures WokenSince(batchSize, events, x) ==> x in FinishedIn(batchSize, events)
    ensures !RootWokenSince(batchSize, events)
  {
    hide After, FinishedIn, WokenSince, RootWokenSince;
    BlockedMeansIdle(batchSize, events);
    StateTellsTasks(batchSize, events, x);
    NoWakeIsForgotten(batchSize, events, x);
  }

  // ---------- Every wake is followed by a poll ----------

  /** This step starts a poll of the task. */
  predicate PollsTask(s: State, e: Event, x: TaskId) {
    !s.pc.PollTask? && Next(s, e).pc == PollTask(x)
  }

  ghost predicate PolledOrFinished(batchSize: nat, past: seq<Event>, events: seq<Event>, x: TaskId) {
    exists i: nat :: i < |events| && PolledOrFinishedAt(batchSize, past + events[..i], events[i], x)
  }

  ghost predicate PolledOrFinishedAt(batchSize: nat, before: seq<Event>, e: Event, x: TaskId) {
    PollsTask(After(batchSize, before), e, x) || x in FinishedIn(batchSize, before)
  }

  lemma {:induction false} RunIsAfter(batchSize: nat, past: seq<Event>, events: seq<Event>)
    ensures Run(After(batchSize, past), events) == After(batchSize, past + events)
  {
    if events == [] {
      assert past + events == past;
    } else {
      hide Next;
      var n := |events| - 1;
      RunIsAfter(batchSize, past, events[..n]);
      assert (past + events)[..|past| + n] == past + events[..n];
    }
  }

  /**
   * Every wake is followed by a poll. A task that some event has woken, that has
   * not finished and is not still in its waker's hands, is polled, or has
   * finished, once the drains completed times B - 8 exceed the tasks that were
   * ready, the remote pushes since, and two drains' shares.
   */
  lemma EveryWakeIsPolled(batchSize: nat, past: seq<Event>, events: seq<Event>, x: TaskId)
    requires batchSize > NEXT_TASK_INLINE_CAP
    requires WokenSince(batchSize, past, x) && x !in FinishedIn(batchSize, past)
    requires var s := After(batchSize, past); var share := batchSize - NEXT_TASK_INLINE_CAP;
      && !Held(Holders(s.wakers), x)
      && Drains(s, events) * share > |s.q.remote| + |s.q.local| + Pushes(s, events) + 2 * share
    ensures PolledOrFinished(batchSize, past, events, x)
  {
    hide After, Drains, Pushes, Next, Held;
    var s := After(batchSize, past);
    StateTellsTasks(batchSize, past, x);
    WokenTaskIsPolled(batchSize, past, events, x);
    var i: nat :| i < |events| && Reaches(Run(s, events[..i]), events[i], x);
    RunIsAfter(batchSize, past, events[..i]);
    StateTellsTasks(batchSize, past + events[..i], x);
    assert PolledOrFinishedAt(batchSize, past + events[..i], events[i], x);
  }

  /** With the root ready, the head of the loop polls it. */
  lemma ReadyRootIsTaken(s: State)
    requires s.pc.TakeReady? && s.sig.rootReady
    ensures PollsRoot(s, Advance)
  {}

  /** The loop is left by a poll of the root that is done, and by nothing else. */
  lemma LoopEndsIff(s: State, e: Event)
    requires !s.pc.Outside?
    ensures Next(s, e).pc.Outside? <==> s.pc.PollRoot? && e == Polled(true)
  {}

  /** Drains that may still complete before the head of the loop is reached. */
  function DrainsBefore(pc: SchedulerPc): nat {
    if pc.SpinTimers? || pc.Drain? || pc.Mark? || pc.PollRoot? then 1 else 0
  }

  lemma StepKeepsRootReady(s: State, e: Event)
    requires s.sig.rootReady
    ensures PollsRoot(s, e) || (Next(s, e).sig.rootReady &&
      DrainsBefore(Next(s, e).pc) + (if EndsDrain(s, e) then 1 else 0) <= DrainsBefore(s.pc))
  {
    PollsRootAt(s, e);
    hide PollsRoot;
    if e.Advance? {
      QueueStepsKeepSignals(s);
    } else {
      hide Scheduler;
    }
  }

  ghost predicate RootPolledIn(s: State, events: seq<Event>) {
    exists i: nat :: i < |events| && PollsRoot(Run(s, events[..i]), events[i])
  }

  lemma {:induction false} RootWaitsForOneDrain(s: State, events: seq<Event>)
    requires s.sig.rootReady
    ensures RootPolledIn(s, events) || (Run(s, events).sig.rootReady &&
      DrainsBefore(Run(s, events).pc) + Drains(s, events) <= DrainsBefore(s.pc))
  {
    if events != [] {
      hide Next, PollsRoot, EndsDrain, DrainsBefore;
      var n := |events| - 1;
      RootWaitsForOneDrain(s, events[..n]);
      if RootPolledIn(s, events[..n]) {
        var i: nat :| i < n && PollsRoot(Run(s, events[..n][..i]), events[..n][i]);
        assert events[..n][..i] == events[..i];
        assert PollsRoot(Run(s, events[..i]), events[i]);
      } else {
        StepKeepsRootReady(Run(s, events[..n]), events[n]);
        assert PollsRoot(Run(s, events[..n]), events[n]) ==> RootPolledIn(s, events);
      }
    }
  }

  /** A root that some event has woken is polled before a second drain completes, in every run. */
  lemma EveryRootWakeIsPolled(batchSize: nat, past: seq<Event>, events: seq<Event>)
    requires RootWokenSince(batchSize, past) && Drains(After(batchSize, past), events) >= 2
    ensures RootPolledIn(After(batchSize, past), events)
  {
    hide After, RootPolledIn, RootWokenSince, Drains, Run;
    NoWakeIsForgotten(batchSize, past, 0);
    RootWaitsForOneDrain(After(batchSize, past), events);
  }

  // ---------- How many steps a drain takes ----------

  /** The scheduler gets on: it takes a step of its own, or the call or poll it is in returns. */
  predicate MovesOn(pc: SchedulerPc, e: Event) {
    match pc
    case Outside => false
    case PollRoot | PollTask(_) => e.Polled?
    case SpinTimers | SpinBeforeWait(_) | Waiting | CollectIo | Flush => e.CallReturns?
    case _ => e.Advance?
  }

  function Moves(s: State, events: seq<Event>): nat {
    if events == [] then 0 else
      var n := |events| - 1;
      Moves(s, events[..n]) + if MovesOn(Run(s, events[..n]).pc, events[n]) then 1 else 0
  }

  /** Steps to go, at most, until a drain completes: around the loop from the point after one. */
  function Rank(s: State): nat {
    var drain, batch := 2 * s.batchSize, 2 * |s.batch|;
    match s.pc
    case Outside => 0
    case Drain(phase, budget) => 2 * budget + PhaseRank(phase)
    case Mark(phase, budget, _) => (if budget == 0 then 2 else 2 * budget) + PhaseRank(phase) - 1
    case SpinTimers => drain + 4
    case PollRoot => drain + 5
    case TakeReady => drain + 6
    case Flush | StopPending => drain + 7
    case RunBatch => drain + 8 + batch
    case PollTask(_) => drain + 9 + batch
    case StopWaiting => drain + 8
    case CollectIo => drain + 9
    case Waiting => drain + 10
    case SpinBeforeWait(_) => drain + 11
    case RecheckQueues => drain + 12
    case RecheckRoot => drain + 13
    case SetWaiting => drain + 14
    case ClearPending => drain + 15
    case CheckRoot => drain + 16
    case AfterDrain => drain + 17 + batch
  }

  function PhaseRank(phase: Phase): nat {
    match phase case Inline => 3 case Remote => 2 case Local => 1
  }

  /** The batch and what a drain may still add to it fit the batch size. */
  predicate BatchOk(s: State) {
    && (InDrain(s.pc) ==> |s.batch| + s.pc.budget <= s.batchSize)
    && (s.pc.Mark? ==> s.pc.budget > 0)
    && |s.batch| <= s.batchSize
  }

  lemma NextKeepsBatch(s: State, e: Event)
    requires WakesOk(s) && BatchOk(s)
    ensures BatchOk(Next(s, e)) && Next(s, e).batchSize == s.batchSize
  {}

  lemma SchedulerLowersRank(s: State)
    requires BatchOk(s)
    ensures Rank(Scheduler(s)) + (if MovesOn(s.pc, Advance) then 1 else 0)
      <= Rank(s) + if s.pc.Drain? && Scheduler(s).pc.AfterDrain? then 4 * s.batchSize + 17 else 0
  {}

  lemma ReturnLowersRank(s: State, done: bool, consume: bool)
    ensures !PollReturns(s, done).pc.Outside? ==>
      Rank(PollReturns(s, done)) + (if MovesOn(s.pc, Polled(done)) then 1 else 0) <= Rank(s)
    ensures Rank(Returned(s, consume)) + (if MovesOn(s.pc, CallReturns(consume)) then 1 else 0) <= Rank(s)
  {}

  lemma WakersKeepRank(s: State, e: Event)
    requires !e.Advance? && !e.Polled? && !e.CallReturns? && !s.pc.Outside?
    ensures Rank(Next(s, e)) == Rank(s) && !MovesOn(s.pc, e) && !EndsDrain(s, e)
  {
    WakersKeepPlace(s, e);
    hide Next;
  }

  lemma WakersKeepPlace(s: State, e: Event)
    requires !e.Advance? && !e.Polled? && !e.CallReturns? && !s.pc.Outside?
    ensures var s' := Next(s, e);
      s'.batch == s.batch && s'.batchSize == s.batchSize
      && (s'.pc == s.pc || (s.pc.SpinBeforeWait? && s'.pc.SpinBeforeWait?))
  {
    hide Scheduler, Returned, PollReturns;
  }

  lemma StepLowersRank(s: State, e: Event)
    requires BatchOk(s) && !s.pc.Outside? && !Next(s, e).pc.Outside?
    ensures Rank(Next(s, e)) + (if MovesOn(s.pc, e) then 1 else 0)
      <= Rank(s) + if EndsDrain(s, e) then 4 * s.batchSize + 17 else 0
  {
    hide Rank, MovesOn, Scheduler, Returned, PollReturns, WakeFromAfar, WakeRootFromAfar, Foreign, WakeLocally, SpawnTask;
    match e
    case Advance => SchedulerLowersRank(s);
    case Polled(done) => ReturnLowersRank(s, done, true);
    case CallReturns(consume) => ReturnLowersRank(s, false, consume);
    case _ => WakersKeepRank(s, e);
  }

  lemma RankIsBounded(s: State)
    requires BatchOk(s)
    ensures Rank(s) <= 4 * s.batchSize + 17
  {}

  /** The scheduler stays inside the loop throughout. */
  ghost predicate StaysInside(s: State, events: seq<Event>) {
    forall i | 0 <= i <= |events| :: !Run(s, events[..i]).pc.Outside?
  }

  lemma StaysInsideEarlier(s: State, events: seq<Event>)
    requires events != [] && StaysInside(s, events)
    ensures StaysInside(s, events[..|events| - 1])
    ensures !Run(s, events).pc.Outside? && !Run(s, events[..|events| - 1]).pc.Outside?
  {
    hide Run;
    var n := |events| - 1;
    assert events[..n + 1] == events;
    forall i | 0 <= i <= n ensures !Run(s, events[..n][..i]).pc.Outside? {
      assert events[..n][..i] == events[..i];
    }
  }

  lemma {:induction false} MovesLowerRank(s: State, events: seq<Event>)
    requires Inv(s) && BatchOk(s) && StaysInside(s, events)
    ensures var s' := Run(s, events);
      && Inv(s') && BatchOk(s') && s'.batchSize == s.batchSize
      && Moves(s, events) + Rank(s') <= Rank(s) + Drains(s, events) * (4 * s.batchSize + 17)
  {
    hide Inv, BatchOk, Next, Rank, MovesOn, EndsDrain, StaysInside;
    if events != [] {
      var n := |events| - 1;
      var before, turn := Run(s, events[..n]), 4 * s.batchSize + 17;
      StaysInsideEarlier(s, events);
      MovesLowerRank(s, events[..n]);
      NextKeepsInvAndBatch(before, events[n]);
      StepLowersRank(before, events[n]);
      assert (Drains(s, events[..n]) + 1) * turn == Drains(s, events[..n]) * turn + turn;
    }
  }

  lemma NextKeepsInvAndBatch(s: State, e: Event)
    requires Inv(s) && BatchOk(s)
    ensures Inv(Next(s, e)) && BatchOk(Next(s, e)) && Next(s, e).batchSize == s.batchSize
  {
    hide QueuesOk, WakesOk, HandshakeOk, BatchOk, Next;
    NextKeepsQueues(s, e);
    NextKeepsWakes(s, e);
    NextKeepsHandshake(s, e);
    NextKeepsBatch(s, e);
  }

  lemma {:induction false} AfterBatchIsOk(batchSize: nat, events: seq<Event>)
    ensures Inv(After(batchSize, events)) && BatchOk(After(batchSize, events)) && After(batchSize, events).batchSize == batchSize
  {
    AfterIsOk(batchSize, events);
    if events != [] {
      hide Inv, BatchOk, Next;
      AfterBatchIsOk(batchSize, events[..|events| - 1]);
      NextKeepsInvAndBatch(After(batchSize, events[..|events| - 1]), events[|events| - 1]);
    }
  }

  /**
   * The loop keeps turning: while it is not left, a drain completes in every
   * 4 B + 17 of its own steps, whatever the other threads do in between. A call
   * or a poll that does not return takes no step.
   */
  lemma DrainsComeRegularly(batchSize: nat, past: seq<Event>, events: seq<Event>)
    requires StaysInside(After(batchSize, past), events)
    ensures Moves(After(batchSize, past), events) <= (Drains(After(batchSize, past), events) + 1) * (4 * batchSize + 17)
  {
    hide After, Run, Moves, Drains, Rank, Inv, BatchOk, StaysInside;
    var s, turn := After(batchSize, past), 4 * batchSize + 17;
    AfterBatchIsOk(batchSize, past);
    MovesLowerRank(s, events);
    RankIsBounded(s);
    assert (Drains(s, events) + 1) * turn == Drains(s, events) * turn + turn;
  }

  predicate Idle(s: State) {
    !s.sig.rootReady && s.q == Queues([], [], []) && s.batch == []
  }

  /** Where an idle scheduler goes next. */
  function IdlePath(pc: SchedulerPc): SchedulerPc {
    match pc
    case TakeReady => SpinTimers
    case Drain(Inline, budget) => Drain(Remote, budget)
    case Drain(Remote, budget) => Drain(Local, budget)
    case Drain(Local, _) => AfterDrain
    case AfterDrain => CheckRoot
    case CheckRoot => ClearPending
    case ClearPending => SetWaiting
    case SetWaiting => RecheckRoot
    case RecheckRoot => RecheckQueues
    case RecheckQueues => SpinBeforeWait(false)
    case _ => pc
  }

  lemma IdleStep(s: State)
    requires Idle(s) && IdlePath(s.pc) != s.pc
    ensures Idle(Scheduler(s)) && Scheduler(s).pc == IdlePath(s.pc)
  {}

  /** With nothing to do the scheduler blocks: twelve steps from the head of the loop. */
  lemma IdleSchedulerBlocks(s: State, consume: bool)
    requires Idle(s) && s.pc.TakeReady?
    ensures Returned(Steps(Returned(Scheduler(s), consume), 9), consume).pc == Waiting
  {
    hide Scheduler, Returned, Steps, Idle;
    IdleStep(s);
    IdleSpinReturns(Scheduler(s), consume);
    var s0 := Returned(Scheduler(s), consume);
    var s3 := IdleSteps3(s0);
    var s6 := IdleSteps3(s3);
    var s9 := IdleSteps3(s6);
    StepsCompose(s0, 3, 6);
    StepsCompose(s3, 3, 3);
    IdleSpinReturns(s9, consume);
  }

  lemma IdleSpinReturns(s: State, consume: bool)
    requires Idle(s)
    ensures s.pc.SpinTimers? ==> Idle(Returned(s, consume)) && Returned(s, consume).pc == Drain(Inline, s.batchSize)
    ensures s.pc == SpinBeforeWait(false) ==> Returned(s, consume).pc == Waiting
  {}

  lemma IdleSteps3(s: State) returns (s': State)
    requires Idle(s) && ((s.pc.Drain? && s.pc.phase.Inline?) || s.pc.AfterDrain? || s.pc.SetWaiting?)
    ensures s' == Steps(s, 3) && Idle(s') && s'.pc == IdlePath(IdlePath(IdlePath(s.pc)))
  {
    hide Scheduler, Idle;
    IdleStep(s);
    IdleStep(Scheduler(s));
    IdleStep(Scheduler(Scheduler(s)));
    s' := Scheduler(Scheduler(Scheduler(s)));
    assert Steps(s', 0) == s' && Steps(Scheduler(Scheduler(s)), 1) == s' && Steps(Scheduler(s), 2) == s';
  }

  /** A task has been polled, and the driver has not been flushed since. */
  predicate UnflushedIn(batchSize: nat, events: seq<Event>) {
    events != [] &&
      var n := |events| - 1; var pc := After(batchSize, events[..n]).pc;
      || (pc.PollTask? && events[n].Polled?)
      || (UnflushedIn(batchSize, events[..n]) && !(pc.Flush? && events[n].CallReturns?))
  }

  /** What a batch has submitted is flushed before the loop goes on: it never waits on it. */
  lemma {:induction false} BatchesAreFlushed(batchSize: nat, events: seq<Event>)
    requires UnflushedIn(batchSize, events)
    ensures var pc := After(batchSize, events).pc; pc.RunBatch? || pc.PollTask? || pc.Flush?
  {
    hide Next;
    var n := |events| - 1;
    if UnflushedIn(batchSize, events[..n]) {
      BatchesAreFlushed(batchSize, events[..n]);
    }
    StepToFlush(After(batchSize, events[..n]), events[n]);
  }

  lemma StepToFlush(s: State, e: Event)
    requires s.pc.RunBatch? || s.pc.PollTask? || s.pc.Flush?
    ensures var pc := Next(s, e).pc; pc.RunBatch? || pc.PollTask? || pc.Flush? || (s.pc.Flush? && e.CallReturns?)
    ensures s.pc.PollTask? && e.Polled? ==> Next(s, e).pc.RunBatch?
  {}

  // ---------- What wakers do, and no more ----------

  /** Every wake from an idle thread takes it up, and it pushes the task unless that is queued already. */
  lemma WakeBegins(s: State, t: ThreadId, x: TaskId)
    requires t !in s.wakers
    ensures x in s.tasks.spawned ==>
      t in Next(s, ForeignWake(t, x)).wakers
      && (Next(s, ForeignWake(t, x)).wakers[t] == Pushing(x) <==> x !in s.tasks.queued)
    ensures t in Next(s, ForeignWakeRoot(t)).wakers && !Next(s, ForeignWakeRoot(t)).wakers[t].Pushing?
  {}

  /** A wake is over after at most four steps of its thread. */
  lemma WakeEnds(s: State, t: ThreadId)
    ensures t !in RunForeign(s, [t, t, t, t]).wakers
  {
    var s1 := Foreign(s, t);
    var s2 := Foreign(s1, t);
    var s3 := Foreign(s2, t);
    Prepend(s, t, [t, t, t]);
    Prepend(s1, t, [t, t]);
    Prepend(s2, t, [t]);
    Prepend(s3, t, []);
    assert [t] + [t, t, t] == [t, t, t, t] && [t] + [t, t] == [t, t, t] && [t] + [t] == [t, t] && [t] + [] == [t];
    WakerGetsOn(s, t);
    WakerGetsOn(s1, t);
    WakerGetsOn(s2, t);
    WakerGetsOn(s3, t);
  }

  /** Steps a waker has left. */
  function StepsLeft(s: State, t: ThreadId): nat {
    if t !in s.wakers then 0 else
      match s.wakers[t] case Pushing(_) => 4 case Loading => 3 case Swapping => 2 case Interrupting => 1
  }

  lemma WakerGetsOn(s: State, t: ThreadId)
    ensures StepsLeft(Foreign(s, t), t) < StepsLeft(s, t) || (StepsLeft(s, t) == 0 && Foreign(s, t) == s)
  {}

  /** A waker goes on past its push only while the scheduler has announced a wait. */
  lemma SwapsOnlyWhileWaiting(s: State, t: ThreadId)
    requires HandshakeOk(s) && t in s.wakers && s.wakers[t].Loading?
    ensures t in Foreign(s, t).wakers <==> Announced(s.pc)
  {}

  predicate WinsSwap(s: State, e: Event) {
    e.ForeignStep? && e.thread in s.wakers && s.wakers[e.thread].Swapping?
    && e.thread in Next(s, e).wakers && Next(s, e).wakers[e.thread].Interrupting?
  }

  predicate ClearsPending(s: State, e: Event) {
    e.Advance? && (s.pc.ClearPending? || s.pc.StopPending?)
  }

  /** Swaps won since the scheduler last cleared the flag. */
  function SwapsWon(batchSize: nat, events: seq<Event>): nat {
    if events == [] then 0 else
      var n := |events| - 1; var s := After(batchSize, events[..n]);
      if ClearsPending(s, events[n]) then 0
      else SwapsWon(batchSize, events[..n]) + if WinsSwap(s, events[n]) then 1 else 0
  }

  lemma StepTellsPending(s: State, e: Event)
    ensures var pending, pending' := s.sig.interruptPending, Next(s, e).sig.interruptPending;
      && (ClearsPending(s, e) ==> !pending')
      && (!ClearsPending(s, e) ==> (pending' <==> pending || WinsSwap(s, e)))
      && (WinsSwap(s, e) ==> !pending)
  {
    if e.Advance? {
      hide WinsSwap, DrainStep, MarkStep, BatchStep;
      AdvanceTellsPending(s);
      assert !WinsSwap(s, e);
    } else {
      hide Scheduler, Returned, PollReturns, WakeLocally, SpawnTask;
      OthersTellPending(s);
    }
  }

  lemma QueueStepsKeepSignals(s: State)
    ensures s.pc.Drain? || s.pc.Mark? || s.pc.RunBatch? ==> Scheduler(s).sig == s.sig
    ensures !(s.pc.Drain? || s.pc.Mark? || s.pc.RunBatch?) ==> Scheduler(s) == ControlStep(s)
  {
    hide Control;
  }

  lemma AdvanceTellsPending(s: State)
    ensures Scheduler(s).sig.interruptPending <==>
      s.sig.interruptPending && !s.pc.ClearPending? && !s.pc.StopPending?
  {
    QueueStepsKeepSignals(s);
    hide Scheduler;
  }

  lemma OthersTellPending(s: State)
    ensures forall done :: PollReturns(s, done).sig.interruptPending == s.sig.interruptPending
    ensures forall consume :: Returned(s, consume).sig.interruptPending == s.sig.interruptPending
    ensures forall x :: WakeLocally(s, x).sig == s.sig && SpawnTask(s, x).sig == s.sig
  {}

  /** Between two clears of the pending flag, at most one of any number of wakers interrupts the driver. */
  lemma {:induction false} OneInterruptAtATime(batchSize: nat, events: seq<Event>)
    ensures SwapsWon(batchSize, events) == if After(batchSize, events).sig.interruptPending then 1 else 0
  {
    hide Next, ClearsPending, WinsSwap;
    if events != [] {
      OneInterruptAtATime(batchSize, events[..|events| - 1]);
      StepTellsPending(After(batchSize, events[..|events| - 1]), events[|events| - 1]);
    }
  }

  /** Wakes and spawns on the scheduler's thread reach the queues as ReadyQueues says. */
  lemma ArrivalsAgree(s: State, x: TaskId)
    requires QueuesOk(s)
    ensures CodeRuns(s.pc) && x in s.tasks.spawned && x !in s.tasks.queued ==>
      Next(s, LocalWake(x)).q == Arrive(s.q, Arrival.Wake(x))
    ensures FuturesRun(s.pc) && x !in s.tasks.spawned ==> Next(s, Event.Spawn(x)).q == Arrive(s.q, Arrival.Spawn(x))
  {
    if x !in s.tasks.queued {
      assert x !in Ready(s.q, s.pc);
    }
  }
}
