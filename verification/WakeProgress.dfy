/**
 * Progress in the step system of WakeProtocol: how many drains it takes until a
 * ready task is polled, for every interleaving with the foreign wakers.
 */
module WakeProgress {
  import opened Prelude
  import opened ReadyQueues
  import opened WakeProtocol

  function Run(s: State, events: seq<Event>): State {
    if events == [] then s else Next(Run(s, events[..|events| - 1]), events[|events| - 1])
  }

  /** This step ends a call of `drain_ready`. */
  predicate EndsDrain(s: State, e: Event) {
    s.pc.Drain? && Next(s, e).pc.AfterDrain?
  }

  /** This step pushes a task to the remote queue. */
  predicate PushesRemote(s: State, e: Event) {
    e.ForeignStep? && e.thread in s.wakers && s.wakers[e.thread].Pushing?
  }

  /** Drains completed during a run. */
  function Drains(s: State, events: seq<Event>): nat {
    if events == [] then 0 else
      var n := |events| - 1;
      Drains(s, events[..n]) + if EndsDrain(Run(s, events[..n]), events[n]) then 1 else 0
  }

  /** Remote pushes made during a run. */
  function Pushes(s: State, events: seq<Event>): nat {
    if events == [] then 0 else
      var n := |events| - 1;
      Pushes(s, events[..n]) + if PushesRemote(Run(s, events[..n]), events[n]) then 1 else 0
  }

  /** The scheduler takes the task out of its batch: it polls it, unless it has already finished. */
  predicate Reaches(s: State, e: Event, x: TaskId) {
    && s.pc.RunBatch? && e.Advance? && s.batch != [] && s.batch[0] == x
    && (Next(s, e).pc == PollTask(x) || x in s.tasks.finished)
  }

  ghost predicate Reached(s: State, events: seq<Event>, x: TaskId) {
    exists i: nat :: i < |events| && Reaches(Run(s, events[..i]), events[i], x)
  }

  // ---------- Who is ahead of a task ----------

  function Index(v: seq<TaskId>, x: TaskId): (i: nat)
    requires x in v
    ensures i < |v| && v[i] == x
  {
    if v[0] == x then 0 else 1 + Index(v[1..], x)
  }

  lemma {:induction false} IndexAfterPush(v: seq<TaskId>, x: TaskId, y: TaskId)
    requires x in v
    ensures Index(v + [y], x) == Index(v, x)
  {
    if v[0] != x {
      IndexAfterPush(v[1..], x, y);
      assert (v + [y])[1..] == v[1..] + [y];
    }
  }

  predicate Queued(q: Queues, x: TaskId) {
    x in q.inline || x in q.remote || x in q.local
  }

  /** The tasks of the remote and main queues that are drained before this one. */
  function Ahead(q: Queues, x: TaskId): nat
    requires Queued(q, x)
  {
    if x in q.inline then 0
    else if x in q.remote then Index(q.remote, x)
    else |q.remote| + Index(q.local, x)
  }

  // ---------- What a drain still has to give ----------

  predicate InDrain(pc: SchedulerPc) {
    pc.Drain? || pc.Mark?
  }

  /** The least number of tasks each drain takes from the remote and main queues, unless they run out. */
  function Share(s: State): int {
    s.batchSize - NEXT_TASK_INLINE_CAP
  }

  /** Budget left after the task in hand. */
  function Left(pc: SchedulerPc): int
    requires InDrain(pc)
  {
    if pc.Mark? then pc.budget - 1 else pc.budget
  }

  /** The inline queue never uses up the share of the others, and is empty once it has been passed. */
  ghost predicate DrainOk(s: State) {
    && (InDrain(s.pc) ==> Left(s.pc) >= 0)
    && (InDrain(s.pc) && s.pc.phase.Inline? ==> Left(s.pc) >= |s.q.inline| + Share(s))
    && (InDrain(s.pc) && !s.pc.phase.Inline? ==> s.q.inline == [])
  }

  /** The part of its share that the drain under way has spent, or can no longer spend on this task. */
  function Spent(s: State, x: TaskId): int {
    if !InDrain(s.pc) then 0
    else if s.pc.phase.Inline? then 0
    else if s.pc.phase.Local? && x in s.q.remote then Share(s)
    else if Left(s.pc) < Share(s) then Share(s) - Left(s.pc)
    else 0
  }

  lemma NextKeepsDrain(s: State, e: Event)
    requires QueuesOk(s) && DrainOk(s) && Share(s) > 0
    ensures DrainOk(Next(s, e)) && Next(s, e).batchSize == s.batchSize
  {
    hide FlagsOk, ReadyOf, Holders;
  }

  lemma AheadAfterPush(q: Queues, x: TaskId, y: TaskId)
    requires Queued(q, x)
    ensures var q' := q.(remote := q.remote + [y]); Queued(q', x) && Ahead(q', x) <= Ahead(q, x) + 1
    ensures x in q.remote ==> x !in q.inline ==> Ahead(q.(remote := q.remote + [y]), x) == Ahead(q, x)
    ensures var q' := q.(local := q.local + [y]); Queued(q', x) && Ahead(q', x) == Ahead(q, x)
    ensures Queued(Push(q, y), x) && Ahead(Push(q, y), x) <= Ahead(q, x)
  {
    if x in q.remote {
      IndexAfterPush(q.remote, x, y);
    } else if x in q.local {
      IndexAfterPush(q.local, x, y);
    }
  }

  /** Popping another task, with the inline queue passed, brings this one nearer; a pop from behind it does not. */
  lemma AheadAfterPop(q: Queues, phase: Phase, x: TaskId)
    requires Queued(q, x) && Queue(q, phase) != [] && Queue(q, phase)[0] != x
    ensures var q' := Popped(q, phase);
      && Queued(q', x) && (x in q'.inline <==> x in q.inline) && (x in q'.remote <==> x in q.remote)
      && Ahead(q', x) == Ahead(q, x) - if phase.Inline? || x in q.inline || (phase.Local? && x in q.remote) then 0 else 1
  {
    var v := Queue(q, phase);
    assert v == [v[0]] + v[1..];
  }

  /** No task is in the queues twice, so popping one takes it off all of them. */
  lemma PopTakesOff(s: State, phase: Phase)
    requires QueuesOk(s) && Queue(s.q, phase) != []
    ensures !Queued(Popped(s.q, phase), Queue(s.q, phase)[0])
  {
    var x := Queue(s.q, phase)[0];
    PopIsMultiset(Queue(s.q, phase));
    assert Ready(s.q, s.pc)[x] <= 1;
  }

  lemma HeldIsNotQueued(s: State, t: ThreadId)
    requires QueuesOk(s) && t in s.wakers && s.wakers[t].Pushing?
    ensures !Queued(s.q, s.wakers[t].task)
  {
    var holders := Holders(s.wakers);
    assert t in holders && holders[t] !in Ready(s.q, s.pc);
  }

  lemma DrainBringsCloser(s: State, x: TaskId)
    requires QueuesOk(s) && DrainOk(s) && Share(s) > 0 && Queued(s.q, x) && s.pc.Drain?
    ensures var s' := Scheduler(s);
      if Queued(s'.q, x) then
        Ahead(s'.q, x) + Spent(s', x) + (if s'.pc.AfterDrain? then Share(s) else 0) <= Ahead(s.q, x) + Spent(s, x)
      else s'.pc.Mark? && s'.pc.task == x
  {
    hide QueuesOk, Ahead;
    if s.pc.budget != 0 && Queue(s.q, s.pc.phase) != [] {
      if Queue(s.q, s.pc.phase)[0] == x {
        PopTakesOff(s, s.pc.phase);
      } else {
        AheadAfterPop(s.q, s.pc.phase, x);
      }
    }
  }

  /**
   * The heart of the bound: no step but a remote push lets more work get ahead
   * of a ready task, and a completed drain removes a full share of it, unless
   * the task itself is popped.
   */
  lemma StepBringsCloser(s: State, e: Event, x: TaskId)
    requires QueuesOk(s) && DrainOk(s) && Share(s) > 0 && Queued(s.q, x)
    ensures var s' := Next(s, e);
      if Queued(s'.q, x) then
        Ahead(s'.q, x) + Spent(s', x) + (if EndsDrain(s, e) then Share(s) else 0)
          <= Ahead(s.q, x) + Spent(s, x) + (if PushesRemote(s, e) then 1 else 0)
      else s'.pc.Mark? && s'.pc.task == x && !EndsDrain(s, e)
  {
    hide QueuesOk, Ahead;
    if e.Advance? && s.pc.Drain? {
      DrainBringsCloser(s, x);
    } else if PushesRemote(s, e) {
      HeldIsNotQueued(s, e.thread);
      AheadAfterPush(s.q, x, s.wakers[e.thread].task);
    } else if e.LocalWake? || e.Spawn? {
      AheadAfterPush(s.q, x, e.task);
    }
  }

  // ---------- From ready to polled ----------

  /** Where a task waits for its poll: in a queue, just popped, or in the batch. */
  predicate Waits(s: State, x: TaskId) {
    Queued(s.q, x) || (s.pc.Mark? && s.pc.task == x) || x in s.batch
  }

  /** The work that must be drained before a waiting task is. */
  function Lead(s: State, x: TaskId): int {
    if Queued(s.q, x) then Ahead(s.q, x) + Spent(s, x) else 0
  }

  /** `done`, the work drained so far, has not exceeded `limit` before the task was drained itself. */
  ghost predicate OnSchedule(s: State, x: TaskId, done: int, limit: int) {
    || (Queued(s.q, x) && done + Ahead(s.q, x) + Spent(s, x) <= limit)
    || (s.pc.Mark? && s.pc.task == x && done <= limit)
    || (x in s.batch && done <= limit + if InDrain(s.pc) then 0 else Share(s))
  }

  /** A popped task is put in the batch by the next step of the scheduler, and nothing else happens to it. */
  lemma MarkedGoesToBatch(s: State, e: Event)
    requires s.pc.Mark?
    ensures var s' := Next(s, e);
      !EndsDrain(s, e) && (s'.pc == s.pc || (s.pc.task in s'.batch && InDrain(s'.pc)))
  {}

  /** A task in the batch stays there until it is reached, and no further drain completes before that. */
  lemma BatchIsServed(s: State, e: Event, x: TaskId)
    requires WakesOk(s) && x in s.batch && !Reaches(s, e, x)
    ensures var s' := Next(s, e);
      x in s'.batch && (InDrain(s'.pc) ==> InDrain(s.pc) && !EndsDrain(s, e)) && (EndsDrain(s, e) ==> InDrain(s.pc))
  {
    if s.pc.RunBatch? && e.Advance? {
      assert s.batch == [s.batch[0]] + s.batch[1..];
    }
  }

  lemma StepKeepsSchedule(s: State, e: Event, x: TaskId, done: int, limit: int)
    requires Inv(s) && DrainOk(s) && Share(s) > 0 && OnSchedule(s, x, done, limit)
    ensures Reaches(s, e, x) ||
      OnSchedule(Next(s, e), x, done + (if EndsDrain(s, e) then Share(s) else 0),
                 limit + (if PushesRemote(s, e) then 1 else 0))
  {
    hide QueuesOk, WakesOk, HandshakeOk, Ahead, Spent, Next, EndsDrain, Reaches;
    NextKeepsDrain(s, e);
    SpentIsPartOfAShare(Next(s, e), x);
    if Queued(s.q, x) && done + Ahead(s.q, x) + Spent(s, x) <= limit {
      StepBringsCloser(s, e, x);
      SpentIsPartOfAShare(s, x);
    } else if s.pc.Mark? && s.pc.task == x && done <= limit {
      MarkedGoesToBatch(s, e);
    } else if !Reaches(s, e, x) {
      BatchIsServed(s, e, x);
    }
  }

  lemma SpentIsPartOfAShare(s: State, x: TaskId)
    requires DrainOk(s) && Share(s) > 0
    ensures 0 <= Spent(s, x) <= Share(s)
  {}

  lemma NextKeepsAll(s: State, e: Event)
    requires Inv(s) && DrainOk(s) && Share(s) > 0
    ensures Inv(Next(s, e)) && DrainOk(Next(s, e)) && Share(Next(s, e)) == Share(s)
  {
    hide QueuesOk, WakesOk, HandshakeOk, DrainOk, Next;
    NextKeepsQueues(s, e);
    NextKeepsWakes(s, e);
    NextKeepsHandshake(s, e);
    NextKeepsDrain(s, e);
  }

  lemma ReachedEarlier(s: State, events: seq<Event>, x: TaskId)
    requires events != [] && Reached(s, events[..|events| - 1], x)
    ensures Reached(s, events, x)
  {
    var n := |events| - 1;
    var i: nat :| i < n && Reaches(Run(s, events[..n][..i]), events[..n][i], x);
    assert events[..n][..i] == events[..i];
  }

  lemma StartsOnSchedule(s: State, x: TaskId)
    requires Share(s) > 0 && Waits(s, x)
    ensures OnSchedule(s, x, 0, Lead(s, x))
  {}

  lemma {:induction false} RunKeepsSchedule(s: State, events: seq<Event>, x: TaskId)
    requires Inv(s) && DrainOk(s) && Share(s) > 0 && Waits(s, x)
    ensures var s' := Run(s, events); Inv(s') && DrainOk(s') && Share(s') == Share(s)
    ensures Reached(s, events, x) ||
      OnSchedule(Run(s, events), x, Drains(s, events) * Share(s), Lead(s, x) + Pushes(s, events))
  {
    hide Inv, DrainOk, Next, OnSchedule, Lead, Reached, Reaches, EndsDrain, PushesRemote;
    if events == [] {
      StartsOnSchedule(s, x);
    } else {
      var n := |events| - 1;
      var before, e := Run(s, events[..n]), events[n];
      RunKeepsSchedule(s, events[..n], x);
      NextKeepsAll(before, e);
      if Reached(s, events[..n], x) {
        ReachedEarlier(s, events, x);
      } else {
        var done, limit := Drains(s, events[..n]) * Share(s), Lead(s, x) + Pushes(s, events[..n]);
        StepKeepsSchedule(before, e, x, done, limit);
        if Reaches(before, e, x) {
          ReachedNow(s, events, x);
        } else {
          assert (Drains(s, events[..n]) + 1) * Share(s) == done + Share(s);
        }
      }
    }
  }

  lemma ReachedNow(s: State, events: seq<Event>, x: TaskId)
    requires events != [] && Reaches(Run(s, events[..|events| - 1]), events[|events| - 1], x)
    ensures Reached(s, events, x)
  {}

  lemma {:induction false} AfterDrainIsOk(batchSize: nat, events: seq<Event>)
    requires batchSize > NEXT_TASK_INLINE_CAP
    ensures DrainOk(After(batchSize, events)) && After(batchSize, events).batchSize == batchSize
  {
    if events != [] {
      hide Inv, DrainOk, Next;
      AfterIsOk(batchSize, events[..|events| - 1]);
      AfterDrainIsOk(batchSize, events[..|events| - 1]);
      NextKeepsAll(After(batchSize, events[..|events| - 1]), events[|events| - 1]);
    } else {
    }
  }

  /**
   * Bounded waiting under every interleaving. Take any reachable state, a batch
   * size B above eight, and a task in a ready queue. However the run goes on,
   * once the drains completed times B - 8 exceed the tasks ahead of it in the
   * remote and main queues plus the remote pushes made meanwhile, it is in the
   * batch or has been handed to its poll; one drain later it has been handed
   * over. A drain already under way at the start counts for what it has left.
   */
  lemma ReadyTaskIsPolled(batchSize: nat, past: seq<Event>, events: seq<Event>, x: TaskId)
    requires batchSize > NEXT_TASK_INLINE_CAP && Waits(After(batchSize, past), x)
    ensures var s := After(batchSize, past); var share := batchSize - NEXT_TASK_INLINE_CAP;
      var bound := Lead(s, x) + Pushes(s, events);
      && (Drains(s, events) * share > bound ==> x in Run(s, events).batch || Reached(s, events, x))
      && (Drains(s, events) * share > bound + share ==> Reached(s, events, x))
  {
    hide After, Run, Drains, Pushes, Reached, Inv, DrainOk, OnSchedule, Lead, Waits;
    var s := After(batchSize, past);
    AfterIsOk(batchSize, past);
    AfterDrainIsOk(batchSize, past);
    RunKeepsSchedule(s, events, x);
    if !Reached(s, events, x) {
      NeverLate(Run(s, events), x, Drains(s, events) * Share(s), Lead(s, x) + Pushes(s, events));
    }
  }

  /** Past the limit only the batch is left, and past the limit and a share not even that. */
  lemma NeverLate(s: State, x: TaskId, done: int, limit: int)
    requires DrainOk(s) && Share(s) > 0 && OnSchedule(s, x, done, limit)
    ensures done > limit ==> x in s.batch
    ensures done <= limit + Share(s)
  {}

  /**
   * Every wake leads to a poll: an unfinished task woken since its last poll and
   * no longer in its waker's hands is handed over once enough drains have
   * completed; all the tasks ready at the start and every remote push since
   * count against them, and nothing else does.
   */
  lemma WokenTaskIsPolled(batchSize: nat, past: seq<Event>, events: seq<Event>, x: TaskId)
    requires batchSize > NEXT_TASK_INLINE_CAP
    requires var s := After(batchSize, past);
      x in s.tasks.woken && x !in s.tasks.finished && !Held(Holders(s.wakers), x)
    requires var s := After(batchSize, past); var share := batchSize - NEXT_TASK_INLINE_CAP;
      Drains(s, events) * share > |s.q.remote| + |s.q.local| + Pushes(s, events) + 2 * share
    ensures Reached(After(batchSize, past), events, x)
  {
    hide After, Drains, Pushes, Reached, DrainOk, Held;
    var s := After(batchSize, past);
    WakesAreCovered(batchSize, past, x);
    AfterDrainIsOk(batchSize, past);
    LeadIsBounded(s, x);
    ReadyTaskIsPolled(batchSize, past, events, x);
  }

  lemma LeadIsBounded(s: State, x: TaskId)
    requires DrainOk(s) && Share(s) > 0
    ensures Lead(s, x) <= |s.q.remote| + |s.q.local| + Share(s)
  {}

  /**
   * In particular, from outside a drain and with nothing remote, position p of
   * the main queue is drained within p / (B - 8) + 1 drains.
   */
  lemma MainQueueIsReached(batchSize: nat, past: seq<Event>, events: seq<Event>, p: nat)
    requires batchSize > NEXT_TASK_INLINE_CAP
    requires var s := After(batchSize, past);
      !InDrain(s.pc) && s.q.remote == [] && p < |s.q.local| && Pushes(s, events) == 0
    requires Drains(After(batchSize, past), events) > p / (batchSize - NEXT_TASK_INLINE_CAP)
    ensures var s := After(batchSize, past); var x := s.q.local[p];
      x in Run(s, events).batch || Reached(s, events, x)
  {
    hide After, Drains, Pushes, Reached, Run, Index;
    var s := After(batchSize, past);
    IndexIsFirst(s.q.local, p);
    ReadyTaskIsPolled(batchSize, past, events, s.q.local[p]);
    EnoughDrains(Drains(s, events), batchSize - NEXT_TASK_INLINE_CAP, p);
  }

  lemma EnoughDrains(drains: nat, share: nat, p: nat)
    requires share > 0 && drains > p / share
    ensures drains * share > p
  {
    assert drains * share >= (p / share + 1) * share;
  }

  lemma {:induction false} IndexIsFirst(v: seq<TaskId>, p: nat)
    requires p < |v|
    ensures Index(v, v[p]) <= p
  {
    if v[0] != v[p] {
      IndexIsFirst(v[1..], p - 1);
    }
  }

  // ---------- The drain of the protocol and the drain of the queues ----------

  function Steps(s: State, k: nat): State
    decreases k
  {
    if k == 0 then s else Steps(Scheduler(s), k - 1)
  }

  lemma {:induction false} StepsCompose(s: State, j: nat, k: nat)
    ensures Steps(s, j + k) == Steps(Steps(s, j), k)
    decreases j
  {
    if j > 0 {
      StepsCompose(Scheduler(s), j - 1, k);
    }
  }

  function Cut(q: Queues, phase: Phase, n: nat): Queues
    requires n <= |Queue(q, phase)|
  {
    match phase
    case Inline => q.(inline := q.inline[n..])
    case Remote => q.(remote := q.remote[n..])
    case Local => q.(local := q.local[n..])
  }

  function Past(phase: Phase, budget: nat): SchedulerPc {
    match phase case Inline => Drain(Remote, budget) case Remote => Drain(Local, budget) case Local => AfterDrain
  }

  /** The state after `taken` has moved from the queues to the batch. */
  function Moved(s: State, q: Queues, taken: seq<TaskId>, pc: SchedulerPc): State {
    s.(q := q, batch := s.batch + taken, tasks := s.tasks.(queued := s.tasks.queued - set x | x in taken), pc := pc)
  }

  lemma MovedTwice(s: State, q: Queues, a: seq<TaskId>, pc: SchedulerPc, q': Queues, b: seq<TaskId>, pc': SchedulerPc)
    ensures Moved(Moved(s, q, a, pc), q', b, pc') == Moved(s, q', a + b, pc')
  {
    assert s.batch + a + b == s.batch + (a + b);
    assert s.tasks.queued - (set x | x in a) - (set x | x in b) == s.tasks.queued - set x | x in a + b;
  }

  lemma MovedIs(s: State, q: Queues, taken: seq<TaskId>, pc: SchedulerPc)
    ensures var s' := Moved(s, q, taken, pc); s'.q == q && s'.pc == pc
  {}

  lemma PopAndCut(q: Queues, phase: Phase, n: nat)
    requires 0 < n <= |Queue(q, phase)|
    ensures var v, q' := Queue(q, phase), Popped(q, phase);
      && Queue(q', phase) == v[1..] && Cut(q', phase, n - 1) == Cut(q, phase, n)
      && v[..n] == [v[0]] + v[1..][..n - 1]
  {}

  lemma PopAndMark(s: State, phase: Phase, budget: nat)
    requires s.pc == Drain(phase, budget) && budget > 0 && Queue(s.q, phase) != []
    ensures Steps(s, 2) == Moved(s, Popped(s.q, phase), [Queue(s.q, phase)[0]], Drain(phase, budget - 1))
  {
    var x := Queue(s.q, phase)[0];
    assert (set y | y in [x]) == {x};
    assert Steps(s, 2) == Scheduler(Scheduler(s));
  }

  /** One queue: two steps for each task taken, and one to go on. */
  lemma {:induction false} PhaseTakesPrefix(s: State, phase: Phase, budget: nat)
    requires s.pc == Drain(phase, budget)
    ensures var v := Queue(s.q, phase); var n := Min(budget, |v|);
      Steps(s, 2 * n + 1) == Moved(s, Cut(s.q, phase, n), v[..n], Past(phase, budget - n))
    decreases budget
  {
    hide Steps, Scheduler, Moved, Cut, Popped;
    var v := Queue(s.q, phase);
    var n := Min(budget, |v|);
    if n == 0 {
      OnePhaseStep(s, phase, budget);
    } else {
      var s2 := Steps(s, 2);
      PopAndMark(s, phase, budget);
      MovedIs(s, Popped(s.q, phase), [v[0]], Drain(phase, budget - 1));
      PopAndCut(s.q, phase, n);
      StepsCompose(s, 2, 2 * (n - 1) + 1);
      PhaseTakesPrefix(s2, phase, budget - 1);
      MovedTwice(s, Popped(s.q, phase), [v[0]], s2.pc, Cut(s.q, phase, n), v[1..][..n - 1], Past(phase, budget - n));
    }
  }

  lemma OnePhaseStep(s: State, phase: Phase, budget: nat)
    requires s.pc == Drain(phase, budget) && (budget == 0 || Queue(s.q, phase) == [])
    ensures Steps(s, 1) == Moved(s, Cut(s.q, phase, 0), Queue(s.q, phase)[..0], Past(phase, budget))
  {
    assert Steps(s, 1) == Scheduler(s);
    assert s.tasks.queued - (set x | x in []) == s.tasks.queued;
  }

  /** Undisturbed, the drain of the protocol is the drain of the queues: the same batch, the same rest. */
  lemma DrainIsDrainReady(s: State, budget: nat) returns (k: nat)
    requires s.pc == Drain(Inline, budget)
    ensures Steps(s, k) == Moved(s, Rest(s.q, budget), Batch(s.q, budget), AfterDrain)
  {
    hide Steps, Moved;
    var a := Min(budget, |s.q.inline|);
    var b := Min(budget - a, |s.q.remote|);
    var c := Min(budget - a - b, |s.q.local|);
    PhaseTakesPrefix(s, Inline, budget);
    var s1 := Steps(s, 2 * a + 1);
    MovedIs(s, Cut(s.q, Inline, a), s.q.inline[..a], Drain(Remote, budget - a));
    PhaseTakesPrefix(s1, Remote, budget - a);
    var s2 := Steps(s1, 2 * b + 1);
    MovedIs(s1, Cut(s1.q, Remote, b), s.q.remote[..b], Drain(Local, budget - a - b));
    PhaseTakesPrefix(s2, Local, budget - a - b);
    k := 2 * a + 1 + (2 * b + 1) + (2 * c + 1);
    StepsCompose(s, 2 * a + 1 + (2 * b + 1), 2 * c + 1);
    StepsCompose(s, 2 * a + 1, 2 * b + 1);
    MovedTwice(s, s1.q, s.q.inline[..a], s1.pc, s2.q, s.q.remote[..b], s2.pc);
    MovedTwice(s, s2.q, s.q.inline[..a] + s.q.remote[..b], s2.pc, Rest(s.q, budget), s.q.local[..c], AfterDrain);
  }
}
