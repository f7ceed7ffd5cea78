/**
 * The scheduler loop of `block_on` and any number of foreign threads waking its
 * tasks, as a sequentially consistent step system: one atomic operation on
 * shared state per step, with explicit program counters.
 */
module WakeProtocol {
  import opened ReadyQueues

  type ThreadId = nat

  /** Where a foreign thread stands inside a wake; threads between wakes are not listed. */
  datatype WakerPc =
    | Pushing(task: TaskId)   // won the `queued` swap, about to push to the remote queue
    | Loading                 // pushed or stored, about to load `waiting`
    | Swapping                // saw `waiting`, about to swap `interrupt_pending`
    | Interrupting            // won that swap, about to interrupt the driver

  datatype Phase = Inline | Remote | Local

  datatype SchedulerPc =
    | Outside                                              // not inside block_on
    | TakeReady                                            // head of the loop
    | PollRoot                                             // the root future runs
    | SpinTimers                                           // opportunistic timer spin
    | Drain(phase: Phase, budget: nat)                     // drain_ready, before a pop
    | Mark(phase: Phase, budget: nat, task: TaskId)        // popped, before mark_dequeued
    | AfterDrain                                           // is the batch empty?
    | CheckRoot                                            // root ready before announcing the wait?
    | ClearPending                                         // interrupt_pending := false
    | SetWaiting                                           // waiting := true
    | RecheckRoot                                          // root ready after announcing it?
    | RecheckQueues                                        // any queue non-empty?
    | SpinBeforeWait(woke: bool)                           // timer spin that yields the timeout
    | Waiting                                              // blocked in driver.wait
    | CollectIo                                            // wait returned, I/O wakers run
    | StopWaiting                                          // waiting := false
    | StopPending                                          // interrupt_pending := false
    | RunBatch                                             // next task of the batch
    | PollTask(task: TaskId)                               // a task's future runs
    | Flush                                                // driver.flush after a batch

  /** `woken` remembers the tasks woken since their last poll started. */
  datatype Tasks = Tasks(spawned: set<TaskId>, queued: set<TaskId>, finished: set<TaskId>, woken: set<TaskId>)

  /**
   * `token` is the driver's pending interrupt: an eventfd count or a park token;
   * `rootWoken` remembers that the root was woken since its last poll started.
   */
  datatype Signals = Signals(rootReady: bool, rootWoken: bool, waiting: bool, interruptPending: bool, token: bool)

  /** The ready queues, and `batch`, the tasks drained from them and not yet polled. */
  datatype State = State(q: Queues, batch: seq<TaskId>, tasks: Tasks, sig: Signals, batchSize: nat, pc: SchedulerPc,
                         wakers: map<ThreadId, WakerPc>)

  datatype Event =
    | ForeignWake(thread: ThreadId, task: TaskId)
    | ForeignWakeRoot(thread: ThreadId)
    | ForeignStep(thread: ThreadId)
    | LocalWake(task: TaskId)
    | LocalWakeRoot
    | Spawn(task: TaskId)
    | Enter
    | Advance                    // the one possible scheduler step at a deterministic point
    | Polled(done: bool)         // the running future returns
    | CallReturns(consume: bool) // a spin, wait, I/O collection or flush returns

  // ---------- Foreign threads: Task::enqueue_if_needed and BlockOnNotify::wake_by_ref ----------

  function Wake(tasks: Tasks, x: TaskId): Tasks {
    tasks.(woken := tasks.woken + {x}, queued := tasks.queued + {x})
  }

  function WakeFromAfar(s: State, t: ThreadId, x: TaskId): State {
    if t in s.wakers || x !in s.tasks.spawned then s else
      s.(tasks := Wake(s.tasks, x),
         wakers := s.wakers[t := if x in s.tasks.queued then Loading else Pushing(x)])
  }

  function RootWake(g: Signals): Signals {
    g.(rootReady := true, rootWoken := true)
  }

  function WakeRootFromAfar(s: State, t: ThreadId): State {
    if t in s.wakers then s else s.(sig := RootWake(s.sig), wakers := s.wakers[t := Loading])
  }

  function Foreign(s: State, t: ThreadId): State {
    if t !in s.wakers then s else
      match s.wakers[t]
      case Pushing(x) => s.(q := s.q.(remote := s.q.remote + [x]), wakers := s.wakers[t := Loading])
      case Loading => s.(wakers := if s.sig.waiting then s.wakers[t := Swapping] else s.wakers - {t})
      case Swapping =>
        s.(sig := s.sig.(interruptPending := true),
           wakers := if s.sig.interruptPending then s.wakers - {t} else s.wakers[t := Interrupting])
      case Interrupting => s.(sig := s.sig.(token := true), wakers := s.wakers - {t})
  }

  // ---------- The scheduler's own thread ----------

  /** Points at which wakers may run on the scheduler's thread. */
  predicate RunsWakers(pc: SchedulerPc) {
    pc.Outside? || pc.PollRoot? || pc.PollTask? || pc.SpinTimers? || pc.SpinBeforeWait? || pc.CollectIo? || pc.Flush?
  }

  /** The timer spin before a wait reports that it woke something. */
  function Noted(pc: SchedulerPc): SchedulerPc {
    if pc.SpinBeforeWait? then SpinBeforeWait(true) else pc
  }

  function WakeLocally(s: State, x: TaskId): State {
    if !RunsWakers(s.pc) || x !in s.tasks.spawned then s else
      s.(tasks := Wake(s.tasks, x), pc := Noted(s.pc),
         q := if x in s.tasks.queued then s.q else Push(s.q, x))
  }

  function WakeRootLocally(s: State): State {
    if RunsWakers(s.pc) then s.(sig := RootWake(s.sig), pc := Noted(s.pc)) else s
  }

  function SpawnTask(s: State, x: TaskId): State {
    if !(s.pc.Outside? || s.pc.PollRoot? || s.pc.PollTask?) || x in s.tasks.spawned then s else
      s.(tasks := Wake(s.tasks, x).(spawned := s.tasks.spawned + {x}),
         q := s.q.(local := s.q.local + [x]))
  }

  function Queue(q: Queues, phase: Phase): seq<TaskId> {
    match phase case Inline => q.inline case Remote => q.remote case Local => q.local
  }

  function Popped(q: Queues, phase: Phase): Queues
    requires Queue(q, phase) != []
  {
    match phase
    case Inline => q.(inline := q.inline[1..])
    case Remote => q.(remote := q.remote[1..])
    case Local => q.(local := q.local[1..])
  }

  /** The step of drain_ready before a pop: pop, or go on to the next queue. */
  function DrainStep(s: State, phase: Phase, budget: nat): State {
    if budget == 0 || Queue(s.q, phase) == [] then
      s.(pc := match phase
               case Inline => Drain(Remote, budget)
               case Remote => Drain(Local, budget)
               case Local => AfterDrain)
    else
      s.(q := Popped(s.q, phase), pc := Mark(phase, budget, Queue(s.q, phase)[0]))
  }

  function MarkStep(s: State, phase: Phase, budget: nat, x: TaskId): State {
    s.(tasks := s.tasks.(queued := s.tasks.queued - {x}), batch := s.batch + [x],
       pc := Drain(phase, if budget == 0 then 0 else budget - 1))
  }

  function BatchStep(s: State): State {
    if s.batch == [] then s.(pc := Flush) else
      var x := s.batch[0];
      s.(batch := s.batch[1..], tasks := s.tasks.(woken := s.tasks.woken - {x}),
         pc := if x in s.tasks.finished then RunBatch else PollTask(x))
  }

  /** The points of the loop that only read and write signals. */
  function Control(g: Signals, q: Queues, batch: seq<TaskId>, pc: SchedulerPc): (Signals, SchedulerPc) {
    match pc
    case TakeReady =>
      if g.rootReady then (g.(rootReady := false, rootWoken := false), PollRoot)
      else (g.(rootReady := false), SpinTimers)
    case AfterDrain => (g, if batch == [] then CheckRoot else RunBatch)
    case CheckRoot => (g, if g.rootReady then TakeReady else ClearPending)
    case ClearPending => (g.(interruptPending := false), SetWaiting)
    case SetWaiting => (g.(waiting := true), RecheckRoot)
    case RecheckRoot => (g, if g.rootReady then StopWaiting else RecheckQueues)
    case RecheckQueues =>
      (g, if q.inline != [] || q.remote != [] || q.local != [] then StopWaiting else SpinBeforeWait(false))
    case StopWaiting => (g.(waiting := false), StopPending)
    case StopPending => (g.(interruptPending := false), TakeReady)
    case _ => (g, pc)
  }

  function ControlStep(s: State): State {
    var c := Control(s.sig, s.q, s.batch, s.pc);
    s.(sig := c.0, pc := c.1)
  }

  function Scheduler(s: State): State {
    match s.pc
    case Drain(phase, budget) => DrainStep(s, phase, budget)
    case Mark(phase, budget, x) => MarkStep(s, phase, budget, x)
    case RunBatch => BatchStep(s)
    case _ => ControlStep(s)
  }

  function PollReturns(s: State, done: bool): State {
    match s.pc
    case PollRoot => s.(pc := if done then Outside else SpinTimers)
    case PollTask(x) =>
      s.(tasks := if done then s.tasks.(finished := s.tasks.finished + {x}) else s.tasks, pc := RunBatch)
    case _ => s
  }

  /** A returning wait or flush may have consumed the interrupt. */
  function Returned(s: State, consume: bool): State {
    match s.pc
    case SpinTimers => s.(pc := Drain(Inline, s.batchSize))
    case SpinBeforeWait(woke) => s.(pc := if woke then StopWaiting else Waiting)
    case Waiting => s.(sig := s.sig.(token := s.sig.token && !consume), pc := CollectIo)
    case CollectIo => s.(pc := StopWaiting)
    case Flush => s.(sig := s.sig.(token := s.sig.token && !consume), pc := TakeReady)
    case _ => s
  }

  function EnterLoop(s: State): State {
    if s.pc.Outside? then s.(sig := RootWake(s.sig), pc := TakeReady) else s
  }

  function Next(s: State, e: Event): State {
    match e
    case ForeignWake(t, x) => WakeFromAfar(s, t, x)
    case ForeignWakeRoot(t) => WakeRootFromAfar(s, t)
    case ForeignStep(t) => Foreign(s, t)
    case LocalWake(x) => WakeLocally(s, x)
    case LocalWakeRoot => WakeRootLocally(s)
    case Spawn(x) => SpawnTask(s, x)
    case Enter => EnterLoop(s)
    case Advance => Scheduler(s)
    case Polled(done) => PollReturns(s, done)
    case CallReturns(consume) => Returned(s, consume)
  }

  function Init(batchSize: nat): State {
    State(Queues([], [], []), [], Tasks({}, {}, {}, {}), Signals(false, false, false, false, false), batchSize, Outside, map[])
  }

  function After(batchSize: nat, events: seq<Event>): State {
    if events == [] then Init(batchSize)
    else Next(After(batchSize, events[..|events| - 1]), events[|events| - 1])
  }

  // ---------- Queue membership ----------

  /** Every queue position, and the task popped but not yet marked. */
  function Ready(q: Queues, pc: SchedulerPc): multiset<TaskId> {
    ReadyOf(q.inline, q.remote, q.local, if pc.Mark? then [pc.task] else [])
  }

  function ReadyOf(inline: seq<TaskId>, remote: seq<TaskId>, local: seq<TaskId>, popped: seq<TaskId>): multiset<TaskId> {
    multiset(inline) + multiset(remote) + multiset(local) + multiset(popped)
  }

  /** The tasks held by wakers between their `queued` swap and their push. */
  function Holders(wakers: map<ThreadId, WakerPc>): map<ThreadId, TaskId> {
    map t | t in wakers && wakers[t].Pushing? :: wakers[t].task
  }

  ghost predicate Held(holders: map<ThreadId, TaskId>, x: TaskId) {
    exists t :: t in holders && holders[t] == x
  }

  /** A set flag means one place: one position of one queue, or one waker's hands. */
  ghost predicate FlagsOk(ready: multiset<TaskId>, queued: set<TaskId>, holders: map<ThreadId, TaskId>) {
    && (forall x :: ready[x] <= 1)
    && (forall x | x in ready :: x in queued)
    && (forall t | t in holders :: holders[t] in queued && holders[t] !in ready)
    && (forall t, u | t in holders && u in holders && t != u :: holders[t] != holders[u])
    && (forall x | x in queued :: x in ready || Held(holders, x))
  }

  /** The `queued` flag of a task is set exactly while it sits in one queue, once, or a waker holds it. */
  ghost predicate QueuesOk(s: State) {
    && |s.q.inline| <= NEXT_TASK_INLINE_CAP
    && s.tasks.queued <= s.tasks.spawned
    && FlagsOk(Ready(s.q, s.pc), s.tasks.queued, Holders(s.wakers))
  }

  predicate HoldsBatch(pc: SchedulerPc) {
    pc.Drain? || pc.Mark? || pc.AfterDrain? || pc.RunBatch? || pc.PollTask?
  }

  /** A task woken since its last poll started is on its way to the next one: flagged as queued or in the batch. */
  ghost predicate WakesOk(s: State) {
    && (forall x | x in s.tasks.woken && x !in s.tasks.finished :: x in s.tasks.queued || x in s.batch)
    && (!HoldsBatch(s.pc) ==> s.batch == [])
  }

  // ---------- The waiting handshake ----------

  /** From clearing `interrupt_pending` until driver.wait returns. */
  predicate Guarded(pc: SchedulerPc) {
    pc.SetWaiting? || pc.RecheckRoot? || pc.RecheckQueues? || pc.SpinBeforeWait? || pc.Waiting?
  }

  predicate Announced(pc: SchedulerPc) {
    pc.RecheckRoot? || pc.RecheckQueues? || pc.SpinBeforeWait? || pc.Waiting? || pc.CollectIo? || pc.StopWaiting?
  }

  /** Past the queue check with nothing woken since: the scheduler is committed to wait. */
  predicate Committed(pc: SchedulerPc) {
    (pc.SpinBeforeWait? && !pc.woke) || pc.Waiting?
  }

  ghost predicate InterruptSent(s: State) {
    s.sig.token || exists t :: t in s.wakers && s.wakers[t].Interrupting?
  }

  /** An interrupt is pending, or some waker is past its push and on its way to one. */
  ghost predicate InterruptComing(s: State) {
    s.sig.token || exists t :: t in s.wakers && !s.wakers[t].Pushing?
  }

  ghost predicate HandshakeOk(s: State) {
    && (s.sig.rootWoken ==> s.sig.rootReady)
    && (s.sig.waiting <==> Announced(s.pc))
    && (Guarded(s.pc) && s.sig.interruptPending ==> InterruptSent(s))
    && ((s.pc.RecheckQueues? || Committed(s.pc)) && s.sig.rootReady ==> InterruptComing(s))
    && (Committed(s.pc) && s.q.remote != [] ==> InterruptComing(s))
    && (Committed(s.pc) ==> s.q.inline == [] && s.q.local == [])
  }

  ghost predicate Inv(s: State) {
    QueuesOk(s) && WakesOk(s) && HandshakeOk(s)
  }

  // ---------- Steps keep the queues ----------

  lemma PushIsReady(a: seq<TaskId>, b: seq<TaskId>, c: seq<TaskId>, d: seq<TaskId>, x: TaskId)
    ensures ReadyOf(a + [x], b, c, d) == ReadyOf(a, b, c, d) + multiset{x}
    ensures ReadyOf(a, b + [x], c, d) == ReadyOf(a, b, c, d) + multiset{x}
    ensures ReadyOf(a, b, c + [x], d) == ReadyOf(a, b, c, d) + multiset{x}
  {}

  lemma PopIsMultiset(q: seq<TaskId>)
    requires q != []
    ensures multiset(q) == multiset(q[1..]) + multiset([q[0]])
  {
    assert q == [q[0]] + q[1..];
  }

  lemma PopStaysReady(q: Queues, phase: Phase)
    requires Queue(q, phase) != []
    ensures var q' := Popped(q, phase);
      ReadyOf(q'.inline, q'.remote, q'.local, [Queue(q, phase)[0]]) == ReadyOf(q.inline, q.remote, q.local, [])
  {
    PopIsMultiset(Queue(q, phase));
  }

  lemma MarkIsNotReady(a: seq<TaskId>, b: seq<TaskId>, c: seq<TaskId>, x: TaskId)
    ensures x in ReadyOf(a, b, c, [x]) && ReadyOf(a, b, c, []) == ReadyOf(a, b, c, [x]) - multiset{x}
  {}

  lemma HoldKeepsFlags(ready: multiset<TaskId>, queued: set<TaskId>, holders: map<ThreadId, TaskId>, t: ThreadId, x: TaskId)
    requires FlagsOk(ready, queued, holders) && x !in queued && t !in holders
    ensures FlagsOk(ready, queued + {x}, holders[t := x])
  {
    var holders' := holders[t := x];
    assert holders'[t] == x;
    forall y | y in queued && y !in ready ensures Held(holders', y) {
      var u :| u in holders && holders[u] == y;
      assert holders'[u] == y;
    }
  }

  lemma PushKeepsFlags(ready: multiset<TaskId>, queued: set<TaskId>, holders: map<ThreadId, TaskId>, t: ThreadId)
    requires FlagsOk(ready, queued, holders) && t in holders
    ensures FlagsOk(ready + multiset{holders[t]}, queued, holders - {t})
  {
    var x := holders[t];
    forall y | y in queued && y !in ready + multiset{x} ensures Held(holders - {t}, y) {
      assert y !in ready;
      var u :| u in holders && holders[u] == y;
      assert u in holders - {t};
    }
  }

  lemma EnqueueKeepsFlags(ready: multiset<TaskId>, queued: set<TaskId>, holders: map<ThreadId, TaskId>, x: TaskId)
    requires FlagsOk(ready, queued, holders) && x !in queued
    ensures FlagsOk(ready + multiset{x}, queued + {x}, holders)
  {}

  lemma DequeueKeepsFlags(ready: multiset<TaskId>, queued: set<TaskId>, holders: map<ThreadId, TaskId>, x: TaskId)
    requires FlagsOk(ready, queued, holders) && x in ready
    ensures FlagsOk(ready - multiset{x}, queued - {x}, holders)
  {}

  lemma HoldersAfter(wakers: map<ThreadId, WakerPc>, t: ThreadId, w: WakerPc)
    ensures Holders(wakers[t := w]) == if w.Pushing? then Holders(wakers)[t := w.task] else Holders(wakers) - {t}
    ensures Holders(wakers - {t}) == Holders(wakers) - {t}
    ensures !(t in wakers && wakers[t].Pushing?) ==> Holders(wakers) - {t} == Holders(wakers)
  {}

  lemma ForeignKeepsQueues(s: State, t: ThreadId)
    requires QueuesOk(s)
    ensures QueuesOk(Foreign(s, t))
  {
    hide FlagsOk, ReadyOf, Holders;
    if t in s.wakers {
      match s.wakers[t]
      case Pushing(x) =>
        HoldersAfter(s.wakers, t, Loading);
        HolderOf(s.wakers, t);
        PushKeepsFlags(Ready(s.q, s.pc), s.tasks.queued, Holders(s.wakers), t);
        PushIsReady(s.q.inline, s.q.remote, s.q.local, if s.pc.Mark? then [s.pc.task] else [], x);
      case Loading => HoldersAfter(s.wakers, t, Swapping);
      case Swapping => HoldersAfter(s.wakers, t, Interrupting);
      case Interrupting => HoldersAfter(s.wakers, t, Interrupting);
    }
  }

  lemma HolderOf(wakers: map<ThreadId, WakerPc>, t: ThreadId)
    ensures t in Holders(wakers) <==> t in wakers && wakers[t].Pushing?
    ensures t in Holders(wakers) ==> Holders(wakers)[t] == wakers[t].task
  {}

  lemma AfarKeepsQueues(s: State, t: ThreadId, x: TaskId)
    requires QueuesOk(s)
    ensures QueuesOk(WakeFromAfar(s, t, x))
    ensures QueuesOk(WakeRootFromAfar(s, t))
  {
    hide FlagsOk, ReadyOf, Holders;
    HoldersAfter(s.wakers, t, Loading);
    HoldersAfter(s.wakers, t, Pushing(x));
    if t !in s.wakers && x in s.tasks.spawned {
      if x in s.tasks.queued {
        assert s.tasks.queued + {x} == s.tasks.queued;
      } else {
        HolderOf(s.wakers, t);
        HoldKeepsFlags(Ready(s.q, s.pc), s.tasks.queued, Holders(s.wakers), t, x);
      }
    }
  }

  lemma LocalKeepsQueues(s: State, x: TaskId)
    requires QueuesOk(s)
    ensures QueuesOk(WakeLocally(s, x))
    ensures QueuesOk(WakeRootLocally(s))
    ensures QueuesOk(SpawnTask(s, x))
  {
    hide FlagsOk, ReadyOf, Holders;
    if x in s.tasks.queued {
      assert s.tasks.queued + {x} == s.tasks.queued;
    } else {
      EnqueueKeepsFlags(Ready(s.q, s.pc), s.tasks.queued, Holders(s.wakers), x);
      PushIsReady(s.q.inline, s.q.remote, s.q.local, if s.pc.Mark? then [s.pc.task] else [], x);
    }
  }

  lemma SchedulerKeepsQueues(s: State)
    requires QueuesOk(s)
    ensures QueuesOk(Scheduler(s))
  {
    hide FlagsOk, ReadyOf, Holders;
    if s.pc.Drain? {
      if s.pc.budget != 0 && Queue(s.q, s.pc.phase) != [] {
        PopStaysReady(s.q, s.pc.phase);
      }
    } else if s.pc.Mark? {
      MarkIsNotReady(s.q.inline, s.q.remote, s.q.local, s.pc.task);
      DequeueKeepsFlags(Ready(s.q, s.pc), s.tasks.queued, Holders(s.wakers), s.pc.task);
    }
  }

  lemma NextKeepsQueues(s: State, e: Event)
    requires QueuesOk(s)
    ensures QueuesOk(Next(s, e))
  {
    hide FlagsOk, ReadyOf, Holders, WakeFromAfar, WakeRootFromAfar, Foreign, WakeLocally, SpawnTask, Scheduler;
    match e
    case ForeignWake(t, x) => AfarKeepsQueues(s, t, x);
    case ForeignWakeRoot(t) => AfarKeepsQueues(s, t, 0);
    case ForeignStep(t) => ForeignKeepsQueues(s, t);
    case LocalWake(x) => LocalKeepsQueues(s, x);
    case LocalWakeRoot => LocalKeepsQueues(s, 0);
    case Spawn(x) => LocalKeepsQueues(s, x);
    case Advance => SchedulerKeepsQueues(s);
    case _ =>
  }

  // ---------- Steps keep the wakes ----------

  lemma SchedulerKeepsWakes(s: State)
    requires WakesOk(s)
    ensures WakesOk(Scheduler(s))
  {
    var s' := Scheduler(s);
    if s.pc.RunBatch? && s.batch != [] {
      assert s.batch == [s.batch[0]] + s'.batch;
    } else if s.pc.Mark? {
      assert s'.batch == s.batch + [s.pc.task];
    }
  }

  lemma NextKeepsWakes(s: State, e: Event)
    requires WakesOk(s)
    ensures WakesOk(Next(s, e))
  {
    if e.Advance? {
      SchedulerKeepsWakes(s);
    } else {
      hide Scheduler;
      var s' := Next(s, e);
      assert s'.batch == s.batch;
    }
  }

  // ---------- Steps keep the handshake ----------

  lemma ForeignKeepsHandshake(s: State, t: ThreadId)
    requires HandshakeOk(s)
    ensures HandshakeOk(Foreign(s, t))
  {
    var s' := Foreign(s, t);
    if t in s.wakers {
      if Guarded(s.pc) && s'.sig.interruptPending && !s'.sig.token {
        if s.sig.interruptPending {
          var u :| u in s.wakers && s.wakers[u].Interrupting?;
          assert u in s'.wakers && s'.wakers[u].Interrupting?;
        } else {
          assert s'.wakers[t].Interrupting?;
        }
      }
      if Announced(s.pc) && Guarded(s.pc) && !s'.sig.token && !s.wakers[t].Interrupting? {
        if t in s'.wakers {
          assert !s'.wakers[t].Pushing?;
        } else {
          // lost the swap: whoever won it is still on its way
          var u :| u in s.wakers && s.wakers[u].Interrupting?;
          assert u in s'.wakers && !s'.wakers[u].Pushing?;
        }
      }
    }
  }

  /** No step but a waker's own takes it off its way, and only a returning call consumes the token. */
  lemma NewWakerKeepsComing(s: State, s': State)
    requires s'.sig.token == s.sig.token
    requires forall t | t in s.wakers :: t in s'.wakers && s'.wakers[t] == s.wakers[t]
    ensures InterruptSent(s) ==> InterruptSent(s')
    ensures InterruptComing(s) ==> InterruptComing(s')
  {
    if InterruptSent(s) && !s.sig.token {
      var t :| t in s.wakers && s.wakers[t].Interrupting?;
      assert s'.wakers[t].Interrupting?;
    }
    if InterruptComing(s) && !s.sig.token {
      var t :| t in s.wakers && !s.wakers[t].Pushing?;
      assert !s'.wakers[t].Pushing?;
    }
  }

  lemma SchedulerKeepsHandshake(s: State)
    requires HandshakeOk(s)
    ensures HandshakeOk(Scheduler(s))
  {
    hide InterruptSent, InterruptComing, Control, DrainStep, MarkStep, BatchStep;
    if s.pc.Drain? || s.pc.Mark? || s.pc.RunBatch? {
      DrainKeepsHandshake(s);
    } else {
      ControlKeepsHandshake(s);
    }
  }

  lemma ControlKeepsHandshake(s: State)
    requires HandshakeOk(s)
    requires !s.pc.Drain? && !s.pc.Mark? && !s.pc.RunBatch?
    ensures HandshakeOk(ControlStep(s))
  {
    hide InterruptSent, InterruptComing;
    NewWakerKeepsComing(s, ControlStep(s));
  }

  lemma DrainKeepsHandshake(s: State)
    requires HandshakeOk(s)
    requires s.pc.Drain? || s.pc.Mark? || s.pc.RunBatch?
    ensures HandshakeOk(Scheduler(s))
  {}

  lemma LocalKeepsHandshake(s: State, x: TaskId)
    requires HandshakeOk(s)
    ensures HandshakeOk(WakeLocally(s, x))
    ensures HandshakeOk(WakeRootLocally(s))
    ensures HandshakeOk(SpawnTask(s, x))
  {
    hide InterruptSent, InterruptComing;
    NewWakerKeepsComing(s, WakeLocally(s, x));
    NewWakerKeepsComing(s, WakeRootLocally(s));
  }

  lemma AfarKeepsHandshake(s: State, t: ThreadId, x: TaskId)
    requires HandshakeOk(s)
    ensures HandshakeOk(WakeFromAfar(s, t, x))
    ensures HandshakeOk(WakeRootFromAfar(s, t))
  {
    hide InterruptSent, InterruptComing;
    NewWakerKeepsComing(s, WakeFromAfar(s, t, x));
    NewWakerKeepsComing(s, WakeRootFromAfar(s, t));
    if t !in s.wakers {
      LoaderIsComing(WakeRootFromAfar(s, t), t);
    }
  }

  lemma LoaderIsComing(s: State, t: ThreadId)
    requires t in s.wakers && !s.wakers[t].Pushing?
    ensures InterruptComing(s)
  {}

  /** A consumed token only matters outside the guarded region, which the returning call leaves. */
  lemma ReturnKeepsHandshake(s: State, consume: bool)
    requires HandshakeOk(s)
    ensures HandshakeOk(Returned(s, consume))
  {
    hide InterruptSent, InterruptComing;
    if Returned(s, consume).sig.token == s.sig.token {
      NewWakerKeepsComing(s, Returned(s, consume));
    }
  }

  lemma PollKeepsHandshake(s: State, done: bool)
    requires HandshakeOk(s)
    ensures HandshakeOk(PollReturns(s, done))
    ensures HandshakeOk(EnterLoop(s))
  {
    hide InterruptSent, InterruptComing;
    NewWakerKeepsComing(s, PollReturns(s, done));
  }

  lemma NextKeepsHandshake(s: State, e: Event)
    requires HandshakeOk(s)
    ensures HandshakeOk(Next(s, e))
  {
    hide HandshakeOk, WakeFromAfar, WakeRootFromAfar, Foreign, WakeLocally, SpawnTask, Scheduler, Returned, PollReturns;
    match e
    case ForeignWake(t, x) => AfarKeepsHandshake(s, t, x);
    case ForeignWakeRoot(t) => AfarKeepsHandshake(s, t, 0);
    case ForeignStep(t) => ForeignKeepsHandshake(s, t);
    case LocalWake(x) => LocalKeepsHandshake(s, x);
    case LocalWakeRoot => LocalKeepsHandshake(s, 0);
    case Spawn(x) => LocalKeepsHandshake(s, x);
    case Advance => SchedulerKeepsHandshake(s);
    case CallReturns(consume) => ReturnKeepsHandshake(s, consume);
    case Polled(done) => PollKeepsHandshake(s, done);
    case Enter => PollKeepsHandshake(s, true);
  }

  lemma {:induction false} AfterIsOk(batchSize: nat, events: seq<Event>)
    ensures Inv(After(batchSize, events))
  {
    if events != [] {
      hide QueuesOk, WakesOk, HandshakeOk, Next;
      var s := After(batchSize, events[..|events| - 1]);
      AfterIsOk(batchSize, events[..|events| - 1]);
      NextKeepsQueues(s, events[|events| - 1]);
      NextKeepsWakes(s, events[|events| - 1]);
      NextKeepsHandshake(s, events[|events| - 1]);
    }
  }

  // ---------- The theorems ----------

  /** What the invariant says about one task. */
  lemma Located(s: State, x: TaskId)
    requires QueuesOk(s) && x in s.tasks.queued
    ensures x in s.q.inline || x in s.q.remote || x in s.q.local || (s.pc.Mark? && s.pc.task == x)
      || Held(Holders(s.wakers), x)
  {}

  /**
   * No lost wakeup. For every number of foreign threads and every interleaving:
   * whenever the scheduler is blocked in driver.wait while the root is ready or
   * the remote queue holds a task, an interrupt is pending or some waker is past
   * its push and on its way to one; and if any unfinished task has been woken
   * since its last poll, at the least its waker is still in the middle of the wake.
   */
  lemma NoLostWakeup(batchSize: nat, events: seq<Event>)
    ensures var s := After(batchSize, events);
      && (s.pc.Waiting? && (s.sig.rootReady || s.q.remote != []) ==> InterruptComing(s))
      && (s.pc.Waiting? && (exists x :: x in s.tasks.woken && x !in s.tasks.finished) ==>
            s.sig.token || s.wakers != map[])
  {
    var s := After(batchSize, events);
    AfterIsOk(batchSize, events);
    hide After;
    if s.pc.Waiting? && exists x :: x in s.tasks.woken && x !in s.tasks.finished {
      var x :| x in s.tasks.woken && x !in s.tasks.finished;
      Located(s, x);
    }
  }

  /**
   * So the scheduler sleeps only when there is nothing to do: blocked, with no
   * interrupt pending and every waker finished, the root is not ready, all
   * three queues are empty and every woken task has finished.
   */
  lemma BlockedMeansIdle(batchSize: nat, events: seq<Event>)
    requires var s := After(batchSize, events); s.pc.Waiting? && !s.sig.token && s.wakers == map[]
    ensures var s := After(batchSize, events);
      && !s.sig.rootReady && s.q.inline == [] && s.q.remote == [] && s.q.local == []
      && s.tasks.woken <= s.tasks.finished
  {
    var s := After(batchSize, events);
    AfterIsOk(batchSize, events);
    NoLostWakeup(batchSize, events);
    hide After;
    forall x | x in s.tasks.woken ensures x in s.tasks.finished {}
  }

  /**
   * No wake is forgotten: in every reachable state a task woken
   * since its last poll started is in a ready queue, in the batch still to be
   * polled, just popped from a queue, or held by a waker about to push it; a
   * woken root is flagged ready; no task ever occupies two positions of the
   * three queues; and the inline queue never exceeds its capacity.
   */
  lemma WakesAreCovered(batchSize: nat, events: seq<Event>, x: TaskId)
    ensures var s := After(batchSize, events);
      && (x in s.tasks.woken && x !in s.tasks.finished ==>
            || x in s.q.inline || x in s.q.remote || x in s.q.local || x in s.batch
            || (s.pc.Mark? && s.pc.task == x) || Held(Holders(s.wakers), x))
      && (s.sig.rootWoken ==> s.sig.rootReady)
      && multiset(s.q.inline)[x] + multiset(s.q.remote)[x] + multiset(s.q.local)[x] <= 1
      && |s.q.inline| <= NEXT_TASK_INLINE_CAP
  {
    AfterIsOk(batchSize, events);
    var s := After(batchSize, events);
    hide After;
    assert Ready(s.q, s.pc)[x] <= 1;
    if x in s.tasks.queued {
      Located(s, x);
    }
  }

  /** A task in a waker's hands is in no queue and in no other waker's hands. */
  lemma OnePlaceOnly(batchSize: nat, events: seq<Event>, t: ThreadId, u: ThreadId)
    requires var s := After(batchSize, events); t in s.wakers && s.wakers[t].Pushing?
    ensures var s := After(batchSize, events); var x := s.wakers[t].task;
      && x in s.tasks.queued && x !in s.q.inline && x !in s.q.remote && x !in s.q.local
      && (u in s.wakers && u != t ==> s.wakers[u] != s.wakers[t])
  {
    AfterIsOk(batchSize, events);
    var s := After(batchSize, events);
    hide After;
    var hs := Holders(s.wakers);
    assert t in hs && hs[t] == s.wakers[t].task && hs[t] !in Ready(s.q, s.pc);
    if u in s.wakers && u != t && s.wakers[u].Pushing? {
      assert u in hs && hs[t] != hs[u];
    }
  }

  // ---------- How far away the interrupt is ----------

  function RunForeign(s: State, threads: seq<ThreadId>): State
    decreases |threads|
  {
    if threads == [] then s else RunForeign(Foreign(s, threads[0]), threads[1..])
  }

  /** One more step of thread t in front of a schedule. */
  lemma Prepend(s: State, t: ThreadId, threads: seq<ThreadId>)
    ensures RunForeign(s, [t] + threads) == RunForeign(Foreign(s, t), threads)
  {
    assert ([t] + threads)[1..] == threads;
  }

  /** While the scheduler waits, any waker in flight is at most four wakers' steps from an interrupt. */
  lemma InterruptIsNear(s: State, t: ThreadId) returns (threads: seq<ThreadId>)
    requires HandshakeOk(s) && s.pc.Waiting? && t in s.wakers
    ensures |threads| <= 4 && RunForeign(s, threads).sig.token
    ensures |threads| <= match s.wakers[t] case Pushing(_) => 4 case Loading => 3 case Swapping => 2 case Interrupting => 1
    decreases match s.wakers[t] case Pushing(_) => 3 case Loading => 2 case Swapping => 1 case Interrupting => 0
  {
    hide HandshakeOk, RunForeign;
    var s' := Foreign(s, t);
    ForeignKeepsHandshake(s, t);
    if s.wakers[t].Interrupting? {
      threads := [t];
      Prepend(s, t, []);
      NoSteps(s');
      assert [t] + [] == [t];
    } else if s.wakers[t].Swapping? && s.sig.interruptPending {
      threads := WinnerInterrupts(s);
    } else {
      WaitingIsAnnounced(s);
      var rest := InterruptIsNear(s', t);
      threads := [t] + rest;
      Prepend(s, t, rest);
    }
  }

  lemma NoSteps(s: State)
    ensures RunForeign(s, []) == s
  {}

  lemma WaitingIsAnnounced(s: State)
    requires HandshakeOk(s) && s.pc.Waiting?
    ensures s.sig.waiting
  {}

  /** Having lost the swap means that the winner has interrupted or is about to. */
  lemma WinnerInterrupts(s: State) returns (threads: seq<ThreadId>)
    requires HandshakeOk(s) && s.pc.Waiting? && s.sig.interruptPending
    ensures |threads| <= 1 && RunForeign(s, threads).sig.token
  {
    if s.sig.token {
      threads := [];
    } else {
      var u :| u in s.wakers && s.wakers[u].Interrupting?;
      threads := [u];
      Prepend(s, u, []);
      assert [u] + [] == [u];
    }
  }

  /** While the scheduler waits, the last waker to finish leaves an interrupt behind. */
  lemma ForeignKeepsWakers(s: State, t: ThreadId)
    requires HandshakeOk(s) && s.pc.Waiting? && (s.sig.token || s.wakers != map[])
    ensures var s' := Foreign(s, t); s'.pc.Waiting? && (s'.sig.token || s'.wakers != map[])
  {
    var s' := Foreign(s, t);
    if t in s.wakers && t !in s'.wakers && !s'.sig.token {
      var u :| u in s.wakers && s.wakers[u].Interrupting?;
      assert u in s'.wakers;
    }
  }

  lemma {:induction false} SettledWakersHaveInterrupted(s: State, threads: seq<ThreadId>)
    requires HandshakeOk(s) && s.pc.Waiting? && (s.sig.token || s.wakers != map[])
    ensures var s' := RunForeign(s, threads); s'.sig.token || s'.wakers != map[]
    decreases |threads|
  {
    if threads != [] {
      hide HandshakeOk;
      ForeignKeepsHandshake(s, threads[0]);
      ForeignKeepsWakers(s, threads[0]);
      SettledWakersHaveInterrupted(Foreign(s, threads[0]), threads[1..]);
    }
  }

  /**
   * Delivery: whenever the scheduler is blocked with the root ready or an
   * unfinished task woken, at most four steps of the wakers alone make the
   * interrupt pending that ends the wait; and every order of waker steps, once
   * no waker is left in the middle of a wake, has made it pending.
   */
  lemma BlockedSchedulerIsInterrupted(batchSize: nat, events: seq<Event>)
    requires var s := After(batchSize, events);
      s.pc.Waiting? && (s.sig.rootReady || exists x :: x in s.tasks.woken && x !in s.tasks.finished)
    ensures exists threads: seq<ThreadId> ::
      |threads| <= 4 && RunForeign(After(batchSize, events), threads).sig.token
    ensures forall threads: seq<ThreadId> ::
      var s' := RunForeign(After(batchSize, events), threads); s'.wakers == map[] ==> s'.sig.token
  {
    var s := After(batchSize, events);
    AfterIsOk(batchSize, events);
    NoLostWakeup(batchSize, events);
    hide After, RunForeign;
    forall threads: seq<ThreadId>
      ensures var s' := RunForeign(s, threads); s'.wakers == map[] ==> s'.sig.token
    {
      SettledWakersHaveInterrupted(s, threads);
    }
    if s.sig.token {
      NoSteps(s);
      var none: seq<ThreadId> := [];
      assert RunForeign(s, none).sig.token;
    } else {
      var t :| t in s.wakers;
      var threads := InterruptIsNear(s, t);
      assert |threads| <= 4 && RunForeign(s, threads).sig.token;
    }
  }
}
