# A verified model of the vibeio runtime

vibeio is a single-threaded asynchronous runtime: an executor with ready queues
that foreign threads may feed, a millisecond timer built on a hierarchical timing
wheel, an io_uring driver, and a set of byte-stream adapters. This project models
the parts of it that carry protocols and invariants, in Dafny, and proves what they
guarantee over every run. `dafny verify dfyconfig.toml` checks everything.

Each stateful part comes in two forms. The first is a state machine on values, with
its operations as functions, its runs as sequences of events, and its guarantees as
lemmas about every run. The second, where the code updates an object in place, is a
class whose methods have the loops and branches of the code; each method is proved
to compute the corresponding function. Clock readings, scheduling choices, kernel
answers and the sizes of partial reads and writes are parameters, so every result
holds for all of them.

| file | what it holds |
|---|---|
| `Prelude.dfy` | options, results, slab allocation, vectors without repetition |
| `WheelSpec.dfy`, `Wheel.dfy` | the timing wheel: meaning and run theorems; slab, slot vectors, lazy heap |
| `TimerSpec.dfy`, `Timers.dfy` | the timer driver and Sleep over a nanosecond clock |
| `TimerHistory.dfy` | what sleeps owe to their pollers, told from the events |
| `TimerRelease.dfy` | which timers outlive the sleep that scheduled them |
| `TimerLateness.dfy` | lateness by the clock, counted in spins |
| `ReadyQueues.dfy` | filling and draining the three ready queues, bounds on overtaking |
| `WakeProtocol.dfy`, `WakeProgress.dfy` | the `block_on` loop against any number of foreign wakers: safety; how soon a ready task is polled |
| `WakeHistory.dfy` | the same told from the events: every wake is followed by a poll, the loop keeps turning, idle it blocks |
| `UringSpec.dfy`, `UringProofs.dfy`, `UringDriver.dfy` | completion bookkeeping with an adversarial kernel and dropped operations |
| `UringWakes.dfy` | whom a drain wakes, and what they get for it |
| `UringPolls.dfy` | poll mode: when a waiter is lost, and when none is |
| `UringLeaks.dfy` | what dropped operations leave behind |
| `AsyncWrapSpec.dfy`, `AsyncWrapping.dfy` | the poll-based wrapper around an owned reader/writer |
| `Pumps.dfy` | sendfile, copy, positioned exact reads and writes |
| `Intervals.dfy` | periodic ticks in both missed-tick modes |

## Main results

- **Timing wheel.** "Advancing fires every due timer" is false: level-0 slots are
  chosen by remaining delay but swept by absolute tick. `AdvanceMissesADueTimer` is
  the witness, `AdvanceFiresAllDueIff` the exact condition. What does hold in every
  run is a bound: a timer is never live more than 61 ticks after its expiry
  (`BoundedLateness`), and the bound is reached (`LatenessIsTight`). From 63 ticks on
  an advance fires the whole due set. Timers fire at most once, never early, and
  a timer that is not removed has fired once the wheel is 62 ticks past its expiry. The
  slab, the slot vectors, the lazily cleaned heap and the cached minimum all implement
  one map from handles to expiries.
- **Lateness by the clock.** The wheel need not keep up with the clock: with a timer
  scheduled, it stands still through any number of spins exactly when they are less than
  a millisecond apart (`WheelStandsStillIff`, `FastSpinsFreeze`). So the bound counts
  spins: a timer still scheduled after k of them is at most 61 + k milliseconds overdue
  (`RealLateness`).
- **Sleep.** With any number of sleeps on one timer, no sleep completes and no waker
  runs a millisecond or more before the deadline last asked for, no sleep that answered
  Pending is stranded, and it is Ready once the clock has reached that deadline. "A completed sleep leaves no timer behind" is
  false (`CompletedSleepLeavesTimer`): a scheduled timer is held by no sleep exactly
  when some poll completed by the clock while holding it (`TimerIsLeftBehindIff`), and
  such a timer fires, waking in vain, within 62 ticks of its expiry.
- **Wake protocol.** For every interleaving with any number of threads, no wake in the
  list of events is forgotten: a woken task is in a queue, in the batch or in its waker's
  hands, never queued twice, a woken root is ready, and a blocked scheduler with work is at most four steps of its wakers
  away from an interrupt, which every completed schedule of theirs delivers.
- **Progress.** With a batch size B above eight, a ready task is drained once completed
  drains times B - 8 exceed the tasks ahead of it and the remote pushes since, and is
  handed to its poll one drain later (`ReadyTaskIsPolled`), for every interleaving; the
  root is polled before a second drain completes. While the loop is not left, a drain
  completes in every 4 B + 17 steps of the scheduler (`DrainsComeRegularly`).
  With a batch of eight or less, that many tasks waking themselves starve the main queue
  for ever (`SmallBatchStarves`); `DrainedIff` is the exact condition for every position.
- **Completions.** For every kernel order and every drop, slab entries without a
  result match the operations in flight one to one, an operation receives its own
  result once, and a buffer outlives its flight. An arrived completion wakes the
  operation by the waker of its last poll, and the next poll is Ready. Every buffer is
  in exactly one place (`BuffersAreConserved`). Slab entries can leak: exactly those
  whose operation was dropped after its completion was drained (`EntryIsLeakedIff`), and
  they stay for ever (`LeakIsForEver`).
- **Poll mode.** A registration awaited in both directions at once can strand its reader
  (`TwoDirectionsStrandReader`). Awaiting strands the task that waits in the other
  direction exactly when a poll is armed for that direction, unless it is the same task
  and the new poll is submitted (`AwaitStrandsIff`); whatever happens elsewhere, no
  completion wakes it. One direction at a time, no run strands anybody.
- **Streams.** What arrives is a prefix of what was sent, in order and without
  duplicates, under arbitrary partial reads and writes, and all of it on success; a pump
  fails, or ends early, exactly on the answer of a system call that makes it. A
  sendfile that fails or stalls drops the bytes it holds in its pipe, exactly those taken
  from the file and not sent. Three promises fail and have their exact condition: `copy`
  copies nothing from readers that go by the length of an empty buffer, an exact read
  into a growable buffer ends with its first read, and a write polled again with another
  buffer reports and writes the first.
- **Intervals.** Deadlines keep the cadence in both modes. Skip sleeps to the least instant
  after both now and the previous one. In CatchUp mode the code
  advances one period more than it reports each time it catches up, so "one tick per
  elapsed period" holds exactly when every call comes before its place in the cadence.

Where comments in the code and the code disagree, the model follows the code: when
CatchUp mode catches up, the deadline moves one period further than the ticks reported
(`vibeio/src/time/interval.rs:126-138`, `CatchUpReportsAllPeriodsIff`), and a Sleep that
completes by the clock drops its handle without cancelling, so that its timer stays
scheduled (`vibeio/src/time/sleep.rs:169-173`, `TimerIsLeftBehindIff`).

## Model

| member | source | states |
|---|---|---|
| WheelSpec.PlaceIsTheFit | vibeio/src/timer.rs:278-300 | the level and slot of a delay are the one pair whose span holds it, with the top level taking the rest |
| WheelSpec.FirstVisit | vibeio/src/timer.rs:185-206 | the first tick from a given one whose level-0 slot is the given slot, and the least such |
| WheelSpec.SweptMeansVisited | vibeio/src/timer.rs:183-206 | a slot counts as swept exactly when some tick of the closed interval maps to it |
| WheelSpec.SweepRanges | vibeio/src/timer.rs:185-206 | the three wrap-around cases of the code visit exactly the slots of the ticks from start to end |
| WheelSpec.AdvanceKeepsPlacement | vibeio/src/timer.rs:224-274 | a timer that survives an advance is placed by its remaining delay, or has not been visited since it was placed |
| WheelSpec.StepKeepsInv | vibeio/src/timer.rs:119-274 | every operation keeps the placement invariant: above level 0 exactly by remaining delay, at level 0 unvisited since placement |
| WheelSpec.RunKeepsInv | vibeio/src/timer.rs:119-274 | the placement invariant holds after every run |
| WheelSpec.LatenessFromPlacement | vibeio/src/timer.rs:224-291 | the invariant bounds how overdue a live timer can be, and level-0 timers expire within 64 ticks |
| WheelSpec.BoundedLateness | vibeio/src/timer.rs:170-274 | after any run a timer inserted with a positive delay is at most 61 ticks overdue, one inserted expired at most 62 ticks old |
| WheelSpec.LatenessIsTight | vibeio/src/timer.rs:170-291 | concrete runs that reach both bounds |
| WheelSpec.AdvanceIsExact | vibeio/src/timer.rs:170-274 | live before is live after plus fired, disjointly; fired are exactly the due timers above level 0 or in a visited slot; survivors keep waker and expiry |
| WheelSpec.AdvanceFiresAllDueIff | vibeio/src/timer.rs:188-206 | an advance fires all due timers if and only if no due level-0 timer is outside the swept slots |
| WheelSpec.LongAdvanceFiresAllDue | vibeio/src/timer.rs:188-192 | an advance of at least 63 ticks fires exactly the due set |
| WheelSpec.AdvanceMissesADueTimer | vibeio/src/timer.rs:185-206 | at tick 100 a timer due at 105 survives an advance of 5 |
| WheelSpec.SpentForever | vibeio/src/timer.rs:123-124 | a handle that is no longer live is never live again |
| WheelSpec.StaleRemoveIsNoOp | vibeio/src/timer.rs:147-165 | removing a spent handle, after any further operations and index reuse, changes nothing |
| WheelSpec.FiresOnceNeverEarly | vibeio/src/timer.rs:170-274 | in any run a timer fires at most once, not before its expiry, and is not live afterwards |
| WheelSpec.LeavesOnlyByFiringOrRemoval | vibeio/src/timer.rs:147-274 | a timer that is no longer live was removed by its handle or fired at some step |
| WheelSpec.IdentityIsKept | vibeio/src/timer.rs:240-243 | moving between slots never changes a timer's expiry, waker or insertion tick |
| WheelSpec.EveryTimerFires | vibeio/src/timer.rs:170-274 | a timer that is not removed has fired once the clock is 62 ticks past its expiry |
| Wheel.TakeKeepsPlaced | vibeio/src/timer.rs:227 | taking a slot's vector leaves every other entry in the vector of its level and slot |
| Wheel.FireKeepsPlaced | vibeio/src/timer.rs:231-234 | removing a taken entry keeps each entry in exactly one vector |
| Wheel.MoveKeepsPlaced | vibeio/src/timer.rs:236-244 | recording a new level and slot and pushing there keeps each entry in exactly one vector |
| Wheel.PushKeepsPlaced | vibeio/src/timer.rs:126-134 | inserting at a vacant index keeps each entry in exactly one vector |
| Wheel.DropKeepsPlaced | vibeio/src/timer.rs:154-161 | cutting an index out of its vector and slab keeps the others in place |
| Wheel.FreshTopIsNearest | vibeio/src/timer.rs:105-110 | a heap top that still matches its entry carries the least expiry of all live timers |
| Wheel.PopStale | vibeio/src/timer.rs:104-115 | popping stale items yields the least live expiry, or none if nothing is live, and loses no live item |
| Wheel.ProgressComposes | vibeio/src/timer.rs:217-249 | a timer moved into a slot visited later in the same advance ends where one visit would have put it |
| Wheel.ProgressIsAdvance | vibeio/src/timer.rs:170-213 | settling all levels above 0 and the swept slots is one advance of the specification |
| Wheel.TimingWheel.constructor | vibeio/src/timer.rs:61-70 | a new wheel is valid, empty and at tick 0 |
| Wheel.TimingWheel.IsEmpty | vibeio/src/timer.rs:74-76 | empty exactly when no timer is live |
| Wheel.TimingWheel.NearestWakeup | vibeio/src/timer.rs:87-90 | the least live expiry, with tick 0 reported as none |
| Wheel.TimingWheel.RefreshMinExpiration | vibeio/src/timer.rs:104-115 | the cached minimum becomes the least live expiry |
| Wheel.TimingWheel.CalculateLevelAndSlot | vibeio/src/timer.rs:278-300 | the loop finds the level and slot whose span holds the delay |
| Wheel.TimingWheel.Insert | vibeio/src/timer.rs:119-143 | adds one timer under a handle never used before; all representations and the cached minimum stay consistent |
| Wheel.TimingWheel.Remove | vibeio/src/timer.rs:147-165 | removes exactly the timer of the handle if it is live, otherwise nothing |
| Wheel.TimingWheel.Advance | vibeio/src/timer.rs:170-213 | new state and fired timers as specified; the wakers returned are those of the fired timers, once each |
| Wheel.TimingWheel.SweepLevel0 | vibeio/src/timer.rs:183-206 | the three cases visit exactly the swept slots |
| Wheel.TimingWheel.CascadeAllLevels | vibeio/src/timer.rs:217-221 | every slot above level 0 is settled |
| Wheel.TimingWheel.CascadeLevel | vibeio/src/timer.rs:224-249 | every slot of one level is settled |
| Wheel.TimingWheel.ProcessRange | vibeio/src/timer.rs:190-205 | the level-0 slots of a range are settled |
| Wheel.TimingWheel.SettleSlot | vibeio/src/timer.rs:252-274 | the timers of one slot are fired if due and placed by remaining delay otherwise, the others are untouched |
| Wheel.TimingWheel.SettleOne | vibeio/src/timer.rs:230-246 | one entry is fired or placed again, and its waker logged once |
| TimerSpec.SpinKeepsOnTime | vibeio/src/timer.rs:363-368 | dropping the fraction of a millisecond never brings a timer forward |
| TimerSpec.WakeIsNeverEarly | vibeio/src/timer.rs:368-372 | a waker run by a spin is less than a millisecond before its deadline |
| TimerSpec.PollKeepsOwn | vibeio/src/time/sleep.rs:139-199 | a poll is Ready no more than a millisecond early, or leaves the sleep armed with the new waker |
| TimerSpec.PollKeepsOthers | vibeio/src/time/sleep.rs:179-192 | polling one sleep leaves the timers of all others alone |
| TimerSpec.EventKeepsSystem | vibeio/src/time/sleep.rs:97-211 | ticks, spins, creation, polls, resets and drops keep the system invariant |
| TimerSpec.StateHonoursWishes | vibeio/src/time/sleep.rs:50-110 | the deadline and zero behaviour stored are those last asked for in the list of events, and the clock readings are the time passed |
| TimerSpec.SleepIsNeverEarly | vibeio/src/time/sleep.rs:139-199 | in every run, Ready implies the clock is past the deadline last asked for minus one millisecond |
| TimerSpec.WakesAreNeverEarly | vibeio/src/timer.rs:348-383 | in every run, a fired timer's submitted deadline is less than a millisecond ahead |
| TimerSpec.NoStrandedSleeper | vibeio/src/time/sleep.rs:151-198 | after any run a pending sleep has a live entry with its latest waker, or that waker has been run: by the timer for this handle, or during the poll itself |
| TimerSpec.WokenSleepCompletes | vibeio/src/time/sleep.rs:114-198 | a sleep whose timer or yield has woken it is Ready on the next poll |
| TimerHistory.PendingAreWaiters | vibeio/src/time/sleep.rs:139-199 | the sleeps pending are those whose last event is a poll that answered Pending, with that poll's waker |
| TimerHistory.DeliveredMeansWoken | vibeio/src/timer.rs:368-372 | a timer counts as delivered only if some spin of the run fired it and ran that waker |
| TimerHistory.WaiterIsServed | vibeio/src/time/sleep.rs:151-198 | a waiting sleep has a scheduled timer with the waker of its last poll, or that waker has been run by a spin or by the poll |
| TimerHistory.WaiterIsReadyWhenDue | vibeio/src/time/sleep.rs:166-174 | a waiting sleep is Ready at any poll once the clock has reached the deadline last asked for |
| TimerHistory.FirstPoll | vibeio/src/time/sleep.rs:114-164 | a first poll schedules if a millisecond is left since the last spin; else Immediate is Ready, and Yield pends once with its waker run and is Ready next |
| TimerRelease.CompletedSleepLeavesTimer | vibeio/src/time/sleep.rs:169-173 | a four-event run after which a completed sleep's timer is still scheduled and nobody holds its handle |
| TimerRelease.ReadyLeavesTimerIff | vibeio/src/time/sleep.rs:169-199 | a completing poll leaves its timer scheduled if and only if the timer is live and the clock has reached the deadline |
| TimerRelease.StepAbandonsIff | vibeio/src/time/sleep.rs:97-211 | one event leaves a timer unheld if and only if it was unheld before or the event is such a poll |
| TimerRelease.TimerIsLeftBehindIff | vibeio/src/time/sleep.rs:97-211 | after any run a scheduled timer is held by no sleep if and only if some earlier poll completed by the clock while holding it |
| TimerRelease.OrphanStays | vibeio/src/timer.rs:368-372 | through any further run a timer left behind stays unheld and unchanged, or its waker has been run |
| TimerRelease.LeftBehindTimerFires | vibeio/src/timer.rs:348-383 | a timer left behind has run its waker and is gone once the wheel is 62 ticks past its expiry |
| TimerLateness.WheelStandsStillIff | vibeio/src/timer.rs:363-368 | with a timer scheduled, turns of any lengths leave the wheel unmoved if and only if each is below a millisecond, while the clock advances by their sum |
| TimerLateness.FastSpinsFreeze | vibeio/src/timer.rs:363-368 | a sleep of 10 milliseconds stays scheduled through any number of spins 999999 nanoseconds apart |
| TimerLateness.SpinPutsOff | vibeio/src/timer.rs:363-368 | a spin puts the instant a timer aims at off by less than a millisecond, and never forward |
| TimerLateness.PutOffBySpins | vibeio/src/timer.rs:326-383 | over any run a scheduled timer is put off by at most a millisecond for every spin |
| TimerLateness.RealLateness | vibeio/src/timer.rs:326-383 | a timer still scheduled after a run with k spins is, at the last of them, at most 61 + k milliseconds past the deadline asked for |
| Timers.Timer.constructor | vibeio/src/timer.rs:318-323 | an empty timer at the given clock reading |
| Timers.Timer.Submit | vibeio/src/timer.rs:326-339 | schedules for the whole milliseconds left, or wakes at once when there is less than one |
| Timers.Timer.Cancel | vibeio/src/timer.rs:342-345 | removes exactly the timer of the handle |
| Timers.Timer.SpinAndGetDeadline | vibeio/src/timer.rs:348-383 | advances by the elapsed milliseconds, wakes each fired timer once, and reports the distance to the nearest expiry, at least one |
| Timers.FiredWakers | vibeio/src/timer.rs:368-372 | the wakers run are, with multiplicity, those of the fired timers |
| Timers.Sleep.constructor | vibeio/src/time/sleep.rs:50-88 | a new sleep is unscheduled |
| Timers.Sleep.Reset | vibeio/src/time/sleep.rs:97-110 | stores the new deadline, forgets completion and yield, and cancels the old timer |
| Timers.Sleep.Drop | vibeio/src/time/sleep.rs:203-211 | cancels an outstanding timer |
| Timers.Sleep.HandleImmediateWakeup | vibeio/src/time/sleep.rs:114-133 | Ready exactly if Immediate or already yielded; otherwise yields once with its waker woken |
| Timers.Sleep.Poll | vibeio/src/time/sleep.rs:139-199 | first schedule, completion by the clock, and re-registration, as specified |
| WakeProtocol.ForeignKeepsQueues | vibeio/src/task.rs:102-116 | a foreign waker's step keeps a queued task in one place |
| WakeProtocol.AfarKeepsQueues | vibeio/src/task.rs:102-106 | the swap of the queued flag lets one waker hold the task |
| WakeProtocol.LocalKeepsQueues | vibeio/src/task.rs:77-100 | a wake on the scheduler's thread queues a task once, inline up to eight |
| WakeProtocol.SchedulerKeepsQueues | vibeio/src/executor.rs:586-621 | popping and marking keep flag and queue membership in step |
| WakeProtocol.SchedulerKeepsWakes | vibeio/src/executor.rs:809-821 | a woken task stays queued or in the batch until its poll starts |
| WakeProtocol.ForeignKeepsHandshake | vibeio/src/task.rs:108-115 | loading waiting, swapping the pending flag and interrupting leave no window in which a wake is lost |
| WakeProtocol.ControlKeepsHandshake | vibeio/src/executor.rs:753-807 | clearing, announcing, rechecking and stopping keep the handshake |
| WakeProtocol.AfterIsOk | vibeio/src/executor.rs:737-830 | all invariants hold after every run |
| WakeProtocol.NoLostWakeup | vibeio/src/executor.rs:753-829 | blocked with the root ready or a remote task queued, an interrupt is pending or a waker is past its push; with any woken task, its waker is at least under way |
| WakeProtocol.BlockedMeansIdle | vibeio/src/executor.rs:778-806 | blocked with no interrupt and no waker under way, there is nothing to do |
| WakeProtocol.WakesAreCovered | vibeio/src/task.rs:77-121 | a woken unfinished task is queued, popped, held by its waker or in the batch, never queued twice; a woken root is ready; the inline queue holds at most eight |
| WakeProtocol.OnePlaceOnly | vibeio/src/task.rs:102-106 | a task held by a waker is in no queue and held by no other waker |
| WakeProtocol.InterruptIsNear | vibeio/src/task.rs:108-115 | any waker under way is at most four waker steps from a pending interrupt |
| WakeProtocol.SettledWakersHaveInterrupted | vibeio/src/task.rs:108-115 | while the scheduler waits, no order of waker steps ends with every waker finished and no interrupt pending |
| WakeProtocol.BlockedSchedulerIsInterrupted | vibeio/src/executor.rs:215-224 | a blocked scheduler with work can get its interrupt within four steps of its wakers, and has it after every schedule in which they finish |
| WakeProgress.NextKeepsDrain | vibeio/src/executor.rs:586-603 | inline tasks never use up the share of the other queues in a drain, and are gone once passed |
| WakeProgress.StepBringsCloser | vibeio/src/executor.rs:586-621 | no step but a remote push puts more work ahead of a ready task, and each completed drain removes B - 8 of it |
| WakeProgress.BatchIsServed | vibeio/src/executor.rs:809-821 | a drained task stays in the batch until it is polled, and no drain starts before that |
| WakeProgress.RunKeepsSchedule | vibeio/src/executor.rs:753-829 | over any run a ready task has been reached, or the drains completed are within the work that was ahead of it |
| WakeProgress.ReadyTaskIsPolled | vibeio/src/executor.rs:753-829 | with B above eight a ready task is drained once drains times B - 8 exceed what was ahead and the remote pushes since, and handed to its poll one drain later |
| WakeProgress.WokenTaskIsPolled | vibeio/src/task.rs:77-121 | a woken unfinished task out of its waker's hands is handed to its poll, within a bound on completed drains |
| WakeProgress.MainQueueIsReached | vibeio/src/executor.rs:605-620 | without remote pushes, position p of the main queue is drained within p / (B - 8) + 1 drains of the protocol |
| WakeProgress.DrainIsDrainReady | vibeio/src/executor.rs:586-621 | undisturbed, the pops and marks of the protocol move exactly the batch of the queue model and clear its flags |
| WakeHistory.StateTellsTasks | vibeio/src/task.rs:77-121 | the tasks spawned, finished and woken since their last poll are those the list of events says |
| WakeHistory.StateTellsRoot | vibeio/src/executor.rs:205-260 | the root counts as woken exactly if some event woke it and no poll of it has begun since |
| WakeHistory.NoWakeIsForgotten | vibeio/src/task.rs:77-121 | a task that some event woke, unfinished and not taken up since, is queued, popped, in the batch or held by its waker; a root so woken is ready |
| WakeHistory.BlockedMeansServed | vibeio/src/executor.rs:778-806 | blocked with no interrupt and no waker under way, every woken task has finished or been taken up, and so has the root |
| WakeHistory.EveryWakeIsPolled | vibeio/src/executor.rs:753-829 | a task that some event woke is polled, or has finished, within a bound on completed drains |
| WakeHistory.EveryRootWakeIsPolled | vibeio/src/executor.rs:754-759 | a root that some event woke is polled before a second drain completes |
| WakeHistory.LoopEndsIff | vibeio/src/executor.rs:755-758 | the loop is left by a poll of the root that is done, and by nothing else |
| WakeHistory.DrainsComeRegularly | vibeio/src/executor.rs:753-829 | while the loop is not left, a drain completes in every 4 B + 17 steps of the scheduler |
| WakeHistory.IdleSchedulerBlocks | vibeio/src/executor.rs:775-801 | with nothing to do the scheduler is blocked twelve steps from the head of the loop |
| WakeHistory.BatchesAreFlushed | vibeio/src/executor.rs:809-828 | between a polled task and the head of the loop the driver is flushed |
| WakeHistory.WakeBegins | vibeio/src/task.rs:102-111 | every wake from an idle thread takes it up, and it pushes exactly if the task was not queued |
| WakeHistory.WakeEnds | vibeio/src/task.rs:102-116 | a wake is over after four steps of its thread |
| WakeHistory.SwapsOnlyWhileWaiting | vibeio/src/task.rs:111-112 | a waker goes on past its push exactly while the scheduler has announced a wait |
| WakeHistory.OneInterruptAtATime | vibeio/src/task.rs:111-115 | between two clears of the pending flag at most one of any number of wakers interrupts |
| WakeHistory.ArrivalsAgree | vibeio/src/task.rs:77-98 | wakes and spawns on the scheduler's thread change the protocol's queues as the queue model says |
| ReadyQueues.DrainTakesPrefix | vibeio/src/executor.rs:586-621 | batch followed by what is left is the old content in order, and the batch is as large as the budget allows |
| ReadyQueues.RuntimeQueues.constructor | vibeio/src/executor.rs:667-675 | the queues start empty |
| ReadyQueues.RuntimeQueues.Spawn | vibeio/src/executor.rs:573-579 | a spawned task goes to the end of the main queue, flagged |
| ReadyQueues.RuntimeQueues.EnqueueIfNeeded | vibeio/src/task.rs:77-100 | a task not yet queued goes inline while there is room for it, otherwise to the main queue; one already queued stays once |
| ReadyQueues.RuntimeQueues.DrainReady | vibeio/src/executor.rs:586-621 | the three loops take the prefix and clear its flags |
| ReadyQueues.ReachedWithin | vibeio/src/executor.rs:586-621 | with budget above eight every drain takes at least the excess from the main queue |
| ReadyQueues.ArrivalOrder | vibeio/src/executor.rs:573-579 | a spawned task goes to the end of the drain order; a woken one ahead of the remote and main queue while there is room inline |
| ReadyQueues.SpawnedIsDrainedLast | vibeio/src/executor.rs:573-621 | any run that drains a spawned task drains everything that was in the main queue before it |
| ReadyQueues.BoundedOvertaking | vibeio/src/executor.rs:573-621 | a task at position p is drained within p / (budget - 8) + 1 drains when no remote tasks arrive, whatever is woken or spawned between drains |
| ReadyQueues.DrainedIff | vibeio/src/executor.rs:586-621 | with no remote tasks, position p of the main queue is drained in a run if and only if the budget left by the inline queue, added up over its drains, exceeds p |
| ReadyQueues.HeadStarvesIff | vibeio/src/executor.rs:586-621 | the head of the main queue starves if and only if the inline queue uses up every batch |
| ReadyQueues.SmallBatchStarves | vibeio/src/task.rs:77-98 | with a budget of at most eight, that many tasks waking themselves every round are all that any number of drains takes |
| UringSpec.KeysAreSound | vibeio/src/driver/uring.rs:129-146 | a token survives encoding in both kinds and avoids the reserved keys if and only if it is below 2^63 - 1 |
| UringSpec.EncodeIsInjective | vibeio/src/driver/uring.rs:129-136 | keys of such tokens never collide |
| UringProofs.PushKeepsInv | vibeio/src/driver/uring.rs:171-187 | pushing a poll, timeout or interrupt entry keeps the invariant |
| UringProofs.SubmitKeepsInv | vibeio/src/driver/uring.rs:605-633 | a submission under a vacant token keeps the invariant |
| UringProofs.TakeResultKeepsInv | vibeio/src/driver/uring.rs:636-643 | the result taken is the kernel's answer to that submission, for the first time |
| UringProofs.WaitKeepsInv | vibeio/src/driver/uring.rs:646-651 | re-registering the waker keeps the invariant |
| UringProofs.DropKeepsInv | vibeio/src/op/read.rs:307-326 | dropping an operation in any state keeps the invariant |
| UringProofs.DrainCompletionKeepsInv | vibeio/src/driver/uring.rs:353-367 | draining a completion stores its result or releases the parked buffer |
| UringProofs.RoomKeepsInv | vibeio/src/driver/uring.rs:174-176 | the kernel taking entries off the submission queue keeps the invariant |
| UringProofs.PushIsAcceptedIff | vibeio/src/driver/uring.rs:171-184 | a push is refused exactly when the queue is full and the submit fails or makes no room |
| UringProofs.SubmissionsAreHandedOver | vibeio/src/driver/uring.rs:203-270 | the submitting half of a collection loses nothing, hands over as much as the call takes, and fails exactly if the call or the timeout's push does |
| UringProofs.SubmitPollKeepsInv | vibeio/src/driver/uring.rs:530-602 | awaiting a handle in poll mode keeps the invariant |
| UringProofs.CollectKeepsInv | vibeio/src/driver/uring.rs:271-290 | draining everything and arming the interrupt again keeps the invariant |
| UringProofs.EntriesMatchFlights | vibeio/src/driver/uring.rs:299-371 | after any run, entries without a result and completions in flight are in bijection |
| UringProofs.TokensAreNotReusedInFlight | vibeio/src/driver/uring.rs:609-611 | a vacant token is never one in flight |
| UringProofs.OwnResultOnce | vibeio/src/op/read.rs:149-198 | an operation gets the answer to its own submission, once |
| UringProofs.BuffersOutliveFlights | vibeio/src/op/read.rs:307-327 | a buffer in flight belongs to its live operation or is parked under its token, and is not released |
| UringProofs.ReleasedBuffersAreUnused | vibeio/src/driver/uring.rs:353-364 | a released buffer is in no flight, operation or slab entry |
| UringProofs.NoStrandedOperation | vibeio/src/op/write.rs:148-159 | a waiting operation has its latest waker registered or its result ready |
| UringProofs.InterruptStaysArmed | vibeio/src/driver/uring.rs:374-397 | between collections exactly one interrupt read is outstanding |
| UringWakes.WakersAreTheWaiters | vibeio/src/driver/uring.rs:299-371 | the wakers a drain collects are the waiters of the queue's entries, in order, read off queue, slab and registrations before the drain |
| UringWakes.WakerIsLast | vibeio/src/op/read.rs:157-167 | the waker of a waiting operation is that of its last poll |
| UringWakes.FinishedOperationIsWoken | vibeio/src/driver/uring.rs:353-367 | after any run, a drain wakes every operation whose completion has arrived, by the waker of its last poll |
| UringWakes.FinishedOperationGetsResult | vibeio/src/driver/uring.rs:636-643 | after the collection its next poll is Ready with the kernel's answer to its own submission |
| UringPolls.PollWakesWaiterIff | vibeio/src/driver/uring.rs:328-351 | a finished poll wakes the waiter of a direction if and only if that direction was the last one asked for, or both waiters are the same task |
| UringPolls.PollTakesWaiterIff | vibeio/src/driver/uring.rs:328-346 | a finished poll disarms exactly the direction last asked for, and with both asked for the reader as well |
| UringPolls.TwoDirectionsStrandReader | vibeio/src/driver/uring.rs:558-575 | a run that awaits reading then writing and ends with the reader waiting, no poll outstanding, and a further await submitting none |
| UringPolls.DrainKeepsPollers | vibeio/src/driver/uring.rs:328-351 | draining an entry disarms the registration it names, and no other loses its outstanding poll |
| UringPolls.AwaitStrandsOther | vibeio/src/driver/uring.rs:558-600 | in every run, awaiting over an armed poll of the other direction leaves its waiter, another task, stranded: no later completion wakes it and awaiting again submits no poll, until the registration is touched |
| UringPolls.AwaitStrandsIff | vibeio/src/driver/uring.rs:558-600 | after a run that awaits one direction at a time, an await strands the other direction's waiter for good if and only if that direction is armed, unless the waiter is the caller and the new poll is submitted |
| UringPolls.OneDirectionStrandsNobody | vibeio/src/driver/uring.rs:328-602 | after any run that awaits one direction at a time, a waiter has a poll outstanding and the next completion for its token wakes it |
| UringLeaks.StepLeaksIff | vibeio/src/driver/uring.rs:353-364 | an event leaves a leaked entry if and only if it was leaked before or the event drops its operation with the result already stored |
| UringLeaks.DropLeaksIff | vibeio/src/driver/uring.rs:654-659 | dropping an operation leaks its entry if and only if its result is already there |
| UringLeaks.EntryIsLeakedIff | vibeio/src/driver/uring.rs:353-364 | after any run an entry is leaked if and only if some earlier drop came after the completion was drained |
| UringLeaks.LeakIsForEver | vibeio/src/driver/uring.rs:353-364 | through any further run a leaked entry stays and its buffer is not released |
| UringLeaks.BuffersAreConserved | vibeio/src/op/read.rs:307-327 | after any run each operation ever made has its buffer in exactly one place: live, parked, released, or taken back |
| UringLeaks.OutsideDropReleasesInUseIff | vibeio/src/op/read.rs:310-325 | a drop with no driver at hand releases a buffer in use if and only if the operation's completion is outstanding |
| UringDriver.Uring.constructor | vibeio/src/driver/uring.rs:92-116 | a new driver has just the interrupt read outstanding |
| UringDriver.Uring.PushEntry | vibeio/src/driver/uring.rs:171-187 | a full queue is submitted first; appends one entry unless that call fails or makes no room |
| UringDriver.Uring.SubmitInterrupt | vibeio/src/driver/uring.rs:374-397 | submits the interrupt read, or reports the failure on which the code panics |
| UringDriver.Uring.SubmitCompletion | vibeio/src/driver/uring.rs:605-633 | a vacant token, one entry under its key and a fresh slab entry; if the entry cannot be built or pushed, no token and no slab entry |
| UringDriver.Uring.RegisterPoll | vibeio/src/driver/uring.rs:453-471 | a vacant token for a registration without waiters |
| UringDriver.Uring.SubmitPoll | vibeio/src/driver/uring.rs:530-602 | replaces waiter and interest; pushes a poll unless that direction is armed; a failed push clears the interest's waiters |
| UringDriver.Uring.GetCompletionResult | vibeio/src/driver/uring.rs:636-643 | takes the result and its entry, if there is one |
| UringDriver.Uring.SetCompletionWaker | vibeio/src/driver/uring.rs:646-651 | the entry's waiter becomes the given waker |
| UringDriver.Uring.IgnoreCompletion | vibeio/src/driver/uring.rs:654-659 | the entry keeps the buffer |
| UringDriver.Uring.HandleCqe | vibeio/src/driver/uring.rs:312-368 | one completion queue entry: interrupt, timeout, finished poll, stored result or released buffer; a completion yields the waiter of its slab entry |
| UringDriver.Uring.DrainCq | vibeio/src/driver/uring.rs:299-371 | the loop absorbs the whole queue and collects the wakers in order |
| UringDriver.Uring.Call | vibeio/src/driver/uring.rs:161-168 | a submit call: the kernel takes entries and finishes operations; busy and timeout are no errors |
| UringDriver.Uring.CollectCompletions | vibeio/src/driver/uring.rs:198-292 | submits, pushing a timeout where needed; fails before draining with the error of the push or the call; otherwise drains and arms the interrupt again if it was met |
| UringDriver.CompletionOp.constructor | vibeio/src/op/read.rs:72-80 | a new operation has no token |
| UringDriver.CompletionOp.PollCompletion | vibeio/src/op/read.rs:149-198 | submits, waits or takes the result; a successful read sets the buffer length |
| UringDriver.CompletionOp.Drop | vibeio/src/op/write.rs:283-302 | parks the buffer of an operation in flight if there is a current driver, frees it otherwise |
| UringDriver.Outcome | vibeio/src/op/write.rs:171-174 | inverts the kernel's encoding: the one outcome with a positive error code that is encoded as this number |
| AsyncWrapSpec.HandOutSplits | vibeio/src/util/async_wrap.rs:94-106 | bytes handed out and bytes kept are the pending bytes, split at the room available |
| AsyncWrapSpec.ReadKeepsLog | vibeio/src/util/async_wrap.rs:78-152 | every read poll keeps delivered plus buffered equal to produced, and one holder |
| AsyncWrapSpec.RunWriteTakesPrefix | vibeio/src/util/async_wrap.rs:178-196 | the write future takes its buffer from the front and succeeds only with all of it |
| AsyncWrapSpec.WriteKeepsLog | vibeio/src/util/async_wrap.rs:160-204 | every write poll keeps the accepted bytes a prefix of what was offered, and one holder |
| AsyncWrapSpec.NextKeepsLog | vibeio/src/util/async_wrap.rs:78-227 | reads, writes and flushes keep the log invariant |
| AsyncWrapSpec.After | vibeio/src/util/async_wrap.rs:78-227 | after any run exactly one place holds the inner object, and the read and write logs agree |
| AsyncWrapSpec.ReadsAreTransparent | vibeio/src/util/async_wrap.rs:78-152 | over any run, delivered bytes and remainder are the inner reader's bytes in order |
| AsyncWrapSpec.EmptyReadMeansEof | vibeio/src/util/async_wrap.rs:83-148 | a request with room yields nothing only if an inner read just returned nothing |
| AsyncWrapSpec.ReadAnswers | vibeio/src/util/async_wrap.rs:78-152 | in every reachable state a read answers from the remainder if there is one, else what the inner read answers, cut to the room, errors as they are |
| AsyncWrapSpec.FlushAnswers | vibeio/src/util/async_wrap.rs:207-227 | a flush answers the inner flush's own result |
| AsyncWrapSpec.WriteFailsAsInner | vibeio/src/util/async_wrap.rs:189-192 | an inner error before the buffer is written ends the write with that error |
| AsyncWrapSpec.WritesAreComplete | vibeio/src/util/async_wrap.rs:160-204 | a successful write has handed over its whole buffer, after all earlier bytes |
| AsyncWrapSpec.WriteFinishesIff | vibeio/src/util/async_wrap.rs:182-194 | the write loop ends if and only if an inner write fails or the inner writes add up to the buffer |
| AsyncWrapSpec.ZeroWritesNeverFinish | vibeio/src/util/async_wrap.rs:182-194 | any number of inner writes of nothing leaves the loop where it was |
| AsyncWrapSpec.CountIsForThisBufferIff | vibeio/src/util/async_wrap.rs:171-203 | a successful write reports the length of its own buffer if and only if no write was pending or the pending buffer is as long |
| AsyncWrapSpec.BytesAreForThisBufferIff | vibeio/src/util/async_wrap.rs:171-203 | a successful write has written its own buffer if and only if no write was pending or the pending buffer is the same |
| AsyncWrapSpec.RepollReportsFirstBuffer | vibeio/src/util/async_wrap.rs:171-203 | a write of one byte that reports two |
| AsyncWrapSpec.BusyMeansHeldElsewhere | vibeio/src/util/async_wrap.rs:115-215 | the busy error appears exactly when another operation holds the inner object |
| AsyncWrapping.AsyncWrap.constructor | vibeio/src/util/async_wrap.rs:62-70 | a new wrapper holds the inner object itself |
| AsyncWrapping.AsyncWrap.PollRead | vibeio/src/util/async_wrap.rs:78-152 | as specified, branch by branch |
| AsyncWrapping.AsyncWrap.WriteAll | vibeio/src/util/async_wrap.rs:178-196 | the loop of the write future |
| AsyncWrapping.AsyncWrap.PollWrite | vibeio/src/util/async_wrap.rs:160-204 | as specified, branch by branch |
| AsyncWrapping.AsyncWrap.PollFlush | vibeio/src/util/async_wrap.rs:207-227 | moves the inner object out and back; the answer is the inner result |
| Pumps.SendfileExact | vibeio/src/io/sendfile.rs:32-60 | socket and pipe hold the bytes taken, in order; fails exactly on an error answer, with it; ends early exactly on a zero answer of the socket; else has moved all up to the length or the end of file |
| Pumps.SendfilePoll | vibeio/src/io/sendfile.rs:64-86 | the socket receives a prefix of the file from the offset; fails exactly on an error answer; success means the length or the end of file was reached |
| Pumps.Unread | vibeio/src/io/buf.rs:276-290 | the bytes past the cursor, which complete the bytes before it |
| Pumps.WriteChunk | vibeio/src/io/util.rs:48-60 | the writer receives exactly the bytes its answers took; fails exactly on an answer that moves nothing |
| Pumps.Copy | vibeio/src/io/util.rs:31-71 | the writer holds a prefix of the source at every exit; fails exactly if a read, a write or the flush does; success means all of it with the saturated count, or nothing when the reader goes by the length of the empty buffer |
| Pumps.Brings | vibeio/src/fs/file.rs:241-244 | a read brings nothing exactly if there is nothing, or the reader goes by a length of zero |
| Pumps.OverlayReadsBack | vibeio/src/fs/file.rs:343-358 | written data reads back, the rest of the file is unchanged, a gap is zero |
| Pumps.OverlayComposes | vibeio/src/fs/file.rs:409-411 | two adjoining partial writes are one write |
| Pumps.WriteExactAt | vibeio/src/fs/file.rs:389-415 | success leaves exactly the buffer at the offset; it fails exactly on a reply that moves nothing, with that error, leaving the bytes taken so far |
| Pumps.ReadExactAt | vibeio/src/fs/file.rs:287-313 | succeeds exactly when the buffer is full, with the file's bytes; fails exactly on an error answer or a file too short |
| Pumps.ReadExactAtGrowable | vibeio/src/fs/file.rs:287-313 | on a growable buffer read by the ring a successful call has made one read, and the buffer holds just what it brought |
| Intervals.AdvancePast | vibeio/src/time/interval.rs:72-91 | the loop reaches the closed-form target, including its iteration limit |
| Intervals.SkipPicksTheNextInstant | vibeio/src/time/interval.rs:71-91 | Skip picks the least instant of the cadence after now, and one after now exactly when the count fits the loop counter |
| Intervals.CatchUpCountsIff | vibeio/src/time/interval.rs:118-138 | a call that catches up reports the instants due by now and stores the second one after, exactly when their number fits the counter |
| Intervals.ZeroPeriod | vibeio/src/time/interval.rs:75-124 | with a period of zero a tick reports one and stays where the clock is |
| Intervals.Interval.constructor | vibeio/src/time/interval.rs:39-45 | a new interval has no deadline and skips missed ticks |
| Intervals.Interval.DoTick | vibeio/src/time/interval.rs:64-142 | both modes compute the specified deadline, count and instant to sleep to; the next deadline is a period after that instant |
| Intervals.CadenceIsKept | vibeio/src/time/interval.rs:64-142 | over any run in any mix of modes every deadline is the first plus whole periods |
| Intervals.SkipSleepsToTheNextInstant | vibeio/src/time/interval.rs:71-104 | over a run in Skip mode each call reports one tick and sleeps to the least instant of the cadence after both now and the previous one, exactly when the count fits |
| Intervals.CatchUpAccounting | vibeio/src/time/interval.rs:106-139 | in CatchUp mode deadline advance is ticks reported plus one per catch-up, in periods |
| Intervals.PunctualIff | vibeio/src/time/interval.rs:106-139 | no call catches up if and only if the i-th comes before i + 1 periods from the first, and then each reports one tick |
| Intervals.CatchUpReportsAllPeriodsIff | vibeio/src/time/interval.rs:118-138 | deadline advance equals ticks reported if and only if every call comes before its place in the cadence, given by the call times alone |
| Intervals.CatchUpDropsATick | vibeio/src/time/interval.rs:126-138 | a two-call run that loses a tick |

## Left out

- Weak memory: the wake protocol is sequentially consistent, one atomic operation per step; raw waker tables, reference counts and pinning are not modelled.
- Integer widths of ticks, generations and deadlines: unbounded here; 64-bit width is explicit for ring keys, the interval counters, the copy count and file offsets.
- Sleeps polled, reset or dropped outside their runtime, and the panic of a first poll outside one.
- JoinHandle, SpawnFuture and cancellation: one output cell and one waker, easy members only.
- Operations without a data buffer (paths, addresses), and take_bufs while in flight, which no caller does.
- Drops outside a runtime are not events of the runs in UringProofs; OutsideDropReleasesInUseIff covers one after any run without them.
- UringDriver.Uring.SubmitPoll: a token registered for completion mode is treated as not registered; both are refused, with different errors.
- UringDriver.Uring.SubmitCompletion: does not bound the token; the run theorems take tokens below 2^63 - 1, which a slab in memory cannot exceed.
- ReadyQueues.RuntimeQueues.Spawn: covers queues with no foreign wake under way; interleaved foreign wakes are in WakeProtocol.
- AsyncWrapping.AsyncWrap.WriteAll: runs for a finite list of completed inner writes; that writes of nothing keep the loop going for ever is ZeroWritesNeverFinish.
- Splice lengths beyond 32 bits.
- Pumps.ReadExactAt: fixed-length buffers, and growable ones outside completion mode, whose length a read does not change; growable ones in completion mode are ReadExactAtGrowable.
- Interval.reset and set_missed_tick_behavior: one assignment each; the mode of every call is a parameter of the runs.
- Pipe capacity in sendfile: a splice into a full pipe may block for ever while nobody drains it; termination here assumes that each system call returns.
- The IOCP and mio drivers, sockets, signals, processes, standard streams, file metadata, and the hyper and quinn adapters.
