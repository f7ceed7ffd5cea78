/**
 * The three ready queues of the runtime: how wakes on the scheduler's thread
 * fill them, how a drain empties them, and how long a task can be overtaken.
 */
module ReadyQueues {
  import opened Prelude

  type TaskId = nat

  const NEXT_TASK_INLINE_CAP: nat := 8

  datatype Queues = Queues(inline: seq<TaskId>, remote: seq<TaskId>, local: seq<TaskId>)

  /** All tasks that are ready, in the order in which drains take them. */
  function InOrder(q: Queues): seq<TaskId> {
    q.inline + q.remote + q.local
  }

  function Batch(q: Queues, budget: nat): seq<TaskId> {
    var a := Min(budget, |q.inline|);
    var b := Min(budget - a, |q.remote|);
    var c := Min(budget - a - b, |q.local|);
    q.inline[..a] + q.remote[..b] + q.local[..c]
  }

  function Rest(q: Queues, budget: nat): Queues {
    var a := Min(budget, |q.inline|);
    var b := Min(budget - a, |q.remote|);
    var c := Min(budget - a - b, |q.local|);
    Queues(q.inline[a..], q.remote[b..], q.local[c..])
  }

  /** Nothing is lost or reordered: a drain takes a prefix and leaves the rest. */
  lemma DrainTakesPrefix(q: Queues, budget: nat)
    ensures Batch(q, budget) + InOrder(Rest(q, budget)) == InOrder(q)
    ensures |Batch(q, budget)| == Min(budget, |InOrder(q)|)
  {}

  function Push(q: Queues, x: TaskId): Queues {
    if |q.inline| < NEXT_TASK_INLINE_CAP then q.(inline := q.inline + [x]) else q.(local := q.local + [x])
  }

  /** What can reach the queues on the scheduler's own thread between two drains. */
  datatype Arrival = Wake(task: TaskId) | Spawn(task: TaskId)

  /** The `queued` flag makes a further wake of a task that is already ready have no effect. */
  function Arrive(q: Queues, a: Arrival): Queues {
    if a.task in InOrder(q) then q
    else if a.Wake? then Push(q, a.task)
    else q.(local := q.local + [a.task])
  }

  class RuntimeQueues {
    var inline: seq<TaskId>
    var remote: seq<TaskId>
    var local: seq<TaskId>
    var queued: set<TaskId>

    ghost function View(): Queues
      reads this
    {
      Queues(inline, remote, local)
    }

    /** A task is flagged as queued exactly while it is in the queues, and it is there once. */
    ghost predicate Valid()
      reads this
    {
      && |inline| <= NEXT_TASK_INLINE_CAP
      && NoDup(InOrder(View()))
      && (forall x :: x in queued <==> x in InOrder(View()))
    }

    constructor ()
      ensures Valid() && View() == Queues([], [], []) && queued == {}
    {
      inline, remote, local, queued := [], [], [], {};
    }

    /** A spawned task starts out flagged and goes to the end of the main queue. */
    method Spawn(x: TaskId)
      requires Valid() && x !in queued
      modifies this
      ensures Valid() && queued == old(queued) + {x}
      ensures View() == Arrive(old(View()), Arrival.Spawn(x))
    {
      assert InOrder(Queues(inline, remote, local + [x])) == InOrder(View()) + [x];
      queued := queued + {x};
      local := local + [x];
    }

    /** The same-thread half of `enqueue_if_needed`: a task already queued is not queued again. */
    method EnqueueIfNeeded(x: TaskId)
      requires Valid()
      modifies this
      ensures Valid() && queued == old(queued) + {x}
      ensures View() == Arrive(old(View()), Wake(x))
    {
      var was := x in queued;
      queued := queued + {x};
      if !was {
        ghost var before := InOrder(View());
        if |inline| < NEXT_TASK_INLINE_CAP {
          inline := inline + [x];
          InlinePushKeepsNoDup(old(inline), remote, local, x);
        } else {
          local := local + [x];
          assert InOrder(View()) == before + [x];
        }
      }
    }

    method DrainReady(budget: nat) returns (batch: seq<TaskId>)
      requires Valid()
      modifies this
      ensures Valid()
      ensures batch == Batch(old(View()), budget) && View() == Rest(old(View()), budget)
      ensures queued == old(queued) - set x | x in batch
    {
      ghost var q := View();
      DrainTakesPrefix(q, budget);
      batch := [];
      var left: nat := budget;
      var a := 0;
      while left != 0 && inline != []
        invariant a + left == budget && a <= |q.inline| && a == |batch|
        invariant batch == q.inline[..a] && inline == q.inline[a..] && remote == q.remote && local == q.local
        invariant queued == old(queued) - set x | x in batch
        decreases left
      {
        var x := inline[0];
        inline := inline[1..];
        queued := queued - {x};
        batch := batch + [x];
        left, a := left - 1, a + 1;
      }
      assert a == Min(budget, |q.inline|);
      ghost var first := batch;
      var b := 0;
      while left != 0 && remote != []
        invariant a + b + left == budget && b <= |q.remote|
        invariant batch == first + q.remote[..b] && remote == q.remote[b..]
        invariant inline == q.inline[a..] && local == q.local
        invariant queued == old(queued) - set x | x in batch
        decreases left
      {
        var x := remote[0];
        remote := remote[1..];
        queued := queued - {x};
        batch := batch + [x];
        left, b := left - 1, b + 1;
      }
      assert b == Min(budget - a, |q.remote|);
      ghost var second := batch;
      var c := 0;
      while left != 0 && local != []
        invariant a + b + c + left == budget && c <= |q.local|
        invariant batch == second + q.local[..c] && local == q.local[c..]
        invariant inline == q.inline[a..] && remote == q.remote[b..]
        invariant queued == old(queued) - set x | x in batch
        decreases left
      {
        var x := local[0];
        local := local[1..];
        queued := queued - {x};
        batch := batch + [x];
        left, c := left - 1, c + 1;
      }
      assert c == Min(budget - a - b, |q.local|);
      SuffixKeepsNoDup(batch, InOrder(View()));
    }
  }

  lemma InlinePushKeepsNoDup(inline: seq<TaskId>, remote: seq<TaskId>, local: seq<TaskId>, x: TaskId)
    requires NoDup(inline + remote + local) && x !in inline + remote + local
    ensures NoDup(inline + [x] + remote + local)
    ensures forall y :: y in inline + [x] + remote + local <==> y == x || y in inline + remote + local
  {
    var v, w, n := inline + remote + local, inline + [x] + remote + local, |inline|;
    forall i, j | 0 <= i < j < |w| ensures w[i] != w[j] {
      assert i != n ==> w[i] == v[if i < n then i else i - 1];
      assert j != n ==> w[j] == v[if j < n then j else j - 1];
    }
  }

  lemma SuffixKeepsNoDup(batch: seq<TaskId>, rest: seq<TaskId>)
    requires NoDup(batch + rest)
    ensures NoDup(rest)
    ensures forall x :: x in rest <==> x in batch + rest && x !in batch
  {
    var all, n := batch + rest, |batch|;
    assert forall i | 0 <= i < |rest| :: rest[i] == all[n + i];
    assert forall i | 0 <= i < n :: batch[i] == all[i];
  }

  // ---------- Overtaking ----------

  function ArriveAll(q: Queues, arrivals: seq<Arrival>): Queues {
    if arrivals == [] then q else Arrive(ArriveAll(q, arrivals[..|arrivals| - 1]), arrivals[|arrivals| - 1])
  }

  /** The batches of successive rounds: wakes and spawns on the scheduler's thread, then a drain. */
  function Serve(q: Queues, rounds: seq<seq<Arrival>>, budget: nat): seq<seq<TaskId>>
    decreases |rounds|
  {
    if rounds == [] then [] else
      var full := ArriveAll(q, rounds[0]);
      [Batch(full, budget)] + Serve(Rest(full, budget), rounds[1..], budget)
  }

  lemma {:induction false} ArriveAllAppends(q: Queues, arrivals: seq<Arrival>)
    requires |q.inline| <= NEXT_TASK_INLINE_CAP
    ensures var q' := ArriveAll(q, arrivals);
      && |q'.inline| <= NEXT_TASK_INLINE_CAP && q'.remote == q.remote
      && q.local <= q'.local && q.inline <= q'.inline
  {
    if arrivals != [] {
      ArriveAllAppends(q, arrivals[..|arrivals| - 1]);
    }
  }

  /** Each round takes at least `budget - 8` from the main queue, so p / (budget - 8) + 1 rounds reach position p. */
  lemma {:induction false} ReachedWithin(q: Queues, rounds: seq<seq<Arrival>>, budget: nat, p: nat, k: nat) returns (i: nat)
    requires budget > NEXT_TASK_INLINE_CAP && q.remote == [] && |q.inline| <= NEXT_TASK_INLINE_CAP
    requires p < |q.local| && |rounds| > k && p < (k + 1) * (budget - NEXT_TASK_INLINE_CAP)
    ensures i <= k && i < |Serve(q, rounds, budget)| && q.local[p] in Serve(q, rounds, budget)[i]
    decreases k
  {
    hide ArriveAll, Batch, Rest;
    var full, share := ArriveAll(q, rounds[0]), budget - NEXT_TASK_INLINE_CAP;
    ArriveAllAppends(q, rounds[0]);
    var c := TakenFromLocal(full, budget);
    assert full.local[p] == q.local[p];
    if p < c {
      i := 0;
      assert full.local[..c][p] == q.local[p];
    } else {
      assert (k + 1) * share == k * share + share;
      var j := ReachedWithin(Rest(full, budget), rounds[1..], budget, p - c, k - 1);
      i := j + 1;
    }
  }

  /** With at most eight inline tasks and no remote ones, a drain reaches far into the main queue. */
  lemma TakenFromLocal(q: Queues, budget: nat) returns (c: nat)
    requires budget > NEXT_TASK_INLINE_CAP && q.remote == [] && |q.inline| <= NEXT_TASK_INLINE_CAP
    ensures c <= |q.local| && (c >= budget - NEXT_TASK_INLINE_CAP || c == |q.local|)
    ensures Batch(q, budget) == q.inline + q.local[..c]
    ensures Rest(q, budget) == Queues([], [], q.local[c..])
  {
    c := Min(budget - |q.inline|, |q.local|);
  }

  /**
   * With a batch of more than eight and no remote wakes, a task at position p of
   * the main queue is drained within p / (budget - 8) + 1 drains, whatever else
   * is woken or spawned on the scheduler's thread meanwhile.
   */
  lemma BoundedOvertaking(q: Queues, rounds: seq<seq<Arrival>>, budget: nat, p: nat)
    requires budget > NEXT_TASK_INLINE_CAP && q.remote == [] && |q.inline| <= NEXT_TASK_INLINE_CAP
    requires p < |q.local| && |rounds| > p / (budget - NEXT_TASK_INLINE_CAP)
    ensures exists i: nat ::
      i <= p / (budget - NEXT_TASK_INLINE_CAP) && i < |Serve(q, rounds, budget)| && q.local[p] in Serve(q, rounds, budget)[i]
  {
    hide Serve;
    var i := ReachedWithin(q, rounds, budget, p, p / (budget - NEXT_TASK_INLINE_CAP));
  }

  // ---------- Order of arrival ----------

  /** Spawned tasks go to the end of the drain order; woken ones overtake the remote and main queue while they find room inline. */
  lemma ArrivalOrder(q: Queues, x: TaskId)
    requires x !in InOrder(q)
    ensures InOrder(Arrive(q, Arrival.Spawn(x))) == InOrder(q) + [x]
    ensures Arrive(q, Arrival.Spawn(x)).inline == q.inline
    ensures |q.inline| < NEXT_TASK_INLINE_CAP ==> InOrder(Arrive(q, Wake(x))) == q.inline + [x] + q.remote + q.local
    ensures |q.inline| >= NEXT_TASK_INLINE_CAP ==> InOrder(Arrive(q, Wake(x))) == InOrder(q) + [x]
  {}

  /** A spawned task is drained after everything that was in the main queue: in any run that drains it, so is all of that. */
  lemma SpawnedIsDrainedLast(q: Queues, x: TaskId, rounds: seq<seq<Arrival>>, budget: nat, y: TaskId)
    requires NoDup(InOrder(q)) && q.remote == [] && |q.inline| <= NEXT_TASK_INLINE_CAP
    requires x !in InOrder(q) && y in q.local
    requires exists batch :: batch in Serve(Arrive(q, Arrival.Spawn(x)), rounds, budget) && x in batch
    ensures exists batch :: batch in Serve(Arrive(q, Arrival.Spawn(x)), rounds, budget) && y in batch
  {
    hide Serve, LeftForMain;
    var q', n := Arrive(q, Arrival.Spawn(x)), |q.local|;
    ArriveKeepsNoDup(q, Arrival.Spawn(x));
    var p :| 0 <= p < n && q.local[p] == y;
    assert q'.local[n] == x && q'.local[p] == y;
    DrainedIff(q', rounds, budget, n);
    DrainedIff(q', rounds, budget, p);
  }

  // ---------- Starvation ----------

  /** The budget that the inline queue leaves to the main queue, over all drains of the run. */
  function LeftForMain(q: Queues, rounds: seq<seq<Arrival>>, budget: nat): nat
    decreases |rounds|
  {
    if rounds == [] then 0 else
      var full := ArriveAll(q, rounds[0]);
      budget - Min(budget, |full.inline|) + LeftForMain(Rest(full, budget), rounds[1..], budget)
  }

  lemma ArriveKeepsNoDup(q: Queues, a: Arrival)
    requires NoDup(InOrder(q))
    ensures NoDup(InOrder(Arrive(q, a)))
  {
    if a.task !in InOrder(q) {
      InlinePushKeepsNoDup(q.inline, q.remote, q.local, a.task);
      assert InOrder(q.(local := q.local + [a.task])) == InOrder(q) + [a.task];
    }
  }

  lemma {:induction false} ArriveAllKeepsNoDup(q: Queues, arrivals: seq<Arrival>)
    requires NoDup(InOrder(q))
    ensures NoDup(InOrder(ArriveAll(q, arrivals)))
  {
    if arrivals != [] {
      ArriveAllKeepsNoDup(q, arrivals[..|arrivals| - 1]);
      ArriveKeepsNoDup(ArriveAll(q, arrivals[..|arrivals| - 1]), arrivals[|arrivals| - 1]);
    }
  }

  /** A drain takes from the main queue exactly what the inline queue leaves of the budget. */
  lemma DrainTakesMainIff(q: Queues, budget: nat, p: nat)
    requires NoDup(InOrder(q)) && q.remote == [] && p < |q.local|
    ensures var left := budget - Min(budget, |q.inline|);
      && (q.local[p] in Batch(q, budget) <==> p < left)
      && (left <= p ==> Rest(q, budget).remote == [] && Rest(q, budget).local == q.local[left..])
  {
    var all, n, left := InOrder(q), |q.inline|, budget - Min(budget, |q.inline|);
    assert all[n + p] == q.local[p];
    DrainTakesPrefix(q, budget);
    assert forall i | 0 <= i < |Batch(q, budget)| :: Batch(q, budget)[i] == all[i];
    if p < left {
      assert Batch(q, budget)[n + p] == q.local[p];
    }
  }

  /**
   * Exactly when a task is drained: with no remote tasks, position p of the main
   * queue is in some batch of a run if and only if the budget the inline queue
   * leaves, added up over the drains, exceeds p.
   */
  lemma {:induction false} DrainedIff(q: Queues, rounds: seq<seq<Arrival>>, budget: nat, p: nat)
    requires NoDup(InOrder(q)) && q.remote == [] && p < |q.local| && |q.inline| <= NEXT_TASK_INLINE_CAP
    ensures (exists batch :: batch in Serve(q, rounds, budget) && q.local[p] in batch)
      <==> LeftForMain(q, rounds, budget) > p
    decreases |rounds|
  {
    if rounds != [] {
      var full := ArriveAll(q, rounds[0]);
      ArriveAllAppends(q, rounds[0]);
      ArriveAllKeepsNoDup(q, rounds[0]);
      DrainTakesMainIff(full, budget, p);
      assert full.local[p] == q.local[p];
      var first, rest, left := Batch(full, budget), Rest(full, budget), budget - Min(budget, |full.inline|);
      var later := Serve(rest, rounds[1..], budget);
      assert Serve(q, rounds, budget) == [first] + later;
      if p < left {
        assert first in Serve(q, rounds, budget);
      } else {
        DrainTakesPrefix(full, budget);
        SuffixKeepsNoDup(first, InOrder(rest));
        DrainedIff(rest, rounds[1..], budget, p - left);
        assert forall batch :: batch in [first] + later <==> batch == first || batch in later;
      }
    }
  }

  /** So the head of the main queue starves exactly when the inline queue uses up every batch of the run. */
  lemma HeadStarvesIff(q: Queues, rounds: seq<seq<Arrival>>, budget: nat)
    requires NoDup(InOrder(q)) && q.remote == [] && q.local != [] && |q.inline| <= NEXT_TASK_INLINE_CAP
    ensures (forall batch | batch in Serve(q, rounds, budget) :: q.local[0] !in batch)
      <==> LeftForMain(q, rounds, budget) == 0
  {
    DrainedIff(q, rounds, budget, 0);
  }

  function WakeEach(tasks: seq<TaskId>): (arrivals: seq<Arrival>)
    ensures |arrivals| == |tasks| && forall i | 0 <= i < |tasks| :: arrivals[i] == Wake(tasks[i])
  {
    seq(|tasks|, i requires 0 <= i < |tasks| => Wake(tasks[i]))
  }

  /** Wakes of distinct tasks that are not ready fill the inline queue up to its capacity. */
  lemma {:induction false} WakesGoInline(tasks: seq<TaskId>, local: seq<TaskId>)
    requires NoDup(tasks) && |tasks| <= NEXT_TASK_INLINE_CAP && forall x | x in tasks :: x !in local
    ensures ArriveAll(Queues([], [], local), WakeEach(tasks)) == Queues(tasks, [], local)
  {
    if tasks != [] {
      var n := |tasks| - 1;
      FrontOf(tasks);
      WakesGoInline(tasks[..n], local);
      assert WakeEach(tasks)[..n] == WakeEach(tasks[..n]);
      assert tasks[..n] + [tasks[n]] == tasks;
    }
  }

  lemma InlineIsTheBatch(inline: seq<TaskId>, local: seq<TaskId>)
    ensures Batch(Queues(inline, [], local), |inline|) == inline
    ensures Rest(Queues(inline, [], local), |inline|) == Queues([], [], local)
  {}

  lemma ServeNone(q: Queues, budget: nat)
    ensures Serve(q, [], budget) == []
  {}

  lemma ServeOnce(q: Queues, round: seq<Arrival>, later: seq<seq<Arrival>>, budget: nat)
    ensures var full := ArriveAll(q, round);
      Serve(q, [round] + later, budget) == [Batch(full, budget)] + Serve(Rest(full, budget), later, budget)
  {
    assert ([round] + later)[1..] == later;
  }

  /**
   * The bound needs the batch to exceed the inline capacity: with a batch of at
   * most eight, as many tasks that each wake themselves when they are polled
   * are all that any number of drains takes, whatever waits in the main queue.
   */
  lemma {:induction false} SmallBatchStarves(workers: seq<TaskId>, local: seq<TaskId>, n: nat)
    requires NoDup(workers) && |workers| <= NEXT_TASK_INLINE_CAP && forall x | x in workers :: x !in local
    ensures Serve(Queues([], [], local), Repeat(WakeEach(workers), n), |workers|) == Repeat(workers, n)
  {
    hide ArriveAll, WakeEach, Serve, NoDup, Batch, Rest;
    var q := Queues([], [], local);
    if n == 0 {
      ServeNone(q, |workers|);
    } else {
      WakesGoInline(workers, local);
      InlineIsTheBatch(workers, local);
      ServeOnce(q, WakeEach(workers), Repeat(WakeEach(workers), n - 1), |workers|);
      SmallBatchStarves(workers, local, n - 1);
    }
  }
}
