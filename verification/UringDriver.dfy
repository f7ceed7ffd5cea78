/**
 * The io_uring driver's completion path and the read/write operations on top of
 * it, as they run. Each method computes the function of UringSpec of the same
 * name. What the kernel does during a system call is a parameter.
 */
module UringDriver {
  import opened Prelude
  import opened UringSpec

  class Uring {
    const capacity: nat
    var sq: seq<Record>
    var kernel: seq<Record>
    var cq: seq<Cqe>
    var nextSub: nat
    var completions: map<nat, Completion>
    var polls: map<nat, PollReg>
    ghost var released: set<nat>

    ghost function View(): Driver
      reads this
    {
      Driver(Ring(sq, kernel, cq, nextSub), completions, polls, released, false)
    }

    /** The driver with a full submission queue handed to the kernel. */
    ghost function Roomy(call: SubmitCall): Driver
      reads this
    {
      Room(View(), RoomMade(View().ring, capacity, call))
    }

    /** A ring that has been built has room for at least one entry. */
    constructor (capacity: nat)
      requires capacity > 0
      ensures this.capacity == capacity && View() == NewDriver()
    {
      this.capacity := capacity;
      sq, kernel, cq, nextSub, completions, polls, released := [], [], [], 0, map[], map[], {};
      new;
      var ok := SubmitInterrupt(SubmitCall(0, None));
    }

    method Submit(took: nat)
      modifies `sq, `kernel
      ensures View() == Room(old(View()), took)
    {
      var k := if took < |sq| then took else |sq|;
      sq, kernel := sq[k..], kernel + sq[..k];
    }

    /** Submits a full queue first; fails if that call fails or makes no room. */
    method PushEntry(key: nat, op: nat, call: SubmitCall) returns (ok: bool)
      modifies `sq, `kernel, `nextSub
      ensures ok <==> Accepts(old(View()).ring, capacity, call)
      ensures View() ==
        var roomy := old(Roomy(call)); if ok then roomy.(ring := Push(roomy.ring, key, op)) else roomy
    {
      hide Takes;
      NoRoomNeeded(View().ring);
      if |sq| >= capacity {
        Submit(call.took);
        if call.error.Some? && call.error.value != EBUSY && call.error.value != ETIME {
          return false;
        }
      }
      if |sq| >= capacity {
        return false;
      }
      sq := sq + [Record(key, op, nextSub)];
      nextSub := nextSub + 1;
      ok := true;
    }

    /** The runtime panics if the interrupt cannot be armed. */
    method SubmitInterrupt(call: SubmitCall) returns (ok: bool)
      modifies `sq, `kernel, `nextSub
      ensures ok <==> Accepts(old(View()).ring, capacity, call)
      ensures ok ==> View() == var roomy := old(Roomy(call)); roomy.(ring := Push(roomy.ring, INTERRUPT_KEY, 0))
    {
      ok := PushEntry(INTERRUPT_KEY, 0, call);
    }

    /** The slab entry is made only once the entry is built and the submission queue has taken it. */
    method SubmitCompletion(op: nat, waker: Waker, built: bool, call: SubmitCall) returns (token: Option<nat>)
      modifies this
      ensures token.Some? <==> built && Accepts(old(View()).ring, capacity, call)
      ensures token.None? ==> View() == if built then old(Roomy(call)) else old(View())
      ensures token.Some? ==> token.value !in old(completions)
      ensures token.Some? ==> View() == UringSpec.SubmitCompletion(old(Roomy(call)), token.value, op, waker)
    {
      var vacant := VacantKey(completions);
      if !built {
        return None;
      }
      var ok := PushEntry(Encode(vacant, CompletionKind), op, call);
      if !ok {
        return None;
      }
      completions := completions[vacant := Completion(Some(waker), None, None)];
      token := Some(vacant);
    }

    method GetCompletionResult(token: nat) returns (result: Option<int>)
      modifies `completions
      ensures (View(), result) == UringSpec.GetCompletionResult(old(View()), token)
    {
      result := if token in completions then completions[token].completed else None;
      if result.Some? {
        completions := completions - {token};
      }
    }

    method SetCompletionWaker(token: nat, waker: Waker)
      modifies `completions
      ensures View() == UringSpec.SetCompletionWaker(old(View()), token, waker)
    {
      if token in completions {
        var c := completions[token];
        if c.waiter != Some(waker) {
          completions := completions[token := c.(waiter := Some(waker))];
        }
      }
    }

    method IgnoreCompletion(token: nat, buffer: nat)
      modifies `completions
      ensures View() == UringSpec.IgnoreCompletion(old(View()), token, buffer)
    {
      if token in completions {
        completions := completions[token := completions[token].(ignored := Some(buffer))];
      }
    }

    method RegisterPoll(read: bool, write: bool) returns (token: nat)
      modifies `polls
      ensures token !in old(polls) && View() == Register(old(View()), token, read, write)
    {
      token := VacantKey(polls);
      polls := polls[token := PollReg(read, write, None, false, None, false)];
    }

    /** Awaits readiness: arms a poll unless one is armed for that direction already. */
    method SubmitPoll(token: nat, waker: Waker, read: bool, write: bool, call: SubmitCall) returns (ok: bool)
      modifies this
      ensures token !in old(polls) ==> !ok && View() == old(View())
      ensures token in old(polls) && Armed(old(polls)[token], write) ==>
        ok && View() == UringSpec.SubmitPoll(old(View()), token, waker, read, write, true)
      ensures token in old(polls) && !Armed(old(polls)[token], write) ==>
        && (ok <==> Accepts(old(View()).ring, capacity, call))
        && View() == UringSpec.SubmitPoll(old(Roomy(call)), token, waker, read, write, ok)
    {
      if token !in polls {
        return false;
      }
      var reg := polls[token];
      var armed := if write then reg.writeArmed else reg.readArmed;
      reg := if write then reg.(writer := Some(waker), writeArmed := true) else reg.(reader := Some(waker), readArmed := true);
      reg := reg.(read := read, write := write);
      polls := polls[token := reg];
      if armed {
        return true;
      }
      ok := PushEntry(Encode(token, PollKind), 0, call);
      if !ok {
        if reg.write {
          reg := reg.(writeArmed := false, writer := None);
        }
        if reg.read {
          reg := reg.(readArmed := false, reader := None);
        }
        polls := polls[token := reg];
      }
    }

    /** One completion: its result goes to the slab, or the parked buffer of its dropped operation is let go. */
    method HandleCqe(cqe: Cqe) returns (interrupt: bool, woken: seq<Waker>)
      modifies `completions, `polls, `released
      ensures View().(rearm := interrupt) == DrainOne(old(View()), cqe)
      ensures woken == WokenBy(old(View()), cqe)
      ensures IsCompletion(cqe.rec.key) && DecodeToken(cqe.rec.key) in old(completions) ==>
        woken == match old(completions)[DecodeToken(cqe.rec.key)].waiter case Some(w) => [w] case None => []
    {
      interrupt, woken := false, [];
      var key := cqe.rec.key;
      if key == INTERRUPT_KEY {
        interrupt := true;
        return;
      } else if key == TIMEOUT_KEY {
        return;
      }
      var token := DecodeToken(key);
      if DecodeKind(key) == PollKind {
        if token in polls {
          var reg := polls[token];
          var waiter: Option<Waker>;
          if reg.write {
            waiter := reg.writer;
            reg := reg.(writeArmed := false, writer := None);
            if reg.read {
              reg := reg.(readArmed := false, reader := None);
            }
          } else {
            waiter := reg.reader;
            reg := reg.(readArmed := false, reader := None);
          }
          polls := polls[token := reg];
          if waiter.Some? {
            woken := [waiter.value];
          }
        }
      } else {
        if token in completions {
          var c := completions[token];
          if c.waiter.Some? {
            woken := [c.waiter.value];
          }
          if c.ignored.Some? {
            completions := completions - {token};
            released := released + {c.ignored.value};
          } else {
            completions := completions[token := Completion(None, Some(cqe.result), None)];
          }
        }
      }
    }

    /** Empties the completion queue and collects the waiters' wakers. */
    method DrainCq() returns (interrupt: bool, wakers: seq<Waker>)
      modifies `cq, `completions, `polls, `released
      ensures View().(rearm := interrupt) == DrainAll(old(View()))
      ensures wakers == WokenByAll(old(View()))
    {
      hide DrainOne, WokenBy;
      interrupt, wakers := false, [];
      while cq != []
        invariant DrainAll(View().(rearm := interrupt)) == DrainAll(old(View()))
        invariant wakers + WokenByAll(View().(rearm := interrupt)) == WokenByAll(old(View()))
        decreases |cq|
      {
        ghost var before := View().(rearm := interrupt);
        assert wakers + WokenByAll(before) == wakers + WokenBy(before, cq[0]) + WokenByAll(DrainFirst(before));
        var cqe := cq[0];
        cq := cq[1..];
        RearmIsSticky(View(), interrupt, cqe);
        var met, woken := HandleCqe(cqe);
        interrupt, wakers := interrupt || met, wakers + woken;
        assert View().(rearm := interrupt) == DrainFirst(before);
      }
    }

    /** The kernel's part of a system call that submits. */
    method Call(call: SubmitCall, done: seq<nat>, answer: nat -> int) returns (error: Option<int>)
      modifies `sq, `kernel, `cq
      ensures View() == old(View()).(ring := Called(old(View()).ring, call, done, answer).0)
      ensures error == Called(old(View()).ring, call, done, answer).1
    {
      Submit(call.took);
      error := if call.error == Some(EBUSY) || call.error == Some(ETIME) then None else call.error;
      if error.None? {
        ghost var taken := View().ring;
        var i := 0;
        assert done[0..] == done;
        while i < |done|
          invariant i <= |done|
          invariant Finishes(View().ring, done[i..], answer) == Finishes(taken, done, answer)
          invariant View() == old(View()).(ring := View().ring)
        {
          assert done[i..][0] == done[i] && done[i..][1..] == done[i + 1..];
          if done[i] < |kernel| {
            var rec := kernel[done[i]];
            kernel, cq := Without(kernel, done[i]), cq + [Cqe(rec, answer(rec.sub))];
          }
          i := i + 1;
        }
      }
    }

    /**
     * Submits, possibly waiting; then drains, collects the wakers, and arms the
     * interrupt again if it fired. Fails only before the drain, with the error of
     * the system call or of the push; `panicked` if the interrupt cannot be armed.
     */
    method CollectCompletions(wait: bool, timed: bool, room: SubmitCall, call: SubmitCall, done: seq<nat>,
                              answer: nat -> int, rearm: SubmitCall)
      returns (error: Option<int>, woken: seq<Waker>, panicked: bool)
      modifies this
      ensures error == Submitted(old(View()).ring, capacity, wait, timed, room, call, done, answer).1
      ensures var d := old(View()).(ring := Submitted(old(View()).ring, capacity, wait, timed, room, call, done, answer).0);
        if error.Some? then View() == d && woken == [] && !panicked else
          var drained := DrainAll(d);
          && woken == WokenByAll(d)
          && (panicked <==> drained.rearm && !Accepts(drained.ring, capacity, rearm))
          && (!panicked ==> View() == Collect(d, RoomMade(drained.ring, capacity, rearm)))
    {
      hide DrainAll, WokenByAll, Takes, Finishes;
      error, woken, panicked := None, [], false;
      if wait || sq != [] {
        if wait && timed {
          var full := |sq| >= capacity;
          var ok := PushEntry(TIMEOUT_KEY, 0, room);
          if !ok {
            error := if full && room.error.Some? && room.error.value != EBUSY && room.error.value != ETIME
                     then room.error else Some(QUEUE_FULL);
            return;
          }
        }
        error := Call(call, done, answer);
        if error.Some? {
          return;
        }
      }
      var interrupt: bool;
      interrupt, woken := DrainCq();
      if interrupt {
        var ok := SubmitInterrupt(rearm);
        panicked := !ok;
      }
    }
  }

  /** Taking nothing changes nothing. */
  lemma NoRoomNeeded(ring: Ring)
    ensures Takes(ring, 0) == ring
  {}

  /** Whether the interrupt was met before does not matter to the next completion. */
  lemma RearmIsSticky(d: Driver, met: bool, e: Cqe)
    ensures DrainOne(d.(rearm := met), e) == var d' := DrainOne(d.(rearm := false), e); d'.(rearm := met || d'.rearm)
    ensures forall ring: Ring :: WokenBy(d.(rearm := met, ring := ring), e) == WokenBy(d, e)
  {}

  /** How the kernel encodes the outcome of an operation in one number. */
  function RawResult(r: IoResult<nat>): int {
    match r case Ok(n) => n case Err(code) => -code
  }

  /** The only outcome with a positive error code that the kernel encodes as `result`. */
  function Outcome(result: int): (r: IoResult<nat>)
    ensures RawResult(r) == result && (r.Err? ==> r.code > 0)
    ensures forall q: IoResult<nat> | (q.Err? ==> q.code > 0) && RawResult(q) == result :: q == r
  {
    if result < 0 then Err(-result) else Ok(result)
  }

  /** A read or write operation; only a read sets the initialized length of its buffer. */
  class CompletionOp {
    const id: nat
    const isRead: bool
    var token: Option<nat>
    var bufLen: nat
    ghost var sub: nat
    ghost var waker: Waker

    ghost function View(): Op
      reads this
    {
      Op(token, sub, waker)
    }

    constructor (id: nat, isRead: bool, bufLen: nat)
      ensures this.id == id && this.isRead == isRead && this.bufLen == bufLen && View() == Op(None, 0, 0)
    {
      this.id, this.isRead, this.bufLen := id, isRead, bufLen;
      token, sub, waker := None, 0, 0;
    }

    method PollCompletion(driver: Uring, w: Waker, built: bool, call: SubmitCall)
      returns (poll: Poll, outcome: Option<IoResult<nat>>, ghost chosen: nat)
      modifies this, driver
      ensures var accepted := built && Accepts(old(driver.View()).ring, driver.capacity, call);
        var d := if old(token).None? && built then old(driver.Roomy(call)) else old(driver.View());
        && (View(), driver.View(), poll) == PollOp(old(View()), id, d, w, chosen, accepted)
        && (old(token).None? && accepted ==> chosen !in old(driver.completions))
      ensures outcome == if poll.Ready? then Some(Outcome(poll.result)) else None
      ensures bufLen == if isRead && outcome.Some? && outcome.value.Ok? then outcome.value.value else old(bufLen)
    {
      chosen, outcome := 0, None;
      var result: int;
      if token.Some? {
        var taken := driver.GetCompletionResult(token.value);
        if taken.None? {
          driver.SetCompletionWaker(token.value, w);
          waker := w;
          return Pending, None, chosen;
        }
        token := None;
        result := taken.value;
      } else {
        ghost var number := driver.nextSub;
        var submitted := driver.SubmitCompletion(id, w, built, call);
        if submitted.None? {
          return SubmitError, None, chosen;
        }
        token, waker, sub, chosen := submitted, w, number, submitted.value;
        return Pending, None, chosen;
      }
      poll, outcome := Ready(result), Some(Outcome(result));
      if isRead && result >= 0 {
        bufLen := result;
      }
    }

    /** Dropped in flight, the operation hands its buffer to the driver, if there is one in this thread. */
    method Drop(driver: Uring, current: bool)
      modifies driver
      ensures driver.View() == if current then DropOp(View(), id, old(driver.View())) else DropOutside(id, old(driver.View()))
    {
      if token.Some? && current {
        driver.IgnoreCompletion(token.value, id);
      } else {
        driver.released := driver.released + {id};
      }
    }
  }
}
