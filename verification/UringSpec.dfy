/**
 * The io_uring driver as functions on values: the ring shared with a kernel that
 * finishes operations in any order, the slab of completions, operations that may
 * be polled, completed or dropped at any time, and registrations in poll mode.
 */
module UringSpec {
  import opened Prelude

  // ---------- Keys ----------

  const WORD: nat := 0x1_0000_0000_0000_0000
  const INTERRUPT_KEY: nat := WORD - 1
  const TIMEOUT_KEY: nat := WORD - 2
  const TOKEN_LIMIT: nat := 0x7FFF_FFFF_FFFF_FFFF

  datatype Kind = PollKind | CompletionKind

  /** `(token << 1) | kind` in 64 bits: the shift drops the top bit of the token. */
  function Encode(token: nat, kind: Kind): nat {
    (2 * token) % WORD + (if kind.CompletionKind? then 1 else 0)
  }

  function DecodeToken(key: nat): nat {
    key / 2
  }

  function DecodeKind(key: nat): Kind {
    if key % 2 == 0 then PollKind else CompletionKind
  }

  /**
   * A 64-bit token below 2^63 - 1, and no other, survives the round trip in both
   * kinds without colliding with the two reserved keys.
   */
  lemma KeysAreSound(token: nat)
    requires token < WORD
    ensures token < TOKEN_LIMIT <==>
      forall kind: Kind :: var key := Encode(token, kind);
        && key < WORD
        && DecodeToken(key) == token && DecodeKind(key) == kind
        && key != INTERRUPT_KEY && key != TIMEOUT_KEY
  {
    if token >= TOKEN_LIMIT {
      var key := Encode(token, CompletionKind);
      assert DecodeToken(key) != token || key == INTERRUPT_KEY;
    }
  }

  lemma EncodeIsInjective(a: nat, k: Kind, b: nat, m: Kind)
    requires a < TOKEN_LIMIT && b < TOKEN_LIMIT && Encode(a, k) == Encode(b, m)
    ensures a == b && k == m
  {
    KeysAreSound(a);
    KeysAreSound(b);
    assert DecodeToken(Encode(a, k)) == a && DecodeKind(Encode(a, k)) == k;
    assert DecodeToken(Encode(b, m)) == b && DecodeKind(Encode(b, m)) == m;
  }

  // ---------- The driver ----------

  /** A submission: its key, the operation whose buffer the kernel uses, and its number. */
  datatype Record = Record(key: nat, op: nat, sub: nat)

  datatype Cqe = Cqe(rec: Record, result: int)

  datatype Ring = Ring(sq: seq<Record>, kernel: seq<Record>, cq: seq<Cqe>, nextSub: nat)

  datatype Completion = Completion(waiter: Option<Waker>, completed: Option<int>, ignored: Option<nat>)

  /** A handle in poll mode: the last interest asked for, and for each direction the waiter and whether a poll is armed. */
  datatype PollReg = PollReg(read: bool, write: bool, reader: Option<Waker>, readArmed: bool,
                             writer: Option<Waker>, writeArmed: bool)

  /** `released` are the buffers given back to the allocator; `rearm` that a drain has met the interrupt. */
  datatype Driver = Driver(ring: Ring, completions: map<nat, Completion>, polls: map<nat, PollReg>,
                           released: set<nat>, rearm: bool)

  predicate IsCompletion(key: nat) {
    key % 2 == 1 && key != INTERRUPT_KEY
  }

  function Push(ring: Ring, key: nat, op: nat): Ring {
    ring.(sq := ring.sq + [Record(key, op, ring.nextSub)], nextSub := ring.nextSub + 1)
  }

  /** The kernel takes up to `n` entries off the submission queue. */
  function Takes(ring: Ring, n: nat): Ring {
    var k := Min(n, |ring.sq|);
    ring.(sq := ring.sq[k..], kernel := ring.kernel + ring.sq[..k])
  }

  /** What a submit system call did: the entries it took, and its error if it failed. */
  datatype SubmitCall = SubmitCall(took: nat, error: Option<int>)

  const EBUSY: int := 16
  const ETIME: int := 62
  const QUEUE_FULL: int := -1

  function CallError(call: SubmitCall): Option<int> {
    if call.error == Some(EBUSY) || call.error == Some(ETIME) then None else call.error
  }

  /** A full submission queue is submitted before a push. */
  function RoomMade(ring: Ring, capacity: nat, call: SubmitCall): nat {
    if |ring.sq| >= capacity then call.took else 0
  }

  predicate Accepts(ring: Ring, capacity: nat, call: SubmitCall) {
    (|ring.sq| >= capacity ==> CallError(call).None?) && |Takes(ring, RoomMade(ring, capacity, call)).sq| < capacity
  }

  function Room(d: Driver, n: nat): Driver {
    d.(ring := Takes(d.ring, n))
  }

  function NewDriver(): Driver {
    Driver(Push(Ring([], [], [], 0), INTERRUPT_KEY, 0), map[], map[], {}, false)
  }

  function SubmitCompletion(d: Driver, token: nat, op: nat, waker: Waker): Driver {
    d.(ring := Push(d.ring, Encode(token, CompletionKind), op),
       completions := d.completions[token := Completion(Some(waker), None, None)])
  }

  /** Takes the result out of the slab, together with its entry. */
  function GetCompletionResult(d: Driver, token: nat): (Driver, Option<int>) {
    if token in d.completions && d.completions[token].completed.Some?
    then (d.(completions := d.completions - {token}), d.completions[token].completed)
    else (d, None)
  }

  function SetCompletionWaker(d: Driver, token: nat, waker: Waker): Driver {
    if token in d.completions
    then d.(completions := d.completions[token := d.completions[token].(waiter := Some(waker))])
    else d
  }

  function IgnoreCompletion(d: Driver, token: nat, buffer: nat): Driver {
    if token in d.completions
    then d.(completions := d.completions[token := d.completions[token].(ignored := Some(buffer))])
    else d
  }

  /** What the slab makes of one completion: stored, or dropped with the buffer it kept alive. */
  function Absorb(d: Driver, token: nat, result: int): Driver {
    if token !in d.completions then d else
      var c := d.completions[token];
      if c.ignored.Some? then
        d.(completions := d.completions - {token}, released := d.released + {c.ignored.value})
      else
        d.(completions := d.completions[token := Completion(None, Some(result), None)])
  }

  // ---------- Poll mode ----------

  function Register(d: Driver, token: nat, read: bool, write: bool): Driver {
    d.(polls := d.polls[token := PollReg(read, write, None, false, None, false)])
  }

  predicate Armed(reg: PollReg, write: bool) {
    if write then reg.writeArmed else reg.readArmed
  }

  /** The waiter and the interest are replaced; a direction already armed needs no new poll. */
  function Awaits(reg: PollReg, waker: Waker, read: bool, write: bool): PollReg {
    if write then reg.(read := read, write := write, writer := Some(waker), writeArmed := true)
    else reg.(read := read, write := write, reader := Some(waker), readArmed := true)
  }

  /** A poll that could not be submitted. */
  function Unarmed(reg: PollReg): PollReg {
    var r := if reg.write then reg.(writeArmed := false, writer := None) else reg;
    if reg.read then r.(readArmed := false, reader := None) else r
  }

  function SubmitPoll(d: Driver, token: nat, waker: Waker, read: bool, write: bool, pushed: bool): Driver
    requires token in d.polls
  {
    var reg := Awaits(d.polls[token], waker, read, write);
    if Armed(d.polls[token], write) then d.(polls := d.polls[token := reg])
    else if pushed then d.(polls := d.polls[token := reg], ring := Push(d.ring, Encode(token, PollKind), 0))
    else d.(polls := d.polls[token := Unarmed(reg)])
  }

  /** A finished poll belongs to the direction last asked for, whichever poll it was. */
  function PollDone(reg: PollReg): (PollReg, Option<Waker>) {
    if reg.write then
      var r := reg.(writeArmed := false, writer := None);
      (if reg.read then r.(readArmed := false, reader := None) else r, reg.writer)
    else (reg.(readArmed := false, reader := None), reg.reader)
  }

  /** The key of some poll, as far as draining goes. */
  predicate IsPoll(key: nat) {
    key % 2 == 0 && key != TIMEOUT_KEY
  }

  function WokenBy(d: Driver, e: Cqe): seq<Waker> {
    var token := DecodeToken(e.rec.key);
    var waiter :=
      if IsCompletion(e.rec.key) && token in d.completions then d.completions[token].waiter
      else if IsPoll(e.rec.key) && token in d.polls then PollDone(d.polls[token]).1
      else None;
    if waiter.Some? then [waiter.value] else []
  }

  function DrainOne(d: Driver, e: Cqe): Driver {
    if e.rec.key == INTERRUPT_KEY then d.(rearm := true)
    else if IsCompletion(e.rec.key) then Absorb(d, DecodeToken(e.rec.key), e.result)
    else if IsPoll(e.rec.key) && DecodeToken(e.rec.key) in d.polls then
      d.(polls := d.polls[DecodeToken(e.rec.key) := PollDone(d.polls[DecodeToken(e.rec.key)]).0])
    else d
  }

  function DrainFirst(d: Driver): Driver
    requires d.ring.cq != []
  {
    DrainOne(d.(ring := d.ring.(cq := d.ring.cq[1..])), d.ring.cq[0])
  }

  function DrainAll(d: Driver): Driver
    decreases |d.ring.cq|
  {
    if d.ring.cq == [] then d else DrainAll(DrainFirst(d))
  }

  /** The wakers collected by a drain, in completion order. */
  function WokenByAll(d: Driver): seq<Waker>
    decreases |d.ring.cq|
  {
    if d.ring.cq == [] then [] else WokenBy(d, d.ring.cq[0]) + WokenByAll(DrainFirst(d))
  }

  /** Arms the interrupt again if the drain met it, after making room for it. */
  function Rearm(d: Driver, room: nat): Driver {
    if d.rearm then d.(ring := Push(Takes(d.ring, room), INTERRUPT_KEY, 0), rearm := false) else d
  }

  function Collect(d: Driver, room: nat): Driver {
    Rearm(DrainAll(d), room)
  }

  /** The kernel finishes some operations, given by their positions among those it holds. */
  function Finishes(ring: Ring, done: seq<nat>, answer: nat -> int): Ring
    decreases |done|
  {
    if done == [] then ring
    else Finishes(if done[0] < |ring.kernel| then KernelStep(ring, done[0], answer) else ring, done[1..], answer)
  }

  /** The submit of a collection, and what the kernel does before it returns. */
  function Called(ring: Ring, call: SubmitCall, done: seq<nat>, answer: nat -> int): (Ring, Option<int>) {
    var taken := Takes(ring, call.took);
    if CallError(call).Some? then (taken, CallError(call)) else (Finishes(taken, done, answer), None)
  }

  /**
   * The first half of a collection. Unless it waits, an empty queue is not
   * submitted. A wait with a timeout, on old kernels, pushes an entry for it.
   */
  function Submitted(ring: Ring, capacity: nat, wait: bool, timed: bool, room: SubmitCall, call: SubmitCall,
                     done: seq<nat>, answer: nat -> int): (Ring, Option<int>)
  {
    if !wait && ring.sq == [] then (ring, None)
    else if wait && timed then
      var roomy := Takes(ring, RoomMade(ring, capacity, room));
      if Accepts(ring, capacity, room) then Called(Push(roomy, TIMEOUT_KEY, 0), call, done, answer)
      else (roomy, Some(if |ring.sq| >= capacity && CallError(room).Some? then CallError(room).value else QUEUE_FULL))
    else Called(ring, call, done, answer)
  }

  // ---------- Operations ----------

  /** A read or write operation that owns the buffer of its own name. */
  datatype Op = Op(token: Option<nat>, sub: nat, waker: Waker)

  datatype Poll = Pending | SubmitError | Ready(result: int)

  function PollOp(op: Op, id: nat, d: Driver, waker: Waker, token: nat, pushed: bool): (Op, Driver, Poll) {
    if op.token.Some? then
      var (d', r) := GetCompletionResult(d, op.token.value);
      if r.Some? then (op.(token := None), d', Ready(r.value))
      else (op.(waker := waker), SetCompletionWaker(d', op.token.value, waker), Pending)
    else if pushed then
      (Op(Some(token), d.ring.nextSub, waker), SubmitCompletion(d, token, id, waker), Pending)
    else (op, d, SubmitError)
  }

  /** Dropping an operation in flight parks its buffer with the driver. */
  function DropOp(op: Op, id: nat, d: Driver): Driver {
    if op.token.Some? then IgnoreCompletion(d, op.token.value, id)
    else d.(released := d.released + {id})
  }

  /** Dropped with no driver at hand, the operation takes its buffer with it. */
  function DropOutside(id: nat, d: Driver): Driver {
    d.(released := d.released + {id})
  }

  // ---------- One driver, many operations, an adversarial kernel ----------

  /**
   * `owner` remembers which submission a slab entry stands for, `created` the
   * names used for operations so far, `delivered` the submissions whose result
   * has reached their operation.
   */
  datatype System = System(d: Driver, ops: map<nat, Op>, owner: map<nat, Record>, created: set<nat>, delivered: set<nat>)

  datatype Event =
    | NewOp(id: nat)
    | PollEvent(id: nat, waker: Waker, token: nat, pushed: bool)
    | DropEvent(id: nat)
    | TakeBuffer(id: nat)
    | RegisterPoll(token: nat, read: bool, write: bool)
    | ReregisterPoll(token: nat, read: bool, write: bool)
    | DeregisterPoll(token: nat)
    | SubmitPollEvent(token: nat, waker: Waker, read: bool, write: bool, pushed: bool)
    | PushTimeout
    | KernelTakes(n: nat)
    | KernelCompletes(i: nat)
    | CollectEvent(room: nat)

  function Without<T>(s: seq<T>, i: nat): seq<T>
    requires i < |s|
  {
    s[..i] + s[i + 1..]
  }

  function PollStep(y: System, id: nat, waker: Waker, token: nat, pushed: bool): System
    requires id in y.ops
  {
    var (op', d', poll) := PollOp(y.ops[id], id, y.d, waker, token, pushed);
    y.(d := d', ops := y.ops[id := op'],
       owner := if y.ops[id].token.None? && pushed
                then y.owner[token := Record(Encode(token, CompletionKind), id, y.d.ring.nextSub)] else y.owner,
       delivered := if poll.Ready? then y.delivered + {y.ops[id].sub} else y.delivered)
  }

  function KernelStep(ring: Ring, i: nat, answer: nat -> int): Ring
    requires i < |ring.kernel|
  {
    var rec := ring.kernel[i];
    ring.(kernel := Without(ring.kernel, i), cq := ring.cq + [Cqe(rec, answer(rec.sub))])
  }

  /** `answer` is what the kernel will say to each submission. Impossible events change nothing. */
  function Next(y: System, e: Event, answer: nat -> int): System {
    match e
    case NewOp(id) =>
      if id in y.created then y else y.(ops := y.ops[id := Op(None, 0, 0)], created := y.created + {id})
    case PollEvent(id, waker, token, pushed) =>
      if id !in y.ops || token in y.d.completions || token >= TOKEN_LIMIT then y
      else PollStep(y, id, waker, token, pushed)
    case DropEvent(id) =>
      if id !in y.ops then y else y.(d := DropOp(y.ops[id], id, y.d), ops := y.ops - {id})
    case TakeBuffer(id) =>
      if id !in y.ops || y.ops[id].token.Some? then y else y.(ops := y.ops - {id})
    case RegisterPoll(token, read, write) =>
      if token in y.d.polls || token >= TOKEN_LIMIT then y else y.(d := Register(y.d, token, read, write))
    case ReregisterPoll(token, read, write) =>
      if token !in y.d.polls then y
      else y.(d := y.d.(polls := y.d.polls[token := y.d.polls[token].(read := read, write := write)]))
    case DeregisterPoll(token) => y.(d := y.d.(polls := y.d.polls - {token}))
    case SubmitPollEvent(token, waker, read, write, pushed) =>
      if token !in y.d.polls || token >= TOKEN_LIMIT then y
      else y.(d := SubmitPoll(y.d, token, waker, read, write, pushed))
    case PushTimeout => y.(d := y.d.(ring := Push(y.d.ring, TIMEOUT_KEY, 0)))
    case KernelTakes(n) => y.(d := Room(y.d, n))
    case KernelCompletes(i) =>
      if i >= |y.d.ring.kernel| then y else y.(d := y.d.(ring := KernelStep(y.d.ring, i, answer)))
    case CollectEvent(room) => y.(d := Collect(y.d, room))
  }

  function Init(): System {
    System(NewDriver(), map[], map[], {}, {})
  }

  function After(events: seq<Event>, answer: nat -> int): System {
    if events == [] then Init() else Next(After(events[..|events| - 1], answer), events[|events| - 1], answer)
  }

  // ---------- What is in flight ----------

  function Records(cq: seq<Cqe>): seq<Record> {
    seq(|cq|, i requires 0 <= i < |cq| => cq[i].rec)
  }

  /** Everything submitted and not yet drained: in the submission queue, the kernel or the completion queue. */
  function Flying(ring: Ring): multiset<Record> {
    multiset(ring.sq) + multiset(ring.kernel) + multiset(Records(ring.cq))
  }

  /** Slab entries without a result are exactly the completions in flight, one each. */
  ghost predicate FlightOk(flying: multiset<Record>, completions: map<nat, Completion>, owner: map<nat, Record>) {
    && (forall r | r in flying :: flying[r] == 1)
    && (forall r | r in flying && IsCompletion(r.key) ::
          var t := DecodeToken(r.key);
          t in completions && completions[t].completed.None? && t in owner && owner[t] == r)
    && (forall t | t in completions && completions[t].completed.None? :: t in owner && owner[t] in flying)
    && (forall t | t in completions :: t in owner && IsCompletion(owner[t].key) && DecodeToken(owner[t].key) == t)
  }

  ghost predicate QueueAnswersOk(cq: seq<Cqe>, answer: nat -> int) {
    forall i | 0 <= i < |cq| :: cq[i].result == answer(cq[i].rec.sub)
  }

  /** Each entry belongs to one submission, and an entry with a result holds the kernel's answer to it. */
  ghost predicate AnswersOk(completions: map<nat, Completion>, owner: map<nat, Record>, nextSub: nat,
                            delivered: set<nat>, answer: nat -> int)
  {
    && (forall t | t in completions && t in owner && completions[t].completed.Some? ::
          completions[t].completed.value == answer(owner[t].sub))
    && (forall t | t in completions && t in owner :: owner[t].sub < nextSub && owner[t].sub !in delivered)
    && (forall n | n in delivered :: n < nextSub)
    && (forall t, u | t in completions && u in completions && t in owner && u in owner && t != u ::
          owner[t].sub != owner[u].sub)
  }

  /** An entry belongs to a live operation that holds its token, or keeps the buffer of a dropped one. */
  ghost predicate EntryOk(completions: map<nat, Completion>, owner: map<nat, Record>, ops: map<nat, Op>, t: nat)
    requires t in completions && t in owner
  {
    var id := owner[t].op;
    if id in ops && ops[id].token == Some(t) then
      && completions[t].ignored.None? && ops[id].sub == owner[t].sub
      && (completions[t].completed.None? ==> completions[t].waiter == Some(ops[id].waker))
    else id !in ops && completions[t].ignored == Some(id)
  }

  ghost predicate OwnersOk(completions: map<nat, Completion>, owner: map<nat, Record>, ops: map<nat, Op>) {
    && (forall t | t in completions && t in owner :: EntryOk(completions, owner, ops, t))
    && (forall id | id in ops && ops[id].token.Some? ::
          var t := ops[id].token.value; t in completions && t in owner && owner[t].op == id)
  }

  /** Buffers of live operations and parked buffers are not released; no two entries park the same one. */
  ghost predicate BuffersOk(completions: map<nat, Completion>, owner: map<nat, Record>, ops: map<nat, Op>,
                            released: set<nat>, created: set<nat>)
  {
    && ops.Keys <= created && released <= created && ops.Keys !! released
    && (forall t | t in completions && t in owner :: owner[t].op in created && owner[t].op !in released)
    && (forall t, u | t in completions && u in completions && t in owner && u in owner && t != u
          && owner[t].op !in ops :: owner[t].op != owner[u].op)
  }

  ghost predicate IsTheInterrupt(flying: multiset<Record>, r: Record) {
    r in flying && r.key == INTERRUPT_KEY && forall q | q in flying && q.key == INTERRUPT_KEY :: q == r
  }

  /** Exactly one interrupt read is outstanding, unless a drain has just met it. */
  ghost predicate ArmedOk(flying: multiset<Record>, rearm: bool) {
    if rearm then forall r | r in flying :: r.key != INTERRUPT_KEY
    else exists r :: IsTheInterrupt(flying, r)
  }

  /** Submission numbers are never reused. */
  ghost predicate NumbersOk(flying: multiset<Record>, nextSub: nat) {
    forall r | r in flying :: r.sub < nextSub
  }

  ghost predicate Inv(y: System, answer: nat -> int) {
    && FlightOk(Flying(y.d.ring), y.d.completions, y.owner)
    && QueueAnswersOk(y.d.ring.cq, answer)
    && AnswersOk(y.d.completions, y.owner, y.d.ring.nextSub, y.delivered, answer)
    && OwnersOk(y.d.completions, y.owner, y.ops)
    && BuffersOk(y.d.completions, y.owner, y.ops, y.d.released, y.created)
    && ArmedOk(Flying(y.d.ring), y.d.rearm)
    && NumbersOk(Flying(y.d.ring), y.d.ring.nextSub)
  }
}
