/**
 * `AsyncWrap`: a poll-based reader and writer over an inner object that is moved
 * into a future for each operation. Functions on values first, then everything
 * that can happen over a run.
 *
 * What a future does when it is polled is a parameter: `None` leaves it pending.
 */
module AsyncWrapSpec {
  import opened Prelude

  /** The error for starting an operation while another holds the inner object. */
  const BUSY: int := -1

  datatype ReadBuf = ReadBuf(bytes: seq<Byte>, advanced: nat, n: nat)

  /** The write-all future: the inner object, what is left to write, and the count so far. */
  datatype WriteFut<T> = WriteFut(inner: T, rest: seq<Byte>, total: nat)

  datatype Wrap<T> = Wrap(
    inner: Option<T>, readBuf: Option<ReadBuf>, readFut: Option<T>, writeFut: Option<WriteFut<T>>, flushFut: Option<T>)

  datatype Poll<R> = Pending | Ready(result: IoResult<R>)

  function New<T>(inner: T): Wrap<T> {
    Wrap(Some(inner), None, None, None, None)
  }

  // ---------- Reading ----------

  /** Bytes already read from the inner reader and not yet handed out. */
  function Remainder<T>(w: Wrap<T>): seq<Byte> {
    BufferedBytes(w.readBuf)
  }

  function BufferedBytes(buf: Option<ReadBuf>): seq<Byte> {
    if buf.Some? && buf.value.advanced <= buf.value.n <= |buf.value.bytes|
    then buf.value.bytes[buf.value.advanced..buf.value.n] else []
  }

  /** Hands out up to `room` bytes from position `from` and keeps the rest, if any. */
  function HandOut(bytes: seq<Byte>, from: nat, n: nat, room: nat): (seq<Byte>, Option<ReadBuf>)
    requires from <= n <= |bytes|
  {
    var k := Min(n - from, room);
    (bytes[from..from + k], if from + k < n then Some(ReadBuf(bytes, from + k, n)) else None)
  }

  /** The inner object moves into the read future. */
  function StartRead<T>(w: Wrap<T>): Wrap<T> {
    w.(readFut := w.inner, inner := None)
  }

  function FinishRead<T>(w: Wrap<T>, room: nat, outcome: Option<IoResult<seq<Byte>>>): (Wrap<T>, Poll<seq<Byte>>) {
    match outcome
    case None => (w, Pending)
    case Some(Err(code)) => (w.(readFut := None, inner := w.readFut), Ready(Err(code)))
    case Some(Ok(bytes)) =>
      var (out, buf) := HandOut(bytes, 0, |bytes|, room);
      (w.(readFut := None, inner := w.readFut, readBuf := if buf.Some? then buf else w.readBuf), Ready(Ok(out)))
  }

  predicate BufOk(readBuf: Option<ReadBuf>) {
    readBuf.Some? ==> readBuf.value.advanced < readBuf.value.n <= |readBuf.value.bytes|
  }

  /** Did this poll of the reader get as far as the inner read? */
  predicate ReachesInner<T>(w: Wrap<T>, room: nat) {
    room > 0 && (w.readFut.Some? || (w.readBuf.None? && w.inner.Some?))
  }

  function PollRead<T>(w: Wrap<T>, room: nat, outcome: Option<IoResult<seq<Byte>>>): (Wrap<T>, Poll<seq<Byte>>)
    requires BufOk(w.readBuf)
  {
    if room == 0 then (w, Ready(Ok([])))
    else if w.readFut.Some? then FinishRead(w, room, outcome)
    else if w.readBuf.Some? then
      var b := w.readBuf.value;
      var (out, buf) := HandOut(b.bytes, b.advanced, b.n, room);
      (w.(readBuf := buf), Ready(Ok(out)))
    else if w.inner.None? then (w, Ready(Err(BUSY)))
    else FinishRead(StartRead(w), room, outcome)
  }

  // ---------- Writing ----------

  datatype Writing<T> = Going(fut: WriteFut<T>) | Finished(inner: T, result: IoResult<nat>, total: nat)

  /** The inner writes that complete within one poll; a writer takes no more than it is offered. */
  function RunWrite<T>(f: WriteFut<T>, script: seq<IoResult<nat>>): Writing<T>
    decreases |script|
  {
    if f.rest == [] then Finished(f.inner, Ok(f.total), f.total)
    else if script == [] then Going(f)
    else match script[0]
      case Err(code) => Finished(f.inner, Err(code), f.total)
      case Ok(n) =>
        var k := Min(n, |f.rest|);
        RunWrite(f.(rest := f.rest[k..], total := f.total + k), script[1..])
  }

  function FinishWrite<T>(w: Wrap<T>, script: seq<IoResult<nat>>): (Wrap<T>, Poll<nat>)
    requires w.writeFut.Some?
  {
    match RunWrite(w.writeFut.value, script)
    case Going(f) => (w.(writeFut := Some(f)), Pending)
    case Finished(inner, result, _) => (w.(writeFut := None, inner := Some(inner)), Ready(result))
  }

  function PollWrite<T>(w: Wrap<T>, buf: seq<Byte>, script: seq<IoResult<nat>>): (Wrap<T>, Poll<nat>) {
    if buf == [] then (w, Ready(Ok(0)))
    else if w.writeFut.Some? then FinishWrite(w, script)
    else if w.inner.None? then (w, Ready(Err(BUSY)))
    else FinishWrite(w.(writeFut := Some(WriteFut(w.inner.value, buf, 0)), inner := None), script)
  }

  function FinishFlush<T>(w: Wrap<T>, outcome: Option<IoResult<()>>): (Wrap<T>, Poll<()>) {
    match outcome
    case None => (w, Pending)
    case Some(r) => (w.(flushFut := None, inner := w.flushFut), Ready(r))
  }

  function PollFlush<T>(w: Wrap<T>, outcome: Option<IoResult<()>>): (Wrap<T>, Poll<()>) {
    if w.flushFut.Some? then FinishFlush(w, outcome)
    else if w.inner.None? then (w, Ready(Err(BUSY)))
    else FinishFlush(w.(flushFut := w.inner, inner := None), outcome)
  }

  // ---------- Runs ----------

  /**
   * `produced`: all bytes inner reads have returned; `delivered`: all bytes
   * handed to callers; `accepted`: all bytes inner writes have taken;
   * `settled`: the part of them from writes already finished; `offered`: the
   * buffer of the write under way.
   */
  datatype Log<T> = Log(w: Wrap<T>, produced: seq<Byte>, delivered: seq<Byte>,
                        accepted: seq<Byte>, settled: seq<Byte>, offered: seq<Byte>)

  datatype Event =
    | Read(room: nat, readOutcome: Option<IoResult<seq<Byte>>>)
    | Write(buf: seq<Byte>, script: seq<IoResult<nat>>)
    | Flush(flushOutcome: Option<IoResult<()>>)

  predicate StartsWrite<T>(w: Wrap<T>, buf: seq<Byte>) {
    buf != [] && w.writeFut.None? && w.inner.Some?
  }

  /** How many bytes of the offered buffer have been taken after a poll of the write future. */
  function Taken<T>(r: Writing<T>): nat {
    match r case Going(f) => f.total case Finished(_, _, total) => total
  }

  function Next<T>(l: Log<T>, e: Event): Log<T>
    requires BufOk(l.w.readBuf)
  {
    match e
    case Read(room, outcome) =>
      var (w', poll) := PollRead(l.w, room, outcome);
      l.(w := w',
         produced := if ReachesInner(l.w, room) && outcome.Some? && outcome.value.Ok?
                     then l.produced + outcome.value.value else l.produced,
         delivered := if poll.Ready? && poll.result.Ok? then l.delivered + poll.result.value else l.delivered)
    case Write(buf, script) =>
      if !StartsWrite(l.w, buf) && !(buf != [] && l.w.writeFut.Some?) then l else
        var offered := if StartsWrite(l.w, buf) then buf else l.offered;
        var f := if StartsWrite(l.w, buf) then WriteFut(l.w.inner.value, buf, 0) else l.w.writeFut.value;
        var r := RunWrite(f, script);
        var accepted := l.settled + (if Taken(r) <= |offered| then offered[..Taken(r)] else offered);
        l.(w := PollWrite(l.w, buf, script).0, offered := offered, accepted := accepted,
           settled := if r.Finished? then accepted else l.settled)
    case Flush(outcome) => l.(w := PollFlush(l.w, outcome).0)
  }

  /** Exactly one of the four places holds the inner object, and it is always the same one. */
  ghost predicate HeldOnce<T>(w: Wrap<T>, io: T) {
    || (w.inner == Some(io) && w.readFut.None? && w.writeFut.None? && w.flushFut.None?)
    || (w.inner.None? && w.readFut == Some(io) && w.writeFut.None? && w.flushFut.None?)
    || (w.inner.None? && w.readFut.None? && w.writeFut.Some? && w.writeFut.value.inner == io && w.flushFut.None?)
    || (w.inner.None? && w.readFut.None? && w.writeFut.None? && w.flushFut == Some(io))
  }

  /** What has been delivered and what is still buffered are all that was produced. */
  ghost predicate ReadsOk(readBuf: Option<ReadBuf>, produced: seq<Byte>, delivered: seq<Byte>) {
    BufOk(readBuf) && delivered + BufferedBytes(readBuf) == produced
  }

  /** The write under way has taken a prefix of the offered buffer. */
  ghost predicate WritesOk<T>(writeFut: Option<WriteFut<T>>, accepted: seq<Byte>, settled: seq<Byte>, offered: seq<Byte>) {
    match writeFut
    case None => accepted == settled
    case Some(f) =>
      && f.total <= |offered| && f.rest == offered[f.total..]
      && accepted == settled + offered[..f.total]
  }

  ghost predicate LogOk<T>(l: Log<T>, io: T) {
    && HeldOnce(l.w, io)
    && (l.w.readFut.Some? ==> l.w.readBuf.None?)
    && ReadsOk(l.w.readBuf, l.produced, l.delivered)
    && WritesOk(l.w.writeFut, l.accepted, l.settled, l.offered)
  }

  /** What is handed out and what is kept are the pending bytes, split in two. */
  lemma HandOutSplits(bytes: seq<Byte>, from: nat, n: nat, room: nat)
    requires from <= n <= |bytes|
    ensures var (out, buf) := HandOut(bytes, from, n, room);
      BufOk(buf) && out + BufferedBytes(buf) == bytes[from..n] && |out| == Min(n - from, room)
  {
    var k := Min(n - from, room);
    assert bytes[from..n] == bytes[from..from + k] + bytes[from + k..n];
  }

  lemma HandOutKeepsReads(bytes: seq<Byte>, from: nat, n: nat, room: nat, produced: seq<Byte>, delivered: seq<Byte>)
    requires from <= n <= |bytes| && produced == delivered + bytes[from..n]
    ensures var (out, buf) := HandOut(bytes, from, n, room); ReadsOk(buf, produced, delivered + out)
  {
    hide HandOut;
    HandOutSplits(bytes, from, n, room);
    var (out, buf) := HandOut(bytes, from, n, room);
    assert delivered + out + BufferedBytes(buf) == delivered + (out + BufferedBytes(buf));
  }

  lemma ReadKeepsLog<T>(l: Log<T>, io: T, room: nat, outcome: Option<IoResult<seq<Byte>>>)
    requires LogOk(l, io)
    ensures LogOk(Next(l, Read(room, outcome)), io)
  {
    hide HandOut, WritesOk;
    if room > 0 && l.w.readFut.None? && l.w.readBuf.Some? {
      var b := l.w.readBuf.value;
      HandOutKeepsReads(b.bytes, b.advanced, b.n, room, l.produced, l.delivered);
    } else if ReachesInner(l.w, room) && outcome.Some? && outcome.value.Ok? {
      var bytes := outcome.value.value;
      assert l.delivered == l.produced && bytes[0..|bytes|] == bytes;
      HandOutKeepsReads(bytes, 0, |bytes|, room, l.produced + bytes, l.delivered);
    }
  }

  /** The write future takes the offered buffer from the front, and succeeds only at its end. */
  lemma {:induction false} RunWriteTakesPrefix<T>(f: WriteFut<T>, script: seq<IoResult<nat>>, offered: seq<Byte>)
    requires f.total <= |offered| && f.rest == offered[f.total..]
    ensures var r := RunWrite(f, script);
      && f.total <= Taken(r) <= |offered|
      && (r.Going? ==> r.fut.inner == f.inner && r.fut.rest == offered[r.fut.total..] && r.fut.rest != [])
      && (r.Finished? ==> r.inner == f.inner)
      && (r.Finished? && r.result.Ok? ==> r.total == |offered| && r.result.value == |offered|)
    decreases |script|
  {
    if f.rest != [] && script != [] && script[0].Ok? {
      var k := Min(script[0].value, |f.rest|);
      RunWriteTakesPrefix(f.(rest := f.rest[k..], total := f.total + k), script[1..], offered);
    }
  }

  lemma WriteKeepsLog<T>(l: Log<T>, io: T, buf: seq<Byte>, script: seq<IoResult<nat>>)
    requires LogOk(l, io)
    ensures LogOk(Next(l, Write(buf, script)), io)
  {
    if StartsWrite(l.w, buf) {
      RunWriteTakesPrefix(WriteFut(l.w.inner.value, buf, 0), script, buf);
    } else if l.w.writeFut.Some? {
      RunWriteTakesPrefix(l.w.writeFut.value, script, l.offered);
    }
  }

  lemma NextKeepsLog<T>(l: Log<T>, io: T, e: Event)
    requires LogOk(l, io)
    ensures LogOk(Next(l, e), io)
  {
    match e
    case Read(room, outcome) => ReadKeepsLog(l, io, room, outcome);
    case Write(buf, script) => WriteKeepsLog(l, io, buf, script);
    case Flush(outcome) =>
  }

  /** The log after a run, provided by the invariant that makes each step defined. */
  ghost function After<T>(io: T, events: seq<Event>): (l: Log<T>)
    ensures LogOk(l, io)
  {
    if events == [] then Log(New(io), [], [], [], [], [])
    else
      var l := After(io, events[..|events| - 1]);
      NextKeepsLog(l, io, events[|events| - 1]);
      Next(l, events[|events| - 1])
  }

  /**
   * Read transparency: over every sequence of reads, writes and flushes, with
   * any buffer sizes, the bytes delivered followed by the buffered remainder
   * are exactly the bytes the inner reader produced, in order.
   */
  lemma ReadsAreTransparent<T>(io: T, events: seq<Event>)
    ensures var l := After(io, events);
      l.delivered + Remainder(l.w) == l.produced && l.delivered <= l.produced
  {
    var l := After(io, events);
    assert l.produced[..|l.delivered|] == l.delivered;
  }

  /** A request with room reports end of file only if an inner read just returned no bytes. */
  lemma EmptyReadMeansEof<T>(io: T, events: seq<Event>, room: nat, outcome: Option<IoResult<seq<Byte>>>)
    requires room > 0
    requires PollRead(After(io, events).w, room, outcome).1 == Ready(Ok([]))
    ensures ReachesInner(After(io, events).w, room) && outcome == Some(Ok([]))
  {
    if outcome.Some? && outcome.value.Ok? {
      HandOutSplits(outcome.value.value, 0, |outcome.value.value|, room);
    }
  }

  /**
   * What a read answers, in every reachable state: from the remainder if there is
   * one; otherwise what the inner read answers, cut to the room, or busy if the
   * inner object is elsewhere. The inner reader's error is passed on as it is.
   */
  lemma ReadAnswers<T>(io: T, events: seq<Event>, room: nat, outcome: Option<IoResult<seq<Byte>>>)
    ensures var w := After(io, events).w; var rest := Remainder(w);
      PollRead(w, room, outcome).1 ==
        if room == 0 then Ready(Ok([]))
        else if rest != [] then Ready(Ok(rest[..Min(room, |rest|)]))
        else if w.writeFut.Some? || w.flushFut.Some? then Ready(Err(BUSY))
        else match outcome
          case None => Pending
          case Some(Ok(bytes)) => Ready(Ok(bytes[..Min(room, |bytes|)]))
          case Some(Err(code)) => Ready(Err(code))
  {
    hide After, LogOk;
    ReadAnswersHere(After(io, events), io, room, outcome);
  }

  lemma ReadAnswersHere<T>(l: Log<T>, io: T, room: nat, outcome: Option<IoResult<seq<Byte>>>)
    requires LogOk(l, io)
    ensures var rest := Remainder(l.w);
      BufOk(l.w.readBuf) && PollRead(l.w, room, outcome).1 ==
        if room == 0 then Ready(Ok([]))
        else if rest != [] then Ready(Ok(rest[..Min(room, |rest|)]))
        else if l.w.writeFut.Some? || l.w.flushFut.Some? then Ready(Err(BUSY))
        else match outcome
          case None => Pending
          case Some(Ok(bytes)) => Ready(Ok(bytes[..Min(room, |bytes|)]))
          case Some(Err(code)) => Ready(Err(code))
  {
    if l.w.readBuf.Some? {
      var b := l.w.readBuf.value;
      var k := Min(b.n - b.advanced, room);
      assert b.bytes[b.advanced..b.n][..k] == b.bytes[b.advanced..b.advanced + k];
    } else if outcome.Some? && outcome.value.Ok? {
      var bytes := outcome.value.value;
      assert bytes[0..Min(|bytes|, room)] == bytes[..Min(room, |bytes|)];
    }
  }

  /** What a flush answers: the inner flush's own result, or busy if the inner object is elsewhere. */
  lemma FlushAnswers<T>(io: T, events: seq<Event>, outcome: Option<IoResult<()>>)
    ensures var w := After(io, events).w;
      PollFlush(w, outcome).1 ==
        if w.readFut.Some? || w.writeFut.Some? then Ready(Err(BUSY))
        else match outcome case None => Pending case Some(result) => Ready(result)
  {
    assert LogOk(After(io, events), io);
  }

  /** Inner writes that complete with these counts. */
  function Counts(counts: seq<nat>): seq<IoResult<nat>> {
    if counts == [] then [] else [Ok(counts[0])] + Counts(counts[1..])
  }

  function Total(counts: seq<nat>): nat {
    if counts == [] then 0 else counts[0] + Total(counts[1..])
  }

  /** An inner error before the buffer is written ends the write with that error, whatever would have followed. */
  lemma {:induction false} WriteFailsAsInner<T>(f: WriteFut<T>, counts: seq<nat>, code: int, more: seq<IoResult<nat>>)
    requires Total(counts) < |f.rest|
    ensures RunWrite(f, Counts(counts) + [Err(code)] + more) == Finished(f.inner, Err(code), f.total + Total(counts))
    decreases |counts|
  {
    var script := Counts(counts) + [Err(code)] + more;
    if counts == [] {
      assert script[0] == Err(code);
    } else {
      var n := counts[0];
      assert script[0] == Ok(n) && script[1..] == Counts(counts[1..]) + [Err(code)] + more;
      WriteFailsAsInner(f.(rest := f.rest[n..], total := f.total + n), counts[1..], code, more);
    }
  }

  /** Writes are neither lost nor reordered, and a successful write has written its whole buffer. */
  lemma WritesAreComplete<T>(io: T, events: seq<Event>, buf: seq<Byte>, script: seq<IoResult<nat>>)
    requires buf != [] && PollWrite(After(io, events).w, buf, script).1.Ready?
    requires PollWrite(After(io, events).w, buf, script).1.result.Ok?
    ensures var l := After(io, events); var l' := Next(l, Write(buf, script));
      && l'.accepted == l.settled + l'.offered
      && PollWrite(l.w, buf, script).1.result.value == |l'.offered|
      && (l.w.writeFut.None? ==> l'.offered == buf)
  {
    var l := After(io, events);
    if StartsWrite(l.w, buf) {
      RunWriteTakesPrefix(WriteFut(l.w.inner.value, buf, 0), script, buf);
    } else if l.w.writeFut.Some? {
      RunWriteTakesPrefix(l.w.writeFut.value, script, l.offered);
    }
  }

  /** The bytes that a sequence of completed inner writes offers to take. */
  function Offers(script: seq<IoResult<nat>>): nat {
    if script == [] then 0 else Offers(script[1..]) + match script[0] case Ok(n) => n case Err(_) => 0
  }

  /**
   * The write loop ends, in however many polls, exactly when an inner write fails
   * or the inner writes add up to what is left. There is no guard against writes of nothing.
   */
  lemma {:induction false} WriteFinishesIff<T>(f: WriteFut<T>, script: seq<IoResult<nat>>)
    ensures RunWrite(f, script).Finished? <==>
      Offers(script) >= |f.rest| || exists i | 0 <= i < |script| :: script[i].Err?
    decreases |script|
  {
    if f.rest != [] && script != [] {
      match script[0]
      case Err(_) =>
      case Ok(n) =>
        var k := Min(n, |f.rest|);
        var tail := script[1..];
        WriteFinishesIff(f.(rest := f.rest[k..], total := f.total + k), tail);
        assert forall i | 0 < i < |script| :: script[i] == tail[i - 1];
        assert (exists i | 0 <= i < |script| :: script[i].Err?) <==> (exists i | 0 <= i < |tail| :: tail[i].Err?);
    }
  }

  const NOTHING_TAKEN: IoResult<nat> := Ok(0)

  /** So a writer that keeps accepting nothing keeps the write going for ever, and nothing changes. */
  lemma {:induction false} ZeroWritesNeverFinish<T>(f: WriteFut<T>, n: nat)
    requires f.rest != []
    ensures RunWrite(f, Repeat(NOTHING_TAKEN, n)) == Going(f)
  {
    if n > 0 {
      ZeroWritesNeverFinish(f, n - 1);
      assert Repeat(NOTHING_TAKEN, n)[1..] == Repeat(NOTHING_TAKEN, n - 1);
      assert f.(rest := f.rest[0..], total := f.total + 0) == f;
    }
  }

  /**
   * A successful write reports the length of the buffer it was called with if
   * and only if no earlier write was still under way, or its buffer was as long.
   */
  lemma CountIsForThisBufferIff<T>(io: T, events: seq<Event>, buf: seq<Byte>, script: seq<IoResult<nat>>)
    requires buf != [] && PollWrite(After(io, events).w, buf, script).1.Ready?
    requires PollWrite(After(io, events).w, buf, script).1.result.Ok?
    ensures var l := After(io, events);
      PollWrite(l.w, buf, script).1.result.value == |buf| <==> l.w.writeFut.None? || |l.offered| == |buf|
  {
    WritesAreComplete(io, events, buf, script);
  }

  /**
   * And the bytes it has written are those of its own buffer if and only if no
   * earlier write was still under way, or its buffer was the same.
   */
  lemma BytesAreForThisBufferIff<T>(io: T, events: seq<Event>, buf: seq<Byte>, script: seq<IoResult<nat>>)
    requires buf != [] && PollWrite(After(io, events).w, buf, script).1.Ready?
    requires PollWrite(After(io, events).w, buf, script).1.result.Ok?
    ensures var l := After(io, events);
      Next(l, Write(buf, script)).accepted == l.settled + buf <==> l.w.writeFut.None? || l.offered == buf
  {
    var l := After(io, events);
    WritesAreComplete(io, events, buf, script);
    var offered := Next(l, Write(buf, script)).offered;
    assert l.w.writeFut.Some? ==> offered == l.offered;
    assert (l.settled + offered)[|l.settled|..] == offered && (l.settled + buf)[|l.settled|..] == buf;
  }

  /** A write of one byte can report two: those of the write that was pending. */
  lemma RepollReportsFirstBuffer<T>(io: T)
    ensures var w := PollWrite(New(io), [1, 2], []).0; PollWrite(w, [9], [Ok(2)]).1 == Ready(Ok(2))
  {
    var f := WriteFut(io, [1, 2], 0);
    assert PollWrite(New(io), [1, 2], []).0.writeFut == Some(f);
    assert f.rest[2..] == [];
    assert RunWrite(f, [Ok(2)]) == RunWrite(WriteFut(io, [], 2), []);
  }

  /** The busy error is reported exactly when another operation holds the inner object. */
  lemma BusyMeansHeldElsewhere<T>(io: T, events: seq<Event>, room: nat, buf: seq<Byte>)
    requires room > 0 && buf != []
    ensures var w := After(io, events).w;
      && (w.inner.None? && w.readFut.None? && w.readBuf.None? <==> PollRead(w, room, None).1 == Ready(Err(BUSY)))
      && (w.readFut.Some? || w.flushFut.Some? <==> PollWrite(w, buf, []).1 == Ready(Err(BUSY)))
      && (w.readFut.Some? || w.writeFut.Some? <==> PollFlush(w, None).1 == Ready(Err(BUSY)))
  {
    var l := After(io, events);
    assert HeldOnce(l.w, io);
    if l.w.writeFut.Some? {
      RunWriteTakesPrefix(l.w.writeFut.value, [], l.offered);
    }
  }
}
