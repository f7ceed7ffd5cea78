/**
 * The byte pumps: sendfile over a pipe, copy, and the positioned exact reads and
 * writes. What each system call answers is a parameter, call by call; how many
 * answers a pump has used is part of its result, so that every failure and every
 * early end can be traced to the answer that caused it.
 */
module Pumps {
  import opened Prelude

  const I64_MAX: nat := 0x7FFF_FFFF_FFFF_FFFF
  const EINVAL: int := 22

  /** Errors the loops make up themselves; those of the operating system are positive. */
  const WRITE_ZERO: int := -1
  const UNEXPECTED_EOF: int := -2

  function SaturatingAdd(a: nat, b: nat): nat {
    if a + b <= U64_MAX then a + b else U64_MAX
  }

  // ---------- System calls ----------

  /** The answers to successive calls. */
  type Answers = nat -> IoResult<nat>

  predicate Moves(answer: IoResult<nat>) {
    answer.Ok? && answer.value > 0
  }

  /** A write takes what it answers, up to what it was offered; possibly nothing. */
  function Put(answer: IoResult<nat>, offered: nat): (r: IoResult<nat>)
    ensures r.Err? <==> answer.Err?
    ensures r.Ok? ==> r.value <= offered && (r.value == 0 <==> answer.value == 0 || offered == 0)
  {
    if answer.Ok? then Ok(Min(answer.value, offered)) else answer
  }

  /** A read brings what it answers, up to what there is and what was wanted, and at least one byte while there is one. */
  function Get(answer: IoResult<nat>, available: nat, wanted: nat): (r: IoResult<nat>)
    requires wanted > 0
    ensures r.Err? <==> answer.Err?
    ensures r.Ok? ==> r.value <= available && r.value <= wanted && (r.value == 0 <==> available == 0)
  {
    if answer.Err? then answer
    else Ok(Min(if answer.value == 0 then 1 else answer.value, Min(available, wanted)))
  }

  /** The error of a pump whose last write did not move anything. */
  function Failure(answer: IoResult<nat>, onZero: int): int {
    if answer.Err? then answer.code else onZero
  }

  /** Bytes taken by the calls from `first` to before `next`, of `offered` in all. */
  function Moved(says: Answers, first: nat, next: nat, offered: nat): (k: nat)
    requires first <= next
    ensures k <= offered
  {
    if next == first then 0 else
      var k := Moved(says, first, next - 1, offered);
      k + if says(next - 1).Ok? then Min(says(next - 1).value, offered - k) else 0
  }

  // ---------- sendfile through a pipe ----------

  /** What reads from an offset of the file can see; nothing past its end. */
  function From(file: seq<Byte>, start: nat): seq<Byte> {
    if start <= |file| then file[start..] else []
  }

  /** The socket stopped accepting bytes: the last of its answers is zero. */
  predicate Stalls(says: Answers, calls: nat) {
    calls > 0 && says(calls - 1) == Ok(0)
  }

  predicate FailsAt(says: Answers, calls: nat) {
    calls > 0 && says(calls - 1).Err?
  }

  /**
   * At every exit, including errors, `socket` holds the first of the bytes taken
   * from the file, in order, and `pipe` exactly the others. The call fails if and
   * only if the last answer of the file or of the socket is an error, and with
   * that error. Otherwise it ends early if and only if the socket answered zero,
   * and else has moved everything up to the requested length or the end of the file.
   */
  method SendfileExact(file: seq<Byte>, start: nat, len: nat, fileSays: Answers, socketSays: Answers)
    returns (r: IoResult<nat>, socket: seq<Byte>, pipe: seq<Byte>, gets: nat, puts: nat)
    ensures |socket| + |pipe| <= len && socket + pipe <= From(file, start)
    ensures forall i | 0 <= i < gets - 1 :: fileSays(i).Ok?
    ensures forall i | 0 <= i < puts - 1 :: Moves(socketSays(i))
    ensures r.Err? <==> FailsAt(fileSays, gets) || FailsAt(socketSays, puts)
    ensures r.Err? ==> r == if FailsAt(fileSays, gets) then fileSays(gets - 1) else socketSays(puts - 1)
    ensures r.Ok? ==> r.value == |socket|
    ensures r.Ok? && Stalls(socketSays, puts) ==> pipe != []
    ensures r.Ok? && !Stalls(socketSays, puts) ==> pipe == [] && |socket| == Min(len, |From(file, start)|)
  {
    var source := From(file, start);
    socket, pipe, gets, puts := [], [], 0, 0;
    var fromFile, toSocket, eof := 0, 0, false;
    while (fromFile < len && !eof) || toSocket < fromFile
      invariant toSocket <= fromFile <= len && fromFile <= |source|
      invariant |socket| == toSocket && |socket| + |pipe| == fromFile
      invariant socket + pipe == source[..fromFile]
      invariant eof ==> fromFile == |source|
      invariant forall i | 0 <= i < gets :: fileSays(i).Ok?
      invariant forall i | 0 <= i < puts :: Moves(socketSays(i))
      decreases len - fromFile + (if eof then 0 else 1), len - toSocket
    {
      var want := len - fromFile;
      if !eof && want > 0 {
        var got := Get(fileSays(gets), |source| - fromFile, want);
        gets := gets + 1;
        if got.Err? {
          return got, socket, pipe, gets, puts;
        }
        if got.value == 0 {
          eof := true;
        } else {
          var chunk := source[fromFile..fromFile + got.value];
          assert source[..fromFile + got.value] == source[..fromFile] + chunk;
          assert socket + (pipe + chunk) == socket + pipe + chunk;
          pipe := pipe + chunk;
          fromFile := fromFile + got.value;
        }
      }
      var ready := fromFile - toSocket;
      if ready > 0 {
        var put := Put(socketSays(puts), ready);
        puts := puts + 1;
        if put.Err? {
          return put, socket, pipe, gets, puts;
        }
        if put.value == 0 {
          break;
        }
        assert socket + pipe[..put.value] + pipe[put.value..] == socket + pipe;
        socket, pipe := socket + pipe[..put.value], pipe[put.value..];
        toSocket := toSocket + put.value;
      }
    }
    r := Ok(toSocket);
  }

  /** The poll-mode form: one system call per step, straight from file to socket. */
  method SendfilePoll(file: seq<Byte>, start: nat, len: nat, says: Answers)
    returns (r: IoResult<nat>, socket: seq<Byte>, calls: nat)
    ensures |socket| <= len && socket <= From(file, start)
    ensures forall i | 0 <= i < calls - 1 :: says(i).Ok?
    ensures r.Err? <==> FailsAt(says, calls)
    ensures r.Err? ==> r == says(calls - 1)
    ensures r.Ok? ==> r.value == |socket| && |socket| == Min(len, |From(file, start)|)
  {
    var source := From(file, start);
    socket, calls := [], 0;
    var total := 0;
    while total < len
      invariant total == |socket| <= len && socket <= source
      invariant forall i | 0 <= i < calls :: says(i).Ok?
    {
      var got := Get(says(calls), |source| - total, len - total);
      calls := calls + 1;
      if got.Err? {
        return got, socket, calls;
      }
      if got.value == 0 {
        break;
      }
      socket := socket + source[total..total + got.value];
      total := total + got.value;
    }
    r := Ok(total);
  }

  // ---------- Buffers with a cursor ----------

  datatype CursorBuf = CursorBuf(buf: seq<Byte>, cursor: nat)

  /** The bytes still to go: `as_buf_ptr` and `buf_len` seen together. */
  function Unread(c: CursorBuf): (rest: seq<Byte>)
    requires c.cursor <= |c.buf|
    ensures |rest| == |c.buf| - c.cursor
    ensures c.buf[..c.cursor] + rest == c.buf
  {
    c.buf[c.cursor..]
  }

  function Advance(c: CursorBuf, n: nat): CursorBuf {
    c.(cursor := c.cursor + n)
  }

  // ---------- copy ----------

  /**
   * Writes one buffer completely, or fails at the first answer that moves
   * nothing, with that answer's error or its own. `out` has grown by exactly the
   * bytes the answers took.
   */
  method WriteChunk(chunk: seq<Byte>, before: seq<Byte>, says: Answers, first: nat)
    returns (error: Option<int>, out: seq<Byte>, k: nat, next: nat)
    ensures first <= next && k == Moved(says, first, next, |chunk|) && out == before + chunk[..k]
    ensures forall i | first <= i < next - 1 :: Moves(says(i))
    ensures error.None? ==> k == |chunk| && (next == first || Moves(says(next - 1)))
    ensures error.Some? ==> next > first && !Moves(says(next - 1)) && error == Some(Failure(says(next - 1), WRITE_ZERO))
    ensures error.Some? ==> k < |chunk|
  {
    out, next := before, first;
    var c := CursorBuf(chunk, 0);
    while |Unread(c)| > 0
      invariant first <= next && c.buf == chunk && c.cursor <= |chunk|
      invariant c.cursor == Moved(says, first, next, |chunk|) && out == before + chunk[..c.cursor]
      invariant forall i | first <= i < next :: Moves(says(i))
      decreases |chunk| - c.cursor
    {
      var w := Put(says(next), |Unread(c)|);
      next := next + 1;
      if w.Err? {
        return Some(w.code), out, c.cursor, next;
      }
      if w.value == 0 {
        return Some(WRITE_ZERO), out, c.cursor, next;
      }
      out := out + Unread(c)[..w.value];
      c := Advance(c, w.value);
    }
    return None, out, c.cursor, next;
  }

  /**
   * The reads of `copy` offer an empty buffer with spare capacity. A reader that
   * goes by the buffer's length reads nothing into it, without a system call.
   */
  function Brings(answer: IoResult<nat>, available: nat, length: nat, capacity: nat, byLength: bool): (r: IoResult<nat>)
    requires capacity > 0
    ensures r.Ok? ==> r.value <= capacity && r.value <= available
    ensures r.Ok? ==> (r.value == 0 <==> available == 0 || (byLength && length == 0))
    ensures r.Err? <==> answer.Err? && !(byLength && length == 0)
  {
    if byLength && length == 0 then Ok(0) else Get(answer, available, capacity)
  }

  /**
   * Whatever the sizes of the partial reads and writes, the writer has received
   * a prefix of the reader's bytes at every exit. The copy fails if and only if
   * the last read or the flush fails or the last write moves nothing. A successful
   * copy has copied everything, with the matching count, if and only if there is
   * nothing or the reader goes by the buffer's capacity; otherwise it has copied nothing.
   */
  method Copy(source: seq<Byte>, capacity: nat, byLength: bool, readSays: Answers, writeSays: Answers, flushSays: IoResult<()>)
    returns (r: IoResult<nat>, written: seq<Byte>, gets: nat, puts: nat)
    requires capacity > 0
    ensures written <= source
    ensures forall i | 0 <= i < gets - 1 :: byLength || readSays(i).Ok?
    ensures forall i | 0 <= i < puts - 1 :: Moves(writeSays(i))
    ensures r.Err? <==>
      (FailsAt(readSays, gets) && !byLength) || (puts > 0 && !Moves(writeSays(puts - 1))) || flushSays.Err?
    ensures FailsAt(readSays, gets) && !byLength ==> r == readSays(gets - 1)
    ensures puts > 0 && !Moves(writeSays(puts - 1)) ==> r == Err(Failure(writeSays(puts - 1), WRITE_ZERO))
    ensures (FailsAt(readSays, gets) ==> byLength) && (puts > 0 ==> Moves(writeSays(puts - 1))) ==>
      (r.Err? <==> flushSays.Err?) && (r.Err? ==> r.code == flushSays.code)
    ensures r.Ok? ==> r.value == Min(|written|, U64_MAX)
    ensures r.Ok? ==> written == if byLength then [] else source
  {
    written, gets, puts := [], 0, 0;
    var pos, copied := 0, 0;
    while true
      invariant pos <= |source| && written == source[..pos] && copied == Min(pos, U64_MAX)
      invariant byLength ==> pos == 0
      invariant forall i | 0 <= i < gets :: byLength || readSays(i).Ok?
      invariant forall i | 0 <= i < puts :: Moves(writeSays(i))
      decreases |source| - pos
    {
      var read := Brings(readSays(gets), |source| - pos, 0, capacity, byLength);
      gets := gets + 1;
      if read.Err? {
        return Err(read.code), written, gets, puts;
      }
      if read.value == 0 {
        break;
      }
      var chunk := source[pos..pos + read.value];
      var error, out, k, next := WriteChunk(chunk, written, writeSays, puts);
      assert source[..pos] + chunk[..k] == source[..pos + k];
      written, puts := out, next;
      if error.Some? {
        return Err(error.value), written, gets, puts;
      }
      pos := pos + read.value;
      copied := SaturatingAdd(copied, read.value);
    }
    if flushSays.Err? {
      return Err(flushSays.code), written, gets, puts;
    }
    r := Ok(copied);
  }

  // ---------- Positioned exact reads and writes ----------

  function Zeros(n: nat): seq<Byte> {
    seq(n, _ => 0)
  }

  /** The file after `data` has been written at `offset`; a gap reads as zeros. */
  function Overlay(file: seq<Byte>, offset: nat, data: seq<Byte>): (out: seq<Byte>)
    ensures data == [] ==> out == file
    ensures data != [] ==> |out| == if offset + |data| > |file| then offset + |data| else |file|
  {
    if data == [] then file
    else if offset > |file| then file + Zeros(offset - |file|) + data
    else if offset + |data| >= |file| then file[..offset] + data
    else file[..offset] + data + file[offset + |data|..]
  }

  /** What was written can be read back, nothing else has changed, and a gap reads as zeros. */
  lemma OverlayReadsBack(file: seq<Byte>, offset: nat, data: seq<Byte>)
    requires data != []
    ensures Overlay(file, offset, data)[offset..offset + |data|] == data
    ensures forall i | 0 <= i < |file| && !(offset <= i < offset + |data|) :: Overlay(file, offset, data)[i] == file[i]
    ensures forall i | |file| <= i < offset :: Overlay(file, offset, data)[i] == 0
  {}

  /** Writing in two adjoining pieces is writing at once. */
  lemma OverlayComposes(file: seq<Byte>, offset: nat, a: seq<Byte>, b: seq<Byte>)
    ensures Overlay(Overlay(file, offset, a), offset + |a|, b) == Overlay(file, offset, a + b)
  {
    if a == [] {
      assert a + b == b;
    } else if b == [] {
      assert a + b == a;
    } else {
      var once, twice := Overlay(file, offset, a + b), Overlay(Overlay(file, offset, a), offset + |a|, b);
      assert |once| == |twice|;
      forall i | 0 <= i < |once| ensures once[i] == twice[i] {}
    }
  }

  /** The system refuses writes past the signed range of offsets. */
  function WriteReply(answer: IoResult<nat>, offset: nat, offered: nat): IoResult<nat> {
    if offset + offered > I64_MAX then Err(EINVAL) else Put(answer, offered)
  }

  /**
   * Success leaves exactly the buffer at the offset; failure leaves exactly the
   * bytes the answers took, a proper prefix. The rest of the file is untouched.
   * It fails if and only if the last reply moves nothing, with that reply's error.
   */
  method WriteExactAt(file: seq<Byte>, data: seq<Byte>, at: nat, says: Answers)
    returns (r: IoResult<()>, file': seq<Byte>, k: nat, calls: nat)
    requires at <= U64_MAX
    ensures k <= |data| && file' == Overlay(file, at, data[..k])
    ensures r.Ok? ==> k == |data| && file' == Overlay(file, at, data) && k == Moved(says, 0, calls, |data|)
    ensures forall i | 0 <= i < calls - 1 :: Moves(says(i))
    ensures r.Ok? ==> calls == 0 || Moves(says(calls - 1))
    ensures r.Err? ==> calls > 0 && k == Moved(says, 0, calls - 1, |data|) < |data|
    ensures r.Err? ==> var reply := WriteReply(says(calls - 1), at + k, |data| - k);
      !Moves(reply) && r.code == Failure(reply, UNEXPECTED_EOF)
  {
    hide Overlay;
    file', calls := file, 0;
    var offset := at;
    var c := CursorBuf(data, 0);
    while |Unread(c)| > 0
      invariant c.buf == data && c.cursor <= |data|
      invariant c.cursor > 0 ==> offset == at + c.cursor <= I64_MAX
      invariant c.cursor == 0 ==> offset == at
      invariant c.cursor == Moved(says, 0, calls, |data|)
      invariant forall i | 0 <= i < calls :: Moves(says(i))
      invariant file' == Overlay(file, at, data[..c.cursor])
      decreases |data| - c.cursor
    {
      var written := WriteReply(says(calls), offset, |Unread(c)|);
      calls := calls + 1;
      if written.Err? {
        return Err(written.code), file', c.cursor, calls;
      }
      file' := Overlay(file', offset, Unread(c)[..written.value]);
      if written.value == 0 {
        NothingWritten(file, at, data[..c.cursor], offset);
        return Err(UNEXPECTED_EOF), file', c.cursor, calls;
      }
      OverlayComposes(file, at, data[..c.cursor], Unread(c)[..written.value]);
      assert data[..c.cursor] + Unread(c)[..written.value] == data[..c.cursor + written.value];
      offset := SaturatingAdd(offset, written.value);
      c := Advance(c, written.value);
    }
    assert data[..c.cursor] == data;
    return Ok(()), file', c.cursor, calls;
  }

  lemma NothingWritten(file: seq<Byte>, at: nat, data: seq<Byte>, offset: nat)
    ensures Overlay(Overlay(file, at, data), offset, []) == Overlay(file, at, data)
  {}

  /**
   * Fills a buffer of fixed length, with exactly the file's bytes. It fails if and
   * only if the last answer is an error, with that error, or the file is too
   * short, with an unexpected end; a correct prefix is filled in every case.
   */
  method ReadExactAt(file: seq<Byte>, n: nat, at: nat, says: Answers) returns (r: IoResult<()>, filled: seq<Byte>, calls: nat)
    requires at <= U64_MAX && |file| <= I64_MAX
    ensures |filled| <= n && filled <= From(file, at)
    ensures r.Ok? <==> |filled| == n
    ensures forall i | 0 <= i < calls - 1 :: says(i).Ok?
    ensures r.Ok? ==> !FailsAt(says, calls)
    ensures r.Err? && FailsAt(says, calls) ==> r.code == says(calls - 1).code
    ensures r.Err? && !FailsAt(says, calls) ==> r.code == UNEXPECTED_EOF && filled == From(file, at)
  {
    var source := From(file, at);
    filled, calls := [], 0;
    var offset := at;
    while |filled| < n
      invariant |filled| <= n && offset == at + |filled| && filled <= source
      invariant forall i | 0 <= i < calls :: says(i).Ok?
      decreases n - |filled|
    {
      var read := Get(says(calls), if offset < |file| then |file| - offset else 0, n - |filled|);
      calls := calls + 1;
      if read.Err? {
        return Err(read.code), filled, calls;
      }
      if read.value == 0 {
        return Err(UNEXPECTED_EOF), filled, calls;
      }
      filled := filled + file[offset..offset + read.value];
      offset := SaturatingAdd(offset, read.value);
    }
    r := Ok(());
  }

  /**
   * The same loop on a growable buffer read by the ring: each read asks for the
   * spare capacity and then sets the buffer's length to what it has brought, so
   * that the first read that brings anything is the last. A successful call fills
   * the buffer to its old length if and only if that one read did.
   */
  method ReadExactAtGrowable(file: seq<Byte>, len: nat, capacity: nat, at: nat, says: Answers)
    returns (r: IoResult<()>, filled: seq<Byte>, calls: nat)
    requires len <= capacity && at <= U64_MAX && |file| <= I64_MAX
    ensures calls == if len == 0 then 0 else 1
    ensures len == 0 ==> r.Ok? && filled == []
    ensures len > 0 ==>
      match Get(says(0), |From(file, at)|, capacity)
      case Err(code) => r == Err(code) && filled == []
      case Ok(n) => filled == From(file, at)[..n] && r == if n > 0 then Ok(()) else Err(UNEXPECTED_EOF)
  {
    var source := From(file, at);
    filled, calls := [], 0;
    var bufLen, cursor, offset := len, 0, at;
    while bufLen - cursor > 0
      invariant cursor <= bufLen <= capacity && |filled| == cursor && filled <= source
      invariant offset == at + cursor
      invariant if calls == 0 then cursor == 0 && bufLen == len else
        calls == 1 && 0 < cursor == bufLen && len > 0 && Get(says(0), |source|, capacity) == Ok(cursor)
      decreases bufLen - cursor
    {
      var read := Get(says(calls), |source| - cursor, capacity - cursor);
      calls := calls + 1;
      if read.Err? {
        return Err(read.code), filled, calls;
      }
      if read.value == 0 {
        return Err(UNEXPECTED_EOF), filled, calls;
      }
      filled := filled + source[cursor..cursor + read.value];
      bufLen := cursor + read.value;
      offset := SaturatingAdd(offset, read.value);
      cursor := cursor + read.value;
    }
    r := Ok(());
  }
}
