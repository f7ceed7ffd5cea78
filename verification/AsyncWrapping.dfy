/** The wrapper object itself: each method computes the function of AsyncWrapSpec of the same name. */
module AsyncWrapping {
  import opened Prelude
  import opened AsyncWrapSpec

  class AsyncWrap<T> {
    var inner: Option<T>
    var readBuf: Option<ReadBuf>
    var readFut: Option<T>
    var writeFut: Option<WriteFut<T>>
    var flushFut: Option<T>

    ghost function View(): Wrap<T>
      reads this
    {
      Wrap(inner, readBuf, readFut, writeFut, flushFut)
    }

    constructor (io: T)
      ensures View() == New(io)
    {
      inner, readBuf, readFut, writeFut, flushFut := Some(io), None, None, None, None;
    }

    /** `room` is what the caller's buffer can still take; the result is what was put there. */
    method PollRead(room: nat, outcome: Option<IoResult<seq<Byte>>>) returns (poll: Poll<seq<Byte>>)
      requires BufOk(readBuf)
      modifies this
      ensures (View(), poll) == AsyncWrapSpec.PollRead(old(View()), room, outcome)
    {
      if room == 0 {
        return Ready(Ok([]));
      }
      if readFut.None? {
        var taken := readBuf;
        readBuf := None;
        if taken.Some? {
          var b := taken.value;
          var copyLen := if b.n - b.advanced < room then b.n - b.advanced else room;
          if b.advanced + copyLen < b.n {
            readBuf := Some(ReadBuf(b.bytes, b.advanced + copyLen, b.n));
          }
          return Ready(Ok(b.bytes[b.advanced..b.advanced + copyLen]));
        }
        if inner.None? {
          return Ready(Err(BUSY));
        }
        readFut, inner := inner, None;
      }
      if outcome.None? {
        return Pending;
      }
      inner, readFut := readFut, None;
      match outcome.value
      case Err(code) => return Ready(Err(code));
      case Ok(bytes) =>
        var copyLen := if |bytes| < room then |bytes| else room;
        if copyLen < |bytes| {
          readBuf := Some(ReadBuf(bytes, copyLen, |bytes|));
        }
        return Ready(Ok(bytes[0..copyLen]));
    }

    /** The write-all loop of the future, as far as the completed inner writes take it. */
    static method WriteAll(f: WriteFut<T>, script: seq<IoResult<nat>>) returns (r: Writing<T>)
      ensures r == RunWrite(f, script)
    {
      var rest, total, i := f.rest, f.total, 0;
      assert script[0..] == script;
      while rest != []
        invariant i <= |script|
        invariant RunWrite(WriteFut(f.inner, rest, total), script[i..]) == RunWrite(f, script)
        decreases |script| - i
      {
        if i == |script| {
          return Going(WriteFut(f.inner, rest, total));
        }
        assert script[i..][0] == script[i] && script[i..][1..] == script[i + 1..];
        match script[i]
        case Err(code) => return Finished(f.inner, Err(code), total);
        case Ok(n) =>
          var k := if n < |rest| then n else |rest|;
          rest, total, i := rest[k..], total + k, i + 1;
      }
      r := Finished(f.inner, Ok(total), total);
    }

    method PollWrite(buf: seq<Byte>, script: seq<IoResult<nat>>) returns (poll: Poll<nat>)
      modifies this
      ensures (View(), poll) == AsyncWrapSpec.PollWrite(old(View()), buf, script)
      ensures buf == [] ==> poll == Ready(Ok(0)) && View() == old(View())
    {
      if buf == [] {
        return Ready(Ok(0));
      }
      if writeFut.None? {
        if inner.None? {
          return Ready(Err(BUSY));
        }
        writeFut, inner := Some(WriteFut(inner.value, buf, 0)), None;
      }
      var r := WriteAll(writeFut.value, script);
      match r
      case Going(f) =>
        writeFut := Some(f);
        poll := Pending;
      case Finished(holder, result, _) =>
        writeFut, inner := None, Some(holder);
        poll := Ready(result);
    }

    method PollFlush(outcome: Option<IoResult<()>>) returns (poll: Poll<()>)
      modifies this
      ensures (View(), poll) == AsyncWrapSpec.PollFlush(old(View()), outcome)
      ensures old(flushFut.Some? || inner.Some?) ==> poll == if outcome.None? then Pending else Ready(outcome.value)
    {
      if flushFut.None? {
        if inner.None? {
          return Ready(Err(BUSY));
        }
        flushFut, inner := inner, None;
      }
      if outcome.None? {
        return Pending;
      }
      inner, flushFut := flushFut, None;
      poll := Ready(outcome.value);
    }
  }
}
