/** Where reads go wrong: for each case what a handle and its replies have to be like, and what the
    read then does. The examples construct such handles and replies. */
module ReaderFindings {
  import opened FullDownload
  import opened Prelude
  import opened RangeBuffer
  import opened RangeReader
  import opened RangeServer

  // What Read needs of its arguments.
  ghost predicate Readable(handle: HTTPFileHandle, remote: Remote, out: array<Byte>, location: nat, n: nat,
                           shared: CachedFile, full: FullReply)
    reads handle, handle.readBuffer, shared, shared.data
  {
    && handle.Open(remote) && location + n <= handle.length && n <= out.Length
    && out != handle.readBuffer && shared.data != out && shared.data != handle.readBuffer
    && shared.Holding([]) && HonestDownload(remote, full)
  }

  // A read sends its request and no other, whatever it comes to.
  lemma OneRequest(direct: bool, guard: Guard, oracle: Oracle, length: nat, b: Buffer, c: Buffer, location: nat, n: nat,
                   target: Bytes, o: Outcome, stale: Bytes, window: Bytes, answer: Bytes)
    requires location + n <= length && Fitting(b, length) && |target| == n
    requires ReadDone(direct, guard, oracle, length, b, c, location, n, target, o, stale, window, answer)
    ensures
      var asked := AskedBy(direct, b.view, length, location, n);
      c.view.requests == if asked.Some? then b.view.requests + [asked.value] else b.view.requests
  {
    hide Answered;
  }

  // ----- Short reads -----

  /** A short answer that is accepted although the success flag is down, and memory behind it that
      differs from the file: the read returns normally, with wrong bytes. */
  method ShortReadGoesUnnoticed(handle: HTTPFileHandle, ghost remote: Remote, oracle: Oracle, out: array<Byte>,
                                location: nat, n: nat)
    returns (o: Outcome, ghost stale: Bytes)
    requires handle.Open(remote) && handle.Ordered(remote) && location + n <= handle.length && n <= out.Length
    requires out != handle.readBuffer && Honest(remote, oracle)
    requires Pinned(remote, oracle, handle.Expected(), handle.source)
    requires AcceptedAnswer(handle.Expected(), oracle, handle.Asked(location, n))
    requires SingleAnswer(oracle, handle.Asked(location, n))
    requires FinalAnswer(oracle, handle.Asked(location, n))
    requires
      var beneath := handle.Beneath(location, n, out[..n]);
      beneath.Some? &&
      !RightUpTo(remote.content(handle.source), oracle, handle.Asked(location, n), beneath.value, location + n)
    modifies handle, handle.readBuffer, out
    ensures o.Success? && handle.source == old(handle.source) && handle.Open(remote)
    ensures out[..n] != remote.content(handle.source)[location..location + n]
  {
    hide ReadDone, Returned, BeneathBy;
    ghost var window;
    ghost var asked := handle.Asked(location, n);
    o, stale, window := handle.FirstHalf(remote, oracle, out, location, n);
    WrongIfShort(remote.content(handle.source), oracle, asked, old(handle.Overwrites(location, n)),
                 old(handle.InBuffer(location, n)), stale, out[..n], location, n, true, handle.Ordered(remote));
  }

  lemma WrongIfShort(file: Bytes, oracle: Oracle, asked: Option<(nat, nat)>, overwrites: bool, had: Bytes, stale: Bytes,
                     got: Bytes, location: nat, n: nat, before: bool, ordered: bool)
    requires Returned(file, oracle, asked, overwrites, had, stale, got, location, n, before, ordered)
    requires FinalAnswer(oracle, asked) && !RightUpTo(file, oracle, asked, stale, location + n)
    ensures location + n <= |file| && got != file[location..location + n]
  {
  }

  /** An unchanging object of two bytes, a reply with status 206 that ends cleanly before its first
      byte, and a request layer that does not count 206 as a success. */
  method ShortReadExample(checkETags: bool, fallbackEnabled: bool)
    returns (handle: HTTPFileHandle, remote: Remote, out: array<Byte>, o: Outcome)
    ensures handle.Open(remote) && remote.content(handle.source) == [1, 1]
    ensures o.Success? && out.Length == 2 && out[..] != [1, 1]
  {
    var short := Reply([Attempt(0, 206, "a", None, [])], false, 206, false);
    var oracle: Oracle := (offset, _) => if offset <= 2 then short else Reply([], true, 0, false);
    remote := Remote(_ => [1, 1], _ => "a");
    handle := new HTTPFileHandle(remote, 0, true, false, checkETags, fallbackEnabled);
    out := new Byte[2](_ => 0);
    assert out[..2][0..2] == out[..2] == out[..] && out[..][0] == 0 && remote.content(0)[0..2] == remote.content(0);
    assert oracle(0, 2) == short && LastBody(short) == [];
    assert !RightUpTo(remote.content(0), oracle, Some((0, 2)), out[..2], 2);
    ghost var stale;
    o, stale := ShortReadGoesUnnoticed(handle, remote, oracle, out, 0, 2);
  }

  // ----- The fallback -----

  /** The answer to the read's request shows that the server does not support ranges. */
  ghost predicate FallsBack(handle: HTTPFileHandle, oracle: Oracle, location: nat, n: nat)
    requires location + n <= handle.length
    reads handle, handle.readBuffer
  {
    var asked := handle.Asked(location, n);
    asked.Some? &&
    var r := oracle(asked.value.0, asked.value.1);
    Decides(r) && Verdict(handle.Expected(), r, asked.value.1).Fallback?
  }

  /** A download without a body for a handle that has recorded a length: the size comparison does not
      notice it, and the read takes its bytes from a buffer that was never allocated. */
  method EmptyDownloadIsRead(handle: HTTPFileHandle, ghost remote: Remote, oracle: Oracle, out: array<Byte>,
                             location: nat, n: nat, shared: CachedFile, full: FullReply)
    returns (o: Outcome, ghost first: Outcome)
    requires Readable(handle, remote, out, location, n, shared, full) && n > 0
    requires FallsBack(handle, oracle, location, n) && full.status == 200 && full.broken + full.blocks == []
    modifies handle, handle.readBuffer, out, shared, shared.data
    ensures first.Fallback? && o == Thrown(OutOfBounds)
    ensures handle.cachedFile == shared && handle.length == old(handle.length) > 0
  {
    hide ReadDone, Returned, BeneathBy;
    ghost var stale, window;
    o, first, stale, window := handle.Read(remote, oracle, out, location, n, shared, full, 0);
  }

  /** An object of two bytes that is emptied between a read of its first byte, on a server that does
      not support ranges, and the download. */
  method EmptyDownloadExample()
    returns (handle: HTTPFileHandle, remote: Remote, shared: CachedFile, o: Outcome)
    ensures o == Thrown(OutOfBounds) && remote.content(0) == [1, 2] && remote.content(1) == []
    ensures handle.cachedFile == shared && handle.length == 2
  {
    remote := Remote(v => if v == 0 then [1, 2] else [], v => if v == 0 then "a" else "b");
    var whole := Reply([Attempt(0, 200, "a", Some(2), [[1, 2]])], false, 200, true);
    handle := new HTTPFileHandle(remote, 0, true, false, true, true);
    shared := new CachedFile();
    var out := new Byte[1];
    ghost var first;
    o, first := EmptyDownloadIsRead(handle, remote, (_, _) => whole, out, 0, 1, shared, FullReply(200, 1, [], []));
  }

  /** After a download that failed the handle keeps the file that was not downloaded, so every later
      read fails with an internal error, without a request, whatever the server would reply. */
  method ReadsAfterFailedDownload(handle: HTTPFileHandle, ghost remote: Remote, oracle: Oracle, out: array<Byte>,
                                  location: nat, n: nat, shared: CachedFile, full: FullReply, later: seq<(nat, nat)>,
                                  again: nat -> Oracle)
    returns (o: Outcome, next: seq<Outcome>)
    requires Readable(handle, remote, out, location, n, shared, full)
    requires FallsBack(handle, oracle, location, n) && full.status != 200
    requires forall i | 0 <= i < |later| :: later[i].1 <= out.Length
    modifies handle, handle.readBuffer, out, shared, shared.data
    ensures o == Thrown(DownloadFailed) && handle.cachedFile == shared && !shared.initialized
    ensures |next| == |later| && forall i | 0 <= i < |later| :: next[i] == Thrown(NotInitialized)
    ensures |handle.requests| == |old(handle.requests)| + 1
  {
    hide Returned, BeneathBy, ReadDone, Honest, Pinned;
    ghost var first, stale, window, b, target := Success, [], [], handle.Contents(), out[..n];
    ghost var guard, length := handle.Expected(), handle.length;
    o, first, stale, window := handle.Read(remote, oracle, out, location, n, shared, full, 0);
    OneRequest(handle.skipBuffer, guard, oracle, length, b, handle.Contents(), location, n, target, first, stale,
               window, out[..n]);
    next := [];
    for i := 0 to |later|
      invariant handle.cachedFile == shared && !shared.initialized && shared.data != out && out != handle.readBuffer
      invariant handle.readBuffer == old(handle.readBuffer) || fresh(handle.readBuffer)
      invariant |handle.requests| == |b.view.requests| + 1
      invariant |next| == i && forall j | 0 <= j < i :: next[j] == Thrown(NotInitialized)
    {
      var r;
      r, stale, window := handle.FirstHalf(remote, again(i), out, later[i].0, later[i].1);
      next := next + [r];
    }
  }

  // ----- A refill that throws -----

  /** A read whose refill is going to throw, from a buffer that is not enlarged for it. */
  ghost predicate RefillBreaks(handle: HTTPFileHandle, oracle: Oracle, target: Bytes, location: nat, n: nat)
    requires handle.Bounds() && location + n <= handle.length && |target| == n
    reads handle, handle.readBuffer
  {
    !handle.skipBuffer && handle.Overwrites(location, n) && handle.Beneath(location, n, target).Some? &&
    var asked := handle.Asked(location, n).value;
    var r := oracle(asked.0, asked.1);
    && |r.attempts| == 1 && Verdict(handle.Expected(), r, asked.1).Thrown?
    && Arriving(handle.Expected(), r, asked.1).Some?
  }

  /** The bytes that such a refill delivers before it throws. */
  ghost function Debris(handle: HTTPFileHandle, oracle: Oracle, target: Bytes, location: nat, n: nat): Bytes
    requires handle.Bounds() && location + n <= handle.length && |target| == n
    requires RefillBreaks(handle, oracle, target, location, n)
    reads handle, handle.readBuffer
  {
    ArrivingBy(handle.Expected(), oracle, handle.Asked(location, n)).value
  }

  /** It throws and leaves those bytes in the buffer, over others that the bounds still speak of. */
  method BreakRefill(handle: HTTPFileHandle, ghost remote: Remote, oracle: Oracle, out: array<Byte>, location: nat,
                     n: nat)
    returns (o: Outcome)
    requires handle.Open(remote) && location + n <= handle.length && n <= out.Length && out != handle.readBuffer
    requires RefillBreaks(handle, oracle, out[..n], location, n)
    modifies handle, handle.readBuffer, out
    ensures o.Thrown? && handle.Open(remote) && handle.source == old(handle.source)
    ensures handle.readBuffer == old(handle.readBuffer) || fresh(handle.readBuffer)
    ensures
      var debris := old(Debris(handle, oracle, out[..n], location, n));
      && |debris| <= old(handle.readBuffer.Length)
      && handle.Contents().memory == debris + old(handle.readBuffer[..])[|debris|..]
    ensures (handle.bufferStart, handle.bufferEnd) == old((handle.bufferStart, handle.bufferEnd))
    ensures handle.requests == old(handle.requests + [handle.Asked(location, n).value])
  {
    hide Returned, Answered, Arriving, Verdict, Fetch, Mirrors, Honest, Pinned;
    ghost var b, target, file, guard := handle.Contents(), out[..n], remote.content(handle.source), handle.Expected();
    ghost var stale, window;
    o, stale, window := handle.FirstHalf(remote, oracle, out, location, n);
    BrokenRefill(guard, oracle, file, b, handle.Contents(), location, n, target, o, stale, window, out[..n]);
    OneRequest(false, guard, oracle, |file|, b, handle.Contents(), location, n, target, o, stale, window, out[..n]);
  }

  lemma ServedFromBuffer(guard: Guard, oracle: Oracle, length: nat, b: Buffer, c: Buffer, location: nat, n: nat,
                         target: Bytes, o: Outcome, stale: Bytes, window: Bytes, answer: Bytes)
    requires location + n <= length && Fitting(b, length) && |target| == n <= Available(b.view, location)
    requires ReadDone(false, guard, oracle, length, b, c, location, n, target, o, stale, window, answer)
    ensures o.Success? && c == b && answer == Had(b, length, location, n)
  {
    hide Fetch;
  }

  /** A read within the bounds needs no request and returns what the buffer has there. */
  method ReadFromBuffer(handle: HTTPFileHandle, ghost remote: Remote, oracle: Oracle, out: array<Byte>, location: nat,
                        n: nat)
    returns (o: Outcome)
    requires handle.Open(remote) && n <= out.Length && out != handle.readBuffer
    requires handle.bufferStart <= location < location + n <= handle.bufferEnd
    modifies handle, handle.readBuffer, out
    ensures o.Success? && handle.Open(remote) && handle.source == old(handle.source)
    ensures handle.requests == old(handle.requests)
    ensures
      var at := location - old(handle.bufferStart);
      out[..n] == old(handle.readBuffer[..])[at..at + n]
  {
    hide ReadDone, Returned, BeneathBy, Mirrors, Honest, Pinned, Decided;
    ghost var b, target, guard, stale, window := handle.Contents(), out[..n], handle.Expected(), [], [];
    o, stale, window := handle.FirstHalf(remote, oracle, out, location, n);
    ServedFromBuffer(guard, oracle, handle.length, b, handle.Contents(), location, n, target, o, stale, window,
                     out[..n]);
  }

  /** After it, a read within the bounds needs no request, returns normally and gets a wrong byte
      wherever such a byte differs from what the file has there. */
  method FailedRefillSpoils(handle: HTTPFileHandle, ghost remote: Remote, oracle: Oracle, out: array<Byte>,
                            location: nat, n: nat, again: Oracle, later: nat, m: nat, ghost i: nat)
    returns (o: Outcome, next: Outcome)
    requires handle.Open(remote) && location + n <= handle.length && n <= out.Length && m <= out.Length
    requires out != handle.readBuffer && RefillBreaks(handle, oracle, out[..n], location, n)
    requires handle.bufferStart <= later <= handle.bufferStart + i < later + m <= handle.bufferEnd
    requires
      var debris := Debris(handle, oracle, out[..n], location, n);
      i < |debris| && debris[i] != remote.content(handle.source)[handle.bufferStart + i]
    modifies handle, handle.readBuffer, out
    ensures handle.Open(remote) && handle.source == old(handle.source)
    ensures o.Thrown? && next.Success? && handle.requests == old(handle.requests + [handle.Asked(location, n).value])
    ensures out[..m] != remote.content(handle.source)[later..later + m]
  {
    hide Mirrors, Honest, Pinned, RefillBreaks, Debris;
    ghost var debris, file, at := Debris(handle, oracle, out[..n], location, n), remote.content(handle.source),
      handle.bufferStart + i - later;
    assert file[later..later + m][at] == file[later + at];
    o := BreakRefill(handle, remote, oracle, out, location, n);
    ghost var memory := handle.readBuffer[..];
    assert memory[i] == debris[i];
    next := ReadFromBuffer(handle, remote, again, out, later, m);
    assert out[..m][at] == memory[i];
  }

  // One attempt that delivers one block with status 206, and may break off after it.
  function OneBlock(version: nat, tag: string, block: Bytes, breaks: bool): Reply {
    Reply([Attempt(version, 206, tag, None, [block])], breaks, if breaks then 0 else 206, !breaks)
  }

  lemma OneBlockVerdict(guard: Guard, version: nat, block: Bytes, breaks: bool, len: nat)
    requires |block| <= len && (breaks || |block| == len)
    ensures var r := OneBlock(version, guard.etag, block, breaks);
      && Verdict(guard, r, len) == (if breaks then Thrown(RequestError) else Success)
      && Arriving(guard, r, len) == Some(block)
  {
    assert Concat([block]) == [] + block == block;
  }

  /** A first read, of byte 2 of four, which buffers bytes 2 and 3. */
  method BufferTwoBytes(handle: HTTPFileHandle, ghost remote: Remote, out: array<Byte>, version: nat, block: Bytes)
    returns (o: Outcome)
    requires handle.Open(remote) && handle.length == 4 && |block| == 2 && out.Length == 1 && out != handle.readBuffer
    requires !handle.skipBuffer && handle.Contents().view == View(0, 0, INITIAL_READ_BUFFER_LEN, None, [])
    modifies handle, handle.readBuffer, out
    ensures handle.Open(remote) && handle.source == old(handle.source) && handle.etag == old(handle.etag)
    ensures (handle.readBuffer == old(handle.readBuffer) || fresh(handle.readBuffer)) && o.Success?
    ensures handle.Contents().view == View(2, 4, INITIAL_READ_BUFFER_LEN, Some((2, 2)), [(2, 2)])
  {
    hide Answered, Honest, Pinned, Mirrors, Returned, Verdict;
    var good := OneBlock(version, handle.etag, block, false);
    OneBlockVerdict(handle.Expected(), version, block, false, 2);
    ghost var stale, window;
    o, stale, window := handle.FirstHalf(remote, (_, _) => good, out, 2, 1);
  }

  /** Any object of four bytes whose first and third byte differ. Byte 2 is read, which buffers bytes 2
      and 3; the refill for byte 0 breaks off after two bytes; byte 2 is read again. */
  method FailedRefillExample(remote: Remote, version: nat, checkETags: bool, fallbackEnabled: bool)
    returns (handle: HTTPFileHandle, out: array<Byte>, first: Outcome, o: Outcome, next: Outcome)
    requires var file := remote.content(version); |file| == 4 && file[0] != file[2]
    ensures handle.Open(remote) && handle.source == version && out.Length == 1
    ensures first.Success? && o.Thrown? && next.Success? && out[..] != remote.content(version)[2..3]
  {
    hide Verdict, Arriving, Mirrors;
    var file := remote.content(version);
    handle := new HTTPFileHandle(remote, version, false, false, checkETags, fallbackEnabled);
    out := new Byte[1];
    first := BufferTwoBytes(handle, remote, out, version, file[2..4]);
    var broken := OneBlock(version, handle.etag, file[..2], true);
    OneBlockVerdict(handle.Expected(), version, file[..2], true, 4);
    assert handle.Asked(0, 1) == Some((0, 4)) && handle.Overwrites(0, 1);
    o, next := FailedRefillSpoils(handle, remote, (_, _) => broken, out, 0, 1, (_, _) => broken, 2, 1, 0);
    assert out[..] == out[..1];
  }
}
