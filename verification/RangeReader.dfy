/** Reading a remote file through range requests: a direct path, a read buffer with adaptive
    size, a bypass of that buffer and the fallback to a full download. */
module RangeReader {
  import opened FullDownload
  import opened Prelude
  import opened RangeBuffer
  import opened RangeServer

  class HTTPFileHandle {
    const skipBuffer: bool
    const parallel: bool
    const checkETags: bool
    const fallbackEnabled: bool
    var length: nat
    var etag: string
    var cachedFile: CachedFile?
    var bufferAvailable: nat
    var bufferIdx: nat
    var fileOffset: nat
    var bufferStart: nat
    var bufferEnd: nat
    var readBuffer: array<Byte>
    var last: Option<(nat, nat)>           // the newest range request statistics
    ghost var requests: seq<(nat, nat)>    // every range request sent
    ghost var source: nat                  // the version all reads are served from

    /** A handle opened for reading without a download: its length and ETag are those of the
        version found at open. */
    constructor (remote: Remote, version: nat, direct: bool, parallel: bool, checkETags: bool, fallbackEnabled: bool)
      ensures Valid(remote) && cachedFile == null && source == version && etag == remote.tag(version)
      ensures skipBuffer == (direct || parallel) && this.parallel == parallel
      ensures this.checkETags == checkETags && this.fallbackEnabled == fallbackEnabled
      ensures !skipBuffer ==> Contents().view == View(0, 0, INITIAL_READ_BUFFER_LEN, None, [])
      ensures fresh(readBuffer)
    {
      skipBuffer, this.parallel := direct || parallel, parallel;
      this.checkETags, this.fallbackEnabled := checkETags, fallbackEnabled;
      length, etag, cachedFile := |remote.content(version)|, remote.tag(version), null;
      bufferAvailable, bufferIdx, fileOffset, bufferStart, bufferEnd := 0, 0, 0, 0, 0;
      readBuffer := new Byte[if direct || parallel then 0 else INITIAL_READ_BUFFER_LEN];
      last, requests, source := None, [], version;
    }

    /** The bounds of the buffer, whatever it holds: what every read keeps, also one that throws. */
    ghost predicate Bounds()
      reads `bufferStart, `bufferEnd, `readBuffer, `length
    {
      && (parallel ==> skipBuffer) && bufferStart <= bufferEnd <= length && bufferEnd - bufferStart <= readBuffer.Length
      && if skipBuffer then bufferStart == bufferEnd else readBuffer.Length > 0
    }

    /** The buffer holds what the file has there. */
    ghost predicate Ordered(remote: Remote)
      reads `bufferStart, `bufferEnd, `readBuffer, `last, `requests, `source, readBuffer
    {
      Mirrors(Contents(), remote.content(source))
    }

    /** Before a full download the handle has the length of its version. */
    ghost predicate Open(remote: Remote)
      reads `bufferStart, `bufferEnd, `readBuffer, `source, `cachedFile, `length
    {
      cachedFile == null && Bounds() && length == |remote.content(source)|
    }

    /** Before a full download the buffer mirrors the version recorded at open; afterwards the
        cached file holds one version. */
    ghost predicate Valid(remote: Remote)
      reads `bufferStart, `bufferEnd, `readBuffer, `last, `requests, `source, `cachedFile, `length, readBuffer,
        cachedFile, if cachedFile == null then {} else {cachedFile.data}
    {
      if cachedFile == null then Open(remote) && Ordered(remote)
      else (parallel ==> skipBuffer) && cachedFile.Sealed(remote.content(source))
    }

    /** What the handle compares ETags with, and whether it may fall back. */
    function Expected(): Guard
      reads `etag
    {
      Guard(checkETags, etag, fallbackEnabled)
    }

    ghost function Contents(): (b: Buffer)
      reads `bufferStart, `bufferEnd, `readBuffer, `last, `requests, readBuffer
      ensures |b.memory| == b.view.size
    {
      Buffer(View(bufferStart, bufferEnd, readBuffer.Length, last, requests), readBuffer[..])
    }

    // ----- One range request -----

    /** The content handler, block by block; it refuses more bytes than were asked for. */
    method TakeChunks(chunks: seq<Bytes>, out: array<Byte>, at: nat, start: nat, len: nat)
      returns (received: nat, error: Option<Error>)
      requires at + len <= out.Length && start <= len
      modifies out
      ensures out[..at + start] == old(out[..at + start]) && start <= received <= len
      ensures out[at + received..] == old(out[at + received..])
      ensures error == if start + |Concat(chunks)| > len then Some(TooMuchData) else None
      ensures error.None? ==> received == start + |Concat(chunks)| && out[at + start..at + received] == Concat(chunks)
    {
      received, error := start, None;
      for i := 0 to |chunks|
        invariant start <= received <= len && received == start + |Concat(chunks[..i])|
        invariant out[..at + start] == old(out[..at + start]) && out[at + received..] == old(out[at + received..])
        invariant out[at + start..at + received] == Concat(chunks[..i])
      {
        ConcatSnoc(chunks, i);
        if |chunks[i]| + received > len {
          assert chunks == chunks[..i + 1] + chunks[i + 1..];
          ConcatConcat(chunks[..i + 1], chunks[i + 1..]);
          return received, Some(TooMuchData);
        }
        CopyInto(chunks[i], out, at + received);
        received := received + |chunks[i]|;
      }
      assert chunks[..|chunks|] == chunks;
    }

    /** The handlers of one range request run over one attempt. */
    method RunAttempt(a: Attempt, out: array<Byte>, at: nat, len: nat, before: nat)
      returns (received: nat, error: Option<Error>)
      requires at + len <= out.Length && before <= len
      modifies out
      ensures out[..at] == old(out[..at]) && out[at + len..] == old(out[at + len..]) && received <= len
      ensures error == Raised(Expected(), a, len, before)
      ensures error.None? ==> received == (if a.status < 300 then 0 else before) + |Concat(a.chunks)|
      ensures
        var arriving := ArrivingIn(Expected(), a, len);
        arriving.Some? ==> out[at..at + len] == Landed(arriving.value, old(out[at..at + len]))
    {
      LandedNothing(out[at..at + len]);
      received, error := before, None;
      if a.status < 300 {
        received := 0;
        if !ETagAccepted(Expected(), a.etag) {
          error := Some(ETagChanged);
        } else if a.contentLength.Some? && a.contentLength.value != len {
          error := Some(RangeNotSupported);
        }
      }
      if error.None? {
        ghost var from := at + received;
        received, error := TakeChunks(a.chunks, out, at, received, len);
        PrefixSame(out[..], old(out[..]), at, from);
        SuffixSame(out[..], old(out[..]), at + received, at + len);
        if Concat(a.chunks) == [] {
          assert at + received == from;
          NothingLands(out[..], old(out[..]), at, from, len);
        }
        if error.None? && a.status < 300 {
          LandsAt(out[..], old(out[..]), at, len, Concat(a.chunks));
        }
      }
    }

    /** All attempts of one request; `stale` is what the buffer held before the last one. */
    method RunAttempts(attempts: seq<Attempt>, out: array<Byte>, at: nat, len: nat)
      returns (received: nat, error: Option<Error>, ghost stale: Bytes)
      requires at + len <= out.Length
      modifies out
      ensures out[..at] == old(out[..at]) && out[at + len..] == old(out[at + len..]) && |stale| == len
      ensures |attempts| <= 1 ==> stale == old(out[at..at + len])
      ensures attempts == [] ==> received == 0 && error.None? && out[at..at + len] == stale
      ensures attempts != [] ==>
        var arriving := ArrivingIn(Expected(), attempts[|attempts| - 1], len);
        arriving.Some? ==> out[at..at + len] == Landed(arriving.value, stale)
      ensures attempts != [] && (|attempts| == 1 || attempts[|attempts| - 1].status < 300) ==>
        && error == Raised(Expected(), attempts[|attempts| - 1], len, 0)
        && (error.None? ==> received == |Concat(attempts[|attempts| - 1].chunks)|)
      ensures attempts != [] && attempts[|attempts| - 1].status >= 300 &&
              Concat(attempts[|attempts| - 1].chunks) == [] ==>
        error.None?
      ensures error.Some? ==> error.value in {ETagChanged, RangeNotSupported, TooMuchData}
    {
      hide Landed, ArrivingIn, ETagAccepted;
      received, error := 0, None;
      stale := out[at..at + len];
      for i := 0 to |attempts|
        invariant received <= len && |stale| == len
        invariant out[..at] == old(out[..at]) && out[at + len..] == old(out[at + len..])
        invariant i <= 1 ==> stale == old(out[at..at + len])
        invariant i == 0 ==> received == 0 && error.None? && out[at..at + len] == stale
        invariant i > 0 ==>
          var arriving := ArrivingIn(Expected(), attempts[i - 1], len);
          arriving.Some? ==> out[at..at + len] == Landed(arriving.value, stale)
        invariant i > 0 && (i == 1 || attempts[i - 1].status < 300) ==>
          && error == Raised(Expected(), attempts[i - 1], len, 0)
          && (error.None? ==> received == |Concat(attempts[i - 1].chunks)|)
        invariant i > 0 && attempts[i - 1].status >= 300 && Concat(attempts[i - 1].chunks) == [] ==> error.None?
        invariant error.Some? ==> error.value in {ETagChanged, RangeNotSupported, TooMuchData}
      {
        stale := out[at..at + len];
        received, error := RunAttempt(attempts[i], out, at, len, received);
      }
    }

    method RunGetRangeRequest(reply: Reply, out: array<Byte>, at: nat, len: nat)
      returns (o: Outcome, ghost stale: Bytes)
      requires at + len <= out.Length
      modifies out
      ensures out[..at] == old(out[..at]) && out[at + len..] == old(out[at + len..]) && |stale| == len
      ensures |reply.attempts| <= 1 ==> stale == old(out[at..at + len])
      ensures
        var arriving := Arriving(Expected(), reply, len);
        arriving.Some? ==> out[at..at + len] == Landed(arriving.value, stale)
      ensures o.Success? ==> !reply.failed && reply.status < 400
      ensures o.Success? && reply.attempts != [] && Last(reply).status < 300 ==>
        Handled(Expected(), reply, len) && (reply.success ==> |LastBody(reply)| == len)
      ensures Decides(reply) ==>
        var v := Verdict(Expected(), reply, len);
        if reply.success || reply.status == 206 || reply.status == 202 || !o.Success? then o == v
        else v == Thrown(HttpStatus)
      ensures (o.Fallback? ==> fallbackEnabled) && (o.Thrown? ==> IsRequestError(o.error))
    {
      hide Landed, ArrivingIn, ETagAccepted, Raised;
      LandedNothing(out[at..at + len]);
      if reply.attempts != [] {
        NothingRaised(Expected(), Last(reply), len);
      }
      var received: nat, error;
      received, error, stale := RunAttempts(reply.attempts, out, at, len);
      LandedNothing(stale);
      if error.Some? {
        o := if error.value == RangeNotSupported && fallbackEnabled then Fallback else Thrown(error.value);
      } else if reply.failed {
        o := Thrown(RequestError);
      } else if reply.status >= 400 {
        o := Thrown(HttpStatus);
      } else if reply.success && received != len {
        o := Thrown(ShortRead);
      } else {
        o := Success;
      }
    }

    /** One range request: what it comes to and what it leaves in its target, also if it fails. */
    method TryRangeRequest(oracle: Oracle, offset: nat, out: array<Byte>, at: nat, len: nat)
      returns (o: Outcome, ghost stale: Bytes)
      requires at + len <= out.Length
      modifies out, this`last, this`requests
      ensures requests == old(requests) + [(offset, len)]
      ensures last == if o.Success? && !parallel then Some((offset, len)) else old(last)
      ensures out[..at] == old(out[..at]) && out[at + len..] == old(out[at + len..])
      ensures |oracle(offset, len).attempts| <= 1 ==> stale == old(out[at..at + len])
      ensures Answered(Expected(), oracle(offset, len), len, o, stale, out[at..at + len])
    {
      var reply := oracle(offset, len);
      requests := requests + [(offset, len)];
      o, stale := RunGetRangeRequest(reply, out, at, len);
      if o.Success? {
        if reply.success || reply.status == 206 || reply.status == 202 {
          if !parallel {
            last := Some((offset, len));
          }
        } else {
          o := Thrown(HttpStatus);
        }
      }
    }

    // ----- The read buffer -----

    method AdaptReadBufferSize(next: nat)
      requires !skipBuffer && readBuffer.Length > 0
      modifies this`readBuffer
      ensures readBuffer.Length == AdaptedSize(old(readBuffer.Length), last, next)
      ensures if readBuffer.Length == old(readBuffer.Length) then readBuffer == old(readBuffer) else fresh(readBuffer)
    {
      if last.None? || last.value.0 + last.value.1 != next || readBuffer.Length >= MAXIMUM_READ_BUFFER_LEN {
        return;
      }
      readBuffer := new Byte[readBuffer.Length * 2];
    }

    /** Where `location` is in the read buffer. */
    method FindInBuffer(location: nat)
      requires bufferStart <= bufferEnd
      modifies this`bufferIdx, this`bufferAvailable
      ensures bufferAvailable == if bufferStart <= location < bufferEnd then bufferEnd - location else 0
      ensures bufferAvailable > 0 ==> bufferStart + bufferIdx == location
    {
      if bufferStart <= location < bufferEnd {
        bufferIdx := location - bufferStart;
        bufferAvailable := bufferEnd - bufferStart - bufferIdx;
      } else {
        bufferAvailable, bufferIdx := 0, 0;
      }
    }

    /** The current position of a buffered read is in the buffer, as far as it is available. */
    ghost predicate Positioned(position: nat)
      reads `bufferStart, `bufferEnd, `bufferIdx, `bufferAvailable
    {
      bufferAvailable > 0 ==> bufferStart + bufferIdx == position && position + bufferAvailable == bufferEnd
    }

    /** What a read has once it takes `len` more bytes from the buffer. */
    ghost function Taken(out: array<Byte>, got: nat, len: nat): Bytes
      requires got <= out.Length
      reads `bufferIdx, `readBuffer, out, readBuffer
    {
      out[..got] +
      if 0 < len && bufferIdx + len <= readBuffer.Length then readBuffer[bufferIdx..bufferIdx + len] else []
    }

    method TakeFromBuffer(out: array<Byte>, ghost location: nat, got: nat, n: nat, ghost behind: Bytes)
      returns (newGot: nat)
      requires Bounds() && Positioned(location + got)
      requires got <= n <= out.Length && out != readBuffer
      requires behind == out[got + Min(bufferAvailable, n - got)..n]
      modifies out, this`bufferIdx, this`bufferAvailable
      ensures newGot == got + Min(old(bufferAvailable), n - got)
      ensures bufferAvailable == old(bufferAvailable) - (newGot - got) && Positioned(location + newGot)
      ensures out[..newGot] == old(Taken(out, got, Min(bufferAvailable, n - got)))
      ensures out[newGot..n] == behind
    {
      var len := Min(bufferAvailable, n - got);
      newGot := got + len;
      ghost var tail := out[newGot..];
      assert behind == tail[..n - newGot];
      if len > 0 {
        CopyInto(readBuffer[bufferIdx..bufferIdx + len], out, got);
        bufferIdx, bufferAvailable := bufferIdx + len, bufferAvailable - len;
      }
      assert out[newGot..] == tail;
      assert out[newGot..n] == out[newGot..][..n - newGot];
    }

    /** Requests `available` bytes into the read buffer. */
    method FillFrom(oracle: Oracle, at: nat, available: nat)
      returns (o: Outcome, ghost stale: Bytes, ghost window: Bytes)
      requires !parallel && available <= readBuffer.Length
      modifies this`last, this`requests, this`bufferStart, this`bufferEnd, this`bufferIdx, this`bufferAvailable,
        readBuffer
      ensures
        var m, c := old(Contents()), Contents();
        && c.view.requests == m.view.requests + [(at, available)] && c.view.size == m.view.size
        && Answered(Expected(), oracle(at, available), available, o, stale, window)
        && (if o.Success? then
              (c.view.start, c.view.end, c.view.last) == (at, at + available, Some((at, available)))
            else (c.view.start, c.view.end, c.view.last) == (m.view.start, m.view.end, m.view.last))
        && c.memory[..available] == window && c.memory[available..] == m.memory[available..]
        && (|oracle(at, available).attempts| <= 1 ==> stale == m.memory[..available])
      ensures o.Success? ==> bufferIdx == 0 && bufferAvailable == available
    {
      hide Answered;
      ghost var m := readBuffer[..];
      assert readBuffer[0 + available..] == m[available..] && readBuffer[0..0 + available] == m[..available];
      o, stale := TryRangeRequest(oracle, at, readBuffer, 0, available);
      window := readBuffer[0..0 + available];
      if o.Success? {
        bufferAvailable, bufferIdx := available, 0;
        bufferStart := at;
        bufferEnd := bufferStart + available;
      }
      assert readBuffer[..][..available] == window && readBuffer[..][available..] == readBuffer[0 + available..];
    }

    /** Fills the read buffer, possibly enlarged, from `at` on. */
    method Refill(oracle: Oracle, at: nat, ghost rest: nat, ghost behind: Bytes)
      returns (o: Outcome, ghost stale: Bytes, ghost window: Bytes)
      requires Bounds() && !skipBuffer && 0 < rest && at + rest <= length && Refills(Contents().view, length, at, rest)
      modifies this`readBuffer, this`last, this`requests, this`bufferStart, this`bufferEnd, this`bufferIdx,
        this`bufferAvailable, readBuffer
      ensures Bounds() && (readBuffer == old(readBuffer) || fresh(readBuffer))
      ensures Fetch(Expected(), oracle, length, old(Contents()), Contents(), at, rest, behind, o, stale, window)
      ensures o.Success? ==> bufferIdx == 0 && bufferAvailable == |window| && Positioned(at)
      ensures o.Success? ==> rest <= |window| <= readBuffer.Length && readBuffer[..][..|window|] == window
    {
      hide Fetch, Answered;
      ghost var b := Contents();
      AdaptReadBufferSize(at);
      assert readBuffer.Length == b.view.size ==> Contents() == b;
      var available := Min(readBuffer.Length, length - at);
      o, stale, window := FillFrom(oracle, at, available);
      AnsweredSizes(Expected(), oracle(at, available), available, o, stale, window);
      RefillFetches(Expected(), oracle, length, b, Contents(), at, rest, behind, o, stale, window);
    }

    /** A read in progress: what it has not got is available. */
    ghost predicate InProgress(location: nat, got: nat, n: nat)
      reads `bufferStart, `bufferEnd, `bufferIdx, `bufferAvailable
    {
      Positioned(location + got) && got <= n && n - got <= bufferAvailable
    }

    /** The rest of a read that is larger than the buffer goes past it. */
    method Bypass(oracle: Oracle, out: array<Byte>, at: nat, got: nat, n: nat) returns (o: Outcome, ghost stale: Bytes)
      requires Bounds() && !skipBuffer && out != readBuffer && got < n <= out.Length && at + (n - got) <= length
      requires !Refills(Contents().view, length, at, n - got)
      modifies out, this`last, this`requests, this`bufferAvailable, this`bufferIdx
      ensures out[..got] == old(out[..got]) && (o.Success? ==> bufferAvailable == 0)
      ensures Fetch(Expected(), oracle, length, old(Contents()), Contents(), at, n - got, old(out[got..n]), o, stale,
                    out[got..n])
    {
      hide Answered;
      o, stale := TryRangeRequest(oracle, at, out, got, n - got);
      if o.Success? {
        bufferAvailable, bufferIdx := 0, 0;
      }
    }

    /** The buffer is used up: the rest of the read bypasses it or the buffer is refilled. */
    method FetchMore(oracle: Oracle, out: array<Byte>, location: nat, got: nat, n: nat, ghost head: Bytes,
                     ghost behind: Bytes)
      returns (o: Outcome, newGot: nat, ghost stale: Bytes, ghost window: Bytes)
      requires Bounds() && !skipBuffer && got < n <= out.Length && head == out[..got] && behind == out[got..n]
      requires out != readBuffer && bufferAvailable == 0 && location + n <= length
      modifies this`readBuffer, this`last, this`requests, this`bufferStart, this`bufferEnd, this`bufferIdx,
        this`bufferAvailable, out, readBuffer
      ensures Bounds() && (readBuffer == old(readBuffer) || fresh(readBuffer))
      ensures Fetch(Expected(), oracle, length, old(Contents()), Contents(), location + got, n - got, behind, o, stale,
                    window)
      ensures o.Success? ==>
        InProgress(location, newGot, n) && n - got <= |window|
        && Taken(out, newGot, n - newGot) == head + window[..n - got]
    {
      hide Fetch;
      if n - got > Min(readBuffer.Length, length - (location + got)) {
        o, stale := Bypass(oracle, out, location + got, got, n);
        newGot, window := n, out[got..n];
        TakenAll(out, got, n);
      } else {
        o, stale, window := Refill(oracle, location + got, n - got, behind);
        newGot := got;
        if o.Success? {
          TakenFromRefill(out, got, n - got, window);
        }
      }
    }

    lemma TakenAll(out: array<Byte>, got: nat, n: nat)
      requires got <= n <= out.Length
      ensures Taken(out, n, 0) == out[..n] == out[..got] + out[got..n][..n - got]
    {
    }

    lemma TakenFromRefill(out: array<Byte>, got: nat, len: nat, window: Bytes)
      requires got <= out.Length && bufferIdx == 0 && 0 < len <= |window| <= readBuffer.Length
      requires readBuffer[..][..|window|] == window
      ensures Taken(out, got, len) == out[..got] + window[..len]
    {
      assert readBuffer[0..len] == readBuffer[..][..|window|][..len];
    }

    /** One round of the loop: takes what the buffer has, for a total of `taken`, and fetches more
        if that is not all. */
    method Round(oracle: Oracle, out: array<Byte>, location: nat, got: nat, n: nat, ghost taken: Bytes,
                 ghost behind: Bytes)
      returns (o: Outcome, newGot: nat, ghost stale: Bytes, ghost window: Bytes)
      requires Bounds() && !skipBuffer && Positioned(location + got)
      requires got < n <= out.Length && out != readBuffer && location + n <= length
      requires taken == Taken(out, got, Min(bufferAvailable, n - got))
      requires behind == out[got + Min(bufferAvailable, n - got)..n]
      modifies this`readBuffer, this`last, this`requests, this`bufferStart, this`bufferEnd, this`bufferIdx,
        this`bufferAvailable, out, readBuffer
      ensures Bounds() && (readBuffer == old(readBuffer) || fresh(readBuffer))
      ensures o.Success? ==> InProgress(location, newGot, n)
      ensures n - got <= old(bufferAvailable) ==>
        && o.Success? && newGot == n && stale == [] && window == []
        && Contents() == old(Contents()) && out[..n] == taken
      ensures n - got > old(bufferAvailable) ==>
        Fetch(Expected(), oracle, length, old(Contents()), Contents(), location + got + old(bufferAvailable),
              n - got - old(bufferAvailable), behind, o, stale, window)
      ensures n - got > old(bufferAvailable) && o.Success? ==>
        && n - got - old(bufferAvailable) <= |window|
        && Taken(out, newGot, n - newGot) == taken + window[..n - got - old(bufferAvailable)]
    {
      hide Fetch;
      ghost var b, at := Contents(), location + got + bufferAvailable;
      o, stale, window := Success, [], [];
      newGot := TakeFromBuffer(out, location, got, n, behind);
      assert Contents() == b;
      if newGot < n && bufferAvailable == 0 {
        assert location + newGot == at;
        o, newGot, stale, window := FetchMore(oracle, out, location, newGot, n, taken, behind);
      }
    }

    lemma FirstTaken(out: array<Byte>, location: nat, n: nat)
      requires Bounds() && !skipBuffer && Positioned(location) && location + n <= length
      requires bufferAvailable == Available(Contents().view, location)
      ensures Taken(out, 0, Min(bufferAvailable, n)) == Had(Contents(), length, location, n)
    {
      var len := Min(bufferAvailable, n);
      if len > 0 {
        assert readBuffer[bufferIdx..bufferIdx + len] == readBuffer[..][bufferIdx..bufferIdx + len];
      }
    }

    /** The first round settles the answer, although part of it may still be in the buffer; the
        second one takes it from there. */
    method SettlingRound(oracle: Oracle, out: array<Byte>, location: nat, got: nat, n: nat, ghost taken: Bytes,
                         ghost behind: Bytes, ghost target: Bytes, ghost first: bool)
      returns (o: Outcome, newGot: nat, ghost stale: Bytes, ghost window: Bytes, ghost answer: Bytes)
      requires Bounds() && !skipBuffer && Positioned(location + got)
      requires got < n <= out.Length && out != readBuffer && location + n <= length
      requires taken == Taken(out, got, Min(bufferAvailable, n - got)) && |target| == n
      requires behind == out[got + Min(bufferAvailable, n - got)..n]
      requires
        if first then
          && got == 0 && bufferAvailable == Available(Contents().view, location)
          && taken == Had(Contents(), length, location, n) && target[Min(bufferAvailable, n)..] == behind
        else n - got <= bufferAvailable
      modifies this`readBuffer, this`last, this`requests, this`bufferStart, this`bufferEnd, this`bufferIdx,
        this`bufferAvailable, out, readBuffer
      ensures Bounds() && (readBuffer == old(readBuffer) || fresh(readBuffer))
      ensures o.Success? ==> InProgress(location, newGot, n) && Taken(out, newGot, n - newGot) == answer
      ensures !first ==> o.Success? && newGot == n && answer == taken && Contents() == old(Contents())
      ensures first ==>
        ReadThrough(Expected(), oracle, length, old(Contents()), Contents(), location, n, target, o, stale, window,
                    answer)
    {
      hide Fetch;
      ghost var available := bufferAvailable;
      o, newGot, stale, window := Round(oracle, out, location, got, n, taken, behind);
      answer := taken;
      if n - got > available {
        if o.Success? {
          answer := taken + window[..n - got - available];
        }
      } else {
        assert Taken(out, n, 0) == out[..n];
      }
    }

    method ReadBuffered(oracle: Oracle, out: array<Byte>, location: nat, n: nat)
      returns (o: Outcome, ghost rounds: nat, ghost stale: Bytes, ghost window: Bytes)
      requires Bounds() && !skipBuffer && Positioned(location)
      requires 0 < n <= out.Length && out != readBuffer && location + n <= length
      requires bufferAvailable == Available(Contents().view, location)
      modifies this`readBuffer, this`last, this`requests, this`bufferStart, this`bufferEnd, this`bufferIdx,
        this`bufferAvailable, out, readBuffer
      ensures Bounds() && (readBuffer == old(readBuffer) || fresh(readBuffer))
      ensures rounds <= 2
      ensures ReadThrough(Expected(), oracle, length, old(Contents()), Contents(), location, n, old(out[..n]), o, stale,
                          window, out[..n])
    {
      hide Fetch, ReadThrough, Had, Available;
      ghost var b, target, taken := Contents(), out[..n], Taken(out, 0, Min(bufferAvailable, n));
      FirstTaken(out, location, n);
      var got: nat := 0;
      rounds, stale, window, o := 0, [], [], Success;
      while got < n
        invariant Bounds() && Positioned(location + got) && got <= n && o.Success?
        invariant out != readBuffer && (readBuffer == old(readBuffer) || fresh(readBuffer))
        invariant rounds <= 2 && (rounds == 2 ==> got == n)
        invariant taken == Taken(out, got, Min(bufferAvailable, n - got))
        invariant rounds == 0 ==>
          && got == 0 && Contents() == b && bufferAvailable == Available(b.view, location)
          && taken == Had(b, length, location, n) && out[..n] == target && stale == [] && window == []
        invariant rounds > 0 ==>
          && n - got <= bufferAvailable
          && ReadThrough(Expected(), oracle, length, b, Contents(), location, n, target, o, stale, window, taken)
        decreases 2 - rounds
      {
        ghost var left, arrived;
        ghost var from := got + Min(bufferAvailable, n - got);
        assert rounds == 0 ==> target[from..] == out[from..n];
        o, got, left, arrived, taken :=
          SettlingRound(oracle, out, location, got, n, taken, out[from..n], target, rounds == 0);
        if rounds == 0 {
          stale, window := left, arrived;
        }
        rounds := rounds + 1;
        if !o.Success? {
          ThroughFree(Expected(), oracle, length, b, Contents(), location, n, target, o, stale, window, taken,
                      out[..n]);
          return;
        }
      }
      assert Taken(out, n, 0) == out[..n];
    }

    // ----- Reading -----

    /** The buffered path. */
    method ReadThroughBuffer(oracle: Oracle, out: array<Byte>, location: nat, n: nat)
      returns (o: Outcome, ghost rounds: nat, ghost stale: Bytes, ghost window: Bytes)
      requires Bounds() && (skipBuffer ==> n == 0)
      requires n <= out.Length && out != readBuffer && location + n <= length
      modifies this`readBuffer, this`last, this`requests, this`bufferStart, this`bufferEnd, this`bufferIdx,
        this`bufferAvailable, this`fileOffset, out, readBuffer
      ensures Bounds() && (readBuffer == old(readBuffer) || fresh(readBuffer))
      ensures rounds <= 2 && (o.Success? ==> fileOffset == location + n)
      ensures ReadThrough(Expected(), oracle, length, old(Contents()), Contents(), location, n, old(out[..n]), o, stale,
                          window, out[..n])
    {
      hide Fetch;
      FindInBuffer(location);
      o, rounds, stale, window := Success, 0, [], [];
      if n > 0 {
        o, rounds, stale, window := ReadBuffered(oracle, out, location, n);
      }
      if o.Success? {
        fileOffset := location + n;
      }
    }

    /** The direct path. */
    method ReadDirect(oracle: Oracle, out: array<Byte>, location: nat, n: nat)
      returns (o: Outcome, ghost stale: Bytes, ghost window: Bytes)
      requires Bounds() && skipBuffer && 0 < n <= out.Length && out != readBuffer && location + n <= length
      modifies this`bufferAvailable, this`bufferIdx, this`fileOffset, this`last, this`requests, out
      ensures ReadPast(Expected(), oracle, old(Contents()), Contents(), location, n, old(out[..n]), o, stale, window)
      ensures o.Success? ==> out[..n] == window && fileOffset == location + n
    {
      hide Answered;
      assert out[0..0 + n] == out[..n];
      o, stale := TryRangeRequest(oracle, location, out, 0, n);
      window := out[0..0 + n];
      assert window == out[..n];
      if o.Success? {
        bufferAvailable, bufferIdx, fileOffset := 0, 0, location + n;
      }
    }

    /** What a read of the cached file comes to. */
    function CachedOutcome(file: CachedFile, location: nat, n: nat): Outcome
      reads file
    {
      if !file.initialized then Thrown(NotInitialized)
      else if file.size < location + n then Thrown(CachedTooShort)
      else if location + n <= file.data.Length || n == 0 then Success
      else Thrown(OutOfBounds)
    }

    method ReadCached(out: array<Byte>, location: nat, n: nat) returns (o: Outcome)
      requires cachedFile != null && out != cachedFile.data && n <= out.Length
      modifies out, this`fileOffset
      ensures o == CachedOutcome(cachedFile, location, n)
      ensures o.Success? && n > 0 ==>
        location + n <= cachedFile.data.Length && out[..n] == cachedFile.data[location..location + n]
      ensures fileOffset == if o.Success? then location + n else old(fileOffset)
    {
      if !cachedFile.initialized {
        return Thrown(NotInitialized);
      }
      if cachedFile.size < location + n {
        return Thrown(CachedTooShort);
      }
      if n > 0 {
        if cachedFile.data.Length < location + n {
          return Thrown(OutOfBounds);
        }
        CopyInto(cachedFile.data[location..location + n], out, 0);
      }
      fileOffset := location + n;
      o := Success;
    }

    /** A sealed file serves every read within its bytes. */
    lemma CachedRight(out: array<Byte>, file: CachedFile, body: Bytes, location: nat, n: nat)
      requires file.Sealed(body) && n <= out.Length && CachedOutcome(file, location, n).Success?
      requires n > 0 ==> location + n <= file.data.Length && out[..n] == file.data[location..location + n]
      ensures Begins(body, location, out[..n])
    {
      SliceOfSlice(file.data[..], 0, file.size, location, location + n);
    }

    /** The request that a read sends, if it sends one. */
    ghost function Asked(location: nat, n: nat): Option<(nat, nat)>
      requires location + n <= length
      reads `bufferStart, `bufferEnd, `readBuffer, `last, `requests, `length, readBuffer
    {
      AskedBy(skipBuffer, Contents().view, length, location, n)
    }

    /** Whether that request overwrites the read buffer. */
    ghost predicate Overwrites(location: nat, n: nat)
      requires location + n <= length
      reads `bufferStart, `bufferEnd, `readBuffer, `last, `requests, `length, readBuffer
    {
      OverwritesBy(skipBuffer, Contents().view, length, location, n)
    }

    /** The bytes that a read takes from the read buffer. */
    ghost function InBuffer(location: nat, n: nat): Bytes
      requires Bounds()
      reads `bufferStart, `bufferEnd, `readBuffer, `last, `requests, `length, readBuffer
    {
      HadBy(skipBuffer, Contents(), length, location, n)
    }

    /** What the target of a read's request holds before the read. */
    ghost function Beneath(location: nat, n: nat, target: Bytes): Option<Bytes>
      requires Bounds() && location + n <= length && |target| == n
      reads `bufferStart, `bufferEnd, `readBuffer, `last, `requests, `length, readBuffer
    {
      BeneathBy(skipBuffer, Contents(), length, location, n, target)
    }

    /** One read: served from the cached file, by a direct request or through the read buffer, which
        may hold anything. It sends at most one request and takes at most two rounds of its loop;
        ReadDone says what it returns and leaves, also if it throws. */
    method ReadInternal(oracle: Oracle, out: array<Byte>, location: nat, n: nat)
      returns (o: Outcome, ghost rounds: nat, ghost stale: Bytes, ghost window: Bytes)
      requires n <= out.Length && out != readBuffer && (cachedFile != null ==> out != cachedFile.data)
      requires cachedFile == null ==> Bounds() && location + n <= length
      modifies this`readBuffer, this`last, this`requests, this`bufferStart, this`bufferEnd, this`bufferIdx,
        this`bufferAvailable, this`fileOffset, out, readBuffer
      ensures readBuffer == old(readBuffer) || fresh(readBuffer)
      ensures cachedFile != null ==>
        && o == old(CachedOutcome(cachedFile, location, n)) && Contents() == old(Contents())
        && unchanged(cachedFile) && unchanged(cachedFile.data)
        && (o.Success? && n > 0 ==>
          location + n <= cachedFile.data.Length && out[..n] == cachedFile.data[location..location + n])
      ensures cachedFile == null ==> Bounds()
      ensures cachedFile == null ==>
        ReadDone(skipBuffer, Expected(), oracle, length, old(Contents()), Contents(), location, n, old(out[..n]), o,
                 stale, window, out[..n])
      ensures rounds <= 2 && (o.Success? ==> fileOffset == location + n)
    {
      hide Fetch, Answered;
      rounds, stale, window := 0, [], [];
      if cachedFile != null {
        o := ReadCached(out, location, n);
        return;
      }
      if skipBuffer && n > 0 {
        o, stale, window := ReadDirect(oracle, out, location, n);
        return;
      }
      o, rounds, stale, window := ReadThroughBuffer(oracle, out, location, n);
    }

    // ----- The fallback -----

    /** The shared cached file of this path is either sealed already or still untouched. */
    ghost predicate Shared(remote: Remote, shared: CachedFile, version: nat)
      reads shared, shared.data
    {
      if shared.initialized then shared.Sealed(remote.content(version)) else shared.Holding([])
    }

    /** Takes over the shared file, downloading it first if nobody has. */
    method FullDownload(ghost remote: Remote, shared: CachedFile, full: FullReply, ghost sharedVersion: nat)
      returns (o: Outcome)
      requires Shared(remote, shared, sharedVersion) && HonestDownload(remote, full)
      modifies this`cachedFile, this`length, this`source, shared, shared.data
      ensures cachedFile == shared && (shared.data == old(shared.data) || fresh(shared.data))
      ensures o == if old(shared.initialized) || full.status == 200 then Success else Thrown(DownloadFailed)
      ensures o.Success? ==>
        && shared.initialized && length == shared.size
        && length == (if old(shared.initialized) then old(shared.size)
                      else RecordedSize(full.broken + full.blocks, old(length)))
        && source == (if old(shared.initialized) then sharedVersion else full.version)
      ensures !o.Success? ==>
        && !shared.initialized && length == old(length) && source == old(source)
        && unchanged(shared) && unchanged(shared.data)
      ensures old(shared.initialized) ==> shared.Sealed(remote.content(source))
      ensures o.Success? && !old(shared.initialized) ==>
        if full.broken + full.blocks == [] then shared.data.Length == 0 else length <= shared.data.Length
      ensures o.Success? && !old(shared.initialized) && length == old(length) ==>
        (shared.Sealed(remote.content(source)) <==> Usable(remote, full, old(length)))
    {
      cachedFile := shared;
      o := Success;
      if shared.initialized {
        length, source := shared.size, sharedVersion;
      } else if full.status != 200 {
        o := Thrown(DownloadFailed);
      } else {
        source := full.version;
        length := shared.Download(full.broken, full.blocks, length);
        ConcatConcat(full.broken, full.blocks);
      }
    }

    /** The second half of Read: download, compare the sizes and read again. Whether it succeeds
        depends on sizes only; the bytes are those of one version, and the file can be read on, if
        and only if the download is usable. After a failed download the handle keeps a file that
        was never initialized, after a mismatch the length of the download. */
    method Redirected(ghost remote: Remote, out: array<Byte>, location: nat, n: nat, shared: CachedFile,
                      full: FullReply, ghost sharedVersion: nat)
      returns (o: Outcome)
      requires (parallel ==> skipBuffer) && n <= out.Length && location + n <= length && shared.data != out
      requires Shared(remote, shared, sharedVersion) && HonestDownload(remote, full)
      modifies this`cachedFile, this`length, this`source, this`fileOffset, out, shared, shared.data
      ensures o == RedirectOutcome(old(shared.initialized), old(shared.size), full, old(length), n)
      ensures shared.data == old(shared.data) || fresh(shared.data)
      ensures if o == Thrown(SizeMismatch) then cachedFile == null && length != old(length)
              else cachedFile == shared && length == old(length)
      ensures o == Thrown(DownloadFailed) ==>
        !shared.initialized && source == old(source) && unchanged(shared) && unchanged(shared.data)
      ensures o.Success? ==>
        && fileOffset == location + n && source == (if old(shared.initialized) then sharedVersion else full.version)
        && (Valid(remote) <==> old(shared.initialized) || Usable(remote, full, old(length)))
        && (Valid(remote) ==> Begins(remote.content(source), location, out[..n]))
    {
      var before := length;
      o := FullDownload(remote, shared, full, sharedVersion);
      if !o.Success? {
        return;
      }
      if shared.size != before {
        cachedFile := null;
        return Thrown(SizeMismatch);
      }
      o := ReadCached(out, location, n);
      if o.Fallback? {
        o := Thrown(FallbackFailed);
      }
      if o.Success? && shared.Sealed(remote.content(source)) {
        CachedRight(out, shared, remote.content(source), location, n);
      }
    }

    /** The first half of Read, and what it means for the version recorded at open: from a buffer in
        order and on a whole answer, a read that succeeds returns the bytes of that version and
        leaves the buffer in order; Returned says what it returns in all other cases. */
    method FirstHalf(ghost remote: Remote, oracle: Oracle, out: array<Byte>, location: nat, n: nat)
      returns (o: Outcome, ghost stale: Bytes, ghost window: Bytes)
      requires n <= out.Length && out != readBuffer && (cachedFile != null ==> out != cachedFile.data)
      requires cachedFile == null ==> Bounds() && location + n <= length
      modifies this`readBuffer, this`last, this`requests, this`bufferStart, this`bufferEnd, this`bufferIdx,
        this`bufferAvailable, this`fileOffset, out, readBuffer
      ensures readBuffer == old(readBuffer) || fresh(readBuffer)
      ensures cachedFile != null ==>
        && o == old(CachedOutcome(cachedFile, location, n)) && Contents() == old(Contents())
        && (old(Valid(remote)) && o.Success? ==> Valid(remote) && Begins(remote.content(source), location, out[..n]))
      ensures cachedFile == null ==>
        && Bounds() && Decided(Expected(), oracle, old(Asked(location, n)), o) && (o.Fallback? ==> fallbackEnabled)
        && ReadDone(skipBuffer, Expected(), oracle, length, old(Contents()), Contents(), location, n, old(out[..n]), o,
                    stale, window, out[..n])
      ensures cachedFile == null && etag == remote.tag(source) &&
              CleanAnswer(remote, source, oracle, old(Asked(location, n))) ==>
        o.Success? && WholeAnswer(oracle, old(Asked(location, n)))
      ensures cachedFile == null && SingleAnswer(oracle, old(Asked(location, n))) ==>
        var beneath := old(Beneath(location, n, out[..n]));
        beneath.Some? ==> stale == beneath.value
      ensures o.Success? && Open(remote) && Honest(remote, oracle) && Pinned(remote, oracle, Expected(), source) ==>
        Returned(remote.content(source), oracle, old(Asked(location, n)), old(Overwrites(location, n)),
                 old(InBuffer(location, n)), stale, out[..n], location, n, old(Ordered(remote)), Ordered(remote))
      ensures o.Success? && Open(remote) && old(Ordered(remote)) &&
              Honest(remote, oracle) && Pinned(remote, oracle, Expected(), source) &&
              WholeAnswer(oracle, old(Asked(location, n))) ==>
        Valid(remote) && Begins(remote.content(source), location, out[..n])
      ensures o.Success? && Open(remote) && old(Ordered(remote)) &&
              Honest(remote, oracle) && Pinned(remote, oracle, Expected(), source) &&
              FinalAnswer(oracle, old(Asked(location, n))) ==>
        (Begins(remote.content(source), location, out[..n]) <==>
          RightUpTo(remote.content(source), oracle, old(Asked(location, n)), stale, location + n))
      ensures o.Success? ==> fileOffset == location + n
    {
      hide Fetch, Answered, Returned, Honest, Pinned, Decided, ReadDone, BeneathBy, FinalAnswer, RightUpTo, CleanAnswer;
      ghost var b, target, file, rounds := Contents(), out[..n], remote.content(source), 0;
      o, rounds, stale, window := ReadInternal(oracle, out, location, n);
      if cachedFile == null {
        DoneDecides(skipBuffer, Expected(), oracle, length, b, Contents(), location, n, target, o, stale, window,
                    out[..n]);
        if etag == remote.tag(source) &&
           CleanAnswer(remote, source, oracle, AskedBy(skipBuffer, b.view, length, location, n)) {
          CleanSucceeds(remote, source, oracle, Expected(), AskedBy(skipBuffer, b.view, length, location, n), o);
        }
        if SingleAnswer(oracle, AskedBy(skipBuffer, b.view, length, location, n)) {
          DoneTies(skipBuffer, Expected(), oracle, length, b, Contents(), location, n, target, o, stale, window,
                   out[..n]);
        }
        if o.Success? && Open(remote) && Honest(remote, oracle) && Pinned(remote, oracle, Expected(), source) {
          DoneReturns(remote, source, skipBuffer, Expected(), oracle, b, Contents(), location, n, target, o, stale,
                      window, out[..n]);
          if old(Ordered(remote)) {
            OrderedReturns(file, oracle, AskedBy(skipBuffer, b.view, length, location, n),
                           OverwritesBy(skipBuffer, b.view, length, location, n), skipBuffer, b, stale, out[..n],
                           location, n, Ordered(remote));
          }
        }
      } else if o.Success? && Valid(remote) {
        CachedRight(out, cachedFile, file, location, n);
      }
    }

    /** A read with the fallback to a full download. `first` is what its first half comes to: only a
        server that does not support ranges leads to the second one. Whenever the buffer was in order
        and the answer was whole, a read that returns normally fills `out` with the bytes of the
        version recorded at open; Returned says what it returns in all other cases. After the
        fallback the bytes are those of the downloaded version. */
    method Read(ghost remote: Remote, oracle: Oracle, out: array<Byte>, location: nat, n: nat, shared: CachedFile,
                full: FullReply, ghost sharedVersion: nat)
      returns (o: Outcome, ghost first: Outcome, ghost stale: Bytes, ghost window: Bytes)
      requires n <= out.Length && out != readBuffer && (cachedFile != null ==> out != cachedFile.data)
      requires cachedFile == null ==> Bounds() && location + n <= length
      requires Shared(remote, shared, sharedVersion) && HonestDownload(remote, full)
      requires shared.data != out && shared.data != readBuffer
      modifies this, out, readBuffer, shared, shared.data
      // the first half
      ensures etag == old(etag) && (readBuffer == old(readBuffer) || fresh(readBuffer))
      ensures old(cachedFile) != null ==>
        && first == old(CachedOutcome(cachedFile, location, n)) && Contents() == old(Contents())
        && (old(Valid(remote)) && first.Success? ==>
          Valid(remote) && Begins(remote.content(source), location, out[..n]))
      ensures old(cachedFile) == null ==>
        && ReadDone(skipBuffer, Expected(), oracle, old(length), old(Contents()), Contents(), location, n,
                    old(out[..n]), first, stale, window, out[..n])
        && Decided(Expected(), oracle, old(Asked(location, n)), first)
      ensures old(cachedFile) == null && etag == remote.tag(old(source)) &&
              CleanAnswer(remote, old(source), oracle, old(Asked(location, n))) ==>
        o.Success? && first.Success? && WholeAnswer(oracle, old(Asked(location, n)))
      ensures old(cachedFile) == null && SingleAnswer(oracle, old(Asked(location, n))) ==>
        var beneath := old(Beneath(location, n, out[..n]));
        beneath.Some? ==> stale == beneath.value
      ensures !first.Fallback? ==>
        && o == first && cachedFile == old(cachedFile) && length == old(length) && source == old(source)
        && (cachedFile == null ==> Bounds())
      ensures first.Success? && old(Open(remote)) &&
              Honest(remote, oracle) && Pinned(remote, oracle, Expected(), source) ==>
        Returned(remote.content(source), oracle, old(Asked(location, n)), old(Overwrites(location, n)),
                 old(InBuffer(location, n)), stale, out[..n], location, n, old(Ordered(remote)), Ordered(remote))
      ensures first.Success? && old(Open(remote) && Ordered(remote)) &&
              Honest(remote, oracle) && Pinned(remote, oracle, Expected(), source) &&
              WholeAnswer(oracle, old(Asked(location, n))) ==>
        Valid(remote) && Begins(remote.content(source), location, out[..n])
      ensures first.Success? && old(Open(remote) && Ordered(remote)) &&
              Honest(remote, oracle) && Pinned(remote, oracle, Expected(), source) &&
              FinalAnswer(oracle, old(Asked(location, n))) ==>
        (Begins(remote.content(source), location, out[..n]) <==>
          RightUpTo(remote.content(source), oracle, old(Asked(location, n)), stale, location + n))
      // the second half
      ensures first.Fallback? ==>
        && old(cachedFile) == null && fallbackEnabled
        && o == RedirectOutcome(old(shared.initialized), old(shared.size), full, old(length), n)
        && (if o == Thrown(SizeMismatch) then cachedFile == null && length != old(length)
            else cachedFile == shared && length == old(length))
        && (o == Thrown(DownloadFailed) ==> !shared.initialized && unchanged(shared) && unchanged(shared.data))
        && (o.Success? ==>
          && source == (if old(shared.initialized) then sharedVersion else full.version)
          && (Valid(remote) <==> old(shared.initialized) || Usable(remote, full, old(length)))
          && (Valid(remote) ==> Begins(remote.content(source), location, out[..n])))
      ensures shared.data == old(shared.data) || fresh(shared.data)
      ensures o.Success? ==> fileOffset == location + n
    {
      hide Fetch, Answered, Returned, Honest, Pinned, Decided, ReadDone, WholeAnswer, FinalAnswer, RightUpTo, BeneathBy,
        CleanAnswer;
      o, stale, window := FirstHalf(remote, oracle, out, location, n);
      first := o;
      if !o.Fallback? {
        return;
      }
      ghost var c, before := Contents(), out[..n];
      o := Redirected(remote, out, location, n, shared, full, sharedVersion);
      assert Contents() == c;
      AnswerFree(skipBuffer, Expected(), oracle, old(length), old(Contents()), c, location, n, old(out[..n]), first,
                 stale, window, before, out[..n]);
    }

    /** A read at the handle's offset stops at the end of the file and moves the offset. */
    method ReadNext(ghost remote: Remote, oracle: Oracle, out: array<Byte>, n: nat, shared: CachedFile, full: FullReply,
                    ghost sharedVersion: nat)
      returns (o: Outcome, count: nat, ghost first: Outcome, ghost stale: Bytes, ghost window: Bytes)
      requires n <= out.Length && out != readBuffer && (cachedFile != null ==> out != cachedFile.data)
      requires fileOffset <= length && (cachedFile == null ==> Bounds())
      requires Shared(remote, shared, sharedVersion) && HonestDownload(remote, full)
      requires shared.data != out && shared.data != readBuffer
      modifies this, out, readBuffer, shared, shared.data
      ensures count == Min(n, old(length) - old(fileOffset)) && !o.Fallback? && etag == old(etag)
      ensures o.Success? ==> fileOffset == old(fileOffset) + count
      ensures old(cachedFile) == null ==>
        Decided(Expected(), oracle, old(Asked(fileOffset, Min(n, length - fileOffset))), first)
      ensures old(cachedFile) == null && SingleAnswer(oracle, old(Asked(fileOffset, Min(n, length - fileOffset)))) ==>
        var beneath := old(Beneath(fileOffset, Min(n, length - fileOffset), out[..Min(n, length - fileOffset)]));
        beneath.Some? ==> stale == beneath.value
      ensures first.Success? && old(Open(remote)) &&
              Honest(remote, oracle) && Pinned(remote, oracle, Expected(), source) ==>
        && o.Success? && source == old(source)
        && Returned(remote.content(source), oracle, old(Asked(fileOffset, Min(n, length - fileOffset))),
                    old(Overwrites(fileOffset, Min(n, length - fileOffset))),
                    old(InBuffer(fileOffset, Min(n, length - fileOffset))), stale, out[..count], old(fileOffset), count,
                    old(Ordered(remote)), Ordered(remote))
      ensures first.Success? && old(Open(remote) && Ordered(remote)) &&
              Honest(remote, oracle) && Pinned(remote, oracle, Expected(), source) &&
              WholeAnswer(oracle, old(Asked(fileOffset, Min(n, length - fileOffset)))) ==>
        Valid(remote) && Begins(remote.content(source), old(fileOffset), out[..count])
      ensures o.Success? && first.Fallback? && (old(shared.initialized) || Usable(remote, full, old(length))) ==>
        Valid(remote) && Begins(remote.content(source), old(fileOffset), out[..count])
    {
      hide Fetch, Answered, Returned, Honest, Pinned, Decided, BeneathBy;
      hide WholeAnswer, FinalAnswer, RightUpTo, CleanAnswer;
      count := Min(n, length - fileOffset);
      o, first, stale, window := Read(remote, oracle, out, fileOffset, count, shared, full, sharedVersion);
    }
  }

  lemma NothingRaised(guard: Guard, a: Attempt, len: nat)
    ensures a.status >= 300 && Concat(a.chunks) == [] ==> Raised(guard, a, len, 0).None?
  {
  }

  // Nothing was written in the window.
  lemma NothingLands(now: Bytes, before: Bytes, at: nat, from: nat, len: nat)
    requires at <= from <= at + len <= |now| == |before|
    requires now[..from] == before[..from] && now[from..] == before[from..]
    ensures now[at..at + len] == before[at..at + len]
  {
    assert now == now[..from] + now[from..] && before == before[..from] + before[from..];
  }

  lemma LandedNothing(stale: Bytes)
    ensures Landed([], stale) == stale
  {
  }

  lemma PrefixSame(now: Bytes, before: Bytes, at: nat, from: nat)
    requires at <= from <= |now| == |before| && now[..from] == before[..from]
    ensures now[..at] == before[..at]
  {
    assert now[..at] == now[..from][..at] && before[..at] == before[..from][..at];
  }

  lemma SuffixSame(now: Bytes, before: Bytes, from: nat, to: nat)
    requires from <= to <= |now| == |before| && now[from..] == before[from..]
    ensures now[to..] == before[to..]
  {
    assert now[to..] == now[from..][to - from..] && before[to..] == before[from..][to - from..];
  }

  // What TakeChunks leaves in the window, seen from the window.
  lemma LandsAt(now: Bytes, before: Bytes, at: nat, len: nat, body: Bytes)
    requires |now| == |before| && at + len <= |now| && |body| <= len
    requires now[at..at + |body|] == body && now[at + |body|..] == before[at + |body|..]
    ensures now[at..at + len] == Landed(body, before[at..at + len])
  {
    var w, k := now[at..at + len], |body|;
    var rest, former := now[at + k..], before[at + k..];
    assert rest == now[at + k..|now|] && former == before[at + k..|now|];
    SliceOfSlice(now, at, at + len, 0, k);
    SliceOfSlice(now, at, at + len, k, len);
    SliceOfSlice(before, at, at + len, k, len);
    SliceOfSlice(now, at + k, |now|, 0, len - k);
    SliceOfSlice(before, at + k, |now|, 0, len - k);
    assert w[..k] == w[0..k] == body;
    assert w[k..len] == rest[0..len - k] == former[0..len - k] == before[at..at + len][k..len];
    assert w[k..] == w[k..len] && before[at..at + len][k..] == before[at..at + len][k..len];
    assert w == w[..k] + w[k..];
  }

  method CopyInto(block: Bytes, out: array<Byte>, at: nat)
    requires at + |block| <= out.Length
    modifies out
    ensures out[..] == old(out[..at]) + block + old(out[at + |block|..])
  {
    for i := 0 to |block|
      invariant out[..] == old(out[..at]) + block[..i] + old(out[at + i..])
    {
      out[at + i] := block[i];
    }
  }
}
