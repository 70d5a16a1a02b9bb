/** The read buffer of a handle as a value: which request a read sends, what the request does to the
    buffer, and what the read then returns. */
module RangeBuffer {
  import opened FullDownload
  import opened Prelude
  import opened RangeServer

  const INITIAL_READ_BUFFER_LEN: nat := 1048576
  const MAXIMUM_READ_BUFFER_LEN: nat := 33554432

  // ----- The read buffer as seen from outside -----

  datatype View = View(start: nat, end: nat, size: nat, last: Option<(nat, nat)>, requests: seq<(nat, nat)>)

  function AdaptedSize(size: nat, last: Option<(nat, nat)>, next: nat): nat {
    if last.None? || last.value.0 + last.value.1 != next || size >= MAXIMUM_READ_BUFFER_LEN then size else size * 2
  }

  /** The read buffer and the requests once `rest` bytes from `at` on had to be asked for. */
  function Fetched(v: View, length: nat, at: nat, rest: nat): View
    requires at + rest <= length
  {
    if rest > Min(v.size, length - at) then
      v.(last := Some((at, rest)), requests := v.requests + [(at, rest)])
    else
      var size := AdaptedSize(v.size, v.last, at);
      var len := Min(size, length - at);
      View(at, at + len, size, Some((at, len)), v.requests + [(at, len)])
  }

  /** The read buffer and the requests after a successful buffered read. */
  function NextView(v: View, length: nat, location: nat, n: nat): View
    requires location + n <= length
  {
    var available := Available(v, location);
    if n <= available then v else Fetched(v, length, location + available, n - available)
  }

  function Available(v: View, location: nat): nat {
    if v.start <= location < v.end then v.end - location else 0
  }

  /** The request for `rest` bytes from `at` on: those bytes past the buffer, or a refill. */
  predicate Refills(v: View, length: nat, at: nat, rest: nat)
    requires at + rest <= length
  {
    rest <= Min(v.size, length - at)
  }

  function Requested(v: View, length: nat, at: nat, rest: nat): (nat, nat)
    requires at + rest <= length
  {
    (at, if Refills(v, length, at, rest) then Min(AdaptedSize(v.size, v.last, at), length - at) else rest)
  }

  /** The request that a buffered read sends, if it sends one. */
  function AskedThrough(v: View, length: nat, location: nat, n: nat): Option<(nat, nat)>
    requires location + n <= length
  {
    var available := Available(v, location);
    if n <= available then None else Some(Requested(v, length, location + available, n - available))
  }

  /** Whether that request overwrites the read buffer. */
  predicate RefillsFor(v: View, length: nat, location: nat, n: nat)
    requires location + n <= length
  {
    var available := Available(v, location);
    n > available && Refills(v, length, location + available, n - available)
  }

  /** A read sends no request if and only if the buffer covers it; otherwise one, from the first byte
      that the buffer does not have. A refill covers the rest of the read and makes up the whole buffer,
      which is enlarged, to twice its size, if and only if the refill continues the last request; so a
      read that skips forward or back never enlarges it. What does not fit is asked for by itself and
      leaves the buffer alone. */
  lemma OneRequestCovers(v: View, length: nat, location: nat, n: nat)
    requires location + n <= length && v.start <= v.end
    ensures var w := NextView(v, length, location, n);
      if n == 0 || (v.start <= location && location + n <= v.end) then w == v
      else
        && |w.requests| == |v.requests| + 1 && w.requests[..|v.requests|] == v.requests
        && var (at, len) := w.requests[|v.requests|];
           && w.last == Some((at, len)) && location <= at < location + n <= at + len <= length
           && (if v.start <= location < v.end then at == v.end else at == location)
           && if location + n - at > v.size then
                len == location + n - at && (w.start, w.end, w.size) == (v.start, v.end, v.size)
              else
                && w.start == at && w.end == at + len && (len == w.size || at + len == length) && len <= w.size
                && w.size == (if v.size < MAXIMUM_READ_BUFFER_LEN && Continues(v.last, at) then v.size * 2 else v.size)
  {
  }

  /** The request before ended where the next one starts. */
  predicate Continues(last: Option<(nat, nat)>, at: nat) {
    last.Some? && last.value.0 + last.value.1 == at
  }

  // ----- The read buffer with its bytes -----

  /** The read buffer with the bytes in its memory. */
  datatype Buffer = Buffer(view: View, memory: Bytes)

  predicate Fitting(b: Buffer, length: nat) {
    b.view.start <= b.view.end <= length && b.view.end - b.view.start <= b.view.size == |b.memory|
  }

  /** The first bytes of a read, as far as the buffer has them. */
  function Had(b: Buffer, length: nat, location: nat, n: nat): (had: Bytes)
    requires Fitting(b, length)
    ensures |had| == Min(Available(b.view, location), n)
  {
    var len := Min(Available(b.view, location), n);
    if len == 0 then [] else b.memory[location - b.view.start..location - b.view.start + len]
  }

  /** Part of a buffer mirrors the bytes [start, end) of a file. */
  ghost predicate Mirrors(b: Buffer, file: Bytes) {
    && b.view.start <= b.view.end <= |file| && b.view.end - b.view.start <= |b.memory|
    && b.memory[..b.view.end - b.view.start] == file[b.view.start..b.view.end]
  }

  /** What a request for `rest` bytes from `at` on does to the read buffer, `b` before and `c`
      after, and to the caller's memory, which had `behind` where those bytes go. A refill leaves
      what arrived at the start of the buffer, also if it fails; only the memory of a newly
      enlarged buffer is arbitrary. */
  ghost predicate Fetch(guard: Guard, oracle: Oracle, length: nat, b: Buffer, c: Buffer, at: nat, rest: nat,
                        behind: Bytes, o: Outcome, stale: Bytes, window: Bytes)
    requires at + rest <= length
  {
    var asked := Requested(b.view, length, at, rest);
    var r := oracle(asked.0, asked.1);
    && c.view.requests == b.view.requests + [asked] && Answered(guard, r, asked.1, o, stale, window)
    && (if o.Success? then c.view == Fetched(b.view, length, at, rest)
        else (c.view.start, c.view.end, c.view.last) == (b.view.start, b.view.end, b.view.last))
    && |c.memory| == c.view.size
    && if Refills(b.view, length, at, rest) then
         && c.view.size == AdaptedSize(b.view.size, b.view.last, at)
         && asked.1 <= |c.memory| && c.memory[..asked.1] == window
         && (c.view.size == b.view.size == |b.memory| ==>
           && c.memory[asked.1..] == b.memory[asked.1..]
           && (|r.attempts| <= 1 ==> stale == b.memory[..asked.1]))
       else
         && c.memory == b.memory && c.view.size == b.view.size && (|r.attempts| <= 1 ==> stale == behind)
  }

  lemma RefillFetches(guard: Guard, oracle: Oracle, length: nat, b: Buffer, c: Buffer, at: nat, rest: nat,
                      behind: Bytes, o: Outcome, stale: Bytes, window: Bytes)
    requires at + rest <= length && Refills(b.view, length, at, rest)
    requires |c.memory| == c.view.size == AdaptedSize(b.view.size, b.view.last, at)
    requires
      var asked := Requested(b.view, length, at, rest);
      var r := oracle(asked.0, asked.1);
      && c.view.requests == b.view.requests + [asked] && Answered(guard, r, asked.1, o, stale, window)
      && (if o.Success? then c.view == View(at, at + asked.1, c.view.size, Some(asked), c.view.requests)
          else (c.view.start, c.view.end, c.view.last) == (b.view.start, b.view.end, b.view.last))
      && asked.1 <= |c.memory| && c.memory[..asked.1] == window
      && (c.view.size == b.view.size == |b.memory| ==>
        && c.memory[asked.1..] == b.memory[asked.1..]
        && (|r.attempts| <= 1 ==> stale == b.memory[..asked.1]))
    ensures Fetch(guard, oracle, length, b, c, at, rest, behind, o, stale, window)
  {
    hide Answered;
  }

  /** A whole buffered read: it has sent its request, if it needs one, and comes to `answer`. */
  ghost predicate ReadThrough(guard: Guard, oracle: Oracle, length: nat, b: Buffer, c: Buffer, location: nat, n: nat,
                           target: Bytes, o: Outcome, stale: Bytes, window: Bytes, answer: Bytes)
    requires location + n <= length && Fitting(b, length) && |target| == n
  {
    var available := Available(b.view, location);
    if n <= available then o.Success? && c == b && stale == [] && window == [] && answer == Had(b, length, location, n)
    else
      && Fetch(guard, oracle, length, b, c, location + available, n - available, target[available..], o, stale, window)
      && (o.Success? ==> answer == Had(b, length, location, n) + window[..n - available])
  }

  /** A whole direct read, into memory that held `target`. */
  ghost predicate ReadPast(guard: Guard, oracle: Oracle, b: Buffer, c: Buffer, location: nat, n: nat, target: Bytes,
                           o: Outcome, stale: Bytes, window: Bytes) {
    var r := oracle(location, n);
    && Answered(guard, r, n, o, stale, window) && (|r.attempts| <= 1 ==> stale == target)
    && c.view.requests == b.view.requests + [(location, n)] && c.memory == b.memory
    && (c.view.start, c.view.end, c.view.size) == (b.view.start, b.view.end, b.view.size)
  }

  /** A whole read without a cached file, on either path. */
  ghost predicate ReadDone(direct: bool, guard: Guard, oracle: Oracle, length: nat, b: Buffer, c: Buffer, location: nat,
                           n: nat, target: Bytes, o: Outcome, stale: Bytes, window: Bytes, answer: Bytes)
    requires location + n <= length && Fitting(b, length) && |target| == n
  {
    if direct && n > 0 then
      ReadPast(guard, oracle, b, c, location, n, target, o, stale, window) && (o.Success? ==> answer == window)
    else ReadThrough(guard, oracle, length, b, c, location, n, target, o, stale, window, answer)
  }

  /** The request that a read sends, if it sends one. */
  function AskedBy(direct: bool, v: View, length: nat, location: nat, n: nat): Option<(nat, nat)>
    requires location + n <= length
  {
    if direct && n > 0 then Some((location, n)) else AskedThrough(v, length, location, n)
  }

  /** Whether that request overwrites the read buffer. */
  predicate OverwritesBy(direct: bool, v: View, length: nat, location: nat, n: nat)
    requires location + n <= length
  {
    !(direct && n > 0) && RefillsFor(v, length, location, n)
  }

  /** The bytes that come from the read buffer. */
  function HadBy(direct: bool, b: Buffer, length: nat, location: nat, n: nat): Bytes
    requires Fitting(b, length)
  {
    if direct && n > 0 then [] else Had(b, length, location, n)
  }

  lemma ThroughReturns(remote: Remote, version: nat, guard: Guard, oracle: Oracle, b: Buffer, c: Buffer, location: nat,
                       n: nat, target: Bytes, o: Outcome, stale: Bytes, window: Bytes, answer: Bytes)
    requires Honest(remote, oracle) && Pinned(remote, oracle, guard, version)
    requires location + n <= |remote.content(version)| && Fitting(b, |remote.content(version)|) && |target| == n
    requires o.Success?
    requires ReadThrough(guard, oracle, |remote.content(version)|, b, c, location, n, target, o, stale, window, answer)
    ensures var file := remote.content(version);
      Returned(file, oracle, AskedThrough(b.view, |file|, location, n), RefillsFor(b.view, |file|, location, n),
               Had(b, |file|, location, n), stale, answer, location, n, Mirrors(b, file), Mirrors(c, file))
  {
    hide Answered, Honest, Pinned, Fetch, Returned, Fits, Mirrors;
    var file := remote.content(version);
    var had, available := Had(b, |file|, location, n), Available(b.view, location);
    if n <= available {
      BufferReturns(file, oracle, had, location, Mirrors(b, file));
    } else {
      var at, rest := location + available, n - available;
      var asked := Requested(b.view, |file|, at, rest);
      FetchAnswers(guard, oracle, |file|, b, c, at, rest, target[available..], o, stale, window);
      FetchOrders(guard, oracle, file, b, c, at, rest, target[available..], o, stale, window);
      SuccessFits(remote, oracle, guard, version, asked.0, asked.1, o, stale, window);
      RequestReturns(file, oracle, asked, Refills(b.view, |file|, at, rest), had, stale, window, location, n,
                     Mirrors(b, file), Mirrors(c, file));
    }
  }

  lemma FetchAnswers(guard: Guard, oracle: Oracle, length: nat, b: Buffer, c: Buffer, at: nat, rest: nat, behind: Bytes,
                     o: Outcome, stale: Bytes, window: Bytes)
    requires at + rest <= length && Fetch(guard, oracle, length, b, c, at, rest, behind, o, stale, window)
    ensures var asked := Requested(b.view, length, at, rest);
      Answered(guard, oracle(asked.0, asked.1), asked.1, o, stale, window) && |stale| == |window| == asked.1
  {
  }

  // What a successful request makes of the order of the buffer.
  lemma FetchOrders(guard: Guard, oracle: Oracle, file: Bytes, b: Buffer, c: Buffer, at: nat, rest: nat, behind: Bytes,
                    o: Outcome, stale: Bytes, window: Bytes)
    requires at + rest <= |file| && Fetch(guard, oracle, |file|, b, c, at, rest, behind, o, stale, window) && o.Success?
    ensures Mirrors(c, file) <==>
      if Refills(b.view, |file|, at, rest) then Begins(file, at, window) else Mirrors(b, file)
  {
    FetchAnswers(guard, oracle, |file|, b, c, at, rest, behind, o, stale, window);
    hide Answered;
  }

  lemma AnsweredSizes(guard: Guard, r: Reply, len: nat, o: Outcome, stale: Bytes, window: Bytes)
    requires Answered(guard, r, len, o, stale, window)
    ensures |stale| == |window| == len
  {
  }

  /** What a successful read has returned, in terms of the version its replies are pinned to. */
  lemma DoneReturns(remote: Remote, version: nat, direct: bool, guard: Guard, oracle: Oracle, b: Buffer, c: Buffer,
                    location: nat, n: nat, target: Bytes, o: Outcome, stale: Bytes, window: Bytes, answer: Bytes)
    requires Honest(remote, oracle) && Pinned(remote, oracle, guard, version)
    requires location + n <= |remote.content(version)| && Fitting(b, |remote.content(version)|) && |target| == n
    requires o.Success?
    requires ReadDone(direct, guard, oracle, |remote.content(version)|, b, c, location, n, target, o, stale, window,
                      answer)
    ensures var file := remote.content(version);
      Returned(file, oracle, AskedBy(direct, b.view, |file|, location, n),
               OverwritesBy(direct, b.view, |file|, location, n), HadBy(direct, b, |file|, location, n), stale, answer,
               location, n, Mirrors(b, file), Mirrors(c, file))
  {
    hide Answered, Honest, Pinned;
    var file := remote.content(version);
    if direct && n > 0 {
      SuccessFits(remote, oracle, guard, version, location, n, o, stale, window);
      AnsweredSizes(guard, oracle(location, n), n, o, stale, window);
      assert [] + window[..location + n - location] == window;
      RequestReturns(file, oracle, (location, n), false, [], stale, window, location, n, Mirrors(b, file),
                     Mirrors(c, file));
    } else {
      ThroughReturns(remote, version, guard, oracle, b, c, location, n, target, o, stale, window, answer);
    }
  }

  /** What the memory that a read's request writes to held before the read. A newly enlarged buffer
      holds anything. */
  function BeneathBy(direct: bool, b: Buffer, length: nat, location: nat, n: nat, target: Bytes): Option<Bytes>
    requires location + n <= length && Fitting(b, length) && |target| == n
  {
    var available := Available(b.view, location);
    if direct && n > 0 then Some(target)
    else if n <= available then Some([])
    else if !Refills(b.view, length, location + available, n - available) then Some(target[available..])
    else if AdaptedSize(b.view.size, b.view.last, location + available) != b.view.size then None
    else Some(b.memory[..Requested(b.view, length, location + available, n - available).1])
  }

  /** The read needs no request or its answer took no more than one attempt. */
  ghost predicate SingleAnswer(oracle: Oracle, asked: Option<(nat, nat)>) {
    asked.Some? ==> |oracle(asked.value.0, asked.value.1).attempts| <= 1
  }

  /** What lay behind a short answer is what the target of the request held before the read. */
  lemma DoneTies(direct: bool, guard: Guard, oracle: Oracle, length: nat, b: Buffer, c: Buffer, location: nat, n: nat,
                 target: Bytes, o: Outcome, stale: Bytes, window: Bytes, answer: Bytes)
    requires location + n <= length && Fitting(b, length) && |target| == n
    requires ReadDone(direct, guard, oracle, length, b, c, location, n, target, o, stale, window, answer)
    requires SingleAnswer(oracle, AskedBy(direct, b.view, length, location, n))
    ensures var beneath := BeneathBy(direct, b, length, location, n, target);
      beneath.Some? ==> stale == beneath.value
  {
    hide Answered;
  }

  lemma DoneDecides(direct: bool, guard: Guard, oracle: Oracle, length: nat, b: Buffer, c: Buffer, location: nat,
                    n: nat, target: Bytes, o: Outcome, stale: Bytes, window: Bytes, answer: Bytes)
    requires location + n <= length && Fitting(b, length) && |target| == n
    requires ReadDone(direct, guard, oracle, length, b, c, location, n, target, o, stale, window, answer)
    ensures Decided(guard, oracle, AskedBy(direct, b.view, length, location, n), o)
    ensures o.Fallback? ==> guard.fallback
  {
  }

  // Without success there is no answer.
  lemma ThroughFree(guard: Guard, oracle: Oracle, length: nat, b: Buffer, c: Buffer, location: nat, n: nat,
                    target: Bytes, o: Outcome, stale: Bytes, window: Bytes, answer: Bytes, other: Bytes)
    requires location + n <= length && Fitting(b, length) && |target| == n && !o.Success?
    requires ReadThrough(guard, oracle, length, b, c, location, n, target, o, stale, window, answer)
    ensures ReadThrough(guard, oracle, length, b, c, location, n, target, o, stale, window, other)
  {
    hide Answered, Fetch;
  }

  lemma AnswerFree(direct: bool, guard: Guard, oracle: Oracle, length: nat, b: Buffer, c: Buffer, location: nat, n: nat,
                   target: Bytes, o: Outcome, stale: Bytes, window: Bytes, answer: Bytes, other: Bytes)
    requires location + n <= length && Fitting(b, length) && |target| == n && !o.Success?
    requires ReadDone(direct, guard, oracle, length, b, c, location, n, target, o, stale, window, answer)
    ensures ReadDone(direct, guard, oracle, length, b, c, location, n, target, o, stale, window, other)
  {
    hide Answered, Fetch;
  }

  /** From a buffer in order and on a whole answer, everything is right; on another final answer the
      read is right if and only if that answer reached its last byte, up to chance. */
  lemma OrderedReturns(file: Bytes, oracle: Oracle, asked: Option<(nat, nat)>, overwrites: bool, direct: bool,
                       b: Buffer, stale: Bytes, got: Bytes, location: nat, n: nat, ordered: bool)
    requires location + n <= |file| && Fitting(b, |file|) && Mirrors(b, file)
    requires Returned(file, oracle, asked, overwrites, HadBy(direct, b, |file|, location, n), stale, got, location, n,
                      true, ordered)
    ensures WholeAnswer(oracle, asked) ==> ordered && Begins(file, location, got)
    ensures FinalAnswer(oracle, asked) ==>
      (Begins(file, location, got) <==> RightUpTo(file, oracle, asked, stale, location + n))
  {
    if !(direct && n > 0) {
      HadRight(b, file, location, n);
    }
  }

  /** What a read takes from a buffer in order is right. */
  lemma HadRight(b: Buffer, file: Bytes, location: nat, n: nat)
    requires Fitting(b, |file|) && Mirrors(b, file)
    ensures Begins(file, location, Had(b, |file|, location, n)) || location > |file|
  {
    var len := Min(Available(b.view, location), n);
    if len > 0 {
      var block, i := b.memory[..b.view.end - b.view.start], location - b.view.start;
      SliceOfSlice(b.memory, 0, |block|, i, i + len);
      assert b.memory[0..|block|] == block;
      SliceOfSlice(file, b.view.start, b.view.end, i, i + len);
    }
  }

  lemma SliceOfSlice(s: Bytes, start: nat, end: nat, i: nat, j: nat)
    requires start <= end <= |s| && i <= j <= end - start
    ensures s[start..end][i..j] == s[start + i..start + j]
  {
    var window := s[start..end];
    forall k | 0 <= k < j - i
      ensures window[i..j][k] == s[start + i..start + j][k]
    {
      assert window[i + k] == s[start + i + k];
    }
  }

  /** A read that does not overwrite the buffer leaves it as it was, however it ends. */
  lemma OthersKeep(direct: bool, guard: Guard, oracle: Oracle, file: Bytes, b: Buffer, c: Buffer, location: nat, n: nat,
                   target: Bytes, o: Outcome, stale: Bytes, window: Bytes, answer: Bytes)
    requires location + n <= |file| && Fitting(b, |file|) && |target| == n
    requires ReadDone(direct, guard, oracle, |file|, b, c, location, n, target, o, stale, window, answer)
    requires !OverwritesBy(direct, b.view, |file|, location, n)
    ensures c.memory == b.memory && (Mirrors(c, file) <==> Mirrors(b, file))
  {
    hide Answered;
  }

  /** What a refill that throws makes of a buffer that was not enlarged for it: the bounds stay, and
      what arrived lies over the bytes they speak of. So the buffer is in order exactly if what
      arrived happens to be what the file has there, and the rest was in order before. */
  lemma BrokenRefill(guard: Guard, oracle: Oracle, file: Bytes, b: Buffer, c: Buffer, location: nat, n: nat,
                     target: Bytes, o: Outcome, stale: Bytes, window: Bytes, answer: Bytes)
    requires location + n <= |file| && Fitting(b, |file|) && |target| == n
    requires ReadDone(false, guard, oracle, |file|, b, c, location, n, target, o, stale, window, answer)
    requires OverwritesBy(false, b.view, |file|, location, n) && !o.Success?
    requires BeneathBy(false, b, |file|, location, n, target).Some?
    requires SingleAnswer(oracle, AskedBy(false, b.view, |file|, location, n))
    requires ArrivingBy(guard, oracle, AskedBy(false, b.view, |file|, location, n)).Some?
    ensures
      var arrived := ArrivingBy(guard, oracle, AskedBy(false, b.view, |file|, location, n)).value;
      var (start, end) := (b.view.start, b.view.end);
      var k := Min(|arrived|, end - start);
      && (c.view.start, c.view.end, c.view.size) == (start, end, b.view.size)
      && |arrived| <= |b.memory| && c.memory == arrived + b.memory[|arrived|..]
      && (Mirrors(c, file) <==>
        arrived[..k] == file[start..start + k] && b.memory[k..end - start] == file[start + k..end])
  {
    hide Answered, Arriving, Mirrors;
    var available := Available(b.view, location);
    var asked := Requested(b.view, |file|, location + available, n - available);
    BrokenFetch(guard, oracle, |file|, b, c, location + available, n - available, target[available..], o, stale,
                window);
    PatchedMirrors(b, c, file, Arriving(guard, oracle(asked.0, asked.1), asked.1).value);
  }

  lemma BrokenFetch(guard: Guard, oracle: Oracle, length: nat, b: Buffer, c: Buffer, at: nat, rest: nat, behind: Bytes,
                    o: Outcome, stale: Bytes, window: Bytes)
    requires at + rest <= length && !o.Success?
    requires Fetch(guard, oracle, length, b, c, at, rest, behind, o, stale, window)
    requires Refills(b.view, length, at, rest) && AdaptedSize(b.view.size, b.view.last, at) == b.view.size == |b.memory|
    requires
      var asked := Requested(b.view, length, at, rest);
      var r := oracle(asked.0, asked.1);
      |r.attempts| <= 1 && Arriving(guard, r, asked.1).Some?
    ensures
      var asked := Requested(b.view, length, at, rest);
      var arrived := Arriving(guard, oracle(asked.0, asked.1), asked.1).value;
      && (c.view.start, c.view.end, c.view.size) == (b.view.start, b.view.end, b.view.size)
      && |arrived| <= |b.memory| && c.memory == arrived + b.memory[|arrived|..]
  {
    var asked := Requested(b.view, length, at, rest);
    var r, len := oracle(asked.0, asked.1), asked.1;
    ArrivingFits(guard, r, len);
    var arrived := Arriving(guard, r, len).value;
    FetchAnswers(guard, oracle, length, b, c, at, rest, behind, o, stale, window);
    assert window == Landed(arrived, stale);
    hide Answered, Arriving;
    assert c.memory == c.memory[..len] + c.memory[len..];
    assert c.memory == arrived + b.memory[|arrived|..];
  }

  /** The bytes of a read's request that reach its target. */
  function ArrivingBy(guard: Guard, oracle: Oracle, asked: Option<(nat, nat)>): Option<Bytes> {
    if asked.None? then Some([]) else Arriving(guard, oracle(asked.value.0, asked.value.1), asked.value.1)
  }

  lemma ArrivingFits(guard: Guard, r: Reply, len: nat)
    requires Arriving(guard, r, len).Some?
    ensures |Arriving(guard, r, len).value| <= len
  {
  }

  lemma PatchedMirrors(b: Buffer, c: Buffer, file: Bytes, arrived: Bytes)
    requires b.view.start <= b.view.end <= |file| && b.view.end - b.view.start <= |b.memory| && |arrived| <= |b.memory|
    requires c.view.start == b.view.start && c.view.end == b.view.end && c.memory == arrived + b.memory[|arrived|..]
    ensures
      var (start, end) := (b.view.start, b.view.end);
      var k := Min(|arrived|, end - start);
      Mirrors(c, file) <==> arrived[..k] == file[start..start + k] && b.memory[k..end - start] == file[start + k..end]
  {
    var (start, end) := (b.view.start, b.view.end);
    var len, k := end - start, Min(|arrived|, end - start);
    assert c.memory[..len] == arrived[..k] + b.memory[k..len];
    assert file[start..end] == file[start..start + k] + file[start + k..end];
    assert c.memory[..len][..k] == arrived[..k] && c.memory[..len][k..] == b.memory[k..len];
    assert file[start..end][..k] == file[start..start + k] && file[start..end][k..] == file[start + k..end];
  }
}
