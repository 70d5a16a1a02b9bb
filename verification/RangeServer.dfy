/** The server side of range requests: the versions of an object, the replies to a request, what the
    reader makes of a reply, and what it leaves in a buffer. */
module RangeServer {
  import opened FullDownload
  import opened Prelude

  /** The versions an object goes through and the ETag the server sends with each. */
  datatype Remote = Remote(content: nat -> Bytes, tag: nat -> string)

  function StripQuotes(etag: string): string {
    if |etag| >= 2 && etag[0] == '"' && etag[|etag| - 1] == '"' then etag[1..|etag| - 1] else etag
  }

  /** Every version has a tag of its own, quotes aside. */
  ghost predicate TagsDistinguish(remote: Remote) {
    && (forall v :: remote.tag(v) != "")
    && forall v, w | v != w :: StripQuotes(remote.tag(v)) != StripQuotes(remote.tag(w))
  }

  /** One response to a range request, served from one version of the object. */
  datatype Attempt = Attempt(version: nat, status: nat, etag: string, contentLength: Option<nat>, chunks: seq<Bytes>)

  /** The request layer may repeat a request, so a reply is a series of attempts; `failed` and
      `success` are what it reports when no handler raised an error. */
  datatype Reply = Reply(attempts: seq<Attempt>, failed: bool, status: nat, success: bool)

  function Last(r: Reply): Attempt
    requires r.attempts != []
  {
    r.attempts[|r.attempts| - 1]
  }

  /** The body of the last attempt. */
  function LastBody(r: Reply): Bytes {
    if r.attempts == [] then [] else Concat(Last(r).chunks)
  }

  /** The body is what the file has from `offset` on, as far as it goes. */
  predicate Begins(file: Bytes, offset: nat, body: Bytes) {
    offset + |body| <= |file| && body == file[offset..offset + |body|]
  }

  /** A body is delivered only after a final (below 300) status. It is a beginning of the range
      that was asked for or, from a server that ignores ranges, the whole object. */
  ghost predicate HonestAttempt(remote: Remote, a: Attempt, offset: nat, len: nat) {
    && a.etag == remote.tag(a.version)
    && if a.status >= 300 then a.chunks == []
       else
         var file, body := remote.content(a.version), Concat(a.chunks);
         body == file || (|body| <= len && Begins(file, offset, body))
  }

  /** The last attempt is honest; those before it may have broken off anywhere. A response without
      error has its status. The success flag is set by the request layer and may be up or down,
      whatever was delivered. */
  ghost predicate HonestReply(remote: Remote, r: Reply, offset: nat, len: nat) {
    && (r.attempts != [] ==> HonestAttempt(remote, Last(r), offset, len))
    && (!r.failed ==> r.attempts != [] && Last(r).status == r.status)
  }

  /** What the server would reply to any range request of one read. */
  type Oracle = (nat, nat) -> Reply

  ghost predicate Honest(remote: Remote, oracle: Oracle) {
    forall offset, len {:trigger HonestReply(remote, oracle(offset, len), offset, len)} ::
      HonestReply(remote, oracle(offset, len), offset, len)
  }

  // ----- What the reader makes of a reply -----

  datatype Error = RangeNotSupported | ETagChanged | TooMuchData | ShortRead | HttpStatus | RequestError
                 | NotInitialized | CachedTooShort | SizeMismatch | FallbackFailed | DownloadFailed | OutOfBounds

  datatype Outcome = Success | Fallback | Thrown(error: Error)

  /** The ETag a handle has recorded, whether it compares it with those of the answers, and
      whether it may fall back to a full download. */
  datatype Guard = Guard(checked: bool, etag: string, fallback: bool)

  predicate ETagAccepted(guard: Guard, etag: string) {
    guard.checked && guard.etag != "" && etag != "" ==> StripQuotes(etag) == StripQuotes(guard.etag)
  }

  /** What the handlers raise in one attempt that finds `before` bytes taken. */
  function Raised(guard: Guard, a: Attempt, len: nat, before: nat): Option<Error> {
    if a.status < 300 && !ETagAccepted(guard, a.etag) then Some(ETagChanged)
    else if a.status < 300 && a.contentLength.Some? && a.contentLength.value != len then Some(RangeNotSupported)
    else if (if a.status < 300 then 0 else before) + |Concat(a.chunks)| > len then Some(TooMuchData)
    else None
  }

  /** A final answer that the handlers take. */
  predicate Handled(guard: Guard, r: Reply, len: nat) {
    r.attempts != [] && Last(r).status < 300 && Raised(guard, Last(r), len, 0).None?
  }

  function Throw(guard: Guard, error: Error): Outcome {
    if error == RangeNotSupported && guard.fallback then Fallback else Thrown(error)
  }

  /** The last attempt and the flags decide what a request comes to, whatever came before: after a
      redirect or a repetition as well. Only a reply that ends with a redirect and has its success flag
      up depends on how many bytes the attempts before it had delivered. */
  predicate Decides(r: Reply) {
    || |r.attempts| <= 1 || Last(r).status < 300
    || (Concat(Last(r).chunks) == [] && (r.failed || r.status >= 400 || !r.success))
  }

  /** What such a request comes to. */
  function Verdict(guard: Guard, r: Reply, len: nat): Outcome {
    var raised := if r.attempts == [] then None else Raised(guard, Last(r), len, 0);
    var received := |LastBody(r)|;
    if raised.Some? then Throw(guard, raised.value)
    else if r.failed then Thrown(RequestError)
    else if r.status >= 400 then Thrown(HttpStatus)
    else if r.success && received != len then Thrown(ShortRead)
    else if r.success || r.status == 206 || r.status == 202 then Success
    else Thrown(HttpStatus)
  }

  /** What every successful request has, however many attempts it took: a short body is noticed
      only if the success flag is up. */
  predicate Passes(guard: Guard, r: Reply, len: nat) {
    && !r.failed && r.status < 400 && (r.success || r.status == 206 || r.status == 202)
    && (r.attempts != [] && Last(r).status < 300 ==>
      Handled(guard, r, len) && (r.success ==> |LastBody(r)| == len))
  }

  predicate IsRequestError(e: Error) {
    e in {RangeNotSupported, ETagChanged, TooMuchData, ShortRead, HttpStatus, RequestError}
  }

  /** The bytes of an attempt that reach the target, unless the handlers stop in the middle of a
      body that is too long. */
  function ArrivingIn(guard: Guard, a: Attempt, len: nat): Option<Bytes> {
    if Concat(a.chunks) == [] then Some([])
    else if a.status >= 300 then None
    else match Raised(guard, a, len, 0)
         case None => Some(Concat(a.chunks))
         case Some(TooMuchData) => None
         case Some(_) => Some([])
  }

  /** Those of the last attempt. */
  function Arriving(guard: Guard, r: Reply, len: nat): Option<Bytes> {
    if r.attempts == [] then Some([]) else ArrivingIn(guard, Last(r), len)
  }

  /** What a request leaves in a buffer that held `stale` before its last attempt. */
  function Landed(body: Bytes, stale: Bytes): (w: Bytes)
    ensures |w| == |stale|
  {
    if |body| <= |stale| then body + stale[|body|..] else stale
  }

  /** A request for `len` bytes has come to `o`, and has left `window` where `stale` had been before
      its last attempt. */
  ghost predicate Answered(guard: Guard, r: Reply, len: nat, o: Outcome, stale: Bytes, window: Bytes) {
    && |stale| == |window| == len
    && (Decides(r) ==> o == Verdict(guard, r, len))
    && (o.Success? ==> Passes(guard, r, len))
    && (o.Fallback? ==> guard.fallback) && (o.Thrown? ==> IsRequestError(o.error))
    && (Arriving(guard, r, len).Some? ==> window == Landed(Arriving(guard, r, len).value, stale))
  }

  // ----- Which version a reply comes from -----

  /** Replies can be told to come from this version: by their ETag, or because the object does
      not change. */
  ghost predicate Pinned(remote: Remote, oracle: Oracle, guard: Guard, version: nat) {
    || (guard.checked && guard.etag == remote.tag(version) && TagsDistinguish(remote))
    || OnlyVersion(oracle, version)
  }

  predicate LastFrom(r: Reply, version: nat) {
    r.attempts != [] ==> Last(r).version == version
  }

  /** All last attempts come from this version. */
  ghost predicate OnlyVersion(oracle: Oracle, version: nat) {
    forall offset, len {:trigger LastFrom(oracle(offset, len), version)} :: LastFrom(oracle(offset, len), version)
  }

  /** A final answer that the handlers take comes from the version it is pinned to. */
  lemma FromVersion(remote: Remote, oracle: Oracle, guard: Guard, version: nat, offset: nat, len: nat)
    requires Honest(remote, oracle) && Pinned(remote, oracle, guard, version)
    requires Handled(guard, oracle(offset, len), len) && offset + len <= |remote.content(version)|
    ensures Begins(remote.content(version), offset, LastBody(oracle(offset, len)))
  {
    var r := oracle(offset, len);
    assert HonestReply(remote, r, offset, len) && HonestAttempt(remote, Last(r), offset, len);
    if OnlyVersion(oracle, version) {
      assert LastFrom(r, version);
    }
    assert Last(r).version == version;
  }

  // ----- Which bytes are right -----

  /** The last answer is final, not a redirect. */
  predicate Final(r: Reply) {
    r.attempts != [] && r.status < 300
  }

  /** A final answer that is checked for a short read, or needs no check. */
  predicate Whole(r: Reply, len: nat) {
    Final(r) && (r.success || |LastBody(r)| == len)
  }

  /** The body reaches as far as needed, or what lay in the buffer behind it happens to be what
      the file has there. */
  predicate Right(body: Bytes, stale: Bytes, file: Bytes, offset: nat, need: nat)
    requires need <= |stale| && offset + need <= |file|
  {
    |body| >= need || stale[|body|..need] == file[offset + |body|..offset + need]
  }

  /** The bytes that a request leaves are the file's if and only if that holds. */
  lemma LandedRight(body: Bytes, stale: Bytes, file: Bytes, offset: nat, need: nat)
    requires |body| <= |stale| && Begins(file, offset, body) && need <= |stale| && offset + need <= |file|
    ensures Landed(body, stale)[..need] == file[offset..offset + need] <==> Right(body, stale, file, offset, need)
  {
    var w, k := Landed(body, stale), |body|;
    if k >= need {
      assert w[..need] == body[..need];
    } else {
      assert w[..need] == body + stale[k..need];
      assert file[offset..offset + need] == file[offset..offset + k] + file[offset + k..offset + need];
      assert w[..need][k..] == stale[k..need];
      assert file[offset..offset + need][k..] == file[offset + k..offset + need];
    }
  }

  /** A successful request for bytes of the file has taken a body of that file. */
  predicate Fits(file: Bytes, r: Reply, at: nat, len: nat) {
    && at + len <= |file|
    && (Final(r) ==>
      && |LastBody(r)| <= len && Begins(file, at, LastBody(r)) && (r.success ==> |LastBody(r)| == len))
  }

  lemma SuccessFits(remote: Remote, oracle: Oracle, guard: Guard, version: nat, at: nat, len: nat, o: Outcome,
                    stale: Bytes, window: Bytes)
    requires Honest(remote, oracle) && Pinned(remote, oracle, guard, version)
    requires at + len <= |remote.content(version)| && o.Success?
    requires Answered(guard, oracle(at, len), len, o, stale, window)
    ensures Fits(remote.content(version), oracle(at, len), at, len)
    ensures Final(oracle(at, len)) ==> window == Landed(LastBody(oracle(at, len)), stale)
  {
    var r := oracle(at, len);
    assert HonestReply(remote, r, at, len);
    if Final(r) {
      FromVersion(remote, oracle, guard, version, at, len);
    }
  }

  /** The read's request, if any, was answered with a final status. */
  ghost predicate FinalAnswer(oracle: Oracle, asked: Option<(nat, nat)>) {
    asked.Some? ==> Final(oracle(asked.value.0, asked.value.1))
  }

  /** The read needed no request or the answer was whole. */
  ghost predicate WholeAnswer(oracle: Oracle, asked: Option<(nat, nat)>) {
    asked.Some? ==> Whole(oracle(asked.value.0, asked.value.1), asked.value.1)
  }

  /** The answer reached `end`, or what lay behind it was right by chance. */
  ghost predicate RightUpTo(file: Bytes, oracle: Oracle, asked: Option<(nat, nat)>, stale: Bytes, end: nat) {
    asked.Some? ==>
      var (at, len) := asked.value;
      && at <= end <= at + |stale| && end <= |file|
      && Right(LastBody(oracle(at, len)), stale, file, at, end - at)
  }

  /** The outcome of a successful read of `n` bytes that took `had` from the read buffer; `before`
      and `ordered` tell whether that buffer was and is in order. On a whole answer, or without a
      request, the bytes are right exactly if those from the buffer were. On any other final answer
      the rest is right exactly if it reached their end, and a refilled buffer is in order exactly
      if it reached the end of the refill, up to chance: up to what lay there, `stale`. */
  ghost predicate Returned(file: Bytes, oracle: Oracle, asked: Option<(nat, nat)>, overwrites: bool, had: Bytes,
                           stale: Bytes, got: Bytes, location: nat, n: nat, before: bool, ordered: bool) {
    && location + n <= |file| && |got| == n && had <= got
    && |stale| == (if asked.Some? then asked.value.1 else 0)
    && location + |had| == (if asked.Some? then asked.value.0 else location + n)
    && (WholeAnswer(oracle, asked) ==> (Begins(file, location, got) <==> Begins(file, location, had)))
    && (FinalAnswer(oracle, asked) ==>
      (Begins(file, location, got) <==>
        Begins(file, location, had) && RightUpTo(file, oracle, asked, stale, location + n)))
    && if asked.Some? && overwrites then
         && (WholeAnswer(oracle, asked) ==> ordered)
         && (FinalAnswer(oracle, asked) ==>
           (ordered <==> RightUpTo(file, oracle, asked, stale, asked.value.0 + asked.value.1)))
       else ordered == before
  }

  /** Bytes from the buffer and bytes that were asked for are right together exactly if both are. */
  lemma PartsRight(file: Bytes, location: nat, had: Bytes, rest: Bytes)
    requires location + |had| + |rest| <= |file|
    ensures Begins(file, location, had + rest) <==> Begins(file, location, had) && Begins(file, location + |had|, rest)
  {
    var whole, k := had + rest, |had|;
    var want := file[location..location + |whole|];
    assert want == file[location..location + k] + file[location + k..location + |whole|];
    assert whole[..k] == had && whole[k..] == rest;
    assert want[..k] == file[location..location + k] && want[k..] == file[location + k..location + |whole|];
  }

  /** From what a request left to what the read returns. */
  lemma RequestReturns(file: Bytes, oracle: Oracle, asked: (nat, nat), overwrites: bool, had: Bytes, stale: Bytes,
                       window: Bytes, location: nat, n: nat, before: bool, ordered: bool)
    requires location <= asked.0 <= location + n <= asked.0 + asked.1 && |had| == asked.0 - location
    requires Fits(file, oracle(asked.0, asked.1), asked.0, asked.1) && |stale| == |window| == asked.1
    requires
      var r := oracle(asked.0, asked.1);
      Final(r) ==> window == Landed(LastBody(r), stale)
    requires ordered <==> (if overwrites then Begins(file, asked.0, window) else before)
    ensures Returned(file, oracle, Some(asked), overwrites, had, stale, had + window[..location + n - asked.0],
                     location, n, before, ordered)
  {
    hide Landed;
    var (at, len) := asked;
    var r, need := oracle(at, len), location + n - at;
    var got := had + window[..need];
    assert got[..|had|] == had;
    PartsRight(file, location, had, window[..need]);
    assert window[..len] == window;
    if Final(r) {
      LandedRight(LastBody(r), stale, file, at, need);
      LandedRight(LastBody(r), stale, file, at, len);
      if Whole(r, len) {
        assert Right(LastBody(r), stale, file, at, need) && Right(LastBody(r), stale, file, at, len);
      }
    }
  }

  /** A read that its buffer served. */
  lemma BufferReturns(file: Bytes, oracle: Oracle, had: Bytes, location: nat, before: bool)
    requires location + |had| <= |file|
    ensures Returned(file, oracle, None, false, had, [], had, location, |had|, before, before)
  {
  }

  /** The reply of a server that supports ranges, when nothing goes wrong in the end: after any number
      of redirects and broken attempts, a complete one. */
  ghost predicate CleanReply(remote: Remote, version: nat, r: Reply, offset: nat, len: nat) {
    && !r.failed && r.attempts != [] && (r.success || r.status == 206 || r.status == 202) && r.status < 300
    && var a := Last(r);
       && a.version == version && a.status == r.status && a.etag == remote.tag(version)
       && (a.contentLength.Some? ==> a.contentLength.value == len)
       && |Concat(a.chunks)| == len
  }

  /** The read needs no request, or gets an answer that the source accepts. */
  ghost predicate AcceptedAnswer(guard: Guard, oracle: Oracle, asked: Option<(nat, nat)>) {
    asked.Some? ==>
      var r := oracle(asked.value.0, asked.value.1);
      Decides(r) && Verdict(guard, r, asked.value.1).Success?
  }

  /** A read without a request succeeds; a request comes to the verdict. */
  ghost predicate Decided(guard: Guard, oracle: Oracle, asked: Option<(nat, nat)>, o: Outcome) {
    if asked.None? then o.Success?
    else
      var r := oracle(asked.value.0, asked.value.1);
      Decides(r) ==> o == Verdict(guard, r, asked.value.1)
  }

  /** On a server that supports ranges, when nothing goes wrong, an answer is accepted and whole. */
  lemma CleanIsAccepted(remote: Remote, version: nat, oracle: Oracle, guard: Guard, offset: nat, len: nat)
    requires guard.etag == remote.tag(version) && CleanReply(remote, version, oracle(offset, len), offset, len)
    ensures AcceptedAnswer(guard, oracle, Some((offset, len))) && WholeAnswer(oracle, Some((offset, len)))
  {
  }

  /** The read needs no request, or nothing goes wrong with its answer in the end. */
  ghost predicate CleanAnswer(remote: Remote, version: nat, oracle: Oracle, asked: Option<(nat, nat)>) {
    asked.Some? ==>
      var (offset, len) := asked.value;
      CleanReply(remote, version, oracle(offset, len), offset, len)
  }

  /** Then the read succeeds, after any number of redirects and broken attempts. */
  lemma CleanSucceeds(remote: Remote, version: nat, oracle: Oracle, guard: Guard, asked: Option<(nat, nat)>, o: Outcome)
    requires guard.etag == remote.tag(version) && CleanAnswer(remote, version, oracle, asked)
    requires Decided(guard, oracle, asked, o)
    ensures o.Success? && WholeAnswer(oracle, asked)
  {
    if asked.Some? {
      CleanIsAccepted(remote, version, oracle, guard, asked.value.0, asked.value.1);
    }
  }

  /** An object that has changed since it was opened is noticed by its ETag: the read throws, and does
      not fall back to a download. */
  lemma ChangeIsNoticed(remote: Remote, version: nat, oracle: Oracle, guard: Guard, asked: (nat, nat), o: Outcome)
    requires guard.checked && guard.etag == remote.tag(version) && TagsDistinguish(remote) && Honest(remote, oracle)
    requires Decided(guard, oracle, Some(asked), o)
    requires var r := oracle(asked.0, asked.1);
      r.attempts != [] && Last(r).status < 300 && Last(r).version != version
    ensures o == Thrown(ETagChanged)
  {
    var r := oracle(asked.0, asked.1);
    assert HonestReply(remote, r, asked.0, asked.1);
    assert StripQuotes(Last(r).etag) != StripQuotes(guard.etag);
  }

  /** A server that ignores the range, and says how much it sends, leads to the fallback, or to the error
      for it where the handle may not fall back. */
  lemma IgnoredRange(guard: Guard, oracle: Oracle, asked: (nat, nat), o: Outcome)
    requires Decided(guard, oracle, Some(asked), o)
    requires var r := oracle(asked.0, asked.1);
      && r.attempts != [] && Last(r).status < 300 && Last(r).contentLength.Some?
      && Last(r).contentLength.value != asked.1 && (guard.checked ==> guard.etag in {"", Last(r).etag})
    ensures o == if guard.fallback then Fallback else Thrown(RangeNotSupported)
  {
  }

  /** A request that failed, or was answered with an error status, is reported as that and never taken for
      a server without ranges. */
  lemma ErrorStatusThrows(guard: Guard, oracle: Oracle, asked: (nat, nat), o: Outcome)
    requires Decided(guard, oracle, Some(asked), o)
    requires var r := oracle(asked.0, asked.1);
      (r.failed || r.status >= 400) && (r.attempts == [] || (Last(r).status >= 300 && LastBody(r) == []))
    ensures o == Thrown(if oracle(asked.0, asked.1).failed then RequestError else HttpStatus)
  {
    var r := oracle(asked.0, asked.1);
    if r.attempts != [] {
      assert Raised(guard, Last(r), asked.1, 0).None?;
    }
  }

  // ----- The full download -----

  /** A reply to the full download: the blocks of broken attempts, then those of the complete
      one, which come from one version. */
  datatype FullReply = FullReply(status: nat, version: nat, broken: seq<Bytes>, blocks: seq<Bytes>)

  ghost predicate HonestDownload(remote: Remote, full: FullReply) {
    full.status == 200 ==> Concat(full.blocks) == remote.content(full.version)
  }

  /** The download is recorded with its size and is one version: some block arrived or the
      length was zero before, and either no broken attempt left bytes behind or the size is the
      one recorded at open, so that the size comparison notices them. */
  ghost predicate Usable(remote: Remote, full: FullReply, length: nat) {
    && (full.broken + full.blocks != [] || length == 0)
    && (Concat(full.broken) == [] || |remote.content(full.version)| == length)
  }

  /** What the second half of a read comes to, with the shared file already there or not. */
  function RedirectOutcome(there: bool, size: nat, full: FullReply, length: nat, n: nat): Outcome {
    var now := if there then size else RecordedSize(full.broken + full.blocks, length);
    if !there && full.status != 200 then Thrown(DownloadFailed)
    else if now != length then Thrown(SizeMismatch)
    else if !there && full.broken + full.blocks == [] && n > 0 then Thrown(OutOfBounds)
    else Success
  }
}
