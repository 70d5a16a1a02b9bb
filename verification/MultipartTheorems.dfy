/** What holds in every run of the multipart upload: any sequence of writes, any interleaving
    of the upload threads, any outcome of the requests. */
module MultipartTheorems {
  import opened MultipartUpload
  import opened MultipartInvariant
  import opened MultipartSafety
  import opened Prelude

  lemma WriterStepKeeps(c: Config, s: State, e: Event)
    requires Inv(c, s) && CanDo(c, s, e) && !ByThread(e)
    ensures Inv(c, Do(c, s, e))
  {
    match e
    case CallWrite(bytes, location) => CallWriteKeeps(c, s, bytes, location);
    case FillBuffer(memory) => FillKeeps(c, s, memory);
    case ReturnWrite => ReturnWriteKeeps(c, s);
    case Claim => ClaimKeeps(c, s);
    case Check => CheckKeeps(c, s);
    case Reserve => ReserveKeeps(c, s);
    case Open(ok) => OpenKeeps(c, s, ok);
    case Spawn => SpawnKeeps(c, s);
    case CallFinalize => CallFinalizeKeeps(c, s);
    case Resume => ResumeKeeps(c, s);
    case Collect(order) => CollectKeeps(c, s, order);
    case Decide => DecideKeeps(c, s);
    case OpenAll(ok) => OpenAllKeeps(c, s, ok);
    case SinglePut(result) => SinglePutKeeps(c, s, result);
    case FlushNext => FlushNextKeeps(c, s);
    case CheckDrain => CheckDrainKeeps(c, s);
    case Rethrow => RethrowKeeps(c, s);
    case Complete(r) => CompleteKeeps(c, s, r);
    case Spurious =>
      WakeKeeps(c, s, WakeSlot(s.pc));
      WakeKeeps(c, s.(pc := WakeSlot(s.pc)), WakeDrain(WakeSlot(s.pc)));
  }

  lemma CallFinalizeKeeps(c: Config, s: State)
    requires Inv(c, s) && s.pc.Idle?
    ensures Inv(c, s.(pc := if s.finalized then Finished else Collecting))
  {
  }

  lemma ResumeKeeps(c: Config, s: State)
    requires Inv(c, s) && s.pc.Finished? && !s.finalized
    ensures Inv(c, s.(pc := Idle))
  {
    NothingWritten(c, s.heap, s.written);
  }

  lemma ThreadStepKeeps(c: Config, s: State, e: Event)
    requires Inv(c, s) && CanDo(c, s, e) && ByThread(e)
    ensures Inv(c, Do(c, s, e))
  {
    match e
    case Put(i, result) => PutKeeps(c, s, i, result);
    case Insert(i) => InsertStepKeeps(c, s, i);
    case Count(i) => CountStepKeeps(c, s, i);
    case Push(i) => PushKeeps(c, s, i);
    case Decrement(i) => DecrementStepKeeps(c, s, i);
    case NotifySlot(i) => NotifySlotKeeps(c, s, i);
    case NotifyDrain(i) => NotifyDrainKeeps(c, s, i);
    case _ =>
  }

  lemma InsertStepKeeps(c: Config, s: State, i: nat)
    requires Inv(c, s) && CanDo(c, s, Insert(i))
    ensures Inv(c, Do(c, s, Insert(i)))
  {
    InsertKeeps(c, s, i);
    InsertDoes(c, s, i);
  }

  lemma InsertDoes(c: Config, s: State, i: nat)
    requires CanDo(c, s, Insert(i)) && s.heap[i].partNo == i && i !in s.etags
    ensures Do(c, s, Insert(i)) == s.(etags := s.etags[i := s.ups[i].etag], ups := s.ups[i := Inserted])
  {
  }

  lemma CountStepKeeps(c: Config, s: State, i: nat)
    requires Inv(c, s) && CanDo(c, s, Count(i))
    ensures Inv(c, Do(c, s, Count(i)))
  {
    CountKeeps(c, s, i);
    CountDoes(c, s, i);
  }

  lemma CountDoes(c: Config, s: State, i: nat)
    requires CanDo(c, s, Count(i)) && s.partsUploaded + 1 < U16
    ensures Do(c, s, Count(i)) == s.(partsUploaded := s.partsUploaded + 1, ups := s.ups[i := Leaving(true)])
  {
  }

  lemma DecrementStepKeeps(c: Config, s: State, i: nat)
    requires Inv(c, s) && CanDo(c, s, Decrement(i))
    ensures Inv(c, Do(c, s, Decrement(i)))
  {
    DecrementKeeps(c, s, i);
    DecrementDoes(c, s, i);
  }

  lemma DecrementDoes(c: Config, s: State, i: nat)
    requires CanDo(c, s, Decrement(i)) && s.inProgress > 0
    ensures Do(c, s, Decrement(i)) ==
      s.(ups := s.ups[i := Decremented(s.ups[i].ok)], inProgress := s.inProgress - 1)
  {
  }

  lemma NotifySlotKeeps(c: Config, s: State, i: nat)
    requires Inv(c, s) && i in s.ups && s.ups[i].Decremented?
    ensures Inv(c, s.(ups := s.ups[i := SlotNotified(s.ups[i].ok)], pc := WakeSlot(s.pc)))
  {
    WakeKeeps(c, s, WakeSlot(s.pc));
    NotifyKeeps(c, s.(pc := WakeSlot(s.pc)), i, SlotNotified(s.ups[i].ok));
  }

  lemma NotifyDrainKeeps(c: Config, s: State, i: nat)
    requires Inv(c, s) && i in s.ups && s.ups[i].SlotNotified?
    ensures Inv(c, s.(ups := s.ups[i := Gone(s.ups[i].ok)], pc := WakeDrain(s.pc)))
  {
    WakeKeeps(c, s, WakeDrain(s.pc));
    NotifyKeeps(c, s.(pc := WakeDrain(s.pc)), i, Gone(s.ups[i].ok));
  }

  lemma StepKeeps(c: Config, s: State, e: Event)
    requires Inv(c, s) && CanDo(c, s, e)
    ensures Inv(c, Do(c, s, e))
  {
    if ByThread(e) {
      ThreadStepKeeps(c, s, e);
    } else {
      WriterStepKeeps(c, s, e);
    }
  }

  // ----- Runs -----

  predicate StepAt(c: Config, run: seq<State>, events: seq<Event>, i: nat)
    requires |run| == |events| + 1 && i < |events|
  {
    CanDo(c, run[i], events[i]) && run[i + 1] == Do(c, run[i], events[i])
  }

  /** The states that these events lead through, from the start. */
  ghost predicate IsRun(c: Config, run: seq<State>, events: seq<Event>) {
    && c.partSize > 0 && |run| == |events| + 1 && run[0] == Init()
    && forall i | 0 <= i < |events| :: StepAt(c, run, events, i)
  }

  /** The invariant holds in every state of every run. */
  lemma {:induction false} RunInv(c: Config, run: seq<State>, events: seq<Event>, k: nat)
    requires IsRun(c, run, events) && k < |run|
    ensures Inv(c, run[k])
  {
    if k == 0 {
      InitInv(c);
    } else {
      RunInv(c, run, events, k - 1);
      assert StepAt(c, run, events, k - 1);
      StepKeeps(c, run[k - 1], events[k - 1]);
    }
  }

  /** One more step of a run. */
  lemma Extend(c: Config, run: seq<State>, events: seq<Event>, e: Event) returns (longer: seq<State>, more: seq<Event>)
    requires IsRun(c, run, events) && CanDo(c, run[|events|], e)
    ensures IsRun(c, longer, more) && more == events + [e] && longer == run + [Do(c, run[|events|], e)]
  {
    longer, more := run + [Do(c, run[|events|], e)], events + [e];
    forall i | 0 <= i < |more|
      ensures StepAt(c, longer, more, i)
    {
      assert i < |events| ==> StepAt(c, run, events, i);
    }
  }

  /** A finalization that returns normally has committed exactly the bytes of all writes. With
      no byte written an upload is opened but neither completed nor replaced by a PUT. */
  lemma FinishedRunCommits(c: Config, run: seq<State>, events: seq<Event>, k: nat)
    requires IsRun(c, run, events) && k < |run| && run[k].pc.Finished?
    ensures
      var s := run[k];
      && (s.written != [] <==> s.blob == Some(s.written))
      && (s.written == [] <==> s.blob == None && s.initialized && s.completes == 0 && !s.singlePut)
  {
    RunInv(c, run, events, k);
  }

  /** Whatever happens, nothing but the written bytes is ever committed, by at most one of the
      two ways; every buffer is sent at most once; the internal errors are never raised. */
  lemma EveryRunIsSafe(c: Config, run: seq<State>, events: seq<Event>, k: nat)
    requires IsRun(c, run, events) && k < |run|
    ensures
      var s := run[k];
      && (s.blob.Some? ==> s.blob.value == s.written)
      && !(s.singlePut && s.completes > 0)
      && (forall b: nat :: s.puts[b] <= 1)
      && s.crash != CounterUnderflow && s.crash != OutOfBounds
  {
    RunInv(c, run, events, k);
  }

  // ----- The layout of the parts -----

  lemma {:induction false} JoinedPrefix(heap: seq<Buffer>, k: nat)
    requires k <= |heap|
    ensures |Joined(heap[..k])| <= |Joined(heap)| && Joined(heap)[..|Joined(heap[..k])|] == Joined(heap[..k])
    decreases |heap|
  {
    if k == |heap| {
      assert heap[..k] == heap;
    } else {
      var front := heap[..|heap| - 1];
      JoinedPrefix(front, k);
      assert front[..k] == heap[..k];
    }
  }

  // What comes before part i is full parts only.
  lemma PartStart(c: Config, heap: seq<Buffer>, i: nat)
    requires c.partSize > 0 && i < |heap| && forall j | 0 <= j < |heap| :: BufferOk(c, heap, j)
    ensures |Joined(heap[..i])| == i * c.partSize
  {
    var before := heap[..i];
    forall j | 0 <= j < |before| ensures |Content(before[j])| == c.partSize {
      assert BufferOk(c, heap, j);
    }
    FullLength(before, c.partSize);
  }

  /** Part i covers the bytes from i * partSize on, up to a full part or the end. */
  lemma PartCovers(c: Config, heap: seq<Buffer>, written: Bytes, i: nat)
    requires c.partSize > 0 && Holds(c, heap, written) && i < |heap|
    ensures i * c.partSize < |written|
    ensures Content(heap[i]) == written[i * c.partSize..Min(i * c.partSize + c.partSize, |written|)]
  {
    PartStart(c, heap, i);
    var from := |Joined(heap[..i])|;
    var to := from + |Content(heap[i])|;
    assert heap[..i + 1] == heap[..i] + [heap[i]];
    JoinedAppend(heap[..i], heap[i]);
    JoinedPrefix(heap, i + 1);
    assert written[..to][from..] == Content(heap[i]);
    assert BufferOk(c, heap, i);
    if i == |heap| - 1 {
      assert heap[..i + 1] == heap;
    }
  }

  /** Part i of the list is stored under its number and tag and covers its share of the bytes. */
  ghost predicate Listed(c: Config, s: State, i: nat)
    requires s.pc.Completing? && i < |s.pc.tags|
  {
    && i * c.partSize < |s.written| && i + 1 in s.parts && s.pc.tags[i] == ETag(s.parts[i + 1])
    && s.parts[i + 1] == s.written[i * c.partSize..Min(i * c.partSize + c.partSize, |s.written|)]
  }

  lemma PartListed(c: Config, s: State, i: nat)
    requires c.partSize > 0 && Holds(c, s.heap, s.written) && s.pc.Completing? && Acceptable(s.parts, s.pc.tags)
    requires i < |s.heap| == |s.pc.tags| && Stored(s.parts, s.heap, i)
    ensures Listed(c, s, i)
  {
    assert Tags(s.parts, i, s.pc.tags[i]);
    PartCovers(c, s.heap, s.written, i);
  }

  lemma PartsFit(c: Config, heap: seq<Buffer>, written: Bytes)
    requires c.partSize > 0 && Holds(c, heap, written) && heap != []
    ensures (|heap| - 1) * c.partSize < |written| <= (|heap| - 1) * c.partSize + c.partSize
  {
    JoinedLength(c, heap, written);
    assert BufferOk(c, heap, |heap| - 1);
  }

  /** When the completion is sent, its list names the parts 1..n without a gap, the endpoint
      has each under its tag, and every part but the last is full. */
  lemma CompletionListsEveryPart(c: Config, run: seq<State>, events: seq<Event>, k: nat)
    requires IsRun(c, run, events) && k < |run| && run[k].pc.Completing?
    ensures
      var s := run[k];
      var n := |s.pc.tags|;
      && n > 0 && Acceptable(s.parts, s.pc.tags)
      && (n - 1) * c.partSize < |s.written| <= (n - 1) * c.partSize + c.partSize
      && forall i: nat | i < n :: Listed(c, s, i)
  {
    RunInv(c, run, events, k);
    var s := run[k];
    CompletionAcceptable(c, s);
    AllPartsStored(s.heap, s.ups, s.etags, s.parts, s.errors);
    PartsFit(c, s.heap, s.written);
    forall i: nat | i < |s.pc.tags| ensures Listed(c, s, i) {
      PartListed(c, s, i);
    }
  }

  /** Before the completion is built, the tag map holds exactly the parts that are counted. */
  lemma NoUnknownPart(c: Config, run: seq<State>, events: seq<Event>, k: nat)
    requires IsRun(c, run, events) && k < |run| && run[k].pc.Drained? && !run[k].errors
    ensures
      var s := run[k];
      s.partsUploaded == |s.heap| && forall i: nat :: i in s.etags <==> i < s.partsUploaded
  {
    RunInv(c, run, events, k);
    var s := run[k];
    if s.heap == [] {
      assert CountedSet(s.ups) == {};
      assert s.etags.Keys <= s.ups.Keys;
    } else {
      DrainedIsStored(c, s);
    }
  }

  // ----- Failures -----

  /** How many steps a thread has left. */
  function StepsLeft(u: UploadPc): nat {
    match u
    case Putting => 6
    case Tagged(_) => 5
    case Inserted => 4
    case Failed => 4
    case Leaving(_) => 3
    case Decremented(_) => 2
    case SlotNotified(_) => 1
    case Gone(_) => 0
  }

  // What a step does to the upload threads.
  function Moved(s: State, e: Event): UploadPc
    requires ByThread(e) && e.i in s.ups && (e.Put? ==> e.i < |s.heap| && s.heap[e.i].idx <= |s.heap[e.i].mem|)
    requires e.Decrement? ==> s.ups[e.i].Leaving?
    requires e.NotifySlot? ==> s.ups[e.i].Decremented?
    requires e.NotifyDrain? ==> s.ups[e.i].SlotNotified?
  {
    match e
    case Put(i, PutOk) => Tagged(ETag(s.heap[i].Filled()))
    case Put(_, _) => Failed
    case Insert(_) => Inserted
    case Count(_) => Leaving(true)
    case Push(_) => Leaving(false)
    case Decrement(i) => Decremented(s.ups[i].ok)
    case NotifySlot(i) => SlotNotified(s.ups[i].ok)
    case NotifyDrain(i) => Gone(s.ups[i].ok)
  }

  lemma ThreadMoves(c: Config, s: State, e: Event)
    requires CanDo(c, s, e) && ByThread(e)
    ensures e.i in s.ups && Do(c, s, e).ups == s.ups[e.i := Moved(s, e)]
  {
    if e.Put? {
      PutMoves(s, e.i, e.result);
    }
  }

  lemma PutMoves(s: State, i: nat, r: PutResult)
    requires i in s.ups && i < |s.heap| && s.heap[i].idx <= |s.heap[i].mem|
    ensures PutStep(s, i, r).ups == s.ups[i := Moved(s, Put(i, r))]
  {
  }

  lemma MovedOn(c: Config, s: State, e: Event)
    requires CanDo(c, s, e) && ByThread(e)
    ensures StepsLeft(Moved(s, e)) < StepsLeft(s.ups[e.i])
    ensures IsFailed(s.ups[e.i]) ==> IsFailed(Moved(s, e))
  {
  }

  lemma WriterLeavesThreads(c: Config, s: State, e: Event)
    requires CanDo(c, s, e) && !ByThread(e) && !e.Spawn?
    ensures Do(c, s, e).ups == s.ups
  {
  }

  lemma FailurePersists(c: Config, s: State, e: Event, i: nat)
    requires TableOk(|s.heap|, s.table, s.pc, s.ups) && CanDo(c, s, e) && i in s.ups && IsFailed(s.ups[i])
    ensures i in Do(c, s, e).ups && IsFailed(Do(c, s, e).ups[i])
  {
    if ByThread(e) {
      ThreadMoves(c, s, e);
      MovedOn(c, s, e);
    } else if e.Spawn? {
      assert s.pc.b !in s.ups;
    } else {
      WriterLeavesThreads(c, s, e);
    }
  }

  ghost predicate FailedAt(s: State, i: nat) {
    i in s.ups && IsFailed(s.ups[i])
  }

  lemma FailureStep(c: Config, run: seq<State>, events: seq<Event>, k: nat, i: nat)
    requires IsRun(c, run, events) && k < |events| && FailedAt(run[k], i)
    ensures FailedAt(run[k + 1], i)
  {
    RunInv(c, run, events, k);
    assert StepAt(c, run, events, k);
    FailurePersists(c, run[k], events[k], i);
  }

  lemma {:induction false} FailureStays(c: Config, run: seq<State>, events: seq<Event>, k: nat, later: nat, i: nat)
    requires IsRun(c, run, events) && k <= later < |run| && FailedAt(run[k], i)
    ensures FailedAt(run[later], i)
    decreases later
  {
    if k < later {
      FailureStays(c, run, events, k, later - 1, i);
      FailureStep(c, run, events, later - 1, i);
    }
  }

  lemma FailedCommitsNothing(c: Config, s: State, i: nat)
    requires Inv(c, s) && FailedAt(s, i)
    ensures s.completes == 0 && s.blob == None && !s.pc.Completing?
  {
    assert i < |s.heap|;
  }

  /** Once a part upload has failed, no later event sends a completion or commits anything. */
  lemma FailureForbidsCompletion(c: Config, run: seq<State>, events: seq<Event>, k: nat, later: nat, i: nat)
    requires IsRun(c, run, events) && k <= later < |run|
    requires i in run[k].ups && IsFailed(run[k].ups[i])
    ensures run[later].completes == 0 && run[later].blob == None && !run[later].pc.Completing?
  {
    RunInv(c, run, events, later);
    FailureStays(c, run, events, k, later, i);
    FailedCommitsNothing(c, run[later], i);
  }

  // ----- Counters and wake-ups -----

  /** The counter of uploads in progress is the number of reserved or live uploads and stays
      within the thread limit. */
  lemma InProgressCounts(c: Config, run: seq<State>, events: seq<Event>, k: nat)
    requires IsRun(c, run, events) && k < |run|
    ensures
      var s := run[k];
      s.inProgress == |LiveSet(s.ups)| + (if s.pc.Opening? || s.pc.Spawning? then 1 else 0) <= c.maxThreads
  {
    RunInv(c, run, events, k);
  }
}
