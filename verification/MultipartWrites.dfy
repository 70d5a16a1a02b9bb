/** What the calls of a run handed to the multipart upload, and what becomes of it: the bytes of every
    write, where they end up in the object, and why a call can fail. */
module MultipartWrites {
  import opened MultipartUpload
  import opened MultipartInvariant
  import opened MultipartSafety
  import opened MultipartTheorems
  import opened Prelude

  /** The bytes of all writes among the first `k` events. */
  function Input(events: seq<Event>, k: nat): Bytes
    requires k <= |events|
  {
    if k == 0 then []
    else Input(events, k - 1) + match events[k - 1] case CallWrite(bytes, _) => bytes case _ => []
  }

  /** The bytes of a write in progress that are in no buffer yet. */
  function Unwritten(pc: WriterPc): Bytes {
    match pc
    case Filling(pending) => pending
    case Flushing(_, k) => Left(k)
    case Claimed(_, k) => Left(k)
    case Reserving(_, k) => Left(k)
    case AwaitSlot(_, k) => Left(k)
    case Opening(_, k) => Left(k)
    case Spawning(_, k) => Left(k)
    case _ => []
  }

  function Left(k: Caller): Bytes {
    match k
    case InWrite(rest) => rest
    case InFlushAll(_) => []
  }

  /** What the step accepts and what remains to be written is what there was, and the bytes of a
      call. */
  ghost predicate Accounts(s: State, t: State, bytes: Bytes) {
    && s.written <= t.written <= s.written + Unwritten(s.pc) + bytes
    && (s.pc.Thrown? ==> t.pc.Thrown? && t.written == s.written)
    && (!t.pc.Thrown? ==> t.written + Unwritten(t.pc) == s.written + Unwritten(s.pc) + bytes)
  }

  lemma FilledTakes(c: Config, s: State, memory: Bytes)
    requires s.pc.Filling? && s.pc.pending != [] && GrownOk(c, s.heap, s.table == map[], memory)
    ensures var t := Filled(c, s, memory);
      Accounts(s, t, []) && |s.written| < |t.written| && t.crash == s.crash
  {
    var heap, t, pending := Grown(c, s.heap, s.table == map[], memory), Filled(c, s, memory), s.pc.pending;
    var n := Min(|pending|, c.partSize - heap[|heap| - 1].idx);
    assert pending == pending[..n] + pending[n..];
    assert t.written == s.written + pending[..n] && Unwritten(t.pc) == pending[n..];
    assert s.written + pending + [] == t.written + pending[n..];
  }

  /** A step that takes no byte and gives none back. */
  predicate Stays(s: State, t: State) {
    t.written == s.written && SameRest(s.pc, t.pc)
  }

  predicate SameRest(before: WriterPc, after: WriterPc) {
    after.Thrown? || (!before.Thrown? && Unwritten(after) == Unwritten(before))
  }

  /** Nothing has gone wrong so far. */
  predicate Clean(s: State) {
    !s.pc.Thrown? && !s.errors && s.crash.Alive? && forall i | i in s.ups :: !IsFailed(s.ups[i])
  }

  predicate Harmless(s: State, e: Event) {
    match e
    case CallWrite(bytes, location) => bytes == [] || location == |s.written|
    case Open(ok) => ok || s.initialized
    case OpenAll(ok) => ok
    case SinglePut(result) => result.PutOk?
    case Put(_, result) => result.PutOk?
    case Complete(outcome) => !outcome.Refused?
    case _ => true
  }

  predicate OnePut(s: State) {
    s.singlePut || s.pc.SinglePutting?
  }

  /** An error is recorded, and the writer has no part in its hands. */
  predicate Failing(s: State) {
    s.errors && !Held(s.pc)
  }

  /** A finalization collects first, then decides, then may open an upload. */
  predicate InTurn(before: WriterPc, after: WriterPc) {
    && (after.Collecting? ==> before.Collecting? || before.Idle?)
    && (after.Deciding? ==> before.Deciding? || before.Collecting?)
    && (after.OpeningAll? ==> before.OpeningAll? || before.Deciding?)
  }

  /** What a step keeps: the account of the bytes; unless a request fails, that nothing has gone wrong;
      with a KMS key, that the object is not sent as one PUT; after an error, that no part is handed
      over; and that only the two steps for it open an upload. */
  predicate Proper(c: Config, s: State, t: State, ok: bool) {
    Stays(s, t) && (ok && Clean(s) ==> Clean(t)) && Orderly(c, s, t)
  }

  predicate Orderly(c: Config, s: State, t: State) {
    && (c.kms && !OnePut(s) ==> !OnePut(t)) && (Failing(s) ==> Failing(t))
    && (t.initialized == s.initialized || s.pc.Opening? || s.pc.OpeningAll?) && InTurn(s.pc, t.pc)
  }

  // All states of a flush have what its caller has left.
  lemma FlushRest(b: nat, k: Caller)
    ensures Unwritten(Flushing(b, k)) == Unwritten(Claimed(b, k)) == Unwritten(Reserving(b, k)) == Left(k)
    ensures Unwritten(AwaitSlot(b, k)) == Unwritten(Opening(b, k)) == Unwritten(Spawning(b, k)) == Left(k)
    ensures Unwritten(Return(k)) == Left(k) && !Return(k).Thrown? && !Return(k).SinglePutting? && !Held(Return(k))
    ensures !Held(Flushing(b, k)) && !Held(Claimed(b, k)) && !Held(Thrown)
    ensures !Return(k).Collecting? && !Return(k).Deciding? && !Return(k).OpeningAll?
    ensures Held(Reserving(b, k)) && Held(AwaitSlot(b, k)) && Held(Opening(b, k)) && Held(Spawning(b, k))
  {
  }

  lemma FinalizeRest(b: nat, list: seq<nat>)
    ensures Unwritten(Deciding(list)) == Unwritten(SinglePutting(b)) == Unwritten(OpeningAll(list)) == []
    ensures Unwritten(FlushAll(list)) == Unwritten(Flushing(b, InFlushAll(list))) == Unwritten(DrainCheck) == []
    ensures Unwritten(Drained) == Unwritten(Finished) == []
    ensures forall tags :: Unwritten(Completing(tags)) == [] && !Held(Completing(tags))
    ensures !Held(Deciding(list)) && !Held(SinglePutting(b)) && !Held(OpeningAll(list)) && !Held(FlushAll(list))
    ensures !Held(Flushing(b, InFlushAll(list))) && !Held(DrainCheck) && !Held(Finished) && !Held(Thrown)
  {
  }

  // A step that moves on, perhaps after a change to a buffer.
  lemma MovesProper(c: Config, s: State, heap: seq<Buffer>, pc: WriterPc)
    requires SameRest(s.pc, pc) && !pc.Thrown? && !pc.SinglePutting? && !Held(pc) && InTurn(s.pc, pc)
    ensures Proper(c, s, s.(heap := heap, pc := pc), true)
  {
    hide SameRest, Held, IsFailed;
  }

  // A step of a flush that may change the counter.
  lemma MovesOn(c: Config, s: State, inProgress: nat, pc: WriterPc)
    requires SameRest(s.pc, pc) && !pc.Thrown? && !pc.SinglePutting? && Held(s.pc) && InTurn(s.pc, pc)
    ensures Proper(c, s, s.(inProgress := inProgress, pc := pc), true)
  {
    hide SameRest, IsFailed;
  }

  lemma ClaimProper(c: Config, s: State)
    requires s.pc.Flushing? && s.pc.b < |s.heap|
    ensures Proper(c, s, ClaimStep(s), true)
  {
    var buffer := s.heap[s.pc.b];
    FlushRest(s.pc.b, s.pc.k);
    hide Proper, Unwritten, Left, Return, Held;
    if buffer.idx == 0 || buffer.uploading {
      MovesProper(c, s, s.heap, Return(s.pc.k));
    } else {
      MovesProper(c, s, s.heap[s.pc.b := buffer.(uploading := true)], Claimed(s.pc.b, s.pc.k));
    }
  }

  lemma CheckProper(c: Config, s: State)
    requires s.pc.Claimed? && s.pc.b < |s.heap|
    ensures Proper(c, s, CheckStep(s), true)
  {
    hide Unwritten, Left, Return, Held, IsFailed;
    FlushRest(s.pc.b, s.pc.k);
  }

  lemma ReserveProper(c: Config, s: State)
    requires s.pc.Reserving?
    ensures Proper(c, s, ReserveStep(c, s), true)
  {
    FlushRest(s.pc.b, s.pc.k);
    hide Unwritten, Left, Return, Held, IsFailed;
    if s.inProgress >= c.maxThreads {
      hide Proper, OnTheWay;
      MovesOn(c, s, s.inProgress, AwaitSlot(s.pc.b, s.pc.k));
    } else {
      hide Proper, OnTheWay;
      MovesOn(c, s, (s.inProgress + 1) % U16, Opening(s.pc.b, s.pc.k));
    }
  }

  lemma OpenProper(c: Config, s: State, ok: bool)
    requires s.pc.Opening?
    ensures Proper(c, s, OpenStep(s, ok), ok || s.initialized)
  {
    hide Unwritten, Left, Return, Held, IsFailed;
    FlushRest(s.pc.b, s.pc.k);
  }

  lemma SpawnProper(c: Config, s: State)
    requires s.pc.Spawning?
    ensures Proper(c, s, SpawnStep(s), true)
  {
    hide Unwritten, Left, Return, Held;
    FlushRest(s.pc.b, s.pc.k);
  }

  lemma DecideProper(c: Config, s: State)
    requires s.pc.Deciding?
    ensures Proper(c, s, DecideStep(c, s), true)
  {
    hide Unwritten, Held, IsFailed;
    FinalizeRest(if s.pc.list == [] then 0 else s.pc.list[0], s.pc.list);
  }

  lemma OpenAllProper(c: Config, s: State, ok: bool)
    requires s.pc.OpeningAll?
    ensures Proper(c, s, OpenAllStep(s, ok), ok)
  {
    hide Unwritten, Held, IsFailed;
    FinalizeRest(0, s.pc.list);
  }

  lemma SinglePutProper(c: Config, s: State, result: PutResult)
    requires s.pc.SinglePutting? && s.pc.b < |s.heap| && s.heap[s.pc.b].idx <= |s.heap[s.pc.b].mem|
    ensures Proper(c, s, SinglePutStep(s, result), result.PutOk?)
  {
    hide Unwritten, Held, IsFailed;
    FinalizeRest(s.pc.b, []);
  }

  lemma FlushNextProper(c: Config, s: State)
    requires s.pc.FlushAll? && (s.pc.list != [] ==> s.pc.list[0] < |s.heap|)
    ensures Proper(c, s, FlushNextStep(s), true)
  {
    FinalizeRest(0, s.pc.list);
    hide Proper, Unwritten, Held;
    if s.pc.list == [] {
      MovesProper(c, s, s.heap, DrainCheck);
    } else if s.heap[s.pc.list[0]].uploading {
      FinalizeRest(s.pc.list[0], s.pc.list[1..]);
      MovesProper(c, s, s.heap, FlushAll(s.pc.list[1..]));
    } else {
      FinalizeRest(s.pc.list[0], s.pc.list[1..]);
      MovesProper(c, s, s.heap, Flushing(s.pc.list[0], InFlushAll(s.pc.list[1..])));
    }
  }

  lemma RethrowProper(c: Config, s: State)
    requires s.pc.Drained? && (Clean(s) ==> !UnknownPart(s.etags, s.partsUploaded))
    ensures Proper(c, s, RethrowStep(s), true)
  {
    hide Unwritten, Held, IsFailed;
    FinalizeRest(0, []);
  }

  lemma CompleteProper(c: Config, s: State, r: CompleteResult)
    requires s.pc.Completing?
    ensures Proper(c, s, CompleteStep(s, r), !r.Refused?)
  {
    hide Unwritten, Held, IsFailed;
    FinalizeRest(0, []);
  }

  predicate Flushes(e: Event) {
    e.Claim? || e.Check? || e.Reserve? || e.Open? || e.Spawn?
  }

  lemma FlushProper(c: Config, s: State, e: Event)
    requires CanDo(c, s, e) && Flushes(e)
    ensures Proper(c, s, Do(c, s, e), Harmless(s, e))
  {
    hide Proper, ClaimStep, CheckStep, ReserveStep, OpenStep, SpawnStep;
    if e.Claim? {
      ClaimProper(c, s);
    } else if e.Check? {
      CheckProper(c, s);
    } else if e.Reserve? {
      ReserveProper(c, s);
    } else if e.Open? {
      OpenProper(c, s, e.ok);
    } else {
      SpawnProper(c, s);
    }
  }

  predicate Finalizes(e: Event) {
    e.Decide? || e.OpenAll? || e.SinglePut? || e.FlushNext? || e.Rethrow? || e.Complete?
  }

  lemma FinalizeProper(c: Config, s: State, e: Event)
    requires CanDo(c, s, e) && Finalizes(e) && (e.Rethrow? && Clean(s) ==> !UnknownPart(s.etags, s.partsUploaded))
    ensures Proper(c, s, Do(c, s, e), Harmless(s, e))
  {
    hide Proper, DecideStep, OpenAllStep, SinglePutStep, FlushNextStep, RethrowStep, CompleteStep, UnknownPart;
    if e.Decide? {
      DecideProper(c, s);
    } else if e.OpenAll? {
      OpenAllProper(c, s, e.ok);
    } else if e.SinglePut? {
      SinglePutProper(c, s, e.result);
    } else if e.FlushNext? {
      FlushNextProper(c, s);
    } else if e.Rethrow? {
      RethrowProper(c, s);
    } else {
      CompleteProper(c, s, e.outcome);
    }
  }

  predicate Turns(e: Event) {
    e.ReturnWrite? || e.CallFinalize? || e.Resume? || e.Collect? || e.CheckDrain? || e.Spurious?
  }

  lemma TurnProper(c: Config, s: State, e: Event)
    requires CanDo(c, s, e) && Turns(e)
    ensures Proper(c, s, Do(c, s, e), true)
  {
  }

  lemma WakeStays(pc: WriterPc)
    ensures SameRest(pc, pc) && SameRest(pc, WakeSlot(pc)) && SameRest(pc, WakeDrain(pc))
    ensures WakeSlot(pc).Thrown? <==> pc.Thrown?
    ensures WakeDrain(pc).Thrown? <==> pc.Thrown?
    ensures WakeSlot(pc).SinglePutting? <==> pc.SinglePutting?
    ensures WakeDrain(pc).SinglePutting? <==> pc.SinglePutting?
    ensures Held(WakeSlot(pc)) == Held(WakeDrain(pc)) == Held(pc)
    ensures InTurn(pc, pc) && InTurn(pc, WakeSlot(pc)) && InTurn(pc, WakeDrain(pc))
  {
  }

  lemma PutProper(c: Config, s: State, i: nat, result: PutResult)
    requires i in s.ups && i < |s.heap| && s.heap[i].idx <= |s.heap[i].mem|
    ensures Proper(c, s, PutStep(s, i, result), result.PutOk?) && PutStep(s, i, result).initialized == s.initialized
  {
  }

  predicate Signals(e: Event) {
    e.NotifySlot? || e.NotifyDrain?
  }

  lemma SignalProper(c: Config, s: State, e: Event)
    requires CanDo(c, s, e) && Signals(e)
    ensures Proper(c, s, Do(c, s, e), true) && Do(c, s, e).initialized == s.initialized
  {
    hide SameRest, WakeSlot, WakeDrain, PutStep, Held, InTurn;
    WakeStays(s.pc);
  }

  lemma BookProper(c: Config, s: State, e: Event)
    requires CanDo(c, s, e) && (e.Insert? || e.Count? || e.Push? || e.Decrement?) && (e.Decrement? ==> s.inProgress > 0)
    ensures Proper(c, s, Do(c, s, e), true) && Do(c, s, e).initialized == s.initialized
  {
    hide SameRest, PutStep, WakeSlot, WakeDrain, Held, InTurn;
    WakeStays(s.pc);
  }

  lemma ThreadProper(c: Config, s: State, e: Event)
    requires CanDo(c, s, e) && ByThread(e) && (e.Decrement? ==> s.inProgress > 0)
    ensures Proper(c, s, Do(c, s, e), Harmless(s, e)) && Do(c, s, e).initialized == s.initialized
  {
    hide Proper;
    if Signals(e) {
      hide Do;
      SignalProper(c, s, e);
    } else if e.Put? {
      PutProper(c, s, e.i, e.result);
    } else {
      hide Do;
      BookProper(c, s, e);
    }
  }

  lemma CallProper(c: Config, s: State, bytes: Bytes, location: nat)
    requires CanDo(c, s, CallWrite(bytes, location))
    ensures var t := Do(c, s, CallWrite(bytes, location));
      && Accounts(s, t, bytes) && t == s.(pc := t.pc) && !t.pc.SinglePutting? && !Held(t.pc)
      && (t.pc.Thrown? <==> bytes != [] && location != |s.written|)
  {
    assert s.written + [] + bytes == s.written + bytes;
  }

  lemma FillProper(c: Config, s: State, memory: Bytes)
    requires Inv(c, s) && CanDo(c, s, FillBuffer(memory))
    ensures var t := Do(c, s, FillBuffer(memory));
      && Accounts(s, t, []) && |s.written| < |t.written|
      && (Clean(s) ==> Clean(t)) && Orderly(c, s, t)
  {
    FillExplicit(c, s, memory);
    FilledTakes(c, s, memory);
    FilledIsProper(c, s, memory);
    hide Filled, Accounts, Clean, Orderly, Inv;
  }

  lemma FilledIsProper(c: Config, s: State, memory: Bytes)
    requires s.pc.Filling? && GrownOk(c, s.heap, s.table == map[], memory)
    ensures var t := Filled(c, s, memory);
      (Clean(s) ==> Clean(t)) && Orderly(c, s, t)
  {
    hide FilledBy, IsFailed;
  }

  lemma StaysAccounts(s: State, t: State)
    requires Stays(s, t)
    ensures Accounts(s, t, [])
  {
  }

  // In a drained upload in which nothing has gone wrong no part is missing.
  lemma PartsKnown(c: Config, s: State)
    requires Inv(c, s) && s.pc.Drained? && Clean(s)
    ensures !UnknownPart(s.etags, s.partsUploaded)
  {
    if s.heap == [] {
      assert CountedSet(s.ups) == {};
    } else {
      DrainedIsStored(c, s);
    }
  }

  /** What every step keeps. */
  ghost predicate StepIsProper(c: Config, s: State, e: Event)
    requires CanDo(c, s, e)
  {
    var t := Do(c, s, e);
    && Accounts(s, t, match e case CallWrite(bytes, _) => bytes case _ => [])
    && (Harmless(s, e) && Clean(s) ==> Clean(t)) && Orderly(c, s, t)
  }

  lemma OtherStep(c: Config, s: State, e: Event)
    requires CanDo(c, s, e) && !e.FillBuffer? && !e.CallWrite? && (e.Decrement? ==> s.inProgress > 0)
    requires e.Rethrow? && Clean(s) ==> !UnknownPart(s.etags, s.partsUploaded)
    ensures Proper(c, s, Do(c, s, e), Harmless(s, e))
  {
    hide Proper, Clean, Do, UnknownPart;
    if ByThread(e) {
      ThreadProper(c, s, e);
    } else if Turns(e) {
      TurnProper(c, s, e);
    } else if Finalizes(e) {
      FinalizeProper(c, s, e);
    } else {
      FlushProper(c, s, e);
    }
  }

  lemma ProperStep(c: Config, s: State, e: Event)
    requires Inv(c, s) && CanDo(c, s, e)
    ensures StepIsProper(c, s, e)
  {
    hide Accounts, Stays, Clean, Orderly, Do, UnknownPart;
    if e.FillBuffer? {
      FillProper(c, s, e.memory);
    } else if e.CallWrite? {
      CallIsProper(c, s, e.bytes, e.location);
    } else {
      Counted(c, s, e);
      if e.Rethrow? && Clean(s) {
        PartsKnown(c, s);
      }
      OtherStep(c, s, e);
      StaysAccounts(s, Do(c, s, e));
    }
  }

  lemma Counted(c: Config, s: State, e: Event)
    requires Inv(c, s) && CanDo(c, s, e)
    ensures e.Decrement? ==> s.inProgress > 0
  {
    if e.Decrement? {
      assert e.i in LiveSet(s.ups);
    }
  }

  lemma CallIsProper(c: Config, s: State, bytes: Bytes, location: nat)
    requires CanDo(c, s, CallWrite(bytes, location))
    ensures StepIsProper(c, s, CallWrite(bytes, location))
  {
    CallProper(c, s, bytes, location);
  }

  // ----- The bytes of a run -----

  /** In every state of every run the accepted bytes are a beginning of the input, and what is missing
      is with the write in progress; only a thrown exception drops the rest of a write. */
  lemma {:induction false} WrittenIsInput(c: Config, run: seq<State>, events: seq<Event>, k: nat)
    requires IsRun(c, run, events) && k < |run|
    ensures run[k].written <= Input(events, k)
    ensures !run[k].pc.Thrown? ==> run[k].written + Unwritten(run[k].pc) == Input(events, k)
    ensures run[k].pc.Idle? || run[k].pc.Finished? ==> run[k].written == Input(events, k)
  {
    hide Inv, Accounts, Do, CanDo, Clean, Orderly, Harmless, Unwritten;
    if k > 0 {
      var s, t, e := run[k - 1], run[k], events[k - 1];
      WrittenIsInput(c, run, events, k - 1);
      RunInv(c, run, events, k - 1);
      assert StepAt(c, run, events, k - 1);
      ProperStep(c, s, e);
      Carries(s, t, match e case CallWrite(bytes, _) => bytes case _ => [], Input(events, k - 1));
    }
    AtRest(run[k]);
  }

  lemma AtRest(s: State)
    ensures s.pc.Idle? || s.pc.Finished? ==> s.written + Unwritten(s.pc) == s.written
  {
  }

  // If `all` is what the calls have passed so far, it is so after a step that takes `bytes` more.
  lemma Carries(s: State, t: State, bytes: Bytes, all: Bytes)
    requires Accounts(s, t, bytes) && s.written <= all
    requires !s.pc.Thrown? ==> s.written + Unwritten(s.pc) == all
    ensures t.written <= all + bytes && (!t.pc.Thrown? ==> t.written + Unwritten(t.pc) == all + bytes)
  {
    hide Unwritten;
  }

  lemma {:induction false} InputGrows(events: seq<Event>, k: nat, later: nat)
    requires k <= later <= |events|
    ensures Input(events, k) <= Input(events, later)
    decreases later
  {
    if k < later {
      InputGrows(events, k, later - 1);
    }
  }

  lemma {:induction false} ThrownStays(c: Config, run: seq<State>, events: seq<Event>, k: nat, later: nat)
    requires IsRun(c, run, events) && k <= later < |run| && run[k].pc.Thrown?
    ensures run[later].pc.Thrown?
    decreases later
  {
    hide Inv, Do, CanDo;
    if k < later {
      ThrownStays(c, run, events, k, later - 1);
      RunInv(c, run, events, later - 1);
      assert StepAt(c, run, events, later - 1);
      ProperStep(c, run[later - 1], events[later - 1]);
    }
  }

  /** A write is refused if and only if it has bytes and does not continue where the writes before it
      have ended; until then nothing of it is written. */
  lemma WriteIsRefusedIff(c: Config, run: seq<State>, events: seq<Event>, i: nat, bytes: Bytes, location: nat)
    requires IsRun(c, run, events) && i < |events| && events[i] == CallWrite(bytes, location)
    ensures run[i + 1].pc.Thrown? <==> bytes != [] && location != |Input(events, i)|
    ensures run[i + 1].written == Input(events, i)
  {
    WrittenIsInput(c, run, events, i);
    assert StepAt(c, run, events, i);
    CallProper(c, run[i], bytes, location);
  }

  /** If this is a write, its bytes are in the object where it put them. */
  predicate Lies(blob: Option<Bytes>, e: Event) {
    e.CallWrite? && e.bytes != [] ==>
      && blob.Some? && e.location + |e.bytes| <= |blob.value|
      && blob.value[e.location..e.location + |e.bytes|] == e.bytes
  }

  /** A finalization that returns normally has committed exactly the bytes that the calls of the run
      passed to the writes, and each of them where its write said. */
  lemma InputIsCommitted(c: Config, run: seq<State>, events: seq<Event>, k: nat)
    requires IsRun(c, run, events) && k < |run| && run[k].pc.Finished?
    ensures var blob := run[k].blob;
      && blob == (if Input(events, k) == [] then None else Some(Input(events, k)))
      && forall i | 0 <= i < k :: Lies(blob, events[i])
  {
    WrittenIsInput(c, run, events, k);
    FinishedRunCommits(c, run, events, k);
    forall i | 0 <= i < k
      ensures Lies(run[k].blob, events[i])
    {
      if events[i].CallWrite? && events[i].bytes != [] {
        WriteStays(c, run, events, k, i, events[i].bytes, events[i].location);
      }
    }
  }

  /** Whatever happens, in whatever state, nothing but all the bytes passed to the writes is committed. */
  lemma {:induction false} OnlyInputIsCommitted(c: Config, run: seq<State>, events: seq<Event>, k: nat)
    requires IsRun(c, run, events) && k < |run| && run[k].blob.Some?
    ensures run[k].blob.value == Input(events, k)
  {
    hide Inv, Do, CanDo, Accounts, Clean, Orderly, Harmless, Unwritten;
    EveryRunIsSafe(c, run, events, k);
    if k > 0 {
      var s, t, e := run[k - 1], run[k], events[k - 1];
      RunInv(c, run, events, k - 1);
      WrittenIsInput(c, run, events, k - 1);
      WrittenIsInput(c, run, events, k);
      assert StepAt(c, run, events, k - 1);
      Commits(c, s, e);
      if s.blob.Some? {
        OnlyInputIsCommitted(c, run, events, k - 1);
        EveryRunIsSafe(c, run, events, k - 1);
      }
      ProperStep(c, s, e);
      NothingLost(s, t);
    }
  }

  lemma NothingLost(s: State, t: State)
    requires Accounts(s, t, [])
    ensures s.written <= t.written && (t.written <= s.written ==> t.written == s.written)
  {
  }

  // An object is committed when all bytes are in buffers, and no write follows.
  lemma Commits(c: Config, s: State, e: Event)
    requires Inv(c, s) && CanDo(c, s, e) && Do(c, s, e).blob.Some?
    ensures !e.CallWrite? && (s.blob.None? ==> !s.pc.Thrown? && s.written + Unwritten(s.pc) == s.written)
  {
    if !e.SinglePut? && !e.Complete? {
      SameBlob(c, s, e);
    }
  }

  lemma SameBlob(c: Config, s: State, e: Event)
    requires CanDo(c, s, e) && !e.SinglePut? && !e.Complete?
    ensures Do(c, s, e).blob == s.blob
  {
    if ByThread(e) {
      ThreadKeepsBlob(c, s, e);
    } else {
      hide PutStep, WakeSlot, WakeDrain;
    }
  }

  lemma ThreadKeepsBlob(c: Config, s: State, e: Event)
    requires CanDo(c, s, e) && ByThread(e)
    ensures Do(c, s, e).blob == s.blob
  {
    hide WakeSlot, WakeDrain;
  }

  lemma WriteStays(c: Config, run: seq<State>, events: seq<Event>, k: nat, i: nat, bytes: Bytes, location: nat)
    requires IsRun(c, run, events) && i < k < |run| && run[k].pc.Finished?
    requires events[i] == CallWrite(bytes, location) && bytes != []
    ensures location + |bytes| <= |Input(events, k)| && Input(events, k)[location..location + |bytes|] == bytes
  {
    WriteIsRefusedIff(c, run, events, i, bytes, location);
    if run[i + 1].pc.Thrown? {
      ThrownStays(c, run, events, i + 1, k);
      assert false;
    }
    InputGrows(events, i + 1, k);
    var all, before := Input(events, k), Input(events, i);
    assert all[..|before + bytes|] == before + bytes;
    assert all[location..location + |bytes|] == (before + bytes)[location..];
  }

  // ----- Why a call can fail -----

  predicate Opens(e: Event) {
    e == Open(true) || e == OpenAll(true)
  }

  /** One of the first `k` events has opened the multipart upload. */
  ghost predicate Opened(events: seq<Event>, k: nat)
    requires k <= |events|
  {
    exists i | 0 <= i < k :: Opens(events[i])
  }

  /** A write at the wrong place or the failure of a request; a flush sends no request to open an upload
      that is open already. */
  ghost predicate Cause(events: seq<Event>, j: nat)
    requires j < |events|
  {
    match events[j]
    case CallWrite(bytes, location) => bytes != [] && location != |Input(events, j)|
    case Open(ok) => !ok && !Opened(events, j)
    case OpenAll(ok) => !ok
    case SinglePut(result) => !result.PutOk?
    case Put(_, result) => !result.PutOk?
    case Complete(outcome) => outcome.Refused?
    case _ => false
  }

  /** As long as no write is misplaced and no request fails, nothing is thrown: no write, no sync and
      no close fails without a cause. */
  lemma {:induction false} ThrownHasCause(c: Config, run: seq<State>, events: seq<Event>, k: nat)
    requires IsRun(c, run, events) && k < |run| && forall j | 0 <= j < k :: !Cause(events, j)
    ensures Clean(run[k])
  {
    hide Inv, Do, Harmless, Cause, Opened;
    if k > 0 {
      ThrownHasCause(c, run, events, k - 1);
      RunInv(c, run, events, k - 1);
      WrittenIsInput(c, run, events, k - 1);
      OpenedStays(c, run, events, k - 1);
      assert StepAt(c, run, events, k - 1) && !Cause(events, k - 1);
      CauseIs(c, run[k - 1], events, k - 1);
      ProperStep(c, run[k - 1], events[k - 1]);
    }
  }

  lemma CauseIs(c: Config, s: State, events: seq<Event>, j: nat)
    requires j < |events| && CanDo(c, s, events[j]) && (s.pc.Idle? ==> s.written == Input(events, j))
    requires s.initialized <==> Opened(events, j)
    ensures Harmless(s, events[j]) <==> !Cause(events, j)
  {
  }

  /** The upload is open from the first of these events on. */
  lemma {:induction false} OpenedStays(c: Config, run: seq<State>, events: seq<Event>, k: nat)
    requires IsRun(c, run, events) && k < |run|
    ensures run[k].initialized <==> Opened(events, k)
  {
    hide Inv, Do, CanDo;
    if k > 0 {
      var s, e := run[k - 1], events[k - 1];
      OpenedStays(c, run, events, k - 1);
      RunInv(c, run, events, k - 1);
      assert StepAt(c, run, events, k - 1);
      assert Opened(events, k) <==> Opened(events, k - 1) || Opens(e);
      if e.Open? || e.OpenAll? {
        OpenOpens(c, s, e);
      } else {
        OnlyOpenOpens(c, s, e);
      }
    }
  }

  lemma OpenOpens(c: Config, s: State, e: Event)
    requires CanDo(c, s, e) && (e.Open? || e.OpenAll?)
    ensures Do(c, s, e).initialized == (s.initialized || Opens(e))
  {
    hide OnTheWay;
    var t := if e.Open? then OpenStep(s, e.ok) else OpenAllStep(s, e.ok);
    assert t.initialized == (s.initialized || Opens(e));
  }

  /** A step that does not open the upload leaves it closed. */
  lemma OnlyOpenOpens(c: Config, s: State, e: Event)
    requires Inv(c, s) && CanDo(c, s, e) && !e.Open? && !e.OpenAll?
    ensures Do(c, s, e).initialized == s.initialized
  {
    hide Do, Inv, Accounts, Clean, Harmless;
    ProperStep(c, s, e);
    if ByThread(e) {
      Counted(c, s, e);
      ThreadProper(c, s, e);
    }
  }

  // ----- The two ways to commit -----

  /** Whatever the run, a handle with a KMS key never sends a single PUT: what it commits, it commits by
      a completion. */
  lemma KmsNeedsCompletion(c: Config, run: seq<State>, events: seq<Event>, k: nat)
    requires IsRun(c, run, events) && c.kms && k < |run|
    ensures !run[k].singlePut && !run[k].pc.SinglePutting?
    ensures run[k].blob.Some? ==> run[k].completes > 0
  {
    RunInv(c, run, events, k);
    NeverOnePut(c, run, events, k);
  }

  lemma {:induction false} NeverOnePut(c: Config, run: seq<State>, events: seq<Event>, k: nat)
    requires IsRun(c, run, events) && c.kms && k < |run|
    ensures !OnePut(run[k])
  {
    hide Inv, Do, CanDo;
    if k > 0 {
      NeverOnePut(c, run, events, k - 1);
      RunInv(c, run, events, k - 1);
      assert StepAt(c, run, events, k - 1);
      ProperStep(c, run[k - 1], events[k - 1]);
    }
  }

  lemma OpenedFull(c: Config, s: State)
    requires Inv(c, s) && s.pc.Opening? && !s.initialized
    ensures |s.written| >= c.partSize
  {
    JoinedLength(c, s.heap, s.written);
  }

  lemma SmallStaysClosed(c: Config, s: State, e: Event)
    requires Inv(c, s) && CanDo(c, s, e) && !e.OpenAll?
    requires s.initialized ==> |s.written| >= c.partSize
    ensures Do(c, s, e).initialized ==> |Do(c, s, e).written| >= c.partSize
  {
    if Do(c, s, e).initialized {
      if e.Open? && !s.initialized {
        OpenedFull(c, s);
      } else if !e.Open? {
        OnlyOpenOpens(c, s, e);
      }
      ProperStep(c, s, e);
      hide Do, Inv, CanDo;
    }
  }

  lemma {:induction false} ClosedWhileSmall(c: Config, run: seq<State>, events: seq<Event>, k: nat)
    requires IsRun(c, run, events) && k < |run| && forall j | 0 <= j < k :: !events[j].OpenAll?
    ensures run[k].initialized ==> |run[k].written| >= c.partSize
  {
    hide Inv, Do, CanDo;
    if k > 0 {
      ClosedWhileSmall(c, run, events, k - 1);
      RunInv(c, run, events, k - 1);
      assert StepAt(c, run, events, k - 1);
      SmallStaysClosed(c, run[k - 1], events[k - 1]);
    }
  }

  lemma CompletedHasThreads(c: Config, s: State)
    requires Inv(c, s)
    ensures s.completes > 0 ==> s.ups != map[]
  {
    if s.completes > 0 {
      assert 0 in s.ups;
    }
  }

  /** A file without a KMS key that does not fill a part. */
  predicate Small(c: Config, s: State) {
    !c.kms && 0 < |s.written| < c.partSize
  }

  /** Its only buffer is in the table when the finalization collects, and no upload is opened for it. */
  predicate Late(c: Config, s: State) {
    Small(c, s) ==> !s.pc.OpeningAll? && (s.pc.Collecting? || s.pc.Deciding? ==> |s.table| > 0)
  }

  lemma SmallHasBuffer(c: Config, heap: seq<Buffer>, table: map<nat, nat>, written: Bytes)
    requires c.partSize > 0 && Holds(c, heap, written) && (table == map[] <==> LastFull(c, heap))
    requires 0 < |written| < c.partSize
    ensures table != map[]
  {
    NothingWritten(c, heap, written);
    JoinedLength(c, heap, written);
    hide Holds;
  }

  lemma FinalizeLate(c: Config, s: State)
    requires Inv(c, s) && CanDo(c, s, CallFinalize)
    ensures Late(c, Do(c, s, CallFinalize))
  {
    hide Holds, LastFull;
    if Small(c, s) {
      SmallHasBuffer(c, s.heap, s.table, s.written);
    }
  }

  lemma DecideLate(c: Config, s: State)
    requires Inv(c, s) && CanDo(c, s, Decide) && Late(c, s)
    ensures Late(c, Do(c, s, Decide))
  {
    assert s.table != map[] ==> |s.pc.list| == 1;
    hide Inv;
    assert Do(c, s, Decide) == DecideStep(c, s) && DecideStep(c, s) == s.(pc := DecideStep(c, s).pc);
  }

  // What a thread's step changes for the writer.
  ghost predicate LeavesWriter(s: State, t: State) {
    && (t.pc == s.pc || t.pc == WakeSlot(s.pc) || t.pc == WakeDrain(s.pc))
    && |t.heap| == |s.heap| && |t.table| == |s.table| && |t.written| == |s.written|
  }

  lemma ThreadLeaves(c: Config, s: State, e: Event)
    requires CanDo(c, s, e) && ByThread(e)
    ensures LeavesWriter(s, Do(c, s, e))
  {
    hide WakeSlot, WakeDrain, PutStep, Leave, LeavesWriter;
    if e.Put? {
      PutLeaves(s, e.i, e.result);
    } else if e.Decrement? {
      LeaveLeaves(s, s.ups[e.i := Decremented(s.ups[e.i].ok)]);
    } else {
      assert LeavesWriter(s, Do(c, s, e)) by {
        RestLeaves(c, s, e);
      }
    }
  }

  lemma RestLeaves(c: Config, s: State, e: Event)
    requires CanDo(c, s, e) && ByThread(e) && !e.Put? && !e.Decrement?
    ensures LeavesWriter(s, Do(c, s, e))
  {
    hide WakeSlot, WakeDrain;
  }

  lemma LeaveLeaves(s: State, ups: map<nat, UploadPc>)
    ensures LeavesWriter(s, Leave(s.(ups := ups)))
  {
  }

  lemma PutLeaves(s: State, i: nat, result: PutResult)
    requires i in s.ups && i < |s.heap| && s.heap[i].idx <= |s.heap[i].mem|
    ensures LeavesWriter(s, PutStep(s, i, result))
  {
  }

  lemma ThreadLate(c: Config, s: State, e: Event)
    requires CanDo(c, s, e) && ByThread(e) && Late(c, s)
    ensures Late(c, Do(c, s, e))
  {
    ThreadLeaves(c, s, e);
    hide Do;
  }

  lemma CollectLate(c: Config, s: State, order: seq<nat>)
    requires CanDo(c, s, Collect(order)) && Late(c, s)
    ensures Late(c, Do(c, s, Collect(order)))
  {
  }

  lemma StepLate(c: Config, s: State, e: Event)
    requires Inv(c, s) && CanDo(c, s, e) && Late(c, s)
    ensures Late(c, Do(c, s, e))
  {
    hide Do, Late;
    if e.CallFinalize? {
      FinalizeLate(c, s);
    } else if e.Decide? {
      DecideLate(c, s);
    } else if e.Collect? {
      CollectLate(c, s, e.order);
    } else if ByThread(e) {
      ThreadLate(c, s, e);
    } else {
      OtherLate(c, s, e);
    }
  }

  lemma OtherLate(c: Config, s: State, e: Event)
    requires Inv(c, s) && CanDo(c, s, e) && Late(c, s)
    requires !e.CallFinalize? && !e.Decide? && !e.Collect? && !ByThread(e)
    ensures Late(c, Do(c, s, e))
  {
    ProperStep(c, s, e);
    hide Inv, Do, Clean, Harmless;
    if e.OpenAll? {
      OpenAllLate(c, s, e.ok);
    }
  }

  lemma OpenAllLate(c: Config, s: State, ok: bool)
    requires CanDo(c, s, OpenAll(ok))
    ensures !Do(c, s, OpenAll(ok)).pc.OpeningAll? && !Do(c, s, OpenAll(ok)).pc.Collecting?
    ensures !Do(c, s, OpenAll(ok)).pc.Deciding?
  {
  }

  lemma {:induction false} LateHolds(c: Config, run: seq<State>, events: seq<Event>, k: nat)
    requires IsRun(c, run, events) && k < |run|
    ensures Late(c, run[k])
  {
    hide Inv, Do, CanDo, Late;
    LateInit(c);
    if k > 0 {
      LateHolds(c, run, events, k - 1);
      RunInv(c, run, events, k - 1);
      assert StepAt(c, run, events, k - 1);
      StepLate(c, run[k - 1], events[k - 1]);
    }
  }

  lemma OpensInVain(c: Config, run: seq<State>, events: seq<Event>, j: nat)
    requires IsRun(c, run, events) && j < |events| && events[j].OpenAll?
    ensures !Small(c, run[j]) && run[j].written == Input(events, j)
  {
    LateHolds(c, run, events, j);
    WrittenIsInput(c, run, events, j);
    assert StepAt(c, run, events, j);
  }

  /** A file smaller than a part is sent as one PUT, without a multipart upload, unless there is a KMS key
      or an earlier sync has opened an upload before anything was written. */
  lemma SmallFileIsOnePut(c: Config, run: seq<State>, events: seq<Event>, k: nat)
    requires IsRun(c, run, events) && !c.kms && k < |run| && run[k].pc.Finished?
    requires 0 < |Input(events, k)| < c.partSize
    requires forall j | 0 <= j < k && events[j].OpenAll? :: Input(events, j) != []
    ensures run[k].singlePut && run[k].completes == 0 && !run[k].initialized
  {
    forall j | 0 <= j < k
      ensures !events[j].OpenAll?
    {
      if events[j].OpenAll? {
        OpensInVain(c, run, events, j);
        InputGrows(events, j, k);
      }
    }
    ClosedWhileSmall(c, run, events, k);
    WrittenIsInput(c, run, events, k);
    RunInv(c, run, events, k);
    CompletedHasThreads(c, run[k]);
  }

  lemma LateInit(c: Config)
    ensures Late(c, Init())
  {
  }

  // ----- After an error -----

  lemma StepAfterError(c: Config, s: State, e: Event)
    requires Inv(c, s) && CanDo(c, s, e) && Failing(s)
    ensures Failing(Do(c, s, e)) && Do(c, s, e).ups.Keys == s.ups.Keys
  {
    hide Inv, Do, Accounts, Clean, Harmless;
    ProperStep(c, s, e);
    if ByThread(e) {
      ThreadMoves(c, s, e);
    } else {
      assert !e.Spawn?;
      WriterLeavesThreads(c, s, e);
    }
  }

  /** Once an error is recorded, the writer hands over no other part than the one it has in its hands. */
  lemma {:induction false} ErrorStopsUploads(c: Config, run: seq<State>, events: seq<Event>, k: nat, later: nat)
    requires IsRun(c, run, events) && k <= later < |run| && Failing(run[k])
    ensures run[later].errors && run[later].ups.Keys == run[k].ups.Keys
    ensures Failing(run[later])
    decreases later
  {
    hide Inv, Do, CanDo, Held;
    if k < later {
      ErrorStopsUploads(c, run, events, k, later - 1);
      RunInv(c, run, events, later - 1);
      assert StepAt(c, run, events, later - 1);
      StepAfterError(c, run[later - 1], events[later - 1]);
    }
  }
}
