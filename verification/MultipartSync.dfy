/** Finalization before the end: a sync returns to its caller and the handle goes on being used. */
module MultipartSync {
  import opened MultipartUpload
  import opened MultipartInvariant
  import opened MultipartTheorems
  import opened MultipartWrites
  import opened Prelude

  /** A finalization that returns has finalized the upload if and only if a write had bytes.
      If nothing was, the handle takes writes as before: Resume is a step of ordinary runs. */
  lemma FinalizedIffWritten(c: Config, run: seq<State>, events: seq<Event>, k: nat)
    requires IsRun(c, run, events) && k < |run| && run[k].pc.Finished?
    ensures run[k].finalized <==> run[k].written != []
    ensures run[k].finalized <==> Input(events, k) != []
  {
    RunInv(c, run, events, k);
    WrittenIsInput(c, run, events, k);
  }

  // ----- After a sync that completed the upload -----

  /** A step of the upload or, without an event, the return of a finalization that was called
      for a sync. */
  predicate GoesOn(c: Config, s: State, e: Option<Event>, t: State) {
    match e
    case Some(event) => CanDo(c, s, event) && t == Do(c, s, event)
    case None => s.pc.Finished? && t == s.(pc := Idle)
  }

  predicate StepFrom(c: Config, run: seq<State>, events: seq<Option<Event>>, i: nat)
    requires |run| == |events| + 1 && i < |events|
  {
    GoesOn(c, run[i], events[i], run[i + 1])
  }

  ghost predicate IsContinuation(c: Config, start: State, run: seq<State>, events: seq<Option<Event>>) {
    && |run| == |events| + 1 && run[0] == start
    && forall i | 0 <= i < |events| :: StepFrom(c, run, events, i)
  }

  predicate Writing(k: Caller) {
    k.InWrite?
  }

  /** The upload is finalized and the writer is not on its way to commit anything. */
  predicate Synced(s: State) {
    && s.finalized
    && match s.pc
       case Idle => true
       case Filling(_) => true
       case Flushing(_, k) => Writing(k)
       case Claimed(_, k) => Writing(k)
       case Reserving(_, k) => Writing(k)
       case AwaitSlot(_, k) => Writing(k)
       case Opening(_, k) => Writing(k)
       case Spawning(_, k) => Writing(k)
       case Finished => true
       case Thrown => true
       case _ => false
  }

  lemma FillSynced(c: Config, s: State, memory: Bytes)
    requires Synced(s) && CanDo(c, s, FillBuffer(memory))
    ensures var t := Fill(c, s, s.pc.pending, memory);
      Synced(t) && t.blob == s.blob && t.completes == s.completes && s.written <= t.written
  {
  }

  lemma OpenSynced(s: State, ok: bool)
    requires Synced(s) && s.pc.Opening?
    ensures var t := OpenStep(s, ok);
      Synced(t) && t.blob == s.blob && t.completes == s.completes && s.written == t.written
  {
  }

  lemma ClaimSynced(s: State)
    requires Synced(s) && s.pc.Flushing? && s.pc.b < |s.heap|
    ensures Synced(ClaimStep(s))
  {
  }

  lemma CheckSynced(s: State)
    requires Synced(s) && s.pc.Claimed? && s.pc.b < |s.heap|
    ensures Synced(CheckStep(s))
  {
  }

  lemma ReserveSynced(c: Config, s: State)
    requires Synced(s) && s.pc.Reserving?
    ensures Synced(ReserveStep(c, s))
  {
  }

  lemma SpawnSynced(s: State)
    requires Synced(s) && s.pc.Spawning?
    ensures var t := SpawnStep(s);
      Synced(t) && t.blob == s.blob && t.completes == s.completes && s.written == t.written
  {
  }

  predicate Flushes(e: Event) {
    e.Claim? || e.Check? || e.Reserve? || e.Open? || e.Spawn?
  }

  lemma FlushSynced(c: Config, s: State, e: Event)
    requires Synced(s) && CanDo(c, s, e) && Flushes(e)
    ensures var t := Do(c, s, e);
      Synced(t) && t.blob == s.blob && t.completes == s.completes && s.written == t.written
  {
    match e
    case Claim => ClaimSynced(s);
    case Check => CheckSynced(s);
    case Reserve => ReserveSynced(c, s);
    case Open(ok) => OpenSynced(s, ok);
    case Spawn => SpawnSynced(s);
    case _ =>
  }

  lemma WriterSynced(c: Config, s: State, e: Event)
    requires Synced(s) && CanDo(c, s, e) && !e.FillBuffer? && !Flushes(e) && !ByThread(e)
    ensures var t := Do(c, s, e);
      Synced(t) && t.blob == s.blob && t.completes == s.completes && s.written == t.written
  {
  }

  lemma PutSynced(s: State, i: nat, result: PutResult)
    requires i in s.ups && i < |s.heap| && s.heap[i].idx <= |s.heap[i].mem|
    ensures var t := PutStep(s, i, result);
      && t.pc == s.pc && t.finalized == s.finalized
      && t.blob == s.blob && t.completes == s.completes && s.written == t.written
  {
  }

  lemma ThreadSynced(c: Config, s: State, e: Event)
    requires Synced(s) && CanDo(c, s, e) && ByThread(e)
    ensures var t := Do(c, s, e);
      Synced(t) && t.blob == s.blob && t.completes == s.completes && s.written == t.written
  {
    if e.Put? {
      PutSynced(s, e.i, e.result);
    }
  }

  lemma StepSynced(c: Config, s: State, e: Option<Event>, t: State)
    requires Synced(s) && GoesOn(c, s, e, t)
    ensures Synced(t) && t.blob == s.blob && t.completes == s.completes && s.written <= t.written
  {
    if e.Some? {
      if e.value.FillBuffer? {
        FillSynced(c, s, e.value.memory);
      } else if ByThread(e.value) {
        ThreadSynced(c, s, e.value);
      } else if Flushes(e.value) {
        FlushSynced(c, s, e.value);
      } else {
        WriterSynced(c, s, e.value);
      }
    }
  }

  lemma {:induction false} SyncedStays(c: Config, start: State, run: seq<State>, events: seq<Option<Event>>, k: nat)
    requires Synced(start) && IsContinuation(c, start, run, events) && k < |run|
    ensures var s := run[k];
      Synced(s) && s.blob == start.blob && s.completes == start.completes && start.written <= s.written
  {
    if k > 0 {
      SyncedStays(c, start, run, events, k - 1);
      assert StepFrom(c, run, events, k - 1);
      StepSynced(c, run[k - 1], events[k - 1], run[k]);
    }
  }

  /** The bytes of all writes among the first `j` steps after the sync. */
  function More(steps: seq<Option<Event>>, j: nat): Bytes
    requires j <= |steps|
  {
    if j == 0 then [] else More(steps, j - 1) + WrittenBy(steps[j - 1])
  }

  function WrittenBy(e: Option<Event>): Bytes {
    if e.Some? && e.value.CallWrite? then e.value.bytes else []
  }

  lemma RoundTakes(c: Config, s: State, pending: Bytes, memory: Bytes) returns (n: nat)
    requires c.partSize > 0 && pending != [] && |memory| == c.partSize && s.pc == Filling(pending)
    ensures n <= |pending|
    ensures var r := FillRound(c, s, pending, memory);
      r.written == s.written + pending[..n] && Unwritten(r.pc) == pending[n..] && !r.pc.Thrown?
  {
    var r := FillRound(c, s, pending, memory);
    n := |r.written| - |s.written|;
  }

  lemma FillAccounts(c: Config, s: State, memory: Bytes)
    requires CanDo(c, s, FillBuffer(memory))
    ensures Accounts(s, Fill(c, s, s.pc.pending, memory), [])
  {
    var pending := s.pc.pending;
    var n := RoundTakes(c, s, pending, memory);
    hide FillRound, CanDo;
    assert pending == pending[..n] + pending[n..];
    assert s.written + pending + [] == s.written + pending[..n] + pending[n..];
  }

  lemma GoesOnAccounts(c: Config, s: State, e: Option<Event>, t: State)
    requires Synced(s) && GoesOn(c, s, e, t)
    ensures Accounts(s, t, WrittenBy(e))
  {
    hide Proper, Do, Synced, Accounts;
    if e.None? {
      ResumeAccounts(s, t);
    } else if e.value.FillBuffer? {
      FillAccounts(c, s, e.value.memory);
      FillIs(c, s, e.value.memory);
    } else if e.value.CallWrite? {
      CallProper(c, s, e.value.bytes, e.value.location);
    } else if e.value.Decrement? {
      LeaveAccounts(c, s, e.value.i);
    } else {
      NoRethrow(c, s);
      OtherStep(c, s, e.value);
      ProperAccounts(c, s, t, Harmless(s, e.value));
    }
  }

  lemma ResumeAccounts(s: State, t: State)
    requires s.pc.Finished? && t == s.(pc := Idle)
    ensures Accounts(s, t, [])
  {
  }

  lemma FillIs(c: Config, s: State, memory: Bytes)
    requires CanDo(c, s, FillBuffer(memory))
    ensures Do(c, s, FillBuffer(memory)) == Fill(c, s, s.pc.pending, memory)
  {
  }

  lemma LeaveAccounts(c: Config, s: State, i: nat)
    requires CanDo(c, s, Decrement(i))
    ensures Accounts(s, Do(c, s, Decrement(i)), [])
  {
  }

  lemma NoRethrow(c: Config, s: State)
    requires Synced(s)
    ensures !s.pc.Drained? && (CanDo(c, s, Rethrow) ==> false)
  {
  }

  lemma ProperAccounts(c: Config, s: State, t: State, ok: bool)
    requires Proper(c, s, t, ok)
    ensures Accounts(s, t, [])
  {
    hide Clean, Orderly;
  }

  /** The writes after the sync are accepted in turn, as those before it. */
  lemma {:induction false} MoreIsWritten(c: Config, start: State, run: seq<State>, events: seq<Option<Event>>, k: nat)
    requires Synced(start) && start.pc.Finished? && IsContinuation(c, start, run, events) && k < |run|
    ensures run[k].written <= start.written + More(events, k)
    ensures !run[k].pc.Thrown? ==> run[k].written + Unwritten(run[k].pc) == start.written + More(events, k)
  {
    hide Synced, GoesOn, Accounts, Unwritten;
    AtRest(start);
    if k > 0 {
      var s, t, e := run[k - 1], run[k], events[k - 1];
      MoreIsWritten(c, start, run, events, k - 1);
      SyncedStays(c, start, run, events, k - 1);
      assert StepFrom(c, run, events, k - 1);
      GoesOnAccounts(c, s, e, t);
      Carries(s, t, WrittenBy(e), start.written + More(events, k - 1));
      assert start.written + More(events, k) == (start.written + More(events, k - 1)) + WrittenBy(e);
    }
  }

  /** After a sync that completed the upload, writes are still accepted, but whatever follows the
      committed object stays what it was: every later finalization returns at once and sends
      nothing. The object is what the calls passed to the writes if and only if none after the sync had
      bytes. */
  lemma WritesAfterSyncAreLost(c: Config, run: seq<State>, events: seq<Event>, k: nat, later: seq<State>,
      steps: seq<Option<Event>>, j: nat)
    requires IsRun(c, run, events) && k < |run| && run[k].pc.Finished? && run[k].written != []
    requires IsContinuation(c, run[k], later, steps) && j < |later|
    ensures var s, before, after := later[j], Input(events, k), More(steps, j);
      && s.blob == Some(before) && s.completes == run[k].completes
      && before <= s.written <= before + after
      && (s.pc.Idle? || s.pc.Finished? ==> s.written == before + after)
      && (s.blob == Some(before + after) <==> after == [])
      && !s.pc.Collecting? && !s.pc.SinglePutting? && !s.pc.Completing?
  {
    FinalizedIffWritten(c, run, events, k);
    InputIsCommitted(c, run, events, k);
    WrittenIsInput(c, run, events, k);
    SyncedStays(c, run[k], later, steps, j);
    MoreIsWritten(c, run[k], later, steps, j);
    var before, after := Input(events, k), More(steps, j);
    assert before + after == before ==> |after| == 0;
  }

  // ----- Witnesses -----

  /** A handle closed without a write: the finalization returns normally, an upload has been
      opened, and no object is committed. */
  lemma EmptyFileIsNotWritten(c: Config) returns (run: seq<State>, events: seq<Event>)
    requires c.partSize > 0
    ensures IsRun(c, run, events) && var s := run[|events|];
      s.pc.Finished? && s.initialized && s.blob == None && s.completes == 0 && !s.singlePut
  {
    run, events := [Init()], [];
    run, events := Extend(c, run, events, CallFinalize);
    run, events := Extend(c, run, events, Collect([]));
    run, events := Extend(c, run, events, Decide);
    run, events := Extend(c, run, events, OpenAll(true));
    run, events := Extend(c, run, events, FlushNext);
    run, events := Extend(c, run, events, CheckDrain);
    run, events := Extend(c, run, events, Rethrow);
  }

  /** A byte written, a sync, another byte written and a close that returns normally: the object
      has the first byte only. */
  lemma SecondByteIsLost() returns (c: Config, run: seq<State>, events: seq<Event>, later: seq<State>,
      steps: seq<Option<Event>>)
    ensures IsRun(c, run, events) && run[|events|].pc.Finished?
    ensures IsContinuation(c, run[|events|], later, steps) && var s := later[|steps|];
      s.pc.Finished? && s.written == [1, 2] && s.blob == Some([1])
  {
    c := Config(3, 1, false);
    run, events := OneByteSynced(c);
    var synced := run[|events|];
    var s1 := synced.(pc := Idle);
    var s2 := Do(c, s1, CallWrite([2], 1));
    var s3 := SecondFill(c, s2);
    var s4 := Do(c, s3, ReturnWrite);
    var s5 := Do(c, s4, CallFinalize);
    later := [synced, s1, s2, s3, s4, s5];
    steps := [None, Some(CallWrite([2], 1)), Some(FillBuffer([0, 0, 0])), Some(ReturnWrite), Some(CallFinalize)];
    forall i | 0 <= i < |steps|
      ensures StepFrom(c, later, steps, i)
    {
    }
  }

  lemma OneByteWritten(c: Config) returns (run: seq<State>, events: seq<Event>)
    requires c == Config(3, 1, false)
    ensures IsRun(c, run, events)
    ensures run[|events|] ==
      Init().(heap := [Buffer(0, 0, 1, [1, 0, 0], false)], table := map[0 := 0], written := [1])
  {
    run, events := [Init()], [];
    run, events := Extend(c, run, events, CallWrite([1], 0));
    FirstFill(c, run[|events|]);
    run, events := Extend(c, run, events, FillBuffer([0, 0, 0]));
    run, events := Extend(c, run, events, ReturnWrite);
  }

  lemma OneByteSynced(c: Config) returns (run: seq<State>, events: seq<Event>)
    requires c == Config(3, 1, false)
    ensures IsRun(c, run, events) && var s := run[|events|];
      && s.pc.Finished? && s.finalized && s.crash.Alive? && s.written == [1] && s.blob == Some([1])
      && s.table == map[0 := 0] && s.heap == [Buffer(0, 0, 1, [1, 0, 0], false)]
  {
    run, events := OneByteWritten(c);
    var mem: Bytes := [1, 0, 0];
    assert mem[..1] == [1];
    run, events := Extend(c, run, events, CallFinalize);
    run, events := Extend(c, run, events, Collect([0]));
    run, events := Extend(c, run, events, Decide);
    run, events := Extend(c, run, events, SinglePut(PutOk));
  }

  lemma FirstFill(c: Config, s: State)
    requires c == Config(3, 1, false) && s == Init().(pc := Filling([1]))
    ensures Do(c, s, FillBuffer([0, 0, 0])) ==
      s.(heap := [Buffer(0, 0, 1, [1, 0, 0], false)], table := map[0 := 0], written := [1], pc := Filling([]))
  {
    var pending, memory: Bytes := [1], [0, 0, 0];
    assert memory[..0] + pending[..1] + memory[1..] == [1, 0, 0] && pending[1..] == [] && pending[..1] == [1];
    var b := Buffer(0, 0, 0, memory, false);
    assert ([] + [b])[0 := b.(mem := [1, 0, 0], idx := 1)] == [Buffer(0, 0, 1, [1, 0, 0], false)];
  }

  lemma SecondFill(c: Config, s: State) returns (t: State)
    requires c == Config(3, 1, false) && s.pc == Filling([2]) && s.crash.Alive? && s.written == [1]
    requires s.table == map[0 := 0] && s.heap == [Buffer(0, 0, 1, [1, 0, 0], false)]
    ensures t == Do(c, s, FillBuffer([0, 0, 0])) && t.pc == Filling([]) && t.written == [1, 2] && t.blob == s.blob
    ensures t.finalized == s.finalized && t.crash.Alive?
  {
    var pending: Bytes := [2];
    assert pending[1..] == [] && pending[..1] == [2];
    t := Do(c, s, FillBuffer([0, 0, 0]));
  }
}
