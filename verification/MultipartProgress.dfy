/** Every call of the multipart upload returns: no state of a run is stuck, and the steps that are left
    are bounded. */
module MultipartProgress {
  import opened MultipartUpload
  import opened MultipartInvariant
  import opened MultipartSafety
  import opened MultipartSleep
  import opened MultipartTheorems
  import opened MultipartWrites
  import opened Prelude

  /** A call of the writer is in progress. */
  predicate Busy(pc: WriterPc) {
    !pc.Idle? && !pc.Finished? && !pc.Thrown?
  }

  /** Everything but the start of a call, a wake-up for nothing and a completion that is sent again. */
  predicate Works(e: Event) {
    match e
    case CallWrite(_, _) => false
    case CallFinalize => false
    case Resume => false
    case Spurious => false
    case Complete(outcome) => !outcome.EmbeddedError?
    case _ => true
  }

  function CallerWork(k: Caller): nat {
    match k
    case InWrite(_) => 0
    case InFlushAll(left) => 300 + 400 * |left|
  }

  /** How far the writer is from the end of its call, apart from the bytes it still has to write. */
  function PcWork(pc: WriterPc, buffers: nat): nat {
    match pc
    case Filling(_) => 100
    case Flushing(_, k) => CallerWork(k) + 206
    case Claimed(_, k) => CallerWork(k) + 205
    case Reserving(_, k) => CallerWork(k) + 204
    case AwaitSlot(_, k) => CallerWork(k) + 203
    case Opening(_, k) => CallerWork(k) + 202
    case Spawning(_, k) => CallerWork(k) + 201
    case Collecting => 600 + 400 * buffers
    case Deciding(list) => 550 + 400 * |list|
    case OpeningAll(list) => 500 + 400 * |list|
    case FlushAll(list) => 400 + 400 * |list|
    case DrainCheck => 50
    case AwaitDrain => 49
    case Drained => 10
    case SinglePutting(_) => 5
    case Completing(_) => 5
    case _ => 0
  }

  /** A bound on the steps until the call of the writer has returned and all threads are gone. */
  function Work(s: State): nat {
    1000 * |Unwritten(s.pc)| + PcWork(s.pc, |s.table|) + 10 * AllStepsLeft(s.ups, |s.heap|)
  }

  lemma {:induction false} OneMoreThread(ups: map<nat, UploadPc>, n: nat, b: nat)
    requires b !in ups && b < n
    ensures AllStepsLeft(ups[b := Putting], n) == AllStepsLeft(ups, n) + 6
  {
    if b < n - 1 {
      OneMoreThread(ups, n - 1, b);
    } else {
      SameThreads(ups, ups[b := Putting], n - 1);
    }
  }

  lemma {:induction false} SameThreads(ups: map<nat, UploadPc>, other: map<nat, UploadPc>, n: nat)
    requires forall i | 0 <= i < n :: (i in ups <==> i in other) && (i in ups ==> ups[i] == other[i])
    ensures AllStepsLeft(ups, n) == AllStepsLeft(other, n)
  {
    if n > 0 {
      SameThreads(ups, other, n - 1);
    }
  }

  /** The writer comes closer to the end of its call and leaves the threads alone. */
  predicate Advances(s: State, t: State) {
    && AllStepsLeft(t.ups, |t.heap|) == AllStepsLeft(s.ups, |s.heap|)
    && PcWork(t.pc, |t.table|) < PcWork(s.pc, |s.table|) && (t.pc.Thrown? || Unwritten(t.pc) == Unwritten(s.pc))
  }

  lemma AdvanceShrinks(s: State, t: State)
    requires Advances(s, t)
    ensures Work(t) < Work(s)
  {
  }

  lemma FillShrinks(c: Config, s: State, memory: Bytes)
    requires Inv(c, s) && CanDo(c, s, FillBuffer(memory))
    ensures Work(Do(c, s, FillBuffer(memory))) < Work(s)
  {
    FillExplicit(c, s, memory);
    FillProper(c, s, memory);
    FilledShrinks(c, s, memory);
  }

  lemma FilledShrinks(c: Config, s: State, memory: Bytes)
    requires s.pc.Filling? && GrownOk(c, s.heap, s.table == map[], memory) && |s.heap| !in s.ups
    requires var t := Filled(c, s, memory);
      Accounts(s, t, []) && |s.written| < |t.written|
    ensures Work(Filled(c, s, memory)) < Work(s)
  {
    hide AllStepsLeft, FilledBy;
    var t := Filled(c, s, memory);
    assert |t.written + Unwritten(t.pc)| == |s.written + Unwritten(s.pc) + []|;
    assert PcWork(t.pc, |t.table|) <= 206;
    SameSteps(s.ups, |s.heap|);
  }

  lemma SameSteps(ups: map<nat, UploadPc>, n: nat)
    requires n !in ups
    ensures AllStepsLeft(ups, n + 1) == AllStepsLeft(ups, n)
  {
  }

  lemma SpawnShrinks(c: Config, s: State)
    requires Inv(c, s) && CanDo(c, s, Spawn)
    ensures Work(Do(c, s, Spawn)) < Work(s)
  {
    assert s.pc.b !in s.ups && s.pc.b < |s.heap|;
    hide Inv;
    OneMoreThread(s.ups, |s.heap|, s.pc.b);
    SpawnWork(s);
    assert Do(c, s, Spawn) == SpawnStep(s);
    hide Work;
  }

  // The work that is left in the states of a flush.
  lemma FlushWork(b: nat, k: Caller, n: nat)
    ensures var w := CallerWork(k);
      && PcWork(Flushing(b, k), n) == w + 206 && PcWork(Claimed(b, k), n) == w + 205
      && PcWork(Reserving(b, k), n) == w + 204 && PcWork(AwaitSlot(b, k), n) == w + 203
      && PcWork(Opening(b, k), n) == w + 202 && PcWork(Spawning(b, k), n) == w + 201
      && PcWork(Return(k), n) == w + 100 && PcWork(Thrown, n) == 0
  {
  }

  lemma FinalizeWork(b: nat, list: seq<nat>, n: nat)
    ensures PcWork(Deciding(list), n) == 550 + 400 * |list| && PcWork(OpeningAll(list), n) == 500 + 400 * |list|
    ensures PcWork(FlushAll(list), n) == 400 + 400 * |list| && PcWork(SinglePutting(b), n) == 5
    ensures PcWork(Flushing(b, InFlushAll(list)), n) == 506 + 400 * |list|
    ensures PcWork(DrainCheck, n) == 50 && PcWork(Drained, n) == 10 && PcWork(Finished, n) == PcWork(Thrown, n) == 0
    ensures forall tags :: PcWork(Completing(tags), n) == 5
  {
  }

  lemma SpawnWork(s: State)
    requires s.pc.Spawning? && AllStepsLeft(s.ups[s.pc.b := Putting], |s.heap|) == AllStepsLeft(s.ups, |s.heap|) + 6
    ensures Work(SpawnStep(s)) < Work(s)
  {
    hide AllStepsLeft, Unwritten, PcWork, CallerWork, Return;
    FlushRest(s.pc.b, s.pc.k);
    FlushWork(s.pc.b, s.pc.k, |s.table|);
  }

  /** The step leads to this point and leaves the threads alone. */
  ghost predicate LeadsTo(s: State, t: State, pc: WriterPc) {
    t.pc == pc && AllStepsLeft(t.ups, |t.heap|) == AllStepsLeft(s.ups, |s.heap|) && |t.table| <= |s.table|
  }

  lemma ClaimLeads(s: State)
    requires s.pc.Flushing? && s.pc.b < |s.heap|
    ensures LeadsTo(s, ClaimStep(s), Return(s.pc.k)) || LeadsTo(s, ClaimStep(s), Claimed(s.pc.b, s.pc.k))
  {
    hide AllStepsLeft, Return;
  }

  lemma ClaimAdvances(s: State)
    requires s.pc.Flushing? && s.pc.b < |s.heap|
    ensures Advances(s, ClaimStep(s))
  {
    hide ClaimStep, AllStepsLeft, Unwritten, PcWork, CallerWork, Return;
    ClaimLeads(s);
    FlushRest(s.pc.b, s.pc.k);
    FlushWork(s.pc.b, s.pc.k, |s.table|);
    FlushWork(s.pc.b, s.pc.k, |ClaimStep(s).table|);
  }

  lemma CheckAdvances(s: State)
    requires s.pc.Claimed? && s.pc.b < |s.heap|
    ensures Advances(s, CheckStep(s))
  {
    hide AllStepsLeft, Unwritten, PcWork, CallerWork;
    FlushRest(s.pc.b, s.pc.k);
    FlushWork(s.pc.b, s.pc.k, |s.table|);
    FlushWork(s.pc.b, s.pc.k, |CheckStep(s).table|);
  }

  lemma ReserveLeads(c: Config, s: State)
    requires s.pc.Reserving?
    ensures
      || LeadsTo(s, ReserveStep(c, s), AwaitSlot(s.pc.b, s.pc.k))
      || LeadsTo(s, ReserveStep(c, s), Opening(s.pc.b, s.pc.k))
  {
    hide AllStepsLeft, Return;
  }

  lemma ReserveAdvances(c: Config, s: State)
    requires s.pc.Reserving?
    ensures Advances(s, ReserveStep(c, s))
  {
    hide ReserveStep, AllStepsLeft, Unwritten, PcWork, CallerWork, Return;
    ReserveLeads(c, s);
    FlushRest(s.pc.b, s.pc.k);
    FlushWork(s.pc.b, s.pc.k, |s.table|);
    FlushWork(s.pc.b, s.pc.k, |ReserveStep(c, s).table|);
  }

  lemma OpenAdvances(s: State, ok: bool)
    requires s.pc.Opening?
    ensures Advances(s, OpenStep(s, ok))
  {
    hide AllStepsLeft, Unwritten, PcWork, CallerWork, Return;
    FlushRest(s.pc.b, s.pc.k);
    FlushWork(s.pc.b, s.pc.k, |s.table|);
  }

  lemma DecideLeads(c: Config, s: State)
    requires s.pc.Deciding?
    ensures LeadsTo(s, DecideStep(c, s), FlushAll(s.pc.list)) || LeadsTo(s, DecideStep(c, s), OpeningAll(s.pc.list))
      || (s.pc.list != [] && LeadsTo(s, DecideStep(c, s), SinglePutting(s.pc.list[0])))
  {
    hide AllStepsLeft, Return;
  }

  lemma DecideAdvances(c: Config, s: State)
    requires s.pc.Deciding?
    ensures Advances(s, DecideStep(c, s))
  {
    hide DecideStep, AllStepsLeft, Unwritten, PcWork, CallerWork, Return;
    DecideLeads(c, s);
    var list := s.pc.list;
    FinalizeRest(if list == [] then 0 else list[0], list);
    FinalizeWork(if list == [] then 0 else list[0], list, |DecideStep(c, s).table|);
    FinalizeWork(0, list, |s.table|);
  }

  lemma OpenAllAdvances(s: State, ok: bool)
    requires s.pc.OpeningAll?
    ensures Advances(s, OpenAllStep(s, ok))
  {
    hide AllStepsLeft, Unwritten, PcWork;
    FinalizeRest(0, s.pc.list);
    FinalizeWork(0, s.pc.list, |s.table|);
  }

  lemma SinglePutAdvances(s: State, result: PutResult)
    requires s.pc.SinglePutting? && s.pc.b < |s.heap| && s.heap[s.pc.b].idx <= |s.heap[s.pc.b].mem|
    ensures Advances(s, SinglePutStep(s, result))
  {
    hide AllStepsLeft, Unwritten, PcWork;
    FinalizeRest(s.pc.b, []);
    FinalizeWork(s.pc.b, [], |s.table|);
  }

  lemma FlushNextLeads(s: State)
    requires s.pc.FlushAll? && (s.pc.list != [] ==> s.pc.list[0] < |s.heap|)
    ensures
      if s.pc.list == [] then LeadsTo(s, FlushNextStep(s), DrainCheck)
      else
        || LeadsTo(s, FlushNextStep(s), FlushAll(s.pc.list[1..]))
        || LeadsTo(s, FlushNextStep(s), Flushing(s.pc.list[0], InFlushAll(s.pc.list[1..])))
  {
    hide AllStepsLeft, Return;
  }

  lemma FlushNextAdvances(s: State)
    requires s.pc.FlushAll? && (s.pc.list != [] ==> s.pc.list[0] < |s.heap|)
    ensures Advances(s, FlushNextStep(s))
  {
    hide FlushNextStep, AllStepsLeft, Unwritten, PcWork, CallerWork, Return;
    FlushNextLeads(s);
    var n := |FlushNextStep(s).table|;
    FinalizeRest(0, s.pc.list);
    FinalizeWork(0, s.pc.list, |s.table|);
    FinalizeWork(0, s.pc.list, n);
    if s.pc.list != [] {
      FinalizeRest(s.pc.list[0], s.pc.list[1..]);
      FinalizeWork(s.pc.list[0], s.pc.list[1..], n);
    }
  }

  lemma RethrowAdvances(s: State)
    requires s.pc.Drained?
    ensures Advances(s, RethrowStep(s))
  {
    hide AllStepsLeft, Unwritten, PcWork;
    FinalizeRest(0, []);
    FinalizeWork(0, [], |s.table|);
  }

  lemma CompleteAdvances(s: State, r: CompleteResult)
    requires s.pc.Completing? && !r.EmbeddedError?
    ensures Advances(s, CompleteStep(s, r))
  {
    hide AllStepsLeft, Unwritten, PcWork;
    FinalizeRest(0, []);
    FinalizeWork(0, [], |s.table|);
  }

  lemma FlushAdvances(c: Config, s: State, e: Event)
    requires CanDo(c, s, e) && Flushes(e) && !e.Spawn?
    ensures Advances(s, Do(c, s, e))
  {
    hide Advances, ClaimStep, CheckStep, ReserveStep, OpenStep;
    if e.Claim? {
      ClaimAdvances(s);
    } else if e.Check? {
      CheckAdvances(s);
    } else if e.Reserve? {
      ReserveAdvances(c, s);
    } else {
      OpenAdvances(s, e.ok);
    }
  }

  lemma FinalizeAdvances(c: Config, s: State, e: Event)
    requires CanDo(c, s, e) && Finalizes(e) && Works(e)
    ensures Advances(s, Do(c, s, e))
  {
    hide Advances, DecideStep, OpenAllStep, SinglePutStep, FlushNextStep, RethrowStep, CompleteStep;
    if e.Decide? {
      DecideAdvances(c, s);
    } else if e.OpenAll? {
      OpenAllAdvances(s, e.ok);
    } else if e.SinglePut? {
      SinglePutAdvances(s, e.result);
    } else if e.FlushNext? {
      FlushNextAdvances(s);
    } else if e.Rethrow? {
      RethrowAdvances(s);
    } else {
      CompleteAdvances(s, e.outcome);
    }
  }

  lemma TurnAdvances(c: Config, s: State, e: Event)
    requires CanDo(c, s, e) && Turns(e) && Works(e)
    ensures Advances(s, Do(c, s, e))
  {
  }

  lemma WakeWork(pc: WriterPc, n: nat)
    ensures PcWork(WakeSlot(pc), n) <= PcWork(pc, n) + 1 && PcWork(WakeDrain(pc), n) <= PcWork(pc, n) + 1
    ensures Unwritten(WakeSlot(pc)) == Unwritten(pc) && Unwritten(WakeDrain(pc)) == Unwritten(pc)
  {
  }

  lemma ThreadShrinks(c: Config, s: State, e: Event)
    requires CanDo(c, s, e) && ByThread(e) && e.i < |s.heap|
    ensures Work(Do(c, s, e)) < Work(s)
  {
    ThreadMoves(c, s, e);
    MovedOn(c, s, e);
    FewerStepsLeft(s.ups, |s.heap|, e.i, Moved(s, e));
    ThreadLeaves(c, s, e);
    hide Do, Moved, LeavesWriter, Work;
    ThreadWork(s, Do(c, s, e));
  }

  lemma ThreadWork(s: State, t: State)
    requires LeavesWriter(s, t) && AllStepsLeft(t.ups, |s.heap|) < AllStepsLeft(s.ups, |s.heap|)
    ensures Work(t) < Work(s)
  {
    hide PcWork, Unwritten, AllStepsLeft;
    WakeWork(s.pc, |s.table|);
  }

  lemma StepShrinks(c: Config, s: State, e: Event)
    requires Inv(c, s) && CanDo(c, s, e) && Works(e)
    ensures Work(Do(c, s, e)) < Work(s)
  {
    if e.FillBuffer? {
      FillShrinks(c, s, e.memory);
    } else if e.Spawn? {
      SpawnShrinks(c, s);
    } else if ByThread(e) {
      ThreadMoves(c, s, e);
      assert e.i < |s.heap|;
      ThreadShrinks(c, s, e);
    } else {
      hide Inv, Advances, Do, Work;
      if Turns(e) {
        TurnAdvances(c, s, e);
      } else if Finalizes(e) {
        FinalizeAdvances(c, s, e);
      } else {
        FlushAdvances(c, s, e);
      }
      AdvanceShrinks(s, Do(c, s, e));
    }
  }

  // ----- Nothing is stuck -----

  /** What the writer, or the thread it waits for, does next; requests may come out well. */
  lemma NextStep(c: Config, s: State) returns (e: Event)
    requires Inv(c, s) && s.crash.Alive? && Busy(s.pc) && !Asleep(s.pc)
    ensures CanDo(c, s, e) && Works(e)
  {
    match s.pc
    case Filling(pending) =>
      e := if pending == [] then ReturnWrite else FillBuffer(seq(c.partSize, _ => 0));
    case Flushing(_, _) => e := Claim;
    case Claimed(_, _) => e := Check;
    case Reserving(_, _) => e := Reserve;
    case Opening(_, _) => e := Open(true);
    case Spawning(_, _) => e := Spawn;
    case Collecting => e := Collect(if s.table == map[] then [] else [|s.heap| - 1]);
    case Deciding(_) => e := Decide;
    case SinglePutting(b) =>
      assert BufferOk(c, s.heap, b);
      e := SinglePut(PutOk);
    case OpeningAll(_) => e := OpenAll(true);
    case FlushAll(_) => e := FlushNext;
    case DrainCheck => e := CheckDrain;
    case Drained => e := Rethrow;
    case Completing(_) =>
      CompletionAcceptable(c, s);
      e := Complete(Accepted);
  }

  /** With a thread limit above zero every call returns: as long as one is in progress some step is
      possible, all of them lower a bound, and with a limit of zero this fails exactly where the writer
      waits for a thread. */
  lemma CallsReturn(c: Config, run: seq<State>, events: seq<Event>, k: nat)
    requires IsRun(c, run, events) && k < |run| && run[k].crash.Alive? && Busy(run[k].pc)
    ensures c.maxThreads > 0 || !Asleep(run[k].pc) <==> exists e :: CanDo(c, run[k], e) && Works(e)
    ensures forall e | CanDo(c, run[k], e) && Works(e) :: Work(Do(c, run[k], e)) < Work(run[k])
  {
    RunInv(c, run, events, k);
    if Asleep(run[k].pc) {
      SleepEnds(c, run, events, k);
    } else {
      var e := NextStep(c, run[k]);
    }
    forall e | CanDo(c, run[k], e) && Works(e)
      ensures Work(Do(c, run[k], e)) < Work(run[k])
    {
      StepShrinks(c, run[k], e);
    }
  }
}
