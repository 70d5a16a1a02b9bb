/** Sleeping and waking in the multipart upload, and what a thread limit of zero does. */
module MultipartSleep {
  import opened MultipartUpload
  import opened MultipartInvariant
  import opened MultipartTheorems
  import opened Prelude

  predicate Asleep(pc: WriterPc) {
    pc.AwaitSlot? || pc.AwaitDrain?
  }

  function AllStepsLeft(ups: map<nat, UploadPc>, n: nat): nat {
    if n == 0 then 0
    else AllStepsLeft(ups, n - 1) + if n - 1 in ups then StepsLeft(ups[n - 1]) else 0
  }

  lemma {:induction false} FewerStepsLeft(ups: map<nat, UploadPc>, n: nat, i: nat, u: UploadPc)
    requires i in ups && StepsLeft(u) < StepsLeft(ups[i])
    ensures AllStepsLeft(ups[i := u], n) <= AllStepsLeft(ups, n)
    ensures i < n ==> AllStepsLeft(ups[i := u], n) < AllStepsLeft(ups, n)
  {
    if n > 0 {
      FewerStepsLeft(ups, n - 1, i, u);
    }
  }

  /** Without a thread limit above zero no upload thread ever exists. */
  lemma {:induction false} NoThreads(c: Config, run: seq<State>, events: seq<Event>, k: nat)
    requires IsRun(c, run, events) && c.maxThreads == 0 && k < |run|
    ensures run[k].ups == map[]
  {
    if k > 0 {
      NoThreads(c, run, events, k - 1);
      RunInv(c, run, events, k - 1);
      assert StepAt(c, run, events, k - 1);
      var e := events[k - 1];
      if !e.Spawn? && !ByThread(e) {
        WriterLeavesThreads(c, run[k - 1], e);
      }
    }
  }

  /** A writer asleep on either condition variable is never left alone, whatever the run, if and
      only if the thread limit is above zero: then some upload thread has steps left. */
  lemma SleeperHasWaker(c: Config, run: seq<State>, events: seq<Event>, k: nat)
    requires IsRun(c, run, events) && k < |run| && Asleep(run[k].pc)
    ensures c.maxThreads > 0 <==> exists i :: i in run[k].ups && !run[k].ups[i].Gone?
  {
    if c.maxThreads > 0 {
      var i := Waker(c, run, events, k);
    } else {
      NoThreads(c, run, events, k);
    }
  }

  lemma Waker(c: Config, run: seq<State>, events: seq<Event>, k: nat) returns (i: nat)
    requires IsRun(c, run, events) && c.maxThreads > 0 && k < |run| && Asleep(run[k].pc)
    ensures i in run[k].ups && !run[k].ups[i].Gone?
  {
    RunInv(c, run, events, k);
    var s := run[k];
    if s.inProgress > 0 {
      assert LiveSet(s.ups) != {};
      i :| i in LiveSet(s.ups);
    } else {
      assert DrainWakerPending(s.ups) || SlotWakerPending(s.ups);
      i :| i in s.ups && (s.ups[i].Decremented? || s.ups[i].SlotNotified?);
    }
  }

  /** The step an upload thread takes next. */
  function NextOf(u: UploadPc, i: nat): Event {
    match u
    case Putting => Put(i, PutOk)
    case Tagged(_) => Insert(i)
    case Inserted => Count(i)
    case Failed => Push(i)
    case Leaving(_) => Decrement(i)
    case Decremented(_) => NotifySlot(i)
    case _ => NotifyDrain(i)
  }

  /** While the writer sleeps, some thread's next step is possible if and only if the thread limit
      is above zero, and every step other than a spurious wake-up uses up one of finitely many
      thread steps or wakes the writer (or the process is gone). So nobody waits forever, except
      under a limit of zero. */
  lemma SleepEnds(c: Config, run: seq<State>, events: seq<Event>, k: nat)
    requires IsRun(c, run, events) && k < |run| && Asleep(run[k].pc) && run[k].crash.Alive?
    ensures
      var s := run[k];
      && (c.maxThreads > 0 <==> exists i :: i in s.ups && CanDo(c, s, NextOf(s.ups[i], i)))
      && (c.maxThreads > 0 <==> exists e :: CanDo(c, s, e) && !e.Spurious?)
      && forall e | CanDo(c, s, e) && !e.Spurious? ::
        !Asleep(Do(c, s, e).pc) || AllStepsLeft(Do(c, s, e).ups, |s.heap|) < AllStepsLeft(s.ups, |s.heap|)
  {
    RunInv(c, run, events, k);
    if c.maxThreads > 0 {
      var i := Waker(c, run, events, k);
      ThreadCanStep(c, run[k], i);
    } else {
      NoThreads(c, run, events, k);
    }
    StepsShorten(c, run[k]);
  }

  // ----- A limit of zero -----

  /** The writer waits for a slot, or has just been woken for nothing. */
  predicate Waits(pc: WriterPc) {
    pc.AwaitSlot? || pc.Reserving?
  }

  /** With a limit of zero a writer that has to hand over a part waits for ever: whatever happens
      later, it checks the limit and sleeps, and only a spurious wake-up moves it. */
  lemma {:induction false} WaitsForever(c: Config, run: seq<State>, events: seq<Event>, k: nat, later: nat)
    requires IsRun(c, run, events) && c.maxThreads == 0 && k <= later < |run| && Waits(run[k].pc)
    ensures Waits(run[later].pc) && run[later].blob == run[k].blob
    ensures forall e | CanDo(c, run[later], e) :: e.Spurious? || e.Reserve?
    decreases later
  {
    NoThreads(c, run, events, later);
    if k < later {
      WaitsForever(c, run, events, k, later - 1);
      assert StepAt(c, run, events, later - 1);
    }
  }

  /** So with a limit of zero only files without a full part are ever finished: those that are
      sent as one PUT, and empty ones. */
  lemma FinishedWithoutThreads(c: Config, run: seq<State>, events: seq<Event>, k: nat)
    requires IsRun(c, run, events) && c.maxThreads == 0 && k < |run| && run[k].pc.Finished?
    ensures run[k].written == [] || run[k].singlePut
  {
    RunInv(c, run, events, k);
    NoThreads(c, run, events, k);
  }

  /** One byte that fills the only part: the writer sleeps, and no thread will ever wake it. */
  lemma LimitZeroHangs() returns (c: Config, run: seq<State>, events: seq<Event>)
    ensures c == Config(1, 0, false) && IsRun(c, run, events)
    ensures var s := run[|events|];
      s.pc.AwaitSlot? && s.ups == map[] && forall e | CanDo(c, s, e) :: e.Spurious?
  {
    c := Config(1, 0, false);
    run, events := [Init()], [];
    run, events := Extend(c, run, events, CallWrite([7], 0));
    OneByteFills(c, run[|events|]);
    run, events := Extend(c, run, events, FillBuffer([0]));
    run, events := Extend(c, run, events, Claim);
    run, events := Extend(c, run, events, Check);
    run, events := Extend(c, run, events, Reserve);
  }

  lemma OneByteFills(c: Config, s: State)
    requires c == Config(1, 0, false) && s == Init().(pc := Filling([7]))
    ensures Do(c, s, FillBuffer([0])) ==
      s.(heap := [Buffer(0, 0, 1, [7], false)], table := map[0 := 0], written := [7], pc := Flushing(0, InWrite([])))
  {
    var pending, memory: Bytes := [7], [0];
    assert memory[..0] + pending[..1] + memory[1..] == [7] && pending[1..] == [] && pending[..1] == [7];
    var b := Buffer(0, 0, 0, memory, false);
    assert ([] + [b])[0 := b.(mem := [7], idx := 1)] == [Buffer(0, 0, 1, [7], false)];
  }

  lemma ThreadCanStep(c: Config, s: State, i: nat)
    requires c.partSize > 0 && Holds(c, s.heap, s.written) && TableOk(|s.heap|, s.table, s.pc, s.ups)
    requires s.crash.Alive? && i in s.ups && !s.ups[i].Gone?
    ensures CanDo(c, s, NextOf(s.ups[i], i))
  {
    assert i < |s.heap| && BufferOk(c, s.heap, i);
  }

  lemma StepsShorten(c: Config, s: State)
    requires TableOk(|s.heap|, s.table, s.pc, s.ups) && Asleep(s.pc)
    ensures forall e | CanDo(c, s, e) && !e.Spurious? ::
      AllStepsLeft(Do(c, s, e).ups, |s.heap|) < AllStepsLeft(s.ups, |s.heap|)
  {
    forall e | CanDo(c, s, e) && !e.Spurious?
      ensures AllStepsLeft(Do(c, s, e).ups, |s.heap|) < AllStepsLeft(s.ups, |s.heap|)
    {
      SleepShortens(c, s, e);
    }
  }

  lemma SleepShortens(c: Config, s: State, e: Event)
    requires TableOk(|s.heap|, s.table, s.pc, s.ups) && CanDo(c, s, e) && !e.Spurious? && Asleep(s.pc)
    ensures AllStepsLeft(Do(c, s, e).ups, |s.heap|) < AllStepsLeft(s.ups, |s.heap|)
  {
    assert ByThread(e);
    ThreadMoves(c, s, e);
    MovedOn(c, s, e);
    FewerStepsLeft(s.ups, |s.heap|, e.i, Moved(s, e));
  }
}
