/** What holds in every run of the dispatcher. */
module DispatcherTheorems {
  import opened Dispatcher
  import opened DispatcherSafety
  import opened Prelude

  predicate StepAt(run: seq<State>, events: seq<Event>, i: nat)
    requires |run| == |events| + 1 && i < |events|
  {
    CanDo(run[i], events[i]) && run[i + 1] == Do(run[i], events[i])
  }

  /** The states that these events lead through, from the start. */
  ghost predicate IsRun(run: seq<State>, events: seq<Event>) {
    && |run| == |events| + 1 && run[0] == Init()
    && forall i | 0 <= i < |events| :: StepAt(run, events, i)
  }

  /** The invariant holds in every state of every run. */
  lemma {:induction false} RunInv(run: seq<State>, events: seq<Event>, k: nat)
    requires IsRun(run, events) && k < |run|
    ensures Inv(run[k])
  {
    if k == 0 {
      InitInv();
    } else {
      RunInv(run, events, k - 1);
      assert StepAt(run, events, k - 1);
      StepKeeps(run[k - 1], events[k - 1]);
    }
  }

  lemma InitInv()
    ensures Inv(Init())
  {
  }

  /** In every run each accepted transfer is in exactly one of the queue, the hands of the
      dispatcher thread, the in-flight list and the signalled ones, so it is signalled at most
      once; the queue is empty for good once the drain has taken it. */
  lemma OnePlaceEach(run: seq<State>, events: seq<Event>, k: nat, t: Transfer)
    requires IsRun(run, events) && k < |run|
    ensures var s := run[k];
      && Count(s.queue, t) + Count(Held(s.phase), t) + Count(Flight(s.phase, s.inFlight), t) + Count(s.signals, t)
         == (if t in s.easy then 1 else 0)
      && (s.phase.DrainQueued? || s.phase.DrainFlight? || s.phase.DrainDetached? || s.phase.Finished? ==> s.queue == [])
  {
    RunInv(run, events, k);
    var s := run[k];
    assert OnePlace(s.queue, Held(s.phase), Flight(s.phase, s.inFlight), s.signals, s.easy, t);
  }

  /** Which transfer a step signals. */
  function Wakes(s: State, e: Event): Option<Transfer>
    requires CanDo(s, e)
  {
    match e
    case Signal => Some(s.phase.t)
    case DrainSignal => if s.phase.rest == [] then None else Some(s.phase.rest[0])
    case DrainNotify => Some(s.inFlight[s.phase.i])
    case _ => None
  }

  /** A step of any run follows a pointer only to a waiter whose Submit has not returned and
      that has not been signalled, and it signals a transfer only when its handle is detached,
      so that the worker may reuse the handle at once. */
  lemma PointersAreSafe(run: seq<State>, events: seq<Event>, k: nat, e: Event, t: Transfer)
    requires IsRun(run, events) && k < |run| && CanDo(run[k], e)
    ensures var s := run[k];
      && (t in Touches(s, e) ==> t in s.live && t in s.easy && Count(s.signals, t) == 0)
      && (Wakes(s, e) == Some(t) ==> t in s.easy && s.easy[t] !in s.multi && Count(Do(s, e).signals, t) == 1)
  {
    RunInv(run, events, k);
    var s := run[k];
    if t in Touches(s, e) {
      TouchedWaits(s, e, t);
    }
    if Wakes(s, e) == Some(t) {
      TouchedWaits(s, e, t);
      CountSnoc(s.signals, t, t);
      WokenIsDetached(s, e, t);
    }
  }

  lemma TouchedWaits(s: State, e: Event, t: Transfer)
    requires Inv(s) && CanDo(s, e) && t in Touches(s, e)
    ensures t in s.live && t in s.easy && Count(s.signals, t) == 0
    ensures Wakes(s, e) == Some(t) ==> Count(Attached(s.phase, s.inFlight), t) == 0
  {
    match e {
      case Add => CountHead(s.phase.rest, t);
      case Signal => CountOne(t, t);
      case DrainSignal => CountHead(s.phase.rest, t);
      case DrainDetach => CountHead(s.inFlight[s.phase.i..], t);
      case DrainNotify => CountHead(s.inFlight[s.phase.i..], t);
      case _ =>
    }
    Waits(s, t);
  }

  lemma WokenIsDetached(s: State, e: Event, t: Transfer)
    requires Inv(s) && CanDo(s, e) && t in s.live && t in s.easy && Count(Attached(s.phase, s.inFlight), t) == 0
    ensures s.easy[t] !in s.multi
  {
    var h := s.easy[t];
    assert Pointed(s.easy, s.multi, s.private, Attached(s.phase, s.inFlight), h);
    if h in s.multi {
      var u := s.private[h];
      AttachedIsFlight(s.phase, s.inFlight, u);
      Waits(s, u);
    }
  }

  lemma SignalsGrow(s: State, e: Event, t: Transfer)
    requires CanDo(s, e)
    ensures Count(Do(s, e).signals, t) >= Count(s.signals, t)
  {
    match e {
      case Signal => CountSnoc(s.signals, s.phase.t, t);
      case DrainSignal =>
        if s.phase.rest != [] {
          CountSnoc(s.signals, s.phase.rest[0], t);
        }
      case DrainNotify => CountSnoc(s.signals, s.inFlight[s.phase.i], t);
      case _ =>
    }
  }

  lemma {:induction false} SignalsStay(run: seq<State>, events: seq<Event>, k: nat, later: nat, t: Transfer)
    requires IsRun(run, events) && k <= later < |run|
    ensures Count(run[k].signals, t) <= Count(run[later].signals, t)
    decreases later
  {
    if k < later {
      SignalsStay(run, events, k, later - 1, t);
      assert StepAt(run, events, later - 1);
      SignalsGrow(run[later - 1], events[later - 1], t);
    }
  }

  /** Once a transfer is signalled, no later step of the run follows a pointer to its waiter or
      signals it again. */
  lemma NeverTouchedAgain(run: seq<State>, events: seq<Event>, k: nat, later: nat, e: Event, t: Transfer)
    requires IsRun(run, events) && k <= later < |run| && Count(run[k].signals, t) > 0 && CanDo(run[later], e)
    ensures t !in Touches(run[later], e) && Wakes(run[later], e) != Some(t)
  {
    SignalsStay(run, events, k, later, t);
    PointersAreSafe(run, events, later, e, t);
  }

  // ----- Results -----

  /** libcurl reports the end of the transfer whose waiter is there and was submitted with this
      handle. */
  predicate Reported(s: State, e: Event, t: Transfer) {
    e.Harvest? && t in s.live && t in s.easy && s.easy[t] == e.h
  }

  /** A report reaches the waiter it is for. */
  lemma ReportFinds(s: State, e: Event, t: Transfer)
    requires Inv(s) && CanDo(s, e)
    ensures Reported(s, e, t) ==> t !in s.results && Do(s, e).phase == Signalling(t, e.code)
    ensures e.Harvest? && Do(s, e).phase.Signalling? ==> Reported(s, e, Do(s, e).phase.t)
  {
    if e.Harvest? {
      assert Pointed(s.easy, s.multi, s.private, s.inFlight, e.h);
      Waits(s, s.private[e.h]);
    }
  }

  /** In every run, what libcurl reports for a handle goes to the transfer submitted with it. */
  lemma ReportsReachTheirTransfer(run: seq<State>, events: seq<Event>, k: nat, t: Transfer)
    requires IsRun(run, events) && k < |events| && Reported(run[k], events[k], t)
    ensures run[k + 1].phase == Signalling(t, events[k].code)
  {
    RunInv(run, events, k);
    assert StepAt(run, events, k);
    ReportFinds(run[k], events[k], t);
  }

  ghost predicate ReportedBy(run: seq<State>, events: seq<Event>, k: nat, t: Transfer, code: Code)
    requires |run| == |events| + 1 && k <= |events|
  {
    && (exists j | 0 <= j < k :: Reported(run[j], events[j], t))
    && forall j | 0 <= j < k && Reported(run[j], events[j], t) :: events[j].code == code
  }

  ghost predicate Unreported(run: seq<State>, events: seq<Event>, k: nat, t: Transfer)
    requires |run| == |events| + 1 && k <= |events|
  {
    forall j | 0 <= j < k :: !Reported(run[j], events[j], t)
  }

  /** What the dispatcher thread or the waiter holds for `t` is what was reported so far. */
  ghost predicate ResultOk(run: seq<State>, events: seq<Event>, k: nat, t: Transfer)
    requires |run| == |events| + 1 && k <= |events|
  {
    var s := run[k];
    if t in s.results then
      || ReportedBy(run, events, k, t, s.results[t])
      || (Unreported(run, events, k, t) && s.stopping && s.results[t] == ABORTED_BY_CALLBACK)
    else if s.phase.Signalling? && s.phase.t == t then ReportedBy(run, events, k, t, s.phase.code)
    else Unreported(run, events, k, t)
  }

  /** The step itself: who is reported, and which result is stored. */
  lemma ResultStep(s: State, e: Event, t: Transfer)
    requires Inv(s) && CanDo(s, e)
    ensures var r := Do(s, e);
      && (Reported(s, e, t) ==>
            t !in s.results && s.phase.Harvesting? && t !in r.results && r.phase == Signalling(t, e.code))
      && (!Reported(s, e, t) && r.phase.Signalling? && r.phase.t == t ==> s.phase == r.phase && !e.Signal?)
      && (s.phase.Signalling? && s.phase.t == t && t !in r.results ==> r.phase == s.phase)
      && (t in r.results ==>
        || (t in s.results && r.results[t] == s.results[t])
        || (t !in s.results && s.phase.Signalling? && s.phase.t == t && r.results[t] == s.phase.code)
        || (t !in s.results && !s.phase.Signalling? && r.stopping && r.results[t] == ABORTED_BY_CALLBACK))
      && (t in s.results ==> t in r.results && r.results[t] == s.results[t]) && (s.stopping ==> r.stopping)
  {
    ReportFinds(s, e, t);
    if Wakes(s, e).Some? {
      TouchedWaits(s, e, Wakes(s, e).value);
    }
  }

  lemma {:induction false} ResultsHold(run: seq<State>, events: seq<Event>, k: nat, t: Transfer)
    requires IsRun(run, events) && k < |run|
    ensures ResultOk(run, events, k, t)
  {
    if k > 0 {
      ResultsHold(run, events, k - 1, t);
      RunInv(run, events, k - 1);
      assert StepAt(run, events, k - 1);
      ResultStep(run[k - 1], events[k - 1], t);
    }
  }

  /** A Submit that can return was signalled exactly once. Its result is the code that libcurl
      reported for its own handle while it waited; if there was no report, it is the abort code
      and shutdown has begun. */
  lemma SubmitReturnsItsResult(run: seq<State>, events: seq<Event>, k: nat, t: Transfer)
    requires IsRun(run, events) && k < |run| && CanDo(run[k], Return(t))
    ensures var s := run[k];
      && Count(s.signals, t) == 1
      && (forall j | 0 <= j < k && Reported(run[j], events[j], t) :: s.results[t] == events[j].code)
      && ((forall j | 0 <= j < k :: !Reported(run[j], events[j], t)) ==>
            s.stopping && s.results[t] == ABORTED_BY_CALLBACK)
  {
    RunInv(run, events, k);
    var s := run[k];
    assert OnePlace(s.queue, Held(s.phase), Flight(s.phase, s.inFlight), s.signals, s.easy, t);
    ResultsHold(run, events, k, t);
  }

  /** What the calls to Submit have returned so far: the result of the waiter or, from a call that was
      turned away, the abort code. */
  predicate ReturnOk(s: State, t: Transfer) {
    t in s.returned ==>
      if t in s.easy then t !in s.live && t in s.results && s.returned[t] == s.results[t]
      else s.stopping && s.returned[t] == ABORTED_BY_CALLBACK
  }

  lemma ReturnStep(s: State, e: Event, t: Transfer)
    requires Inv(s) && CanDo(s, e) && ReturnOk(s, t)
    ensures ReturnOk(Do(s, e), t)
  {
    ResultStep(s, e, t);
  }

  lemma {:induction false} ReturnsHold(run: seq<State>, events: seq<Event>, k: nat, t: Transfer)
    requires IsRun(run, events) && k < |run|
    ensures ReturnOk(run[k], t)
  {
    if k > 0 {
      ReturnsHold(run, events, k - 1, t);
      RunInv(run, events, k - 1);
      assert StepAt(run, events, k - 1);
      ReturnStep(run[k - 1], events[k - 1], t);
    }
  }

  /** What a call to Submit has returned is the code that libcurl reported for its own handle while it
      waited. If there was no report, shutdown has begun, the code is 42, which is not success, and it
      makes no difference whether the call was turned away or had been accepted. */
  lemma SubmitReturns(run: seq<State>, events: seq<Event>, k: nat, t: Transfer)
    requires IsRun(run, events) && k < |run| && t in run[k].returned
    ensures var code := run[k].returned[t];
      || ReportedBy(run, events, k, t, code)
      || (Unreported(run, events, k, t) && run[k].stopping && code == 42 != OK)
  {
    RunInv(run, events, k);
    ReturnsHold(run, events, k, t);
    ResultsHold(run, events, k, t);
    if t !in run[k].easy {
      NeverAccepted(run, events, k, t);
    }
  }

  lemma {:induction false} NeverAccepted(run: seq<State>, events: seq<Event>, k: nat, t: Transfer)
    requires IsRun(run, events) && k < |run| && t !in run[k].easy
    ensures Unreported(run, events, k, t)
  {
    hide Do, CanDo;
    if k > 0 {
      assert StepAt(run, events, k - 1);
      if t in run[k - 1].easy {
        StaysAccepted(run[k - 1], events[k - 1], t);
      }
      NeverAccepted(run, events, k - 1, t);
    }
  }

  lemma StaysAccepted(s: State, e: Event, t: Transfer)
    requires CanDo(s, e) && t in s.easy
    ensures t in Do(s, e).easy
  {
    hide Erase, HandleOf;
    if e.Submit? {
      assert t in s.easy[e.t := e.h];
    }
  }

  /** After shutdown began a call to Submit returns at once, and the dispatcher does not see it. */
  lemma RejectedAtOnce(run: seq<State>, events: seq<Event>, k: nat, t: Transfer, h: Handle)
    requires IsRun(run, events) && k < |events| && events[k] == Submit(t, h)
    ensures var s, r := run[k], run[k + 1];
      if s.stopping then r == s.(returned := s.returned[t := 42])
      else t in r.live && t in r.easy && r.easy[t] == h && r.queue == s.queue + [t] && t in r.wakers
  {
    RunInv(run, events, k);
    assert StepAt(run, events, k);
  }

  // ----- The end of the multi handle -----

  /** The steps that use the multi handle. */
  predicate UsesMulti(e: Event) {
    e.Wake? || e.Add? || e.Harvest? || e.EndHarvest? || e.DrainDetach? || e.Shutdown? || e.Cleanup?
  }

  /** After the cleanup the multi handle is used again exactly by workers that were accepted
      before shutdown and had not woken it by the time of the cleanup; each of them can do so
      whenever it runs, and nobody else can. */
  lemma UseAfterCleanup(run: seq<State>, events: seq<Event>, c: nat, k: nat)
    requires IsRun(run, events) && c < k < |run| && events[c].Cleanup?
    ensures var s := run[k];
      && s.cleaned && s.stopping && s.rejecting && s.wakers <= run[c].wakers && s.wakers <= s.live
      && (forall e | UsesMulti(e) :: CanDo(s, e) <==> e.Wake? && e.t in s.wakers)
      && (forall t | t in run[c].wakers && t !in s.wakers :: exists j | c < j < k :: events[j] == Wake(t))
  {
    hide IsRun, Inv, CanDo, Do;
    RunInv(run, events, k);
    StaysCleaned(run, events, c, k);
    CleanedUses(run[k]);
  }

  lemma {:induction false} StaysCleaned(run: seq<State>, events: seq<Event>, c: nat, k: nat)
    requires IsRun(run, events) && c < k < |run| && events[c].Cleanup?
    ensures run[k].cleaned && run[k].wakers <= run[c].wakers
    ensures forall t | t in run[c].wakers && t !in run[k].wakers :: exists j | c < j < k :: events[j] == Wake(t)
    decreases k
  {
    assert StepAt(run, events, k - 1);
    if c + 1 < k {
      var s, r := run[k - 1], run[k];
      RunInv(run, events, k - 1);
      StaysCleaned(run, events, c, k - 1);
      CleanedStep(s, events[k - 1]);
      hide Do, CanDo, Inv;
      forall t | t in run[c].wakers && t !in r.wakers
        ensures exists j | c < j < k :: events[j] == Wake(t)
      {
        if t in s.wakers {
          assert events[k - 1] == Wake(t);
        }
      }
    }
  }

  lemma CleanedUses(s: State)
    requires Inv(s) && s.cleaned
    ensures s.stopping && s.rejecting && s.wakers <= s.live
    ensures forall e | UsesMulti(e) :: CanDo(s, e) <==> e.Wake? && e.t in s.wakers
  {
  }

  lemma CleanedStep(s: State, e: Event)
    requires Inv(s) && s.cleaned && CanDo(s, e)
    ensures Do(s, e).cleaned && Do(s, e).wakers == if e.Wake? then s.wakers - {e.t} else s.wakers
  {
  }

  /** A run with such a use: a worker is accepted and loses the processor before it wakes the
      multi handle; the process shuts down, the drain signals the worker, and the handle is
      cleaned up. */
  lemma WakeAfterCleanup() returns (run: seq<State>, events: seq<Event>)
    ensures IsRun(run, events) && |events| > 0
    ensures run[|events| - 1].cleaned && events[|events| - 1] == Wake(0)
  {
    run, events := [Init()], [];
    run, events := Extend(run, events, Submit(0, 7));
    run, events := Extend(run, events, Shutdown);
    run, events := Extend(run, events, Check);
    run, events := Extend(run, events, DrainSwap);
    run, events := Extend(run, events, DrainSignal);
    run, events := Extend(run, events, DrainSignal);
    run, events := Extend(run, events, DrainEnd);
    run, events := Extend(run, events, Cleanup);
    run, events := Extend(run, events, Wake(0));
  }

  /** One more step of a run. */
  lemma Extend(run: seq<State>, events: seq<Event>, e: Event) returns (longer: seq<State>, more: seq<Event>)
    requires IsRun(run, events) && CanDo(run[|events|], e)
    ensures IsRun(longer, more) && more == events + [e] && longer == run + [Do(run[|events|], e)]
  {
    longer, more := run + [Do(run[|events|], e)], events + [e];
    forall i | 0 <= i < |more|
      ensures StepAt(longer, more, i)
    {
      assert i < |events| ==> StepAt(run, events, i);
    }
  }

  // ----- Shutdown -----

  function Rank(p: Phase): nat {
    match p
    case Swapping => 7
    case Adding(_) => 6
    case Harvesting => 5
    case Signalling(_, _) => 5
    case Checking => 4
    case DrainSwapping => 3
    case DrainQueued(_) => 2
    case DrainFlight(_) => 1
    case DrainDetached(_) => 1
    case Finished => 0
  }

  /** An upper bound of the steps the dispatcher thread takes until it ends, once it has been
      told to stop. */
  function Work(s: State): nat {
    Rank(s.phase) + 5 * |s.queue| +
    match s.phase
    case Adding(rest) => 4 * |rest| + 3 * |s.inFlight|
    case Signalling(_, _) => 1 + 3 * |s.inFlight|
    case DrainQueued(rest) => 4 * |rest| + 3 * |s.inFlight|
    case DrainFlight(i) => if i <= |s.inFlight| then 3 * (|s.inFlight| - i) else 0
    case DrainDetached(i) => if i < |s.inFlight| then 3 * (|s.inFlight| - i) - 1 else 0
    case _ => 3 * |s.inFlight|
  }

  /** A step of the dispatcher thread. */
  predicate OfDispatcher(e: Event) {
    !e.Submit? && !e.Wake? && !e.Return? && !e.Shutdown? && !e.Cleanup?
  }

  lemma WorkShrinks(s: State, e: Event)
    requires Inv(s) && CanDo(s, e) && s.stopping
    ensures Do(s, e).stopping
    ensures if OfDispatcher(e) then Work(Do(s, e)) < Work(s) else Work(Do(s, e)) == Work(s)
  {
    if e.Harvest? {
      HarvestShrinks(s, e.h, e.code);
    }
  }

  lemma HarvestShrinks(s: State, h: Handle, code: Code)
    requires Inv(s) && CanDo(s, Harvest(h, code)) && s.stopping
    ensures var r := Do(s, Harvest(h, code)); r.stopping && Work(r) < Work(s)
  {
    assert Pointed(s.easy, s.multi, s.private, s.inFlight, h);
    var t := s.private[h];
    CountErase(s.inFlight, t, t);
  }

  lemma CanGoOn(s: State) returns (e: Event)
    requires Inv(s) && !s.phase.Finished?
    ensures OfDispatcher(e) && CanDo(s, e)
  {
    match s.phase
    case Checking => e := Check;
    case Swapping => e := Swap;
    case Adding(_) => e := Add;
    case Harvesting => e := EndHarvest;
    case Signalling(_, _) => e := Signal;
    case DrainSwapping => e := DrainSwap;
    case DrainQueued(_) => e := DrainSignal;
    case DrainFlight(i) => e := if i < |s.inFlight| then DrainDetach else DrainEnd;
    case DrainDetached(_) => e := DrainNotify;
  }

  function DispatcherSteps(events: seq<Event>, k: nat, later: nat): nat
    requires k <= later <= |events|
  {
    if k == later then 0
    else DispatcherSteps(events, k, later - 1) + if OfDispatcher(events[later - 1]) then 1 else 0
  }

  lemma {:induction false} ShutdownProgresses(run: seq<State>, events: seq<Event>, k: nat, later: nat)
    requires IsRun(run, events) && k <= later < |run| && run[k].stopping
    ensures run[later].stopping
    ensures DispatcherSteps(events, k, later) <= Work(run[k]) - Work(run[later])
    decreases later
  {
    if k < later {
      ShutdownProgresses(run, events, k, later - 1);
      RunInv(run, events, later - 1);
      assert StepAt(run, events, later - 1);
      WorkShrinks(run[later - 1], events[later - 1]);
    }
  }

  /** After shutdown began at step `k`, however workers interleave, the dispatcher thread takes
      at most Work(..) steps, can take another one until it has ended, and when it has ended
      every accepted transfer is signalled, the queue is empty and no handle is attached. */
  lemma ShutdownDrains(run: seq<State>, events: seq<Event>, k: nat, later: nat)
    requires IsRun(run, events) && k <= later < |run| && run[k].stopping
    ensures var s := run[later];
      && s.stopping && s.rejecting
      && DispatcherSteps(events, k, later) <= Work(run[k]) - Work(s)
      && (s.phase.Finished? <==> forall e | OfDispatcher(e) :: !CanDo(s, e))
      && (s.phase.Finished? ==> s.queue == [] && s.multi == {} && forall t | t in s.easy :: Count(s.signals, t) == 1)
  {
    ShutdownProgresses(run, events, k, later);
    RunInv(run, events, later);
    if !run[later].phase.Finished? {
      var e := CanGoOn(run[later]);
      assert CanDo(run[later], e);
    } else {
      AllSignalled(run[later]);
    }
  }

  lemma AllSignalled(s: State)
    requires Inv(s) && s.phase.Finished?
    ensures s.queue == [] && s.multi == {} && forall t | t in s.easy :: Count(s.signals, t) == 1
  {
    forall h
      ensures h !in s.multi
    {
      assert Pointed(s.easy, s.multi, s.private, [], h);
    }
    forall t | t in s.easy
      ensures Count(s.signals, t) == 1
    {
      assert OnePlace([], [], [], s.signals, s.easy, t);
    }
  }
}
