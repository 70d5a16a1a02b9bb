/** Single-flight credential refresh: any number of calls on any number of handles that share one
    refresh lock and one secret store, after requests failed with the same material. */
module CredentialRefresh {
  import opened Prelude
  import opened S3Auth

  /** The calls belong to handles; a handle's own lock admits one of its calls at a time.
      `rejected` is the material all the failed requests were sent with. */
  datatype Config = Config(rejected: Material, preserve: seq<bool>, handleOf: seq<nat>, handles: seq<Material>,
                           store: Material)

  ghost predicate WellFormed(c: Config) {
    && |c.preserve| == |c.handles|
    && (forall i | 0 <= i < |c.handleOf| :: c.handleOf[i] < |c.handles|)
  }

  /** Where a call is in TryRefreshS3AuthMaterial. */
  datatype Pc = Waiting | FirstReload | AwaitLock | SecondReload | Refreshing | ThirdReload | Done(ok: bool)

  datatype State = State(
    store: Material,
    own: seq<Material>,             // the material of each handle
    busy: seq<Option<nat>>,         // the call that holds the handle's lock
    calls: seq<Pc>,
    lock: Option<nat>,              // the call that holds the refresh lock
    refreshes: nat)

  /** Call `i` enters, or takes its next step. A refresh leaves `store` behind; it gives up if
      there is no secret to refresh, or with an exception, perhaps after it changed some. */
  datatype Event = Enter(i: nat) | Step(i: nat) | Refresh(i: nat, store: Material) | GiveUp(i: nat, store: Material)

  function Init(c: Config): State {
    State(c.store, c.handles, seq(|c.handles|, _ => None), seq(|c.handleOf|, _ => Waiting), None, 0)
  }

  /** The stored material as a handle would take it over while it still has the rejected one. */
  function Seen(c: Config, h: nat, store: Material): Material
    requires WellFormed(c) && h < |c.handles|
  {
    Reloaded(store, c.rejected.auth.region, c.preserve[h])
  }

  predicate Shaped(c: Config, s: State) {
    |s.own| == |c.handles| && |s.busy| == |c.handles| && |s.calls| == |c.handleOf|
  }

  predicate CanDo(c: Config, s: State, e: Event)
    requires WellFormed(c) && Shaped(c, s)
  {
    && e.i < |c.handleOf|
    && match e
       case Enter(i) => s.calls[i].Waiting? && s.busy[c.handleOf[i]].None?
       case Step(i) => s.calls[i].FirstReload? || s.calls[i].SecondReload? || s.calls[i].ThirdReload?
                       || (s.calls[i].AwaitLock? && s.lock.None?)
       case Refresh(i, _) => s.calls[i].Refreshing?
       case GiveUp(i, _) => s.calls[i].Refreshing?
  }

  /** A call returns, and its locks are released. */
  function Return(c: Config, s: State, i: nat, ok: bool): (r: State)
    requires WellFormed(c) && Shaped(c, s) && i < |c.handleOf|
    ensures Shaped(c, r)
  {
    s.(calls := s.calls[i := Done(ok)], busy := s.busy[c.handleOf[i] := None],
       lock := if s.lock == Some(i) then None else s.lock)
  }

  /** One reload: on a difference the handle takes the material over and the call returns. */
  function ReloadOr(c: Config, s: State, i: nat, next: Pc): (r: State)
    requires WellFormed(c) && Shaped(c, s) && i < |c.handleOf|
    ensures Shaped(c, r)
  {
    var h := c.handleOf[i];
    var material := Reloaded(s.store, s.own[h].auth.region, c.preserve[h]);
    if material != c.rejected then Return(c, s.(own := s.own[h := material]), i, true)
    else if next.Done? then Return(c, s, i, next.ok)
    else s.(calls := s.calls[i := next])
  }

  function Do(c: Config, s: State, e: Event): (r: State)
    requires WellFormed(c) && Shaped(c, s) && CanDo(c, s, e)
    ensures Shaped(c, r)
  {
    match e
    case Enter(i) =>
      var h := c.handleOf[i];
      if s.own[h] != c.rejected then Return(c, s, i, true)
      else s.(calls := s.calls[i := FirstReload], busy := s.busy[h := Some(i)])
    case Step(i) =>
      (match s.calls[i]
       case FirstReload => ReloadOr(c, s, i, AwaitLock)
       case AwaitLock => s.(calls := s.calls[i := SecondReload], lock := Some(i))
       case SecondReload => ReloadOr(c, s, i, Refreshing)
       case _ => ReloadOr(c, s, i, Done(false)))
    case Refresh(i, store) =>
      s.(store := store, calls := s.calls[i := ThirdReload], refreshes := s.refreshes + 1)
    case GiveUp(i, store) => Return(c, s.(store := store), i, false)
  }

  predicate StepAt(c: Config, run: seq<State>, events: seq<Event>, i: nat)
    requires WellFormed(c) && |run| == |events| + 1 && i < |events|
  {
    && Shaped(c, run[i]) && CanDo(c, run[i], events[i])
    && run[i + 1] == Do(c, run[i], events[i])
  }

  /** The states that these events lead through, from the start. */
  ghost predicate IsRun(c: Config, run: seq<State>, events: seq<Event>) {
    && WellFormed(c) && |run| == |events| + 1 && run[0] == Init(c)
    && forall i | 0 <= i < |events| :: StepAt(c, run, events, i)
  }

  /** A refresh that changes the material as every handle would see it. */
  ghost predicate Changes(c: Config, store: Material)
    requires WellFormed(c)
  {
    forall h | 0 <= h < |c.handles| :: Seen(c, h, store) != c.rejected
  }

  /** Every refresh changes the material. */
  ghost predicate Effective(c: Config, events: seq<Event>)
    requires WellFormed(c)
  {
    forall k | 0 <= k < |events| :: !events[k].GiveUp? && (events[k].Refresh? ==> Changes(c, events[k].store))
  }

  /** A handle for which the store has nothing new: only a refresh can help its calls. */
  predicate Stuck(c: Config, h: nat)
    requires WellFormed(c)
  {
    h < |c.handles| && c.handles[h] == c.rejected && Seen(c, h, c.store) == c.rejected
  }

  predicate Inside(p: Pc) {
    !p.Waiting? && !p.Done?
  }

  predicate UnderLock(p: Pc) {
    p.SecondReload? || p.Refreshing? || p.ThirdReload?
  }

  // ----- Every run: the locks -----

  predicate CallOk(c: Config, own: seq<Material>, busy: seq<Option<nat>>, lock: Option<nat>, p: Pc, i: nat)
    requires WellFormed(c) && i < |c.handleOf| && |own| == |busy| == |c.handles|
  {
    var h := c.handleOf[i];
    && (busy[h] == Some(i) <==> Inside(p))
    && (lock == Some(i) <==> UnderLock(p))
    && (Inside(p) ==> own[h] == c.rejected)
  }

  /** A call about to refresh has seen that the store has nothing new for its handle. */
  predicate Fruitless(c: Config, store: Material, p: Pc, i: nat)
    requires WellFormed(c) && i < |c.handleOf|
  {
    p.Refreshing? ==> Seen(c, c.handleOf[i], store) == c.rejected
  }

  ghost predicate Locks(c: Config, s: State)
    requires WellFormed(c)
  {
    && Shaped(c, s)
    && (forall i | 0 <= i < |s.calls| :: CallOk(c, s.own, s.busy, s.lock, s.calls[i], i))
    && (forall i | 0 <= i < |s.calls| :: Fruitless(c, s.store, s.calls[i], i))
    && (s.lock.Some? ==> s.lock.value < |s.calls|)
    && (forall h | 0 <= h < |s.busy| && s.busy[h].Some? ::
        s.busy[h].value < |s.calls| && c.handleOf[s.busy[h].value] == h)
  }

  predicate Refreshes(e: Event) {
    e.Refresh? || e.GiveUp?
  }

  lemma ReturnKeepsLocks(c: Config, s: State, i: nat, own: Material, ok: bool)
    requires WellFormed(c) && Locks(c, s) && i < |c.handleOf| && (Inside(s.calls[i]) || s.busy[c.handleOf[i]].None?)
    ensures Locks(c, Return(c, s.(own := s.own[c.handleOf[i] := own]), i, ok))
  {
    assert CallOk(c, s.own, s.busy, s.lock, s.calls[i], i);
  }

  lemma ReloadKeepsLocks(c: Config, s: State, i: nat, next: Pc)
    requires WellFormed(c) && Locks(c, s) && i < |c.handleOf| && Inside(s.calls[i])
    requires next.Done? || (s.calls[i].FirstReload? && next.AwaitLock?)
      || (s.calls[i].SecondReload? && next.Refreshing?)
    ensures Locks(c, ReloadOr(c, s, i, next))
  {
    assert CallOk(c, s.own, s.busy, s.lock, s.calls[i], i);
    var h := c.handleOf[i];
    var material := Reloaded(s.store, s.own[h].auth.region, c.preserve[h]);
    if material != c.rejected {
      ReturnKeepsLocks(c, s, i, material, true);
    } else if next.Done? {
      ReturnKeepsLocks(c, s, i, s.own[h], next.ok);
      assert s.own[h := s.own[h]] == s.own;
    }
  }

  lemma RefreshKeepsLocks(c: Config, s: State, e: Event)
    requires WellFormed(c) && Locks(c, s) && CanDo(c, s, e) && Refreshes(e)
    ensures Locks(c, Do(c, s, e))
  {
    var i := e.i;
    assert CallOk(c, s.own, s.busy, s.lock, s.calls[i], i);
    forall k | 0 <= k < |s.calls| && k != i
      ensures Fruitless(c, e.store, s.calls[k], k)
    {
      assert CallOk(c, s.own, s.busy, s.lock, s.calls[k], k);
    }
  }

  lemma StepKeepsLocks(c: Config, s: State, e: Event)
    requires WellFormed(c) && Locks(c, s) && CanDo(c, s, e)
    ensures Locks(c, Do(c, s, e))
  {
    var i := e.i;
    var h, p := c.handleOf[i], s.calls[i];
    if e.Enter? {
      if s.own[h] != c.rejected {
        ReturnKeepsLocks(c, s, i, s.own[h], true);
        assert s.own[h := s.own[h]] == s.own;
      }
    } else if Refreshes(e) {
      RefreshKeepsLocks(c, s, e);
    } else if !p.AwaitLock? {
      ReloadKeepsLocks(c, s, i, if p.FirstReload? then AwaitLock else if p.SecondReload? then Refreshing
                       else Done(false));
    }
  }

  lemma {:induction false} LocksHold(c: Config, run: seq<State>, events: seq<Event>, k: nat)
    requires IsRun(c, run, events) && k < |run|
    ensures Locks(c, run[k])
  {
    if k > 0 {
      LocksHold(c, run, events, k - 1);
      assert StepAt(c, run, events, k - 1);
      StepKeepsLocks(c, run[k - 1], events[k - 1]);
    }
  }

  /** No run gets stuck: as long as some call has not returned, some call can take a step. */
  lemma NoDeadlock(c: Config, run: seq<State>, events: seq<Event>, k: nat, i: nat) returns (e: Event)
    requires IsRun(c, run, events) && k < |run|
    requires i < |run[k].calls| && !run[k].calls[i].Done?
    ensures Shaped(c, run[k]) && CanDo(c, run[k], e)
  {
    LocksHold(c, run, events, k);
    var s := run[k];
    var h := c.handleOf[i];
    var j := if s.calls[i].Waiting? && s.busy[h].Some? then s.busy[h].value else i;
    assert CallOk(c, s.own, s.busy, s.lock, s.calls[i], i);
    var l := if s.calls[j].AwaitLock? && s.lock.Some? then s.lock.value else j;
    assert CallOk(c, s.own, s.busy, s.lock, s.calls[j], j) && CallOk(c, s.own, s.busy, s.lock, s.calls[l], l);
    e := if s.calls[l].Waiting? then Enter(l) else if s.calls[l].Refreshing? then Refresh(l, s.store) else Step(l);
  }

  // ----- Every run: which calls fail and which refreshes run -----

  /** Step `j` makes call `i` fail: its third reload finds what was rejected, or its refresh
      gives up. */
  predicate FailsAt(c: Config, s: State, e: Event, i: nat)
    requires WellFormed(c) && i < |c.handleOf|
  {
    && e.i == i
    && (e.GiveUp? ||
        (e.Step? && i < |s.calls| && s.calls[i].ThirdReload? && Seen(c, c.handleOf[i], s.store) == c.rejected))
  }

  lemma FailsStep(c: Config, s: State, e: Event, i: nat)
    requires WellFormed(c) && Locks(c, s) && CanDo(c, s, e) && i < |c.handleOf|
    ensures Do(c, s, e).calls[i] == Done(false) <==> s.calls[i] == Done(false) || FailsAt(c, s, e, i)
  {
    assert CallOk(c, s.own, s.busy, s.lock, s.calls[e.i], e.i);
  }

  /** A call has returned false if and only if its third reload found what was rejected, or the
      refresh that it ran gave up. */
  lemma {:induction false} FailsIff(c: Config, run: seq<State>, events: seq<Event>, k: nat, i: nat)
    requires IsRun(c, run, events) && k < |run| && i < |c.handleOf|
    ensures Shaped(c, run[k])
    ensures run[k].calls[i] == Done(false) <==> exists j | 0 <= j < k :: FailsAt(c, run[j], events[j], i)
  {
    LocksHold(c, run, events, k);
    if k > 0 {
      FailsIff(c, run, events, k - 1, i);
      LocksHold(c, run, events, k - 1);
      assert StepAt(c, run, events, k - 1);
      FailsStep(c, run[k - 1], events[k - 1], i);
    }
  }

  /** A refresh only runs under the lock, while the store has nothing new for the handle. */
  lemma RefreshIsNeeded(c: Config, run: seq<State>, events: seq<Event>, j: nat)
    requires IsRun(c, run, events) && j < |events| && Refreshes(events[j])
    ensures var i := events[j].i;
      && i < |c.handleOf| && run[j].lock == Some(i)
      && Seen(c, c.handleOf[i], run[j].store) == c.rejected
  {
    LocksHold(c, run, events, j);
    assert StepAt(c, run, events, j);
    var i := events[j].i;
    assert CallOk(c, run[j].own, run[j].busy, run[j].lock, run[j].calls[i], i);
    assert Fruitless(c, run[j].store, run[j].calls[i], i);
  }

  lemma {:induction false} StoreStays(c: Config, run: seq<State>, events: seq<Event>, j: nat, k: nat)
    requires IsRun(c, run, events) && j <= k < |run| && forall m | j <= m < k :: !Refreshes(events[m])
    ensures run[k].store == run[j].store
  {
    if j < k {
      StoreStays(c, run, events, j, k - 1);
      assert StepAt(c, run, events, k - 1);
    }
  }

  /** No refresh runs after one that changed the material for all handles, whatever the others
      did: in any run at most one refresh does so, and it is the last one. */
  lemma {:induction false} ChangeIsLast(c: Config, run: seq<State>, events: seq<Event>, j: nat, k: nat)
    requires IsRun(c, run, events) && j < k < |events| && Refreshes(events[j]) && Refreshes(events[k])
    ensures !Changes(c, events[j].store)
  {
    if m :| j < m < k && Refreshes(events[m]) {
      ChangeIsLast(c, run, events, j, m);
    } else {
      assert StepAt(c, run, events, j);
      StoreStays(c, run, events, j + 1, k);
      RefreshIsNeeded(c, run, events, k);
    }
  }

  /** Step `j` is the reload with which call `i` begins, and finds nothing new. */
  predicate LooksInVain(c: Config, s: State, e: Event, i: nat)
    requires WellFormed(c) && i < |c.handleOf|
  {
    e == Step(i) && i < |s.calls| && s.calls[i].FirstReload? && Seen(c, c.handleOf[i], s.store) == c.rejected
  }

  predicate PastFirst(p: Pc) {
    p.AwaitLock? || UnderLock(p)
  }

  lemma LooksStep(c: Config, s: State, e: Event, i: nat)
    requires WellFormed(c) && Locks(c, s) && CanDo(c, s, e) && i < |c.handleOf|
    ensures PastFirst(Do(c, s, e).calls[i]) ==> PastFirst(s.calls[i]) || LooksInVain(c, s, e, i)
  {
    assert CallOk(c, s.own, s.busy, s.lock, s.calls[e.i], e.i);
  }

  /** In every run a call waits for the refresh lock, or holds it, only after a look at the store without
      the lock found nothing new for its handle. */
  lemma {:induction false} LockIsNeeded(c: Config, run: seq<State>, events: seq<Event>, k: nat, i: nat)
    requires IsRun(c, run, events) && k < |run| && i < |c.handleOf|
    ensures Shaped(c, run[k])
    ensures run[k].calls[i].AwaitLock? || run[k].lock == Some(i) ==>
      exists j | 0 <= j < k :: LooksInVain(c, run[j], events[j], i)
    ensures PastFirst(run[k].calls[i]) ==> exists j | 0 <= j < k :: LooksInVain(c, run[j], events[j], i)
  {
    LocksHold(c, run, events, k);
    assert CallOk(c, run[k].own, run[k].busy, run[k].lock, run[k].calls[i], i);
    if k > 0 {
      LockIsNeeded(c, run, events, k - 1, i);
      LocksHold(c, run, events, k - 1);
      assert StepAt(c, run, events, k - 1);
      LooksStep(c, run[k - 1], events[k - 1], i);
    }
  }

  // ----- Every run: what the handles have -----

  /** The call of step `j` returns true with material for handle `h` that was in the store at that time,
      and that is not what was rejected. */
  ghost predicate TakesAt(c: Config, s: State, e: Event, t: State, h: nat, m: Material)
    requires WellFormed(c) && h < |c.handles|
  {
    && e.Step? && e.i < |c.handleOf| && c.handleOf[e.i] == h
    && e.i < |t.calls| && t.calls[e.i] == Done(true)
    && Adopts(s.store, c.rejected.auth.region, c.preserve[h], m) && m != c.rejected
  }

  /** A call that has returned true leaves its handle without the rejected material. */
  predicate Usable(c: Config, own: seq<Material>, p: Pc, i: nat)
    requires WellFormed(c) && i < |c.handleOf| && |own| == |c.handles|
  {
    p == Done(true) ==> own[c.handleOf[i]] != c.rejected
  }

  lemma StepTakes(c: Config, s: State, e: Event, h: nat)
    requires WellFormed(c) && Locks(c, s) && CanDo(c, s, e) && h < |c.handles|
    ensures var t := Do(c, s, e);
      t.own[h] == s.own[h] || (s.own[h] == c.rejected && TakesAt(c, s, e, t, h, t.own[h]))
  {
    assert CallOk(c, s.own, s.busy, s.lock, s.calls[e.i], e.i);
    var t := Do(c, s, e);
    ReloadAdopts(s.store, c.rejected.auth.region, c.preserve[c.handleOf[e.i]], t.own[c.handleOf[e.i]]);
  }

  lemma StepUsable(c: Config, s: State, e: Event, i: nat)
    requires WellFormed(c) && Locks(c, s) && CanDo(c, s, e) && i < |c.handleOf|
    requires Usable(c, s.own, s.calls[i], i)
    ensures Usable(c, Do(c, s, e).own, Do(c, s, e).calls[i], i)
  {
    assert CallOk(c, s.own, s.busy, s.lock, s.calls[e.i], e.i);
  }

  /** In every run a call that has returned true has left its handle with material other than the
      rejected one, and no later step takes that away. */
  lemma {:induction false} SuccessIsUsable(c: Config, run: seq<State>, events: seq<Event>, k: nat, i: nat)
    requires IsRun(c, run, events) && k < |run| && i < |c.handleOf|
    ensures Shaped(c, run[k])
    ensures run[k].calls[i] == Done(true) ==> run[k].own[c.handleOf[i]] != c.rejected
  {
    LocksHold(c, run, events, k);
    if k > 0 {
      SuccessIsUsable(c, run, events, k - 1, i);
      LocksHold(c, run, events, k - 1);
      assert StepAt(c, run, events, k - 1);
      StepUsable(c, run[k - 1], events[k - 1], i);
    }
  }

  /** In every run a handle has the material it started with, or what it has taken over once from the
      store, as it was when one of its calls returned true with it. */
  lemma {:induction false} MaterialIsFromStore(c: Config, run: seq<State>, events: seq<Event>, k: nat, h: nat)
    requires IsRun(c, run, events) && k < |run| && h < |c.handles|
    ensures Shaped(c, run[k])
    ensures
      || run[k].own[h] == c.handles[h]
      || (c.handles[h] == c.rejected &&
          exists j | 0 <= j < k :: TakesAt(c, run[j], events[j], run[j + 1], h, run[k].own[h]))
  {
    LocksHold(c, run, events, k);
    if k > 0 {
      MaterialIsFromStore(c, run, events, k - 1, h);
      LocksHold(c, run, events, k - 1);
      assert StepAt(c, run, events, k - 1);
      StepTakes(c, run[k - 1], events[k - 1], h);
    }
  }

  // ----- Every run: its length -----

  /** How many steps a call takes at most. */
  function StepsLeft(p: Pc): nat {
    match p
    case Waiting => 6
    case FirstReload => 5
    case AwaitLock => 4
    case SecondReload => 3
    case Refreshing => 2
    case ThirdReload => 1
    case Done(_) => 0
  }

  function AllStepsLeft(calls: seq<Pc>): nat {
    if calls == [] then 0 else AllStepsLeft(calls[..|calls| - 1]) + StepsLeft(calls[|calls| - 1])
  }

  lemma {:induction false} FewerStepsLeft(calls: seq<Pc>, i: nat, p: Pc)
    requires i < |calls| && StepsLeft(p) < StepsLeft(calls[i])
    ensures AllStepsLeft(calls[i := p]) < AllStepsLeft(calls)
  {
    var n := |calls| - 1;
    if i < n {
      FewerStepsLeft(calls[..n], i, p);
      assert calls[i := p][..n] == calls[..n][i := p];
    } else {
      assert calls[i := p][..n] == calls[..n];
    }
  }

  lemma StepAdvances(c: Config, s: State, e: Event)
    requires WellFormed(c) && Shaped(c, s) && CanDo(c, s, e)
    ensures var t := Do(c, s, e);
      t.calls == s.calls[e.i := t.calls[e.i]] && StepsLeft(t.calls[e.i]) < StepsLeft(s.calls[e.i])
  {
  }

  lemma {:induction false} AtMostSix(calls: seq<Pc>)
    ensures AllStepsLeft(calls) <= 6 * |calls|
  {
    if calls != [] {
      AtMostSix(calls[..|calls| - 1]);
    }
  }

  /** Every run is over after six steps a call; with NoDeadlock, every call returns. */
  lemma {:induction false} RunsEnd(c: Config, run: seq<State>, events: seq<Event>, k: nat)
    requires IsRun(c, run, events) && k < |run|
    ensures k + AllStepsLeft(run[k].calls) <= 6 * |c.handleOf|
  {
    if k == 0 {
      AtMostSix(run[0].calls);
    } else {
      RunsEnd(c, run, events, k - 1);
      assert StepAt(c, run, events, k - 1);
      var s, e := run[k - 1], events[k - 1];
      StepAdvances(c, s, e);
      FewerStepsLeft(s.calls, e.i, run[k].calls[e.i]);
    }
  }

  // ----- Runs whose refreshes change the material -----

  /** What a call knows about the refreshes so far. */
  predicate Progress(c: Config, store: Material, refreshes: nat, p: Pc, h: nat)
    requires WellFormed(c) && h < |c.handles|
  {
    match p
    case Refreshing => refreshes == 0 && Stuck(c, h)
    case ThirdReload => refreshes == 1
    case Done(ok) => ok && (Stuck(c, h) ==> refreshes == 1)
    case _ => true
  }

  /** A handle that has the rejected material had it from the start; one that could not do
      without a refresh only changes after it. */
  predicate OwnOk(c: Config, own: Material, refreshes: nat, h: nat)
    requires WellFormed(c) && h < |c.handles|
  {
    && (own == c.rejected ==> c.handles[h] == c.rejected)
    && (own != c.rejected && Stuck(c, h) ==> refreshes == 1)
  }

  ghost predicate SingleFlight(c: Config, s: State)
    requires WellFormed(c) && Shaped(c, s)
  {
    && s.refreshes <= 1
    && (s.refreshes == 0 ==> s.store == c.store)
    && (s.refreshes == 1 ==> Changes(c, s.store) && exists i | 0 <= i < |s.calls| :: Stuck(c, c.handleOf[i]))
    && (forall i | 0 <= i < |s.calls| :: Progress(c, s.store, s.refreshes, s.calls[i], c.handleOf[i]))
    && (forall h | 0 <= h < |s.own| :: OwnOk(c, s.own[h], s.refreshes, h))
  }

  ghost predicate Inv(c: Config, s: State)
    requires WellFormed(c)
  {
    Locks(c, s) && SingleFlight(c, s)
  }

  lemma EnterKeeps(c: Config, s: State, i: nat)
    requires WellFormed(c) && Inv(c, s) && CanDo(c, s, Enter(i))
    ensures SingleFlight(c, Do(c, s, Enter(i)))
  {
  }

  /** A reload that finds a difference: the call returns with it. */
  lemma TakeOverKeeps(c: Config, s: State, i: nat)
    requires WellFormed(c) && Inv(c, s) && i < |c.handleOf| && Inside(s.calls[i])
    requires Seen(c, c.handleOf[i], s.store) != c.rejected
    ensures var h := c.handleOf[i];
      SingleFlight(c, Return(c, s.(own := s.own[h := Seen(c, h, s.store)]), i, true))
  {
    var h := c.handleOf[i];
    assert CallOk(c, s.own, s.busy, s.lock, s.calls[i], i);
    assert Stuck(c, h) ==> s.refreshes == 1;
  }

  lemma NextReloadKeeps(c: Config, s: State, i: nat, next: Pc)
    requires WellFormed(c) && Inv(c, s) && i < |c.handleOf| && Inside(s.calls[i])
    requires Seen(c, c.handleOf[i], s.store) == c.rejected && !s.calls[i].ThirdReload?
    requires (s.calls[i].FirstReload? && next.AwaitLock?) || (s.calls[i].SecondReload? && next.Refreshing?)
    ensures SingleFlight(c, s.(calls := s.calls[i := next]))
  {
    var h := c.handleOf[i];
    assert CallOk(c, s.own, s.busy, s.lock, s.calls[i], i);
    assert s.refreshes == 0;
    assert OwnOk(c, s.own[h], s.refreshes, h);
  }

  lemma ReloadKeeps(c: Config, s: State, i: nat)
    requires WellFormed(c) && Inv(c, s) && CanDo(c, s, Step(i)) && !s.calls[i].AwaitLock?
    ensures SingleFlight(c, Do(c, s, Step(i)))
  {
    var h := c.handleOf[i];
    assert CallOk(c, s.own, s.busy, s.lock, s.calls[i], i);
    assert Reloaded(s.store, s.own[h].auth.region, c.preserve[h]) == Seen(c, h, s.store);
    if Seen(c, h, s.store) != c.rejected {
      TakeOverKeeps(c, s, i);
    } else {
      NextReloadKeeps(c, s, i, if s.calls[i].FirstReload? then AwaitLock else Refreshing);
    }
  }

  lemma RefreshKeeps(c: Config, s: State, i: nat, store: Material)
    requires WellFormed(c) && Inv(c, s) && CanDo(c, s, Refresh(i, store)) && Changes(c, store)
    ensures SingleFlight(c, Do(c, s, Refresh(i, store)))
  {
    assert Stuck(c, c.handleOf[i]);
  }

  lemma StepKeeps(c: Config, s: State, e: Event)
    requires WellFormed(c) && Inv(c, s) && CanDo(c, s, e) && !e.GiveUp? && (e.Refresh? ==> Changes(c, e.store))
    ensures Inv(c, Do(c, s, e))
  {
    StepKeepsLocks(c, s, e);
    match e
    case Enter(i) => EnterKeeps(c, s, i);
    case Step(i) =>
      if !s.calls[i].AwaitLock? {
        ReloadKeeps(c, s, i);
      }
    case Refresh(i, store) => RefreshKeeps(c, s, i, store);
  }

  /** The invariant holds in every state of every run whose refreshes change the material. */
  lemma {:induction false} RunInv(c: Config, run: seq<State>, events: seq<Event>, k: nat)
    requires IsRun(c, run, events) && Effective(c, events) && k < |run|
    ensures Inv(c, run[k])
  {
    if k == 0 {
      InitInv(c);
    } else {
      RunInv(c, run, events, k - 1);
      assert StepAt(c, run, events, k - 1);
      StepKeeps(c, run[k - 1], events[k - 1]);
    }
  }

  lemma InitInv(c: Config)
    requires WellFormed(c)
    ensures Inv(c, Init(c))
  {
  }

  /** In every interleaving in which refreshes change the material, every call that returns
      reports success, at most one refresh runs, and when all calls have returned exactly one
      ran if some handle could not do without, none otherwise. */
  lemma OneRefreshForAll(c: Config, run: seq<State>, events: seq<Event>, k: nat)
    requires IsRun(c, run, events) && Effective(c, events) && k < |run|
    ensures var s := run[k];
      && s.refreshes <= 1 && |s.calls| == |c.handleOf|
      && |s.own| == |c.handles|
      && (forall i | 0 <= i < |s.calls| && s.calls[i].Done? ::
           s.calls[i].ok && s.own[c.handleOf[i]] != c.rejected)
      && ((forall i | 0 <= i < |s.calls| :: s.calls[i].Done?) ==>
          (s.refreshes == 1 <==> exists i | 0 <= i < |s.calls| :: Stuck(c, c.handleOf[i])))
  {
    RunInv(c, run, events, k);
    var s := run[k];
    forall i | 0 <= i < |s.calls| && s.calls[i].Done?
      ensures s.calls[i].ok && (Stuck(c, c.handleOf[i]) ==> s.refreshes == 1) && s.own[c.handleOf[i]] != c.rejected
    {
      SuccessIsUsable(c, run, events, k, i);
      assert Progress(c, s.store, s.refreshes, s.calls[i], c.handleOf[i]);
    }
  }
}
