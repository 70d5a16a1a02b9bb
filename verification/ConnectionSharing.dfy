/** Any number of threads that find and store clients in one connection cache. A visit of a pool
    is atomic, under the pool's lock; between two visits of a probe the other threads go on. */
module ConnectionSharing {
  import opened ConnectionCache
  import opened Prelude

  /** Where a thread is: idle, or at turn `i` of a probe. `again` marks the second pass of a
      store. */
  datatype Pc = Idle | Finding(url: string, start: nat, i: nat) | Storing(start: nat, i: nat, again: bool)

  /** `slots` are the pools one after the other, `hands` what each thread owns, `destroyed` the
      clients that are gone and `known` all clients there have been. */
  datatype State = State(slots: seq<Slot>, hands: seq<Slot>, destroyed: seq<Slot>, pcs: seq<Pc>, known: set<nat>)

  datatype Event =
    | Create(t: nat, client: Client)            // a new connection
    | CallFind(t: nat, url: string, start: nat)
    | CallStore(t: nat, start: nat)
    | Visit(t: nat, busy: bool, random: nat)    // the next turn of the thread's probe

  function Init(threads: nat): State {
    State(seq(POOL_COUNT * POOL_SIZE, _ => None), seq(threads, _ => None), [], seq(threads, _ => Idle), {})
  }

  /** The first slot of a pool, from its `j`-th on, that holds the URL, or is empty when no URL
      is asked for; -1 if there is none. */
  function FirstSlot(slots: seq<Slot>, pool: nat, url: Option<string>, j: nat): (k: int)
    requires |slots| == POOL_COUNT * POOL_SIZE && pool < POOL_COUNT && j <= POOL_SIZE
    ensures k == -1 || (pool * POOL_SIZE + j <= k < (pool + 1) * POOL_SIZE && Suits(slots[k], url))
    ensures forall m | pool * POOL_SIZE + j <= m < (if k == -1 then (pool + 1) * POOL_SIZE else k) ::
              !Suits(slots[m], url)
    decreases POOL_SIZE - j
  {
    if j == POOL_SIZE then -1
    else if Suits(slots[pool * POOL_SIZE + j], url) then pool * POOL_SIZE + j
    else FirstSlot(slots, pool, url, j + 1)
  }

  predicate Suits(s: Slot, url: Option<string>) {
    if url.None? then s.None? else s.Some? && s.value.baseUrl == url.value
  }

  predicate Shaped(s: State) {
    |s.slots| == POOL_COUNT * POOL_SIZE && |s.hands| == |s.pcs|
  }

  predicate CanDo(s: State, e: Event)
    requires Shaped(s)
  {
    && e.t < |s.pcs|
    && match e
       case Create(t, client) => s.pcs[t].Idle? && s.hands[t].None? && client.id !in s.known
       case CallFind(t, url, start) => s.pcs[t].Idle? && s.hands[t].None? && url != "" && start < POOL_COUNT
       case CallStore(t, start) => s.pcs[t].Idle? && s.hands[t].Some? && s.hands[t].value.baseUrl != ""
         && start < POOL_COUNT
       case Visit(t, _, _) => !s.pcs[t].Idle?
  }

  /** The client in `t`'s hands goes into slot `k`, over whatever is there. */
  function Put(s: State, t: nat, k: nat): (r: State)
    requires Shaped(s) && t < |s.pcs| && k < |s.slots|
    ensures Shaped(r)
  {
    var gone := if s.slots[k].Some? then [s.slots[k]] else [];
    State(s.slots[k := s.hands[t]], s.hands[t := None], s.destroyed + gone, s.pcs[t := Idle], s.known)
  }

  function FindVisit(s: State, t: nat, busy: bool): (r: State)
    requires Shaped(s) && t < |s.pcs| && s.pcs[t].Finding?
    ensures Shaped(r)
  {
    var pc := s.pcs[t];
    if pc.i >= POOL_COUNT then s.(pcs := s.pcs[t := Idle])
    else
      var k := if busy then -1 else FirstSlot(s.slots, Probe(pc.start, pc.i), Some(pc.url), 0);
      if k >= 0 then
        s.(slots := s.slots[k := None], hands := s.hands[t := s.slots[k]], pcs := s.pcs[t := Idle])
      else s.(pcs := s.pcs[t := Finding(pc.url, pc.start, pc.i + 1)])
  }

  function StoreVisit(s: State, t: nat, busy: bool, random: nat): (r: State)
    requires Shaped(s) && t < |s.pcs| && s.pcs[t].Storing?
    ensures Shaped(r)
  {
    var pc := s.pcs[t];
    if pc.i >= POOL_COUNT then
      if !pc.again then s.(pcs := s.pcs[t := Storing(pc.start, 0, true)])
      else s.(hands := s.hands[t := None], destroyed := s.destroyed + [s.hands[t]], pcs := s.pcs[t := Idle])
    else if busy then s.(pcs := s.pcs[t := Storing(pc.start, pc.i + 1, pc.again)])
    else
      var pool := Probe(pc.start, pc.i);
      var k := if pc.again then pool * POOL_SIZE + random % POOL_SIZE else FirstSlot(s.slots, pool, None, 0);
      if k >= 0 then Put(s, t, k) else s.(pcs := s.pcs[t := Storing(pc.start, pc.i + 1, pc.again)])
  }

  function Do(s: State, e: Event): (r: State)
    requires Shaped(s) && CanDo(s, e)
    ensures Shaped(r)
  {
    match e
    case Create(t, client) => s.(hands := s.hands[t := Some(client)], known := s.known + {client.id})
    case CallFind(t, url, start) => s.(pcs := s.pcs[t := Finding(url, start, 0)])
    case CallStore(t, start) => s.(pcs := s.pcs[t := Storing(start, 0, false)])
    case Visit(t, busy, random) => if s.pcs[t].Finding? then FindVisit(s, t, busy) else StoreVisit(s, t, busy, random)
  }

  predicate StepAt(run: seq<State>, events: seq<Event>, i: nat)
    requires |run| == |events| + 1 && i < |events|
  {
    Shaped(run[i]) && CanDo(run[i], events[i]) && run[i + 1] == Do(run[i], events[i])
  }

  /** The states that these events lead through, from the empty cache. */
  ghost predicate IsRun(threads: nat, run: seq<State>, events: seq<Event>) {
    && |run| == |events| + 1 && run[0] == Init(threads)
    && forall i | 0 <= i < |events| :: StepAt(run, events, i)
  }

  // ----- Where a client is -----

  function Is(s: Slot, id: nat): nat {
    if s.Some? && s.value.id == id then 1 else 0
  }

  function Count(places: seq<Slot>, id: nat): nat {
    if places == [] then 0 else Count(places[..|places| - 1], id) + Is(places[|places| - 1], id)
  }

  lemma {:induction false} CountUpdate(places: seq<Slot>, k: nat, x: Slot, id: nat)
    requires k < |places|
    ensures Count(places[k := x], id) + Is(places[k], id) == Count(places, id) + Is(x, id)
  {
    var n := |places| - 1;
    if k == n {
      assert places[k := x][..n] == places[..n];
    } else {
      assert places[k := x][..n] == places[..n][k := x];
      CountUpdate(places[..n], k, x, id);
    }
  }

  lemma CountSnoc(places: seq<Slot>, x: Slot, id: nat)
    ensures Count(places + [x], id) == Count(places, id) + Is(x, id)
  {
    assert (places + [x])[..|places|] == places;
  }

  lemma {:induction false} CountAt(places: seq<Slot>, k: nat, id: nat)
    requires k < |places| && Is(places[k], id) == 1
    ensures Count(places, id) >= 1
  {
    if k < |places| - 1 {
      CountAt(places[..|places| - 1], k, id);
    }
  }

  lemma {:induction false} CountNone(places: seq<Slot>, id: nat)
    requires forall k | 0 <= k < |places| :: places[k] == None
    ensures Count(places, id) == 0
  {
    if places != [] {
      CountNone(places[..|places| - 1], id);
    }
  }

  /** A client is in exactly one place: a slot, a thread's hands, or gone. */
  predicate Owned(s: State, id: nat) {
    Count(s.slots, id) + Count(s.hands, id) + Count(s.destroyed, id) == if id in s.known then 1 else 0
  }

  /** A thread that stores has the client in its hands; one that looks for one has none. */
  predicate HandsOk(s: State, t: nat)
    requires Shaped(s) && t < |s.pcs|
  {
    (s.pcs[t].Storing? ==> s.hands[t].Some?) && (s.pcs[t].Finding? ==> s.hands[t].None?)
  }

  ghost predicate Inv(s: State) {
    && Shaped(s)
    && (forall id :: Owned(s, id))
    && (forall t | 0 <= t < |s.pcs| :: HandsOk(s, t))
  }

  lemma InitInv(threads: nat)
    ensures Inv(Init(threads))
  {
    var s := Init(threads);
    forall id
      ensures Owned(s, id)
    {
      CountNone(s.slots, id);
      CountNone(s.hands, id);
    }
  }

  lemma CreateOwns(s: State, t: nat, client: Client, id: nat)
    requires Shaped(s) && CanDo(s, Create(t, client)) && Owned(s, id)
    ensures Owned(Do(s, Create(t, client)), id)
  {
    CountUpdate(s.hands, t, Some(client), id);
  }

  lemma FindVisitOwns(s: State, t: nat, busy: bool, id: nat)
    requires Shaped(s) && t < |s.pcs| && s.pcs[t].Finding? && s.hands[t].None? && Owned(s, id)
    ensures Owned(FindVisit(s, t, busy), id)
  {
    var pc := s.pcs[t];
    if pc.i < POOL_COUNT && !busy {
      var k := FirstSlot(s.slots, Probe(pc.start, pc.i), Some(pc.url), 0);
      if k >= 0 {
        CountUpdate(s.slots, k, None, id);
        CountUpdate(s.hands, t, s.slots[k], id);
      }
    }
  }

  lemma PutOwns(s: State, t: nat, k: nat, id: nat)
    requires Shaped(s) && t < |s.pcs| && k < |s.slots| && Owned(s, id)
    ensures Owned(Put(s, t, k), id)
  {
    CountUpdate(s.slots, k, s.hands[t], id);
    CountUpdate(s.hands, t, None, id);
    CountSnoc(s.destroyed, s.slots[k], id);
    assert s.destroyed + [] == s.destroyed;
  }

  lemma StoreVisitOwns(s: State, t: nat, busy: bool, random: nat, id: nat)
    requires Shaped(s) && t < |s.pcs| && s.pcs[t].Storing? && Owned(s, id)
    ensures Owned(StoreVisit(s, t, busy, random), id)
  {
    var pc := s.pcs[t];
    if pc.i >= POOL_COUNT {
      if pc.again {
        CountUpdate(s.hands, t, None, id);
        CountSnoc(s.destroyed, s.hands[t], id);
      }
    } else if !busy {
      var pool := Probe(pc.start, pc.i);
      var k := if pc.again then pool * POOL_SIZE + random % POOL_SIZE else FirstSlot(s.slots, pool, None, 0);
      if k >= 0 {
        PutOwns(s, t, k, id);
      }
    }
  }

  lemma StepOwns(s: State, e: Event, id: nat)
    requires Inv(s) && CanDo(s, e)
    ensures Owned(Do(s, e), id)
  {
    assert Owned(s, id) && HandsOk(s, e.t);
    match e
    case Create(t, client) => CreateOwns(s, t, client, id);
    case Visit(t, busy, random) =>
      if s.pcs[t].Finding? {
        FindVisitOwns(s, t, busy, id);
      } else {
        StoreVisitOwns(s, t, busy, random, id);
      }
    case _ =>
  }

  lemma StepKeeps(s: State, e: Event)
    requires Inv(s) && CanDo(s, e)
    ensures Inv(Do(s, e))
  {
    var r := Do(s, e);
    forall id
      ensures Owned(r, id)
    {
      StepOwns(s, e, id);
    }
    forall t | 0 <= t < |r.pcs|
      ensures HandsOk(r, t)
    {
      assert HandsOk(s, t);
    }
  }

  /** The invariant holds in every state of every run. */
  lemma {:induction false} RunInv(threads: nat, run: seq<State>, events: seq<Event>, k: nat)
    requires IsRun(threads, run, events) && k < |run|
    ensures Inv(run[k])
  {
    if k == 0 {
      InitInv(threads);
    } else {
      RunInv(threads, run, events, k - 1);
      assert StepAt(run, events, k - 1);
      StepKeeps(run[k - 1], events[k - 1]);
    }
  }

  /** In every interleaving a client is in exactly one place from its creation on, so no client
      is in two slots, none is cached while a thread uses it, and no two threads use the same. */
  lemma OneOwner(threads: nat, run: seq<State>, events: seq<Event>, k: nat, id: nat)
    requires IsRun(threads, run, events) && k < |run|
    ensures var s := run[k];
      && Count(s.slots, id) + Count(s.hands, id) + Count(s.destroyed, id) == (if id in s.known then 1 else 0)
      && forall i, j | 0 <= i < |s.slots| && 0 <= j < |s.hands| :: Is(s.slots[i], id) + Is(s.hands[j], id) <= 1
  {
    RunInv(threads, run, events, k);
    var s := run[k];
    assert Owned(s, id);
    forall i, j | 0 <= i < |s.slots| && 0 <= j < |s.hands|
      ensures Is(s.slots[i], id) + Is(s.hands[j], id) <= 1
    {
      if Is(s.slots[i], id) == 1 && Is(s.hands[j], id) == 1 {
        CountAt(s.slots, i, id);
        CountAt(s.hands, j, id);
      }
    }
  }

  /** Slot `k` is in the pool that a probe from `start` visits `i`-th. */
  predicate InPool(k: int, start: nat, i: nat) {
    var pool := (start + i) % POOL_COUNT;
    pool * POOL_SIZE <= k < (pool + 1) * POOL_SIZE
  }

  predicate HasUrl(s: Slot, url: string) {
    s.Some? && s.value.baseUrl == url
  }

  /** The probe goes on to the next pool, with nothing changed, if there was nothing to take; otherwise it
      ends with a client of the pool in hand, from the first slot there that has the URL. */
  ghost predicate Takes(s: State, r: State, t: nat, m: int)
    requires Shaped(s) && Shaped(r) && t < |s.pcs| == |r.pcs| && s.pcs[t].Finding?
  {
    var pc := s.pcs[t];
    if m == -1 then
      && (forall n | 0 <= n < |s.slots| && InPool(n, pc.start, pc.i) :: !HasUrl(s.slots[n], pc.url))
      && r.pcs[t] == Finding(pc.url, pc.start, pc.i + 1) && r.slots == s.slots && r.hands == s.hands
    else
      && 0 <= m < |s.slots| && InPool(m, pc.start, pc.i) && HasUrl(s.slots[m], pc.url)
      && (forall n | 0 <= n < m && InPool(n, pc.start, pc.i) :: !HasUrl(s.slots[n], pc.url))
      && r.pcs[t] == Idle && r.slots == s.slots[m := None] && r.hands == s.hands[t := s.slots[m]]
  }

  lemma FindTakes(s: State, t: nat) returns (m: int)
    requires Shaped(s) && t < |s.pcs| && s.pcs[t].Finding? && s.pcs[t].i < POOL_COUNT
    ensures Takes(s, FindVisit(s, t, false), t, m)
  {
    var pc := s.pcs[t];
    m := FirstSlot(s.slots, Probe(pc.start, pc.i), Some(pc.url), 0);
    forall n | 0 <= n < |s.slots| && InPool(n, pc.start, pc.i) && (m == -1 || n < m)
      ensures !HasUrl(s.slots[n], pc.url)
    {
      assert !Suits(s.slots[n], Some(pc.url));
    }
  }

  /** A visit of a find that gets at the pool takes the client of the first slot there with the URL; it
      goes on to the next pool only if there is none. */
  lemma FindVisitTakes(threads: nat, run: seq<State>, events: seq<Event>, k: nat) returns (m: int)
    requires IsRun(threads, run, events) && k < |events| && events[k].Visit? && !events[k].busy
    requires events[k].t < |run[k].pcs| && run[k].pcs[events[k].t].Finding? && run[k].pcs[events[k].t].i < POOL_COUNT
    ensures Shaped(run[k]) && Shaped(run[k + 1]) && |run[k + 1].pcs| == |run[k].pcs|
    ensures Takes(run[k], run[k + 1], events[k].t, m)
  {
    assert StepAt(run, events, k);
    m := FindTakes(run[k], events[k].t);
  }

  /** The second pass puts the client over a slot that the random number picks; the first one only into an
      empty slot, and goes on if and only if the pool has none. */
  ghost predicate Puts(s: State, r: State, t: nat, random: nat, m: int)
    requires Shaped(s) && Shaped(r) && t < |s.pcs| == |r.pcs| && s.pcs[t].Storing?
  {
    var pc := s.pcs[t];
    if m == -1 then
      && !pc.again && (forall n | 0 <= n < |s.slots| && InPool(n, pc.start, pc.i) :: s.slots[n].Some?)
      && r.pcs[t] == Storing(pc.start, pc.i + 1, false) && r.slots == s.slots && r.hands == s.hands
    else
      && 0 <= m < |s.slots| && InPool(m, pc.start, pc.i)
      && (if pc.again then m % POOL_SIZE == random % POOL_SIZE
          else s.slots[m].None? && forall n | 0 <= n < m && InPool(n, pc.start, pc.i) :: s.slots[n].Some?)
      && r.pcs[t] == Idle && r.slots == s.slots[m := s.hands[t]] && r.hands == s.hands[t := None]
  }

  lemma StorePuts(s: State, t: nat, random: nat) returns (m: int)
    requires Shaped(s) && t < |s.pcs| && s.pcs[t].Storing? && s.pcs[t].i < POOL_COUNT
    ensures Puts(s, StoreVisit(s, t, false, random), t, random, m)
  {
    var pc := s.pcs[t];
    var pool := Probe(pc.start, pc.i);
    if pc.again {
      m := pool * POOL_SIZE + random % POOL_SIZE;
      InSlot(pool, random % POOL_SIZE);
    } else {
      m := FirstSlot(s.slots, pool, None, 0);
      forall n | 0 <= n < |s.slots| && InPool(n, pc.start, pc.i) && (m == -1 || n < m)
        ensures s.slots[n].Some?
      {
        assert !Suits(s.slots[n], None);
      }
    }
  }

  lemma InSlot(pool: nat, j: nat)
    requires j < POOL_SIZE
    ensures (pool * POOL_SIZE + j) % POOL_SIZE == j
  {
  }

  /** A visit of a store that gets at the pool. */
  lemma StoreVisitPuts(threads: nat, run: seq<State>, events: seq<Event>, k: nat) returns (m: int)
    requires IsRun(threads, run, events) && k < |events| && events[k].Visit? && !events[k].busy
    requires events[k].t < |run[k].pcs| && run[k].pcs[events[k].t].Storing? && run[k].pcs[events[k].t].i < POOL_COUNT
    ensures Shaped(run[k]) && Shaped(run[k + 1]) && |run[k + 1].pcs| == |run[k].pcs|
    ensures Puts(run[k], run[k + 1], events[k].t, events[k].random, m)
  {
    assert StepAt(run, events, k);
    m := StorePuts(run[k], events[k].t, events[k].random);
  }

  // ----- What a whole probe has seen -----

  /** Step `j` is the visit of turn `i` of thread `t`'s find, and leaves nothing but the next turn: the
      pool was busy or had no client with the URL. */
  ghost predicate Misses(run: seq<State>, events: seq<Event>, j: nat, t: nat, url: string, start: nat, i: nat)
    requires |run| == |events| + 1 && j < |events|
  {
    && events[j].Visit? && events[j].t == t && t < |run[j].pcs| && run[j].pcs[t] == Finding(url, start, i)
    && (events[j].busy ||
        forall n | 0 <= n < |run[j].slots| && InPool(n, start, i) :: !HasUrl(run[j].slots[n], url))
  }

  /** The same for a store: the pool was busy or, in the first pass, had no empty slot. */
  ghost predicate Skips(run: seq<State>, events: seq<Event>, j: nat, t: nat, start: nat, i: nat, again: bool)
    requires |run| == |events| + 1 && j < |events|
  {
    && events[j].Visit? && events[j].t == t && t < |run[j].pcs| && run[j].pcs[t] == Storing(start, i, again)
    && (events[j].busy ||
        (!again && forall n | 0 <= n < |run[j].slots| && InPool(n, start, i) :: run[j].slots[n].Some?))
  }

  /** Somewhere between steps `c` and `k` the find of `t` met the pool of turn `i` in vain. */
  ghost predicate Missed(run: seq<State>, events: seq<Event>, c: nat, k: nat, t: nat, url: string, start: nat, i: nat)
    requires |run| == |events| + 1 && k < |run|
  {
    exists j | c < j < k :: Misses(run, events, j, t, url, start, i)
  }

  ghost predicate Skipped(run: seq<State>, events: seq<Event>, c: nat, k: nat, t: nat, start: nat, i: nat, again: bool)
    requires |run| == |events| + 1 && k < |run|
  {
    exists j | c < j < k :: Skips(run, events, j, t, start, i, again)
  }

  lemma MissStep(s: State, t: nat, busy: bool, url: string, start: nat, i: nat)
    requires Shaped(s) && t < |s.pcs| && s.pcs[t].Finding? && FindVisit(s, t, busy).pcs[t] == Finding(url, start, i)
    ensures 0 < i <= POOL_COUNT && s.pcs[t] == Finding(url, start, i - 1)
    ensures busy || forall n | 0 <= n < |s.slots| && InPool(n, start, i - 1) :: !HasUrl(s.slots[n], url)
  {
    if s.pcs[t].i < POOL_COUNT && !busy {
      var m := FindTakes(s, t);
    }
  }

  lemma FindStep(s: State, e: Event, t: nat, url: string, start: nat, i: nat)
    requires Shaped(s) && CanDo(s, e) && t < |s.pcs| && Do(s, e).pcs[t] == Finding(url, start, i)
    ensures
      || s.pcs[t] == Do(s, e).pcs[t]
      || (i == 0 && e == CallFind(t, url, start))
      || (0 < i <= POOL_COUNT && e.Visit? && e.t == t && s.pcs[t] == Finding(url, start, i - 1) &&
          (e.busy || forall n | 0 <= n < |s.slots| && InPool(n, start, i - 1) :: !HasUrl(s.slots[n], url)))
  {
    hide InPool, HasUrl;
    if e.Visit? && e.t == t && s.pcs[t].Finding? {
      MissStep(s, t, e.busy, url, start, i);
    }
  }

  /** A find at turn `i` has met the pools of all turns before since it was called, each busy or without
      a client for it. */
  lemma {:induction false} FindHistory(threads: nat, run: seq<State>, events: seq<Event>, k: nat, t: nat, url: string,
                                       start: nat, i: nat) returns (c: nat)
    requires IsRun(threads, run, events) && k < |run| && t < |run[k].pcs| && run[k].pcs[t] == Finding(url, start, i)
    ensures c < k && events[c] == CallFind(t, url, start) && i <= POOL_COUNT
    ensures forall turn: nat | turn < i :: Missed(run, events, c, k, t, url, start, turn)
  {
    assert k > 0;
    assert StepAt(run, events, k - 1);
    var s, e := run[k - 1], events[k - 1];
    FindStep(s, e, t, url, start, i);
    if s.pcs[t] == run[k].pcs[t] {
      c := FindHistory(threads, run, events, k - 1, t, url, start, i);
      forall turn: nat | turn < i
        ensures Missed(run, events, c, k, t, url, start, turn)
      {
        assert Missed(run, events, c, k - 1, t, url, start, turn);
      }
    } else if i == 0 {
      c := k - 1;
    } else {
      c := FindHistory(threads, run, events, k - 1, t, url, start, i - 1);
      assert Misses(run, events, k - 1, t, url, start, i - 1);
      forall turn: nat | turn < i
        ensures Missed(run, events, c, k, t, url, start, turn)
      {
        assert turn < i - 1 ==> Missed(run, events, c, k - 1, t, url, start, turn);
      }
    }
  }

  /** A find that ends with empty hands has met every pool since it was called, each while it was busy or
      had no client with the URL. */
  lemma FindMissesOnlyIf(threads: nat, run: seq<State>, events: seq<Event>, k: nat, t: nat) returns (c: nat)
    requires IsRun(threads, run, events) && k < |events| && t < |run[k].pcs| && run[k].pcs[t].Finding?
    requires t < |run[k + 1].pcs| && run[k + 1].pcs[t].Idle? && t < |run[k + 1].hands| && run[k + 1].hands[t].None?
    ensures var (url, start) := (run[k].pcs[t].url, run[k].pcs[t].start);
      && c < k && events[c] == CallFind(t, url, start)
      && forall turn: nat | turn < POOL_COUNT :: Missed(run, events, c, k, t, url, start, turn)
  {
    assert StepAt(run, events, k);
    var pc := run[k].pcs[t];
    hide FindVisit, IsRun;
    MissEnds(run[k], t, events[k].busy);
    c := FindHistory(threads, run, events, k, t, pc.url, pc.start, pc.i);
  }

  lemma MissEnds(s: State, t: nat, busy: bool)
    requires Shaped(s) && t < |s.pcs| && s.pcs[t].Finding?
    requires FindVisit(s, t, busy).pcs[t].Idle? && FindVisit(s, t, busy).hands[t].None?
    ensures s.pcs[t].i >= POOL_COUNT
  {
    if s.pcs[t].i < POOL_COUNT && !busy {
      var m := FindTakes(s, t);
    }
  }

  lemma SkipStep(s: State, e: Event, t: nat, start: nat, i: nat, again: bool)
    requires Shaped(s) && e.Visit? && e.t == t < |s.pcs| && s.pcs[t].Storing?
    requires StoreVisit(s, t, e.busy, e.random).pcs[t] == Storing(start, i, again)
    ensures
      || (i == 0 && again && s.pcs[t] == Storing(start, s.pcs[t].i, false) && s.pcs[t].i >= POOL_COUNT)
      || (0 < i <= POOL_COUNT && s.pcs[t] == Storing(start, i - 1, again) &&
          (e.busy || (!again && forall n | 0 <= n < |s.slots| && InPool(n, start, i - 1) :: s.slots[n].Some?)))
  {
    if s.pcs[t].i < POOL_COUNT && !e.busy {
      hide StoreVisit, FindVisit;
      var m := StorePuts(s, t, e.random);
    }
  }

  lemma StoreStep(s: State, e: Event, t: nat, start: nat, i: nat, again: bool)
    requires Shaped(s) && CanDo(s, e) && t < |s.pcs| && Do(s, e).pcs[t] == Storing(start, i, again)
    ensures
      || s.pcs[t] == Do(s, e).pcs[t]
      || (i == 0 && !again && e == CallStore(t, start))
      || (i == 0 && again && s.pcs[t].Storing? && s.pcs[t] == Storing(start, s.pcs[t].i, false) &&
          s.pcs[t].i >= POOL_COUNT)
      || (0 < i <= POOL_COUNT && e.Visit? && e.t == t && s.pcs[t] == Storing(start, i - 1, again) &&
          (e.busy || (!again && forall n | 0 <= n < |s.slots| && InPool(n, start, i - 1) :: s.slots[n].Some?)))
  {
    hide InPool;
    if e.Visit? && e.t == t && s.pcs[t].Storing? {
      hide StoreVisit;
      SkipStep(s, e, t, start, i, again);
    }
  }

  lemma StillSkipped(run: seq<State>, events: seq<Event>, c: nat, k: nat, m: nat, t: nat, start: nat, i: nat,
                     again: bool)
    requires |run| == |events| + 1 && k <= m < |run|
    requires forall turn: nat | turn < i :: Skipped(run, events, c, k, t, start, turn, again)
    ensures forall turn: nat | turn < i :: Skipped(run, events, c, m, t, start, turn, again)
  {
    forall turn: nat | turn < i
      ensures Skipped(run, events, c, m, t, start, turn, again)
    {
      assert Skipped(run, events, c, k, t, start, turn, again);
    }
  }

  /** A store at turn `i` of a pass has met the pools of all turns before, each busy or, in the first pass,
      full; the second pass begins after a whole first one. */
  lemma {:induction false} StoreHistory(threads: nat, run: seq<State>, events: seq<Event>, k: nat, t: nat, start: nat,
                                        i: nat, again: bool) returns (c: nat)
    requires IsRun(threads, run, events) && k < |run| && t < |run[k].pcs| && run[k].pcs[t] == Storing(start, i, again)
    ensures c < k && events[c] == CallStore(t, start) && i <= POOL_COUNT
    ensures forall turn: nat | turn < i :: Skipped(run, events, c, k, t, start, turn, again)
    ensures again ==>
      forall turn: nat | turn < POOL_COUNT :: Skipped(run, events, c, k, t, start, turn, false)
  {
    assert k > 0;
    assert StepAt(run, events, k - 1);
    var s, e := run[k - 1], events[k - 1];
    StoreStep(s, e, t, start, i, again);
    if s.pcs[t] == run[k].pcs[t] {
      c := StoreHistory(threads, run, events, k - 1, t, start, i, again);
      StillSkipped(run, events, c, k - 1, k, t, start, i, again);
    } else if i == 0 && !again {
      c := k - 1;
      return;
    } else if i == 0 {
      c := StoreHistory(threads, run, events, k - 1, t, start, s.pcs[t].i, false);
    } else {
      c := StoreHistory(threads, run, events, k - 1, t, start, i - 1, again);
      StillSkipped(run, events, c, k - 1, k, t, start, i - 1, again);
      assert Skips(run, events, k - 1, t, start, i - 1, again);
    }
    StillSkipped(run, events, c, k - 1, k, t, start, if again then POOL_COUNT else 0, false);
  }

  /** A client that is dropped has been offered to every pool twice since the store was called: each was
      busy or full the first time, and busy the second time. */
  lemma DroppedOnlyIf(threads: nat, run: seq<State>, events: seq<Event>, k: nat, t: nat) returns (c: nat)
    requires IsRun(threads, run, events) && k < |events| && t < |run[k].pcs| && run[k].pcs[t].Storing?
    requires t < |run[k + 1].pcs| && run[k + 1].pcs[t].Idle? && run[k + 1].slots == run[k].slots
    requires t < |run[k].hands| && run[k].hands[t].Some?
    ensures var start := run[k].pcs[t].start;
      && c < k && events[c] == CallStore(t, start)
      && (forall turn: nat | turn < POOL_COUNT :: Skipped(run, events, c, k, t, start, turn, false))
      && forall turn: nat | turn < POOL_COUNT :: Skipped(run, events, c, k, t, start, turn, true)
  {
    assert StepAt(run, events, k);
    var pc := run[k].pcs[t];
    hide StoreVisit, IsRun;
    forall m | 0 <= m < |run[k].slots|
      ensures run[k].slots[m] != run[k].hands[t]
    {
      NewInSlot(threads, run, events, k, t, m);
    }
    SkipEnds(run[k], events[k], t);
    c := StoreHistory(threads, run, events, k, t, pc.start, pc.i, pc.again);
  }

  lemma SkipEnds(s: State, e: Event, t: nat)
    requires Shaped(s) && e.Visit? && e.t == t < |s.pcs| && s.pcs[t].Storing?
    requires StoreVisit(s, t, e.busy, e.random).pcs[t].Idle? && StoreVisit(s, t, e.busy, e.random).slots == s.slots
    requires forall m | 0 <= m < |s.slots| :: s.slots[m] != s.hands[t]
    ensures s.pcs[t].i >= POOL_COUNT && s.pcs[t].again
  {
    if s.pcs[t].i < POOL_COUNT && !e.busy {
      var m := StorePuts(s, t, e.random);
    }
  }

  // A client in a thread's hands is in no slot.
  lemma NewInSlot(threads: nat, run: seq<State>, events: seq<Event>, k: nat, t: nat, m: nat)
    requires IsRun(threads, run, events) && k < |run| && t < |run[k].hands| && run[k].hands[t].Some?
    requires m < |run[k].slots|
    ensures run[k].slots[m] != run[k].hands[t]
  {
    OneOwner(threads, run, events, k, run[k].hands[t].value.id);
  }

  /** How many visits a probe has left. */
  function VisitsLeft(pc: Pc): nat {
    match pc
    case Idle => 0
    case Finding(_, _, i) => if i <= POOL_COUNT then POOL_COUNT + 1 - i else 1
    case Storing(_, i, again) =>
      (if i <= POOL_COUNT then POOL_COUNT + 1 - i else 1) + if again then 0 else POOL_COUNT + 1
  }

  /** A thread that finds or stores can always make its next visit, and every visit brings it closer to the
      end, whatever the others do: a find is over after at most 17 visits, a store after at most 34. */
  lemma VisitsEnd(threads: nat, run: seq<State>, events: seq<Event>, k: nat, t: nat, busy: bool, random: nat)
    requires IsRun(threads, run, events) && k < |run| && t < |run[k].pcs| && !run[k].pcs[t].Idle?
    ensures Shaped(run[k]) && CanDo(run[k], Visit(t, busy, random))
    ensures var s, r := run[k], Do(run[k], Visit(t, busy, random));
      && |r.pcs| == |s.pcs| && VisitsLeft(r.pcs[t]) < VisitsLeft(s.pcs[t]) <= 34
      && (s.pcs[t].Finding? ==> VisitsLeft(s.pcs[t]) <= 17)
      && forall u | 0 <= u < |s.pcs| && u != t :: r.pcs[u] == s.pcs[u]
  {
    RunInv(threads, run, events, k);
  }

  /** A step destroys a client only at the end of a store, and at most one. */
  lemma StoreLosesAtMostOne(threads: nat, run: seq<State>, events: seq<Event>, k: nat)
    requires IsRun(threads, run, events) && k < |events|
    ensures var s, r, t := run[k], run[k + 1], events[k].t;
      && |r.destroyed| <= |s.destroyed| + 1
      && (r.destroyed != s.destroyed ==>
          t < |s.pcs| && s.pcs[t].Storing? && t < |r.pcs| && r.pcs[t].Idle? && t < |r.hands| && r.hands[t].None?)
  {
    RunInv(threads, run, events, k);
    assert StepAt(run, events, k);
  }
}
