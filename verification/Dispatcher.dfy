/** The curl_multi dispatcher as a step system: workers that submit transfers and sleep until
    theirs is signalled, and one dispatcher thread that owns the multi handle. */
module Dispatcher {

  type Transfer = nat     // one call to Submit, and the waiter on its stack
  type Handle = nat       // an easy handle
  type Code = nat

  const OK: Code := 0
  const ABORTED_BY_CALLBACK: Code := 42

  /** Where the dispatcher thread is. */
  datatype Phase =
    | Checking | Swapping | Adding(rest: seq<Transfer>) | Harvesting | Signalling(t: Transfer, code: Code)
    | DrainSwapping | DrainQueued(rest: seq<Transfer>) | DrainFlight(i: nat) | DrainDetached(i: nat) | Finished

  datatype State = State(
    phase: Phase,
    rejecting: bool,
    stopping: bool,
    queue: seq<Transfer>,
    inFlight: seq<Transfer>,
    easy: map<Transfer, Handle>,       // every accepted transfer and its handle
    live: set<Transfer>,               // waiters whose Submit has not returned
    multi: set<Handle>,                // handles attached to the multi handle
    private: map<Handle, Transfer>,    // CURLOPT_PRIVATE where it is not null
    signals: seq<Transfer>,            // SignalPending calls so far
    results: map<Transfer, Code>,      // what was stored in the waiters
    returned: map<Transfer, Code>,     // what the calls to Submit have returned
    wakers: set<Transfer>,             // accepted transfers whose worker has yet to wake the multi handle
    cleaned: bool)                     // curl_multi_cleanup has run

  function Init(): State {
    State(Checking, false, false, [], [], map[], {}, {}, map[], [], map[], map[], {}, false)
  }

  datatype Event =
    | Submit(t: Transfer, h: Handle) | Wake(t: Transfer) | Return(t: Transfer) | Shutdown | Cleanup
    | Check | Swap | Add | Harvest(h: Handle, code: Code) | Signal | EndHarvest
    | DrainSwap | DrainSignal | DrainDetach | DrainNotify | DrainEnd

  function Count(s: seq<Transfer>, t: Transfer): nat {
    if s == [] then 0 else Count(s[..|s| - 1], t) + if s[|s| - 1] == t then 1 else 0
  }

  /** std::find and erase. */
  function Erase(s: seq<Transfer>, t: Transfer): seq<Transfer> {
    if s == [] then [] else if s[0] == t then s[1..] else [s[0]] + Erase(s[1..], t)
  }

  /** Accepted transfers the dispatcher thread has in hand, outside queue and in-flight list. */
  function Held(p: Phase): seq<Transfer> {
    match p
    case Adding(rest) => rest
    case Signalling(t, _) => [t]
    case DrainQueued(rest) => rest
    case _ => []
  }

  /** The in-flight transfers not signalled yet: the drain leaves those it has signalled in the
      list until the end. */
  function Flight(p: Phase, inFlight: seq<Transfer>): seq<Transfer> {
    match p
    case DrainFlight(i) => if i <= |inFlight| then inFlight[i..] else []
    case DrainDetached(i) => if i <= |inFlight| then inFlight[i..] else []
    case _ => inFlight
  }

  /** The in-flight transfers whose handle is attached. */
  function Attached(p: Phase, inFlight: seq<Transfer>): seq<Transfer> {
    match p
    case DrainDetached(i) => if i < |inFlight| then inFlight[i + 1..] else []
    case _ => Flight(p, inFlight)
  }

  /** Which steps can happen. A worker submits a handle only while no other call of its uses
      that handle; a finished transfer is reported for an attached handle only. */
  predicate CanDo(s: State, e: Event) {
    match e
    case Submit(t, h) => t !in s.easy && t !in s.returned && forall u | u in s.live && u in s.easy :: s.easy[u] != h
    case Wake(t) => t in s.wakers
    case Return(t) => t in s.live && t in s.results && t !in s.wakers
    case Shutdown => !s.stopping
    case Cleanup => s.phase.Finished? && !s.cleaned
    case Check => s.phase.Checking?
    case Swap => s.phase.Swapping?
    case Add => s.phase.Adding?
    case Harvest(h, _) => s.phase.Harvesting? && h in s.multi
    case Signal => s.phase.Signalling?
    case EndHarvest => s.phase.Harvesting?
    case DrainSwap => s.phase.DrainSwapping?
    case DrainSignal => s.phase.DrainQueued?
    case DrainDetach => s.phase.DrainFlight? && s.phase.i < |s.inFlight|
    case DrainNotify => s.phase.DrainDetached? && s.phase.i < |s.inFlight|
    case DrainEnd => s.phase.DrainFlight? && s.phase.i >= |s.inFlight|
  }

  /** The waiters a step reads or writes through a pointer. */
  function Touches(s: State, e: Event): set<Transfer>
    requires CanDo(s, e)
  {
    match e
    case Add => if s.phase.rest == [] then {} else {s.phase.rest[0]}
    case Signal => {s.phase.t}
    case DrainSignal => if s.phase.rest == [] then {} else {s.phase.rest[0]}
    case DrainDetach => {s.inFlight[s.phase.i]}
    case DrainNotify => {s.inFlight[s.phase.i]}
    case _ => {}
  }

  function HandleOf(s: State, t: Transfer): Handle {
    if t in s.easy then s.easy[t] else 0
  }

  function Signalled(s: State, t: Transfer, code: Code, next: Phase): State {
    s.(phase := next, signals := s.signals + [t], results := s.results[t := code])
  }

  function Do(s: State, e: Event): (r: State)
    requires CanDo(s, e)
  {
    match e
    case Submit(t, h) =>
      if s.rejecting then s.(returned := s.returned[t := ABORTED_BY_CALLBACK])
      else s.(queue := s.queue + [t], easy := s.easy[t := h], live := s.live + {t}, wakers := s.wakers + {t})
    case Wake(t) => s.(wakers := s.wakers - {t})
    case Return(t) => s.(live := s.live - {t}, returned := s.returned[t := s.results[t]])
    case Shutdown => s.(rejecting := true, stopping := true)
    case Cleanup => s.(cleaned := true)
    case Check => s.(phase := if s.stopping then DrainSwapping else Swapping)
    case Swap => s.(phase := Adding(s.queue), queue := [])
    case Add =>
      if s.phase.rest == [] then s.(phase := Harvesting)
      else
        var t := s.phase.rest[0];
        var h := HandleOf(s, t);
        s.(phase := Adding(s.phase.rest[1..]), private := s.private[h := t], multi := s.multi + {h},
           inFlight := s.inFlight + [t])
    case Harvest(h, code) =>
      var u := s.(multi := s.multi - {h}, private := s.private - {h});
      if h !in s.private then u
      else
        var t := s.private[h];
        u.(phase := Signalling(t, code), inFlight := Erase(s.inFlight, t))
    case Signal => Signalled(s, s.phase.t, s.phase.code, Harvesting)
    case EndHarvest => s.(phase := Checking)
    case DrainSwap => s.(phase := DrainQueued(s.queue), queue := [])
    case DrainSignal =>
      if s.phase.rest == [] then s.(phase := DrainFlight(0))
      else Signalled(s, s.phase.rest[0], ABORTED_BY_CALLBACK, DrainQueued(s.phase.rest[1..]))
    case DrainDetach =>
      var h := HandleOf(s, s.inFlight[s.phase.i]);
      s.(phase := DrainDetached(s.phase.i), multi := s.multi - {h}, private := s.private - {h})
    case DrainNotify =>
      Signalled(s, s.inFlight[s.phase.i], ABORTED_BY_CALLBACK, DrainFlight(s.phase.i + 1))
    case DrainEnd => s.(phase := Finished, inFlight := [])
  }

  // ----- The invariant -----

  predicate OnePlace(queue: seq<Transfer>, held: seq<Transfer>, flight: seq<Transfer>, signals: seq<Transfer>,
                     easy: map<Transfer, Handle>, t: Transfer) {
    Count(queue, t) + Count(held, t) + Count(flight, t) + Count(signals, t) == if t in easy then 1 else 0
  }

  /** Every accepted transfer is in exactly one place, every other one in none. */
  ghost predicate Placed(queue: seq<Transfer>, held: seq<Transfer>, flight: seq<Transfer>, signals: seq<Transfer>,
                         easy: map<Transfer, Handle>) {
    forall t :: OnePlace(queue, held, flight, signals, easy, t)
  }

  /** A waiter is there until its Submit returns, which takes a signal. */
  ghost predicate Waiting(easy: map<Transfer, Handle>, live: set<Transfer>, signals: seq<Transfer>) {
    && (forall t | t in live :: t in easy)
    && forall t | t in easy && t !in live :: Count(signals, t) > 0
  }

  ghost predicate OwnHandles(easy: map<Transfer, Handle>, live: set<Transfer>) {
    forall t, u | t in live && u in live && t in easy && u in easy && t != u :: easy[t] != easy[u]
  }

  /** An attached transfer's handle is attached and points to it. */
  predicate Tied(easy: map<Transfer, Handle>, multi: set<Handle>, private: map<Handle, Transfer>,
                 attached: seq<Transfer>, t: Transfer) {
    Count(attached, t) > 0 ==> t in easy && easy[t] in multi && easy[t] in private && private[easy[t]] == t
  }

  /** An attached handle points to an attached transfer that was submitted with it. */
  predicate Pointed(easy: map<Transfer, Handle>, multi: set<Handle>, private: map<Handle, Transfer>,
                    attached: seq<Transfer>, h: Handle) {
    && (h in private <==> h in multi)
    && (h in multi ==> Count(attached, private[h]) > 0 && private[h] in easy && easy[private[h]] == h)
  }

  /** The attached handles are those of the attached transfers, and each points to its own. */
  ghost predicate Multi(easy: map<Transfer, Handle>, multi: set<Handle>, private: map<Handle, Transfer>,
                        attached: seq<Transfer>) {
    && (forall t :: Tied(easy, multi, private, attached, t))
    && (forall h :: Pointed(easy, multi, private, attached, h))
  }

  predicate Phases(p: Phase, rejecting: bool, stopping: bool, queue: seq<Transfer>, inFlight: seq<Transfer>) {
    && rejecting == stopping
    && (p.DrainSwapping? || p.DrainQueued? || p.DrainFlight? || p.DrainDetached? || p.Finished? ==> stopping)
    && (p.DrainQueued? || p.DrainFlight? || p.DrainDetached? || p.Finished? ==> queue == [])
    && (p.DrainFlight? ==> p.i <= |inFlight|)
    && (p.DrainDetached? ==> p.i < |inFlight|)
    && (p.Finished? ==> inFlight == [])
  }

  /** A waiter holds a result once it is signalled. */
  ghost predicate Answered(signals: seq<Transfer>, results: map<Transfer, Code>) {
    forall t :: t in results <==> Count(signals, t) > 0
  }

  /** A worker wakes the multi handle before it waits, and none starts to after shutdown. */
  predicate Wakers(wakers: set<Transfer>, live: set<Transfer>, p: Phase, cleaned: bool) {
    wakers <= live && (cleaned ==> p.Finished?)
  }

  ghost predicate Inv(s: State) {
    && Placed(s.queue, Held(s.phase), Flight(s.phase, s.inFlight), s.signals, s.easy)
    && Waiting(s.easy, s.live, s.signals)
    && OwnHandles(s.easy, s.live)
    && Multi(s.easy, s.multi, s.private, Attached(s.phase, s.inFlight))
    && Phases(s.phase, s.rejecting, s.stopping, s.queue, s.inFlight)
    && Answered(s.signals, s.results)
    && Wakers(s.wakers, s.live, s.phase, s.cleaned)
  }

  // ----- Counting -----

  lemma {:induction false} CountConcat(a: seq<Transfer>, b: seq<Transfer>, t: Transfer)
    ensures Count(a + b, t) == Count(a, t) + Count(b, t)
  {
    if b == [] {
      assert a + b == a;
    } else {
      assert (a + b)[..|a + b| - 1] == a + b[..|b| - 1];
      CountConcat(a, b[..|b| - 1], t);
    }
  }

  lemma CountOne(x: Transfer, t: Transfer)
    ensures Count([x], t) == if x == t then 1 else 0
  {
    assert [x][..0] == [];
  }

  lemma CountSnoc(s: seq<Transfer>, x: Transfer, t: Transfer)
    ensures Count(s + [x], t) == Count(s, t) + if x == t then 1 else 0
  {
    assert (s + [x])[..|s|] == s;
  }

  lemma CountHead(s: seq<Transfer>, t: Transfer)
    requires s != []
    ensures Count(s, t) == (if s[0] == t then 1 else 0) + Count(s[1..], t)
  {
    assert s == [s[0]] + s[1..];
    CountConcat([s[0]], s[1..], t);
    CountOne(s[0], t);
  }

  lemma {:induction false} CountErase(s: seq<Transfer>, x: Transfer, t: Transfer)
    ensures Count(Erase(s, x), t) == if t == x && Count(s, x) > 0 then Count(s, t) - 1 else Count(s, t)
    ensures |Erase(s, x)| == if Count(s, x) > 0 then |s| - 1 else |s|
  {
    if s != [] {
      CountHead(s, t);
      CountHead(s, x);
      if s[0] != x {
        CountErase(s[1..], x, t);
        CountConcat([s[0]], Erase(s[1..], x), t);
        CountOne(s[0], t);
      }
    }
  }
}
