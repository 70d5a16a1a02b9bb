/** Any number of openers of one cached file: one of them downloads it under the lock, the others
    wait or, once it is initialized, read it without the lock. */
module CachedFileSharing {
  import opened FullDownload
  import opened Prelude

  /** Where an opener is; `locked` tells whether its handle holds the file's lock. */
  datatype Pc =
    | Opening | Locking | Opened(locked: bool) | Downloading(locked: bool) | Reading(locked: bool) | Closed

  /** `data` is the buffer, as long as the capacity. `seals` counts successful SetInitialized
      calls; `internalError` is up once one of the exceptions the source calls internal has been
      thrown or an assertion about the lock has failed. */
  datatype State = State(data: Bytes, size: nat, initialized: bool, lock: Option<nat>, openers: seq<Pc>,
                         seals: nat, internalError: bool)

  datatype Event =
    | Construct(i: nat)               // look at `initialized`
    | Acquire(i: nat)                 // get the lock
    | Drop(i: nat)                    // a handle taken only to look: not initialized, given up
    | Use(i: nat)                     // FullDownload decides what to do
    | Allocate(i: nat, memory: Bytes) // AllocateBuffer, also as the first half of GrowBuffer
    | Write(i: nat, block: Bytes, offset: nat)
    | Fail(i: nat)                    // the download throws, the file handle dies
    | Seal(i: nat, size: nat)         // SetInitialized
    | Close(i: nat)

  function Init(n: nat): State {
    State([], 0, false, None, seq(n, _ => Opening), 0, false)
  }

  predicate CanDo(s: State, e: Event) {
    && e.i < |s.openers|
    && var p := s.openers[e.i];
       match e
       case Construct(_) => p.Opening?
       case Acquire(_) => p.Locking? && s.lock.None?
       case Drop(_) => p.Opened? && !s.initialized
       case Use(_) => p.Opened?
       case Allocate(_, _) => p.Downloading?
       case Write(_, block, offset) => p.Downloading? && offset + |block| <= |s.data|
       case Fail(_) => p.Downloading?
       case Seal(_, _) => p.Downloading?
       case Close(_) => p.Reading?
  }

  function Leave(s: State, i: nat, locked: bool, next: Pc): (r: State)
    requires i < |s.openers|
    ensures r.data == s.data && r.size == s.size && r.initialized == s.initialized
  {
    s.(openers := s.openers[i := next], lock := if locked then None else s.lock)
  }

  function Do(s: State, e: Event): State
    requires CanDo(s, e)
  {
    var i, p := e.i, s.openers[e.i];
    match e
    case Construct(_) => s.(openers := s.openers[i := if s.initialized then Opened(false) else Locking])
    case Acquire(_) => s.(openers := s.openers[i := Opened(true)], lock := Some(i))
    case Drop(_) => Leave(s, i, p.locked, Closed)
    case Use(_) => s.(openers := s.openers[i := if s.initialized then Reading(p.locked) else Downloading(p.locked)])
    case Allocate(_, memory) =>
      if s.initialized then Leave(s, i, p.locked, Closed).(internalError := true)
      else s.(data := memory)
    case Write(_, block, offset) =>
      s.(data := s.data[..offset] + block + s.data[offset + |block|..],
         internalError := s.internalError || s.initialized || !p.locked)
    case Fail(_) => Leave(s, i, p.locked, Closed)
    case Seal(_, size) =>
      if s.initialized || !p.locked then Leave(s, i, p.locked, Closed).(internalError := true)
      else Leave(s, i, true, Reading(false)).(size := size, initialized := true, seals := s.seals + 1)
    case Close(_) => Leave(s, i, p.locked, Closed)
  }

  predicate StepAt(run: seq<State>, events: seq<Event>, i: nat)
    requires |run| == |events| + 1 && i < |events|
  {
    CanDo(run[i], events[i]) && run[i + 1] == Do(run[i], events[i])
  }

  /** The states that these events of `n` openers lead through, from the start. */
  ghost predicate IsRun(n: nat, run: seq<State>, events: seq<Event>) {
    && |run| == |events| + 1 && run[0] == Init(n)
    && forall i | 0 <= i < |events| :: StepAt(run, events, i)
  }

  predicate HasLock(p: Pc) {
    (p.Opened? || p.Downloading? || p.Reading?) && p.locked
  }

  predicate OpenerOk(s: State, i: nat)
    requires i < |s.openers|
  {
    var p := s.openers[i];
    && (s.lock == Some(i) <==> HasLock(p))
    && (p.Downloading? ==> p.locked && !s.initialized)
    && (p.Reading? || p == Opened(false) ==> s.initialized)
  }

  ghost predicate Inv(s: State) {
    && (forall i | 0 <= i < |s.openers| :: OpenerOk(s, i))
    && (s.lock.Some? ==> s.lock.value < |s.openers|)
    && s.seals == (if s.initialized then 1 else 0) && !s.internalError
  }

  lemma StepKeeps(s: State, e: Event)
    requires Inv(s) && CanDo(s, e)
    ensures Inv(Do(s, e))
  {
    var r := Do(s, e);
    assert OpenerOk(s, e.i);
    forall j | 0 <= j < |r.openers|
      ensures OpenerOk(r, j)
    {
      assert OpenerOk(s, j);
    }
  }

  /** The invariant holds in every state of every run. */
  lemma {:induction false} RunInv(n: nat, run: seq<State>, events: seq<Event>, k: nat)
    requires IsRun(n, run, events) && k < |run|
    ensures Inv(run[k])
  {
    if k > 0 {
      RunInv(n, run, events, k - 1);
      assert StepAt(run, events, k - 1);
      StepKeeps(run[k - 1], events[k - 1]);
    }
  }

  /** In every run the file is initialized at most once, no internal exception is thrown, and the
      only step that changes data, size or the flag is one of the downloader that holds the lock
      of a file not initialized yet. */
  lemma SealedOnce(n: nat, run: seq<State>, events: seq<Event>, k: nat)
    requires IsRun(n, run, events) && k < |events|
    ensures var s, t, i := run[k], run[k + 1], events[k].i;
      && t.seals <= 1 && !t.internalError
      && ((t.data, t.size, t.initialized) != (s.data, s.size, s.initialized) ==>
          !s.initialized && s.lock == Some(i) && i < |s.openers| && s.openers[i].Downloading?)
  {
    RunInv(n, run, events, k);
    RunInv(n, run, events, k + 1);
    assert StepAt(run, events, k);
    assert OpenerOk(run[k], events[k].i);
  }

  /** Once initialized, the buffer, its capacity and the size stay. */
  lemma {:induction false} BytesStay(n: nat, run: seq<State>, events: seq<Event>, k: nat, later: nat)
    requires IsRun(n, run, events) && k <= later < |run| && run[k].initialized
    ensures run[later].initialized && run[later].data == run[k].data && run[later].size == run[k].size
    decreases later
  {
    if k < later {
      BytesStay(n, run, events, k, later - 1);
      SealedOnce(n, run, events, later - 1);
    }
  }

  /** What the blocks of a download leave: each where it was put, and everything else untouched. */
  lemma WriteIs(n: nat, run: seq<State>, events: seq<Event>, k: nat, block: Bytes, offset: nat)
    requires IsRun(n, run, events) && k < |events| && events[k].Write? && events[k].block == block
    requires events[k].offset == offset
    ensures var before, after := run[k].data, run[k + 1].data;
      && |after| == |before| && offset + |block| <= |after| && after[offset..offset + |block|] == block
      && after[..offset] == before[..offset] && after[offset + |block|..] == before[offset + |block|..]
  {
    assert StepAt(run, events, k);
  }

  /** In every run a file that can be read was sealed by one downloader that held the lock: it has the
      size given then and the bytes that were there then, and the lock was free afterwards. */
  lemma {:induction false} SealedWith(n: nat, run: seq<State>, events: seq<Event>, k: nat) returns (j: nat)
    requires IsRun(n, run, events) && k < |run| && run[k].initialized
    ensures j < k && events[j].Seal? && !run[j].initialized && run[j].lock == Some(events[j].i)
    ensures run[k].size == events[j].size && run[k].data == run[j].data && run[j + 1].lock.None?
  {
    j := k - 1;
    assert StepAt(run, events, j);
    if run[j].initialized {
      BytesStay(n, run, events, j, k);
      j := SealedWith(n, run, events, j);
    } else {
      SealedOnce(n, run, events, j);
    }
  }

  /** No run gets stuck: as long as an opener has not closed, it or the one that holds the lock it waits
      for can take a step. */
  lemma NoDeadlock(n: nat, run: seq<State>, events: seq<Event>, k: nat, i: nat) returns (e: Event)
    requires IsRun(n, run, events) && k < |run| && i < |run[k].openers| && !run[k].openers[i].Closed?
    ensures CanDo(run[k], e) && (e.i == i || (run[k].openers[i].Locking? && run[k].lock == Some(e.i)))
  {
    RunInv(n, run, events, k);
    var s := run[k];
    var j := if s.openers[i].Locking? && s.lock.Some? then s.lock.value else i;
    assert OpenerOk(s, i) && OpenerOk(s, j);
    match s.openers[j]
    case Opening => e := Construct(j);
    case Locking => e := Acquire(j);
    case Opened(_) => e := Use(j);
    case Downloading(_) => e := Seal(j, 0);
    case Reading(_) => e := Close(j);
  }

  predicate WithoutLock(p: Pc) {
    p == Opened(false) || p == Reading(false) || p.Closed?
  }

  /** An opener that looks at a file after it was initialized never takes the lock nor waits for it: any
      number of them read at the same time, whatever the others do. */
  lemma {:induction false} ReadersDoNotLock(n: nat, run: seq<State>, events: seq<Event>, k: nat, later: nat, i: nat)
    requires IsRun(n, run, events) && k < later < |run| && run[k].initialized && events[k] == Construct(i)
    ensures i < |run[later].openers| && WithoutLock(run[later].openers[i]) && run[later].lock != Some(i)
    decreases later
  {
    assert StepAt(run, events, later - 1);
    RunInv(n, run, events, later);
    if k + 1 < later {
      ReadersDoNotLock(n, run, events, k, later - 1, i);
      BytesStay(n, run, events, k, later - 1);
    }
    assert OpenerOk(run[later], i);
  }

  /** Opener `i` waits for the lock of a file that can be read already: it goes on if and only if
      no handle holds the lock, and one that does is no downloader but an opener that waited
      itself and keeps the lock as long as it reads. */
  lemma WaitsForReader(n: nat, run: seq<State>, events: seq<Event>, k: nat, i: nat)
    requires IsRun(n, run, events) && k < |run| && i < |run[k].openers|
    requires run[k].initialized && run[k].openers[i].Locking?
    ensures var s := run[k];
      && (CanDo(s, Acquire(i)) <==> forall j | 0 <= j < |s.openers| :: !HasLock(s.openers[j]))
      && forall j | 0 <= j < |s.openers| && HasLock(s.openers[j]) ::
           s.openers[j] == Opened(true) || s.openers[j] == Reading(true)
  {
    RunInv(n, run, events, k);
    var s := run[k];
    forall j | 0 <= j < |s.openers|
      ensures s.lock == Some(j) <==> HasLock(s.openers[j])
      ensures !s.openers[j].Downloading?
    {
      assert OpenerOk(s, j);
    }
  }

  lemma Then(n: nat, run: seq<State>, events: seq<Event>, e: Event)
    requires IsRun(n, run, events) && CanDo(run[|events|], e)
    ensures IsRun(n, run + [Do(run[|events|], e)], events + [e])
  {
    var longer, all := run + [Do(run[|events|], e)], events + [e];
    forall i | 0 <= i < |all|
      ensures StepAt(longer, all, i)
    {
      if i < |events| {
        assert StepAt(run, events, i);
      }
    }
  }

  /** Three openers look before the file is there. */
  lemma ThreeLook() returns (run: seq<State>, events: seq<Event>)
    ensures IsRun(3, run, events)
    ensures run[|events|] == State([], 0, false, None, [Locking, Locking, Locking], 0, false)
  {
    run, events := [Init(3)], [];
    for i := 0 to 3
      invariant IsRun(3, run, events) && |run[|events|].openers| == 3
      invariant forall j | 0 <= j < 3 :: run[|events|].openers[j] == if j < i then Locking else Opening
      invariant run[|events|] == State([], 0, false, None, run[|events|].openers, 0, false)
    {
      Then(3, run, events, Construct(i));
      run, events := run + [Do(run[|events|], Construct(i))], events + [Construct(i)];
    }
  }

  /** The first of them gets the lock and downloads the file. */
  lemma FirstDownloads(block: Bytes) returns (run: seq<State>, events: seq<Event>)
    ensures IsRun(3, run, events)
    ensures run[|events|] == State(block, |block|, true, None, [Reading(false), Locking, Locking], 1, false)
  {
    run, events := ThreeLook();
    var memory: Bytes := seq(|block|, _ => 0);
    var steps := [Acquire(0), Use(0), Allocate(0, memory), Write(0, block, 0), Seal(0, |block|)];
    Then(3, run, events, steps[0]);
    run, events := run + [Do(run[|events|], steps[0])], events + [steps[0]];
    Then(3, run, events, steps[1]);
    run, events := run + [Do(run[|events|], steps[1])], events + [steps[1]];
    Then(3, run, events, steps[2]);
    run, events := run + [Do(run[|events|], steps[2])], events + [steps[2]];
    assert memory[..0] + block + memory[|block|..] == block;
    Then(3, run, events, steps[3]);
    run, events := run + [Do(run[|events|], steps[3])], events + [steps[3]];
    Then(3, run, events, steps[4]);
    run, events := run + [Do(run[|events|], steps[4])], events + [steps[4]];
  }

  /** Then the second gets the lock and reads, and the third waits for the second to close
      although the file is complete. */
  lemma ReaderKeepsLock(block: Bytes) returns (run: seq<State>, events: seq<Event>)
    ensures IsRun(3, run, events)
    ensures var s := run[|events|];
      && s.initialized && s.data == block
      && s.openers == [Reading(false), Reading(true), Locking] && !CanDo(s, Acquire(2))
  {
    run, events := FirstDownloads(block);
    Then(3, run, events, Acquire(1));
    run, events := run + [Do(run[|events|], Acquire(1))], events + [Acquire(1)];
    Then(3, run, events, Use(1));
    run, events := run + [Do(run[|events|], Use(1))], events + [Use(1)];
  }
}
