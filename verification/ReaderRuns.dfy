/** Any number of reads from one handle, each with replies of its own, going on after exceptions. */
module ReaderRuns {
  import opened FullDownload
  import opened Prelude
  import opened RangeBuffer
  import opened RangeReader
  import opened RangeServer

  /** One read: what the server would have replied, where and how much was read into memory that
      held `target`, the buffer before and after, and what the read has come to. */
  datatype Turn = Turn(oracle: Oracle, location: nat, n: nat, target: Bytes, before: Buffer, after: Buffer, o: Outcome,
                       stale: Bytes, window: Bytes, answer: Bytes)

  ghost predicate IsTurn(t: Turn, direct: bool, guard: Guard, length: nat) {
    && t.location + t.n <= length && |t.target| == t.n && Fitting(t.before, length) && Fitting(t.after, length)
    && ReadDone(direct, guard, t.oracle, length, t.before, t.after, t.location, t.n, t.target, t.o, t.stale, t.window,
                t.answer)
  }

  /** Each read finds the buffer as the read before has left it. */
  ghost predicate IsRun(turns: seq<Turn>, direct: bool, guard: Guard, length: nat) {
    && (forall i | 0 <= i < |turns| :: IsTurn(turns[i], direct, guard, length))
    && forall i | 0 < i < |turns| :: turns[i].before == turns[i - 1].after
  }

  function AskedIn(t: Turn, direct: bool, length: nat): Option<(nat, nat)> {
    if t.location + t.n <= length then AskedBy(direct, t.before.view, length, t.location, t.n) else None
  }

  predicate OverwritesIn(t: Turn, direct: bool, length: nat) {
    t.location + t.n <= length && OverwritesBy(direct, t.before.view, length, t.location, t.n)
  }

  /** The newest of the first `k` reads that has overwritten the buffer. */
  function LastRefill(turns: seq<Turn>, direct: bool, length: nat, k: nat): (last: Option<nat>)
    requires k <= |turns|
    ensures last.Some? ==> last.value < k && OverwritesIn(turns[last.value], direct, length)
  {
    if k == 0 then None
    else if OverwritesIn(turns[k - 1], direct, length) then Some(k - 1)
    else LastRefill(turns, direct, length, k - 1)
  }

  ghost predicate AnsweredWhole(t: Turn, direct: bool, length: nat) {
    t.o.Success? && WholeAnswer(t.oracle, AskedIn(t, direct, length))
  }

  /** Whether a buffer is in order is decided by the newest refill alone: no read without one, and
      no exception of such a read, changes it, and no earlier refill matters. */
  lemma {:induction false} LastRefillDecides(turns: seq<Turn>, direct: bool, guard: Guard, file: Bytes, k: nat)
    requires IsRun(turns, direct, guard, |file|) && k < |turns|
    ensures
      var last := LastRefill(turns, direct, |file|, k);
      Mirrors(turns[k].before, file) <==>
        if last.Some? then Mirrors(turns[last.value].after, file) else Mirrors(turns[0].before, file)
  {
    hide Mirrors, OverwritesIn, IsTurn;
    if k == 0 {
    } else {
      var t := turns[k - 1];
      assert IsTurn(t, direct, guard, |file|) && turns[k].before == t.after;
      if !OverwritesIn(t, direct, |file|) {
        TurnKeeps(t, direct, guard, file);
        LastRefillDecides(turns, direct, guard, file, k - 1);
      }
    }
  }

  lemma TurnKeeps(t: Turn, direct: bool, guard: Guard, file: Bytes)
    requires IsTurn(t, direct, guard, |file|) && !OverwritesIn(t, direct, |file|)
    ensures Mirrors(t.after, file) <==> Mirrors(t.before, file)
  {
    OthersKeep(direct, guard, t.oracle, file, t.before, t.after, t.location, t.n, t.target, t.o, t.stale, t.window,
               t.answer);
  }

  /** What a read of a run returns, and what its newest refill has made of the buffer. */
  lemma TurnReturns(remote: Remote, version: nat, t: Turn, direct: bool, guard: Guard)
    requires IsTurn(t, direct, guard, |remote.content(version)|) && t.o.Success?
    requires Honest(remote, t.oracle) && Pinned(remote, t.oracle, guard, version)
    ensures
      var file := remote.content(version);
      Returned(file, t.oracle, AskedIn(t, direct, |file|), OverwritesIn(t, direct, |file|),
               HadBy(direct, t.before, |file|, t.location, t.n), t.stale, t.answer, t.location, t.n,
               Mirrors(t.before, file), Mirrors(t.after, file))
  {
    DoneReturns(remote, version, direct, guard, t.oracle, t.before, t.after, t.location, t.n, t.target, t.o, t.stale,
                t.window, t.answer);
  }

  /** The buffer that read `k` finds was in order from the start, or its newest refill succeeded on a
      whole answer. */
  ghost predicate WellFilled(turns: seq<Turn>, direct: bool, file: Bytes, k: nat)
    requires k < |turns|
  {
    var last := LastRefill(turns, direct, |file|, k);
    if last.Some? then AnsweredWhole(turns[last.value], direct, |file|) else Mirrors(turns[0].before, file)
  }

  /** In a run of any length, with any replies and exceptions before it, a read returns the bytes of
      the version its replies are pinned to, provided it and the newest refill before it succeeded on
      a whole answer. */
  lemma RunIsRight(remote: Remote, version: nat, turns: seq<Turn>, direct: bool, guard: Guard, k: nat)
    requires IsRun(turns, direct, guard, |remote.content(version)|) && k < |turns|
    requires forall i | 0 <= i < |turns| ::
      Honest(remote, turns[i].oracle) && Pinned(remote, turns[i].oracle, guard, version)
    requires WellFilled(turns, direct, remote.content(version), k)
    ensures Mirrors(turns[k].before, remote.content(version))
    ensures AnsweredWhole(turns[k], direct, |remote.content(version)|) ==>
      Begins(remote.content(version), turns[k].location, turns[k].answer)
  {
    var file, t := remote.content(version), turns[k];
    LastRefillDecides(turns, direct, guard, file, k);
    var last := LastRefill(turns, direct, |file|, k);
    if last.Some? {
      var i := last.value;
      assert IsTurn(turns[i], direct, guard, |file|) && Honest(remote, turns[i].oracle);
      TurnReturns(remote, version, turns[i], direct, guard);
    }
    if AnsweredWhole(t, direct, |file|) {
      assert IsTurn(t, direct, guard, |file|) && Honest(remote, t.oracle);
      TurnReturns(remote, version, t, direct, guard);
      OrderedReturns(file, t.oracle, AskedIn(t, direct, |file|), OverwritesIn(t, direct, |file|), direct, t.before,
                     t.stale, t.answer, t.location, t.n, Mirrors(t.after, file));
    }
  }

  /** Exactly: when the newest refill has succeeded on any final answer, the buffer is in order if and
      only if that answer reached the end of the refill, up to chance. */
  lemma OrderAfterRefill(remote: Remote, version: nat, turns: seq<Turn>, direct: bool, guard: Guard, k: nat)
    requires IsRun(turns, direct, guard, |remote.content(version)|) && k < |turns|
    requires forall i | 0 <= i < |turns| ::
      Honest(remote, turns[i].oracle) && Pinned(remote, turns[i].oracle, guard, version)
    requires LastRefill(turns, direct, |remote.content(version)|, k).Some?
    ensures
      var file := remote.content(version);
      var t := turns[LastRefill(turns, direct, |file|, k).value];
      var asked := AskedIn(t, direct, |file|);
      t.o.Success? && FinalAnswer(t.oracle, asked) ==>
        (Mirrors(turns[k].before, file) <==>
          RightUpTo(file, t.oracle, asked, t.stale, asked.value.0 + asked.value.1))
  {
    var file := remote.content(version);
    LastRefillDecides(turns, direct, guard, file, k);
    var i := LastRefill(turns, direct, |file|, k).value;
    assert IsTurn(turns[i], direct, guard, |file|) && Honest(remote, turns[i].oracle);
    if turns[i].o.Success? {
      TurnReturns(remote, version, turns[i], direct, guard);
    }
  }

  lemma RunSnoc(turns: seq<Turn>, t: Turn, direct: bool, guard: Guard, length: nat)
    requires IsRun(turns, direct, guard, length) && IsTurn(t, direct, guard, length)
    requires turns != [] ==> t.before == turns[|turns| - 1].after
    ensures IsRun(turns + [t], direct, guard, length)
  {
    hide IsTurn;
  }

  method ReadOne(handle: HTTPFileHandle, ghost remote: Remote, oracle: Oracle, location: nat, n: nat)
    returns (o: Outcome, got: Bytes, ghost t: Turn)
    requires handle.Open(remote) && location + n <= handle.length
    modifies handle, handle.readBuffer
    ensures handle.Open(remote) && handle.source == old(handle.source) && handle.Expected() == old(handle.Expected())
    ensures handle.readBuffer == old(handle.readBuffer) || fresh(handle.readBuffer)
    ensures IsTurn(t, handle.skipBuffer, old(handle.Expected()), handle.length)
    ensures (t.oracle, t.location, t.n, t.o, t.answer) == (oracle, location, n, o, got)
    ensures t.before == old(handle.Contents()) && t.after == handle.Contents()
  {
    hide ReadDone, Returned, Decided, BeneathBy, WholeAnswer;
    var out := new Byte[n];
    ghost var before, target, stale, window := handle.Contents(), out[..n], [], [];
    o, stale, window := handle.FirstHalf(remote, oracle, out, location, n);
    got := out[..n];
    t := Turn(oracle, location, n, target, before, handle.Contents(), o, stale, window, got);
  }

  /** A series of reads through one handle, with the replies `oracles` would give to each. It goes on
      after an exception and ends with the first read that has to fall back to a full download. Read
      `k` returns the bytes of the version recorded at open whenever it and the newest refill before
      it succeeded on a whole answer, whatever happened in between. */
  method ReadAll(handle: HTTPFileHandle, ghost remote: Remote, ranges: seq<(nat, nat)>, oracles: nat -> Oracle)
    returns (results: seq<(Outcome, Bytes)>, ghost turns: seq<Turn>)
    requires handle.Open(remote) && forall i | 0 <= i < |ranges| :: ranges[i].0 + ranges[i].1 <= handle.length
    modifies handle, handle.readBuffer
    ensures handle.Open(remote) && handle.source == old(handle.source) && |results| == |turns| <= |ranges|
    ensures IsRun(turns, handle.skipBuffer, old(handle.Expected()), |remote.content(handle.source)|)
    ensures forall i | 0 <= i < |turns| ::
      && turns[i].oracle == oracles(i) && (turns[i].location, turns[i].n) == ranges[i]
      && (turns[i].o, turns[i].answer) == results[i]
    ensures if turns == [] then handle.Contents() == old(handle.Contents())
            else turns[0].before == old(handle.Contents()) && handle.Contents() == turns[|turns| - 1].after
    ensures forall i | 0 <= i < |turns| - 1 :: !results[i].0.Fallback?
    ensures |results| < |ranges| ==> results != [] && results[|results| - 1].0.Fallback?
    ensures var file := remote.content(handle.source);
      (forall i | 0 <= i < |turns| ::
        Honest(remote, oracles(i)) && Pinned(remote, oracles(i), old(handle.Expected()), handle.source)) ==>
      forall k | 0 <= k < |turns| ::
        WellFilled(turns, handle.skipBuffer, file, k) && AnsweredWhole(turns[k], handle.skipBuffer, |file|) ==>
          Begins(file, ranges[k].0, results[k].1)
  {
    hide IsTurn, WellFilled, AnsweredWhole, Honest, Pinned;
    results, turns := [], [];
    ghost var guard, file, version := handle.Expected(), remote.content(handle.source), handle.source;
    var stopped, i := false, 0;
    while i < |ranges| && !stopped
      invariant i <= |ranges| && |results| == |turns| == i
      invariant handle.Open(remote) && handle.source == version && handle.Expected() == guard
      invariant handle.readBuffer == old(handle.readBuffer) || fresh(handle.readBuffer)
      invariant IsRun(turns, handle.skipBuffer, guard, |file|)
      invariant forall j | 0 <= j < i ::
        && turns[j].oracle == oracles(j) && (turns[j].location, turns[j].n) == ranges[j]
        && (turns[j].o, turns[j].answer) == results[j]
      invariant if i == 0 then handle.Contents() == old(handle.Contents())
                else turns[0].before == old(handle.Contents()) && handle.Contents() == turns[i - 1].after
      invariant forall j | 0 <= j < i - 1 :: !results[j].0.Fallback?
      invariant i > 0 ==> (stopped <==> results[i - 1].0.Fallback?)
      invariant i == 0 ==> !stopped
      decreases |ranges| - i
    {
      var o, got;
      ghost var t;
      o, got, t := ReadOne(handle, remote, oracles(i), ranges[i].0, ranges[i].1);
      RunSnoc(turns, t, handle.skipBuffer, guard, |file|);
      results, turns := results + [(o, got)], turns + [t];
      i, stopped := i + 1, o.Fallback?;
    }
    if forall j | 0 <= j < |turns| :: Honest(remote, oracles(j)) && Pinned(remote, oracles(j), guard, version) {
      AllRight(remote, version, turns, handle.skipBuffer, guard);
    }
  }

  lemma AllRight(remote: Remote, version: nat, turns: seq<Turn>, direct: bool, guard: Guard)
    requires IsRun(turns, direct, guard, |remote.content(version)|)
    requires forall i | 0 <= i < |turns| ::
      Honest(remote, turns[i].oracle) && Pinned(remote, turns[i].oracle, guard, version)
    ensures var file := remote.content(version);
      forall k | 0 <= k < |turns| ::
        WellFilled(turns, direct, file, k) && AnsweredWhole(turns[k], direct, |file|) ==>
          Begins(file, turns[k].location, turns[k].answer)
  {
    forall k | 0 <= k < |turns| && WellFilled(turns, direct, remote.content(version), k)
      ensures AnsweredWhole(turns[k], direct, |remote.content(version)|) ==>
        Begins(remote.content(version), turns[k].location, turns[k].answer)
    {
      RunIsRight(remote, version, turns, direct, guard, k);
    }
  }
}
