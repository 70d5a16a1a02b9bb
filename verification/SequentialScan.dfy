/** The refills of a fresh read buffer under a sequential scan. */
module SequentialScan {
  import opened Prelude
  import opened RangeBuffer

  const MIB: nat := 1048576

  function Sum(ns: seq<nat>): nat {
    if ns == [] then 0 else Sum(ns[..|ns| - 1]) + ns[|ns| - 1]
  }

  const FRESH: View := View(0, 0, INITIAL_READ_BUFFER_LEN, None, [])

  /** The view after reads of these sizes, each where the previous one ended. */
  function Scan(length: nat, ns: seq<nat>): View
    requires Sum(ns) <= length
  {
    if ns == [] then FRESH
    else NextView(Scan(length, ns[..|ns| - 1]), length, Sum(ns[..|ns| - 1]), ns[|ns| - 1])
  }

  function Pow2(k: nat): (p: nat)
    ensures p >= 1
  {
    if k == 0 then 1 else 2 * Pow2(k - 1)
  }

  /** What refill `i` asks for at most: 2^min(i, 5) MiB. */
  function RefillLimit(i: nat): nat {
    Pow2(Min(i, 5)) * MIB
  }

  /** How far `k` refills reach. */
  function Reach(length: nat, k: nat): nat {
    if k == 0 then 0 else Min(length, Reach(length, k - 1) + RefillLimit(k - 1))
  }

  lemma PowersUpTo(i: nat)
    requires i <= 5
    ensures 1 <= Pow2(i) <= 32 && (i < 5 ==> Pow2(i) <= 16) && (i == 5 ==> Pow2(i) == 32)
  {
    assert Pow2(5) == 2 * Pow2(4) == 4 * Pow2(3) == 8 * Pow2(2) == 16 * Pow2(1) == 32;
  }

  /** The adaptive size doubles until it is 32 MiB, starting from the initial 1 MiB. */
  lemma LimitSteps(i: nat)
    ensures MIB <= RefillLimit(i) <= MAXIMUM_READ_BUFFER_LEN && RefillLimit(0) == INITIAL_READ_BUFFER_LEN
    ensures
      RefillLimit(i + 1) == if RefillLimit(i) >= MAXIMUM_READ_BUFFER_LEN then RefillLimit(i) else RefillLimit(i) * 2
  {
    PowersUpTo(Min(i, 5));
  }

  /** The closed form of the reach without the end of the file. */
  function ReachMiB(k: nat): nat {
    if k <= 6 then Pow2(k) - 1 else 63 + 32 * (k - 6)
  }

  lemma ReachStep(k: nat)
    ensures ReachMiB(k + 1) == ReachMiB(k) + Pow2(Min(k, 5))
  {
    PowersUpTo(Min(k, 5));
    if k >= 6 {
      assert Pow2(6) == 2 * Pow2(5);
    }
  }

  /** `k` refills cover 2^k - 1 MiB for k <= 6 and 32 MiB more with each one after that, until
      the end of the file. */
  lemma {:induction false} ReachIs(length: nat, k: nat)
    ensures Reach(length, k) == Min(length, ReachMiB(k) * MIB)
  {
    if k > 0 {
      ReachIs(length, k - 1);
      ReachStep(k - 1);
    }
  }

  /** Every request is the refill of its turn. */
  ghost predicate Refills(requests: seq<(nat, nat)>, length: nat) {
    forall i | 0 <= i < |requests| :: requests[i] == Refill(length, i)
  }

  function Refill(length: nat, i: nat): (nat, nat) {
    var at := Reach(length, i);
    (at, Min(RefillLimit(i), if length < at then 0 else length - at))
  }

  /** The state between two reads after `k` refills: the buffer holds the newest refill and the
      scan is in it. */
  ghost predicate Scanning(v: View, k: nat, length: nat, position: nat) {
    && k == |v.requests| && v.end == Reach(length, k) <= length && position <= v.end
    && if k == 0 then v == FRESH
       else v.start == Reach(length, k - 1) < position && v.size == RefillLimit(k - 1)
            && v.last == Some((v.start, v.end - v.start))
  }

  /** A scan never reads more at once than the buffer can hold, so a read that the buffer does
      not serve refills it. */
  lemma NextRefill(v: View, k: nat, length: nat, position: nat, n: nat)
    requires Scanning(v, k, length, position) && n <= MIB && position + n <= length && position + n > v.end
    ensures NextView(v, length, position, n) == Fetched(v, length, v.end, n - (v.end - position))
    ensures n - (v.end - position) <= v.size && AdaptedSize(v.size, v.last, v.end) == RefillLimit(k)
  {
    LimitSteps(k);
    if k > 0 {
      LimitSteps(k - 1);
    }
  }

  lemma RefillKeeps(v: View, k: nat, length: nat, rest: nat)
    requires k == |v.requests| && v.end == Reach(length, k) && 0 < rest <= v.size && v.end + rest <= length
    requires AdaptedSize(v.size, v.last, v.end) == RefillLimit(k) && rest <= RefillLimit(k)
    ensures var w := Fetched(v, length, v.end, rest);
      && Scanning(w, k + 1, length, v.end + rest) && w.requests == v.requests + [Refill(length, k)]
  {
  }

  lemma NextScanning(v: View, k: nat, length: nat, position: nat, n: nat)
    requires Scanning(v, k, length, position) && Refills(v.requests, length) && n <= MIB && position + n <= length
    ensures var w := NextView(v, length, position, n);
      Scanning(w, |w.requests|, length, position + n) && Refills(w.requests, length)
  {
    if position + n > v.end {
      NextRefill(v, k, length, position, n);
      LimitSteps(k);
      hide NextView, RefillLimit, Reach;
      RefillKeeps(v, k, length, position + n - v.end);
      RefillsSnoc(v.requests, length);
    } else {
      assert NextView(v, length, position, n) == v;
    }
  }

  lemma RefillsSnoc(requests: seq<(nat, nat)>, length: nat)
    requires Refills(requests, length)
    ensures Refills(requests + [Refill(length, |requests|)], length)
  {
  }

  /** On a fresh handle read sequentially in pieces of at most 1 MiB, request `i` is refill `i`:
      no request bypasses the buffer, none is repeated, and none is sent before the scan needs
      it. */
  lemma {:induction false} ScanRefills(length: nat, ns: seq<nat>)
    requires Sum(ns) <= length && forall i | 0 <= i < |ns| :: ns[i] <= MIB
    ensures var v := Scan(length, ns);
      Scanning(v, |v.requests|, length, Sum(ns)) && Refills(v.requests, length)
  {
    if ns != [] {
      var before := ns[..|ns| - 1];
      ScanRefills(length, before);
      var v := Scan(length, before);
      NextScanning(v, |v.requests|, length, Sum(before), ns[|ns| - 1]);
    }
  }

  /** In closed form: refill `i` asks for min(2^min(i, 5) MiB, what remains) and starts where
      the refills before it end; as long as there are at most `k` requests, the scan has not
      passed what `k` refills cover. */
  lemma ScanRefillSizes(length: nat, ns: seq<nat>, i: nat)
    requires Sum(ns) <= length && forall j | 0 <= j < |ns| :: ns[j] <= MIB
    ensures var r := Scan(length, ns).requests;
      && (i < |r| ==> var at := Min(length, ReachMiB(i) * MIB);
                      r[i] == (at, Min(Pow2(Min(i, 5)) * MIB, length - at)))
      && (i < |r| ==> Min(length, ReachMiB(i) * MIB) < Sum(ns))
      && (|r| <= i ==> Sum(ns) <= Min(length, ReachMiB(i) * MIB))
  {
    ScanRefills(length, ns);
    ReachIs(length, i);
    var r := Scan(length, ns).requests;
    if i < |r| {
      ReachGrows(length, i, |r| - 1);
    } else {
      ReachGrows(length, |r|, i);
    }
  }

  lemma {:induction false} ReachGrows(length: nat, i: nat, k: nat)
    requires i <= k
    ensures Reach(length, i) <= Reach(length, k) <= length
  {
    if i < k {
      ReachGrows(length, i, k - 1);
    } else if k > 0 {
      ReachIs(length, k);
    }
  }
}
