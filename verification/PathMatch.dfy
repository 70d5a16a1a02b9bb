/** Segment-wise pattern matching of object keys: the S3 matcher, which can also judge a
    key prefix, and the Hugging Face matcher. Matching of one segment (`Glob`) is a parameter. */
module PathMatch {

  type Segment = string
  type Key = seq<Segment>
  type SegmentGlob = (Segment, Segment) -> bool

  const CRAWL: Segment := "**"

  /** Pattern segment j covers key[from..to]: a crawl covers any number of key segments, at
      least one when it comes last; any other segment covers one key segment that it globs. */
  ghost predicate Covers(glob: SegmentGlob, key: Key, pattern: Key, j: nat, from: nat, to: nat)
    requires j < |pattern|
  {
    if pattern[j] == CRAWL then
      from <= to && (j == |pattern| - 1 ==> from < to)
    else
      to == from + 1 && from < |key| && glob(key[from], pattern[j])
  }

  /** Cut positions `c` align `key` with `pattern`, segment by segment. */
  ghost predicate Aligned(glob: SegmentGlob, key: Key, pattern: Key, c: seq<nat>) {
    && |c| == |pattern| + 1 && c[0] == 0 && c[|pattern|] == |key|
    && forall j | 0 <= j < |pattern| :: Covers(glob, key, pattern, j, c[j], c[j + 1])
  }

  /** The declarative meaning of a pattern. */
  ghost predicate Denotes(glob: SegmentGlob, key: Key, pattern: Key) {
    exists c :: Aligned(glob, key, pattern, c)
  }

  /** Position of the first crawl segment, or the length of the pattern. */
  function FirstCrawl(pattern: Key): (i: nat)
    ensures i <= |pattern|
    ensures forall j | 0 <= j < i :: pattern[j] != CRAWL
    ensures i < |pattern| ==> pattern[i] == CRAWL
  {
    if pattern == [] || pattern[0] == CRAWL then 0 else 1 + FirstCrawl(pattern[1..])
  }

  /** What a prefix has to satisfy before the walk descends into it: agreement segment by
      segment up to the first crawl, and not longer than a pattern that has no crawl. */
  ghost predicate CouldMatch(glob: SegmentGlob, prefix: Key, pattern: Key) {
    var f := FirstCrawl(pattern);
    && (|prefix| <= |pattern| || f < |pattern|)
    && forall i | 0 <= i < f && i < |prefix| :: glob(prefix[i], pattern[i])
  }

  // The same meaning by recursion on the pattern, the form the loops below follow.
  ghost predicate Descends(glob: SegmentGlob, key: Key, pattern: Key)
    decreases |pattern|
  {
    if pattern == [] then key == []
    else if pattern[0] == CRAWL then
      if |pattern| == 1 then key != []
      else exists i | 0 <= i <= |key| :: Descends(glob, key[i..], pattern[1..])
    else key != [] && glob(key[0], pattern[0]) && Descends(glob, key[1..], pattern[1..])
  }

  function Shift(c: seq<nat>, offset: int): (r: seq<nat>)
    requires forall i | 0 <= i < |c| :: 0 <= c[i] + offset
    ensures |r| == |c| && forall i | 0 <= i < |c| :: r[i] == c[i] + offset
  {
    seq(|c|, i requires 0 <= i < |c| => c[i] + offset)
  }

  // Dropping the first pattern segment together with the i key segments it covers.
  lemma DropFirst(glob: SegmentGlob, key: Key, pattern: Key, i: nat, j: nat, from: nat, to: nat)
    requires 0 < j < |pattern| && i <= |key| && i <= from && i <= to
    ensures Covers(glob, key, pattern, j, from, to) <==> Covers(glob, key[i..], pattern[1..], j - 1, from - i, to - i)
  {
  }

  lemma {:induction false} DescendsToCuts(glob: SegmentGlob, key: Key, pattern: Key) returns (c: seq<nat>)
    requires Descends(glob, key, pattern)
    ensures Aligned(glob, key, pattern, c)
    decreases |pattern|
  {
    if pattern == [] {
      c := [0];
    } else if pattern == [CRAWL] {
      c := [0, |key|];
    } else {
      var i := 1;
      if pattern[0] == CRAWL {
        i :| 0 <= i <= |key| && Descends(glob, key[i..], pattern[1..]);
      }
      var rest := DescendsToCuts(glob, key[i..], pattern[1..]);
      c := [0] + Shift(rest, i);
      forall j | 0 <= j < |pattern| ensures Covers(glob, key, pattern, j, c[j], c[j + 1]) {
        if j > 0 {
          assert Covers(glob, key[i..], pattern[1..], j - 1, rest[j - 1], rest[j]);
          DropFirst(glob, key, pattern, i, j, c[j], c[j + 1]);
        }
      }
    }
  }

  lemma {:induction false} CutsRise(glob: SegmentGlob, key: Key, pattern: Key, c: seq<nat>, i: nat, j: nat)
    requires Aligned(glob, key, pattern, c) && i <= j <= |pattern|
    ensures c[i] <= c[j]
    decreases j
  {
    if i < j {
      CutsRise(glob, key, pattern, c, i, j - 1);
      assert Covers(glob, key, pattern, j - 1, c[j - 1], c[j]);
    }
  }

  lemma {:induction false} CutsToDescends(glob: SegmentGlob, key: Key, pattern: Key, c: seq<nat>)
    requires Aligned(glob, key, pattern, c)
    ensures Descends(glob, key, pattern)
    decreases |pattern|
  {
    if pattern != [] && pattern != [CRAWL] {
      var i: int := c[1];
      forall j | 1 <= j < |c| ensures c[j] >= i {
        CutsRise(glob, key, pattern, c, 1, j);
      }
      assert Covers(glob, key, pattern, 0, c[0], c[1]);
      CutsRise(glob, key, pattern, c, 1, |pattern|);
      var tail := c[1..];
      assert forall k | 0 <= k < |tail| :: tail[k] == c[k + 1];
      var rest := Shift(tail, -i);
      forall j | 0 <= j < |pattern| - 1
        ensures Covers(glob, key[i..], pattern[1..], j, rest[j], rest[j + 1])
      {
        assert Covers(glob, key, pattern, j + 1, c[j + 1], c[j + 2]);
        DropFirst(glob, key, pattern, i, j + 1, c[j + 1], c[j + 2]);
      }
      CutsToDescends(glob, key[i..], pattern[1..], rest);
    }
  }

  lemma DescendsIsDenotes(glob: SegmentGlob, key: Key, pattern: Key)
    ensures Descends(glob, key, pattern) <==> Denotes(glob, key, pattern)
  {
    if Descends(glob, key, pattern) {
      var c := DescendsToCuts(glob, key, pattern);
    }
    if Denotes(glob, key, pattern) {
      var c :| Aligned(glob, key, pattern, c);
      CutsToDescends(glob, key, pattern, c);
    }
  }

  // A pattern that is not empty never matches the empty key.
  lemma {:induction false} EmptyKeyNeverDescends(glob: SegmentGlob, pattern: Key)
    requires pattern != []
    ensures !Descends(glob, [], pattern)
    decreases |pattern|
  {
    if pattern[0] == CRAWL && |pattern| > 1 {
      EmptyKeyNeverDescends(glob, pattern[1..]);
      var empty: Key := [];
      assert forall i | 0 <= i <= |empty| :: empty[i..] == empty;
    }
  }

  /** The S3 matcher. With `completed` it decides the meaning of the pattern for a whole key;
      without, it decides whether a directory prefix is worth listing. */
  method Match(glob: SegmentGlob, key: Key, pattern: Key, completed: bool) returns (r: bool)
    ensures completed ==> (r <==> Denotes(glob, key, pattern))
    ensures !completed ==> (r <==> CouldMatch(glob, key, pattern))
    decreases |pattern|
  {
    DescendsIsDenotes(glob, key, pattern);
    if key == [] && !completed {
      return true;
    }
    var i := 0;
    while i < |key| && i < |pattern|
      invariant 0 <= i <= |key| && i <= |pattern|
      invariant forall j | 0 <= j < i :: pattern[j] != CRAWL && glob(key[j], pattern[j])
      invariant Descends(glob, key, pattern) <==> Descends(glob, key[i..], pattern[i..])
    {
      if pattern[i] == CRAWL {
        if i + 1 == |pattern| {
          return true;
        }
        var k := i;
        while k < |key|
          invariant i <= k <= |key|
          invariant completed ==> forall t | i <= t < k :: !Descends(glob, key[t..], pattern[i + 1..])
        {
          DescendsIsDenotes(glob, key[k..], pattern[i + 1..]);
          var found := Match(glob, key[k..], pattern[i + 1..], completed);
          if found {
            assert completed ==> key[i..][k - i..] == key[k..];
            assert pattern[i..][1..] == pattern[i + 1..];
            return true;
          }
          k := k + 1;
        }
        EmptyKeyNeverDescends(glob, pattern[i + 1..]);
        assert pattern[i..][1..] == pattern[i + 1..];
        assert forall t | 0 <= t <= |key[i..]| :: key[i..][t..] == key[i + t..];
        return !completed;
      }
      if !glob(key[i], pattern[i]) {
        return false;
      }
      assert key[i..][1..] == key[i + 1..] && pattern[i..][1..] == pattern[i + 1..];
      i := i + 1;
    }
    if i < |pattern| {
      EmptyKeyNeverDescends(glob, pattern[i..]);
    }
    if i < |pattern| && !completed {
      return true;
    }
    return i == |key| && i == |pattern|;
  }

  /** The Hugging Face matcher: its own loops, the same meaning. */
  method MatchHuggingFace(glob: SegmentGlob, key: Key, pattern: Key) returns (r: bool)
    ensures r <==> Denotes(glob, key, pattern)
    decreases |pattern|
  {
    DescendsIsDenotes(glob, key, pattern);
    var i := 0;
    while i < |key| && i < |pattern|
      invariant 0 <= i <= |key| && i <= |pattern|
      invariant Descends(glob, key, pattern) <==> Descends(glob, key[i..], pattern[i..])
    {
      assert pattern[i..][1..] == pattern[i + 1..];
      if pattern[i] == CRAWL {
        if i + 1 == |pattern| {
          return true;
        }
        var k := i;
        while k < |key|
          invariant i <= k <= |key|
          invariant forall t | i <= t < k :: !Descends(glob, key[t..], pattern[i + 1..])
        {
          DescendsIsDenotes(glob, key[k..], pattern[i + 1..]);
          var found := MatchHuggingFace(glob, key[k..], pattern[i + 1..]);
          if found {
            assert key[i..][k - i..] == key[k..];
            return true;
          }
          k := k + 1;
        }
        EmptyKeyNeverDescends(glob, pattern[i + 1..]);
        assert forall t | 0 <= t <= |key[i..]| :: key[i..][t..] == key[i + t..];
        return false;
      }
      if !glob(key[i], pattern[i]) {
        return false;
      }
      assert key[i..][1..] == key[i + 1..];
      i := i + 1;
    }
    if i < |pattern| {
      EmptyKeyNeverDescends(glob, pattern[i..]);
    }
    return i == |key| && i == |pattern|;
  }

  /** Pruning is sound: a prefix with a matching extension is never rejected. */
  lemma {:induction false} PruningSound(glob: SegmentGlob, prefix: Key, rest: Key, pattern: Key)
    requires Denotes(glob, prefix + rest, pattern)
    ensures CouldMatch(glob, prefix, pattern)
  {
    var c :| Aligned(glob, prefix + rest, pattern, c);
    var f := FirstCrawl(pattern);
    CutsBeforeCrawl(glob, prefix + rest, pattern, c, f);
    forall i | 0 <= i < f && i < |prefix| ensures glob(prefix[i], pattern[i]) {
      CutsBeforeCrawl(glob, prefix + rest, pattern, c, i);
      assert Covers(glob, prefix + rest, pattern, i, c[i], c[i + 1]);
      assert (prefix + rest)[c[i]] == prefix[i];
    }
  }

  lemma {:induction false} CutsBeforeCrawl(glob: SegmentGlob, key: Key, pattern: Key, c: seq<nat>, i: nat)
    requires Aligned(glob, key, pattern, c) && i <= FirstCrawl(pattern)
    ensures c[i] == i
  {
    if i > 0 {
      CutsBeforeCrawl(glob, key, pattern, c, i - 1);
      assert Covers(glob, key, pattern, i - 1, c[i - 1], c[i]);
    }
  }

  ghost predicate HasName(glob: SegmentGlob, s: Segment) {
    exists w: Segment :: glob(w, s)
  }

  ghost predicate Satisfiable(glob: SegmentGlob, pattern: Key) {
    forall j | 0 <= j < |pattern| :: HasName(glob, pattern[j])
  }

  /** Pruning is also exact: where every pattern segment is matched by some name, a prefix is
      kept if and only if one of its extensions matches. */
  lemma PruningExact(glob: SegmentGlob, prefix: Key, pattern: Key)
    requires Satisfiable(glob, pattern)
    ensures CouldMatch(glob, prefix, pattern) <==> exists rest: Key :: Denotes(glob, prefix + rest, pattern)
  {
    if CouldMatch(glob, prefix, pattern) {
      var rest := Extension(glob, prefix, pattern);
      DescendsIsDenotes(glob, prefix + rest, pattern);
    }
    if rest: Key :| Denotes(glob, prefix + rest, pattern) {
      PruningSound(glob, prefix, rest, pattern);
    }
  }

  lemma {:induction false} Extension(glob: SegmentGlob, prefix: Key, pattern: Key) returns (rest: Key)
    requires Satisfiable(glob, pattern) && CouldMatch(glob, prefix, pattern)
    ensures Descends(glob, prefix + rest, pattern)
    decreases |pattern|
  {
    if pattern == [] {
      rest := [];
    } else {
      var tail := pattern[1..];
      if pattern[0] == CRAWL {
        if |pattern| == 1 {
          rest := ["x"];
        } else {
          rest := Extension(glob, [], tail);
          assert (prefix + rest)[|prefix|..] == [] + rest;
        }
      } else if prefix == [] {
        assert HasName(glob, pattern[0]);
        var w: Segment :| glob(w, pattern[0]);
        var r := Extension(glob, [], tail);
        rest := [w] + r;
        assert (prefix + rest)[1..] == [] + r;
      } else {
        assert FirstCrawl(pattern) == 1 + FirstCrawl(tail);
        forall i | 0 <= i < FirstCrawl(tail) && i < |prefix[1..]| ensures glob(prefix[1..][i], tail[i]) {
          assert glob(prefix[i + 1], pattern[i + 1]);
        }
        rest := Extension(glob, prefix[1..], tail);
        assert (prefix + rest)[1..] == prefix[1..] + rest;
      }
    }
  }
}
