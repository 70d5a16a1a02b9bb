/** The recursive S3 glob: a depth-first walk over delimited listings, or a flat scan, that the
    first response chooses between. The server pages every listing as it likes. */
module GlobWalk {
  import opened PathMatch

  // Object keys are lists of segments. A directory marker, a key that ends in the delimiter,
  // is a list whose last segment is empty.
  predicate IsFile(key: Key) {
    key != [] && key[|key| - 1] != ""
  }

  /** A string prefix of keys: whole leading segments, then the beginning of the next one. */
  datatype Prefix = Prefix(dirs: Key, partial: Segment)

  predicate Under(key: Key, prefix: Prefix) {
    |key| > |prefix.dirs| && key[..|prefix.dirs|] == prefix.dirs && prefix.partial <= key[|prefix.dirs|]
  }

  /** One element of a listing: an object, or a common prefix that ends in the delimiter. */
  datatype Entry = File(key: Key) | Dir(dirs: Key)

  /** Where a key shows up in the listing of a prefix it is under. */
  function Shown(key: Key, prefix: Prefix, delimiter: bool): Entry
    requires Under(key, prefix)
  {
    if delimiter && |key| > |prefix.dirs| + 1 then Dir(key[..|prefix.dirs| + 1]) else File(key)
  }

  ghost predicate IsListing(entries: seq<Entry>, keys: set<Key>, prefix: Prefix, delimiter: bool) {
    && (forall i, j | 0 <= i < j < |entries| :: entries[i] != entries[j])
    && (forall k | k in keys && Under(k, prefix) :: Shown(k, prefix, delimiter) in entries)
    && (forall e | e in entries :: Stands(e, keys, prefix, delimiter))
  }

  /** An entry stands for some key under the prefix. */
  ghost predicate Stands(e: Entry, keys: set<Key>, prefix: Prefix, delimiter: bool) {
    exists k :: k in keys && Under(k, prefix) && e == Shown(k, prefix, delimiter)
  }

  /** A bucket and, for every prefix, the order in which the server enumerates its listing. */
  datatype Server = Server(keys: set<Key>, list: (Prefix, bool) -> seq<Entry>) {
    ghost predicate Lists(prefix: Prefix, delimiter: bool) {
      IsListing(list(prefix, delimiter), keys, prefix, delimiter)
    }

    ghost predicate Valid() {
      forall p, d :: Lists(p, d)
    }
  }

  /** How the server cuts one page: how many entries beyond the first, and whether it hands
      out a continuation token although nothing is left. */
  datatype Cut = Cut(extra: nat, tokenAtEnd: bool)

  /** A response: the entries of one page and the next token, 0 when there is none. */
  datatype Page = Page(entries: seq<Entry>, token: nat)

  function Respond(listing: seq<Entry>, token: nat, cut: Cut): (page: Page)
    requires token <= |listing|
    ensures page.token <= |listing|
    ensures listing[token..] == page.entries + Rest(listing, page.token)
    ensures page.token != 0 ==> page.entries != []
  {
    var end := if |listing| - token <= cut.extra then |listing| else token + 1 + cut.extra;
    Page(listing[token..end], if end < |listing| || (cut.tokenAtEnd && end > token) then end else 0)
  }

  /** What a listing still has to deliver after a page that returned `token`. */
  function Rest(listing: seq<Entry>, token: nat): seq<Entry>
    requires token <= |listing|
  {
    if token == 0 then [] else listing[token..]
  }

  /** The objects of a page, directory markers skipped. */
  function FileList(entries: seq<Entry>): seq<Key> {
    if entries == [] then []
    else (if entries[0].File? && IsFile(entries[0].key) then [entries[0].key] else []) + FileList(entries[1..])
  }

  function CommonPrefixes(entries: seq<Entry>): seq<Key> {
    if entries == [] then []
    else (if entries[0].Dir? then [entries[0].dirs] else []) + CommonPrefixes(entries[1..])
  }

  function Parent(key: Key): Key {
    if key == [] then [] else key[..|key| - 1]
  }

  /** A glob request: the bucket, the literal prefix of the pattern and the pattern itself. */
  datatype Query = Query(server: Server, glob: SegmentGlob, shared: Prefix, pattern: Key, allowRecursive: bool) {
    ghost predicate Wanted(key: Key) {
      IsFile(key) && Denotes(glob, key, pattern)
    }

    ghost predicate Selects(prefix: Prefix, key: Key) {
      key in server.keys && Under(key, prefix) && Wanted(key)
    }

    /** The objects of the bucket that a flat listing of `prefix`, filtered by the pattern, gives. */
    ghost function Matches(prefix: Prefix): set<Key> {
      set k | k in server.keys && Selects(prefix, k)
    }
  }

  // ----- How often one key is still to be found, over a frontier of entries -----

  ghost predicate Reaches(e: Entry, key: Key) {
    match e
    case File(k) => k == key
    case Dir(d) => Under(key, Prefix(d, ""))
  }

  ghost predicate Owed(q: Query, key: Key, e: Entry) {
    key in q.server.keys && Reaches(e, key) && q.Wanted(key)
  }

  ghost function Todo(q: Query, key: Key, frontier: seq<Entry>): nat {
    if frontier == [] then 0
    else (if Owed(q, key, frontier[0]) then 1 else 0) + Todo(q, key, frontier[1..])
  }

  ghost function TodoDirs(q: Query, key: Key, prefixes: seq<Key>): nat {
    if prefixes == [] then 0
    else (if Owed(q, key, Dir(prefixes[0])) then 1 else 0) + TodoDirs(q, key, prefixes[1..])
  }

  lemma {:induction false} TodoConcat(q: Query, key: Key, a: seq<Entry>, b: seq<Entry>)
    ensures Todo(q, key, a + b) == Todo(q, key, a) + Todo(q, key, b)
  {
    if a == [] {
      assert a + b == b;
    } else {
      TodoConcat(q, key, a[1..], b);
      assert (a + b)[1..] == a[1..] + b;
    }
  }

  lemma {:induction false} TodoDirsConcat(q: Query, key: Key, a: seq<Key>, b: seq<Key>)
    ensures TodoDirs(q, key, a + b) == TodoDirs(q, key, a) + TodoDirs(q, key, b)
  {
    if a == [] {
      assert a + b == b;
    } else {
      TodoDirsConcat(q, key, a[1..], b);
      assert (a + b)[1..] == a[1..] + b;
    }
  }

  lemma {:induction false} NotReached(q: Query, key: Key, frontier: seq<Entry>)
    requires forall e | e in frontier :: !Owed(q, key, e)
    ensures Todo(q, key, frontier) == 0
  {
    if frontier != [] {
      NotReached(q, key, frontier[1..]);
    }
  }

  lemma {:induction false} ReachedOnce(q: Query, key: Key, frontier: seq<Entry>, i: nat)
    requires i < |frontier| && Owed(q, key, frontier[i])
    requires forall j | 0 <= j < |frontier| && j != i :: !Owed(q, key, frontier[j])
    ensures Todo(q, key, frontier) == 1
  {
    var tail := frontier[1..];
    assert forall j | 0 <= j < |tail| :: tail[j] == frontier[j + 1];
    if i == 0 {
      NotReached(q, key, tail);
    } else {
      ReachedOnce(q, key, tail, i - 1);
    }
  }

  // Keys that agree on the first n + 1 segments are under the same prefixes of n segments.
  lemma SameDirectory(prefix: Prefix, k: Key, key: Key)
    requires Under(k, prefix) && |key| > |prefix.dirs| && key[..|prefix.dirs| + 1] == k[..|prefix.dirs| + 1]
    ensures Under(key, prefix)
  {
    var n := |prefix.dirs|;
    assert key[..n] == key[..n + 1][..n] && k[..n] == k[..n + 1][..n];
    assert key[n] == key[..n + 1][n] && k[n] == k[..n + 1][n];
  }

  // Within the listing of a prefix, an entry reaches exactly the keys that show up as it.
  lemma ReachesWhatItShows(server: Server, prefix: Prefix, delimiter: bool, e: Entry, key: Key)
    requires Stands(e, server.keys, prefix, delimiter)
    ensures Reaches(e, key) <==> Under(key, prefix) && e == Shown(key, prefix, delimiter)
  {
    var k :| k in server.keys && Under(k, prefix) && e == Shown(k, prefix, delimiter);
    if e.Dir? && |key| > |prefix.dirs| + 1 && key[..|prefix.dirs| + 1] == e.dirs {
      SameDirectory(prefix, k, key);
    }
  }

  /** A listing splits the keys under its prefix: every matching one is owed by exactly one
      entry, whatever the order of the entries and whether or not there is a delimiter. */
  lemma ListingOwes(q: Query, key: Key, prefix: Prefix, delimiter: bool)
    requires q.server.Valid()
    ensures Todo(q, key, q.server.list(prefix, delimiter)) == if q.Selects(prefix, key) then 1 else 0
  {
    var entries := q.server.list(prefix, delimiter);
    assert q.server.Lists(prefix, delimiter);
    forall e | e in entries && Stands(e, q.server.keys, prefix, delimiter)
      ensures Owed(q, key, e) <==> q.Selects(prefix, key) && e == Shown(key, prefix, delimiter)
    {
      ReachesWhatItShows(q.server, prefix, delimiter, e, key);
    }
    if q.Selects(prefix, key) {
      var i :| 0 <= i < |entries| && entries[i] == Shown(key, prefix, delimiter);
      ReachedOnce(q, key, entries, i);
    } else {
      NotReached(q, key, entries);
    }
  }

  /** A common prefix stands for its own listing. */
  lemma DirOwesItsListing(q: Query, key: Key, dirs: Key)
    requires q.server.Valid()
    ensures Todo(q, key, q.server.list(Prefix(dirs, ""), true)) == if Owed(q, key, Dir(dirs)) then 1 else 0
  {
    ListingOwes(q, key, Prefix(dirs, ""), true);
  }

  /** A common prefix that the pattern rules out owes nothing. */
  lemma PrunedOwesNothing(q: Query, key: Key, dirs: Key)
    requires !CouldMatch(q.glob, dirs, q.pattern)
    ensures !Owed(q, key, Dir(dirs))
  {
    if Owed(q, key, Dir(dirs)) {
      assert key == dirs + key[|dirs|..];
      PruningSound(q.glob, dirs, key[|dirs|..], q.pattern);
    }
  }

  // ----- What a page emits -----

  ghost function Matching(keys: seq<Key>, glob: SegmentGlob, pattern: Key): seq<Key> {
    if keys == [] then []
    else (if Denotes(glob, keys[0], pattern) then [keys[0]] else []) + Matching(keys[1..], glob, pattern)
  }

  lemma {:induction false} MatchingAppend(keys: seq<Key>, key: Key, glob: SegmentGlob, pattern: Key)
    ensures Matching(keys + [key], glob, pattern) ==
      Matching(keys, glob, pattern) + (if Denotes(glob, key, pattern) then [key] else [])
  {
    if keys != [] {
      MatchingAppend(keys[1..], key, glob, pattern);
      assert (keys + [key])[1..] == keys[1..] + [key];
    }
  }

  function Occurrences(keys: seq<Key>, key: Key): nat {
    multiset(keys)[key]
  }

  lemma OccurrencesConcat(a: seq<Key>, b: seq<Key>, key: Key)
    ensures Occurrences(a + b, key) == Occurrences(a, key) + Occurrences(b, key)
  {
  }

  /** How often a page emits a key. */
  ghost function Found(q: Query, key: Key, keys: seq<Key>): nat {
    Occurrences(Matching(keys, q.glob, q.pattern), key)
  }

  // Reading entries moves what they owe to the emitted objects and the new common prefixes.
  lemma {:induction false} EntriesSplit(q: Query, key: Key, entries: seq<Entry>)
    requires forall e | e in entries && e.File? :: e.key in q.server.keys
    ensures Todo(q, key, entries) == Found(q, key, FileList(entries)) + TodoDirs(q, key, CommonPrefixes(entries))
  {
    if entries != [] {
      var e, tail := entries[0], entries[1..];
      EntriesSplit(q, key, tail);
      if e.Dir? {
        assert CommonPrefixes(entries) == [e.dirs] + CommonPrefixes(tail);
        TodoDirsConcat(q, key, [e.dirs], CommonPrefixes(tail));
        assert FileList(entries) == FileList(tail);
      } else {
        assert CommonPrefixes(entries) == CommonPrefixes(tail);
        if IsFile(e.key) {
          FileSplits(q, key, e.key, FileList(tail));
          assert FileList(entries) == [e.key] + FileList(tail);
        } else {
          assert FileList(entries) == FileList(tail);
        }
      }
    }
  }

  lemma FileSplits(q: Query, key: Key, file: Key, tail: seq<Key>)
    requires file in q.server.keys && IsFile(file)
    ensures Found(q, key, [file] + tail) == (if Owed(q, key, File(file)) then 1 else 0) + Found(q, key, tail)
  {
    var kept := if Denotes(q.glob, file, q.pattern) then [file] else [];
    assert ([file] + tail)[1..] == tail;
    OccurrencesConcat(kept, Matching(tail, q.glob, q.pattern), key);
  }

  // What every listing entry looks like.
  ghost predicate WellPlaced(e: Entry, keys: set<Key>, prefix: Prefix, delimiter: bool) {
    match e
    case File(k) => k in keys
    case Dir(d) => delimiter && |d| == |prefix.dirs| + 1
  }

  lemma EntriesOfListing(server: Server, prefix: Prefix, delimiter: bool)
    requires server.Valid()
    ensures forall e | e in server.list(prefix, delimiter) :: WellPlaced(e, server.keys, prefix, delimiter)
  {
    forall e | e in server.list(prefix, delimiter) ensures WellPlaced(e, server.keys, prefix, delimiter) {
      assert server.Lists(prefix, delimiter);
      assert Stands(e, server.keys, prefix, delimiter);
    }
  }

  /** One page of a listing, read from `token`: what the listing still owes is split between
      the page's own objects, its common prefixes and the rest behind the next token. */
  lemma PageOwes(q: Query, key: Key, prefix: Prefix, delimiter: bool, token: nat, cut: Cut)
    requires q.server.Valid() && token <= |q.server.list(prefix, delimiter)|
    ensures
      var listing := q.server.list(prefix, delimiter);
      var page := Respond(listing, token, cut);
      Todo(q, key, listing[token..]) ==
        Found(q, key, FileList(page.entries)) + TodoDirs(q, key, CommonPrefixes(page.entries)) +
        Todo(q, key, Rest(listing, page.token))
  {
    var listing := q.server.list(prefix, delimiter);
    var page := Respond(listing, token, cut);
    EntriesOfListing(q.server, prefix, delimiter);
    assert forall e | e in page.entries :: e in listing && WellPlaced(e, q.server.keys, prefix, delimiter);
    TodoConcat(q, key, page.entries, Rest(listing, page.token));
    EntriesSplit(q, key, page.entries);
  }

  // ----- A bound on the remaining requests -----

  ghost function Depth(keys: set<Key>): (d: nat)
    ensures forall k | k in keys :: |k| <= d
  {
    if keys == {} then 0
    else
      var k :| k in keys;
      var d := Depth(keys - {k});
      if |k| <= d then d else |k|
  }

  // A common prefix on the stack costs one unit when it is taken up, one for an empty last
  // page and the weight of its listing; an entry of a listing costs one unit to be read.
  ghost function StackWeight(server: Server, dirs: Key): nat
    decreases Depth(server.keys) - |dirs|, 1, 0
  {
    2 + if |dirs| >= Depth(server.keys) then 0
        else ListWeight(server, |dirs| + 1, server.list(Prefix(dirs, ""), true))
  }

  ghost function ListWeight(server: Server, level: nat, entries: seq<Entry>): nat
    decreases Depth(server.keys) - level, 2, |entries|
  {
    if entries == [] then 0
    else
      1 + (if entries[0].Dir? && |entries[0].dirs| == level then StackWeight(server, entries[0].dirs) else 0)
        + ListWeight(server, level, entries[1..])
  }

  ghost function StacksWeight(server: Server, prefixes: seq<Key>): nat {
    if prefixes == [] then 0
    else StackWeight(server, prefixes[0]) + StacksWeight(server, prefixes[1..])
  }

  lemma StackWeightUnfolds(server: Server, dirs: Key)
    requires server.Valid()
    ensures StackWeight(server, dirs) == 2 + ListWeight(server, |dirs| + 1, server.list(Prefix(dirs, ""), true))
  {
    var entries := server.list(Prefix(dirs, ""), true);
    assert server.Lists(Prefix(dirs, ""), true);
    if entries != [] {
      assert entries[0] in entries;
    }
  }

  lemma {:induction false} StacksWeightConcat(server: Server, a: seq<Key>, b: seq<Key>)
    ensures StacksWeight(server, a + b) == StacksWeight(server, a) + StacksWeight(server, b)
  {
    if a == [] {
      assert a + b == b;
    } else {
      StacksWeightConcat(server, a[1..], b);
      assert (a + b)[1..] == a[1..] + b;
    }
  }

  lemma {:induction false} ListWeightConcat(server: Server, level: nat, a: seq<Entry>, b: seq<Entry>)
    ensures ListWeight(server, level, a + b) == ListWeight(server, level, a) + ListWeight(server, level, b)
  {
    if a == [] {
      assert a + b == b;
    } else {
      ListWeightConcat(server, level, a[1..], b);
      assert (a + b)[1..] == a[1..] + b;
    }
  }

  lemma {:induction false} EntriesWeigh(server: Server, level: nat, entries: seq<Entry>)
    requires forall e | e in entries && e.Dir? :: |e.dirs| == level
    ensures ListWeight(server, level, entries) == |entries| + StacksWeight(server, CommonPrefixes(entries))
  {
    if entries != [] {
      var e, tail := entries[0], entries[1..];
      assert e in entries;
      EntriesWeigh(server, level, tail);
      if e.Dir? {
        assert CommonPrefixes(entries) == [e.dirs] + CommonPrefixes(tail);
        StacksWeightConcat(server, [e.dirs], CommonPrefixes(tail));
      } else {
        assert CommonPrefixes(entries) == CommonPrefixes(tail);
      }
    }
  }

  lemma {:induction false} CommonPrefixesOf(entries: seq<Entry>, d: Key)
    ensures d in CommonPrefixes(entries) <==> Dir(d) in entries
  {
    if entries != [] {
      CommonPrefixesOf(entries[1..], d);
      assert Dir(d) in entries <==> entries[0] == Dir(d) || Dir(d) in entries[1..];
    }
  }

  lemma PageWeighs(server: Server, prefix: Prefix, delimiter: bool, token: nat, cut: Cut)
    requires server.Valid() && token <= |server.list(prefix, delimiter)|
    ensures
      var listing := server.list(prefix, delimiter);
      var page := Respond(listing, token, cut);
      var level := |prefix.dirs| + 1;
      && ListWeight(server, level, listing[token..]) ==
        |page.entries| + StacksWeight(server, CommonPrefixes(page.entries)) +
        ListWeight(server, level, Rest(listing, page.token))
      && [] !in CommonPrefixes(page.entries)
      && (!delimiter ==> CommonPrefixes(page.entries) == [])
  {
    var listing := server.list(prefix, delimiter);
    var page := Respond(listing, token, cut);
    EntriesOfListing(server, prefix, delimiter);
    assert forall e | e in page.entries :: e in listing && WellPlaced(e, server.keys, prefix, delimiter);
    ListWeightConcat(server, |prefix.dirs| + 1, page.entries, Rest(listing, page.token));
    EntriesWeigh(server, |prefix.dirs| + 1, page.entries);
    CommonPrefixesOf(page.entries, []);
    if CommonPrefixes(page.entries) != [] {
      CommonPrefixesOf(page.entries, CommonPrefixes(page.entries)[0]);
    }
  }

  // ----- The position of the walk -----

  datatype GlobType = HIERARCHICAL | LISTING | UNKNOWN

  function HasStars(s: Segment): bool {
    |s| >= 2 && (s[..2] == "**" || HasStars(s[1..]))
  }

  predicate ContainsCrawlText(pattern: Key) {
    exists i | 0 <= i < |pattern| :: HasStars(pattern[i])
  }

  /** `current` is the common prefix being read, [] when there is none. */
  datatype Cursor = Cursor(started: bool, globType: GlobType, mainToken: nat, current: Key, prefixToken: nat,
    prefixes: seq<Key>)

  function MainList(q: Query, w: Cursor): seq<Entry> {
    q.server.list(q.shared, w.globType == HIERARCHICAL)
  }

  function PrefixList(q: Query, dirs: Key): seq<Entry> {
    q.server.list(Prefix(dirs, ""), true)
  }

  ghost predicate Shape(q: Query, w: Cursor) {
    && (w.current == [] ==> w.prefixes == [] && w.prefixToken == 0)
    && [] !in w.prefixes
    && w.mainToken <= |MainList(q, w)| && w.prefixToken <= |PrefixList(q, w.current)|
    && (!w.started ==> w.mainToken == 0 && w.current == [] && w.globType == UNKNOWN)
    && (w.globType != HIERARCHICAL ==> w.current == [])
    && (w.prefixToken != 0 ==> CouldMatch(q.glob, w.current, q.pattern))
    && (w.mainToken != 0 && w.globType == UNKNOWN ==> ContainsCrawlText(q.pattern) || !q.allowRecursive)
  }

  predicate Done(w: Cursor) {
    w.started && w.mainToken == 0 && w.current == []
  }

  ghost function OwesMain(q: Query, w: Cursor, key: Key): nat
    requires Shape(q, w)
  {
    Todo(q, key, if w.started then Rest(MainList(q, w), w.mainToken) else MainList(q, w))
  }

  ghost function OwesPrefix(q: Query, w: Cursor, key: Key): nat
    requires Shape(q, w)
  {
    Todo(q, key, if w.current == [] then [] else PrefixList(q, w.current)[w.prefixToken..])
  }

  /** How often the walk will still emit a key. */
  ghost function Owes(q: Query, w: Cursor, key: Key): nat
    requires Shape(q, w)
  {
    OwesPrefix(q, w, key) + TodoDirs(q, key, w.prefixes) + OwesMain(q, w, key)
  }

  ghost function WorkMain(q: Query, w: Cursor): nat
    requires Shape(q, w)
  {
    var level := |q.shared.dirs| + 1;
    if !w.started then
      1 + ListWeight(q.server, level, q.server.list(q.shared, false)) +
      ListWeight(q.server, level, q.server.list(q.shared, true))
    else if w.mainToken == 0 then 0
    else 1 + ListWeight(q.server, level, MainList(q, w)[w.mainToken..])
  }

  ghost function WorkPrefix(q: Query, w: Cursor): nat
    requires Shape(q, w)
  {
    if w.current == [] then 0
    else 1 + ListWeight(q.server, |w.current| + 1, PrefixList(q, w.current)[w.prefixToken..])
  }

  /** A bound on the calls that are still to come. */
  ghost function Work(q: Query, w: Cursor): nat
    requires Shape(q, w)
  {
    WorkMain(q, w) + WorkPrefix(q, w) + StacksWeight(q.server, w.prefixes)
  }

  // ----- One call of the lazy list as a function of the cursor -----

  /** Takes the next common prefix off the stack, or leaves none. */
  function NextPrefix(w: Cursor): Cursor {
    if w.prefixes == [] then w.(current := [])
    else w.(current := w.prefixes[|w.prefixes| - 1], prefixes := w.prefixes[..|w.prefixes| - 1])
  }

  function Settle(w: Cursor): Cursor {
    if w.prefixToken == 0 then NextPrefix(w) else w
  }

  // Between reading a page of the current common prefix and settling.
  function PageRead(w: Cursor, page: Page): Cursor {
    w.(prefixes := w.prefixes + CommonPrefixes(page.entries), prefixToken := page.token)
  }

  /** After a page of the current common prefix. */
  function PrefixPage(w: Cursor, page: Page): Cursor {
    Settle(PageRead(w, page))
  }

  /** After a top-level page. */
  function TopLevelPage(globType: GlobType, page: Page): Cursor {
    NextPrefix(Cursor(true, globType, page.token, [], 0, CommonPrefixes(page.entries)))
  }

  /** At least a hundred files per folder on average. */
  predicate ManyFilesPerFolder(keys: seq<Key>) {
    |set i | 0 <= i < |keys| :: Parent(keys[i])| * 100 < |keys|
  }

  /** The mode after a top-level page has been seen. */
  function Mode(q: Query, globType: GlobType, page: Page): GlobType {
    if !ContainsCrawlText(q.pattern) && q.allowRecursive && globType == UNKNOWN && page.token != 0 then
      if ManyFilesPerFolder(FileList(page.entries)) then HIERARCHICAL else LISTING
    else globType
  }

  /** The cursor after a call and the objects of the page it read. */
  datatype Expansion = Expansion(cursor: Cursor, keys: seq<Key>)

  ghost function ExpandPrefix(q: Query, w: Cursor, cut: Cut): Expansion
    requires Shape(q, w)
  {
    if CouldMatch(q.glob, w.current, q.pattern) then
      var page := Respond(PrefixList(q, w.current), w.prefixToken, cut);
      Expansion(PrefixPage(w, page), FileList(page.entries))
    else Expansion(Settle(w), [])
  }

  ghost function ExpandTopLevel(q: Query, w: Cursor, cut: Cut, again: Cut): Expansion
    requires Shape(q, w)
  {
    var first := Respond(MainList(q, w), w.mainToken, cut);
    var globType := Mode(q, w.globType, first);
    var restart := w.globType != HIERARCHICAL && globType == HIERARCHICAL;
    var page := if restart then Respond(q.server.list(q.shared, true), 0, again) else first;
    Expansion(TopLevelPage(globType, page), FileList(page.entries))
  }

  ghost function Expand(q: Query, w: Cursor, cut: Cut, again: Cut): Expansion
    requires Shape(q, w)
  {
    if w.current != [] then ExpandPrefix(q, w, cut) else ExpandTopLevel(q, w, cut, again)
  }

  // ----- What a call keeps -----

  lemma NextPrefixOwes(q: Query, w: Cursor, key: Key)
    requires q.server.Valid() && Shape(q, w) && w.prefixToken == 0 && w.current != []
    ensures Shape(q, NextPrefix(w))
    ensures Owes(q, NextPrefix(w), key) == TodoDirs(q, key, w.prefixes) + OwesMain(q, w, key)
  {
    if w.prefixes != [] {
      var n := NextPrefix(w);
      assert w.prefixes == n.prefixes + [n.current];
      TodoDirsConcat(q, key, n.prefixes, [n.current]);
      DirOwesItsListing(q, key, n.current);
      assert PrefixList(q, n.current)[0..] == PrefixList(q, n.current);
    }
  }

  lemma NextPrefixWorks(q: Query, w: Cursor)
    requires q.server.Valid() && Shape(q, w) && w.prefixToken == 0 && w.current != []
    ensures Shape(q, NextPrefix(w))
    ensures Work(q, NextPrefix(w)) <= WorkMain(q, w) + StacksWeight(q.server, w.prefixes)
  {
    if w.prefixes != [] {
      var n := NextPrefix(w);
      assert w.prefixes == n.prefixes + [n.current];
      StacksWeightConcat(q.server, n.prefixes, [n.current]);
      StackWeightUnfolds(q.server, n.current);
      assert PrefixList(q, n.current)[0..] == PrefixList(q, n.current);
    }
  }

  lemma PageReadWorks(q: Query, w: Cursor, cut: Cut)
    requires q.server.Valid() && Shape(q, w) && w.current != [] && CouldMatch(q.glob, w.current, q.pattern)
    ensures
      var page := Respond(PrefixList(q, w.current), w.prefixToken, cut);
      var m := PageRead(w, page);
      && Shape(q, m)
      && WorkMain(q, m) == WorkMain(q, w)
      && (page.token != 0 ==> WorkPrefix(q, m) + StacksWeight(q.server, m.prefixes) + |page.entries| ==
                              WorkPrefix(q, w) + StacksWeight(q.server, w.prefixes))
      && (page.token == 0 ==>
          StacksWeight(q.server, m.prefixes) < WorkPrefix(q, w) + StacksWeight(q.server, w.prefixes))
  {
    var page := Respond(PrefixList(q, w.current), w.prefixToken, cut);
    PageWeighs(q.server, Prefix(w.current, ""), true, w.prefixToken, cut);
    StacksWeightConcat(q.server, w.prefixes, CommonPrefixes(page.entries));
  }

  lemma PrefixPageWorks(q: Query, w: Cursor, cut: Cut)
    requires q.server.Valid() && Shape(q, w) && w.current != [] && CouldMatch(q.glob, w.current, q.pattern)
    ensures Shape(q, ExpandPrefix(q, w, cut).cursor)
    ensures Work(q, ExpandPrefix(q, w, cut).cursor) < Work(q, w)
  {
    var page := Respond(PrefixList(q, w.current), w.prefixToken, cut);
    var m := PageRead(w, page);
    PageReadWorks(q, w, cut);
    if page.token == 0 {
      NextPrefixWorks(q, m);
    }
  }

  lemma PrefixPageOwes(q: Query, w: Cursor, cut: Cut, key: Key)
    requires q.server.Valid() && Shape(q, w) && w.current != [] && CouldMatch(q.glob, w.current, q.pattern)
    requires Shape(q, ExpandPrefix(q, w, cut).cursor)
    ensures
      var e := ExpandPrefix(q, w, cut);
      Found(q, key, e.keys) + Owes(q, e.cursor, key) == Owes(q, w, key)
  {
    var page := Respond(PrefixList(q, w.current), w.prefixToken, cut);
    var m := PageRead(w, page);
    PageOwes(q, key, Prefix(w.current, ""), true, w.prefixToken, cut);
    PageWeighs(q.server, Prefix(w.current, ""), true, w.prefixToken, cut);
    TodoDirsConcat(q, key, w.prefixes, CommonPrefixes(page.entries));
    if page.token == 0 {
      NextPrefixOwes(q, m, key);
    }
  }

  lemma PrunedPrefixKeeps(q: Query, w: Cursor, key: Key)
    requires q.server.Valid() && Shape(q, w) && w.current != [] && !CouldMatch(q.glob, w.current, q.pattern)
    ensures Shape(q, NextPrefix(w))
    ensures Owes(q, NextPrefix(w), key) == Owes(q, w, key) && Work(q, NextPrefix(w)) < Work(q, w)
  {
    PrunedOwesNothing(q, key, w.current);
    DirOwesItsListing(q, key, w.current);
    assert PrefixList(q, w.current)[0..] == PrefixList(q, w.current);
    NextPrefixOwes(q, w, key);
    NextPrefixWorks(q, w);
  }

  // The mode only changes before anything was read, and then both listings owe the same.
  lemma MainInMode(q: Query, w: Cursor, globType: GlobType, key: Key)
    requires q.server.Valid() && Shape(q, w) && w.current == [] && !Done(w)
    requires globType == w.globType || (w.globType == UNKNOWN && w.mainToken == 0)
    ensures w.mainToken <= |q.server.list(q.shared, globType == HIERARCHICAL)|
    ensures
      var rest := q.server.list(q.shared, globType == HIERARCHICAL)[w.mainToken..];
      && Owes(q, w, key) == Todo(q, key, rest)
      && Work(q, w) > ListWeight(q.server, |q.shared.dirs| + 1, rest)
  {
    ListingOwes(q, key, q.shared, false);
    ListingOwes(q, key, q.shared, true);
    assert forall d | d == true || d == false :: q.server.list(q.shared, d)[0..] == q.server.list(q.shared, d);
  }

  // The cursor after a top-level page: the common prefixes are seen as a stack below some
  // prefix that is read to its end.
  lemma TopLevelCursor(q: Query, globType: GlobType, page: Page, key: Key)
    requires q.server.Valid() && page.token <= |q.server.list(q.shared, globType == HIERARCHICAL)|
    requires [] !in CommonPrefixes(page.entries)
    requires globType != HIERARCHICAL ==> CommonPrefixes(page.entries) == []
    requires page.token != 0 && globType == UNKNOWN ==> ContainsCrawlText(q.pattern) || !q.allowRecursive
    ensures Shape(q, TopLevelPage(globType, page))
    ensures Owes(q, TopLevelPage(globType, page), key) ==
      TodoDirs(q, key, CommonPrefixes(page.entries)) +
      Todo(q, key, Rest(q.server.list(q.shared, globType == HIERARCHICAL), page.token))
    ensures Work(q, TopLevelPage(globType, page)) <=
      StacksWeight(q.server, CommonPrefixes(page.entries)) +
      (if page.token == 0 then 0
       else 1 + ListWeight(q.server, |q.shared.dirs| + 1,
                           q.server.list(q.shared, globType == HIERARCHICAL)[page.token..]))
  {
    var w := Cursor(true, globType, page.token, [], 0, CommonPrefixes(page.entries));
    if w.prefixes != [] {
      var below := w.(current := ["x"]);
      NextPrefixOwes(q, below, key);
      NextPrefixWorks(q, below);
      assert NextPrefix(below) == NextPrefix(w);
    }
  }

  // Behind the page is strictly less work than before it.
  lemma TopLevelPageWorks(q: Query, w: Cursor, globType: GlobType, cut: Cut, page: Page, key: Key)
    requires q.server.Valid() && Shape(q, w) && w.current == [] && !Done(w)
    requires globType == w.globType || (w.globType == UNKNOWN && w.mainToken == 0)
    requires w.mainToken <= |q.server.list(q.shared, globType == HIERARCHICAL)|
    requires page == Respond(q.server.list(q.shared, globType == HIERARCHICAL), w.mainToken, cut)
    ensures
      StacksWeight(q.server, CommonPrefixes(page.entries)) +
      (if page.token == 0 then 0
       else 1 + ListWeight(q.server, |q.shared.dirs| + 1,
                           q.server.list(q.shared, globType == HIERARCHICAL)[page.token..]))
      < Work(q, w)
  {
    MainInMode(q, w, globType, key);
    PageWeighs(q.server, q.shared, globType == HIERARCHICAL, w.mainToken, cut);
  }

  lemma TopLevelPageOwes(q: Query, w: Cursor, globType: GlobType, cut: Cut, page: Page, key: Key)
    requires q.server.Valid() && Shape(q, w) && w.current == [] && !Done(w)
    requires globType == w.globType || (w.globType == UNKNOWN && w.mainToken == 0)
    requires w.mainToken <= |q.server.list(q.shared, globType == HIERARCHICAL)|
    requires page == Respond(q.server.list(q.shared, globType == HIERARCHICAL), w.mainToken, cut)
    ensures Owes(q, w, key) ==
      Found(q, key, FileList(page.entries)) + TodoDirs(q, key, CommonPrefixes(page.entries)) +
      Todo(q, key, Rest(q.server.list(q.shared, globType == HIERARCHICAL), page.token))
  {
    MainInMode(q, w, globType, key);
    PageOwes(q, key, q.shared, globType == HIERARCHICAL, w.mainToken, cut);
  }

  lemma TopLevelPageKeeps(q: Query, w: Cursor, globType: GlobType, cut: Cut, page: Page, key: Key)
    requires q.server.Valid() && Shape(q, w) && w.current == [] && !Done(w)
    requires globType == w.globType || (w.globType == UNKNOWN && w.mainToken == 0)
    requires w.mainToken <= |q.server.list(q.shared, globType == HIERARCHICAL)|
    requires page == Respond(q.server.list(q.shared, globType == HIERARCHICAL), w.mainToken, cut)
    requires page.token != 0 && globType == UNKNOWN ==> ContainsCrawlText(q.pattern) || !q.allowRecursive
    ensures Shape(q, TopLevelPage(globType, page))
    ensures Found(q, key, FileList(page.entries)) + Owes(q, TopLevelPage(globType, page), key) == Owes(q, w, key)
    ensures Work(q, TopLevelPage(globType, page)) < Work(q, w)
  {
    PageWeighs(q.server, q.shared, globType == HIERARCHICAL, w.mainToken, cut);
    TopLevelCursor(q, globType, page, key);
    TopLevelPageWorks(q, w, globType, cut, page, key);
    TopLevelPageOwes(q, w, globType, cut, page, key);
  }

  lemma TopLevelKeeps(q: Query, w: Cursor, cut: Cut, again: Cut, key: Key)
    requires q.server.Valid() && Shape(q, w) && w.current == [] && !Done(w)
    ensures
      var e := ExpandTopLevel(q, w, cut, again);
      && Shape(q, e.cursor) && Work(q, e.cursor) < Work(q, w)
      && Found(q, key, e.keys) + Owes(q, e.cursor, key) == Owes(q, w, key)
  {
    var first := Respond(MainList(q, w), w.mainToken, cut);
    var globType := Mode(q, w.globType, first);
    if w.globType != HIERARCHICAL && globType == HIERARCHICAL {
      TopLevelPageKeeps(q, w, HIERARCHICAL, again, Respond(q.server.list(q.shared, true), 0, again), key);
    } else {
      TopLevelPageKeeps(q, w, globType, cut, first, key);
    }
  }

  /** Every call moves what it reads from the owed to the emitted objects, loses none and
      repeats none, and leaves less work; the pages and tokens are the server's choice. */
  lemma ExpandKeeps(q: Query, w: Cursor, cut: Cut, again: Cut, key: Key)
    requires q.server.Valid() && Shape(q, w) && !Done(w)
    ensures
      var e := Expand(q, w, cut, again);
      && Shape(q, e.cursor) && Work(q, e.cursor) < Work(q, w)
      && Found(q, key, e.keys) + Owes(q, e.cursor, key) == Owes(q, w, key)
  {
    if w.current == [] {
      TopLevelKeeps(q, w, cut, again, key);
    } else if CouldMatch(q.glob, w.current, q.pattern) {
      PrefixPageWorks(q, w, cut);
      PrefixPageOwes(q, w, cut, key);
    } else {
      PrunedPrefixKeeps(q, w, key);
    }
  }

  // ----- Whole expansions -----

  ghost predicate AccountedFor(q: Query, w: Cursor, expanded: seq<Key>, key: Key)
    requires Shape(q, w)
  {
    Occurrences(expanded, key) + Owes(q, w, key) == if q.Selects(q.shared, key) then 1 else 0
  }

  /** What was emitted and what is owed are together the matching objects, each once. */
  ghost predicate Accounted(q: Query, w: Cursor, expanded: seq<Key>)
    requires Shape(q, w)
  {
    forall key :: AccountedFor(q, w, expanded, key)
  }

  lemma StartIsAccounted(q: Query)
    requires q.server.Valid()
    ensures Shape(q, Cursor(false, UNKNOWN, 0, [], 0, [])) && Accounted(q, Cursor(false, UNKNOWN, 0, [], 0, []), [])
  {
    var w := Cursor(false, UNKNOWN, 0, [], 0, []);
    forall key ensures AccountedFor(q, w, [], key) {
      ListingOwes(q, key, q.shared, false);
    }
  }

  lemma ExpandIsAccounted(q: Query, w: Cursor, cut: Cut, again: Cut, expanded: seq<Key>)
    requires q.server.Valid() && Shape(q, w) && !Done(w) && Accounted(q, w, expanded)
    ensures
      var e := Expand(q, w, cut, again);
      && Shape(q, e.cursor) && Work(q, e.cursor) < Work(q, w)
      && Accounted(q, e.cursor, expanded + Matching(e.keys, q.glob, q.pattern))
  {
    var e := Expand(q, w, cut, again);
    ExpandKeeps(q, w, cut, again, []);
    var longer := expanded + Matching(e.keys, q.glob, q.pattern);
    forall key
      ensures AccountedFor(q, e.cursor, longer, key)
    {
      ExpandKeeps(q, w, cut, again, key);
      OccurrencesConcat(expanded, Matching(e.keys, q.glob, q.pattern), key);
      assert AccountedFor(q, w, expanded, key);
    }
  }

  lemma DoneIsComplete(q: Query, w: Cursor, expanded: seq<Key>)
    requires Shape(q, w) && Done(w) && Accounted(q, w, expanded)
    ensures multiset(expanded) == multiset(q.Matches(q.shared))
  {
    forall key ensures multiset(expanded)[key] == multiset(q.Matches(q.shared))[key] {
      assert AccountedFor(q, w, expanded, key);
    }
  }

  class S3GlobResult {
    const q: Query
    var finished: bool
    var mainToken: nat
    var current: Key
    var prefixToken: nat
    var prefixes: seq<Key>
    var globType: GlobType
    var expanded: seq<Key>
    ghost var started: bool
    ghost var requests: nat

    ghost function At(): Cursor
      reads `started, `globType, `mainToken, `current, `prefixToken, `prefixes
    {
      Cursor(started, globType, mainToken, current, prefixToken, prefixes)
    }

    ghost predicate InShape()
      reads `started, `globType, `mainToken, `current, `prefixToken, `prefixes
    {
      Shape(q, At())
    }

    ghost predicate Valid()
      reads this
    {
      && q.server.Valid() && Shape(q, At())
      && (finished <==> Done(At()))
      && Accounted(q, At(), expanded)
    }

    constructor (q: Query)
      requires q.server.Valid()
      ensures Valid() && !finished && expanded == [] && this.q == q && requests == 0
    {
      this.q := q;
      finished, mainToken, current, prefixToken, prefixes := false, 0, [], 0, [];
      globType, expanded := UNKNOWN, [];
      started, requests := false, 0;
      new;
      StartIsAccounted(q);
    }

    /** One ListObjectsV2 request. */
    method Request(prefix: Prefix, token: nat, delimiter: bool, cut: Cut) returns (page: Page)
      requires token <= |q.server.list(prefix, delimiter)|
      modifies this`requests
      ensures page == Respond(q.server.list(prefix, delimiter), token, cut)
      ensures requests == old(requests) + 1
    {
      requests := requests + 1;
      page := Respond(q.server.list(prefix, delimiter), token, cut);
    }

    /** Reads one page of the current common prefix, unless the pattern rules the prefix out. */
    method ReadPrefixPage(cut: Cut) returns (keys: seq<Key>)
      requires InShape() && current != []
      modifies this`current, this`prefixes, this`prefixToken, this`requests
      ensures Expansion(At(), keys) == ExpandPrefix(q, old(At()), cut)
      ensures requests == old(requests) + if CouldMatch(q.glob, old(current), q.pattern) then 1 else 0
    {
      keys := [];
      var isMatch := Match(q.glob, current, q.pattern, false);
      if isMatch {
        var page := Request(Prefix(current, ""), prefixToken, true, cut);
        keys := FileList(page.entries);
        prefixes := prefixes + CommonPrefixes(page.entries);
        prefixToken := page.token;
      }
      ghost var read := At();
      if prefixToken == 0 {
        if prefixes == [] {
          current := [];
        } else {
          current, prefixes := prefixes[|prefixes| - 1], prefixes[..|prefixes| - 1];
        }
      }
      assert At() == if prefixToken == 0 then NextPrefix(read) else read;
    }

    /** The folders of the files of a page, for the estimate that picks the mode. */
    method CountFolders(keys: seq<Key>) returns (folders: set<Key>)
      ensures folders == set i | 0 <= i < |keys| :: Parent(keys[i])
    {
      folders := {};
      for i := 0 to |keys|
        invariant folders == set j | 0 <= j < i :: Parent(keys[j])
      {
        folders := folders + {Parent(keys[i])};
      }
    }

    /** The estimate: at least a hundred files per folder. */
    method EstimateFolders(found: seq<Key>) returns (many: bool)
      ensures many == ManyFilesPerFolder(found)
    {
      var folders := CountFolders(found);
      many := |folders| * 100 < |found|;
    }

    /** Requests one page at the top level. The first truncated flat page decides on the mode;
        the walk then starts from scratch with a delimited request for the same page. */
    method RequestTopLevel(cut: Cut, again: Cut) returns (page: Page)
      requires InShape()
      modifies this`globType, this`requests
      ensures
        var first := Respond(MainList(q, old(At())), mainToken, cut);
        && globType == Mode(q, old(globType), first)
        && page == if old(globType) != HIERARCHICAL && globType == HIERARCHICAL then
                     Respond(q.server.list(q.shared, true), 0, again)
                   else first
      ensures requests ==
        old(requests) + if old(globType) != HIERARCHICAL && globType == HIERARCHICAL then 2 else 1
    {
      var investigate := !ContainsCrawlText(q.pattern) && q.allowRecursive && globType == UNKNOWN;
      page := Request(q.shared, mainToken, globType == HIERARCHICAL, cut);
      if investigate && page.token != 0 {
        var many := EstimateFolders(FileList(page.entries));
        if many {
          page := Request(q.shared, mainToken, true, again);
          globType := HIERARCHICAL;
        } else {
          globType := LISTING;
        }
      }
    }

    /** Reads one page at the top level. */
    method ReadTopLevelPage(cut: Cut, again: Cut) returns (keys: seq<Key>)
      requires InShape() && current == []
      modifies this`current, this`prefixes, this`mainToken, this`globType, this`requests, this`started
      ensures Expansion(At(), keys) == ExpandTopLevel(q, old(At()), cut, again)
      ensures requests <= old(requests) + 2
    {
      // The internal exception for common prefixes at a top-level request cannot be raised.
      assert prefixes == [];
      var page := RequestTopLevel(cut, again);
      mainToken := page.token;
      keys := FileList(page.entries);
      prefixes := CommonPrefixes(page.entries);
      if prefixes != [] {
        current, prefixes := prefixes[|prefixes| - 1], prefixes[..|prefixes| - 1];
      }
      started := true;
      assert At() == TopLevelPage(globType, page);
    }

    method ReadPage(cut: Cut, again: Cut) returns (keys: seq<Key>)
      requires InShape()
      modifies this
      ensures Expansion(At(), keys) == Expand(q, old(At()), cut, again)
      ensures requests <= old(requests) + 2 && expanded == old(expanded) && finished == old(finished) && started
    {
      if current != [] {
        keys := ReadPrefixPage(cut);
      } else {
        keys := ReadTopLevelPage(cut, again);
      }
    }

    /** Appends the objects that match the whole pattern. */
    method Emit(keys: seq<Key>)
      modifies this`expanded
      ensures expanded == old(expanded) + Matching(keys, q.glob, q.pattern)
    {
      for i := 0 to |keys|
        invariant expanded == old(expanded) + Matching(keys[..i], q.glob, q.pattern)
      {
        MatchingAppend(keys[..i], keys[i], q.glob, q.pattern);
        assert keys[..i + 1] == keys[..i] + [keys[i]];
        var isMatch := Match(q.glob, keys[i], q.pattern, true);
        if isMatch {
          expanded := expanded + [keys[i]];
        }
      }
      assert keys[..|keys|] == keys;
    }

    /** Reads a page, notes whether that was the last one and emits its matching objects. */
    method Advance(cut: Cut, again: Cut)
      requires InShape() && !finished
      modifies this
      ensures At() == Expand(q, old(At()), cut, again).cursor
      ensures expanded == old(expanded) + Matching(Expand(q, old(At()), cut, again).keys, q.glob, q.pattern)
      ensures finished <==> mainToken == 0 && current == []
      ensures started && requests <= old(requests) + 2
    {
      var keys := ReadPage(cut, again);
      if mainToken == 0 && current == [] {
        finished := true;
      }
      Emit(keys);
    }

    /** One call of the lazy list: at most two requests, and strictly less work left. */
    method ExpandNextPath(cut: Cut, again: Cut) returns (more: bool)
      requires Valid()
      modifies this
      ensures Valid()
      ensures more <==> !old(finished)
      ensures old(finished) ==> finished && At() == old(At()) && expanded == old(expanded) && requests == old(requests)
      ensures more ==> At() == Expand(q, old(At()), cut, again).cursor
      ensures more ==> expanded == old(expanded) + Matching(Expand(q, old(At()), cut, again).keys, q.glob, q.pattern)
      ensures more ==> Work(q, At()) < old(Work(q, At())) && requests <= old(requests) + 2
    {
      if finished {
        return false;
      }
      ExpandIsAccounted(q, At(), cut, again, expanded);
      Advance(cut, again);
      return true;
    }

    /** An object of the bucket below the literal prefix that is no directory marker and matches. */
    ghost predicate IsResult(key: Key) {
      && key in q.server.keys && Under(key, q.shared)
      && key != [] && key[|key| - 1] != "" && Denotes(q.glob, key, q.pattern)
    }

    /** Expanding the list to its end terminates, however the server pages its listings, and
        yields exactly the wanted objects, each once. */
    method ExpandAll(cuts: nat -> (Cut, Cut))
      requires Valid()
      modifies this
      ensures Valid() && finished && multiset(expanded) == multiset(q.Matches(q.shared))
      ensures forall key: Key :: multiset(expanded)[key] == (if IsResult(key) then 1 else 0)
      ensures requests <= old(requests + 2 * Work(q, At()))
    {
      var i := 0;
      var more := true;
      while more
        invariant Valid() && (!more ==> finished)
        invariant requests + 2 * Work(q, At()) <= old(requests + 2 * Work(q, At()))
        decreases more, Work(q, At())
      {
        more := ExpandNextPath(cuts(i).0, cuts(i).1);
        i := i + 1;
      }
      DoneIsComplete(q, At(), expanded);
    }
  }
}
