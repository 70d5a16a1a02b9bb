/** The order of the walk: depth first, the newest common prefix next. */
module GlobOrder {
  import opened GlobWalk
  import opened PathMatch

  /** The cursors that calls of the lazy list lead through, with the pages that the server cuts. */
  ghost predicate IsWalk(q: Query, walk: seq<Cursor>, cuts: seq<(Cut, Cut)>) {
    && |walk| == |cuts| + 1 && q.server.Valid()
    && (forall i | 0 <= i < |walk| :: Shape(q, walk[i]))
    && forall i | 0 <= i < |cuts| :: Steps(q, walk[i], cuts[i], walk[i + 1])
  }

  ghost predicate Steps(q: Query, w: Cursor, cut: (Cut, Cut), next: Cursor)
    requires Shape(q, w)
  {
    !Done(w) && next == Expand(q, w, cut.0, cut.1).cursor
  }

  /** Nothing below `stack` is touched: the walk is still among what was put on top of it. */
  predicate Above(stack: seq<Key>, w: Cursor) {
    stack <= w.prefixes && w.current != []
  }

  /** The walk has come to what was on top of `stack`, from the start of its listing, or to the top
      level if there was nothing. */
  predicate Resumes(stack: seq<Key>, w: Cursor) {
    if stack == [] then w.current == [] && w.prefixes == []
    else w.current == stack[|stack| - 1] && w.prefixes == stack[..|stack| - 1] && w.prefixToken == 0
  }

  predicate SameTop(a: Cursor, b: Cursor) {
    a.started == b.started && a.globType == b.globType && a.mainToken == b.mainToken
  }

  lemma NextOf(stack: seq<Key>, w: Cursor)
    requires stack <= w.prefixes && w.current != [] && w.prefixToken == 0 && [] !in w.prefixes
    ensures SameTop(NextPrefix(w), w) && (Above(stack, NextPrefix(w)) || Resumes(stack, NextPrefix(w)))
  {
    if |w.prefixes| > |stack| {
      assert w.prefixes[..|w.prefixes| - 1][..|stack|] == w.prefixes[..|stack|];
    }
  }

  lemma StackStep(q: Query, stack: seq<Key>, w: Cursor, cut: (Cut, Cut), next: Cursor)
    requires q.server.Valid() && Shape(q, w) && Above(stack, w) && Steps(q, w, cut, next)
    ensures SameTop(next, w) && (Above(stack, next) || Resumes(stack, next))
  {
    if CouldMatch(q.glob, w.current, q.pattern) {
      PageReadWorks(q, w, cut.0);
      var page := Respond(PrefixList(q, w.current), w.prefixToken, cut.0);
      var m := PageRead(w, page);
      assert stack <= m.prefixes;
      if m.prefixToken == 0 {
        NextOf(stack, m);
      }
    } else {
      NextOf(stack, w);
    }
  }

  lemma {:induction false} StackStays(q: Query, walk: seq<Cursor>, cuts: seq<(Cut, Cut)>, k: nat)
    requires IsWalk(q, walk, cuts) && k < |walk| && walk[0].current != []
    requires forall j | 0 <= j < k :: Above(walk[0].prefixes, walk[j])
    ensures SameTop(walk[k], walk[0]) && (Above(walk[0].prefixes, walk[k]) || Resumes(walk[0].prefixes, walk[k]))
  {
    if k > 0 {
      StackStays(q, walk, cuts, k - 1);
      assert Steps(q, walk[k - 1], cuts[k - 1], walk[k]) && Shape(q, walk[k - 1]);
      StackStep(q, walk[0].prefixes, walk[k - 1], cuts[k - 1], walk[k]);
    }
  }

  /** How often the first `k` calls emit a key. */
  ghost function Emitted(q: Query, walk: seq<Cursor>, cuts: seq<(Cut, Cut)>, k: nat, key: Key): nat
    requires IsWalk(q, walk, cuts) && k < |walk|
  {
    if k == 0 then 0
    else
      assert Shape(q, walk[k - 1]);
      Emitted(q, walk, cuts, k - 1, key) +
      Found(q, key, Expand(q, walk[k - 1], cuts[k - 1].0, cuts[k - 1].1).keys)
  }

  lemma {:induction false} EmittedIsOwed(q: Query, walk: seq<Cursor>, cuts: seq<(Cut, Cut)>, k: nat, key: Key)
    requires IsWalk(q, walk, cuts) && k < |walk|
    ensures Shape(q, walk[0]) && Shape(q, walk[k])
    ensures Emitted(q, walk, cuts, k, key) + Owes(q, walk[k], key) == Owes(q, walk[0], key)
  {
    if k > 0 {
      EmittedIsOwed(q, walk, cuts, k - 1, key);
      assert Steps(q, walk[k - 1], cuts[k - 1], walk[k]);
      ExpandKeeps(q, walk[k - 1], cuts[k - 1].0, cuts[k - 1].1, key);
    }
  }

  // What is owed once the walk resumes below.
  lemma ResumedOwes(q: Query, stack: seq<Key>, w: Cursor, key: Key)
    requires q.server.Valid() && Shape(q, w) && Resumes(stack, w) && [] !in stack
    ensures Owes(q, w, key) == TodoDirs(q, key, stack) + OwesMain(q, w, key)
  {
    if stack != [] {
      assert stack == w.prefixes + [w.current];
      TodoDirsConcat(q, key, w.prefixes, [w.current]);
      DirOwesItsListing(q, key, w.current);
      assert PrefixList(q, w.current)[0..] == PrefixList(q, w.current);
    }
  }

  /** The walk is depth first. From the call at which a common prefix has become the current one until
      the first call at which the walk is no longer above what lay on the stack, it emits exactly the
      wanted objects under that prefix, each once, and nothing else; then it goes on with the newest
      prefix of that stack. This holds for any paging, and for what is left of a prefix as well. */
  lemma SubtreeFirst(q: Query, walk: seq<Cursor>, cuts: seq<(Cut, Cut)>, k: nat, key: Key)
    requires IsWalk(q, walk, cuts) && 0 < k < |walk| && walk[0].current != []
    requires forall j | 0 <= j < k :: Above(walk[0].prefixes, walk[j])
    requires !Above(walk[0].prefixes, walk[k])
    ensures Resumes(walk[0].prefixes, walk[k]) && Shape(q, walk[0])
    ensures Emitted(q, walk, cuts, k, key) == OwesPrefix(q, walk[0], key)
    ensures walk[0].prefixToken == 0 ==>
      Emitted(q, walk, cuts, k, key) == if q.Selects(Prefix(walk[0].current, ""), key) then 1 else 0
  {
    var w := walk[0];
    StackStays(q, walk, cuts, k);
    EmittedIsOwed(q, walk, cuts, k, key);
    ResumedOwes(q, w.prefixes, walk[k], key);
    ListingOwes(q, key, Prefix(w.current, ""), true);
    assert PrefixList(q, w.current)[0..] == PrefixList(q, w.current);
  }

  // ----- The mode -----

  /** The mode is picked once, by the first page of a flat listing that is truncated, for a pattern
      without `**` and if the setting allows it: the delimited walk exactly if the page has more than a
      hundred files for each of the folders they are in. */
  lemma ModeIs(q: Query, w: Cursor, cut: Cut, again: Cut)
    requires q.server.Valid() && Shape(q, w) && w.current == [] && !Done(w)
    ensures
      var first, after := Respond(MainList(q, w), w.mainToken, cut), Expand(q, w, cut, again).cursor.globType;
      var files := FileList(first.entries);
      if w.globType == UNKNOWN && first.token != 0 && q.allowRecursive && !ContainsCrawlText(q.pattern) then
        after == if |files| > 100 * |Folders(files)| then HIERARCHICAL else LISTING
      else after == w.globType
  {
    var first := Respond(MainList(q, w), w.mainToken, cut);
    FoldersAre(FileList(first.entries));
  }

  /** The folders that hold these files. */
  ghost function Folders(files: seq<Key>): set<Key> {
    set file | file in files :: Directory(file)
  }

  function Directory(file: Key): Key {
    if file == [] then [] else file[..|file| - 1]
  }

  lemma FoldersAre(files: seq<Key>)
    ensures Folders(files) == set i | 0 <= i < |files| :: Parent(files[i])
  {
    forall i | 0 <= i < |files|
      ensures Parent(files[i]) in Folders(files)
    {
      assert files[i] in files;
    }
  }
}
