/** Bulk deletion: paths grouped by their batch key, and requests of at most 1000 keys. */
module DeleteBatch {
  import opened DeleteBatchKey
  import opened DeleteBody
  import opened Prelude

  const MAX_KEYS_PER_REQUEST: nat := 1000

  // ----- Grouping and chunking -----

  /** A path to delete: what identifies its batch, and its object key. */
  datatype Entry = Entry(id: Identity, key: string, path: string)

  datatype Batch = Batch(id: Identity, keys: seq<string>, paths: seq<string>)

  /** One POST: the batch it belongs to, its keys and the path used to look up the secret. */
  datatype Request = Request(id: Identity, keys: seq<string>, lookup: string)

  function KeysOf(entries: seq<Entry>, id: Identity): seq<string> {
    if entries == [] then []
    else
      var e := entries[|entries| - 1];
      KeysOf(entries[..|entries| - 1], id) + if e.id == id then [e.key] else []
  }

  function PathsOf(entries: seq<Entry>, id: Identity): seq<string> {
    if entries == [] then []
    else
      var e := entries[|entries| - 1];
      PathsOf(entries[..|entries| - 1], id) + if e.id == id then [e.path] else []
  }

  /** The positions of the entries with this identity; IndicesAre says what they are. */
  function IndicesOf(entries: seq<Entry>, id: Identity): seq<nat> {
    if entries == [] then []
    else
      var n := |entries| - 1;
      IndicesOf(entries[..n], id) + if entries[n].id == id then [n] else []
  }

  /** The increasing positions of exactly the entries with this identity. */
  ghost predicate Enumerates(indices: seq<nat>, entries: seq<Entry>, id: Identity) {
    && (forall j | 0 <= j < |indices| :: HasId(entries, indices[j], id))
    && (forall j, k | 0 <= j < k < |indices| :: indices[j] < indices[k])
    && forall i: nat | HasId(entries, i, id) :: i in indices
  }

  predicate HasId(entries: seq<Entry>, i: nat, id: Identity) {
    i < |entries| && entries[i].id == id
  }

  lemma {:induction false} IndicesAre(entries: seq<Entry>, id: Identity)
    ensures Enumerates(IndicesOf(entries, id), entries, id)
  {
    if entries != [] {
      var front := entries[..|entries| - 1];
      IndicesAre(front, id);
      EnumeratesNext(IndicesOf(front, id), front, entries[|front|], id);
      assert entries == front + [entries[|front|]];
    }
  }

  lemma EnumeratesNext(indices: seq<nat>, entries: seq<Entry>, e: Entry, id: Identity)
    requires Enumerates(indices, entries, id)
    ensures Enumerates(indices + if e.id == id then [|entries|] else [], entries + [e], id)
  {
    var longer, more := entries + [e], indices + if e.id == id then [|entries|] else [];
    forall j | 0 <= j < |more|
      ensures HasId(longer, more[j], id)
    {
      assert j < |indices| ==> HasId(entries, indices[j], id);
    }
    forall i: nat | HasId(longer, i, id)
      ensures i in more
    {
      assert if i < |entries| then HasId(entries, i, id) else more[|indices|] == i;
    }
    assert forall j | 0 <= j < |indices| :: HasId(entries, indices[j], id);
  }

  /** These keys and paths are those of the entries at these positions. */
  ghost predicate TakenFrom(keys: seq<string>, paths: seq<string>, entries: seq<Entry>, indices: seq<nat>) {
    && |keys| == |paths| == |indices|
    && forall j | 0 <= j < |indices| :: TakenAt(keys[j], paths[j], entries, indices[j])
  }

  predicate TakenAt(key: string, path: string, entries: seq<Entry>, i: nat) {
    i < |entries| && key == entries[i].key && path == entries[i].path
  }

  /** The keys and paths of a batch are those of its entries, in their order. */
  lemma {:induction false} KeysAt(entries: seq<Entry>, id: Identity)
    ensures TakenFrom(KeysOf(entries, id), PathsOf(entries, id), entries, IndicesOf(entries, id))
  {
    if entries != [] {
      var front := entries[..|entries| - 1];
      KeysAt(front, id);
      var before, indices := IndicesOf(front, id), IndicesOf(entries, id);
      var keys, paths := KeysOf(entries, id), PathsOf(entries, id);
      forall j | 0 <= j < |indices|
        ensures TakenAt(keys[j], paths[j], entries, indices[j])
      {
        assert j < |before| ==> TakenAt(KeysOf(front, id)[j], PathsOf(front, id)[j], front, before[j]);
      }
    }
  }

  /** How many requests `n` keys take. */
  function ChunkCount(n: nat): nat {
    (n + MAX_KEYS_PER_REQUEST - 1) / MAX_KEYS_PER_REQUEST
  }

  function ChunkAt(b: Batch, i: nat): Request
    requires i < ChunkCount(|b.keys|) && |b.paths| == |b.keys|
  {
    var start := i * MAX_KEYS_PER_REQUEST;
    Request(b.id, b.keys[start..Min(start + MAX_KEYS_PER_REQUEST, |b.keys|)], b.paths[start])
  }

  /** The first `n` requests of a batch. */
  function Chunks(b: Batch, n: nat): seq<Request>
    requires n <= ChunkCount(|b.keys|) && |b.paths| == |b.keys|
  {
    if n == 0 then [] else Chunks(b, n - 1) + [ChunkAt(b, n - 1)]
  }

  function AllChunks(b: Batch): seq<Request>
    requires |b.paths| == |b.keys|
  {
    Chunks(b, ChunkCount(|b.keys|))
  }

  function Joined(requests: seq<Request>): seq<string> {
    if requests == [] then [] else Joined(requests[..|requests| - 1]) + requests[|requests| - 1].keys
  }

  /** The batch of all the entries with this identity. */
  function BatchOf(entries: seq<Entry>, id: Identity): (b: Batch)
    ensures |b.keys| == |b.paths|
  {
    SameLength(entries, id);
    Batch(id, KeysOf(entries, id), PathsOf(entries, id))
  }

  lemma SameLength(entries: seq<Entry>, id: Identity)
    ensures |KeysOf(entries, id)| == |PathsOf(entries, id)|
  {
    KeysAt(entries, id);
  }

  /** The requests for this identity among all requests. */
  function RequestsOf(requests: seq<Request>, id: Identity): seq<Request> {
    if requests == [] then []
    else
      var r := requests[|requests| - 1];
      RequestsOf(requests[..|requests| - 1], id) + if r.id == id then [r] else []
  }

  /** The chunks of a batch hold every key once, in order, at most 1000 each, and there are
      ceil(n / 1000) of them, none empty. */
  lemma {:induction false} ChunksPartition(b: Batch, n: nat)
    requires |b.paths| == |b.keys| && n <= ChunkCount(|b.keys|)
    ensures Joined(Chunks(b, n)) == b.keys[..Min(n * MAX_KEYS_PER_REQUEST, |b.keys|)]
    ensures |Chunks(b, n)| == n
    ensures forall i | 0 <= i < n :: Chunks(b, n)[i].id == b.id && 0 < |Chunks(b, n)[i].keys| <= MAX_KEYS_PER_REQUEST
  {
    if n > 0 {
      ChunksPartition(b, n - 1);
      var before, chunk := Chunks(b, n - 1), ChunkAt(b, n - 1);
      assert (before + [chunk])[..n - 1] == before;
      var start := (n - 1) * MAX_KEYS_PER_REQUEST;
      var end := Min(start + MAX_KEYS_PER_REQUEST, |b.keys|);
      assert start < end && chunk.keys == b.keys[start..end];
      SlicesJoin(b.keys, start, end);
    }
  }

  lemma SlicesJoin(keys: seq<string>, start: nat, end: nat)
    requires start <= end <= |keys|
    ensures keys[..start] + keys[start..end] == keys[..end]
  {
  }

  /** All the keys of a batch are sent. */
  lemma AllKeysSent(b: Batch)
    requires |b.paths| == |b.keys|
    ensures Joined(AllChunks(b)) == b.keys && |AllChunks(b)| == (|b.keys| + 999) / 1000
  {
    ChunksPartition(b, ChunkCount(|b.keys|));
    assert b.keys[..|b.keys|] == b.keys;
  }

  ghost predicate GroupedAt(batches: map<string, Batch>, entries: seq<Entry>, id: Identity) {
    && (Key(id) in batches <==> KeysOf(entries, id) != [])
    && (Key(id) in batches ==> batches[Key(id)] == BatchOf(entries, id))
  }

  predicate KeyedAt(batches: map<string, Batch>, k: string)
    requires k in batches
  {
    k == Key(batches[k].id)
  }

  /** The batches after some entries: one under the key of each identity that occurs. */
  ghost predicate Grouped(batches: map<string, Batch>, entries: seq<Entry>) {
    && (forall id | WellFormed(id) :: GroupedAt(batches, entries, id))
    && (forall k | k in batches :: KeyedAt(batches, k) && WellFormed(batches[k].id))
  }

  /** A batch with the keys and paths of these entries, in this order. */
  ghost predicate Collects(b: Batch, entries: seq<Entry>, id: Identity, indices: seq<nat>) {
    b.id == id && Enumerates(indices, entries, id) && TakenFrom(b.keys, b.paths, entries, indices)
  }

  /** There is a batch for this identity exactly if some entry has it, and it collects all of them. */
  ghost predicate CollectedAt(batches: map<string, Batch>, entries: seq<Entry>, id: Identity) {
    && (Key(id) in batches <==> exists i: nat :: HasId(entries, i, id))
    && (Key(id) in batches ==> Collects(batches[Key(id)], entries, id, IndicesOf(entries, id)))
  }

  lemma GroupedCollects(batches: map<string, Batch>, entries: seq<Entry>, id: Identity)
    requires GroupedAt(batches, entries, id)
    ensures CollectedAt(batches, entries, id)
  {
    KeysAt(entries, id);
    IndicesAre(entries, id);
    var indices := IndicesOf(entries, id);
    if indices != [] {
      assert HasId(entries, indices[0], id);
    }
  }

  ghost predicate AllWellFormed(entries: seq<Entry>) {
    forall i | 0 <= i < |entries| :: WellFormed(entries[i].id)
  }

  /** The batches with one more entry. */
  function Add(batches: map<string, Batch>, e: Entry): map<string, Batch> {
    var k := Key(e.id);
    var b := if k in batches then batches[k] else Batch(e.id, [], []);
    batches[k := Batch(b.id, b.keys + [e.key], b.paths + [e.path])]
  }

  lemma GroupOneAt(batches: map<string, Batch>, entries: seq<Entry>, i: nat, id: Identity)
    requires i < |entries| && WellFormed(id) && WellFormed(entries[i].id)
    requires GroupedAt(batches, entries[..i], id) && GroupedAt(batches, entries[..i], entries[i].id)
    ensures GroupedAt(Add(batches, entries[i]), entries[..i + 1], id)
  {
    var e := entries[i];
    var before, after := entries[..i], entries[..i + 1];
    assert after[..i] == before && after[i] == e;
    SameLength(before, id);
    KeyInjective(id, e.id);
  }

  lemma AddKeepsKeys(batches: map<string, Batch>, e: Entry)
    requires WellFormed(e.id) && forall k | k in batches :: KeyedAt(batches, k) && WellFormed(batches[k].id)
    ensures forall k | k in Add(batches, e) :: KeyedAt(Add(batches, e), k) && WellFormed(Add(batches, e)[k].id)
  {
  }

  lemma GroupOne(batches: map<string, Batch>, entries: seq<Entry>, i: nat)
    requires i < |entries| && AllWellFormed(entries) && Grouped(batches, entries[..i])
    ensures Grouped(Add(batches, entries[i]), entries[..i + 1])
  {
    var before, after, added := entries[..i], entries[..i + 1], Add(batches, entries[i]);
    assert GroupedAt(batches, before, entries[i].id);
    forall id | WellFormed(id)
      ensures GroupedAt(added, after, id)
    {
      assert GroupedAt(batches, before, id);
      GroupOneAt(batches, entries, i, id);
    }
    AddKeepsKeys(batches, entries[i]);
  }

  /** The grouping loop of RemoveFiles. */
  method Group(entries: seq<Entry>) returns (batches: map<string, Batch>)
    requires AllWellFormed(entries)
    ensures Grouped(batches, entries)
    ensures forall id | WellFormed(id) :: CollectedAt(batches, entries, id)
  {
    batches := map[];
    for i := 0 to |entries|
      invariant Grouped(batches, entries[..i])
    {
      GroupOne(batches, entries, i);
      batches := AddEntry(batches, entries[i]);
    }
    assert entries[..|entries|] == entries;
    forall id | WellFormed(id)
      ensures CollectedAt(batches, entries, id)
    {
      assert GroupedAt(batches, entries, id);
      GroupedCollects(batches, entries, id);
    }
  }

  /** The body of that loop. */
  method AddEntry(batches: map<string, Batch>, e: Entry) returns (added: map<string, Batch>)
    ensures added == Add(batches, e)
  {
    var k := Key(e.id);
    added := batches;
    if k !in added {
      added := added[k := Batch(e.id, [], [])];
    }
    added := added[k := Batch(added[k].id, added[k].keys + [e.key], added[k].paths + [e.path])];
  }

  // ----- Posting -----

  /** The answer to a POST: status 200 without an error, an authentication failure with what a
      refresh then achieved, or anything else. */
  datatype Reply = Removed | AuthFailure(refreshed: bool) | Refused

  /** What the endpoint replies to each POST of a call. */
  type Replies = nat -> Reply

  /** How often a request is posted whose first POST is number `at`. */
  function Tries(replies: Replies, at: nat): nat {
    if replies(at) == AuthFailure(true) then 2 else 1
  }

  /** The first POST of request `n`. */
  function FirstPost(replies: Replies, n: nat): nat {
    if n == 0 then 0 else FirstPost(replies, n - 1) + Tries(replies, FirstPost(replies, n - 1))
  }

  /** A request counts as accepted if its last POST does. */
  predicate Accepts(replies: Replies, n: nat) {
    replies(FirstPost(replies, n + 1) - 1).Removed?
  }

  function Times(r: Request, n: nat): seq<Request> {
    seq(n, _ => r)
  }

  /** Everything that was posted for these requests. */
  function Posted(replies: Replies, requests: seq<Request>): seq<Request> {
    if requests == [] then []
    else
      var n := |requests| - 1;
      Posted(replies, requests[..n]) + Times(requests[n], Tries(replies, FirstPost(replies, n)))
  }

  lemma {:induction false} PostedLength(replies: Replies, requests: seq<Request>)
    ensures |Posted(replies, requests)| == FirstPost(replies, |requests|)
  {
    if requests != [] {
      PostedLength(replies, requests[..|requests| - 1]);
    }
  }

  /** Posts one request, and once more if an authentication failure could be refreshed. */
  method Post(request: Request, ghost sent: seq<Request>, replies: Replies, posts: seq<Request>)
    returns (now: seq<Request>, ok: bool)
    requires posts == Posted(replies, sent)
    ensures now == Posted(replies, sent + [request])
    ensures ok <==> Accepts(replies, |sent|)
    ensures now == posts + if replies(|posts|) == AuthFailure(true) then [request, request] else [request]
    ensures ok <==> replies(|now| - 1).Removed?
  {
    PostedLength(replies, sent);
    assert (sent + [request])[..|sent|] == sent;
    now := posts;
    var retried, reply := false, Refused;
    while true
      invariant now == posts + if retried then [request] else []
      invariant retried ==> replies(|posts|) == AuthFailure(true)
      decreases !retried
    {
      reply := replies(|now|);
      now := now + [request];
      if !retried && reply == AuthFailure(true) {
        retried := true;
        continue;
      }
      break;
    }
    ok := reply.Removed?;
    assert now == posts + Times(request, Tries(replies, |posts|));
  }

  lemma RequestsSnoc(sent: seq<Request>, r: Request, id: Identity)
    ensures RequestsOf(sent + [r], id) == RequestsOf(sent, id) + if r.id == id then [r] else []
  {
    assert (sent + [r])[..|sent|] == sent;
  }

  lemma {:induction false} ChunksPrefix(b: Batch, n: nat, m: nat)
    requires n <= m <= ChunkCount(|b.keys|) && |b.paths| == |b.keys|
    ensures Chunks(b, n) <= Chunks(b, m)
  {
    if n < m {
      ChunksPrefix(b, n, m - 1);
    }
  }

  /** Requests `from` to `to` were accepted, but for the last one unless `ok`. */
  ghost predicate Accepted(replies: Replies, from: nat, to: nat, ok: bool) {
    && from <= to && (!ok ==> from < to)
    && forall i: nat | from <= i < to :: Accepts(replies, i) == (ok || i < to - 1)
  }

  ghost predicate Same(sent: seq<Request>, before: seq<Request>, id: Identity) {
    RequestsOf(sent, id) == RequestsOf(before, id)
  }

  /** The requests of all other identities are as before. */
  ghost predicate OthersSame(sent: seq<Request>, before: seq<Request>, own: Identity) {
    forall id :: id == own || Same(sent, before, id)
  }

  lemma OthersStaySame(sent: seq<Request>, before: seq<Request>, r: Request)
    requires OthersSame(sent, before, r.id)
    ensures OthersSame(sent + [r], before, r.id)
  {
    var longer := sent + [r];
    forall id: Identity
      ensures id == r.id || Same(longer, before, id)
    {
      assert id == r.id || Same(sent, before, id);
      RequestsSnoc(sent, r, id);
    }
  }

  lemma NextChunk(b: Batch, n: nat, start: nat)
    requires |b.paths| == |b.keys| && start == n * MAX_KEYS_PER_REQUEST < |b.keys|
    ensures n < ChunkCount(|b.keys|) && Chunks(b, n + 1) == Chunks(b, n) + [ChunkAt(b, n)]
    ensures Chunks(b, n + 1) <= AllChunks(b)
    ensures ChunkAt(b, n) == Request(b.id, b.keys[start..Min(start + MAX_KEYS_PER_REQUEST, |b.keys|)], b.paths[start])
  {
    ChunksPrefix(b, n + 1, ChunkCount(|b.keys|));
  }

  lemma ChunkSent(b: Batch, before: seq<Request>, sent: seq<Request>, n: nat, start: nat, r: Request)
    requires |b.paths| == |b.keys| && start == n * MAX_KEYS_PER_REQUEST < |b.keys| && OthersSame(sent, before, b.id)
    requires r == Request(b.id, b.keys[start..Min(start + MAX_KEYS_PER_REQUEST, |b.keys|)], b.paths[start])
    ensures n < ChunkCount(|b.keys|) && OthersSame(sent + [r], before, b.id)
    ensures RequestsOf(sent, b.id) == Chunks(b, n) ==>
      RequestsOf(sent + [r], b.id) == Chunks(b, n + 1) && Chunks(b, n + 1) <= AllChunks(b)
  {
    NextChunk(b, n, start);
    OthersStaySame(sent, before, r);
    RequestsSnoc(sent, r, b.id);
  }

  lemma LastChunk(b: Batch, n: nat)
    requires n <= ChunkCount(|b.keys|) && n * MAX_KEYS_PER_REQUEST >= |b.keys|
    ensures n == ChunkCount(|b.keys|)
  {
  }

  /** The requests of one batch, until one is refused. Each is posted once, or twice if the first
      answer is an authentication failure that could be refreshed. */
  method SendBatch(b: Batch, before: seq<Request>, replies: Replies, postsBefore: seq<Request>)
    returns (sent: seq<Request>, posts: seq<Request>, ok: bool)
    requires |b.paths| == |b.keys| && postsBefore == Posted(replies, before)
    ensures OthersSame(sent, before, b.id)
    ensures RequestsOf(before, b.id) == [] ==>
      if ok then RequestsOf(sent, b.id) == AllChunks(b) else RequestsOf(sent, b.id) <= AllChunks(b)
    ensures Accepted(replies, |before|, |sent|, ok) && posts == Posted(replies, sent)
  {
    sent, posts, ok := before, postsBefore, true;
    var start: nat := 0;
    ghost var n := 0;
    assert OthersSame(sent, before, b.id) by {
      assert forall id :: Same(before, before, id);
    }
    while start < |b.keys|
      invariant n <= ChunkCount(|b.keys|) && start == n * MAX_KEYS_PER_REQUEST
      invariant ok && Accepted(replies, |before|, |sent|, true) && posts == Posted(replies, sent)
      invariant OthersSame(sent, before, b.id)
      invariant RequestsOf(before, b.id) == [] ==> RequestsOf(sent, b.id) == Chunks(b, n)
    {
      var end := Min(start + MAX_KEYS_PER_REQUEST, |b.keys|);
      var r := Request(b.id, b.keys[start..end], b.paths[start]);
      ChunkSent(b, before, sent, n, start, r);
      posts, ok := Post(r, sent, replies, posts);
      sent := sent + [r];
      n := n + 1;
      if !ok {
        return;
      }
      start := start + MAX_KEYS_PER_REQUEST;
    }
    LastChunk(b, n);
  }

  /** The requests that an identity takes. */
  function Expected(entries: seq<Entry>, id: Identity): seq<Request> {
    AllChunks(BatchOf(entries, id))
  }

  /** What a removal has sent for an identity: the chunks of its keys, all of them unless a
      request was refused. */
  ghost predicate Served(sent: seq<Request>, entries: seq<Entry>, ok: bool, id: Identity) {
    if ok then RequestsOf(sent, id) == Expected(entries, id) else RequestsOf(sent, id) <= Expected(entries, id)
  }

  /** The batches not under the keys in `left` have been sent. */
  ghost predicate SentAt(sent: seq<Request>, entries: seq<Entry>, left: set<string>, id: Identity) {
    RequestsOf(sent, id) == if Key(id) in left then [] else Expected(entries, id)
  }

  /** These requests ask for the objects of the first entries with this identity, in their order: each
      for at most 1000 of them, and with the path of its first one for the secret. */
  ghost predicate Asks(requests: seq<Request>, entries: seq<Entry>, id: Identity, indices: seq<nat>) {
    && |Joined(requests)| <= |indices|
    && (forall j | 0 <= j < |Joined(requests)| :: KeyAt(Joined(requests)[j], entries, indices[j]))
    && forall n: nat | n < |requests| :: AsksAt(requests[n], entries, id, indices, n * MAX_KEYS_PER_REQUEST)
  }

  predicate KeyAt(key: string, entries: seq<Entry>, i: nat) {
    i < |entries| && key == entries[i].key
  }

  ghost predicate AsksAt(r: Request, entries: seq<Entry>, id: Identity, indices: seq<nat>, start: nat) {
    && r.id == id && 0 < |r.keys| <= MAX_KEYS_PER_REQUEST && start < |indices|
    && TakenAt(r.keys[0], r.lookup, entries, indices[start])
  }

  /** The requests of an identity, up to a refused one, ask for its objects; without an error, for all
      of them. */
  ghost predicate Delivered(sent: seq<Request>, entries: seq<Entry>, ok: bool, id: Identity) {
    var requests, indices := RequestsOf(sent, id), IndicesOf(entries, id);
    && Asks(requests, entries, id, indices)
    && (ok ==> |Joined(requests)| == |indices| && |requests| == (|indices| + 999) / 1000)
  }

  lemma {:induction false} ChunksAre(b: Batch, n: nat, i: nat)
    requires |b.paths| == |b.keys| && i < n <= ChunkCount(|b.keys|)
    ensures |Chunks(b, n)| == n && Chunks(b, n)[i] == ChunkAt(b, i)
  {
    ChunksPartition(b, n - 1);
    if i < n - 1 {
      ChunksAre(b, n - 1, i);
    }
  }

  // The chunks of a batch ask for its objects.
  lemma ChunksAsk(entries: seq<Entry>, id: Identity, n: nat)
    requires n <= ChunkCount(|BatchOf(entries, id).keys|)
    ensures Asks(Chunks(BatchOf(entries, id), n), entries, id, IndicesOf(entries, id))
  {
    var b, indices := BatchOf(entries, id), IndicesOf(entries, id);
    KeysAt(entries, id);
    ChunksPartition(b, n);
    var requests := Chunks(b, n);
    forall m: nat | m < |requests|
      ensures AsksAt(requests[m], entries, id, indices, m * MAX_KEYS_PER_REQUEST)
    {
      ChunksAre(b, n, m);
      ChunkAsks(entries, id, m);
    }
  }

  lemma ChunkAsks(entries: seq<Entry>, id: Identity, m: nat)
    requires m < ChunkCount(|BatchOf(entries, id).keys|)
    ensures AsksAt(ChunkAt(BatchOf(entries, id), m), entries, id, IndicesOf(entries, id), m * MAX_KEYS_PER_REQUEST)
  {
    KeysAt(entries, id);
    var b, start := BatchOf(entries, id), m * MAX_KEYS_PER_REQUEST;
    assert start < |b.keys| && ChunkAt(b, m).keys[0] == b.keys[start];
  }

  lemma ServedDelivers(sent: seq<Request>, entries: seq<Entry>, ok: bool, id: Identity)
    requires Served(sent, entries, ok, id)
    ensures Delivered(sent, entries, ok, id)
  {
    var b, requests := BatchOf(entries, id), RequestsOf(sent, id);
    var n := ChunkCount(|b.keys|);
    KeysAt(entries, id);
    AllKeysSent(b);
    ChunksPartition(b, n);
    assert |requests| <= n;
    ChunksPrefix(b, |requests|, n);
    ChunksPartition(b, |requests|);
    assert requests == AllChunks(b)[..|requests|] == Chunks(b, |requests|);
    ChunksAsk(entries, id, |requests|);
  }

  lemma NothingSent(entries: seq<Entry>, batches: map<string, Batch>, id: Identity)
    requires GroupedAt(batches, entries, id)
    ensures SentAt([], entries, batches.Keys, id)
  {
  }

  lemma OneBatchSent(entries: seq<Entry>, before: seq<Request>, sent: seq<Request>, left: set<string>, k: string,
                     id: Identity, other: Identity)
    requires k == Key(id) && WellFormed(id) && WellFormed(other) && SentAt(before, entries, left, other)
    requires other == id || Same(sent, before, other)
    requires RequestsOf(sent, id) == Expected(entries, id)
    ensures SentAt(sent, entries, left - {k}, other)
  {
    KeyInjective(other, id);
  }

  /** Groups the paths and sends the batches, in any order. */
  method SendAll(entries: seq<Entry>, replies: Replies) returns (sent: seq<Request>, posts: seq<Request>, ok: bool)
    requires AllWellFormed(entries)
    ensures forall id | WellFormed(id) :: Served(sent, entries, ok, id)
    ensures Accepted(replies, 0, |sent|, ok) && posts == Posted(replies, sent)
  {
    sent, posts, ok := [], [], true;
    var batches := Group(entries);
    var left := batches.Keys;
    forall id | WellFormed(id)
      ensures SentAt(sent, entries, left, id)
    {
      assert GroupedAt(batches, entries, id);
      NothingSent(entries, batches, id);
    }
    while left != {}
      invariant left <= batches.Keys && ok && Accepted(replies, 0, |sent|, true) && posts == Posted(replies, sent)
      invariant forall id | WellFormed(id) :: SentAt(sent, entries, left, id)
    {
      var k :| k in left;
      var b := batches[k];
      assert KeyedAt(batches, k) && GroupedAt(batches, entries, b.id);
      ghost var before := sent;
      assert SentAt(before, entries, left, b.id);
      sent, posts, ok := SendBatch(b, sent, replies, posts);
      if !ok {
        forall id | WellFormed(id)
          ensures Served(sent, entries, false, id)
        {
          assert SentAt(before, entries, left, id);
          assert id == b.id || Same(sent, before, id);
        }
        return;
      }
      forall id | WellFormed(id)
        ensures SentAt(sent, entries, left - {k}, id)
      {
        OneBatchSent(entries, before, sent, left, k, b.id, id);
      }
      left := left - {k};
    }
    forall id | WellFormed(id)
      ensures Served(sent, entries, true, id)
    {
      assert SentAt(sent, entries, left, id);
    }
  }

  /** RemoveFiles: whatever order the batches are visited in, the requests for each identity are
      the chunks of its keys. If all are accepted every key has been sent, under its own
      identity; otherwise the call ends at the refused request. */
  method RemoveFiles(entries: seq<Entry>, replies: Replies) returns (sent: seq<Request>, posts: seq<Request>, ok: bool)
    requires AllWellFormed(entries)
    ensures forall id | WellFormed(id) :: Served(sent, entries, ok, id)
    ensures forall id | WellFormed(id) :: Delivered(sent, entries, ok, id)
    ensures Accepted(replies, 0, |sent|, ok) && posts == Posted(replies, sent)
  {
    sent, posts, ok := SendAll(entries, replies);
    forall id | WellFormed(id)
      ensures Delivered(sent, entries, ok, id)
    {
      assert Served(sent, entries, ok, id);
      ServedDelivers(sent, entries, ok, id);
    }
  }

  /** After a removal without errors, each input key is in exactly one request of its identity: the
      requests of an identity, joined, are the keys of its entries in input order, in ceil(n / 1000)
      requests of at most 1000 keys, each with the path of its first entry. */
  lemma EveryKeyOnce(entries: seq<Entry>, sent: seq<Request>, id: Identity) returns (indices: seq<nat>)
    requires Served(sent, entries, true, id)
    ensures Enumerates(indices, entries, id)
    ensures |Joined(RequestsOf(sent, id))| == |indices| && |RequestsOf(sent, id)| == (|indices| + 999) / 1000
    ensures Asks(RequestsOf(sent, id), entries, id, indices)
    ensures Joined(RequestsOf(sent, id)) == KeysOf(entries, id)
  {
    indices := IndicesOf(entries, id);
    IndicesAre(entries, id);
    ServedDelivers(sent, entries, true, id);
    AllKeysSent(BatchOf(entries, id));
  }

  lemma {:induction false} JoinedPlain(requests: seq<Request>)
    ensures AllPlain(Joined(requests)) <==> forall i | 0 <= i < |requests| :: AllPlain(requests[i].keys)
  {
    if requests != [] {
      var front, last := requests[..|requests| - 1], requests[|requests| - 1];
      JoinedPlain(front);
      ConcatPlain(Joined(front), last.keys);
      assert forall i | 0 <= i < |front| :: requests[i] == front[i];
    }
  }

  lemma ConcatPlain(a: seq<string>, b: seq<string>)
    ensures AllPlain(a + b) <==> AllPlain(a) && AllPlain(b)
  {
    var s := a + b;
    if AllPlain(s) {
      forall i | 0 <= i < |b|
        ensures Plain(b[i])
      {
        assert b[i] == s[|a| + i];
      }
      assert forall i | 0 <= i < |a| :: a[i] == s[i];
    }
  }

  /** What the endpoint reads in the body of this request is what was meant. */
  ghost predicate ReadAsMeant(entity: string -> Option<char>, r: Request) {
    ReadBody(entity, Body(r.keys)) == Some(r.keys)
  }

  lemma PlainEntries(entries: seq<Entry>, id: Identity, keys: seq<string>, indices: seq<nat>)
    requires |keys| == |indices| && Enumerates(indices, entries, id)
    requires forall j | 0 <= j < |keys| :: KeyAt(keys[j], entries, indices[j])
    ensures AllPlain(keys) <==> forall i | 0 <= i < |entries| && entries[i].id == id :: Plain(entries[i].key)
  {
    if AllPlain(keys) {
      forall i: nat | i < |entries| && entries[i].id == id
        ensures Plain(entries[i].key)
      {
        assert HasId(entries, i, id);
        var j :| 0 <= j < |indices| && indices[j] == i;
        assert Plain(keys[j]);
      }
    } else {
      var j :| 0 <= j < |keys| && !Plain(keys[j]);
      assert HasId(entries, indices[j], id);
    }
  }

  /** After a removal without errors, the endpoint has read in each request of an identity the keys
      that were meant if and only if all the keys of that identity are plain: they are written into
      the body without being escaped. */
  lemma KeysReadAsMeant(entity: string -> Option<char>, entries: seq<Entry>, sent: seq<Request>, id: Identity)
    requires Served(sent, entries, true, id)
    ensures var requests := RequestsOf(sent, id);
      (forall i | 0 <= i < |requests| :: ReadAsMeant(entity, requests[i])) <==>
      forall i | 0 <= i < |entries| && entries[i].id == id :: Plain(entries[i].key)
  {
    var requests := RequestsOf(sent, id);
    var indices := EveryKeyOnce(entries, sent, id);
    JoinedPlain(requests);
    forall i | 0 <= i < |requests|
      ensures ReadAsMeant(entity, requests[i]) <==> AllPlain(requests[i].keys)
    {
      BodyReadsBack(entity, requests[i].keys);
    }
    PlainEntries(entries, id, Joined(requests), indices);
  }
}
