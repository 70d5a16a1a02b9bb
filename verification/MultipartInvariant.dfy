/** The inductive invariant of the multipart upload. */
module MultipartInvariant {
  import opened MultipartUpload
  import opened Prelude

  // ----- Buffers and the bytes they hold -----

  function Content(b: Buffer): Bytes {
    if b.idx <= |b.mem| then b.Filled() else []
  }

  function Joined(heap: seq<Buffer>): Bytes {
    if heap == [] then [] else Joined(heap[..|heap| - 1]) + Content(heap[|heap| - 1])
  }

  function Pending(pc: WriterPc): nat {
    match pc
    case Filling(pending) => |pending|
    case Flushing(_, InWrite(rest)) => |rest|
    case Claimed(_, InWrite(rest)) => |rest|
    case Reserving(_, InWrite(rest)) => |rest|
    case AwaitSlot(_, InWrite(rest)) => |rest|
    case Opening(_, InWrite(rest)) => |rest|
    case Spawning(_, InWrite(rest)) => |rest|
    case _ => 0
  }

  /** Where part `i` starts; StartIs gives the product. */
  function Start(c: Config, i: nat): nat {
    if i == 0 then 0 else Start(c, i - 1) + c.partSize
  }

  lemma {:induction false} StartIs(c: Config, i: nat)
    ensures Start(c, i) == i * c.partSize
  {
    if i > 0 {
      StartIs(c, i - 1);
      assert (i - 1) * c.partSize + c.partSize == i * c.partSize;
    }
  }

  /** Parts are numbered without gaps, and every part but the last is full. */
  ghost predicate BufferOk(c: Config, heap: seq<Buffer>, i: nat)
    requires i < |heap|
  {
    && heap[i].partNo == i && |heap[i].mem| == c.partSize
    && 0 < heap[i].idx <= c.partSize
    && (i < |heap| - 1 ==> heap[i].idx == c.partSize)
  }

  /** The buffers hold what was written, in order. */
  ghost predicate Holds(c: Config, heap: seq<Buffer>, written: Bytes) {
    && (forall i | 0 <= i < |heap| :: BufferOk(c, heap, i))
    && (heap != [] ==> heap[|heap| - 1].start == Start(c, |heap| - 1))
    && written == Joined(heap)
  }

  predicate LastFull(c: Config, heap: seq<Buffer>) {
    heap == [] || heap[|heap| - 1].idx == c.partSize
  }

  // ----- Who holds which buffer -----

  predicate Held(pc: WriterPc) {
    pc.Reserving? || pc.AwaitSlot? || pc.Opening? || pc.Spawning?
  }

  /** The buffers 0..Spawned are with an upload thread; at most one more is in the table or in
      the writer's hands. */
  function Spawned(n: nat, table: map<nat, nat>, pc: WriterPc): nat {
    if n > 0 && (table != map[] || Held(pc)) then n - 1 else n
  }

  ghost predicate TableOk(n: nat, table: map<nat, nat>, pc: WriterPc, ups: map<nat, UploadPc>) {
    && (table == map[] || (n > 0 && table == map[n - 1 := n - 1]))
    && (Held(pc) ==> table == map[] && n > 0 && pc.b == n - 1)
    && (forall i | i in ups :: i < n)
    && (!pc.Thrown? ==> forall i: nat :: i in ups <==> i < Spawned(n, table, pc))
  }

  predicate InTable(n: nat, table: map<nat, nat>, b: nat) {
    n > 0 && table != map[] && b == n - 1
  }

  predicate Unclaimed(heap: seq<Buffer>, table: map<nat, nat>) {
    table != map[] && heap != [] ==> !heap[|heap| - 1].uploading
  }

  predicate CallerOk(c: Config, heap: seq<Buffer>, initialized: bool, k: Caller) {
    match k
    case InWrite(_) => LastFull(c, heap)
    case InFlushAll(left) => left == [] && initialized
  }

  predicate InOrder(n: nat, table: map<nat, nat>, list: seq<nat>) {
    list == if table == map[] || n == 0 then [] else [n - 1]
  }

  ghost predicate PcOk(c: Config, pc: WriterPc, heap: seq<Buffer>, table: map<nat, nat>, initialized: bool) {
    match pc
    case Idle => Unclaimed(heap, table) && (table == map[] <==> LastFull(c, heap))
    case Filling(_) => Unclaimed(heap, table) && (table == map[] <==> LastFull(c, heap))
    case Flushing(b, k) => InTable(|heap|, table, b) && Unclaimed(heap, table) && CallerOk(c, heap, initialized, k)
    case Claimed(b, k) => InTable(|heap|, table, b) && CallerOk(c, heap, initialized, k)
    case Reserving(_, k) => CallerOk(c, heap, initialized, k)
    case AwaitSlot(_, k) => CallerOk(c, heap, initialized, k)
    case Opening(_, k) => CallerOk(c, heap, initialized, k)
    case Spawning(_, k) => CallerOk(c, heap, initialized, k) && initialized
    case Collecting => Unclaimed(heap, table)
    case Deciding(list) => Unclaimed(heap, table) && InOrder(|heap|, table, list)
    case SinglePutting(b) => InTable(|heap|, table, b) && !initialized
    case OpeningAll(list) => Unclaimed(heap, table) && InOrder(|heap|, table, list)
    case FlushAll(list) => Unclaimed(heap, table) && InOrder(|heap|, table, list) && initialized
    case DrainCheck => table == map[] && initialized
    case AwaitDrain => table == map[] && initialized
    case Drained => table == map[] && initialized
    case _ => true
  }

  // ----- Upload threads and counters -----

  predicate IsLive(u: UploadPc) {
    u.Putting? || u.Tagged? || u.Inserted? || u.Failed? || u.Leaving?
  }

  predicate IsCounted(u: UploadPc) {
    (u.Leaving? || u.Decremented? || u.SlotNotified? || u.Gone?) && u.ok
  }

  predicate IsFailed(u: UploadPc) {
    u.Failed? || ((u.Leaving? || u.Decremented? || u.SlotNotified? || u.Gone?) && !u.ok)
  }

  function LiveSet(ups: map<nat, UploadPc>): set<nat> {
    set i | i in ups && IsLive(ups[i])
  }

  function CountedSet(ups: map<nat, UploadPc>): set<nat> {
    set i | i in ups && IsCounted(ups[i])
  }

  /** The counters count: reserved or live uploads, and stored parts. */
  ghost predicate CountsOk(c: Config, pc: WriterPc, ups: map<nat, UploadPc>, inProgress: nat, partsUploaded: nat,
      singlePut: bool)
  {
    && inProgress == |LiveSet(ups)| + (if pc.Opening? || pc.Spawning? then 1 else 0)
    && (!singlePut ==> partsUploaded == |CountedSet(ups)|)
    && inProgress <= c.maxThreads
    && (pc.Drained? ==> inProgress == 0)
  }

  /** What is known of one upload thread's part. */
  ghost predicate UploadOk(content: Bytes, u: UploadPc, i: nat, etags: map<nat, ETag>, parts: map<nat, Bytes>,
      errors: bool)
  {
    && (u.Tagged? || u.Inserted? || IsCounted(u) ==> i + 1 in parts && parts[i + 1] == content)
    && (u.Tagged? ==> u.etag == ETag(content))
    && (u.Inserted? || IsCounted(u) <==> i in etags)
    && (i in etags ==> etags[i] == ETag(content))
    && (IsFailed(u) && !u.Failed? ==> errors)
  }

  ghost predicate UploadsOk(heap: seq<Buffer>, ups: map<nat, UploadPc>, etags: map<nat, ETag>, parts: map<nat, Bytes>,
      errors: bool)
  {
    forall i | i in ups && i < |heap| :: UploadOk(Content(heap[i]), ups[i], i, etags, parts, errors)
  }

  ghost predicate PutsOk(ups: map<nat, UploadPc>, puts: multiset<nat>, singlePut: bool) {
    forall i: nat :: puts[i] == if (i in ups && ups[i] != Putting) || (singlePut && i == 0) then 1 else 0
  }

  // ----- Sleeping and waking -----

  ghost predicate SlotWakerPending(ups: map<nat, UploadPc>) {
    exists i :: i in ups && ups[i].Decremented?
  }

  ghost predicate DrainWakerPending(ups: map<nat, UploadPc>) {
    exists i :: i in ups && (ups[i].Decremented? || ups[i].SlotNotified?)
  }

  /** A sleeping writer has nothing to do, or somebody is about to wake it. */
  ghost predicate SleepOk(c: Config, pc: WriterPc, inProgress: nat, ups: map<nat, UploadPc>) {
    && (pc.AwaitSlot? ==> inProgress >= c.maxThreads || SlotWakerPending(ups))
    && (pc.AwaitDrain? ==> inProgress != 0 || DrainWakerPending(ups))
  }

  // ----- The endpoint -----

  /** Every part of a non-empty file is stored and tagged. */
  ghost predicate AllStored(n: nat, ups: map<nat, UploadPc>, errors: bool) {
    !errors && n > 0 && forall i: nat | i < n :: i in ups && IsCounted(ups[i])
  }

  predicate Ended(pc: WriterPc) {
    pc.Finished? || pc.Thrown?
  }

  /** What was committed, and that only one of the two ways to commit was used. */
  ghost predicate CommitOk(written: Bytes, blob: Option<Bytes>, singlePut: bool, completes: nat, pc: WriterPc,
      initialized: bool, finalized: bool)
  {
    && (blob.Some? ==> blob.value == written && (singlePut || completes > 0))
    && (singlePut ==> completes == 0 && Ended(pc))
    && (completes > 0 ==> pc.Completing? || Ended(pc))
    && (finalized ==> pc.Completing? || Ended(pc))
    && (pc.Completing? ==> finalized)
    && (pc.Finished? ==>
      if written == [] then initialized && completes == 0 && !singlePut && !finalized
      else blob == Some(written) && finalized)
  }

  predicate TagAt(heap: seq<Buffer>, tags: seq<ETag>, i: nat)
    requires i < |heap| == |tags|
  {
    tags[i] == ETag(Content(heap[i]))
  }

  ghost predicate TagsOk(heap: seq<Buffer>, pc: WriterPc) {
    pc.Completing? ==> |pc.tags| == |heap| && forall i | 0 <= i < |heap| :: TagAt(heap, pc.tags, i)
  }

  ghost predicate Inv(c: Config, s: State) {
    && c.partSize > 0
    && Holds(c, s.heap, s.written)
    && |s.written| + Pending(s.pc) <= Capacity(c)
    && TableOk(|s.heap|, s.table, s.pc, s.ups)
    && PcOk(c, s.pc, s.heap, s.table, s.initialized)
    && CountsOk(c, s.pc, s.ups, s.inProgress, s.partsUploaded, s.singlePut)
    && (!s.initialized || s.singlePut ==> s.ups == map[])
    && UploadsOk(s.heap, s.ups, s.etags, s.parts, s.errors)
    && (!s.singlePut ==> s.etags.Keys <= s.ups.Keys)
    && PutsOk(s.ups, s.puts, s.singlePut)
    && SleepOk(c, s.pc, s.inProgress, s.ups)
    && CommitOk(s.written, s.blob, s.singlePut, s.completes, s.pc, s.initialized, s.finalized)
    && (s.completes > 0 || s.pc.Completing? ==> AllStored(|s.heap|, s.ups, s.errors))
    && TagsOk(s.heap, s.pc)
    && s.crash != CounterUnderflow && s.crash != OutOfBounds
  }

  lemma InitInv(c: Config)
    requires c.partSize > 0
    ensures Inv(c, Init())
  {
  }

  // ----- Arithmetic of part indices -----

  lemma PartIndex(n: nat, size: nat, rest: nat)
    requires rest < size
    ensures (n * size + rest) / size == n
  {
    var x := n * size + rest;
    var q := x / size;
    Division(x, size);
    if q > n {
      OneMore(q, n, size);
    } else if q < n {
      OneMore(n, q, size);
    }
  }

  lemma OneMore(a: nat, b: nat, size: nat)
    requires a > b
    ensures a * size >= b * size + size
  {
    Scaled(a, b + 1, size);
    assert (b + 1) * size == b * size + size;
  }

  lemma Division(x: nat, size: nat)
    requires size > 0
    ensures (x / size) * size <= x < (x / size) * size + size
  {
    assert x == (x / size) * size + x % size;
  }

  lemma {:induction false} FullLength(heap: seq<Buffer>, size: nat)
    requires forall i | 0 <= i < |heap| :: |Content(heap[i])| == size
    ensures |Joined(heap)| == |heap| * size
  {
    if heap != [] {
      FullLength(heap[..|heap| - 1], size);
    }
  }

  lemma JoinedLength(c: Config, heap: seq<Buffer>, written: Bytes)
    requires Holds(c, heap, written) && heap != []
    ensures |written| == (|heap| - 1) * c.partSize + heap[|heap| - 1].idx
  {
    var full := heap[..|heap| - 1];
    forall i | 0 <= i < |full| ensures |Content(full[i])| == c.partSize {
      assert BufferOk(c, heap, i);
    }
    FullLength(full, c.partSize);
    assert BufferOk(c, heap, |heap| - 1);
  }

  lemma NothingWritten(c: Config, heap: seq<Buffer>, written: Bytes)
    requires Holds(c, heap, written)
    ensures written == [] <==> heap == []
  {
    if heap != [] {
      assert BufferOk(c, heap, |heap| - 1);
    }
  }

  lemma Scaled(a: nat, b: nat, size: nat)
    requires a >= b
    ensures a * size >= b * size
  {
  }

  lemma AtMost65535Parts(c: Config, heap: seq<Buffer>, written: Bytes)
    requires Holds(c, heap, written) && |written| <= Capacity(c)
    ensures |heap| <= 65535
  {
    if |heap| > 65535 {
      JoinedLength(c, heap, written);
      assert BufferOk(c, heap, |heap| - 1);
      Scaled(|heap| - 1, 65535, c.partSize);
    }
  }

  // ----- Filling buffers -----

  lemma JoinedReplaceLast(heap: seq<Buffer>, b: Buffer)
    requires heap != []
    ensures Joined(heap[|heap| - 1 := b]) == Joined(heap[..|heap| - 1]) + Content(b)
  {
    assert heap[|heap| - 1 := b][..|heap| - 1] == heap[..|heap| - 1];
  }

  lemma JoinedAppend(heap: seq<Buffer>, b: Buffer)
    ensures Joined(heap + [b]) == Joined(heap) + Content(b)
  {
    assert (heap + [b])[..|heap|] == heap;
  }

  // The part index a write round computes: a new part when the last one is full, else the last.
  lemma FillTarget(c: Config, heap: seq<Buffer>, written: Bytes, full: bool)
    requires c.partSize > 0 && Holds(c, heap, written) && |written| < Capacity(c)
    requires full <==> LastFull(c, heap)
    ensures
      var index := (|written| / c.partSize) % U16;
      && (full ==> index == |heap| && |written| == |heap| * c.partSize)
      && (!full ==> index == |heap| - 1 && heap[index].idx < c.partSize)
      && (!full ==> |written| == heap[index].start + heap[index].idx)
  {
    var n := |heap|;
    if heap == [] {
      PartIndex(0, c.partSize, 0);
    } else {
      JoinedLength(c, heap, written);
      StartIs(c, n - 1);
      assert BufferOk(c, heap, n - 1);
      if full {
        assert (n - 1) * c.partSize + c.partSize == n * c.partSize;
        IndexAt(c, n, 0);
      } else {
        IndexAt(c, n - 1, heap[n - 1].idx);
      }
    }
  }

  lemma IndexAt(c: Config, n: nat, rest: nat)
    requires rest < c.partSize && n * c.partSize + rest < Capacity(c)
    ensures ((n * c.partSize + rest) / c.partSize) % U16 == n
  {
    PartIndex(n, c.partSize, rest);
    Narrow(n, c, n * c.partSize + rest);
  }

  lemma Narrow(n: nat, c: Config, location: nat)
    requires c.partSize > 0 && n * c.partSize <= location < Capacity(c)
    ensures n < 65535
  {
    if n >= 65535 {
      Scaled(n, 65535, c.partSize);
    }
  }
}
