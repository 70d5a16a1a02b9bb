/** The S3 multipart upload as a step system: one writer thread that fills part buffers and
    hands full ones over, any number of detached upload threads, and the S3 endpoint. */
module MultipartUpload {
  import opened Prelude

  const U16 := 65536

  /** The most bytes a handle can take: part numbers and the part counter are 16 bits wide. */
  function Capacity(c: Config): nat {
    65535 * c.partSize
  }

  datatype Config = Config(partSize: nat, maxThreads: nat, kms: bool)

  /** A part buffer: `idx` bytes of its memory are filled. */
  datatype Buffer = Buffer(partNo: nat, start: nat, idx: nat, mem: Bytes, uploading: bool) {
    function Filled(): Bytes
      requires idx <= |mem|
    {
      mem[..idx]
    }
  }

  /** The tag by which the endpoint identifies the content of a stored part. */
  datatype ETag = ETag(content: Bytes)

  /** Where an upload thread stands; `ok` tells whether its part was stored. */
  datatype UploadPc =
    | Putting | Tagged(etag: ETag) | Inserted | Failed
    | Leaving(ok: bool) | Decremented(ok: bool) | SlotNotified(ok: bool) | Gone(ok: bool)

  /** Who called FlushBuffer: a write with bytes left, or the final flush with buffers left. */
  datatype Caller = InWrite(rest: Bytes) | InFlushAll(left: seq<nat>)

  datatype WriterPc =
    | Idle
    | Filling(pending: Bytes)
    | Flushing(b: nat, k: Caller) | Claimed(b: nat, k: Caller)
    | Reserving(b: nat, k: Caller) | AwaitSlot(b: nat, k: Caller)
    | Opening(b: nat, k: Caller) | Spawning(b: nat, k: Caller)
    | Collecting | Deciding(list: seq<nat>) | SinglePutting(b: nat) | OpeningAll(list: seq<nat>)
    | FlushAll(list: seq<nat>) | DrainCheck | AwaitDrain | Drained | Completing(tags: seq<ETag>)
    | Finished | Thrown

  /** Why the process died: an upload thread let an exception escape, or one of two internal
      errors that no run reaches. */
  datatype Crash = Alive | EscapedException | CounterUnderflow | OutOfBounds

  datatype State = State(
    pc: WriterPc,
    written: Bytes,              // every byte accepted by a write so far
    heap: seq<Buffer>,           // all part buffers ever allocated
    table: map<nat, nat>,        // write_buffers: part index to buffer
    initialized: bool,
    finalized: bool,
    ups: map<nat, UploadPc>,     // upload threads, by the buffer they were given
    inProgress: nat,
    etags: map<nat, ETag>,
    partsUploaded: nat,
    errors: bool,
    crash: Crash,
    parts: map<nat, Bytes>,      // the endpoint: stored parts by part number
    blob: Option<Bytes>,       // the endpoint: the committed object
    puts: multiset<nat>,         // buffers sent so far
    singlePut: bool,             // the whole object was sent as one PUT
    completes: nat)              // CompleteMultipartUpload requests sent

  function Init(): State {
    State(Idle, [], [], map[], false, false, map[], 0, map[], 0, false, Alive, map[], None, multiset{}, false, 0)
  }

  datatype PutResult = PutOk | PutFailed(stored: bool) | PutEscapes(stored: bool)
  datatype CompleteResult = Accepted | EmbeddedError(committed: bool) | Refused(committed: bool)

  datatype Event =
    | CallWrite(bytes: Bytes, location: nat) | FillBuffer(memory: Bytes) | ReturnWrite
    | Claim | Check | Reserve | Open(ok: bool) | Spawn
    | CallFinalize | Resume | Collect(order: seq<nat>) | Decide | OpenAll(ok: bool) | SinglePut(result: PutResult)
    | FlushNext | CheckDrain | Rethrow | Complete(outcome: CompleteResult)
    | Spurious
    | Put(i: nat, result: PutResult) | Insert(i: nat) | Count(i: nat) | Push(i: nat)
    | Decrement(i: nat) | NotifySlot(i: nat) | NotifyDrain(i: nat)

  // ----- The endpoint -----

  /** Part number i + 1 is stored under this tag. */
  predicate Tags(parts: map<nat, Bytes>, i: nat, tag: ETag) {
    i + 1 in parts && ETag(parts[i + 1]) == tag
  }

  predicate Acceptable(parts: map<nat, Bytes>, tags: seq<ETag>) {
    forall i | 0 <= i < |tags| :: Tags(parts, i, tags[i])
  }

  function Assemble(parts: map<nat, Bytes>, n: nat): Bytes {
    if n == 0 then [] else Assemble(parts, n - 1) + if n in parts then parts[n] else []
  }

  // ----- Steps of the writer -----

  /** Nothing is written, committed or finalized, and the upload threads are left alone. */
  predicate OnTheWay(s: State, t: State) {
    t.ups == s.ups && t.written == s.written && t.blob == s.blob && t.completes == s.completes
      && t.finalized == s.finalized
  }

  /** What one round of the write loop changes. */
  datatype Round = Round(heap: seq<Buffer>, table: map<nat, nat>, written: Bytes, pc: WriterPc, crash: Crash)

  /** One round of the write loop up to the flush of a full buffer. */
  function FillRound(c: Config, s: State, pending: Bytes, memory: Bytes): Round
    requires c.partSize > 0 && pending != [] && |memory| == c.partSize
  {
    var location := |s.written|;
    var index := (location / c.partSize) % U16;
    var b := if index in s.table then s.table[index] else |s.heap|;
    var heap := if index in s.table then s.heap else s.heap + [Buffer(index, index * c.partSize, 0, memory, false)];
    if b >= |heap| || location < heap[b].start || location - heap[b].start >= c.partSize ||
       |heap[b].mem| != c.partSize then
      Round(s.heap, s.table, s.written, s.pc, OutOfBounds)
    else
      var buffer := heap[b];
      var at := location - buffer.start;
      var n := Min(|pending|, c.partSize - at);
      var filled := buffer.(mem := buffer.mem[..at] + pending[..n] + buffer.mem[at + n..], idx := buffer.idx + n);
      Round(heap[b := filled], s.table[index := b], s.written + pending[..n],
            if filled.idx >= c.partSize then Flushing(b, InWrite(pending[n..])) else Filling(pending[n..]), s.crash)
  }

  function Fill(c: Config, s: State, pending: Bytes, memory: Bytes): (t: State)
    requires c.partSize > 0 && pending != [] && |memory| == c.partSize
    ensures t.ups == s.ups
  {
    var r := FillRound(c, s, pending, memory);
    s.(heap := r.heap, table := r.table, written := r.written, pc := r.pc, crash := r.crash)
  }

  function Return(k: Caller): WriterPc {
    match k
    case InWrite(rest) => Filling(rest)
    case InFlushAll(left) => FlushAll(left)
  }

  /** FlushBuffer up to the claim of the buffer. */
  function ClaimStep(s: State): (t: State)
    requires s.pc.Flushing? && s.pc.b < |s.heap|
    ensures OnTheWay(s, t)
  {
    var buffer := s.heap[s.pc.b];
    if buffer.idx == 0 || buffer.uploading then s.(pc := Return(s.pc.k))
    else s.(heap := s.heap[s.pc.b := buffer.(uploading := true)], pc := Claimed(s.pc.b, s.pc.k))
  }

  function CheckStep(s: State): (t: State)
    requires s.pc.Claimed? && s.pc.b < |s.heap|
    ensures OnTheWay(s, t)
  {
    if s.errors then s.(pc := Thrown)
    else s.(table := s.table - {s.heap[s.pc.b].partNo}, pc := Reserving(s.pc.b, s.pc.k))
  }

  function ReserveStep(c: Config, s: State): (t: State)
    requires s.pc.Reserving?
    ensures OnTheWay(s, t)
  {
    if s.inProgress >= c.maxThreads then s.(pc := AwaitSlot(s.pc.b, s.pc.k))
    else s.(inProgress := (s.inProgress + 1) % U16, pc := Opening(s.pc.b, s.pc.k))
  }

  function Leave(s: State): (t: State)
    ensures OnTheWay(s, t)
  {
    if s.inProgress == 0 then s.(crash := CounterUnderflow) else s.(inProgress := s.inProgress - 1)
  }

  function OpenStep(s: State, ok: bool): (t: State)
    requires s.pc.Opening?
    ensures OnTheWay(s, t)
  {
    if s.initialized then s.(pc := Spawning(s.pc.b, s.pc.k))
    else if ok then s.(initialized := true, pc := Spawning(s.pc.b, s.pc.k))
    else Leave(s).(pc := Thrown)
  }

  function SpawnStep(s: State): State
    requires s.pc.Spawning?
  {
    s.(ups := s.ups[s.pc.b := Putting], pc := Return(s.pc.k))
  }

  function DecideStep(c: Config, s: State): (t: State)
    requires s.pc.Deciding?
    ensures OnTheWay(s, t)
  {
    if s.initialized then s.(pc := FlushAll(s.pc.list))
    else if |s.pc.list| == 1 && !c.kms then s.(pc := SinglePutting(s.pc.list[0]))
    else s.(pc := OpeningAll(s.pc.list))
  }

  function OpenAllStep(s: State, ok: bool): (t: State)
    requires s.pc.OpeningAll?
    ensures OnTheWay(s, t)
  {
    s.(initialized := s.initialized || ok, pc := if ok then FlushAll(s.pc.list) else Thrown)
  }

  function SinglePutStep(s: State, result: PutResult): (t: State)
    requires s.pc.SinglePutting? && s.pc.b < |s.heap| && s.heap[s.pc.b].idx <= |s.heap[s.pc.b].mem|
    ensures t.ups == s.ups
  {
    var buffer := s.heap[s.pc.b];
    var sent := s.(puts := s.puts + multiset{s.pc.b}, singlePut := true);
    if result.PutOk? then
      sent.(blob := Some(buffer.Filled()), etags := s.etags[buffer.partNo := ETag(buffer.Filled())],
            partsUploaded := (s.partsUploaded + 1) % U16, finalized := true, pc := Finished)
    else sent.(blob := if result.stored then Some(buffer.Filled()) else s.blob, pc := Thrown)
  }

  function FlushNextStep(s: State): (t: State)
    requires s.pc.FlushAll? && (s.pc.list != [] ==> s.pc.list[0] < |s.heap|)
    ensures OnTheWay(s, t)
  {
    if s.pc.list == [] then s.(pc := DrainCheck)
    else if s.heap[s.pc.list[0]].uploading then s.(pc := FlushAll(s.pc.list[1..]))
    else s.(pc := Flushing(s.pc.list[0], InFlushAll(s.pc.list[1..])))
  }

  predicate UnknownPart(etags: map<nat, ETag>, n: nat) {
    exists i | 0 <= i < n :: i !in etags
  }

  function TagList(etags: map<nat, ETag>, n: nat): seq<ETag>
    requires !UnknownPart(etags, n)
  {
    seq(n, i requires i in etags => etags[i])
  }

  /** RethrowIOError after the drain, and the request body of the completion. */
  function RethrowStep(s: State): (t: State)
    requires s.pc.Drained?
    ensures t.ups == s.ups
  {
    if s.errors then s.(pc := Thrown)
    else if s.partsUploaded == 0 || s.finalized then s.(pc := Finished)
    else if UnknownPart(s.etags, s.partsUploaded) then s.(finalized := true, pc := Thrown)
    else s.(finalized := true, pc := Completing(TagList(s.etags, s.partsUploaded)))
  }

  function Committed(parts: map<nat, Bytes>, tags: seq<ETag>, r: CompleteResult, blob: Option<Bytes>): Option<Bytes> {
    if r.Accepted? || r.committed then Some(Assemble(parts, |tags|)) else blob
  }

  function CompleteStep(s: State, r: CompleteResult): (t: State)
    requires s.pc.Completing?
    ensures t.ups == s.ups
  {
    s.(completes := s.completes + 1,
       blob := Committed(s.parts, s.pc.tags, r, s.blob),
       pc := if r.Accepted? then Finished else if r.EmbeddedError? then s.pc else Thrown)
  }

  // ----- Steps of an upload thread -----

  function PutStep(s: State, i: nat, result: PutResult): State
    requires i in s.ups && i < |s.heap| && s.heap[i].idx <= |s.heap[i].mem|
  {
    var content := s.heap[i].Filled();
    s.(puts := s.puts + multiset{i},
       parts := if result.PutOk? || result.stored then s.parts[s.heap[i].partNo + 1 := content] else s.parts,
       ups := s.ups[i := if result.PutOk? then Tagged(ETag(content)) else Failed],
       crash := if result.PutEscapes? then EscapedException else s.crash)
  }

  /** A notification wakes the writer if it sleeps on that condition variable. */
  function WakeSlot(pc: WriterPc): WriterPc {
    if pc.AwaitSlot? then Reserving(pc.b, pc.k) else pc
  }

  function WakeDrain(pc: WriterPc): WriterPc {
    if pc.AwaitDrain? then DrainCheck else pc
  }

  // ----- The step relation -----

  /** What can happen. A finalization that was called for a sync and had nothing to complete
      leaves the handle as it was; going on after one that completed is AfterSync's matter. */
  predicate CanDo(c: Config, s: State, e: Event) {
    && c.partSize > 0 && s.crash.Alive?
    && match e {
      case CallWrite(bytes, _) => s.pc.Idle? && |s.written| + |bytes| <= Capacity(c)
      case FillBuffer(memory) => s.pc.Filling? && s.pc.pending != [] && |memory| == c.partSize
      case ReturnWrite => s.pc == Filling([])
      case Claim => s.pc.Flushing? && s.pc.b < |s.heap|
      case Check => s.pc.Claimed? && s.pc.b < |s.heap|
      case Reserve => s.pc.Reserving?
      case Open(_) => s.pc.Opening?
      case Spawn => s.pc.Spawning?
      case CallFinalize => s.pc.Idle?
      case Resume => s.pc.Finished? && !s.finalized
      case Collect(order) => s.pc.Collecting? && |order| == |s.table| && forall p | p in s.table :: s.table[p] in order
      case Decide => s.pc.Deciding?
      case OpenAll(_) => s.pc.OpeningAll?
      case SinglePut(_) => s.pc.SinglePutting? && s.pc.b < |s.heap| && s.heap[s.pc.b].idx <= |s.heap[s.pc.b].mem|
      case FlushNext => s.pc.FlushAll? && (s.pc.list != [] ==> s.pc.list[0] < |s.heap|)
      case CheckDrain => s.pc.DrainCheck?
      case Rethrow => s.pc.Drained?
      case Complete(r) => s.pc.Completing? && (r.Accepted? || r.committed ==> Acceptable(s.parts, s.pc.tags))
      case Spurious => s.pc.AwaitSlot? || s.pc.AwaitDrain?
      case Put(i, _) => i in s.ups && s.ups[i] == Putting && i < |s.heap| && s.heap[i].idx <= |s.heap[i].mem|
      case Insert(i) => i in s.ups && s.ups[i].Tagged? && i < |s.heap|
      case Count(i) => i in s.ups && s.ups[i] == Inserted
      case Push(i) => i in s.ups && s.ups[i] == Failed
      case Decrement(i) => i in s.ups && s.ups[i].Leaving?
      case NotifySlot(i) => i in s.ups && s.ups[i].Decremented?
      case NotifyDrain(i) => i in s.ups && s.ups[i].SlotNotified?
    }
  }

  predicate ByThread(e: Event) {
    e.Put? || e.Insert? || e.Count? || e.Push? || e.Decrement? || e.NotifySlot? || e.NotifyDrain?
  }

  function Do(c: Config, s: State, e: Event): State
    requires CanDo(c, s, e)
  {
    match e
    case CallWrite(bytes, location) =>
      s.(pc := if bytes != [] && location != |s.written| then Thrown else Filling(bytes))
    case FillBuffer(memory) => Fill(c, s, s.pc.pending, memory)
    case ReturnWrite => s.(pc := Idle)
    case Claim => ClaimStep(s)
    case Check => CheckStep(s)
    case Reserve => ReserveStep(c, s)
    case Open(ok) => OpenStep(s, ok)
    case Spawn => SpawnStep(s)
    case CallFinalize => s.(pc := if s.finalized then Finished else Collecting)
    case Resume => s.(pc := Idle)
    case Collect(order) => s.(pc := Deciding(order))
    case Decide => DecideStep(c, s)
    case OpenAll(ok) => OpenAllStep(s, ok)
    case SinglePut(result) => SinglePutStep(s, result)
    case FlushNext => FlushNextStep(s)
    case CheckDrain => s.(pc := if s.inProgress == 0 then Drained else AwaitDrain)
    case Rethrow => RethrowStep(s)
    case Complete(r) => CompleteStep(s, r)
    case Spurious => s.(pc := WakeDrain(WakeSlot(s.pc)))
    case Put(i, result) => PutStep(s, i, result)
    case Insert(i) =>
      var partNo := s.heap[i].partNo;
      s.(etags := if partNo in s.etags then s.etags else s.etags[partNo := s.ups[i].etag], ups := s.ups[i := Inserted])
    case Count(i) => s.(partsUploaded := (s.partsUploaded + 1) % U16, ups := s.ups[i := Leaving(true)])
    case Push(i) => s.(errors := true, ups := s.ups[i := Leaving(false)])
    case Decrement(i) => Leave(s.(ups := s.ups[i := Decremented(s.ups[i].ok)]))
    case NotifySlot(i) => s.(ups := s.ups[i := SlotNotified(s.ups[i].ok)], pc := WakeSlot(s.pc))
    case NotifyDrain(i) => s.(ups := s.ups[i := Gone(s.ups[i].ok)], pc := WakeDrain(s.pc))
  }
}
