/** Every step of the multipart upload keeps the invariant. */
module MultipartSafety {
  import opened MultipartUpload
  import opened MultipartInvariant
  import opened Prelude

  // ----- Sets of upload threads -----

  lemma LiveAfter(ups: map<nat, UploadPc>, i: nat, u: UploadPc)
    ensures |LiveSet(ups[i := u])| == |LiveSet(ups)|
      - (if i in ups && IsLive(ups[i]) then 1 else 0) + (if IsLive(u) then 1 else 0)
  {
    var others := LiveSet(ups) - {i};
    assert LiveSet(ups[i := u]) == if IsLive(u) then others + {i} else others;
    assert LiveSet(ups) == if i in ups && IsLive(ups[i]) then others + {i} else others;
  }

  lemma CountedAfter(ups: map<nat, UploadPc>, i: nat, u: UploadPc)
    ensures |CountedSet(ups[i := u])| == |CountedSet(ups)|
      - (if i in ups && IsCounted(ups[i]) then 1 else 0) + (if IsCounted(u) then 1 else 0)
  {
    var others := CountedSet(ups) - {i};
    assert CountedSet(ups[i := u]) == if IsCounted(u) then others + {i} else others;
    assert CountedSet(ups) == if i in ups && IsCounted(ups[i]) then others + {i} else others;
  }

  lemma {:induction false} Bounded(s: set<nat>, n: nat)
    requires forall i | i in s :: i < n
    ensures |s| <= n
  {
    if n > 0 {
      Bounded(s - {n - 1}, n - 1);
      assert s <= s - {n - 1} + {n - 1};
      if n - 1 in s {
        assert s == s - {n - 1} + {n - 1};
      } else {
        assert s == s - {n - 1};
      }
    }
  }

  // ----- Steps of the writer -----

  /** A step of the writer that sends nothing to the endpoint and ends nothing. */
  ghost predicate WriterStep(s: State, t: State) {
    && t == s.(pc := t.pc, written := t.written, heap := t.heap, table := t.table, initialized := t.initialized,
               inProgress := t.inProgress)
    && !Ended(s.pc) && !s.pc.Completing? && !t.pc.Finished? && !t.pc.Completing?
    && (s.initialized ==> t.initialized)
  }

  lemma WriterKeeps(c: Config, s: State, t: State)
    requires Inv(c, s) && WriterStep(s, t)
    requires Holds(c, t.heap, t.written) && |t.written| + Pending(t.pc) <= Capacity(c)
    requires TableOk(|t.heap|, t.table, t.pc, t.ups) && PcOk(c, t.pc, t.heap, t.table, t.initialized)
    requires CountsOk(c, t.pc, t.ups, t.inProgress, t.partsUploaded, t.singlePut)
    requires UploadsOk(t.heap, t.ups, t.etags, t.parts, t.errors)
    requires SleepOk(c, t.pc, t.inProgress, t.ups)
    ensures Inv(c, t)
  {
  }

  // The buffers a write round works on: the last one is not full.
  function Grown(c: Config, heap: seq<Buffer>, full: bool, memory: Bytes): seq<Buffer> {
    if full then heap + [Buffer(|heap|, Start(c, |heap|), 0, memory, false)] else heap
  }

  ghost predicate GrownOk(c: Config, heap: seq<Buffer>, full: bool, memory: Bytes) {
    var grown := Grown(c, heap, full, memory);
    grown != [] && grown[|grown| - 1].idx < c.partSize == |grown[|grown| - 1].mem|
  }

  function FilledBy(c: Config, b: Buffer, pending: Bytes): Buffer
    requires b.idx <= c.partSize == |b.mem|
  {
    var n := Min(|pending|, c.partSize - b.idx);
    b.(mem := b.mem[..b.idx] + pending[..n] + b.mem[b.idx + n..], idx := b.idx + n)
  }

  lemma GrownLast(c: Config, heap: seq<Buffer>, full: bool, memory: Bytes, written: Bytes)
    requires Holds(c, heap, written) && |memory| == c.partSize && c.partSize > 0
    requires !full ==> heap != [] && heap[|heap| - 1].idx < c.partSize
    ensures GrownOk(c, heap, full, memory)
    ensures
      var grown := Grown(c, heap, full, memory);
      var last := |grown| - 1;
      grown[last].partNo == last && grown[last].start == Start(c, last) && Joined(grown) == written
  {
    if full {
      JoinedAppend(heap, Buffer(|heap|, Start(c, |heap|), 0, memory, false));
    } else {
      assert BufferOk(c, heap, |heap| - 1);
    }
  }

  lemma FilledContent(c: Config, b: Buffer, pending: Bytes)
    requires b.idx <= c.partSize == |b.mem|
    ensures Content(FilledBy(c, b, pending)) == Content(b) + pending[..Min(|pending|, c.partSize - b.idx)]
  {
    assert FilledBy(c, b, pending).Filled() == b.Filled() + pending[..Min(|pending|, c.partSize - b.idx)];
  }

  // Replacing the last buffer of a row of full ones.
  lemma FillNumbers(c: Config, heap: seq<Buffer>, full: bool, memory: Bytes, written: Bytes, filled: Buffer)
    requires Holds(c, heap, written)
    requires if full then LastFull(c, heap) else heap != []
    requires filled.partNo == |Grown(c, heap, full, memory)| - 1
    requires |filled.mem| == c.partSize && 0 < filled.idx <= c.partSize
    ensures
      var grown := Grown(c, heap, full, memory);
      var t := grown[|grown| - 1 := filled];
      forall i | 0 <= i < |t| :: BufferOk(c, t, i)
  {
    var grown := Grown(c, heap, full, memory);
    var t := grown[|grown| - 1 := filled];
    forall i | 0 <= i < |t| ensures BufferOk(c, t, i) {
      if i < |heap| {
        assert BufferOk(c, heap, i);
      }
    }
  }

  // What of `pending` still fits into the last buffer.
  function Fitting(c: Config, grown: seq<Buffer>, pending: Bytes): Bytes
    requires grown != [] && grown[|grown| - 1].idx <= c.partSize
  {
    pending[..Min(|pending|, c.partSize - grown[|grown| - 1].idx)]
  }

  predicate FilledInto(c: Config, grown: seq<Buffer>, pending: Bytes, after: seq<Buffer>)
    requires grown != [] && grown[|grown| - 1].idx <= c.partSize == |grown[|grown| - 1].mem|
  {
    after == grown[|grown| - 1 := FilledBy(c, grown[|grown| - 1], pending)]
  }

  /** Filling the last buffer appends to the bytes the buffers hold together. */
  lemma FillHolds(c: Config, heap: seq<Buffer>, full: bool, memory: Bytes, written: Bytes, pending: Bytes,
      after: seq<Buffer>, writtenAfter: Bytes)
    requires Holds(c, heap, written) && |memory| == c.partSize && c.partSize > 0 && pending != []
    requires if full then LastFull(c, heap) else heap != [] && heap[|heap| - 1].idx < c.partSize
    requires GrownOk(c, heap, full, memory) && FilledInto(c, Grown(c, heap, full, memory), pending, after)
    requires writtenAfter == written + Fitting(c, Grown(c, heap, full, memory), pending)
    ensures Holds(c, after, writtenAfter)
  {
    GrownLast(c, heap, full, memory, written);
    var grown := Grown(c, heap, full, memory);
    FillNumbers(c, heap, full, memory, written, FilledBy(c, grown[|grown| - 1], pending));
    FillJoins(c, grown, pending, after);
  }

  lemma FillJoins(c: Config, grown: seq<Buffer>, pending: Bytes, after: seq<Buffer>)
    requires grown != [] && grown[|grown| - 1].idx <= c.partSize == |grown[|grown| - 1].mem|
    requires FilledInto(c, grown, pending, after)
    ensures Joined(after) == Joined(grown) + Fitting(c, grown, pending)
  {
    var front, last := grown[..|grown| - 1], grown[|grown| - 1];
    JoinedReplaceLast(grown, FilledBy(c, last, pending));
    FilledContent(c, last, pending);
    AppendTwice(Joined(front), Content(last), Fitting(c, grown, pending));
  }

  lemma AppendTwice(a: Bytes, b: Bytes, c: Bytes)
    ensures a + (b + c) == (a + b) + c
  {
  }

  // The state after a write round, in the terms of the invariant.
  function Filled(c: Config, s: State, memory: Bytes): State
    requires s.pc.Filling? && GrownOk(c, s.heap, s.table == map[], memory)
  {
    var heap := Grown(c, s.heap, s.table == map[], memory);
    var last := |heap| - 1;
    var n := Min(|s.pc.pending|, c.partSize - heap[last].idx);
    var filled := FilledBy(c, heap[last], s.pc.pending);
    s.(heap := heap[last := filled], table := map[last := last], written := s.written + s.pc.pending[..n],
       pc := if filled.idx >= c.partSize then Flushing(last, InWrite(s.pc.pending[n..]))
         else Filling(s.pc.pending[n..]))
  }

  lemma FillExplicit(c: Config, s: State, memory: Bytes)
    requires c.partSize > 0 && Holds(c, s.heap, s.written) && |s.written| < Capacity(c)
    requires s.table == map[] || (s.heap != [] && s.table == map[|s.heap| - 1 := |s.heap| - 1])
    requires s.table == map[] <==> LastFull(c, s.heap)
    requires s.pc.Filling? && s.pc.pending != [] && |memory| == c.partSize
    ensures GrownOk(c, s.heap, s.table == map[], memory)
    ensures Fill(c, s, s.pc.pending, memory) == Filled(c, s, memory)
  {
    FillTarget(c, s.heap, s.written, s.table == map[]);
    GrownLast(c, s.heap, s.table == map[], memory, s.written);
    StartIs(c, |s.heap|);
    if s.table == map[] {
      FillAt(c, s, memory, |s.heap|, map[|s.heap| := |s.heap|]);
    } else {
      assert |s.heap| - 1 in s.table && s.table[|s.heap| - 1 := |s.heap| - 1] == s.table;
      FillAt(c, s, memory, |s.heap| - 1, s.table);
    }
  }

  lemma FillAt(c: Config, s: State, memory: Bytes, last: nat, table: map<nat, nat>)
    requires s.pc.Filling? && s.pc.pending != [] && |memory| == c.partSize && c.partSize > 0
    requires GrownOk(c, s.heap, s.table == map[], memory) && last == |Grown(c, s.heap, s.table == map[], memory)| - 1
    requires (|s.written| / c.partSize) % U16 == last && table == map[last := last]
    requires s.table == map[] ==> Start(c, last) == last * c.partSize
    requires s.table == map[] || s.table == table
    requires
      var b := Grown(c, s.heap, s.table == map[], memory)[last];
      |s.written| == b.start + b.idx
    ensures Fill(c, s, s.pc.pending, memory) == Filled(c, s, memory)
  {
    assert last in table && s.table[last := last] == table;
  }

  lemma FilledIs(c: Config, s: State, memory: Bytes)
    requires s.pc.Filling? && GrownOk(c, s.heap, s.table == map[], memory)
    ensures var grown := Grown(c, s.heap, s.table == map[], memory);
      && FilledInto(c, grown, s.pc.pending, Filled(c, s, memory).heap)
      && Filled(c, s, memory).written == s.written + Fitting(c, grown, s.pc.pending)
  {
  }

  lemma FilledSteps(c: Config, s: State, memory: Bytes)
    requires s.pc.Filling? && GrownOk(c, s.heap, s.table == map[], memory)
    ensures
      var t := Filled(c, s, memory);
      && |t.written| + Pending(t.pc) == |s.written| + Pending(s.pc)
      && WriterStep(s, t)
      && !t.pc.AwaitSlot? && !t.pc.AwaitDrain? && !t.pc.Opening? && !t.pc.Spawning? && !t.pc.Drained?
      && t.ups == s.ups && t.inProgress == s.inProgress
      && t.partsUploaded == s.partsUploaded && t.singlePut == s.singlePut
      && t.etags == s.etags && t.parts == s.parts && t.errors == s.errors
  {
  }

  lemma FillKeeps(c: Config, s: State, memory: Bytes)
    requires Inv(c, s) && s.pc.Filling? && s.pc.pending != [] && |memory| == c.partSize
    ensures Inv(c, Fill(c, s, s.pc.pending, memory))
  {
    FillExplicit(c, s, memory);
    FilledKeeps(c, s, memory);
  }

  lemma FilledKeeps(c: Config, s: State, memory: Bytes)
    requires Inv(c, s) && s.pc.Filling? && s.pc.pending != [] && |memory| == c.partSize
    requires GrownOk(c, s.heap, s.table == map[], memory)
    ensures Inv(c, Filled(c, s, memory))
  {
    var t := Filled(c, s, memory);
    FilledIs(c, s, memory);
    FillHolds(c, s.heap, s.table == map[], memory, s.written, s.pc.pending, t.heap, t.written);
    FilledSteps(c, s, memory);
    FillKeepsTable(c, s, memory);
    FillKeepsUploads(c, s, memory);
    WriterKeeps(c, s, t);
  }

  lemma FillKeepsTable(c: Config, s: State, memory: Bytes)
    requires TableOk(|s.heap|, s.table, s.pc, s.ups) && PcOk(c, s.pc, s.heap, s.table, s.initialized)
    requires s.pc.Filling? && s.pc.pending != []
    requires GrownOk(c, s.heap, s.table == map[], memory)
    ensures
      var t := Filled(c, s, memory);
      TableOk(|t.heap|, t.table, t.pc, t.ups) && PcOk(c, t.pc, t.heap, t.table, t.initialized)
  {
    var t := Filled(c, s, memory);
    assert |t.heap| - 1 in t.table;
    assert s.table != map[] ==> |s.heap| - 1 in s.table;
  }

  lemma FillKeepsUploads(c: Config, s: State, memory: Bytes)
    requires TableOk(|s.heap|, s.table, s.pc, s.ups) && UploadsOk(s.heap, s.ups, s.etags, s.parts, s.errors)
    requires s.pc.Filling? && GrownOk(c, s.heap, s.table == map[], memory)
    ensures UploadsOk(Filled(c, s, memory).heap, s.ups, s.etags, s.parts, s.errors)
  {
    var t := Filled(c, s, memory);
    forall i | i in s.ups && i < |t.heap|
      ensures UploadOk(Content(t.heap[i]), s.ups[i], i, s.etags, s.parts, s.errors)
    {
      assert UploadOk(Content(s.heap[i]), s.ups[i], i, s.etags, s.parts, s.errors) && t.heap[i] == s.heap[i];
    }
  }

  lemma CallWriteKeeps(c: Config, s: State, bytes: Bytes, location: nat)
    requires Inv(c, s) && s.pc.Idle? && |s.written| + |bytes| <= Capacity(c)
    ensures Inv(c, s.(pc := if bytes != [] && location != |s.written| then Thrown else Filling(bytes)))
  {
  }

  lemma ReturnWriteKeeps(c: Config, s: State)
    requires Inv(c, s) && s.pc == Filling([])
    ensures Inv(c, s.(pc := Idle))
  {
  }

  // Claiming a buffer changes neither its content nor its place.
  lemma ClaimHolds(c: Config, heap: seq<Buffer>, written: Bytes)
    requires Holds(c, heap, written) && heap != []
    ensures
      var b := |heap| - 1;
      Holds(c, heap[b := heap[b].(uploading := true)], written) && 0 < heap[b].idx <= |heap[b].mem|
  {
    var b := |heap| - 1;
    var t := heap[b := heap[b].(uploading := true)];
    forall i | 0 <= i < |t| ensures BufferOk(c, t, i) {
      assert BufferOk(c, heap, i);
    }
    assert BufferOk(c, heap, b);
    JoinedReplaceLast(heap, t[b]);
  }

  lemma ClaimKeeps(c: Config, s: State)
    requires Inv(c, s) && s.pc.Flushing?
    ensures s.pc.b < |s.heap| && Inv(c, ClaimStep(s))
  {
    ClaimHolds(c, s.heap, s.written);
    var t := ClaimStep(s);
    forall i | i in s.ups && i < |t.heap|
      ensures UploadOk(Content(t.heap[i]), s.ups[i], i, s.etags, s.parts, s.errors)
    {
      assert UploadOk(Content(s.heap[i]), s.ups[i], i, s.etags, s.parts, s.errors);
    }
  }

  lemma CheckKeeps(c: Config, s: State)
    requires Inv(c, s) && s.pc.Claimed?
    ensures s.pc.b < |s.heap| && Inv(c, CheckStep(s))
  {
    assert BufferOk(c, s.heap, |s.heap| - 1);
    assert s.table - {s.heap[s.pc.b].partNo} == map[];
  }

  lemma ReserveKeeps(c: Config, s: State)
    requires Inv(c, s) && s.pc.Reserving?
    ensures Inv(c, ReserveStep(c, s))
  {
    AtMost65535Parts(c, s.heap, s.written);
    Bounded(LiveSet(s.ups), |s.heap| - 1);
    if s.inProgress >= c.maxThreads {
      ReserveSleeps(c, s);
    } else {
      ReserveTakes(c, s);
    }
    WriterKeeps(c, s, ReserveStep(c, s));
  }

  lemma ReserveSleeps(c: Config, s: State)
    requires s.pc.Reserving? && s.inProgress >= c.maxThreads
    requires TableOk(|s.heap|, s.table, s.pc, s.ups) && PcOk(c, s.pc, s.heap, s.table, s.initialized)
    requires CountsOk(c, s.pc, s.ups, s.inProgress, s.partsUploaded, s.singlePut)
    ensures
      var t := ReserveStep(c, s);
      && WriterStep(s, t) && t == s.(pc := t.pc) && Pending(t.pc) == Pending(s.pc)
      && TableOk(|s.heap|, s.table, t.pc, s.ups) && PcOk(c, t.pc, s.heap, s.table, s.initialized)
      && CountsOk(c, t.pc, s.ups, t.inProgress, s.partsUploaded, s.singlePut)
      && SleepOk(c, t.pc, t.inProgress, s.ups)
  {
  }

  lemma ReserveTakes(c: Config, s: State)
    requires s.pc.Reserving? && s.inProgress < c.maxThreads && s.inProgress + 1 < U16
    requires TableOk(|s.heap|, s.table, s.pc, s.ups) && PcOk(c, s.pc, s.heap, s.table, s.initialized)
    requires CountsOk(c, s.pc, s.ups, s.inProgress, s.partsUploaded, s.singlePut)
    ensures
      var t := ReserveStep(c, s);
      && WriterStep(s, t) && t == s.(pc := t.pc, inProgress := t.inProgress) && Pending(t.pc) == Pending(s.pc)
      && TableOk(|s.heap|, s.table, t.pc, s.ups) && PcOk(c, t.pc, s.heap, s.table, s.initialized)
      && CountsOk(c, t.pc, s.ups, t.inProgress, s.partsUploaded, s.singlePut)
      && SleepOk(c, t.pc, t.inProgress, s.ups)
  {
  }

  lemma OpenKeeps(c: Config, s: State, ok: bool)
    requires Inv(c, s) && s.pc.Opening?
    ensures Inv(c, OpenStep(s, ok))
  {
  }

  lemma SpawnKeeps(c: Config, s: State)
    requires Inv(c, s) && s.pc.Spawning?
    ensures Inv(c, SpawnStep(s))
  {
    var b, t := s.pc.b, SpawnStep(s);
    assert t == s.(ups := s.ups[b := Putting], pc := t.pc) && Pending(t.pc) == Pending(s.pc) && b !in s.ups;
    LiveAfter(s.ups, b, Putting);
    CountedAfter(s.ups, b, Putting);
    SpawnUploads(s.heap, s.ups, s.etags, s.parts, s.errors, b);
    SpawnTable(c, s);
    SpawnPuts(s.ups, s.puts, s.singlePut, b);
  }

  lemma SpawnUploads(heap: seq<Buffer>, ups: map<nat, UploadPc>, etags: map<nat, ETag>, parts: map<nat, Bytes>,
      errors: bool, b: nat)
    requires UploadsOk(heap, ups, etags, parts, errors) && b !in ups && etags.Keys <= ups.Keys
    ensures UploadsOk(heap, ups[b := Putting], etags, parts, errors)
  {
    UploadsFrame(heap, ups, etags, parts, errors, b, Putting, etags, parts, errors);
  }

  lemma SpawnTable(c: Config, s: State)
    requires s.pc.Spawning? && TableOk(|s.heap|, s.table, s.pc, s.ups)
    requires PcOk(c, s.pc, s.heap, s.table, s.initialized)
    ensures var t := SpawnStep(s);
      TableOk(|s.heap|, s.table, t.pc, t.ups) && PcOk(c, t.pc, s.heap, s.table, s.initialized)
  {
  }

  lemma SpawnPuts(ups: map<nat, UploadPc>, puts: multiset<nat>, singlePut: bool, b: nat)
    requires PutsOk(ups, puts, singlePut) && b !in ups && !singlePut
    ensures PutsOk(ups[b := Putting], puts, singlePut)
  {
  }

  // Threads other than i keep what is known of their parts.
  lemma UploadsFrame(heap: seq<Buffer>, ups: map<nat, UploadPc>, etags: map<nat, ETag>, parts: map<nat, Bytes>,
      errors: bool, i: nat, u: UploadPc, etagsAfter: map<nat, ETag>, partsAfter: map<nat, Bytes>, errorsAfter: bool)
    requires UploadsOk(heap, ups, etags, parts, errors)
    requires etagsAfter == etags || (i in etagsAfter && etagsAfter == etags[i := etagsAfter[i]])
    requires partsAfter == parts || (i + 1 in partsAfter && partsAfter == parts[i + 1 := partsAfter[i + 1]])
    requires errors ==> errorsAfter
    requires i < |heap| ==> UploadOk(Content(heap[i]), u, i, etagsAfter, partsAfter, errorsAfter)
    ensures UploadsOk(heap, ups[i := u], etagsAfter, partsAfter, errorsAfter)
  {
    forall j | j in ups[i := u] && j < |heap|
      ensures UploadOk(Content(heap[j]), ups[i := u][j], j, etagsAfter, partsAfter, errorsAfter)
    {
      if j != i {
        assert UploadOk(Content(heap[j]), ups[j], j, etags, parts, errors);
      }
    }
  }

  lemma CollectKeeps(c: Config, s: State, order: seq<nat>)
    requires Inv(c, s) && s.pc.Collecting? && |order| == |s.table| && forall p | p in s.table :: s.table[p] in order
    ensures Inv(c, s.(pc := Deciding(order)))
  {
    if s.table != map[] {
      assert s.table[|s.heap| - 1] in order;
    }
  }

  lemma DecideKeeps(c: Config, s: State)
    requires Inv(c, s) && s.pc.Deciding?
    ensures Inv(c, DecideStep(c, s))
  {
    var t := DecideStep(c, s);
    DecidePc(c, s);
    assert TableOk(|s.heap|, s.table, t.pc, s.ups);
    WriterKeeps(c, s, t);
  }

  lemma DecidePc(c: Config, s: State)
    requires s.pc.Deciding? && PcOk(c, s.pc, s.heap, s.table, s.initialized)
    ensures var t := DecideStep(c, s);
      && t == s.(pc := t.pc) && (t.pc.FlushAll? || t.pc.SinglePutting? || t.pc.OpeningAll?)
      && PcOk(c, t.pc, s.heap, s.table, s.initialized)
  {
    var pc := if s.initialized then FlushAll(s.pc.list)
              else if |s.pc.list| == 1 && !c.kms then SinglePutting(s.pc.list[0]) else OpeningAll(s.pc.list);
    assert DecideStep(c, s) == s.(pc := pc);
  }

  lemma OpenAllKeeps(c: Config, s: State, ok: bool)
    requires Inv(c, s) && s.pc.OpeningAll?
    ensures Inv(c, OpenAllStep(s, ok))
  {
  }

  lemma SinglePutKeeps(c: Config, s: State, result: PutResult)
    requires Inv(c, s) && s.pc.SinglePutting?
    ensures s.pc.b < |s.heap| && s.heap[s.pc.b].idx <= |s.heap[s.pc.b].mem| && Inv(c, SinglePutStep(s, result))
  {
    assert BufferOk(c, s.heap, s.pc.b);
    OnlyBuffer(c, s);
    var t := SinglePutStep(s, result);
    SinglePutCommits(c, s, result);
    SinglePutPuts(s.ups, s.puts, s.singlePut);
    assert CountedSet(s.ups) == {} && s.puts + multiset{0} == t.puts;
    assert t == s.(puts := t.puts, singlePut := true, blob := t.blob, etags := t.etags,
                   partsUploaded := t.partsUploaded, finalized := t.finalized, pc := t.pc);
  }

  lemma OnlyBuffer(c: Config, s: State)
    requires Inv(c, s) && s.pc.SinglePutting?
    ensures s.pc.b == 0 && |s.heap| == 1 && s.ups == map[] && s.written == Content(s.heap[0]) != []
  {
    assert BufferOk(c, s.heap, 0);
    assert 0 !in s.ups;
    assert s.heap[..0] == [];
    assert Joined(s.heap) == Content(s.heap[0]);
  }

  lemma SinglePutCommits(c: Config, s: State, result: PutResult)
    requires s.pc.SinglePutting? && s.pc.b == 0 && |s.heap| == 1 && s.heap[0].idx <= |s.heap[0].mem|
    requires s.written == Content(s.heap[0]) != []
    requires CommitOk(s.written, s.blob, s.singlePut, s.completes, s.pc, s.initialized, s.finalized)
    ensures var t := SinglePutStep(s, result);
      Ended(t.pc) && CommitOk(s.written, t.blob, true, s.completes, t.pc, s.initialized, t.finalized)
  {
  }

  lemma SinglePutPuts(ups: map<nat, UploadPc>, puts: multiset<nat>, singlePut: bool)
    requires PutsOk(ups, puts, singlePut) && ups == map[] && !singlePut
    ensures PutsOk(ups, puts + multiset{0}, true)
  {
  }

  lemma FlushNextKeeps(c: Config, s: State)
    requires Inv(c, s) && s.pc.FlushAll?
    ensures (s.pc.list != [] ==> s.pc.list[0] < |s.heap|) && Inv(c, FlushNextStep(s))
  {
    FlushNextSteps(c, s);
    WriterKeeps(c, s, FlushNextStep(s));
  }

  lemma FlushNextSteps(c: Config, s: State)
    requires s.pc.FlushAll? && TableOk(|s.heap|, s.table, s.pc, s.ups)
    requires PcOk(c, s.pc, s.heap, s.table, s.initialized)
    ensures s.pc.list != [] ==> s.pc.list[0] < |s.heap|
    ensures
      var t := FlushNextStep(s);
      && WriterStep(s, t) && t == s.(pc := t.pc) && (t.pc.Flushing? || t.pc.DrainCheck?) && Pending(t.pc) == 0
      && TableOk(|s.heap|, s.table, t.pc, s.ups) && PcOk(c, t.pc, s.heap, s.table, s.initialized)
  {
    if s.table == map[] {
      assert s.pc.list == [];
    } else {
      assert s.pc.list == [|s.heap| - 1] && s.pc.list[1..] == [];
    }
  }

  lemma CheckDrainKeeps(c: Config, s: State)
    requires Inv(c, s) && s.pc.DrainCheck?
    ensures Inv(c, s.(pc := if s.inProgress == 0 then Drained else AwaitDrain))
  {
  }

  lemma {:induction false} Initial(s: set<nat>, n: nat)
    requires forall i: nat :: i in s <==> i < n
    ensures |s| == n
  {
    if n == 0 {
      assert s == {};
    } else {
      Initial(s - {n - 1}, n - 1);
    }
  }

  // With no upload in progress and no error, every thread has counted its part.
  lemma DrainedIsStored(c: Config, s: State)
    requires Inv(c, s) && s.pc.Drained? && !s.errors && s.heap != []
    ensures AllStored(|s.heap|, s.ups, s.errors) && s.partsUploaded == |s.heap|
    ensures forall i | 0 <= i < |s.heap| :: i in s.etags && s.etags[i] == ETag(Content(s.heap[i]))
  {
    assert LiveSet(s.ups) == {};
    forall i | 0 <= i < |s.heap|
      ensures i in s.ups && IsCounted(s.ups[i]) && i in s.etags && s.etags[i] == ETag(Content(s.heap[i]))
    {
      assert i in s.ups && i !in LiveSet(s.ups);
      assert UploadOk(Content(s.heap[i]), s.ups[i], i, s.etags, s.parts, s.errors);
    }
    assert forall i: nat :: i in CountedSet(s.ups) <==> i < |s.heap|;
    Initial(CountedSet(s.ups), |s.heap|);
  }

  // Without an error, a drained non-empty upload goes on to the completion with every tag.
  lemma RethrowCompletes(s: State)
    requires s.pc.Drained? && !s.errors && !s.finalized && s.heap != [] && s.partsUploaded == |s.heap|
    requires forall i | 0 <= i < |s.heap| :: i in s.etags && s.etags[i] == ETag(Content(s.heap[i]))
    ensures
      var t := RethrowStep(s);
      t.pc.Completing? && TagsOk(s.heap, t.pc) && t == s.(finalized := true, pc := t.pc)
  {
    assert !UnknownPart(s.etags, s.partsUploaded);
    var tags := TagList(s.etags, s.partsUploaded);
    assert RethrowStep(s) == s.(finalized := true, pc := Completing(tags));
    forall i | 0 <= i < |s.heap| ensures TagAt(s.heap, tags, i) {
      assert tags[i] == s.etags[i];
    }
  }

  lemma RethrowKeeps(c: Config, s: State)
    requires Inv(c, s) && s.pc.Drained?
    ensures Inv(c, RethrowStep(s))
  {
    if s.errors {
      WriterKeeps(c, s, s.(pc := Thrown));
    } else if s.heap == [] {
      assert CountedSet(s.ups) == {};
      EmptyFinishes(c, s);
    } else {
      DrainedIsStored(c, s);
      RethrowCompletes(s);
      CompletingKeeps(c, s, RethrowStep(s).pc);
    }
  }

  lemma EmptyFinishes(c: Config, s: State)
    requires Inv(c, s) && s.pc.Drained? && s.heap == []
    ensures Inv(c, s.(pc := Finished))
  {
    NothingWritten(c, s.heap, s.written);
  }

  lemma CompletingKeeps(c: Config, s: State, pc: WriterPc)
    requires Inv(c, s) && s.pc.Drained? && s.heap != [] && pc.Completing?
    requires TagsOk(s.heap, pc) && AllStored(|s.heap|, s.ups, s.errors)
    ensures Inv(c, s.(finalized := true, pc := pc))
  {
    var t := s.(finalized := true, pc := pc);
    assert TableOk(|s.heap|, s.table, pc, s.ups);
    assert CommitOk(s.written, s.blob, s.singlePut, s.completes, pc, s.initialized, true);
    assert t.heap == s.heap && t.written == s.written;
  }

  ghost predicate Stored(parts: map<nat, Bytes>, heap: seq<Buffer>, i: nat)
    requires i < |heap|
  {
    i + 1 in parts && parts[i + 1] == Content(heap[i])
  }

  lemma {:induction false} AssembleParts(c: Config, heap: seq<Buffer>, parts: map<nat, Bytes>)
    requires forall i | 0 <= i < |heap| :: Stored(parts, heap, i)
    ensures Assemble(parts, |heap|) == Joined(heap)
  {
    if heap != [] {
      var front := heap[..|heap| - 1];
      forall i | 0 <= i < |front| ensures Stored(parts, front, i) {
        assert Stored(parts, heap, i);
      }
      AssembleParts(c, front, parts);
      assert Stored(parts, heap, |heap| - 1);
    }
  }

  lemma AllPartsStored(heap: seq<Buffer>, ups: map<nat, UploadPc>, etags: map<nat, ETag>, parts: map<nat, Bytes>,
      errors: bool)
    requires UploadsOk(heap, ups, etags, parts, errors) && AllStored(|heap|, ups, errors)
    ensures forall i | 0 <= i < |heap| :: Stored(parts, heap, i)
  {
    forall i | 0 <= i < |heap| ensures Stored(parts, heap, i) {
      assert i in ups && UploadOk(Content(heap[i]), ups[i], i, etags, parts, errors);
    }
  }

  lemma TagsAcceptable(heap: seq<Buffer>, parts: map<nat, Bytes>, pc: WriterPc)
    requires pc.Completing? && TagsOk(heap, pc)
    requires forall i | 0 <= i < |heap| :: Stored(parts, heap, i)
    ensures Acceptable(parts, pc.tags)
  {
    forall i | 0 <= i < |pc.tags| ensures Tags(parts, i, pc.tags[i]) {
      assert Stored(parts, heap, i) && TagAt(heap, pc.tags, i);
    }
  }

  /** The endpoint finds every listed part under its number and tag. */
  lemma CompletionAcceptable(c: Config, s: State)
    requires Inv(c, s) && s.pc.Completing?
    ensures Acceptable(s.parts, s.pc.tags) && Assemble(s.parts, |s.pc.tags|) == s.written
    ensures |s.pc.tags| == |s.heap| > 0
  {
    AllPartsStored(s.heap, s.ups, s.etags, s.parts, s.errors);
    TagsAcceptable(s.heap, s.parts, s.pc);
    AssembleParts(c, s.heap, s.parts);
  }

  lemma CompleteCommits(s: State, r: CompleteResult)
    requires s.pc.Completing? && s.written != [] && Assemble(s.parts, |s.pc.tags|) == s.written
    requires CommitOk(s.written, s.blob, s.singlePut, s.completes, s.pc, s.initialized, s.finalized)
    ensures var t := CompleteStep(s, r);
      && t == s.(completes := t.completes, blob := t.blob, pc := t.pc)
      && (t.pc == s.pc || (Ended(t.pc) && !t.pc.Completing?))
      && CommitOk(s.written, t.blob, s.singlePut, t.completes, t.pc, s.initialized, s.finalized)
  {
  }

  // The completion changes no more than what was committed, and ends or stays.
  lemma EndKeeps(c: Config, s: State, t: State)
    requires Inv(c, s) && s.pc.Completing?
    requires t == s.(completes := t.completes, blob := t.blob, pc := t.pc)
    requires t.pc == s.pc || (Ended(t.pc) && !t.pc.Completing?)
    requires CommitOk(s.written, t.blob, s.singlePut, t.completes, t.pc, s.initialized, s.finalized)
    ensures Inv(c, t)
  {
  }

  lemma CompleteKeeps(c: Config, s: State, r: CompleteResult)
    requires Inv(c, s) && s.pc.Completing?
    ensures Inv(c, CompleteStep(s, r))
  {
    CompletionAcceptable(c, s);
    NothingWritten(c, s.heap, s.written);
    CompleteCommits(s, r);
    EndKeeps(c, s, CompleteStep(s, r));
  }

  // ----- Steps of an upload thread -----

  /** What the step of one thread has to preserve; the rest of the invariant does not see it. */
  ghost predicate ThreadStep(c: Config, s: State, t: State, i: nat) {
    && i in s.ups && i in t.ups
    && t == s.(ups := s.ups[i := t.ups[i]], inProgress := t.inProgress, etags := t.etags,
               partsUploaded := t.partsUploaded, errors := t.errors, crash := t.crash, parts := t.parts, puts := t.puts)
    && (t.errors == s.errors || IsFailed(s.ups[i]))
    && (IsCounted(s.ups[i]) ==> IsCounted(t.ups[i]))
    && t.crash != CounterUnderflow && t.crash != OutOfBounds
  }

  lemma TableAfter(n: nat, table: map<nat, nat>, pc: WriterPc, ups: map<nat, UploadPc>, i: nat, u: UploadPc)
    requires TableOk(n, table, pc, ups) && i in ups
    ensures TableOk(n, table, pc, ups[i := u])
  {
  }

  lemma AllStoredAfter(n: nat, ups: map<nat, UploadPc>, errors: bool, i: nat, u: UploadPc, errorsAfter: bool)
    requires AllStored(n, ups, errors) && i in ups && i < n
    requires (IsCounted(ups[i]) ==> IsCounted(u)) && (errorsAfter == errors || IsFailed(ups[i]))
    ensures AllStored(n, ups[i := u], errorsAfter)
  {
  }

  lemma ThreadKeeps(c: Config, s: State, t: State, i: nat)
    requires Inv(c, s) && ThreadStep(c, s, t, i)
    requires CountsOk(c, t.pc, t.ups, t.inProgress, t.partsUploaded, t.singlePut)
    requires UploadsOk(t.heap, t.ups, t.etags, t.parts, t.errors) && t.etags.Keys <= t.ups.Keys
    requires PutsOk(t.ups, t.puts, t.singlePut)
    requires SleepOk(c, t.pc, t.inProgress, t.ups)
    ensures Inv(c, t)
  {
    TableAfter(|s.heap|, s.table, s.pc, s.ups, i, t.ups[i]);
    if AllStored(|s.heap|, s.ups, s.errors) {
      AllStoredAfter(|s.heap|, s.ups, s.errors, i, t.ups[i], t.errors);
    }
  }

  // Facts about the part of a running thread.
  lemma ThreadFacts(c: Config, s: State, i: nat)
    requires Inv(c, s) && i in s.ups
    ensures i < |s.heap| && BufferOk(c, s.heap, i) && !s.singlePut
    ensures UploadOk(Content(s.heap[i]), s.ups[i], i, s.etags, s.parts, s.errors)
    ensures s.etags.Keys <= s.ups.Keys && |s.heap| <= 65535
  {
    AtMost65535Parts(c, s.heap, s.written);
  }

  lemma CountsAfter(c: Config, pc: WriterPc, ups: map<nat, UploadPc>, inProgress: nat, partsUploaded: nat,
      singlePut: bool, i: nat, u: UploadPc)
    requires CountsOk(c, pc, ups, inProgress, partsUploaded, singlePut) && i in ups && !singlePut
    requires (IsLive(u) ==> IsLive(ups[i])) && (IsCounted(ups[i]) ==> IsCounted(u))
    ensures IsLive(ups[i]) ==> inProgress > 0
    ensures
      var left := if IsLive(ups[i]) && !IsLive(u) then 1 else 0;
      var more := if IsCounted(u) && !IsCounted(ups[i]) then 1 else 0;
      inProgress >= left && CountsOk(c, pc, ups[i := u], inProgress - left, partsUploaded + more, singlePut)
  {
    LiveAfter(ups, i, u);
    CountedAfter(ups, i, u);
    if IsLive(ups[i]) {
      assert i in LiveSet(ups);
    }
  }

  // A thread that has not yet decremented the counter is not the one to wake the writer.
  lemma SleepAfter(c: Config, pc: WriterPc, inProgress: nat, ups: map<nat, UploadPc>, i: nat, u: UploadPc)
    requires SleepOk(c, pc, inProgress, ups) && i in ups && IsLive(ups[i])
    ensures SleepOk(c, pc, inProgress, ups[i := u])
  {
    if SlotWakerPending(ups) {
      var j :| j in ups && ups[j].Decremented?;
      assert ups[i := u][j].Decremented?;
    }
    if DrainWakerPending(ups) {
      var j :| j in ups && (ups[j].Decremented? || ups[j].SlotNotified?);
      assert ups[i := u][j].Decremented? || ups[i := u][j].SlotNotified?;
    }
  }

  lemma PutsAfter(ups: map<nat, UploadPc>, puts: multiset<nat>, singlePut: bool, i: nat, u: UploadPc)
    requires PutsOk(ups, puts, singlePut) && i in ups && ups[i] == Putting && u != Putting && !singlePut
    ensures PutsOk(ups[i := u], puts + multiset{i}, singlePut)
  {
  }

  lemma PutsSame(ups: map<nat, UploadPc>, puts: multiset<nat>, singlePut: bool, i: nat, u: UploadPc)
    requires PutsOk(ups, puts, singlePut) && i in ups && ups[i] != Putting && u != Putting
    ensures PutsOk(ups[i := u], puts, singlePut)
  {
  }

  lemma PutKeeps(c: Config, s: State, i: nat, result: PutResult)
    requires Inv(c, s) && s.crash.Alive? && i in s.ups && s.ups[i] == Putting
    ensures i < |s.heap| && s.heap[i].idx <= |s.heap[i].mem| && Inv(c, PutStep(s, i, result))
  {
    ThreadFacts(c, s, i);
    var t := PutStep(s, i, result);
    CountsAfter(c, s.pc, s.ups, s.inProgress, s.partsUploaded, s.singlePut, i, t.ups[i]);
    SleepAfter(c, s.pc, s.inProgress, s.ups, i, t.ups[i]);
    PutsAfter(s.ups, s.puts, s.singlePut, i, t.ups[i]);
    PutUploads(c, s, i, result);
    PutSteps(c, s, i, result);
    ThreadKeeps(c, s, t, i);
  }

  lemma PutUploads(c: Config, s: State, i: nat, result: PutResult)
    requires UploadsOk(s.heap, s.ups, s.etags, s.parts, s.errors)
    requires i in s.ups && s.ups[i] == Putting && i < |s.heap| && BufferOk(c, s.heap, i) && s.crash.Alive?
    requires UploadOk(Content(s.heap[i]), s.ups[i], i, s.etags, s.parts, s.errors)
    ensures
      var t := PutStep(s, i, result);
      UploadsOk(t.heap, t.ups, t.etags, t.parts, t.errors)
  {
    var t := PutStep(s, i, result);
    UploadsFrame(s.heap, s.ups, s.etags, s.parts, s.errors, i, t.ups[i], s.etags, t.parts, s.errors);
  }

  lemma PutSteps(c: Config, s: State, i: nat, result: PutResult)
    requires i in s.ups && s.ups[i] == Putting && i < |s.heap| && s.heap[i].idx <= |s.heap[i].mem| && s.crash.Alive?
    ensures ThreadStep(c, s, PutStep(s, i, result), i)
  {
  }

  lemma InsertKeeps(c: Config, s: State, i: nat)
    requires Inv(c, s) && i in s.ups && s.ups[i].Tagged?
    ensures i < |s.heap| && s.heap[i].partNo == i && i !in s.etags
    ensures Inv(c, s.(etags := s.etags[i := s.ups[i].etag], ups := s.ups[i := Inserted]))
  {
    ThreadFacts(c, s, i);
    var t := s.(etags := s.etags[i := s.ups[i].etag], ups := s.ups[i := Inserted]);
    CountsAfter(c, s.pc, s.ups, s.inProgress, s.partsUploaded, s.singlePut, i, Inserted);
    SleepAfter(c, s.pc, s.inProgress, s.ups, i, Inserted);
    PutsSame(s.ups, s.puts, s.singlePut, i, Inserted);
    UploadsFrame(s.heap, s.ups, s.etags, s.parts, s.errors, i, t.ups[i], t.etags, t.parts, t.errors);
    ThreadKeeps(c, s, t, i);
  }

  // A thread that goes on with its part stored and tagged, or with its error recorded.
  lemma SameTags(heap: seq<Buffer>, ups: map<nat, UploadPc>, etags: map<nat, ETag>, parts: map<nat, Bytes>,
      errors: bool, i: nat, u: UploadPc)
    requires UploadsOk(heap, ups, etags, parts, errors) && i in ups
    requires (ups[i] == Inserted && IsCounted(u)) ||
      (IsCounted(u) == IsCounted(ups[i]) && IsFailed(u) == IsFailed(ups[i]) && (IsCounted(u) || IsFailed(u)) &&
       !ups[i].Failed?)
    ensures UploadsOk(heap, ups[i := u], etags, parts, errors)
  {
    if i < |heap| {
      assert UploadOk(Content(heap[i]), ups[i], i, etags, parts, errors);
    }
    UploadsFrame(heap, ups, etags, parts, errors, i, u, etags, parts, errors);
  }

  lemma CountKeeps(c: Config, s: State, i: nat)
    requires Inv(c, s) && i in s.ups && s.ups[i] == Inserted
    ensures s.partsUploaded + 1 < U16
    ensures Inv(c, s.(partsUploaded := s.partsUploaded + 1, ups := s.ups[i := Leaving(true)]))
  {
    ThreadFacts(c, s, i);
    var t := s.(partsUploaded := s.partsUploaded + 1, ups := s.ups[i := Leaving(true)]);
    CountsAfter(c, s.pc, s.ups, s.inProgress, s.partsUploaded, s.singlePut, i, Leaving(true));
    Bounded(CountedSet(t.ups), |s.heap|);
    SleepAfter(c, s.pc, s.inProgress, s.ups, i, Leaving(true));
    PutsSame(s.ups, s.puts, s.singlePut, i, Leaving(true));
    SameTags(s.heap, s.ups, s.etags, s.parts, s.errors, i, Leaving(true));
    ThreadKeeps(c, s, t, i);
  }

  lemma PushKeeps(c: Config, s: State, i: nat)
    requires Inv(c, s) && i in s.ups && s.ups[i] == Failed
    ensures Inv(c, s.(errors := true, ups := s.ups[i := Leaving(false)]))
  {
    ThreadFacts(c, s, i);
    var t := s.(errors := true, ups := s.ups[i := Leaving(false)]);
    CountsAfter(c, s.pc, s.ups, s.inProgress, s.partsUploaded, s.singlePut, i, Leaving(false));
    SleepAfter(c, s.pc, s.inProgress, s.ups, i, Leaving(false));
    PutsSame(s.ups, s.puts, s.singlePut, i, Leaving(false));
    UploadsFrame(s.heap, s.ups, s.etags, s.parts, s.errors, i, t.ups[i], t.etags, t.parts, t.errors);
    ThreadKeeps(c, s, t, i);
  }

  lemma DecrementedUploads(c: Config, s: State, i: nat)
    requires Inv(c, s) && i in s.ups && s.ups[i].Leaving?
    ensures s.inProgress > 0
    ensures
      var t := s.(ups := s.ups[i := Decremented(s.ups[i].ok)], inProgress := s.inProgress - 1);
      && CountsOk(c, t.pc, t.ups, t.inProgress, t.partsUploaded, t.singlePut)
      && UploadsOk(t.heap, t.ups, t.etags, t.parts, t.errors) && t.etags.Keys <= s.ups.Keys
      && PutsOk(t.ups, t.puts, t.singlePut)
  {
    ThreadFacts(c, s, i);
    var u := Decremented(s.ups[i].ok);
    CountsAfter(c, s.pc, s.ups, s.inProgress, s.partsUploaded, s.singlePut, i, u);
    PutsSame(s.ups, s.puts, s.singlePut, i, u);
    SameTags(s.heap, s.ups, s.etags, s.parts, s.errors, i, u);
  }

  lemma DecrementKeeps(c: Config, s: State, i: nat)
    requires Inv(c, s) && i in s.ups && s.ups[i].Leaving?
    ensures s.inProgress > 0
    ensures Inv(c, s.(ups := s.ups[i := Decremented(s.ups[i].ok)], inProgress := s.inProgress - 1))
  {
    DecrementedUploads(c, s, i);
    var t := s.(ups := s.ups[i := Decremented(s.ups[i].ok)], inProgress := s.inProgress - 1);
    assert t.ups[i].Decremented?;
    ThreadKeeps(c, s, t, i);
  }

  // What a notifying thread does and leaves alone.
  predicate Notifies(before: UploadPc, after: UploadPc, pc: WriterPc) {
    || (before.Decremented? && after == SlotNotified(before.ok) && !pc.AwaitSlot?)
    || (before.SlotNotified? && after == Gone(before.ok) && !pc.AwaitDrain?)
  }

  lemma NotifiedUploads(c: Config, s: State, i: nat, u: UploadPc)
    requires Inv(c, s) && i in s.ups && Notifies(s.ups[i], u, s.pc)
    ensures UploadsOk(s.heap, s.ups[i := u], s.etags, s.parts, s.errors) && s.etags.Keys <= s.ups.Keys
    ensures CountsOk(c, s.pc, s.ups[i := u], s.inProgress, s.partsUploaded, s.singlePut)
    ensures PutsOk(s.ups[i := u], s.puts, s.singlePut)
  {
    ThreadFacts(c, s, i);
    CountsAfter(c, s.pc, s.ups, s.inProgress, s.partsUploaded, s.singlePut, i, u);
    PutsSame(s.ups, s.puts, s.singlePut, i, u);
    SameTags(s.heap, s.ups, s.etags, s.parts, s.errors, i, u);
  }

  // A notification first wakes the writer, if it sleeps there, and then counts as given.
  lemma NotifyKeeps(c: Config, s: State, i: nat, u: UploadPc)
    requires Inv(c, s) && i in s.ups && Notifies(s.ups[i], u, s.pc)
    ensures Inv(c, s.(ups := s.ups[i := u]))
  {
    NotifiedUploads(c, s, i, u);
    NotifiedSleep(c, s.pc, s.inProgress, s.ups, i, u);
    NotifySteps(c, s, i, u);
    ThreadKeeps(c, s, s.(ups := s.ups[i := u]), i);
  }

  lemma NotifySteps(c: Config, s: State, i: nat, u: UploadPc)
    requires i in s.ups && !IsFailed(u) == !IsFailed(s.ups[i]) && IsCounted(u) == IsCounted(s.ups[i])
    requires s.crash != CounterUnderflow && s.crash != OutOfBounds
    ensures ThreadStep(c, s, s.(ups := s.ups[i := u]), i)
  {
  }

  lemma NotifiedSleep(c: Config, pc: WriterPc, inProgress: nat, ups: map<nat, UploadPc>, i: nat, u: UploadPc)
    requires SleepOk(c, pc, inProgress, ups) && i in ups
    requires (u.SlotNotified? && ups[i].Decremented? && !pc.AwaitSlot?) ||
      (u.Gone? && ups[i].SlotNotified? && !pc.AwaitDrain?)
    ensures SleepOk(c, pc, inProgress, ups[i := u])
  {
    if pc.AwaitSlot? && SlotWakerPending(ups) {
      var j :| j in ups && ups[j].Decremented?;
      assert ups[i := u][j].Decremented?;
    }
    if pc.AwaitDrain? && DrainWakerPending(ups) {
      assert ups[i := u][i].SlotNotified?;
    }
  }

  lemma SlotWoken(c: Config, s: State)
    requires Inv(c, s) && s.pc.AwaitSlot?
    ensures Inv(c, s.(pc := Reserving(s.pc.b, s.pc.k)))
  {
    WriterKeeps(c, s, s.(pc := Reserving(s.pc.b, s.pc.k)));
  }

  lemma DrainWoken(c: Config, s: State)
    requires Inv(c, s) && s.pc.AwaitDrain?
    ensures Inv(c, s.(pc := DrainCheck))
  {
  }

  lemma WakeKeeps(c: Config, s: State, pc: WriterPc)
    requires Inv(c, s) && (pc == WakeSlot(s.pc) || pc == WakeDrain(s.pc))
    ensures Inv(c, s.(pc := pc))
  {
    if pc == s.pc {
      assert s.(pc := pc) == s;
    } else if s.pc.AwaitSlot? {
      SlotWoken(c, s);
    } else {
      DrainWoken(c, s);
    }
  }
}
