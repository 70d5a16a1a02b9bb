/** A fully downloaded file: the buffer that grows while the body arrives, and its seal. */
module FullDownload {
  import opened Prelude

  function Concat(chunks: seq<Bytes>): Bytes {
    if chunks == [] then [] else Concat(chunks[..|chunks| - 1]) + chunks[|chunks| - 1]
  }

  lemma ConcatSnoc(chunks: seq<Bytes>, k: nat)
    requires k < |chunks|
    ensures Concat(chunks[..k + 1]) == Concat(chunks[..k]) + chunks[k]
  {
    assert chunks[..k + 1][..k] == chunks[..k];
  }

  class CachedFile {
    var data: array<Byte>
    var capacity: nat
    var size: nat
    var initialized: bool
    ghost var copied: nat      // bytes moved by all GrowBuffer calls

    constructor ()
      ensures !initialized && capacity == 0 && copied == 0 && fresh(data) && data.Length == 0
    {
      data := new Byte[0];
      capacity, size, initialized, copied := 0, 0, false, 0;
    }

    /** `length` bytes of a body have arrived and are all there. The capacity stays below twice
        the length, and so does the number of bytes copied. */
    ghost predicate Holding(body: Bytes)
      reads this, data
    {
      && !initialized && data.Length == capacity
      && |body| <= capacity && data[..|body|] == body
      && (if body == [] then capacity == 0 && copied == 0 else capacity < 2 * |body| && copied < capacity)
    }

    /** The file can be read by everybody. */
    ghost predicate Sealed(body: Bytes)
      reads this, data
    {
      initialized && size == |body| && size <= data.Length && data[..size] == body
    }

    method AllocateBuffer(n: nat)
      requires !initialized
      modifies this`data, this`capacity
      ensures fresh(data) && data.Length == n == capacity
    {
      data := new Byte[n];
      capacity := n;
    }

    /** Copies a block into the buffer, which has to be large enough. */
    method Write(block: Bytes, offset: nat)
      requires !initialized && offset + |block| <= data.Length
      modifies data
      ensures data[..] == old(data[..offset]) + block + old(data[offset + |block|..])
    {
      for i := 0 to |block|
        invariant data[..] == old(data[..offset]) + block[..i] + old(data[offset + i..])
      {
        data[offset + i] := block[i];
      }
    }

    method GrowBuffer(n: nat, keep: nat)
      requires !initialized && keep <= data.Length && keep <= n
      modifies this`data, this`capacity, this`copied
      ensures fresh(data) && data.Length == n == capacity
      ensures data[..keep] == old(data[..keep]) && copied == old(copied) + keep
    {
      var previous := data[..keep];
      AllocateBuffer(n);
      Write(previous, 0);
      copied := copied + keep;
    }

    /** The content handler of a full download: one more block of the body. `length` is the
        handle's length; before the first non-empty block its value does not matter. */
    method Receive(ghost body: Bytes, block: Bytes, length: nat) returns (newLength: nat)
      requires Holding(body) && (body != [] ==> length == |body|)
      modifies this`data, this`capacity, this`copied, data
      ensures Holding(body + block) && newLength == |body + block|
      ensures data == old(data) || fresh(data)
    {
      if capacity == 0 {
        AllocateBuffer(|block|);
        newLength := |block|;
        Write(block, 0);
        assert data[..|block|] == block;
      } else {
        var newCapacity := capacity;
        while newCapacity < length + |block|
          invariant capacity <= newCapacity
          invariant newCapacity != capacity ==> 2 * capacity <= newCapacity && newCapacity < 2 * (length + |block|)
          decreases length + |block| - newCapacity
        {
          newCapacity := newCapacity * 2;
        }
        if newCapacity != capacity {
          GrowBuffer(newCapacity, length);
        }
        assert data[..length] == body;
        Write(block, length);
        newLength := length + |block|;
        assert data[..newLength] == body + block;
      }
    }

    method SetInitialized(total: nat)
      requires !initialized
      modifies this`size, this`initialized
      ensures initialized && size == total
    {
      size := total;
      initialized := true;
    }

    /** A whole download into a fresh file: the blocks of broken attempts, which the handlers
        append as well, and those of the complete one. However the body is cut into blocks, the
        buffer ends up with their concatenation. The file is sealed with the body of the complete
        attempt if and only if some block arrived or the handle's length was zero before, and the
        broken attempts were empty. */
    method Download(broken: seq<Bytes>, complete: seq<Bytes>, lengthBefore: nat) returns (length: nat)
      requires Holding([])
      modifies this, data
      ensures initialized && size == length && (data == old(data) || fresh(data))
      ensures length == RecordedSize(broken + complete, lengthBefore)
      ensures var all := Concat(broken) + Concat(complete);
        && |all| <= data.Length && data[..|all|] == all
        && (if all == [] then data.Length == 0 else data.Length < 2 * |all| && copied < 2 * |all|)
      ensures Sealed(Concat(complete)) <==> (broken + complete != [] || lengthBefore == 0) && Concat(broken) == []
    {
      var blocks := broken + complete;
      length := lengthBefore;
      for i := 0 to |blocks|
        invariant Holding(Concat(blocks[..i]))
        invariant length == if i == 0 then lengthBefore else |Concat(blocks[..i])|
        invariant data == old(data) || fresh(data)
      {
        ConcatSnoc(blocks, i);
        length := Receive(Concat(blocks[..i]), blocks[i], length);
      }
      assert blocks[..|blocks|] == blocks;
      ConcatConcat(broken, complete);
      RepeatedDownloadIsRight(broken, complete);
      SetInitialized(length);
    }
  }

  /** The length a handle ends up with when a download delivered these blocks. */
  function RecordedSize(blocks: seq<Bytes>, lengthBefore: nat): nat {
    if blocks == [] then lengthBefore else |Concat(blocks)|
  }

  lemma {:induction false} ConcatConcat(a: seq<Bytes>, b: seq<Bytes>)
    ensures Concat(a + b) == Concat(a) + Concat(b)
  {
    if b == [] {
      assert a + b == a;
    } else {
      var n := |b| - 1;
      assert (a + b)[..|a + b| - 1] == a + b[..n];
      ConcatConcat(a, b[..n]);
    }
  }

  lemma RepeatedDownloadIsRight(broken: seq<Bytes>, complete: seq<Bytes>)
    ensures Concat(broken + complete) == Concat(complete) <==> Concat(broken) == []
  {
    ConcatConcat(broken, complete);
    if Concat(broken) != [] {
      assert |Concat(broken + complete)| > |Concat(complete)|;
    }
  }

  /** A download repeated after some bytes had arrived: they stay in front of the body. */
  method RepeatedDownload(file: CachedFile, broken: seq<Bytes>, complete: seq<Bytes>, lengthBefore: nat)
    requires file.Holding([]) && Concat(broken) != []
    modifies file, file.data
    ensures file.Sealed(Concat(broken) + Concat(complete)) && !file.Sealed(Concat(complete))
  {
    var length := file.Download(broken, complete, lengthBefore);
    ConcatConcat(broken, complete);
  }

  /** A body without any block for a handle that had a length: the file is recorded with that
      length although its buffer was never allocated. */
  method DownloadWithoutBlocks(file: CachedFile, lengthBefore: nat)
    requires file.Holding([]) && lengthBefore > 0
    modifies file, file.data
    ensures file.initialized && file.size == lengthBefore && file.data.Length == 0 && !file.Sealed([])
  {
    var length := file.Download([], [], lengthBefore);
  }
}
