/**
  Copying an image without writing its zero blocks.

  A disk and a source each follow an arbitrary schedule of faults: writes may fail or fall short, reads
  may fail, return fewer bytes than asked, and report the end of the source at any time.
 */
module ImageCopy {
  import opened Common
  import opened Bytes

  const BlockSize: nat := 4096
  const BufferSize: nat := 0x400000

  /** A file read past its end is zero. */
  function At(data: seq<Byte>, i: nat): Byte {
    if i < |data| then data[i] else 0
  }

  predicate AllZero(s: seq<Byte>) {
    forall i | 0 <= i < |s| :: s[i] == 0
  }

  function BlockEnd(start: nat, length: nat): nat {
    if start + BlockSize < length then start + BlockSize else length
  }

  /** The block of `data` that holds index `i`. */
  function BlockAt(data: seq<Byte>, i: nat): seq<Byte>
    requires i < |data|
  {
    data[BlockStart(i)..BlockEnd(BlockStart(i), |data|)]
  }

  /** A write: where, and what. */
  datatype Write = Write(offset: nat, bytes: seq<Byte>)

  /** No block of the write, counted from its start, is all zero. */
  ghost predicate NoZeroBlock(w: Write) {
    forall i: nat | i < |w.bytes| :: !AllZero(BlockAt(w.bytes, i))
  }

  datatype WriteFate = WriteFate(broken: bool, accepted: nat)

  ghost predicate HealthyDisk(fates: nat -> WriteFate) {
    forall k :: !fates(k).broken && fates(k).accepted >= BufferSize
  }

  class Disk {
    const fates: nat -> WriteFate
    var data: seq<Byte>
    var writes: seq<Write>

    constructor (fates: nat -> WriteFate, data: seq<Byte>)
      ensures this.fates == fates && this.data == data && writes == []
    {
      this.fates, this.data, writes := fates, data, [];
    }

    /** Cuts the file or pads it with zeros. */
    method Truncate(size: nat) returns (ok: bool)
      modifies this`data
      ensures ok ==> |data| == size && forall i: nat | i < size :: At(data, i) == At(old(data), i)
      ensures !ok ==> data == old(data)
      ensures HealthyDisk(fates) ==> ok
    {
      ok := !fates(|writes|).broken;
      if ok {
        data := if size <= |data| then data[..size] else data + Zeros(size - |data|);
      }
    }

    /** Stores a prefix of `bytes`, extending the file when needed; the whole of it when `ok` and nothing is short. */
    method WriteAt(bytes: seq<Byte>, offset: nat) returns (written: nat, ok: bool)
      modifies this
      ensures written <= |bytes|
      ensures writes == old(writes) + [Write(offset, bytes)]
      ensures |data| == if written > 0 && offset + written > |old(data)| then offset + written else |old(data)|
      ensures forall i: nat :: At(data, i) ==
                if offset <= i < offset + written then bytes[i - offset] else At(old(data), i)
      ensures HealthyDisk(fates) && |bytes| <= BufferSize ==> ok && written == |bytes|
    {
      var fate := fates(|writes|);
      ok := !fate.broken;
      written := if fate.accepted < |bytes| then fate.accepted else |bytes|;
      writes := writes + [Write(offset, bytes)];
      if written > 0 {
        if offset + written > |data| {
          data := data + Zeros(offset + written - |data|);
        }
        data := data[..offset] + bytes[..written] + data[offset + written..];
      }
    }
  }

  datatype ReadError = NoError | EndOfFile | Unreadable

  datatype ReadFate = ReadFate(error: ReadError, available: nat, cancelled: bool)

  ghost predicate HealthySource(fates: nat -> ReadFate) {
    forall k :: fates(k).error == NoError && fates(k).available > 0 && !fates(k).cancelled
  }

  class Source {
    const fates: nat -> ReadFate
    const content: seq<Byte>
    var served: nat

    constructor (fates: nat -> ReadFate, content: seq<Byte>)
      ensures this.fates == fates && this.content == content && served == 0
    {
      this.fates, this.content, served := fates, content, 0;
    }

    /** Fills a prefix of the first `chunk` cells of `buf` with the content at `offset`. */
    method ReadAt(buf: array<Byte>, chunk: nat, offset: nat) returns (n: nat, error: ReadError)
      requires chunk <= buf.Length
      modifies buf, this`served
      ensures n <= chunk && (n > 0 ==> offset + n <= |content|)
      ensures n > 0 ==> buf[..n] == content[offset..offset + n]
      ensures HealthySource(fates) && chunk > 0 && offset < |content| ==> n > 0 && error == NoError
    {
      var fate := fates(served);
      served := served + 1;
      error := fate.error;
      n := if fate.available < chunk then fate.available else chunk;
      if offset >= |content| {
        n := 0;
      } else if offset + n > |content| {
        n := |content| - offset;
      }
      forall i | 0 <= i < n {
        buf[i] := content[offset + i];
      }
    }
  }

  // ----- one buffer -----

  /** The target holds the data wherever its block is not all zero, and is untouched elsewhere. */
  ghost predicate Laid(before: seq<Byte>, after: seq<Byte>, data: seq<Byte>, offset: nat) {
    forall i: nat :: At(after, i) ==
      if offset <= i < offset + |data| && !AllZero(BlockAt(data, i - offset)) then data[i - offset]
      else At(before, i)
  }

  /** The same, for the first `done` bytes of the data. */
  ghost predicate LaidUpTo(before: seq<Byte>, after: seq<Byte>, data: seq<Byte>, offset: nat, done: nat) {
    done <= |data| &&
    forall i: nat :: At(after, i) ==
      if offset <= i < offset + done && !AllZero(BlockAt(data, i - offset)) then data[i - offset]
      else At(before, i)
  }

  predicate Boundary(data: seq<Byte>, i: nat) {
    i <= |data| && (i % BlockSize == 0 || i == |data|)
  }

  function BlockStart(i: nat): nat {
    i / BlockSize * BlockSize
  }

  lemma BlockStartShifts(i: nat, start: nat)
    requires start % BlockSize == 0 && start <= i
    ensures BlockStart(i - start) == BlockStart(i) - start
  {
    var k, r := i / BlockSize - start / BlockSize, i % BlockSize;
    assert i - start == k * BlockSize + r;
    QuotientIs(i - start, k, r);
  }

  lemma QuotientIs(x: nat, k: int, r: nat)
    requires x == k * BlockSize + r && r < BlockSize
    ensures x / BlockSize == k
  {
    assert x / BlockSize * BlockSize <= x < x / BlockSize * BlockSize + BlockSize;
  }

  lemma BlockEndsInRun(i: nat, end: nat)
    requires i < end && end % BlockSize == 0
    ensures BlockStart(i) + BlockSize <= end
  {
    assert i / BlockSize + 1 <= end / BlockSize;
    assert (i / BlockSize + 1) * BlockSize <= end / BlockSize * BlockSize == end;
  }

  lemma SliceOfSlice(data: seq<Byte>, start: nat, end: nat, x: nat, y: nat)
    requires start <= x <= y <= end <= |data|
    ensures data[start..end][x - start..y - start] == data[x..y]
  {
    var inner, outer := data[start..end][x - start..y - start], data[x..y];
    forall k | 0 <= k < y - x
      ensures inner[k] == outer[k]
    {
      assert inner[k] == data[start..end][x - start + k] == data[x + k];
    }
  }

  lemma BlockInRun(data: seq<Byte>, start: nat, end: nat, i: nat)
    requires start % BlockSize == 0 && start <= i < end && Boundary(data, end)
    ensures BlockAt(data[start..end], i - start) == BlockAt(data, i)
  {
    BlockStartShifts(i, start);
    if end % BlockSize == 0 {
      BlockEndsInRun(i, end);
    }
    var b := BlockStart(i);
    assert BlockEnd(b - start, end - start) == BlockEnd(b, |data|) - start;
    SliceOfSlice(data, start, end, b, BlockEnd(b, |data|));
  }

  /** Walks over blocks of one kind from a boundary. */
  method SkipBlocks(data: seq<Byte>, start: nat, zero: bool) returns (end: nat)
    requires Boundary(data, start)
    ensures start <= end && Boundary(data, end)
    ensures forall i: nat | start <= i < end :: AllZero(BlockAt(data, i)) == zero
    ensures end < |data| ==> AllZero(BlockAt(data, end)) != zero
  {
    end := start;
    while end < |data|
      invariant start <= end && Boundary(data, end)
      invariant forall i: nat | start <= i < end :: AllZero(BlockAt(data, i)) == zero
    {
      var next := BlockEnd(end, |data|);
      assert data[end..next] == BlockAt(data, end);
      var allZero := AllZero(data[end..next]);
      if allZero != zero {
        return;
      }
      forall i: nat | end <= i < next
        ensures BlockAt(data, i) == BlockAt(data, end)
      {
        assert i / BlockSize == end / BlockSize;
      }
      end := next;
    }
  }

  /** Writes every maximal run of blocks that are not all zero, and nothing else. */
  method WriteSparseBlocks(target: Disk, data: seq<Byte>, offset: nat) returns (ok: bool)
    modifies target
    ensures |old(target.writes)| <= |target.writes| && target.writes[..|old(target.writes)|] == old(target.writes)
    ensures forall k | |old(target.writes)| <= k < |target.writes| :: NoZeroBlock(target.writes[k])
    ensures ok ==> Laid(old(target.data), target.data, data, offset)
    ensures offset + |data| <= |old(target.data)| ==> |target.data| == |old(target.data)|
    ensures HealthyDisk(target.fates) && |data| <= BufferSize ==> ok
  {
    ghost var before, logged := target.data, target.writes;
    var start := 0;
    while start < |data|
      invariant Boundary(data, start)
      invariant LaidUpTo(before, target.data, data, offset, start)
      invariant logged <= target.writes
      invariant forall k | |logged| <= k < |target.writes| :: NoZeroBlock(target.writes[k])
      invariant offset + |data| <= |before| ==> |target.data| == |before|
      decreases |data| - start
    {
      var from := SkipBlocks(data, start, true);
      if from == |data| {
        break;
      }
      var end := SkipBlocks(data, from, false);
      assert from < end by {
        assert !AllZero(BlockAt(data, from));
      }
      RunHasNoZeroBlock(data, from, end, offset);
      ghost var mid := target.data;
      var written, fine := target.WriteAt(data[from..end], offset + from);
      if !fine || written != end - from {
        return false;
      }
      RunLaid(before, mid, target.data, data, offset, start, from, end);
      start := end;
    }
    ok := true;
  }

  lemma RunHasNoZeroBlock(data: seq<Byte>, from: nat, end: nat, offset: nat)
    requires Boundary(data, from) && from < end && Boundary(data, end)
    requires forall i: nat | from <= i < end :: !AllZero(BlockAt(data, i))
    ensures NoZeroBlock(Write(offset + from, data[from..end]))
  {
    forall j: nat | j < end - from
      ensures !AllZero(BlockAt(data[from..end], j))
    {
      BlockInRun(data, from, end, from + j);
    }
  }

  lemma RunLaid(before: seq<Byte>, mid: seq<Byte>, after: seq<Byte>, data: seq<Byte>, offset: nat,
                start: nat, from: nat, end: nat)
    requires start <= from < end <= |data|
    requires LaidUpTo(before, mid, data, offset, start)
    requires forall i: nat | start <= i < from :: AllZero(BlockAt(data, i))
    requires forall i: nat | from <= i < end :: !AllZero(BlockAt(data, i))
    requires forall i: nat :: At(after, i) ==
               if offset + from <= i < offset + end then data[from..end][i - (offset + from)] else At(mid, i)
    ensures LaidUpTo(before, after, data, offset, end)
  {
  }

  // ----- the whole image -----

  /** Every byte is the source's, or was left alone where the source is zero. */
  ghost predicate Copied(before: seq<Byte>, after: seq<Byte>, content: seq<Byte>, from: nat, to: nat) {
    && from <= to && (from < to ==> to <= |content|)
    && (forall i: nat | from <= i < to ::
          At(after, i) == content[i] || (content[i] == 0 && At(after, i) == At(before, i)))
    && (forall i: nat | !(from <= i < to) :: At(after, i) == At(before, i))
  }

  lemma LaidIsCopied(before: seq<Byte>, mid: seq<Byte>, after: seq<Byte>, content: seq<Byte>, from: nat, at: nat,
                     n: nat)
    requires Copied(before, mid, content, from, at) && at + n <= |content|
    requires Laid(mid, after, content[at..at + n], at)
    ensures Copied(before, after, content, from, at + n)
  {
    forall i: nat | at <= i < at + n
      ensures At(after, i) == content[i] || (content[i] == 0 && At(after, i) == At(before, i))
    {
      var part := content[at..at + n];
      var block := BlockAt(part, i - at);
      if AllZero(block) {
        assert part[i - at] == block[(i - at) - BlockStart(i - at)];
      }
    }
  }

  /** One round of either copy loop: reads at most `chunk` bytes at `at` and lays them there.
      No bytes means that the copy cannot go on. */
  method CopyChunk(target: Disk, source: Source, buf: array<Byte>, chunk: nat, at: nat,
                   ghost before: seq<Byte>, ghost from: nat) returns (n: nat, atEnd: bool)
    requires chunk <= buf.Length && Copied(before, target.data, source.content, from, at)
    modifies target, source`served, buf
    ensures n <= chunk && |old(target.writes)| <= |target.writes|
    ensures target.writes[..|old(target.writes)|] == old(target.writes)
    ensures forall k | |old(target.writes)| <= k < |target.writes| :: NoZeroBlock(target.writes[k])
    ensures n > 0 ==> at + n <= |source.content| && buf[..n] == source.content[at..at + n] &&
                      Copied(before, target.data, source.content, from, at + n)
    ensures at + chunk <= |old(target.data)| ==> |target.data| == |old(target.data)|
    ensures HealthyDisk(target.fates) && HealthySource(source.fates) ==>
              (0 < chunk <= BufferSize && at < |source.content| ==> n > 0 && !atEnd)
  {
    ghost var mid := target.data;
    atEnd := false;
    if source.fates(source.served).cancelled {
      return 0, false;
    }
    var error;
    n, error := source.ReadAt(buf, chunk, at);
    if error == Unreadable || n == 0 {
      return 0, false;
    }
    var laid := WriteSparseBlocks(target, buf[..n], at);
    if !laid {
      return 0, false;
    }
    LaidIsCopied(before, mid, target.data, source.content, from, at, n);
    atEnd := error == EndOfFile;
  }

  /** Sizes the target, then copies buffer by buffer; answers with the bytes that were hashed. */
  method CopySparseImage(target: Disk, source: Source, size: nat) returns (hashed: Option<seq<Byte>>)
    modifies target, source`served
    ensures forall k | |old(target.writes)| <= k < |target.writes| :: NoZeroBlock(target.writes[k])
    ensures hashed.Some? ==>
              && size <= |source.content| && hashed.value == source.content[..size] && |target.data| == size
              && (forall i: nat | i < size ::
                    target.data[i] == source.content[i] ||
                    (source.content[i] == 0 && target.data[i] == At(old(target.data), i)))
    ensures hashed.Some? && AllZero(old(target.data)) ==> target.data == source.content[..size]
    ensures HealthyDisk(target.fates) && HealthySource(source.fates) && size <= |source.content| ==> hashed.Some?
  {
    ghost var logged := target.writes;
    var sized := target.Truncate(size);
    if !sized {
      return None;
    }
    ghost var before := target.data;
    var hash: seq<Byte> := [];
    var buf := new Byte[BufferSize];
    var offset := 0;
    while offset < size
      invariant 0 <= offset <= size && offset <= |source.content|
      invariant |target.data| == size && logged <= target.writes
      invariant forall k | |logged| <= k < |target.writes| :: NoZeroBlock(target.writes[k])
      invariant hash == source.content[..offset]
      invariant Copied(before, target.data, source.content, 0, offset)
    {
      var chunk := if size - offset < BufferSize then size - offset else BufferSize;
      var n, atEnd := CopyChunk(target, source, buf, chunk, offset, before, 0);
      if n == 0 {
        return None;
      }
      hash := hash + buf[..n];
      offset := offset + n;
      if atEnd && offset < size {
        return None;
      }
    }
    assert forall i: nat | i < size :: At(target.data, i) == target.data[i];
    hashed := Some(hash);
  }

  /** Copies one range of the source to the same place in the target. */
  method CopyReaderAtRange(target: Disk, source: Source, offset: nat, length: nat, buf: array<Byte>) returns (ok: bool)
    requires buf.Length > 0
    modifies target, source`served, buf
    ensures forall k | |old(target.writes)| <= k < |target.writes| :: NoZeroBlock(target.writes[k])
    ensures ok ==> Copied(old(target.data), target.data, source.content, offset, offset + length)
    ensures offset + length <= |old(target.data)| ==> |target.data| == |old(target.data)|
    ensures HealthyDisk(target.fates) && HealthySource(source.fates) ==>
              (buf.Length <= BufferSize && offset + length <= |source.content| ==> ok)
  {
    ghost var before, logged := target.data, target.writes;
    var copied := 0;
    while copied < length
      invariant 0 <= copied <= length
      invariant logged <= target.writes
      invariant forall k | |logged| <= k < |target.writes| :: NoZeroBlock(target.writes[k])
      invariant Copied(before, target.data, source.content, offset, offset + copied)
      invariant offset + length <= |before| ==> |target.data| == |before|
    {
      var chunk := if length - copied < buf.Length then length - copied else buf.Length;
      var n, atEnd := CopyChunk(target, source, buf, chunk, offset + copied, before, offset);
      if n == 0 {
        return false;
      }
      copied := copied + n;
      if atEnd && copied < length {
        return false;
      }
    }
    ok := true;
  }
}
