/** The emulated disk: a byte file addressed in whole blocks. */
module DiskEmu {
  import opened Arith
  import opened Codec

  type Block = seq<byte>

  /** Piece `k` of a file cut into blocks. */
  function Chunk(B: nat, bytes: seq<byte>, k: nat): Block {
    if BlockStart(B, k) + B <= |bytes| then bytes[BlockStart(B, k)..BlockStart(B, k) + B] else []
  }

  /** A flat file cut into `n` blocks. */
  function Chop(B: nat, n: nat, bytes: seq<byte>): (bs: seq<Block>)
    ensures |bs| == n
  {
    seq(n, k requires 0 <= k < n => Chunk(B, bytes, k))
  }

  predicate AllSized(B: nat, bs: seq<Block>) {
    forall b | 0 <= b < |bs| :: |bs[b]| == B
  }

  /** `n` blocks from `a` on replaced by consecutive pieces of `buf`. */
  function WriteRange(B: nat, bs: seq<Block>, a: nat, n: nat, buf: seq<byte>): (r: seq<Block>)
    ensures |r| == |bs|
  {
    seq(|bs|, b requires 0 <= b < |bs| => if a <= b < a + n then Chunk(B, buf, b - a) else bs[b])
  }

  /** The bytes of `n` blocks from `a` on, in order. */
  function ReadRange(bs: seq<Block>, a: nat, n: nat): seq<byte>
    requires a + n <= |bs|
  {
    if n == 0 then [] else ReadRange(bs, a, n - 1) + bs[a + n - 1]
  }

  /** The pieces of a file of `n` blocks are all there. */
  lemma ChunkIs(B: nat, n: nat, bytes: seq<byte>, k: nat)
    requires k < n && |bytes| == BlockStart(B, n)
    ensures BlockStart(B, k) + B == BlockStart(B, k + 1) <= |bytes|
    ensures Chunk(B, bytes, k) == bytes[BlockStart(B, k)..BlockStart(B, k) + B] == Chop(B, n, bytes)[k]
  {
    StartMonotone(B, k + 1, n);
  }

  lemma ChopSized(B: nat, n: nat, bytes: seq<byte>)
    requires |bytes| == BlockStart(B, n)
    ensures AllSized(B, Chop(B, n, bytes))
  {
    forall k | 0 <= k < n ensures |Chop(B, n, bytes)[k]| == B {
      ChunkIs(B, n, bytes, k);
    }
  }

  lemma {:induction false} ReadRangeLength(B: nat, bs: seq<Block>, a: nat, n: nat)
    requires a + n <= |bs| && AllSized(B, bs)
    ensures |ReadRange(bs, a, n)| == BlockStart(B, n)
  {
    if n > 0 {
      ReadRangeLength(B, bs, a, n - 1);
    }
  }

  /** Blocks written and then read again give back the same bytes. */
  lemma {:induction false} ReadAfterWrite(B: nat, bs: seq<Block>, a: nat, n: nat, buf: seq<byte>, m: nat)
    requires a + n <= |bs| && |buf| == BlockStart(B, n) && m <= n
    ensures BlockStart(B, m) <= |buf| && ReadRange(WriteRange(B, bs, a, n, buf), a, m) == buf[..BlockStart(B, m)]
  {
    hide WriteRange, Chunk, Chop;
    StartMonotone(B, m, n);
    if m > 0 {
      ReadAfterWrite(B, bs, a, n, buf, m - 1);
      ChunkIs(B, n, buf, m - 1);
      WrittenAt(B, bs, a, n, buf, m - 1);
      Longer(buf, BlockStart(B, m - 1), B);
    }
  }

  lemma WrittenAt(B: nat, bs: seq<Block>, a: nat, n: nat, buf: seq<byte>, k: nat)
    requires a + n <= |bs| && k < n
    ensures WriteRange(B, bs, a, n, buf)[a + k] == Chunk(B, buf, k)
  {
  }

  lemma Longer(s: seq<byte>, a: nat, n: nat)
    requires a + n <= |s|
    ensures s[..a] + s[a..a + n] == s[..a + n]
  {
  }

  /** Reading depends only on the blocks read. */
  lemma {:induction false} ReadFrame(bs: seq<Block>, cs: seq<Block>, a: nat, n: nat)
    requires a + n <= |bs| == |cs|
    requires forall b | a <= b < a + n :: bs[b] == cs[b]
    ensures ReadRange(bs, a, n) == ReadRange(cs, a, n)
  {
    if n > 0 {
      ReadFrame(bs, cs, a, n - 1);
    }
  }

  /** One write of several blocks is a write of the first ones followed by a write of the last. */
  lemma WriteRangeSteps(B: nat, bs: seq<Block>, a: nat, n: nat, buf: seq<byte>)
    requires a + n < |bs| && |buf| == BlockStart(B, n + 1)
    ensures BlockStart(B, n) <= |buf|
    ensures WriteRange(B, bs, a, n + 1, buf)
         == WriteRange(B, WriteRange(B, bs, a, n, buf[..BlockStart(B, n)]), a + n, 1, buf[BlockStart(B, n)..])
  {
    hide BlockStart;
    StartNext(B, n);
    StartZero(B);
    var lo := BlockStart(B, n);
    var one := WriteRange(B, bs, a, n + 1, buf);
    var two := WriteRange(B, WriteRange(B, bs, a, n, buf[..lo]), a + n, 1, buf[lo..]);
    forall b | 0 <= b < |bs| ensures one[b] == two[b] {
      if a <= b < a + n {
        StartMonotone(B, b - a, n);
        assert Chunk(B, buf, b - a) == Chunk(B, buf[..lo], b - a);
      } else if b == a + n {
        assert Chunk(B, buf, n) == Chunk(B, buf[lo..], 0);
        assert one[b] == Chunk(B, buf, n) && two[b] == Chunk(B, buf[lo..], 0);
      }
    }
  }

  lemma WriteOne(B: nat, bs: seq<Block>, b: nat, data: Block)
    requires b < |bs| && |data| == B
    ensures WriteRange(B, bs, b, 1, data) == bs[b := data]
  {
    assert Chunk(B, data, 0) == data;
  }

  /** `bytes` put over a file from position `at` on. */
  function Spliced(file: seq<byte>, at: nat, bytes: seq<byte>): (r: seq<byte>)
    requires at + |bytes| <= |file|
    ensures |r| == |file|
  {
    file[..at] + bytes + file[at + |bytes|..]
  }

  /** A splice extended by one more piece. */
  lemma SpliceGrows(was: seq<byte>, from: nat, buf: seq<byte>, at: nat, n: nat)
    requires from + at + n <= |was| && at + n <= |buf|
    ensures Spliced(Spliced(was, from, buf[..at]), from + at, buf[at..at + n]) == Spliced(was, from, buf[..at + n])
  {
    Longer(buf, at, n);
  }

  lemma SplicedOne(file: seq<byte>, at: nat, bytes: seq<byte>, j: nat)
    requires at + |bytes| <= |file| && j < |bytes|
    ensures Spliced(file, at, bytes[..j])[at + j := bytes[j]] == Spliced(file, at, bytes[..j + 1])
  {
  }

  lemma NothingSpliced(file: seq<byte>, at: nat, buf: seq<byte>)
    requires at <= |file|
    ensures Spliced(file, at, buf[..0]) == file
  {
  }

  /** Where a splice at block granularity lands. */
  lemma ChopSplice(B: nat, N: nat, old_: seq<byte>, a: nat, n: nat, buf: seq<byte>, new_: seq<byte>)
    requires |old_| == BlockStart(B, N) && a + n <= N && |buf| == BlockStart(B, n)
    requires BlockStart(B, a) + |buf| <= |old_|
    requires new_ == Spliced(old_, BlockStart(B, a), buf)
    ensures Chop(B, N, new_) == WriteRange(B, Chop(B, N, old_), a, n, buf)
  {
    hide Spliced, BlockStart;
    forall b | 0 <= b < N ensures Chop(B, N, new_)[b] == WriteRange(B, Chop(B, N, old_), a, n, buf)[b] {
      if a <= b < a + n {
        ChunkInside(B, N, old_, a, n, buf, b - a);
      } else {
        ChunkOutside(B, N, old_, a, n, buf, b);
      }
    }
  }

  lemma ChunkOutside(B: nat, N: nat, file: seq<byte>, a: nat, n: nat, buf: seq<byte>, b: nat)
    requires |file| == BlockStart(B, N) && a + n <= N && |buf| == BlockStart(B, n) && b < N && !(a <= b < a + n)
    requires BlockStart(B, a) + |buf| <= |file|
    ensures Chunk(B, Spliced(file, BlockStart(B, a), buf), b) == Chunk(B, file, b)
  {
    hide BlockStart, Spliced;
    StartDiff(B, a, a + n);
    if b < a {
      StartMonotone(B, b, a);
    } else {
      StartMonotone(B, a + n, b);
    }
    StartMonotone(B, b, N);
    SliceOutside(file, BlockStart(B, a), buf, BlockStart(B, b), B);
  }

  lemma ChunkInside(B: nat, N: nat, file: seq<byte>, a: nat, n: nat, buf: seq<byte>, k: nat)
    requires |file| == BlockStart(B, N) && a + n <= N && |buf| == BlockStart(B, n) && k < n
    requires BlockStart(B, a) + |buf| <= |file|
    ensures Chunk(B, Spliced(file, BlockStart(B, a), buf), a + k) == Chunk(B, buf, k)
  {
    hide BlockStart, Spliced;
    StartDiff(B, a, a + k);
    StartMonotone(B, k, n);
    SliceInside(file, BlockStart(B, a), buf, BlockStart(B, a + k), B);
  }

  /** A stretch of a splice before or after what was put in. */
  lemma SliceOutside(file: seq<byte>, from: nat, buf: seq<byte>, lo: nat, n: nat)
    requires from + |buf| <= |file| && lo + n <= |file|
    requires lo + n <= from || from + |buf| <= lo
    ensures Spliced(file, from, buf)[lo..lo + n] == file[lo..lo + n]
  {
  }

  lemma SliceInside(file: seq<byte>, from: nat, buf: seq<byte>, lo: nat, n: nat)
    requires from <= lo && lo + n <= from + |buf| <= |file|
    ensures Spliced(file, from, buf)[lo..lo + n] == buf[lo - from..lo - from + n]
  {
  }

  class Disk {
    const blockSize: nat
    const maxBlock: nat
    const data: array<byte>

    ghost predicate Valid() {
      blockSize > 0 && data.Length == BlockStart(blockSize, maxBlock)
    }

    /** The disk as a sequence of blocks. */
    ghost function Blocks(): (bs: seq<Block>)
      requires Valid()
      reads data
      ensures |bs| == maxBlock && AllSized(blockSize, bs)
    {
      ChopSized(blockSize, maxBlock, data[..]);
      Chop(blockSize, maxBlock, data[..])
    }

    /** A fresh disk holds only zero bytes. */
    constructor (block_size: nat, num_blocks: nat)
      requires block_size > 0
      ensures Valid() && fresh(data) && blockSize == block_size && maxBlock == num_blocks
      ensures forall b | 0 <= b < maxBlock :: Blocks()[b] == Zeros(blockSize)
    {
      blockSize := block_size;
      maxBlock := num_blocks;
      StartMul(block_size, num_blocks);
      data := new byte[num_blocks * block_size];
      new;
      Clear();
      forall b | 0 <= b < maxBlock ensures Blocks()[b] == Zeros(blockSize) {
        ChunkIs(blockSize, maxBlock, data[..], b);
      }
    }

    method Clear()
      requires Valid()
      modifies data
      ensures forall p | 0 <= p < data.Length :: data[p] == 0
    {
      var pos := 0;
      for i := 0 to maxBlock
        invariant pos == BlockStart(blockSize, i)
        invariant forall p | 0 <= p < pos <= data.Length :: data[p] == 0
      {
        StartMonotone(blockSize, i + 1, maxBlock);
        for j := 0 to blockSize
          invariant pos == BlockStart(blockSize, i) + j
          invariant forall p | 0 <= p < pos <= data.Length :: data[p] == 0
        {
          data[pos] := 0;
          pos := pos + 1;
        }
      }
    }

    /** Reads `n` blocks; out of range, the buffer stays as it was. */
    method ReadBlocks(start: nat, n: nat, buffer: seq<byte>) returns (s: int, out: seq<byte>)
      requires Valid() && |buffer| == BlockStart(blockSize, n)
      ensures start + n > maxBlock ==> s == -1 && out == buffer
      ensures start + n <= maxBlock ==> s == n && out == ReadRange(Blocks(), start, n)
    {
      hide BlockStart, Chop, Chunk;
      if start + n > maxBlock {
        return -1, buffer;
      }
      s, out := 0, [];
      var pos := BlockStart(blockSize, start);
      for i := 0 to n
        invariant s == i && pos == BlockStart(blockSize, start + i) && out == ReadRange(Blocks(), start, i)
      {
        ChunkIs(blockSize, maxBlock, data[..], start + i);
        out := out + data[pos..pos + blockSize];
        pos := pos + blockSize;
        s := s + 1;
      }
    }

    /** Writes `n` blocks; out of range, nothing happens. */
    method WriteBlocks(start: nat, n: nat, buffer: seq<byte>) returns (s: int)
      requires Valid() && |buffer| == BlockStart(blockSize, n)
      modifies data
      ensures start + n > maxBlock ==> s == -1 && data[..] == old(data[..])
      ensures start + n <= maxBlock ==>
                s == n && Blocks() == WriteRange(blockSize, old(Blocks()), start, n, buffer)
    {
      hide BlockStart, Chop, Chunk, WriteRange, Spliced;
      if start + n > maxBlock {
        return -1;
      }
      s := 0;
      ghost var was, from := data[..], BlockStart(blockSize, start);
      StartDiff(blockSize, start, start + n);
      StartMonotone(blockSize, start + n, maxBlock);
      StartZero(blockSize);
      NothingSpliced(data[..], from, buffer);
      var pos, at := BlockStart(blockSize, start), 0;
      for i := 0 to n
        invariant s == i && at == BlockStart(blockSize, i) && pos == from + at && at <= |buffer|
        invariant data[..] == Spliced(was, from, buffer[..at])
      {
        ChunkIs(blockSize, n, buffer, i);
        WriteBytes(pos, buffer[at..at + blockSize]);
        SpliceGrows(was, from, buffer, at, blockSize);
        pos, at := pos + blockSize, at + blockSize;
        s := s + 1;
      }
      assert buffer[..at] == buffer;
      ChopSplice(blockSize, maxBlock, was, start, n, buffer, data[..]);
    }

    /** The file write of one block. */
    method WriteBytes(at: nat, bytes: seq<byte>)
      requires at + |bytes| <= data.Length
      modifies data
      ensures data[..] == Spliced(old(data[..]), at, bytes)
    {
      hide Spliced;
      ghost var was := data[..];
      NothingSpliced(was, at, bytes);
      for j := 0 to |bytes|
        invariant data[..] == Spliced(was, at, bytes[..j])
      {
        data[at + j] := bytes[j];
        SplicedOne(was, at, bytes, j);
      }
      assert bytes[..|bytes|] == bytes;
    }
  }
}
