/**
 * How files are laid out on the disk: inodes, direct and indirect pointers, and the ownership of blocks.
 * Everything here is about values; the class FileSystem reads its state into a `Volume` and works on that.
 */
module Layout {
  import opened Arith
  import opened Codec
  import opened DiskEmu
  import opened FreeMap

  const DIRECT: nat := 12
  const NUM_INODES: nat := 10
  const INODE_BYTES: nat := 76
  const ENTRY_BYTES: nat := 24

  /**
   * Block size, pointers per block, blocks on the disk, bytes of bitmap, and the blocks taken by the inode table
   * and the root directory. The source fixes 1024, 256, 512, 128, 1 and 1.
   */
  datatype Geometry = Geometry(B: nat, P: nat, N: nat, S: nat, T: nat, R: nat) {
    ghost predicate Valid() {
      && P >= 1 && B == 4 * P
      && S <= B && N <= 8 * S
      && T >= 1 && Meta() <= N
    }

    /** The table and the directory get one block more than they fill, and every number stored fits a word. */
    ghost predicate Sized() {
      && Valid() && 1 <= R <= DIRECT
      && Beyond(B, T, INODE_BYTES * NUM_INODES)
      && Beyond(B, R, ENTRY_BYTES * NUM_INODES)
      && N < WORD_LIMIT && (DIRECT + P) * B < WORD_LIMIT
    }

    /** Blocks in front of the data blocks: superblock, inode table, bitmap, root directory. */
    function Meta(): nat {
      T + 2 + R
    }
  }

  /** `k` blocks hold `size` bytes and `k - 1` do not hold more: `k` is `size / B + 1`. */
  ghost predicate Beyond(B: nat, k: nat, size: nat) {
    k >= 1 && BlockStart(B, k - 1) <= size < BlockStart(B, k)
  }

  lemma BeyondIs(B: nat, k: nat, size: nat)
    requires B > 0 && k >= 1
    ensures Beyond(B, k, size) <==> k == size / B + 1
  {
    StartDiv(B, size, k - 1);
  }

  /** Geometries of a disk that can be formatted; the witness is the one the source fixes. */
  type Geo = g: Geometry | g.Sized() witness Geometry(1024, 256, 512, 128, 1, 1)

  datatype Inode = Inode(used: bool, size: nat, direct: seq<nat>, indirect: nat)

  /** What the file operations read and write: disk blocks, bitmap and the inode table in memory. */
  datatype Volume = Volume(blocks: seq<Block>, bits: seq<byte>, table: seq<Inode>)

  /** The blocks of one file: its data blocks in order, and its pointer block (0 when it has none). */
  datatype Extent = Extent(data: seq<nat>, table: nat)

  ghost predicate Shape(g: Geometry, v: Volume) {
    && |v.blocks| == g.N && AllSized(g.B, v.blocks)
    && |v.bits| == g.S
    && |v.table| == NUM_INODES
    && forall i | 0 <= i < NUM_INODES :: |v.table[i].direct| == DIRECT
  }

  // ----- ownership -----

  predicate InExtent(e: Extent, b: nat) {
    b in e.data || (e.table != 0 && b == e.table)
  }

  ghost predicate Owned(own: seq<Extent>, b: nat) {
    exists i :: 0 <= i < |own| && InExtent(own[i], b)
  }

  ghost predicate ExtentOK(g: Geometry, e: Extent) {
    && (forall k | 0 <= k < |e.data| :: g.Meta() <= e.data[k] < g.N)
    && (forall j, k | 0 <= j < k < |e.data| :: e.data[j] != e.data[k])
    && (e.table != 0 ==> g.Meta() <= e.table < g.N && e.table !in e.data)
  }

  ghost predicate Disjoint(own: seq<Extent>) {
    forall i, j, b | 0 <= i < |own| && 0 <= j < |own| && InExtent(own[i], b) && InExtent(own[j], b) :: i == j
  }

  /**
   * Allocator conservation: extents of different files are disjoint, lie outside the metadata,
   * and a data block is free exactly when no file owns it (and it has not been lost).
   */
  ghost predicate AllocOK(g: Geometry, own: seq<Extent>, free: set<nat>, lost: set<nat>) {
    && |own| == NUM_INODES
    && (forall i | 0 <= i < NUM_INODES :: ExtentOK(g, own[i]))
    && Disjoint(own)
    && (forall b | 0 <= b < g.Meta() :: b !in free)
    && (forall b | g.Meta() <= b < g.N :: b in free <==> !Owned(own, b) && b !in lost)
    && (forall b | b in lost :: !Owned(own, b))
  }

  lemma GrownMembers(e: Extent, e': Extent, b: nat)
    requires (e' == e.(data := e.data + [b])) || (e.table == 0 && b != 0 && e' == e.(table := b))
    ensures forall x :: InExtent(e', x) <==> InExtent(e, x) || x == b
  {
    assert e' == e.(data := e.data + [b]) ==> b == e'.data[|e.data|];
  }

  /** Handing a free block to a file keeps the books balanced. */
  lemma GrowKeepsAlloc(g: Geometry, own: seq<Extent>, free: set<nat>, lost: set<nat>, i: nat, e: Extent, b: nat)
    requires g.Valid() && AllocOK(g, own, free, lost)
    requires 0 <= i < NUM_INODES && b in free && b < g.N
    requires e == own[i].(data := own[i].data + [b]) || (own[i].table == 0 && e == own[i].(table := b))
    ensures AllocOK(g, own[i := e], free - {b}, lost)
  {
    hide BlockStart, Beyond;
    assert b >= g.Meta();
    assert !Owned(own, b);
    assert forall j | 0 <= j < |own| :: !InExtent(own[j], b);
    GrownMembers(own[i], e, b);
    var now := own[i := e];
    forall x: nat ensures Owned(now, x) <==> Owned(own, x) || x == b {
      if Owned(own, x) {
        var j :| 0 <= j < |own| && InExtent(own[j], x);
        assert InExtent(now[j], x);
      }
      if x == b {
        assert InExtent(now[i], x);
      }
      if Owned(now, x) && x != b {
        var j :| 0 <= j < |now| && InExtent(now[j], x);
        assert InExtent(own[j], x);
      }
    }
    forall j, k, x | 0 <= j < |now| && 0 <= k < |now| && InExtent(now[j], x) && InExtent(now[k], x)
      ensures j == k
    {
      if x != b {
        assert InExtent(own[j], x) && InExtent(own[k], x);
      }
    }
  }

  /** Free blocks that exist on the disk. */
  ghost function Avail(g: Geometry, free: set<nat>): nat {
    |set b | b in free && b < g.N|
  }

  function Total(e: Extent): nat {
    |e.data| + if e.table != 0 then 1 else 0
  }

  lemma AvailTake(g: Geometry, free: set<nat>, b: nat)
    requires b in free && b < g.N
    ensures Avail(g, free) == Avail(g, free - {b}) + 1
  {
    var s := set x | x in free && x < g.N;
    var t := set x | x in free - {b} && x < g.N;
    assert s == t + {b};
  }

  lemma AvailSome(g: Geometry, free: set<nat>)
    requires Avail(g, free) > 0
    ensures exists b :: b in free && b < g.N
  {
    var s := set x | x in free && x < g.N;
    assert s != {};
    var b :| b in s;
  }

  /**
   * An extent grown from `e0` to `e` by first fit, the free set going from `free0` to `free`: whatever has been taken
   * is below whatever is left, the new data blocks come in increasing order, and a new pointer block comes between the
   * last direct block and the first indirect one.
   */
  ghost predicate FirstFit(e0: Extent, e: Extent, free0: set<nat>, free: set<nat>) {
    && |e0.data| <= |e.data| && (forall k | 0 <= k < |e0.data| :: e.data[k] == e0.data[k])
    && (e0.table != 0 ==> e.table == e0.table)
    && free <= free0 && (forall x, y | x in free0 && x !in free && y in free :: x < y)
    && (forall k | |e0.data| <= k < |e.data| :: e.data[k] in free0 && e.data[k] !in free)
    && (forall j, k | |e0.data| <= j < k < |e.data| :: e.data[j] < e.data[k])
    && (e0.table == 0 && e.table != 0 ==>
          && e.table in free0 && e.table !in free && |e.data| >= DIRECT
          && forall k | |e0.data| <= k < |e.data| :: if k < DIRECT then e.data[k] < e.table else e.table < e.data[k])
  }

  /** The least free block taken as the next data block. */
  lemma FirstFitData(e0: Extent, e: Extent, free0: set<nat>, free: set<nat>, b: nat)
    requires FirstFit(e0, e, free0, free) && b in free && forall x | x in free :: b <= x
    ensures FirstFit(e0, e.(data := e.data + [b]), free0, free - {b})
  {
  }

  /** The least free block taken as the pointer block. */
  lemma FirstFitTable(e0: Extent, e: Extent, free0: set<nat>, free: set<nat>, b: nat)
    requires FirstFit(e0, e, free0, free) && b in free && forall x | x in free :: b <= x
    requires e.table == 0 && |e.data| == DIRECT
    ensures FirstFit(e0, e.(table := b), free0, free - {b})
  {
  }

  // ----- what an inode says -----

  /** Number of data blocks: none before the first write, then always one ahead of the size. */
  function Count(g: Geometry, n: Inode): nat
    requires g.B > 0 && |n.direct| == DIRECT
  {
    if n.direct[0] == 0 then 0 else n.size / g.B + 1
  }

  /** Block `b` as a pointer table. */
  function TableAt(g: Geometry, blocks: seq<Block>, b: nat): (t: seq<nat>)
    ensures |t| == g.P
  {
    if b < |blocks| && |blocks[b]| >= 4 * g.P then Decode(blocks[b], g.P) else seq(g.P, _ => 0)
  }

  /** The pointer table an inode refers to; all zero when it has none. */
  function Pointers(g: Geometry, blocks: seq<Block>, indirect: nat): (t: seq<nat>)
    ensures |t| == g.P
  {
    if indirect != 0 then TableAt(g, blocks, indirect) else seq(g.P, _ => 0)
  }

  function ExtentOf(g: Geometry, blocks: seq<Block>, n: Inode): Extent
    requires g.B > 0 && |n.direct| == DIRECT
  {
    var k := Min(Count(g, n), DIRECT + g.P);
    Extent((n.direct + Pointers(g, blocks, n.indirect))[..k], n.indirect)
  }

  /** Inode 0 is the root directory, whose blocks are metadata; files are the others. */
  ghost function Owners(g: Geometry, v: Volume): (own: seq<Extent>)
    requires g.B > 0 && Shape(g, v)
    ensures |own| == NUM_INODES
  {
    seq(NUM_INODES, i requires 0 <= i < NUM_INODES =>
      if i == 0 then Extent([], 0) else ExtentOf(g, v.blocks, v.table[i]))
  }

  /**
   * The one-ahead layout of a written file: pointers are non-zero exactly on the first Count of them
   * (that they are non-zero there is part of ExtentOK), and there is a pointer block exactly when needed.
   */
  ghost predicate InodeOK(g: Geometry, blocks: seq<Block>, n: Inode)
    requires g.B > 0 && |n.direct| == DIRECT
  {
    var k := Count(g, n);
    && k <= DIRECT + g.P
    && (k == 0 ==> n.size == 0)
    && (n.indirect != 0 <==> k > DIRECT)
    && (forall c | k <= c < DIRECT :: n.direct[c] == 0)
    && (k > DIRECT ==> forall c | k - DIRECT <= c < g.P :: Pointers(g, blocks, n.indirect)[c] == 0)
  }

  ghost predicate FreeZero(g: Geometry, blocks: seq<Block>, free: set<nat>)
    requires |blocks| == g.N
  {
    forall b | 0 <= b < g.N && b in free :: blocks[b] == Zeros(g.B)
  }

  /** The volume is consistent, except that the blocks in `lost` are neither free nor owned. */
  ghost predicate WellFormedBut(g: Geometry, v: Volume, lost: set<nat>) {
    && g.Valid() && Shape(g, v)
    && AllocOK(g, Owners(g, v), FreeSet(v.bits), lost)
    && (forall i | 1 <= i < NUM_INODES :: InodeOK(g, v.blocks, v.table[i]))
    && FreeZero(g, v.blocks, FreeSet(v.bits))
  }

  ghost predicate WellFormed(g: Geometry, v: Volume) {
    WellFormedBut(g, v, {})
  }

  // ----- what a file contains -----

  function ByteAt(B: nat, blocks: seq<Block>, data: seq<nat>, p: nat): byte
    requires B > 0
  {
    if p / B < |data| && data[p / B] < |blocks| && p % B < |blocks[data[p / B]]|
    then blocks[data[p / B]][p % B] else 0
  }

  function Bytes(B: nat, blocks: seq<Block>, data: seq<nat>, size: nat): (s: seq<byte>)
    requires B > 0
    ensures |s| == size
  {
    seq(size, p requires 0 <= p < size => ByteAt(B, blocks, data, p))
  }

  ghost function Content(g: Geometry, v: Volume, i: nat): (s: seq<byte>)
    requires g.B > 0 && Shape(g, v) && i < NUM_INODES
    ensures |s| == v.table[i].size
  {
    Bytes(g.B, v.blocks, ExtentOf(g, v.blocks, v.table[i]).data, v.table[i].size)
  }

  /**
   * All pointers of a file as a read finds them: it takes block `indirect` for the table without asking whether there
   * is one, so block 0 when there is none.
   */
  function SeenPointers(g: Geometry, blocks: seq<Block>, n: Inode): (t: seq<nat>)
    requires |n.direct| == DIRECT
    ensures |t| == DIRECT + g.P
  {
    n.direct + TableAt(g, blocks, n.indirect)
  }

  /** The bytes a read finds, whether the volume is consistent or not. */
  ghost function Seen(g: Geometry, v: Volume, i: nat): (s: seq<byte>)
    requires g.B > 0 && Shape(g, v) && i < NUM_INODES
    ensures |s| == v.table[i].size
  {
    Bytes(g.B, v.blocks, SeenPointers(g, v.blocks, v.table[i]), v.table[i].size)
  }

  /** A pointer that a consistent inode counts is the one a read finds. */
  lemma SeenPointer(g: Geometry, blocks: seq<Block>, n: Inode, k: nat)
    requires g.Valid() && |n.direct| == DIRECT && InodeOK(g, blocks, n) && k < Count(g, n)
    ensures k < |ExtentOf(g, blocks, n).data| && k < DIRECT + g.P
    ensures SeenPointers(g, blocks, n)[k] == ExtentOf(g, blocks, n).data[k]
  {
    hide BlockStart, Beyond, TableAt;
  }

  lemma SameByteAt(B: nat, bs: seq<Block>, cs: seq<Block>, d: seq<nat>, e: seq<nat>, p: nat)
    requires B > 0 && BlockOf(B, p) < |d| && BlockOf(B, p) < |e| && d[BlockOf(B, p)] == e[BlockOf(B, p)]
    requires |bs| == |cs| && (e[BlockOf(B, p)] < |bs| ==> bs[e[BlockOf(B, p)]] == cs[e[BlockOf(B, p)]])
    ensures ByteAt(B, bs, d, p) == ByteAt(B, cs, e, p)
  {
  }

  lemma SeenByte(g: Geometry, v: Volume, i: nat, p: nat)
    requires g.Valid() && Shape(g, v) && i < NUM_INODES && InodeOK(g, v.blocks, v.table[i]) && p < v.table[i].size
    ensures var n := v.table[i];
            ByteAt(g.B, v.blocks, SeenPointers(g, v.blocks, n), p)
            == ByteAt(g.B, v.blocks, ExtentOf(g, v.blocks, n).data, p)
  {
    hide BlockStart, Beyond, BlockOf, SeenPointers, ExtentOf, InodeOK, Count, ByteAt;
    var n := v.table[i];
    CountPast(g, v.blocks, n, p);
    SeenPointer(g, v.blocks, n, BlockOf(g.B, p));
    SameByteAt(g.B, v.blocks, v.blocks, SeenPointers(g, v.blocks, n), ExtentOf(g, v.blocks, n).data, p);
  }

  lemma CountPast(g: Geometry, blocks: seq<Block>, n: Inode, p: nat)
    requires g.Valid() && |n.direct| == DIRECT && InodeOK(g, blocks, n) && p < n.size
    ensures BlockOf(g.B, p) < Count(g, n)
  {
    hide BlockStart, Beyond, Pointers;
    DivMonotone(p, n.size, g.B);
  }

  /** A consistent file is seen as it is laid out. */
  lemma SeenIs(g: Geometry, v: Volume, i: nat)
    requires g.Valid() && Shape(g, v) && i < NUM_INODES && InodeOK(g, v.blocks, v.table[i])
    ensures Seen(g, v, i) == Content(g, v, i)
  {
    hide BlockStart, Beyond, SeenPointers, ExtentOf, InodeOK, ByteAt;
    forall p | 0 <= p < v.table[i].size ensures Seen(g, v, i)[p] == Content(g, v, i)[p] {
      SeenByte(g, v, i, p);
    }
  }

  /** Whether the file has ever been written. */
  predicate Written(n: Inode)
    requires |n.direct| == DIRECT
  {
    n.direct[0] != 0
  }
}
