/**
 * One write in progress. Every branch of the write moves bytes as a head block, whole middle blocks and a tail
 * block; `Progress` says what holds once the blocks before logical block `j` have been stored, and the lemmas
 * below are the steps from one `j` to the next.
 */
module Transfer {
  import opened Arith
  import opened Codec
  import opened DiskEmu
  import opened FreeMap
  import opened FlatFile
  import opened Layout

  /**
   * A write of `buf` at byte `w` of file `i`, from its logical block `first` to `last`,
   * started in volume `v0`, whose blocks are `own0`.
   */
  datatype Job = Job(v0: Volume, own0: seq<Extent>, lost: set<nat>, i: nat, w: nat, buf: seq<byte>,
                     first: nat, last: nat) {
    ghost function Was(): Extent {
      if i < |own0| then own0[i] else Extent([], 0)
    }

    /** Data blocks the file owns when the write is over. */
    ghost function FinalCount(): nat {
      Max(|Was().data|, last + 1)
    }

    /**
     * The write takes a pointer block: a first write past the direct blocks does, a later one only when it goes past
     * the first indirect block.
     */
    ghost predicate TakesTable() {
      Was().table == 0 && (last > DIRECT || (last == DIRECT && Was().data == []))
    }

    ghost function FinalTotal(): nat {
      FinalCount() + if Was().table != 0 || TakesTable() then 1 else 0
    }

    ghost function OldBlock(k: nat): Block {
      if k < |Was().data| && Was().data[k] < |v0.blocks| then v0.blocks[Was().data[k]] else []
    }
  }

  /** What logical block `k` holds after the write: new bytes, old bytes in the first block, zeros in the others. */
  function Target(B: nat, first: nat, was: Block, w: nat, buf: seq<byte>, k: nat): (b: Block)
    ensures |b| == B
  {
    seq(B, m requires 0 <= m < B =>
      if w <= BlockStart(B, k) + m < w + |buf| then buf[BlockStart(B, k) + m - w]
      else if k == first && m < |was| then was[m] else 0)
  }

  predicate DirectOK(n: Inode, e: Extent)
    requires |n.direct| == DIRECT
  {
    forall k | 0 <= k < DIRECT :: n.direct[k] == if k < |e.data| then e.data[k] else 0
  }

  /** A write of `len` bytes at `w` begins in block `f` and ends in block `l`. */
  ghost predicate Spans(B: nat, w: nat, len: nat, f: nat, l: nat) {
    f <= l && BlockStart(B, f) <= w < BlockStart(B, f) + B && BlockStart(B, l) <= w + len < BlockStart(B, l) + B
  }

  lemma SpanOf(B: nat, w: nat, len: nat)
    requires B > 0
    ensures Spans(B, w, len, BlockOf(B, w), BlockOf(B, w + len))
    ensures w == BlockStart(B, BlockOf(B, w)) + OffsetIn(B, w)
  {
    StartDiv(B, w, w / B);
    StartDiv(B, w + len, (w + len) / B);
    DivMonotone(w, w + len, B);
  }

  lemma SpanIs(B: nat, w: nat, len: nat, f: nat, l: nat)
    requires B > 0 && Spans(B, w, len, f, l)
    ensures f == w / B && l == (w + len) / B
  {
    StartDiv(B, w, f);
    StartDiv(B, w + len, l);
  }

  ghost predicate JobOK(g: Geometry, job: Job) {
    && g.Valid() && Shape(g, job.v0) && 1 <= job.i < NUM_INODES
    && AllocOK(g, job.own0, FreeSet(job.v0.bits), job.lost)
    && FreeZero(g, job.v0.blocks, FreeSet(job.v0.bits))
    && DirectOK(job.v0.table[job.i], job.Was())
    && job.v0.table[job.i].indirect == job.Was().table
    && Spans(g.B, job.w, |job.buf|, job.first, job.last)
    && (job.first < |job.Was().data| || (job.Was().data == [] && job.w == 0))
    && job.last < DIRECT + g.P && |job.Was().data| <= DIRECT + g.P
    && Avail(g, FreeSet(job.v0.bits)) + Total(job.Was()) >= job.FinalTotal()
  }

  /** What a single logical block must hold when the blocks before `j` have been stored. */
  ghost function Expected(g: Geometry, job: Job, j: nat, k: nat): Block
    requires g.B > 0 && job.i < |job.own0|
  {
    if job.first <= k < j then Target(g.B, job.first, job.OldBlock(k), job.w, job.buf, k) else job.OldBlock(k)
  }

  ghost predicate Progress(g: Geometry, job: Job, v: Volume, own: seq<Extent>, j: nat) {
    && JobOK(g, job) && Shape(g, v) && |own| == NUM_INODES
    && Others(job, v, own)
    && AllocOK(g, own, FreeSet(v.bits), job.lost)
    && DirectOK(v.table[job.i], own[job.i]) && v.table[job.i].indirect == own[job.i].table
    && Grown(job, own[job.i], j)
    && Stored(g, job, v.blocks, own[job.i], j)
    && (own[job.i].table != 0 ==> job.Was().table != 0 || job.TakesTable())
    && FirstFit(job.Was(), own[job.i], FreeSet(job.v0.bits), FreeSet(v.bits))
    && Avail(g, FreeSet(v.bits)) + Total(own[job.i])
       == Avail(g, FreeSet(job.v0.bits)) + Total(job.Was())
  }

  ghost predicate Others(job: Job, v: Volume, own: seq<Extent>)
    requires job.i < NUM_INODES == |v.table| == |job.v0.table| == |own| == |job.own0|
  {
    && (forall x | 0 <= x < NUM_INODES && x != job.i :: own[x] == job.own0[x] && v.table[x] == job.v0.table[x])
    && v.table[job.i].size == job.v0.table[job.i].size
    && v.table[job.i].used == job.v0.table[job.i].used
  }

  ghost predicate Grown(job: Job, e: Extent, j: nat)
    requires job.i < |job.own0|
  {
    && |e.data| == Max(|job.Was().data|, j)
    && (forall k | 0 <= k < |job.Was().data| :: e.data[k] == job.Was().data[k])
    && (job.Was().table != 0 ==> e.table == job.Was().table)
  }

  ghost predicate Stored(g: Geometry, job: Job, blocks: seq<Block>, e: Extent, j: nat)
    requires g.Valid() && job.i < |job.own0|
    requires |blocks| == |job.v0.blocks| == g.N && ExtentOK(g, e)
  {
    && (forall b | g.Meta() <= b < g.N && b !in e.data :: blocks[b] == job.v0.blocks[b])
    && (forall k | 0 <= k < |e.data| :: blocks[e.data[k]] == Expected(g, job, j, k))
  }

  /** `cs` agrees with `bs` on every data block except possibly `d`. */
  ghost predicate SameBut(g: Geometry, bs: seq<Block>, cs: seq<Block>, d: nat)
    requires g.B > 0
  {
    && |bs| == |cs| == g.N && AllSized(g.B, cs)
    && forall b | g.Meta() <= b < g.N && b != d :: cs[b] == bs[b]
  }

  lemma NothingStored(g: Geometry, job: Job)
    requires JobOK(g, job)
    ensures Progress(g, job, job.v0, job.own0, job.first)
  {
  }

  /** Storing into a block the file already has. */
  lemma StepOver(g: Geometry, job: Job, v: Volume, own: seq<Extent>, j: nat, blocks: seq<Block>)
    requires Progress(g, job, v, own, j)
    requires job.first <= j < |own[job.i].data|
    requires SameBut(g, v.blocks, blocks, own[job.i].data[j])
    requires blocks[own[job.i].data[j]] == Target(g.B, job.first, job.OldBlock(j), job.w, job.buf, j)
    ensures Progress(g, job, v.(blocks := blocks), own, j + 1)
  {
    var e := own[job.i];
    forall k | 0 <= k < |e.data| ensures blocks[e.data[k]] == Expected(g, job, j + 1, k) {
      if k != j {
        assert e.data[k] != e.data[j];
      }
    }
  }

  /** Storing into the next block, newly taken from the free set. */
  lemma StepAppend(g: Geometry, job: Job, v: Volume, own: seq<Extent>, j: nat, b: nat, v': Volume)
    returns (own': seq<Extent>)
    requires Progress(g, job, v, own, j)
    requires j == |own[job.i].data| && job.first <= j
    requires b in FreeSet(v.bits) && b < g.N && forall x | x in FreeSet(v.bits) :: b <= x
    requires v'.bits == UseBit(v.bits, b)
    requires SameBut(g, v.blocks, v'.blocks, b)
    requires v'.blocks[b] == Target(g.B, job.first, job.OldBlock(j), job.w, job.buf, j)
    requires var n := v.table[job.i];
             v'.table == v.table[job.i := if j < DIRECT then n.(direct := n.direct[j := b]) else n]
    ensures own' == own[job.i := own[job.i].(data := own[job.i].data + [b])]
    ensures Progress(g, job, v', own', j + 1)
  {
    hide Target, BlockStart, Beyond, FreeSet, UseBit, Stored, Avail, FirstFit;
    var e := own[job.i];
    FirstFitData(job.Was(), e, FreeSet(job.v0.bits), FreeSet(v.bits), b);
    var e' := e.(data := e.data + [b]);
    own' := own[job.i := e'];
    assert b / 8 < |v.bits|;
    UseRemoves(v.bits, b);
    GrowKeepsAlloc(g, own, FreeSet(v.bits), job.lost, job.i, e', b);
    AvailTake(g, FreeSet(v.bits), b);
    assert b !in e.data by {
      assert !Owned(own, b);
      assert !InExtent(e, b);
    }
    AppendStored(g, job, v.blocks, v'.blocks, e, b, j);
    assert Others(job, v', own');
  }

  lemma AppendStored(g: Geometry, job: Job, bs: seq<Block>, cs: seq<Block>, e: Extent, b: nat, j: nat)
    requires JobOK(g, job) && |bs| == g.N && ExtentOK(g, e) && ExtentOK(g, e.(data := e.data + [b]))
    requires Stored(g, job, bs, e, j) && SameBut(g, bs, cs, b)
    requires j == |e.data| && b !in e.data && b < g.N && job.first <= j
    requires cs[b] == Target(g.B, job.first, job.OldBlock(j), job.w, job.buf, j)
    ensures Stored(g, job, cs, e.(data := e.data + [b]), j + 1)
  {
    hide Target, BlockStart, Beyond, FreeSet, Progress, FreeZero, Avail, Disjoint, Owned, DirectOK, Spans;
    var e' := e.(data := e.data + [b]);
    forall k | 0 <= k < |e'.data| ensures cs[e'.data[k]] == Expected(g, job, j + 1, k) {
      if k < j {
        assert e'.data[k] == e.data[k] != b;
      }
    }
    forall x | g.Meta() <= x < g.N && x !in e'.data ensures cs[x] == job.v0.blocks[x] {
      assert e'.data[j] == b;
      assert x !in e.data;
    }
  }

  /** Taking a free block as the pointer block: it is still all zero. */
  lemma StepTable(g: Geometry, job: Job, v: Volume, own: seq<Extent>, j: nat, b: nat, v': Volume)
    returns (own': seq<Extent>)
    requires Progress(g, job, v, own, j)
    requires own[job.i].table == 0 && job.TakesTable() && |own[job.i].data| == DIRECT
    requires b in FreeSet(v.bits) && b < g.N && forall x | x in FreeSet(v.bits) :: b <= x
    requires v'.bits == UseBit(v.bits, b)
    requires SameBut(g, v.blocks, v'.blocks, 0)
    requires v'.table == v.table[job.i := v.table[job.i].(indirect := b)]
    ensures own' == own[job.i := own[job.i].(table := b)]
    ensures Progress(g, job, v', own', j)
    ensures v'.blocks[b] == Zeros(g.B)
  {
    hide FirstFit, Target, BlockStart, Beyond, UseBit, Avail;
    var e := own[job.i];
    var e' := e.(table := b);
    own' := own[job.i := e'];
    FirstFitTable(job.Was(), e, FreeSet(job.v0.bits), FreeSet(v.bits), b);
    assert b / 8 < |v.bits|;
    UseRemoves(v.bits, b);
    GrowKeepsAlloc(g, own, FreeSet(v.bits), job.lost, job.i, e', b);
    AvailTake(g, FreeSet(v.bits), b);
    assert !Owned(own, b);
    assert !InExtent(e, b);
    StillFree(g, job, v, own, j, b);
    assert Others(job, v', own');
    assert Stored(g, job, v'.blocks, e', j);
  }

  /** A write takes no block away from anyone. */
  lemma OwnedGrows(g: Geometry, job: Job, v: Volume, own: seq<Extent>, j: nat, b: nat)
    requires Progress(g, job, v, own, j)
    ensures Owned(job.own0, b) ==> Owned(own, b)
  {
    if Owned(job.own0, b) {
      var x :| 0 <= x < NUM_INODES && InExtent(job.own0[x], b);
      if x == job.i && b in job.Was().data {
        var k :| 0 <= k < |job.Was().data| && job.Was().data[k] == b;
        assert own[x].data[k] == b;
      }
      assert InExtent(own[x], b);
    }
  }

  /** A block that is free during the write was free, and zero, before it. */
  lemma StillFree(g: Geometry, job: Job, v: Volume, own: seq<Extent>, j: nat, b: nat)
    requires Progress(g, job, v, own, j)
    requires b in FreeSet(v.bits) && b < g.N
    ensures b in FreeSet(job.v0.bits) && v.blocks[b] == Zeros(g.B)
  {
    assert b >= g.Meta() && !Owned(own, b) && b !in job.lost;
    assert !InExtent(own[job.i], b);
    OwnedGrows(g, job, v, own, j, b);
  }

  /** While data blocks are still to come, there is a free block to take. */
  lemma RoomForData(g: Geometry, job: Job, v: Volume, own: seq<Extent>, j: nat)
    requires Progress(g, job, v, own, j) && |own[job.i].data| == j <= job.last
    ensures exists b :: b in FreeSet(v.bits) && b < g.N
  {
    AvailSome(g, FreeSet(v.bits));
  }

  lemma RoomForTable(g: Geometry, job: Job, v: Volume, own: seq<Extent>, j: nat)
    requires Progress(g, job, v, own, j) && j <= job.last + 1
    requires own[job.i].table == 0 && job.TakesTable()
    ensures exists b :: b in FreeSet(v.bits) && b < g.N
  {
    AvailSome(g, FreeSet(v.bits));
  }

  // ----- the pieces a write is made of -----

  /** The C library copy: `len` bytes of `src` from `from`, put into `dst` at `at`. */
  function Memcpy(dst: Block, at: nat, src: seq<byte>, from: nat, len: nat): (r: Block)
    requires at + len <= |dst| && from + len <= |src|
    ensures |r| == |dst|
  {
    dst[..at] + src[from..from + len] + dst[at + len..]
  }

  /** First block of several: the bytes up to the end of the block are new. */
  lemma HeadTarget(B: nat, f: nat, was: Block, w: nat, buf: seq<byte>, off: nat)
    requires |was| == B && off < B && w == BlockStart(B, f) + off && B - off <= |buf|
    ensures Memcpy(was, off, buf, 0, B - off) == Target(B, f, was, w, buf, f)
  {
  }

  /** A write inside one block. */
  lemma OneTarget(B: nat, f: nat, was: Block, w: nat, buf: seq<byte>, off: nat)
    requires |was| == B && off + |buf| <= B && w == BlockStart(B, f) + off
    ensures Memcpy(was, off, buf, 0, |buf|) == Target(B, f, was, w, buf, f)
  {
  }

  lemma FirstTarget(B: nat, f: nat, was: Block, w: nat, buf: seq<byte>, off: nat, len: nat)
    requires |was| == B && off < B && w == BlockStart(B, f) + off
    requires (len == |buf| && off + len <= B) || (len == B - off && len <= |buf|)
    ensures Memcpy(was, off, buf, 0, len) == Target(B, f, was, w, buf, f)
  {
    if len == B - off {
      HeadTarget(B, f, was, w, buf, off);
    } else {
      OneTarget(B, f, was, w, buf, off);
    }
  }

  /** A middle block is all new. */
  lemma MiddleTarget(B: nat, f: nat, was: Block, w: nat, buf: seq<byte>, j: nat, at: nat)
    requires BlockStart(B, j) == w + at && at + B <= |buf|
    ensures Memcpy(Zeros(B), 0, buf, at, B) == Target(B, f, was, w, buf, j)
  {
  }

  /** The last block starts with the end of the buffer; the rest of it is cleared. */
  lemma TailTarget(B: nat, f: nat, was: Block, w: nat, buf: seq<byte>, l: nat, at: nat, r: nat)
    requires BlockStart(B, l) == w + at && at + r == |buf| && r < B
    requires l != f || was == []
    ensures Memcpy(Zeros(B), 0, buf, at, r) == Target(B, f, was, w, buf, l)
  {
  }

  /** The head fills the first block: the next block starts where the head stopped. */
  lemma HeadAt(B: nat, w: nat, len: nat, f: nat, l: nat, off: nat)
    requires Spans(B, w, len, f, l) && f < l && w == BlockStart(B, f) + off
    ensures B - off <= len && BlockStart(B, f + 1) == w + (B - off)
  {
    StartMonotone(B, f + 1, l);
  }

  /**
   * Middle block `j` of a write; block `f`, the first, is number `c` counting from 1. Where its bytes are in the
   * buffer.
   */
  lemma MiddlePiece(B: nat, w: nat, buf: seq<byte>, f: nat, c: nat, l: nat, off: nat, j: nat, n: nat, was: Block)
    requires c == f + 1 && Spans(B, w, |buf|, f, l) && w == BlockStart(B, f) + off
    requires c <= j < l && BlockStart(B, j) == w + n
    ensures B - off + (j - c) * B == n && n + B <= |buf|
    ensures BlockStart(B, j + 1) == w + (n + B)
    ensures Memcpy(Zeros(B), 0, buf, n, B) == Target(B, f, was, w, buf, j)
  {
    StartMonotone(B, j + 1, l);
    StartMul(B, j);
    StartMul(B, f);
    assert (j - c) * B == j * B - f * B - B;
    MiddleTarget(B, f, was, w, buf, j, n);
  }

  /** The last block `l`, number `e` counting from 1: where its bytes are in the buffer, and how many there are. */
  lemma TailPiece(B: nat, w: nat, buf: seq<byte>, f: nat, c: nat, l: nat, e: nat, off: nat, n: nat, was: Block)
    requires c == f + 1 && e == l + 1 && Spans(B, w, |buf|, f, l) && w == BlockStart(B, f) + off
    requires c <= l && BlockStart(B, l) == w + n
    ensures (e - c) * B - off == n && n + (off + |buf|) % B == |buf|
    ensures Memcpy(Zeros(B), 0, buf, n, (off + |buf|) % B) == Target(B, f, was, w, buf, l)
  {
    hide BlockStart, Target;
    StartDiff(B, f, l);
    StartMul(B, l - f);
    StartDiv(B, off + |buf|, l - f);
    TailTarget(B, f, was, w, buf, l, n, |buf| - n);
  }

  /** Whole block `j` of a first write. */
  lemma FreshPiece(B: nat, buf: seq<byte>, l: nat, j: nat, n: nat)
    requires Spans(B, 0, |buf|, 0, l) && j < l && BlockStart(B, j) == n
    ensures j * B == n && n + B <= |buf| && BlockStart(B, j + 1) == n + B
    ensures Memcpy(Zeros(B), 0, buf, n, B) == Target(B, 0, [], 0, buf, j)
  {
    StartMonotone(B, j + 1, l);
    StartMul(B, j);
    MiddleTarget(B, 0, [], 0, buf, j, n);
  }

  /** The last block of a first write. */
  lemma FreshTail(B: nat, buf: seq<byte>, l: nat, n: nat)
    requires B > 0 && Spans(B, 0, |buf|, 0, l) && BlockStart(B, l) == n
    ensures l * B == n && n + |buf| % B == |buf|
    ensures Memcpy(Zeros(B), 0, buf, n, |buf| % B) == Target(B, 0, [], 0, buf, l)
  {
    StartMul(B, l);
    StartDiv(B, |buf|, l);
    TailTarget(B, 0, [], 0, buf, l, n, |buf| - n);
  }

  // ----- the end of a write -----

  predicate TableOK(g: Geometry, t: seq<nat>, e: Extent)
    requires |t| == g.P
  {
    forall c | 0 <= c < g.P :: t[c] == if DIRECT + c < |e.data| then e.data[DIRECT + c] else 0
  }

  /** The inode and pointer block of a file spell out its extent. */
  lemma ExtentRead(g: Geometry, blocks: seq<Block>, n: Inode, e: Extent)
    requires g.Valid() && |n.direct| == DIRECT && DirectOK(n, e) && n.indirect == e.table
    requires TableOK(g, Pointers(g, blocks, e.table), e)
    requires |e.data| == Count(g, n) <= DIRECT + g.P
    ensures ExtentOf(g, blocks, n) == e
  {
    var t := Pointers(g, blocks, e.table);
    forall k | 0 <= k < |e.data| ensures (n.direct + t)[k] == e.data[k] {
      if k >= DIRECT {
        assert t[k - DIRECT] == e.data[DIRECT + (k - DIRECT)];
      }
    }
    assert (n.direct + t)[..|e.data|] == e.data;
  }

  /** Without a pointer block the table reads as empty. */
  lemma NoTable(g: Geometry, blocks: seq<Block>, e: Extent)
    requires |e.data| <= DIRECT && e.table == 0
    ensures TableOK(g, Pointers(g, blocks, e.table), e)
  {
  }

  /** The converse reading: a consistent inode has the pointers its extent says. */
  lemma InodeRead(g: Geometry, blocks: seq<Block>, n: Inode)
    requires g.Valid() && |n.direct| == DIRECT && InodeOK(g, blocks, n)
    ensures DirectOK(n, ExtentOf(g, blocks, n))
    ensures TableOK(g, Pointers(g, blocks, n.indirect), ExtentOf(g, blocks, n))
    ensures |ExtentOf(g, blocks, n).data| == Count(g, n)
  {
    var e, t := ExtentOf(g, blocks, n), Pointers(g, blocks, n.indirect);
    forall c | 0 <= c < g.P ensures t[c] == if DIRECT + c < |e.data| then e.data[DIRECT + c] else 0 {
      if DIRECT + c < |e.data| {
        assert (n.direct + t)[DIRECT + c] == t[c];
      }
    }
  }

  /** A file whose blocks are untouched keeps its extent. */
  lemma ExtentFrame(g: Geometry, bs: seq<Block>, cs: seq<Block>, n: Inode)
    requires g.Valid() && |n.direct| == DIRECT && |bs| == |cs|
    requires n.indirect != 0 && n.indirect < |bs| ==> cs[n.indirect] == bs[n.indirect]
    ensures ExtentOf(g, cs, n) == ExtentOf(g, bs, n)
    ensures InodeOK(g, bs, n) ==> InodeOK(g, cs, n)
  {
    assert Pointers(g, bs, n.indirect) == Pointers(g, cs, n.indirect);
  }

  lemma BytesFrame(B: nat, bs: seq<Block>, cs: seq<Block>, data: seq<nat>, size: nat)
    requires B > 0 && |bs| == |cs|
    requires forall k | 0 <= k < |data| && data[k] < |bs| :: cs[data[k]] == bs[data[k]]
    ensures Bytes(B, cs, data, size) == Bytes(B, bs, data, size)
  {
  }

  /** A byte of a block after the write, stored or not, is the byte of the overwritten file. */
  lemma BlockByte(B: nat, f: nat, l: nat, k: nat, m: nat, p: nat, c: nat, was: Block, now: Block, w: nat,
                  buf: seq<byte>, old_: seq<byte>)
    requires m < B == |now| && w <= |old_| && p == BlockStart(B, k) + m < Max(|old_|, w + |buf|)
    requires Spans(B, w, |buf|, f, l)
    requires c == if f == l then w + |buf| else BlockStart(B, l) + B
    requires now == if f <= k <= l then Target(B, f, was, w, buf, k) else was
    requires p < w || c <= p ==> |was| == B && was[m] == old_[p]
    ensures now[m] == Patch(old_, w, buf, c)[p]
  {
    if k < f {
      StartMonotone(B, k, f);
    } else if f < k {
      StartMonotone(B, f, k);
    }
    if k < l {
      StartMonotone(B, k, l);
    } else if l < k {
      StartMonotone(B, l, k);
    }
    if f <= k <= l {
      assert now[m] == if w <= p < w + |buf| then buf[p - w] else if k == f && m < |was| then was[m] else 0;
    }
  }

  lemma Cleared(B: nat, w: nat, len: nat, f: nat, l: nat)
    requires B > 0 && Spans(B, w, len, f, l)
    ensures ClearedTo(B, w, len) == if f == l then w + len else BlockStart(B, l) + B
  {
    SpanIs(B, w, len, f, l);
    StartMul(B, l);
    Next(l, B);
  }

  lemma PositionStored(B: nat, f: nat, l: nat, k: nat, m: nat, was: Block, now: Block, w: nat, buf: seq<byte>,
                       old_: seq<byte>, p: nat)
    requires 0 < B == |now| && w <= |old_| && p < Max(|old_|, w + |buf|)
    requires k == p / B && m == p % B && Spans(B, w, |buf|, f, l)
    requires now == if f <= k <= l then Target(B, f, was, w, buf, k) else was
    requires p < w || ClearedTo(B, w, |buf|) <= p ==> |was| == B && m < B && was[m] == old_[p]
    ensures m < B && now[m] == Overwrite(B, old_, w, buf)[p]
  {
    StartDiv(B, p, k);
    Cleared(B, w, |buf|, f, l);
    BlockByte(B, f, l, k, m, p, ClearedTo(B, w, |buf|), was, now, w, buf, old_);
  }

  lemma Covered(B: nat, w: nat, end: nat, p: nat, k: nat, l: nat, n: nat)
    requires B > 0 && w <= end && k == p / B && l == end / B
    requires p < w || end <= p ==> k < n
    ensures k < Max(n, l + 1)
  {
    if p <= end {
      DivMonotone(p, end, B);
    }
  }

  /** Old and new block of logical block `k` of the file. */
  lemma BlockStored(g: Geometry, job: Job, blocks: seq<Block>, e: Extent, k: nat)
    requires g.Valid() && job.i < |job.own0| && AllSized(g.B, blocks) && AllSized(g.B, job.v0.blocks)
    requires |blocks| == |job.v0.blocks| == g.N && ExtentOK(g, e) && ExtentOK(g, job.Was())
    requires Grown(job, e, job.last + 1) && Stored(g, job, blocks, e, job.last + 1)
    requires k < |e.data|
    ensures e.data[k] < g.N && |blocks[e.data[k]]| == g.B
    ensures blocks[e.data[k]] == if job.first <= k <= job.last
                                 then Target(g.B, job.first, job.OldBlock(k), job.w, job.buf, k)
                                 else job.OldBlock(k)
    ensures k < |job.Was().data| ==>
              job.Was().data[k] < g.N && job.OldBlock(k) == job.v0.blocks[job.Was().data[k]] && |job.OldBlock(k)| == g.B
  {
    assert blocks[e.data[k]] == Expected(g, job, job.last + 1, k);
  }

  lemma ByteStored(B: nat, job: Job, blocks: seq<Block>, data: seq<nat>, old_: seq<byte>, p: nat, k: nat, m: nat)
    requires B > 0 && job.i < |job.own0| && k == p / B && m == p % B
    requires Spans(B, job.w, |job.buf|, job.first, job.last)
    requires job.w <= |old_| && p < Max(|old_|, job.w + |job.buf|)
    requires k < |data| && data[k] < |blocks| && |blocks[data[k]]| == B
    requires blocks[data[k]] == if job.first <= k <= job.last
                                then Target(B, job.first, job.OldBlock(k), job.w, job.buf, k)
                                else job.OldBlock(k)
    requires p < job.w || ClearedTo(B, job.w, |job.buf|) <= p ==>
               |job.OldBlock(k)| == B && m < B && job.OldBlock(k)[m] == old_[p]
    ensures ByteAt(B, blocks, data, p) == Overwrite(B, old_, job.w, job.buf)[p]
  {
    PositionStored(B, job.first, job.last, k, m, job.OldBlock(k), blocks[data[k]], job.w, job.buf, old_, p);
  }

  /** Byte `p` of the old content comes from the old blocks of the file. */
  ghost predicate OldByte(g: Geometry, job: Job, old_: seq<byte>, p: nat)
    requires g.B > 0 && job.i < |job.own0| && p < |old_|
  {
    p / g.B < |job.Was().data| && old_[p] == ByteAt(g.B, job.v0.blocks, job.Was().data, p)
  }

  lemma FileByte(g: Geometry, job: Job, blocks: seq<Block>, e: Extent, old_: seq<byte>, p: nat, k: nat, m: nat)
    requires g.Valid() && job.i < |job.own0| && AllSized(g.B, blocks) && AllSized(g.B, job.v0.blocks)
    requires |blocks| == |job.v0.blocks| == g.N && ExtentOK(g, e) && ExtentOK(g, job.Was())
    requires Grown(job, e, job.last + 1) && Stored(g, job, blocks, e, job.last + 1)
    requires job.w <= |old_| && p < Max(|old_|, job.w + |job.buf|) && k == p / g.B && m == p % g.B
    requires Spans(g.B, job.w, |job.buf|, job.first, job.last)
    requires k < |e.data|
    requires p < job.w || ClearedTo(g.B, job.w, |job.buf|) <= p ==> OldByte(g, job, old_, p)
    ensures ByteAt(g.B, blocks, e.data, p) == Overwrite(g.B, old_, job.w, job.buf)[p]
  {
    BlockStored(g, job, blocks, e, k);
    ByteStored(g.B, job, blocks, e.data, old_, p, k, m);
  }

  lemma ContentStored(g: Geometry, job: Job, blocks: seq<Block>, e: Extent, old_: seq<byte>)
    requires g.Valid() && job.i < |job.own0| && AllSized(g.B, blocks) && AllSized(g.B, job.v0.blocks)
    requires |blocks| == |job.v0.blocks| == g.N && ExtentOK(g, e) && ExtentOK(g, job.Was())
    requires Grown(job, e, job.last + 1) && Stored(g, job, blocks, e, job.last + 1)
    requires job.w <= |old_| && Spans(g.B, job.w, |job.buf|, job.first, job.last)
    requires forall q: nat | q < |old_| && (q < job.w || job.w + |job.buf| <= q) :: OldByte(g, job, old_, q)
    ensures Bytes(g.B, blocks, e.data, Max(|old_|, job.w + |job.buf|)) == Overwrite(g.B, old_, job.w, job.buf)
  {
    var new_ := Overwrite(g.B, old_, job.w, job.buf);
    forall p: nat | p < |new_| ensures ByteAt(g.B, blocks, e.data, p) == new_[p] {
      var k, m := Position(p, g.B);
      assert p < job.w || job.w + |job.buf| <= p ==> OldByte(g, job, old_, p);
      SpanIs(g.B, job.w, |job.buf|, job.first, job.last);
      Covered(g.B, job.w, job.w + |job.buf|, p, k, job.last, |job.Was().data|);
      FileByte(g, job, blocks, e, old_, p, k, m);
    }
    BytesAre(g.B, blocks, e.data, new_);
  }

  lemma Position(p: nat, B: nat) returns (k: nat, m: nat)
    requires B > 0
    ensures k == p / B && m == p % B
  {
    k, m := p / B, p % B;
  }

  lemma BytesAre(B: nat, blocks: seq<Block>, data: seq<nat>, s: seq<byte>)
    requires B > 0
    requires forall p: nat | p < |s| :: ByteAt(B, blocks, data, p) == s[p]
    ensures Bytes(B, blocks, data, |s|) == s
  {
  }

  /** The volume once the size has been recorded and the pointer block, if any, has been written. */
  ghost predicate Settled(g: Geometry, job: Job, v: Volume, own: seq<Extent>, v': Volume) {
    && JobOK(g, job) && Progress(g, job, v, own, job.last + 1)
    && SameBut(g, v.blocks, v'.blocks, own[job.i].table)
    && v'.bits == v.bits
    && v'.table == v.table[job.i := v.table[job.i].(size := NewSize(job))]
  }

  /** And what was recorded describes the blocks of the file. */
  ghost predicate Closed(g: Geometry, job: Job, v: Volume, own: seq<Extent>, v': Volume) {
    && Settled(g, job, v, own, v')
    && TableOK(g, Pointers(g, v'.blocks, own[job.i].table), own[job.i])
    && Beyond(g.B, |own[job.i].data|, NewSize(job))
    && (own[job.i].table != 0 <==> |own[job.i].data| > DIRECT)
  }

  ghost function NewSize(job: Job): nat
    requires job.i < |job.v0.table|
  {
    Max(job.v0.table[job.i].size, job.w + |job.buf|)
  }

  /** The file being written is consistent before the write. */
  ghost predicate JobFile(g: Geometry, job: Job)
    requires JobOK(g, job)
  {
    var n, e := job.v0.table[job.i], job.Was();
    && (if e.data == [] then n.size == 0 else Beyond(g.B, |e.data|, n.size))
    && TableOK(g, Pointers(g, job.v0.blocks, e.table), e)
    && (e.table != 0 <==> |e.data| > DIRECT)
    && job.w <= n.size
  }

  lemma CountGrows(g: Geometry, job: Job)
    requires JobOK(g, job) && JobFile(g, job)
    ensures Beyond(g.B, job.FinalCount(), NewSize(job))
  {
    hide AllocOK, FreeZero, Avail, TableOK, DirectOK, FreeSet, Pointers;
    var k, n := |job.Was().data|, job.last + 1;
    StartMonotone(g.B, Min(k, n), Max(k, n));
    if k < n && k > 0 {
      StartMonotone(g.B, k, n - 1);
    } else if n < k {
      StartMonotone(g.B, n, k - 1);
    }
  }

  /** A write within the direct blocks leaves the pointer block, if there is one, as it was. */
  lemma CloseDirect(g: Geometry, job: Job, v: Volume, own: seq<Extent>, v': Volume)
    requires JobOK(g, job) && JobFile(g, job) && job.last < DIRECT
    requires Progress(g, job, v, own, job.last + 1)
    requires SameBut(g, v.blocks, v'.blocks, 0) && v'.bits == v.bits
    requires v'.table == v.table[job.i := v.table[job.i].(size := NewSize(job))]
    ensures Closed(g, job, v, own, v')
  {
    hide FirstFit, BlockStart, Beyond, FreeSet, Avail, Target;
    CountGrows(g, job);
    var e := own[job.i];
    if e.table == 0 {
      NoTable(g, v'.blocks, e);
    } else {
      assert e.data == job.Was().data;
      assert ExtentOK(g, e);
      assert v'.blocks[e.table] == job.v0.blocks[e.table];
      assert Pointers(g, v'.blocks, e.table) == Pointers(g, job.v0.blocks, e.table);
    }
  }

  /** A write reaching the indirect blocks ends by storing its pointer table. */
  lemma CloseTable(g: Geometry, job: Job, v: Volume, own: seq<Extent>, v': Volume, t: seq<nat>)
    requires JobOK(g, job) && job.last >= DIRECT
    requires Progress(g, job, v, own, job.last + 1)
    requires Beyond(g.B, |own[job.i].data|, NewSize(job)) && own[job.i].table != 0
    requires |t| == g.P && TableOK(g, t, own[job.i]) && Fits(t)
    requires SameBut(g, v.blocks, v'.blocks, own[job.i].table) && v'.bits == v.bits
    requires own[job.i].table < g.N && v'.blocks[own[job.i].table] == Encode(t)
    requires v'.table == v.table[job.i := v.table[job.i].(size := NewSize(job))]
    ensures Closed(g, job, v, own, v')
  {
    hide Stored, AllocOK, FreeZero, Avail, DirectOK, FreeSet, TableOK, TableAt, Encode, Fits, BlockStart, Beyond;
    PointersStored(g, v'.blocks, own[job.i].table, t);
  }

  lemma PointersStored(g: Geometry, blocks: seq<Block>, ptr: nat, t: seq<nat>)
    requires |t| == g.P && Fits(t) && ptr < |blocks| && blocks[ptr] == Encode(t)
    ensures TableAt(g, blocks, ptr) == t
  {
    RoundTrip(t, []);
    assert Encode(t) + [] == Encode(t);
  }

  /** The pointer table of a consistent file, as read from its block. */
  lemma TableRead(g: Geometry, job: Job)
    requires JobOK(g, job) && JobFile(g, job) && job.Was().table != 0
    ensures job.Was().table < |job.v0.blocks| && |job.v0.blocks[job.Was().table]| == 4 * g.P
    ensures TableOK(g, Decode(job.v0.blocks[job.Was().table], g.P), job.Was())
  {
    assert ExtentOK(g, job.Was());
  }

  /** A table filled as far as the file goes, and empty from entry `hi` on; in between it may hold anything. */
  predicate TableUpTo(g: Geometry, t: seq<nat>, e: Extent, hi: nat)
    requires |t| == g.P
  {
    forall c | 0 <= c < g.P ::
      && (DIRECT + c < |e.data| ==> t[c] == e.data[DIRECT + c])
      && (hi <= c ==> t[c] == 0)
  }

  lemma TableFilled(g: Geometry, t: seq<nat>, e: Extent, hi: nat)
    requires |t| == g.P && TableUpTo(g, t, e, hi) && |e.data| == DIRECT + hi
    ensures TableOK(g, t, e)
  {
  }

  /** Until the first indirect block is stored the table is empty. */
  lemma ZeroTable(g: Geometry, t: seq<nat>, e: Extent)
    requires |t| == g.P && |e.data| <= DIRECT && forall c | 0 <= c < g.P :: t[c] == 0
    ensures TableOK(g, t, e)
  {
  }

  /** A pointer block that is still all zero reads as an empty table. */
  lemma EmptyTable(g: Geometry, block: Block, t: seq<nat>, e: Extent)
    requires block == Zeros(g.B) && g.B >= 4 * g.P && t == Decode(block, g.P) && |e.data| <= DIRECT
    ensures TableOK(g, t, e)
  {
    DecodeZeros(block, g.P);
  }

  /** A pointer past the direct ones is in the table. */
  lemma TableEntry(g: Geometry, t: seq<nat>, e: Extent, k: nat)
    requires |t| == g.P && TableOK(g, t, e) && DIRECT <= k < |e.data| && k < DIRECT + g.P
    ensures t[k - DIRECT] == e.data[k]
  {
    var c := k - DIRECT;
    assert t[c] == e.data[DIRECT + c];
  }

  lemma TableFitsWords(g: Geometry, t: seq<nat>, e: Extent)
    requires |t| == g.P && TableOK(g, t, e) && ExtentOK(g, e) && g.N < WORD_LIMIT
    ensures Fits(t)
  {
  }

  /** The other files of the job are the files of the volume it started in. */
  ghost predicate Bystanders(g: Geometry, job: Job)
    requires JobOK(g, job)
  {
    forall x | 1 <= x < NUM_INODES && x != job.i ::
      job.own0[x] == Owners(g, job.v0)[x] && InodeOK(g, job.v0.blocks, job.v0.table[x])
  }

  lemma BystanderBlock(g: Geometry, job: Job, v: Volume, own: seq<Extent>, v': Volume, x: nat, b: nat)
    requires Settled(g, job, v, own, v')
    requires 1 <= x < NUM_INODES && x != job.i && InExtent(job.own0[x], b)
    ensures b < g.N && v'.blocks[b] == job.v0.blocks[b]
  {
    assert InExtent(own[x], b);
    assert ExtentOK(g, own[x]);
    assert !InExtent(own[job.i], b);
  }

  /** A bystander keeps its extent and its bytes: writes do not disturb other files. */
  lemma BystanderKept(g: Geometry, job: Job, v: Volume, own: seq<Extent>, v': Volume, x: nat)
    requires Settled(g, job, v, own, v') && Bystanders(g, job)
    requires 1 <= x < NUM_INODES && x != job.i
    ensures Shape(g, v') && v'.table[x] == job.v0.table[x]
    ensures Owners(g, v')[x] == own[x] == job.own0[x]
    ensures InodeOK(g, v'.blocks, v'.table[x])
    ensures Content(g, v', x) == Content(g, job.v0, x)
  {
    var n, e := job.v0.table[x], job.own0[x];
    assert v'.table[x] == n;
    assert e == ExtentOf(g, job.v0.blocks, n);
    if n.indirect != 0 {
      assert InExtent(e, n.indirect);
      BystanderBlock(g, job, v, own, v', x, n.indirect);
    }
    ExtentFrame(g, job.v0.blocks, v'.blocks, n);
    forall k | 0 <= k < |e.data| ensures v'.blocks[e.data[k]] == job.v0.blocks[e.data[k]] {
      assert InExtent(e, e.data[k]);
      BystanderBlock(g, job, v, own, v', x, e.data[k]);
    }
    BytesFrame(g.B, job.v0.blocks, v'.blocks, e.data, n.size);
  }

  lemma WriterKept(g: Geometry, job: Job, v: Volume, own: seq<Extent>, v': Volume)
    requires Closed(g, job, v, own, v')
    ensures Shape(g, v') && ExtentOf(g, v'.blocks, v'.table[job.i]) == own[job.i]
    ensures InodeOK(g, v'.blocks, v'.table[job.i])
  {
    var n, e := v'.table[job.i], own[job.i];
    assert ExtentOK(g, e) && e.data[0] >= g.Meta();
    InodeSpelled(g, v'.blocks, n, e);
  }

  lemma InodeSpelled(g: Geometry, blocks: seq<Block>, n: Inode, e: Extent)
    requires g.Valid() && |n.direct| == DIRECT && DirectOK(n, e) && n.indirect == e.table
    requires TableOK(g, Pointers(g, blocks, e.table), e)
    requires Beyond(g.B, |e.data|, n.size) && |e.data| <= DIRECT + g.P && e.data[0] != 0
    requires e.table != 0 <==> |e.data| > DIRECT
    ensures ExtentOf(g, blocks, n) == e && InodeOK(g, blocks, n)
  {
    assert n.direct[0] == e.data[0];
    BeyondIs(g.B, |e.data|, n.size);
    ExtentRead(g, blocks, n, e);
  }

  /** A finished write leaves a consistent volume owned as the write recorded. */
  lemma Finish(g: Geometry, job: Job, v: Volume, own: seq<Extent>, v': Volume)
    requires Closed(g, job, v, own, v') && Bystanders(g, job)
    requires own[0] == Extent([], 0)
    ensures WellFormedBut(g, v', job.lost) && Owners(g, v') == own
  {
    hide Target, BlockStart, Beyond, FreeSet, TableOK, Content, ExtentOf, InodeOK;
    WriterKept(g, job, v, own, v');
    forall x | 1 <= x < NUM_INODES && x != job.i
      ensures Owners(g, v')[x] == own[x] && InodeOK(g, v'.blocks, v'.table[x])
    {
      BystanderKept(g, job, v, own, v', x);
    }
    forall x | 0 <= x < NUM_INODES ensures Owners(g, v')[x] == own[x] {
    }
    assert Owners(g, v') == own;
    forall b | 0 <= b < g.N && b in FreeSet(v'.bits) ensures v'.blocks[b] == Zeros(g.B) {
      StillFree(g, job, v, own, job.last + 1, b);
      assert !Owned(own, b);
      assert !InExtent(own[job.i], b);
    }
  }

  // ----- writes outside the domain -----

  /** A write that reaches the indirect blocks without taking a pointer block leaves an inconsistent inode. */
  lemma NoPointerBlock(g: Geometry, job: Job, v: Volume, own: seq<Extent>, v': Volume)
    requires Settled(g, job, v, own, v') && own[job.i].table == 0 && job.last >= DIRECT
    ensures !WellFormed(g, v')
  {
    hide Target, BlockStart, Beyond, FreeSet, Stored, Avail, FreeZero, Pointers;
    var n, e := v'.table[job.i], own[job.i];
    assert ExtentOK(g, e) && e.data[0] >= g.Meta();
    assert n.direct[0] == e.data[0];
    SpanIs(g.B, job.w, |job.buf|, job.first, job.last);
    DivMonotone(job.w + |job.buf|, n.size, g.B);
    assert Count(g, n) > DIRECT;
    assert !InodeOK(g, v'.blocks, n);
  }

  /** The pointers of an inode and its table are those of its extent, or 0. */
  lemma ExtentWithin(g: Geometry, blocks: seq<Block>, n: Inode, e: Extent, b: nat)
    requires g.Valid() && |n.direct| == DIRECT && DirectOK(n, e) && n.indirect == e.table
    requires TableOK(g, Pointers(g, blocks, e.table), e)
    requires b != 0 && InExtent(ExtentOf(g, blocks, n), b)
    ensures InExtent(e, b)
  {
    var t := Pointers(g, blocks, e.table);
    if b in ExtentOf(g, blocks, n).data {
      var k :| 0 <= k < DIRECT + g.P && (n.direct + t)[k] == b;
      if k >= DIRECT {
        assert t[k - DIRECT] == b;
        assert b == e.data[DIRECT + (k - DIRECT)];
      }
    }
  }

  /** The job forgets blocks of its file: some data block is on record as lost. */
  ghost predicate Forgets(g: Geometry, job: Job)
    requires JobOK(g, job)
  {
    && Bystanders(g, job) && job.own0[0] == Extent([], 0)
    && exists b: nat :: b in job.lost && g.Meta() <= b < g.N
  }

  /** A write that forgets blocks of its file loses them: they are neither free nor owned by anyone. */
  lemma BlockLost(g: Geometry, job: Job, v: Volume, own: seq<Extent>, v': Volume, b: nat)
    requires Settled(g, job, v, own, v') && Bystanders(g, job) && own[0] == Extent([], 0)
    requires TableOK(g, Pointers(g, v'.blocks, own[job.i].table), own[job.i])
    requires b in job.lost && g.Meta() <= b < g.N
    ensures !WellFormed(g, v')
  {
    hide Target, BlockStart, Beyond, FreeSet, Stored, Avail, FreeZero, Pointers, ExtentOf, TableOK;
    assert b !in FreeSet(v'.bits) && !Owned(own, b);
    forall x | 0 <= x < NUM_INODES ensures Shape(g, v') && !InExtent(Owners(g, v')[x], b) {
      assert !InExtent(own[x], b);
      if x == job.i {
        if InExtent(ExtentOf(g, v'.blocks, v'.table[x]), b) {
          ExtentWithin(g, v'.blocks, v'.table[x], own[x], b);
        }
      } else if x != 0 {
        BystanderKept(g, job, v, own, v', x);
      }
    }
    assert !Owned(Owners(g, v'), b);
  }
}
