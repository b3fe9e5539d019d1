/** One call of read: the bytes of a file, piece by piece. */
module ReadCall {
  import opened Arith
  import opened Codec
  import opened DiskEmu
  import opened Layout
  import opened Transfer
  import opened State

  /** A read of `len` bytes, already cut to the size, at byte `r` of file `i`. */
  datatype Read = Read(m0: Mem, fd: nat, i: nat, r: nat, len: nat, first: nat, last: nat)

  /** What stays true all through a read. The volume need not be consistent. */
  ghost predicate ReadOK(g: Geo, c: Read) {
    && Shape(g, c.m0.vol) && c.i < NUM_INODES && c.fd < |c.m0.fdt| && c.m0.fdt[c.fd].rwptr == c.r
    && c.r + c.len <= c.m0.vol.table[c.i].size && c.m0.vol.table[c.i].indirect < g.N
    && Spans(g.B, c.r, c.len, c.first, c.last) && c.last < DIRECT + g.P
  }

  /** `n` bytes have been read, and they are `out`. */
  ghost predicate Reading(g: Geo, c: Read, m: Mem, n: nat, out: seq<byte>)
    requires ReadOK(g, c)
  {
    && m == c.m0.WithFd(c.fd, c.m0.fdt[c.fd].(rwptr := c.r + n))
    && n <= c.len && out == Seen(g, c.m0.vol, c.i)[c.r..c.r + n]
  }

  /** The block behind logical block `k`. */
  ghost function PointerTo(g: Geo, c: Read, k: nat): nat
    requires ReadOK(g, c) && k < DIRECT + g.P
  {
    SeenPointers(g, c.m0.vol.blocks, c.m0.vol.table[c.i])[k]
  }

  ghost function ReadFor(g: Geo, m: Mem, k: nat, len: nat): Read
    requires Readable(g, m, k)
  {
    var r := m.fdt[k].rwptr;
    Read(m, k, k + 1, r, len, BlockOf(g.B, r), BlockOf(g.B, r + len))
  }

  /** A read of a file that can be read can begin. */
  lemma ReadReady(g: Geo, m: Mem, k: nat, len: nat)
    requires Readable(g, m, k) && m.fdt[k].rwptr + len <= m.vol.table[k + 1].size
    ensures ReadOK(g, ReadFor(g, m, k, len)) && Reading(g, ReadFor(g, m, k, len), m, 0, [])
  {
    hide BlockStart, Beyond, BlockOf, Bytes;
    var r := m.fdt[k].rwptr;
    SpanOf(g.B, r, len);
    BlockOrder(g.B, r + len, m.vol.table[k + 1].size);
    assert m == m.WithFd(k, m.fdt[k].(rwptr := r + 0));
  }

  /** What a step of a read may rely on. */
  lemma ReadKnown(g: Geo, c: Read, m: Mem, n: nat, out: seq<byte>)
    requires ReadOK(g, c) && Reading(g, c, m, n, out)
    ensures m.vol == c.m0.vol && c.fd < |m.fdt| && n <= c.len && c.i < |m.vol.table|
    ensures Spans(g.B, c.r, c.len, c.first, c.last) && |out| == n
    ensures |m.vol.table[c.i].direct| == DIRECT && m.vol.table[c.i].indirect < g.N
    ensures c.last < DIRECT + g.P
    ensures forall k | 0 <= k < DIRECT :: PointerTo(g, c, k) == m.vol.table[c.i].direct[k]
  {
    hide BlockStart, Bytes, TableAt;
  }

  /** The table read from the pointer block, or from block 0 when there is none. */
  lemma TableSeen(g: Geo, c: Read, t: seq<nat>)
    requires ReadOK(g, c) && c.m0.vol.table[c.i].indirect < |c.m0.vol.blocks|
    requires |c.m0.vol.blocks[c.m0.vol.table[c.i].indirect]| >= 4 * g.P
    requires t == Decode(c.m0.vol.blocks[c.m0.vol.table[c.i].indirect], g.P)
    ensures forall k | 0 <= k < g.P :: PointerTo(g, c, DIRECT + k) == t[k]
  {
    hide BlockStart;
  }

  /** What a read of block `b` finds: zeros when there is no such block. */
  function BlockAt(B: nat, blocks: seq<Block>, b: nat): Block {
    if b < |blocks| then blocks[b] else Zeros(B)
  }

  /** A run of bytes inside one block of a file. */
  lemma BlockSlice(B: nat, blocks: seq<Block>, data: seq<nat>, size: nat, p: nat, k: nat, from: nat, len: nat)
    requires B > 0 && from + len <= B && p == BlockStart(B, k) + from && p + len <= size
    requires k < |data| && |BlockAt(B, blocks, data[k])| == B
    ensures Bytes(B, blocks, data, size)[p..p + len] == BlockAt(B, blocks, data[k])[from..from + len]
  {
    hide BlockStart;
    var some, block := Bytes(B, blocks, data, size)[p..p + len], BlockAt(B, blocks, data[k])[from..from + len];
    forall q | 0 <= q < len ensures some[q] == block[q] {
      ByteOfBlock(B, blocks, data, k, from + q, p + q);
    }
  }

  lemma ByteOfBlock(B: nat, blocks: seq<Block>, data: seq<nat>, k: nat, m: nat, p: nat)
    requires m < B && p == BlockStart(B, k) + m && k < |data| && |BlockAt(B, blocks, data[k])| == B
    ensures ByteAt(B, blocks, data, p) == BlockAt(B, blocks, data[k])[m]
  {
    hide BlockStart;
    StartDiv(B, p, k);
  }

  /** One piece copied: `len` bytes of logical block `k` from `from` on. */
  lemma PieceRead(g: Geo, c: Read, m: Mem, n: nat, out: seq<byte>, k: nat, block: Block, from: nat, len: nat, m': Mem)
    requires ReadOK(g, c) && Reading(g, c, m, n, out)
    requires from + len <= g.B == |block| && n + len <= c.len
    requires k < DIRECT + g.P && block == BlockAt(g.B, m.vol.blocks, PointerTo(g, c, k))
    requires len == 0 || BlockStart(g.B, k) + from == c.r + n
    requires c.fd < |m.fdt| && m' == m.WithFd(c.fd, m.fdt[c.fd].(rwptr := m.fdt[c.fd].rwptr + len))
    ensures Reading(g, c, m', n + len, out + block[from..from + len])
  {
    hide BlockStart, Beyond, SeenPointers, Bytes, BlockAt;
    var v := c.m0.vol;
    var all := Seen(g, v, c.i);
    if len > 0 {
      BlockSlice(g.B, v.blocks, SeenPointers(g, v.blocks, v.table[c.i]), v.table[c.i].size, c.r + n, k, from, len);
    }
    assert all[c.r..c.r + n] + all[c.r + n..c.r + n + len] == all[c.r..c.r + n + len];
  }

  lemma MiddleRead(B: nat, r: nat, len: nat, f: nat, l: nat, j: nat, n: nat)
    requires Spans(B, r, len, f, l) && j < l && BlockStart(B, j) == r + n
    ensures n + B <= len && BlockStart(B, j + 1) == r + (n + B)
  {
    StartMonotone(B, j + 1, l);
  }

  /** How much of the last block is read, computed in either of the two ways the code does. */
  lemma TailRest(B: nat, r: nat, len: nat, f: nat, l: nat, off: nat, n: nat)
    requires B > 0 && Spans(B, r, len, f, l) && r == BlockStart(B, f) + off && BlockStart(B, l) == r + n
    ensures n + (off + len) % B == len && n + (len + r) % B == len
  {
    hide BlockStart;
    StartDiff(B, f, l);
    StartDiv(B, off + len, l - f);
    StartDiv(B, len + r, l);
  }

  /** A read that has come to its length has its bytes. */
  lemma ReadDone(g: Geo, c: Read, m: Mem, out: seq<byte>)
    requires ReadOK(g, c) && Reading(g, c, m, c.len, out)
    ensures Shape(g, c.m0.vol) && |out| == c.len && c.r + c.len <= |Seen(g, c.m0.vol, c.i)|
    ensures out == Seen(g, c.m0.vol, c.i)[c.r..c.r + c.len]
    ensures m == c.m0.WithFd(c.fd, c.m0.fdt[c.fd].(rwptr := c.r + c.len))
  {
    hide BlockStart, Beyond, Bytes;
  }
}
