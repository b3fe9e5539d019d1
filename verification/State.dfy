/** The whole state of the file system as a value, and what keeps memory and disk in step. */
module State {
  import opened Arith
  import opened Codec
  import opened DiskEmu
  import opened FreeMap
  import opened Layout
  import opened Metadata
  import opened Transfer

  datatype Fd = Fd(inode: nat, rwptr: nat, wptr: nat, open: bool)

  const FREE_FD := Fd(NO_INODE, 0, 0, false)

  datatype Mem = Mem(vol: Volume, root: seq<DirEntry>, fdt: seq<Fd>) {
    function WithBlocks(blocks: seq<Block>): Mem {
      this.(vol := vol.(blocks := blocks))
    }

    function WithBits(bits: seq<byte>): Mem {
      this.(vol := vol.(bits := bits))
    }

    function WithTable(table: seq<Inode>): Mem {
      this.(vol := vol.(table := table))
    }

    function WithInode(i: nat, n: Inode): Mem
      requires i < |vol.table|
    {
      this.(vol := vol.(table := vol.table[i := n]))
    }

    function WithFd(k: nat, f: Fd): Mem
      requires k < |fdt|
    {
      this.(fdt := fdt[k := f])
    }
  }

  // ----- memory against disk -----

  /** The inode table as the disk has it. */
  ghost function TableOnDisk(g: Geo, blocks: seq<Block>): seq<Inode>
    requires |blocks| == g.N && AllSized(g.B, blocks)
  {
    ReadRangeLength(g.B, blocks, 1, g.T);
    RegionSizes(g);
    TableFrom(ReadRange(blocks, 1, g.T))
  }

  /** The directory as the disk has it. */
  ghost function RootOnDisk(g: Geo, blocks: seq<Block>): seq<DirEntry>
    requires |blocks| == g.N && AllSized(g.B, blocks)
  {
    ReadRangeLength(g.B, blocks, g.T + 2, g.R);
    RegionSizes(g);
    RootFrom(ReadRange(blocks, g.T + 2, g.R))
  }

  /** An inode handed out by open that has not been written: the table on disk may not know it yet. */
  ghost predicate Fresh(n: Inode) {
    n == FREE_INODE.(used := true)
  }

  /** The inode table on disk is the one in memory, up to files created but not yet written. */
  ghost predicate TableKnown(table: seq<Inode>, onDisk: seq<Inode>) {
    && |table| == |onDisk| == NUM_INODES
    && forall i | 0 <= i < NUM_INODES :: onDisk[i] == table[i] || (i > 0 && Fresh(table[i]) && onDisk[i] == FREE_INODE)
  }

  /** The superblock, bitmap and root directory on disk are the ones in memory; so is every inode that owns data. */
  ghost predicate InStep(g: Geo, sb: Block, m: Mem) {
    && Shape(g, m.vol) && TableFits(m.vol.table)
    && |m.root| == NUM_INODES && RootFits(m.root)
    && m.vol.blocks[0] == sb
    && m.vol.blocks[g.T + 1] == Fit(m.vol.bits, g.B)
    && RootOnDisk(g, m.vol.blocks) == m.root
    && TableKnown(m.vol.table, TableOnDisk(g, m.vol.blocks))
  }

  /** The superblock and the root directory are untouched. */
  ghost predicate Fixed(g: Geo, bs: seq<Block>, cs: seq<Block>) {
    && g.Valid() && |bs| == |cs| == g.N && AllSized(g.B, cs)
    && forall b | 0 <= b < g.Meta() && (b == 0 || g.T + 2 <= b) :: cs[b] == bs[b]
  }

  /** The root directory is untouched. */
  ghost predicate RootKept(g: Geo, bs: seq<Block>, cs: seq<Block>) {
    |bs| == |cs| == g.N && forall b | g.T + 2 <= b < g.Meta() :: cs[b] == bs[b]
  }

  /** The table blocks hold exactly the inode table in memory. */
  ghost predicate TableWritten(g: Geo, v: Volume)
    requires Shape(g, v) && g.Valid()
  {
    TableFits(v.table) && ReadRange(v.blocks, 1, g.T) == TableBytes(v.table, BlockStart(g.B, g.T))
  }

  ghost predicate TableUntouched(g: Geo, v: Volume, v': Volume)
    requires |v.blocks| == |v'.blocks| == g.N && g.Valid()
  {
    v'.table == v.table && ReadRange(v'.blocks, 1, g.T) == ReadRange(v.blocks, 1, g.T)
  }

  /** Writing the bitmap, and the inode table or neither, keeps memory and disk in step. */
  lemma InStepKept(g: Geo, sb: Block, m: Mem, m': Mem)
    requires InStep(g, sb, m) && Shape(g, m'.vol) && TableFits(m'.vol.table)
    requires m'.root == m.root && Fixed(g, m.vol.blocks, m'.vol.blocks)
    requires m'.vol.blocks[g.T + 1] == Fit(m'.vol.bits, g.B)
    requires TableWritten(g, m'.vol) || TableUntouched(g, m.vol, m'.vol)
    ensures InStep(g, sb, m')
  {
    ReadFrame(m.vol.blocks, m'.vol.blocks, g.T + 2, g.R);
    if TableWritten(g, m'.vol) {
      RegionSizes(g);
      TableReload(m'.vol.table, BlockStart(g.B, g.T));
    }
  }

  /** `bytes` written over `n` blocks from `a` on. */
  lemma RegionStored(g: Geo, was: seq<Block>, a: nat, n: nat, bytes: seq<byte>, now: seq<Block>)
    requires |was| == g.N && a + n <= g.N && |bytes| == BlockStart(g.B, n) && now == WriteRange(g.B, was, a, n, bytes)
    ensures ReadRange(now, a, n) == bytes
    ensures |now| == g.N && forall b | 0 <= b < g.N && !(a <= b < a + n) :: now[b] == was[b]
  {
    hide BlockStart, Beyond;
    ReadAfterWrite(g.B, was, a, n, bytes, n);
    assert bytes[..BlockStart(g.B, n)] == bytes;
  }

  lemma RootStored(g: Geo, was: seq<Block>, root: seq<DirEntry>, bytes: seq<byte>, now: seq<Block>)
    requires |was| == g.N && |root| == NUM_INODES && RootFits(root) && AllSized(g.B, now)
    requires bytes == RootBytes(root, BlockStart(g.B, g.R)) && now == WriteRange(g.B, was, g.T + 2, g.R, bytes)
    ensures RootOnDisk(g, now) == root
    ensures |now| == g.N && forall b | 0 <= b < g.N && !(g.T + 2 <= b < g.Meta()) :: now[b] == was[b]
  {
    hide BlockStart, Beyond, RootBytes, RootFrom;
    RegionStored(g, was, g.T + 2, g.R, bytes, now);
    RegionSizes(g);
    RootReload(root, BlockStart(g.B, g.R));
  }

  lemma RootFrame(g: Geo, bs: seq<Block>, cs: seq<Block>)
    requires Fixed(g, bs, cs) && AllSized(g.B, bs)
    ensures RootOnDisk(g, cs) == RootOnDisk(g, bs)
  {
    hide BlockStart, Beyond, RootFrom;
    ReadFrame(bs, cs, g.T + 2, g.R);
  }

  lemma FreeTableFits(table: seq<Inode>)
    requires |table| == NUM_INODES && InodeFits(table[0])
    requires forall i | 1 <= i < NUM_INODES :: table[i] == FREE_INODE
    ensures TableFits(table)
  {
  }

  // ----- names, inodes and descriptors -----

  /** The first `files` slots of the directory, of the inodes after 0 and of the descriptors belong together. */
  ghost predicate DirOK(m: Mem, files: nat) {
    && files < NUM_INODES && |m.root| == |m.fdt| == |m.vol.table| == NUM_INODES
    && m.vol.table[0].used
    && (forall k | 0 <= k < files :: FileOK(m.root[k], m.vol.table[k + 1], m.fdt[k], k))
    && (forall k | files <= k < NUM_INODES :: m.root[k] == FREE_ENTRY && m.fdt[k] == FREE_FD)
    && (forall k | files < k < NUM_INODES :: m.vol.table[k] == FREE_INODE)
    && (forall j, k | 0 <= j < k < files :: m.root[j].name != m.root[k].name)
  }

  /** Directory entry, inode and descriptor of one file. */
  predicate FileOK(e: DirEntry, n: Inode, f: Fd, k: nat) {
    && e.inode == f.inode == k + 1 && e.name != [] && ShortName(e.name)
    && n.used && f.rwptr <= n.size && f.wptr <= n.size
  }

  /** Inode 0 is that of the root directory: it names the directory's blocks and nothing else. */
  predicate RootInodeOK(g: Geo, n: Inode) {
    n == Inode(true, 0, seq(DIRECT, k => if k < g.R then g.T + 2 + k else 0), 0)
  }

  /** Everything the file system relies on between calls. */
  ghost predicate Good(g: Geo, sb: Block, m: Mem, files: nat) {
    && WellFormed(g, m.vol) && InStep(g, sb, m) && DirOK(m, files) && RootInodeOK(g, m.vol.table[0])
  }

  /**
   * File `k` can be read, in a consistent system or not: its size is within its pointers, its table within the disk and
   * its read position within the file.
   */
  ghost predicate Readable(g: Geo, m: Mem, k: nat) {
    && Shape(g, m.vol) && |m.fdt| == NUM_INODES && k + 1 < NUM_INODES
    && m.fdt[k].inode == k + 1 && m.fdt[k].rwptr <= m.vol.table[k + 1].size
    && m.vol.table[k + 1].indirect < g.N && BlockOf(g.B, m.vol.table[k + 1].size) < DIRECT + g.P
  }

  // ----- a write in progress, with its descriptor -----

  /** A call of write on descriptor `fd` in state `m0`. */
  datatype Call = Call(job: Job, m0: Mem, fd: nat)

  /** `n` bytes of the write have been counted and the blocks before `j` stored; the file now owns `e`. */
  ghost predicate Writing(g: Geo, c: Call, m: Mem, e: Extent, j: nat, n: nat) {
    && c.job.v0 == c.m0.vol && JobOK(g, c.job)
    && Progress(g, c.job, m.vol, c.job.own0[c.job.i := e], j)
    && Fixed(g, c.m0.vol.blocks, m.vol.blocks) && TableFits(m.vol.table)
    && m.root == c.m0.root
    && c.fd < |c.m0.fdt| && m.fdt == c.m0.fdt[c.fd := c.m0.fdt[c.fd].(wptr := c.job.w + n)]
  }

  /** The states in which a write has come so far. */
  ghost function Ongoing(g: Geo, c: Call, e: Extent, j: nat, n: nat): iset<Mem> {
    iset m | Writing(g, c, m, e, j, n)
  }

  /** All blocks stored, size and pointer block recorded, memory and disk in step. */
  ghost predicate Ended(g: Geo, c: Call, v: Volume, own: seq<Extent>, m: Mem) {
    && c.job.v0 == c.m0.vol && Closed(g, c.job, v, own, m.vol)
    && Shape(g, m.vol) && MapsStored(g, c, m)
    && Fixed(g, c.m0.vol.blocks, m.vol.blocks)
    && m.root == c.m0.root
    && c.fd < |c.m0.fdt| && m.fdt == c.m0.fdt[c.fd := c.m0.fdt[c.fd].(wptr := c.job.w + |c.job.buf|)]
  }

  /** The states in which a write may end. */
  ghost function Finished(g: Geo, c: Call): iset<Mem> {
    iset m | MayEnd(g, c, m)
  }

  ghost predicate MayEnd(g: Geo, c: Call, m: Mem) {
    exists v, own :: Ended(g, c, v, own, m)
  }

  /** The bitmap on disk is the one in memory, or neither has changed. */
  ghost predicate BitmapStored(g: Geo, m0: Mem, m: Mem) {
    && |m0.vol.blocks| == |m.vol.blocks| == g.N
    && (|| m.vol.blocks[g.T + 1] == Fit(m.vol.bits, g.B)
        || (m.vol.bits == m0.vol.bits && m.vol.blocks[g.T + 1] == m0.vol.blocks[g.T + 1]))
  }

  /** A later write inside one direct block that does not grow its file: the only one that stores no metadata. */
  ghost predicate Quiet(job: Job) {
    && job.Was().data != [] && job.first == job.last < DIRECT
    && job.i < |job.v0.table| && job.w + |job.buf| <= job.v0.table[job.i].size
  }

  /** The inode table on disk is the one in memory; after a quiet write neither has changed. */
  ghost predicate TableStored(g: Geo, c: Call, m: Mem) {
    && |c.m0.vol.blocks| == g.N && Shape(g, m.vol)
    && if Quiet(c.job) then TableUntouched(g, c.m0.vol, m.vol) else TableWritten(g, m.vol)
  }

  /** The bitmap and inode table on disk are the ones in memory. */
  ghost predicate MapsOK(g: Geo, m: Mem) {
    && Shape(g, m.vol) && TableFits(m.vol.table) && TableWritten(g, m.vol)
    && m.vol.blocks[g.T + 1] == Fit(m.vol.bits, g.B)
  }

  /** Neither the bitmap nor the inode table has got out of step during the call. */
  ghost predicate MapsStored(g: Geo, c: Call, m: Mem) {
    TableFits(m.vol.table) && BitmapStored(g, c.m0, m) && TableStored(g, c, m)
  }

  lemma MapsFresh(g: Geo, c: Call, m: Mem)
    requires MapsOK(g, m) && |c.m0.vol.blocks| == g.N && !Quiet(c.job)
    ensures MapsStored(g, c, m)
  {
  }

  /** What every step of a write may rely on. */
  ghost predicate Facts(g: Geo, c: Call, m: Mem, e: Extent, j: nat) {
    && 1 <= c.job.i < NUM_INODES == |c.job.own0|
    && Spans(g.B, c.job.w, |c.job.buf|, c.job.first, c.job.last)
    && c.job.last < DIRECT + g.P && c.job.w + |c.job.buf| < WORD_LIMIT
    && Shape(g, m.vol) && TableFits(m.vol.table) && |c.m0.vol.blocks| == g.N
    && c.fd < |m.fdt| && |e.data| == Max(|c.job.Was().data|, j)
    && m.vol.table[c.job.i].indirect == e.table
  }

  /** What is known at any point of a write. */
  lemma Known(g: Geo, c: Call, m: Mem, e: Extent, j: nat, n: nat)
    requires m in Ongoing(g, c, e, j, n)
    ensures Facts(g, c, m, e, j)
  {
    hide Target, BlockStart, Beyond, FreeSet, Stored, Avail, FreeZero, Fixed;
    assert Writing(g, c, m, e, j, n);
    StartMonotone(g.B, c.job.last, DIRECT + g.P);
    StartMul(g.B, DIRECT + g.P);
  }

  /** The data block numbers of the file, as the direct pointers give them. */
  lemma KnownPointers(g: Geo, c: Call, m: Mem, e: Extent, j: nat, n: nat)
    requires m in Ongoing(g, c, e, j, n)
    ensures c.job.i < |m.vol.table| && |m.vol.table[c.job.i].direct| == DIRECT
    ensures forall k | 0 <= k < |e.data| :: 0 < e.data[k] < g.N
    ensures e.table < g.N
    ensures forall k | 0 <= k < DIRECT :: m.vol.table[c.job.i].direct[k] == if k < |e.data| then e.data[k] else 0
  {
    assert Writing(g, c, m, e, j, n);
    assert ExtentOK(g, e);
  }

  /** The first block of the write still holds its old bytes. */
  lemma KnownFirst(g: Geo, c: Call, m: Mem, e: Extent, n: nat)
    requires m in Ongoing(g, c, e, c.job.first, n)
    requires c.job.first < |c.job.Was().data|
    ensures c.job.first < |e.data| && e.data[c.job.first] < g.N == |m.vol.blocks|
    ensures g.Meta() <= e.data[c.job.first]
    ensures m.vol.blocks[e.data[c.job.first]] == c.job.OldBlock(c.job.first)
    ensures |c.job.OldBlock(c.job.first)| == g.B
  {
    assert Writing(g, c, m, e, c.job.first, n);
    assert ExtentOK(g, e);
  }

  /**
   * `m1` is `m` with the least free block `b` taken and recorded in inode `i`; metadata blocks may have been rewritten.
   */
  ghost predicate Taken(g: Geo, m: Mem, b: nat, i: nat, n: Inode, m1: Mem) {
    && b in FreeSet(m.vol.bits) && (forall x | x in FreeSet(m.vol.bits) :: b <= x)
    && b < g.N && b / 8 < |m.vol.bits| && i < |m.vol.table|
    && m1 == m.WithBits(UseBit(m.vol.bits, b)).WithInode(i, n).WithBlocks(m1.vol.blocks)
    && SameBut(g, m.vol.blocks, m1.vol.blocks, 0) && Fixed(g, m.vol.blocks, m1.vol.blocks)
  }

  function WithPointer(n: Inode, j: nat, b: nat): Inode
    requires |n.direct| == DIRECT
  {
    if j < DIRECT then n.(direct := n.direct[j := b]) else n
  }

  /** What logical block `j` must hold after the write. */
  ghost function Wanted(g: Geo, c: Call, j: nat): Block {
    Target(g.B, c.job.first, c.job.OldBlock(j), c.job.w, c.job.buf, j)
  }

  /** One logical block stored in a block taken for it. */
  lemma AppendStep(g: Geo, c: Call, m: Mem, e: Extent, j: nat, n: nat, b: nat, m1: Mem, m': Mem)
    requires m in Ongoing(g, c, e, j, n)
    requires |e.data| == j && c.job.first <= j && c.job.i < |m.vol.table| && |m.vol.table[c.job.i].direct| == DIRECT
    requires Taken(g, m, b, c.job.i, WithPointer(m.vol.table[c.job.i], j, b), m1)
    requires m' == m1.WithBlocks(m1.vol.blocks[b := Wanted(g, c, j)])
    ensures m' in Ongoing(g, c, e.(data := e.data + [b]), j + 1, n)
  {
    assert Writing(g, c, m, e, j, n);
    assert b >= g.Meta();
    TakenAndStored(g, m, b, c.job.i, WithPointer(m.vol.table[c.job.i], j, b), m1, Wanted(g, c, j), m');
    var own := StepAppend(g, c.job, m.vol, c.job.own0[c.job.i := e], j, b, m'.vol);
    assert own == c.job.own0[c.job.i := e.(data := e.data + [b])];
    assert Writing(g, c, m', e.(data := e.data + [b]), j + 1, n);
  }

  lemma TakenAndStored(g: Geo, m: Mem, b: nat, i: nat, n: Inode, m1: Mem, data: Block, m': Mem)
    requires Taken(g, m, b, i, n, m1) && b >= g.Meta() && |data| == g.B
    requires m' == m1.WithBlocks(m1.vol.blocks[b := data])
    requires TableFits(m.vol.table) && InodeFits(n)
    ensures SameBut(g, m.vol.blocks, m'.vol.blocks, b) && Fixed(g, m.vol.blocks, m'.vol.blocks)
    ensures m'.vol.bits == UseBit(m.vol.bits, b) && m'.vol.table == m.vol.table[i := n]
    ensures m'.root == m.root && m'.fdt == m.fdt && TableFits(m'.vol.table)
  {
  }

  /** One logical block stored where the file already keeps it. */
  lemma OverStep(g: Geo, c: Call, m: Mem, e: Extent, j: nat, n: nat, m': Mem)
    requires m in Ongoing(g, c, e, j, n)
    requires c.job.first <= j < |e.data| && e.data[j] < |m.vol.blocks|
    requires m' == m.WithBlocks(m.vol.blocks[e.data[j] := Wanted(g, c, j)])
    ensures m' in Ongoing(g, c, e, j + 1, n)
  {
    assert Writing(g, c, m, e, j, n);
    assert g.Meta() <= e.data[j] < g.N;
    StepOver(g, c.job, m.vol, c.job.own0[c.job.i := e], j, m'.vol.blocks);
    assert Writing(g, c, m', e, j + 1, n);
  }

  /** A pointer block taken: it reads as an empty table. */
  lemma TableStep(g: Geo, c: Call, m: Mem, e: Extent, j: nat, n: nat, b: nat, m': Mem)
    requires m in Ongoing(g, c, e, j, n)
    requires e.table == 0 && |e.data| == DIRECT && c.job.TakesTable() && c.job.i < |m.vol.table|
    requires Taken(g, m, b, c.job.i, m.vol.table[c.job.i].(indirect := b), m')
    ensures m' in Ongoing(g, c, e.(table := b), j, n)
    ensures m'.vol.blocks[b] == Zeros(g.B) && b != 0
  {
    assert Writing(g, c, m, e, j, n);
    assert b >= g.Meta();
    var own := StepTable(g, c.job, m.vol, c.job.own0[c.job.i := e], j, b, m'.vol);
    assert own == c.job.own0[c.job.i := e.(table := b)];
    assert TableFits(m'.vol.table);
    assert Writing(g, c, m', e.(table := b), j, n);
  }

  /** Counting the bytes of a stored block. */
  lemma CountStep(g: Geo, c: Call, m: Mem, e: Extent, j: nat, n: nat, k: nat, m': Mem)
    requires m in Ongoing(g, c, e, j, n) && c.fd < |m.fdt|
    requires m' == m.WithFd(c.fd, m.fdt[c.fd].(wptr := m.fdt[c.fd].wptr + k))
    ensures m' in Ongoing(g, c, e, j, n + k)
  {
    hide Target, BlockStart, Beyond, FreeSet, Stored, Avail, AllocOK, FreeZero, Fixed, JobOK;
    assert Writing(g, c, m, e, j, n);
    assert Writing(g, c, m', e, j, n + k);
  }

  /** There is a free block for the next data block. */
  lemma DataRoom(g: Geo, c: Call, m: Mem, e: Extent, j: nat, n: nat)
    requires m in Ongoing(g, c, e, j, n) && |e.data| == j <= c.job.last
    ensures exists x :: x in FreeSet(m.vol.bits) && x < g.N
  {
    assert Writing(g, c, m, e, j, n);
    RoomForData(g, c.job, m.vol, c.job.own0[c.job.i := e], j);
  }

  /** There is a free block for the pointer block. */
  lemma TableRoom(g: Geo, c: Call, m: Mem, e: Extent, j: nat, n: nat)
    requires m in Ongoing(g, c, e, j, n) && e.table == 0 && j <= c.job.last + 1 && c.job.TakesTable()
    ensures exists x :: x in FreeSet(m.vol.bits) && x < g.N
  {
    assert Writing(g, c, m, e, j, n);
    RoomForTable(g, c.job, m.vol, c.job.own0[c.job.i := e], j);
  }

  /** A write about to begin. */
  lemma Begin(g: Geo, c: Call)
    requires JobOK(g, c.job) && c.job.v0 == c.m0.vol && TableFits(c.m0.vol.table)
    requires c.fd < |c.m0.fdt| && c.m0.fdt[c.fd].wptr == c.job.w
    ensures c.m0 in Ongoing(g, c, c.job.Was(), c.job.first, 0)
  {
    NothingStored(g, c.job);
    assert c.job.own0 == c.job.own0[c.job.i := c.job.Was()];
    assert Writing(g, c, c.m0, c.job.Was(), c.job.first, 0);
  }

  /** A call about to do its work: the block numbers count from 1. */
  ghost predicate Called(g: Geo, c: Call, m: Mem, fd: nat, i: nat, buf: seq<byte>,
                         currentblk: nat, endblk: nat, offset: nat) {
    && m == c.m0 && m in Ongoing(g, c, c.job.Was(), c.job.first, 0)
    && JobOK(g, c.job)
    && fd == c.fd && i == c.job.i && buf == c.job.buf
    && currentblk == c.job.first + 1 && endblk == c.job.last + 1
    && offset < g.B && c.job.w == BlockStart(g.B, c.job.first) + offset
  }

  /** The size of file `i` raised to `end`; metadata blocks may have been rewritten. */
  ghost predicate Resized(g: Geo, m: Mem, i: nat, end: nat, m': Mem) {
    && i < |m.vol.table|
    && m' == m.WithInode(i, m.vol.table[i].(size := Max(m.vol.table[i].size, end))).WithBlocks(m'.vol.blocks)
    && SameBut(g, m.vol.blocks, m'.vol.blocks, 0) && Fixed(g, m.vol.blocks, m'.vol.blocks)
  }

  lemma SizeKept(g: Geo, c: Call, m: Mem, e: Extent, j: nat, n: nat)
    requires m in Ongoing(g, c, e, j, n)
    ensures c.job.i < |m.vol.table| == |c.job.v0.table| == |c.job.own0|
    ensures m.vol.table[c.job.i].size == c.job.v0.table[c.job.i].size
    ensures Shape(g, m.vol)
  {
    assert Writing(g, c, m, e, j, n);
  }

  /** The end of a write within the direct blocks. */
  lemma EndDirect(g: Geo, c: Call, m: Mem, e: Extent, m': Mem)
    requires m in Ongoing(g, c, e, c.job.last + 1, |c.job.buf|)
    requires JobOK(g, c.job) && JobFile(g, c.job) && c.job.last < DIRECT
    requires Resized(g, m, c.job.i, c.job.w + |c.job.buf|, m') && MapsStored(g, c, m')
    ensures m' in Finished(g, c)
  {
    hide JobOK, JobFile, Progress, Closed, MapsStored, TableFits, TableOK;
    Known(g, c, m, e, c.job.last + 1, |c.job.buf|);
    SizeKept(g, c, m, e, c.job.last + 1, |c.job.buf|);
    assert Writing(g, c, m, e, c.job.last + 1, |c.job.buf|);
    var own := c.job.own0[c.job.i := e];
    CloseDirect(g, c.job, m.vol, own, m'.vol);
    assert Ended(g, c, m.vol, own, m');
  }

  /**
   * The size and the table `t`, at block `p`, have been stored; block 0, the superblock, is what a missing pointer
   * names.
   */
  ghost predicate TablePut(g: Geo, m: Mem, i: nat, end: nat, p: nat, t: seq<nat>, m': Mem) {
    && i < |m.vol.table| && |t| == g.P && Fits(t) && p < g.N
    && m' == m.WithInode(i, m.vol.table[i].(size := Max(m.vol.table[i].size, end))).WithBlocks(m'.vol.blocks)
    && SameBut(g, m.vol.blocks, m'.vol.blocks, p)
    && (p != 0 ==> Fixed(g, m.vol.blocks, m'.vol.blocks)) && RootKept(g, m.vol.blocks, m'.vol.blocks)
    && m'.vol.blocks[p] == Encode(t)
  }

  /** The inode table and bitmap written out over `m`. */
  ghost predicate MapsWritten(g: Geo, m: Mem, m': Mem) {
    && |m.vol.blocks| == g.N && m' == m.WithBlocks(m'.vol.blocks)
    && SameBut(g, m.vol.blocks, m'.vol.blocks, 0) && Fixed(g, m.vol.blocks, m'.vol.blocks)
    && MapsOK(g, m')
  }

  /** Recording the size, then the table, then the maps. */
  lemma PutTable(g: Geo, m: Mem, i: nat, end: nat, p: nat, t: seq<nat>, m1: Mem, m': Mem)
    requires Shape(g, m.vol) && i < NUM_INODES && |t| == g.P && Fits(t) && p < g.N && (p == 0 || g.Meta() <= p)
    requires Resized(g, m, i, end, m1)
    requires MapsWritten(g, m1.WithBlocks(m1.vol.blocks[p := Encode(t)]), m')
    ensures TablePut(g, m, i, end, p, t, m') && MapsOK(g, m')
  {
    hide BlockStart, Beyond, MapsOK, Fits, Encode;
  }

  /** The end of a write that reached the indirect blocks. */
  lemma EndIndirect(g: Geo, c: Call, m: Mem, e: Extent, t: seq<nat>, m': Mem)
    requires m in Ongoing(g, c, e, c.job.last + 1, |c.job.buf|)
    requires JobOK(g, c.job) && c.job.last >= DIRECT && e.table != 0
    requires Beyond(g.B, |e.data|, NewSize(c.job))
    requires TablePut(g, m, c.job.i, c.job.w + |c.job.buf|, e.table, t, m') && TableOK(g, t, e)
    requires MapsStored(g, c, m')
    ensures m' in Finished(g, c)
  {
    hide JobOK, JobFile, Progress, Closed, MapsStored, TableFits, TableOK;
    Known(g, c, m, e, c.job.last + 1, |c.job.buf|);
    SizeKept(g, c, m, e, c.job.last + 1, |c.job.buf|);
    assert Writing(g, c, m, e, c.job.last + 1, |c.job.buf|);
    var own := c.job.own0[c.job.i := e];
    CloseTable(g, c.job, m.vol, own, m'.vol, t);
    assert Ended(g, c, m.vol, own, m');
  }

  /** The states in which a write outside the domain may end: other files are safe, the volume is not consistent. */
  ghost function Spoilt(g: Geo, c: Call): iset<Mem> {
    iset m: Mem | !WellFormed(g, m.vol) && exists v, own, t :: Left(g, c, v, own, m) && Strewn(g, c, own, t, m)
  }

  /**
   * Where the pointer table `t` of a crossing write has gone: to the pointer block, or, without one, over the
   * superblock. Either way it is where a read looks for it.
   */
  ghost predicate Strewn(g: Geo, c: Call, own: seq<Extent>, t: seq<nat>, m: Mem) {
    && MapsOK(g, m) && RootKept(g, c.m0.vol.blocks, m.vol.blocks)
    && c.job.i < |own| && c.job.last >= DIRECT
    && |t| == g.P && Fits(t) && TableOK(g, t, own[c.job.i])
    && TableAt(g, m.vol.blocks, own[c.job.i].table) == t
    && m.vol.blocks[0] == if own[c.job.i].table == 0 then Encode(t) else c.m0.vol.blocks[0]
  }

  /** All blocks stored, size and table recorded; whether that is consistent is another matter. */
  ghost predicate Left(g: Geo, c: Call, v: Volume, own: seq<Extent>, m: Mem) {
    && c.job.v0 == c.m0.vol && Settled(g, c.job, v, own, m.vol)
    && m.root == c.m0.root
    && c.fd < |c.m0.fdt| && m.fdt == c.m0.fdt[c.fd := c.m0.fdt[c.fd].(wptr := c.job.w + |c.job.buf|)]
  }

  /** The table is where a read looks for it. */
  lemma TableStrewn(g: Geo, c: Call, m: Mem, e: Extent, t: seq<nat>, m': Mem)
    requires m in Ongoing(g, c, e, c.job.last + 1, |c.job.buf|) && c.job.last >= DIRECT
    requires TablePut(g, m, c.job.i, c.job.w + |c.job.buf|, e.table, t, m') && TableOK(g, t, e) && MapsOK(g, m')
    ensures c.job.i < |c.job.own0| && Strewn(g, c, c.job.own0[c.job.i := e], t, m')
  {
    hide JobOK, Progress, TableFits, TableOK, TableWritten, Fits, TableAt, BlockStart, Beyond;
    Known(g, c, m, e, c.job.last + 1, |c.job.buf|);
    assert Writing(g, c, m, e, c.job.last + 1, |c.job.buf|);
    PointersStored(g, m'.vol.blocks, e.table, t);
  }

  /** The end of a write that took no pointer block, or that forgot blocks of its file. */
  lemma EndSpoilt(g: Geo, c: Call, m: Mem, e: Extent, t: seq<nat>, m': Mem)
    requires m in Ongoing(g, c, e, c.job.last + 1, |c.job.buf|)
    requires JobOK(g, c.job) && c.job.last >= DIRECT
    requires TablePut(g, m, c.job.i, c.job.w + |c.job.buf|, e.table, t, m') && TableOK(g, t, e)
    requires (e.table == 0 || Forgets(g, c.job)) && MapsOK(g, m')
    ensures m' in Spoilt(g, c)
  {
    hide JobOK, JobFile, Progress, Settled, TableFits, TableOK, Bystanders, TableWritten, Fits, TableAt;
    Known(g, c, m, e, c.job.last + 1, |c.job.buf|);
    SizeKept(g, c, m, e, c.job.last + 1, |c.job.buf|);
    assert Writing(g, c, m, e, c.job.last + 1, |c.job.buf|);
    var own := c.job.own0[c.job.i := e];
    SettledNow(g, c, m, e, m');
    assert Left(g, c, m.vol, own, m');
    TableStrewn(g, c, m, e, t, m');
    if e.table == 0 {
      NoPointerBlock(g, c.job, m.vol, own, m'.vol);
    } else {
      var b: nat :| b in c.job.lost && g.Meta() <= b < g.N;
      BlockLost(g, c.job, m.vol, own, m'.vol, b);
    }
  }

  /** How a write that crossed into the indirect blocks ends. */
  lemma CrossingEnds(g: Geo, c: Call, m: Mem, e: Extent, t: seq<nat>, m': Mem)
    requires m in Ongoing(g, c, e, c.job.last + 1, |c.job.buf|)
    requires JobOK(g, c.job) && c.job.last >= DIRECT
    requires TablePut(g, m, c.job.i, c.job.w + |c.job.buf|, e.table, t, m') && TableOK(g, t, e)
    requires |c.m0.vol.blocks| == g.N && MapsOK(g, m')
    ensures e.table != 0 && JobFile(g, c.job) ==> m' in Finished(g, c)
    ensures e.table == 0 || Forgets(g, c.job) ==> m' in Spoilt(g, c)
  {
    hide Ongoing, Finished, Spoilt, Forgets, JobOK, JobFile, TablePut, TableOK, MapsOK, MapsStored, Beyond;
    if e.table != 0 && JobFile(g, c.job) {
      EndCount(g, c, m, e, |c.job.buf|);
      MapsFresh(g, c, m');
      EndIndirect(g, c, m, e, t, m');
    }
    if e.table == 0 || Forgets(g, c.job) {
      EndSpoilt(g, c, m, e, t, m');
    }
  }

  lemma SettledNow(g: Geo, c: Call, m: Mem, e: Extent, m': Mem)
    requires m in Ongoing(g, c, e, c.job.last + 1, |c.job.buf|) && JobOK(g, c.job)
    requires |m'.vol.table| == |m.vol.table| && c.job.i < |m.vol.table|
      && SameBut(g, m.vol.blocks, m'.vol.blocks, e.table)
    requires m'.vol.bits == m.vol.bits
    requires var n := m.vol.table[c.job.i];
             m'.vol.table == m.vol.table[c.job.i := n.(size := Max(n.size, c.job.w + |c.job.buf|))]
    ensures Settled(g, c.job, m.vol, c.job.own0[c.job.i := e], m'.vol)
  {
    hide Target, BlockStart, Beyond, FreeSet, Stored, Avail, FreeZero, Fixed, Disjoint, Owned, Grown, DirectOK, Spans;
    assert Writing(g, c, m, e, c.job.last + 1, |c.job.buf|);
  }

  /** The block count agrees with the size when the file was consistent before. */
  lemma EndCount(g: Geo, c: Call, m: Mem, e: Extent, n: nat)
    requires m in Ongoing(g, c, e, c.job.last + 1, n)
    requires JobOK(g, c.job) && JobFile(g, c.job)
    ensures Beyond(g.B, |e.data|, NewSize(c.job))
  {
    hide Target, BlockStart, Beyond, FreeSet, Stored, Avail, AllocOK, FreeZero, Fixed;
    Known(g, c, m, e, c.job.last + 1, n);
    CountGrows(g, c.job);
  }

  /** The pointer block of the file is a data block, and its table fits a block. */
  lemma KnownTable(g: Geo, c: Call, m: Mem, e: Extent, j: nat, n: nat, t: seq<nat>)
    requires m in Ongoing(g, c, e, j, n) && |t| == g.P && TableOK(g, t, e)
    ensures e.table < g.N && Fits(t) && (e.table != 0 ==> g.Meta() <= e.table)
  {
    assert Writing(g, c, m, e, j, n);
    assert ExtentOK(g, e);
    TableFitsWords(g, t, e);
  }

  /** The pointer table of the file at the start of the write. */
  lemma TableAtStart(g: Geo, c: Call, t: seq<nat>)
    requires JobOK(g, c.job) && JobFile(g, c.job) && c.job.v0 == c.m0.vol && c.job.Was().table != 0
    requires c.job.Was().table < |c.m0.vol.blocks| && |c.m0.vol.blocks[c.job.Was().table]| >= 4 * g.P
    requires t == Decode(c.m0.vol.blocks[c.job.Was().table], g.P)
    ensures TableOK(g, t, c.job.Was())
  {
    TableRead(g, c.job);
  }

  /** A file with more than the direct blocks has a pointer block; a call starts in its volume. */
  lemma HasTable(g: Geo, c: Call)
    requires c.m0 in Ongoing(g, c, c.job.Was(), c.job.first, 0)
    requires JobOK(g, c.job) && JobFile(g, c.job)
    ensures c.job.v0 == c.m0.vol && Shape(g, c.m0.vol) && c.job.i < |c.m0.vol.table|
    ensures c.m0.vol.table[c.job.i].indirect == c.job.Was().table < g.N
    ensures |c.job.Was().data| > DIRECT <==> c.job.Was().table != 0
  {
    assert Writing(g, c, c.m0, c.job.Was(), c.job.first, 0);
    assert ExtentOK(g, c.job.Was());
  }

  /** Before its first write a file has size 0. */
  lemma FreshSize(g: Geo, c: Call, m: Mem, e: Extent, j: nat, n: nat)
    requires m in Ongoing(g, c, e, j, n) && JobOK(g, c.job) && JobFile(g, c.job)
    requires c.job.Was().data == []
    ensures c.job.i < |m.vol.table| && m.vol.table[c.job.i].size == 0
  {
    SizeKept(g, c, m, e, j, n);
  }

  /** Metadata blocks other than the superblock and the directory may be rewritten at any time. */
  lemma RewriteStep(g: Geo, c: Call, m: Mem, e: Extent, j: nat, n: nat, m': Mem)
    requires m in Ongoing(g, c, e, j, n)
    requires m' == m.WithBlocks(m'.vol.blocks)
    requires SameBut(g, m.vol.blocks, m'.vol.blocks, 0) && Fixed(g, m.vol.blocks, m'.vol.blocks)
    ensures m' in Ongoing(g, c, e, j, n)
  {
    hide Target, BlockStart, Beyond, FreeSet, Avail, FreeZero, Disjoint, Owned, Grown, DirectOK, Spans;
    assert Writing(g, c, m, e, j, n);
    assert Writing(g, c, m', e, j, n);
  }

  /** Only data blocks and descriptors differ. */
  ghost predicate MetaSame(g: Geo, m: Mem, m': Mem) {
    && m'.vol.bits == m.vol.bits && m'.vol.table == m.vol.table
    && |m.vol.blocks| == |m'.vol.blocks| == g.N
    && forall b | 0 <= b < g.Meta() :: m'.vol.blocks[b] == m.vol.blocks[b]
  }

  lemma MapsUntouched(g: Geo, m: Mem, m': Mem)
    requires MetaSame(g, m, m')
    ensures TableUntouched(g, m.vol, m'.vol) && BitmapStored(g, m, m')
  {
    ReadFrame(m.vol.blocks, m'.vol.blocks, 1, g.T);
  }

  /** The directory, and inode 0 naming its blocks, have been written over `m0`; the other inodes are unused. */
  ghost predicate DirectoryWritten(g: Geo, m0: Mem, m: Mem) {
    && Shape(g, m.vol) && m == m0.WithBlocks(m.vol.blocks).WithTable(m.vol.table)
    && SameBut(g, m0.vol.blocks, m.vol.blocks, 0)
    && m.vol.blocks[0] == m0.vol.blocks[0] && m.vol.blocks[g.T + 1] == m0.vol.blocks[g.T + 1]
    && RootInodeOK(g, m.vol.table[0]) && InodeFits(m.vol.table[0])
    && (forall i | 1 <= i < NUM_INODES :: m.vol.table[i] == FREE_INODE)
    && RootOnDisk(g, m.vol.blocks) == m.root && TableWritten(g, m.vol)
  }

  /** Writing the directory leaves the bitmap and the data blocks alone. */
  lemma DirectoryKeeps(g: Geo, m0: Mem, m: Mem)
    requires DirectoryWritten(g, m0, m) && |m0.vol.blocks| == g.N
    requires forall b | g.Meta() <= b < g.N :: m0.vol.blocks[b] == Zeros(g.B)
    ensures Shape(g, m.vol) && TableWritten(g, m.vol) && m.vol.bits == m0.vol.bits
    ensures forall b | g.Meta() <= b < g.N :: m.vol.blocks[b] == Zeros(g.B)
  {
    hide BlockStart, Beyond, RootOnDisk, TableWritten;
  }

  /** A freshly formatted volume. */
  lemma FormatGood(g: Geo, sb: Block, m0: Mem, m: Mem)
    requires |m.root| == |m.fdt| == NUM_INODES && |m0.vol.blocks| == g.N && DirectoryWritten(g, m0, m)
    requires forall x: nat :: x in FreeSet(m0.vol.bits) <==> g.Meta() <= x < 8 * g.S
    requires forall b | g.Meta() <= b < g.N :: m0.vol.blocks[b] == Zeros(g.B)
    requires forall i | 0 <= i < NUM_INODES :: m.root[i] == FREE_ENTRY && m.fdt[i] == FREE_FD
    requires m0.vol.blocks[0] == sb && m0.vol.blocks[g.T + 1] == Fit(m0.vol.bits, g.B)
    ensures Good(g, sb, m, 0)
  {
    hide BlockStart, Beyond, WellFormed, InStep, DirOK, RootInodeOK, DirectoryWritten, FreeSet, Fit;
    FormatVolume(g, m0, m);
    FormatStep(g, sb, m0, m);
    FormatDir(g, m0, m);
  }

  lemma FormatVolume(g: Geo, m0: Mem, m: Mem)
    requires |m0.vol.blocks| == g.N && DirectoryWritten(g, m0, m)
    requires forall x: nat :: x in FreeSet(m0.vol.bits) <==> g.Meta() <= x < 8 * g.S
    requires forall b | g.Meta() <= b < g.N :: m0.vol.blocks[b] == Zeros(g.B)
    ensures WellFormed(g, m.vol)
  {
    hide BlockStart, Beyond, RootInodeOK, RootOnDisk, TableWritten, FreeSet;
    var own := Owners(g, m.vol);
    forall i | 0 <= i < NUM_INODES ensures own[i] == Extent([], 0) {
    }
  }

  lemma FormatStep(g: Geo, sb: Block, m0: Mem, m: Mem)
    requires |m.root| == NUM_INODES && |m0.vol.blocks| == g.N && DirectoryWritten(g, m0, m)
    requires forall i | 0 <= i < NUM_INODES :: m.root[i] == FREE_ENTRY
    requires m0.vol.blocks[0] == sb && m0.vol.blocks[g.T + 1] == Fit(m0.vol.bits, g.B)
    ensures InStep(g, sb, m)
  {
    hide BlockStart, Beyond, RootInodeOK, RootOnDisk, FreeSet, Fit, TableBytes, TableFrom;
    RegionSizes(g);
    TableReload(m.vol.table, BlockStart(g.B, g.T));
  }

  lemma FormatDir(g: Geo, m0: Mem, m: Mem)
    requires |m.root| == |m.fdt| == NUM_INODES && DirectoryWritten(g, m0, m)
    requires forall i | 0 <= i < NUM_INODES :: m.root[i] == FREE_ENTRY && m.fdt[i] == FREE_FD
    ensures DirOK(m, 0) && RootInodeOK(g, m.vol.table[0])
  {
    hide BlockStart, Beyond, RootOnDisk, TableWritten;
  }
}
