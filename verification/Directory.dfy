/** Names, descriptors and the table on disk: what open, close, seek and reload rely on. */
module Directory {
  import opened Arith
  import opened Codec
  import opened DiskEmu
  import opened FreeMap
  import opened Layout
  import opened Metadata
  import opened Transfer
  import opened State
  import opened FlatFs
  import opened WriteCall

  // ----- moving a cursor -----

  /** A descriptor changed within the bounds of its file keeps everything consistent, and changes only that file. */
  lemma CursorMoved(g: Geo, sb: Block, m: Mem, files: nat, k: nat, f: Fd, m': Mem)
    requires Good(g, sb, m, files) && k < files && m' == m.WithFd(k, f)
    requires f.inode == m.fdt[k].inode && f.rwptr <= m.vol.table[k + 1].size && f.wptr <= m.vol.table[k + 1].size
    ensures Good(g, sb, m', files)
    ensures FilesOf(g, m', files)
         == FilesOf(g, m, files)[k := FileAt(g, m, k).(rpos := f.rwptr, wpos := f.wptr, open := f.open)]
  {
    hide BlockStart, Beyond, WellFormedBut, Content, ShortName, TableOnDisk, RootOnDisk, FreeSet, Fit;
    forall x | 0 <= x < files
      ensures FileAt(g, m', x) == if x == k then FileAt(g, m, k).(rpos := f.rwptr, wpos := f.wptr, open := f.open)
                                  else FileAt(g, m, x)
    {
    }
  }

  // ----- creating a file -----

  /** Inodes that lay out the same blocks. */
  predicate SameLayout(a: Inode, b: Inode) {
    a.size == b.size && a.direct == b.direct && a.indirect == b.indirect
  }

  /** Only metadata blocks and `used` flags differ. */
  ghost predicate SameData(g: Geo, v: Volume, v': Volume) {
    && Shape(g, v) && Shape(g, v') && v'.bits == v.bits
    && (forall b | g.Meta() <= b < g.N :: v'.blocks[b] == v.blocks[b])
    && forall i | 1 <= i < NUM_INODES :: SameLayout(v.table[i], v'.table[i])
  }

  /** A file's extent and bytes depend on its data blocks and pointers only. */
  lemma FileFrame(g: Geo, v: Volume, v': Volume, i: nat)
    requires WellFormed(g, v) && SameData(g, v, v') && 1 <= i < NUM_INODES
    ensures Owners(g, v')[i] == Owners(g, v)[i] && InodeOK(g, v'.blocks, v'.table[i])
    ensures Content(g, v', i) == Content(g, v, i)
  {
    hide BlockStart, Beyond, FreeSet;
    var n, n' := v.table[i], v'.table[i];
    var e := Owners(g, v)[i];
    assert ExtentOK(g, e) && e == ExtentOf(g, v.blocks, n);
    ExtentFrame(g, v.blocks, v'.blocks, n);
    assert ExtentOf(g, v'.blocks, n') == ExtentOf(g, v'.blocks, n);
    BytesFrame(g.B, v.blocks, v'.blocks, e.data, n.size);
  }

  /** Rewriting metadata blocks and used flags keeps a volume consistent and every file as it was. */
  lemma VolumeFrame(g: Geo, v: Volume, v': Volume)
    requires WellFormed(g, v) && SameData(g, v, v')
    ensures WellFormed(g, v')
    ensures forall i | 1 <= i < NUM_INODES :: Content(g, v', i) == Content(g, v, i)
  {
    hide BlockStart, Beyond, Content, InodeOK, ExtentOf, FreeSet;
    forall i | 1 <= i < NUM_INODES
      ensures Owners(g, v')[i] == Owners(g, v)[i] && InodeOK(g, v'.blocks, v'.table[i])
      ensures Content(g, v', i) == Content(g, v, i)
    {
      FileFrame(g, v, v', i);
    }
    assert Owners(g, v') == Owners(g, v);
    assert forall b | b in FreeSet(v.bits) && 0 <= b < g.N :: b >= g.Meta();
  }

  /** `m'` is `m` with one more file, its directory entry stored on disk. */
  ghost predicate Created(g: Geo, m: Mem, files: nat, name: seq<byte>, m': Mem) {
    && files + 1 < NUM_INODES && |m.root| == |m.fdt| == |m.vol.table| == NUM_INODES
    && m' == Mem(m.vol.(blocks := m'.vol.blocks, table := m.vol.table[files + 1 := FREE_INODE.(used := true)]),
                 m.root[files := DirEntry(files + 1, name)],
                 m.fdt[files := Fd(files + 1, 0, 0, true)])
    && |m.vol.blocks| == |m'.vol.blocks| == g.N && AllSized(g.B, m'.vol.blocks)
    && (forall b | 0 <= b < g.N && !(g.T + 2 <= b < g.Meta()) :: m'.vol.blocks[b] == m.vol.blocks[b])
    && RootOnDisk(g, m'.vol.blocks) == m'.root
  }

  /** A created file is one more, empty file; nothing else changes. */
  lemma CreatedFile(g: Geo, sb: Block, m: Mem, files: nat, name: seq<byte>, m': Mem)
    requires Good(g, sb, m, files) && Created(g, m, files, name, m')
    requires name != [] && ShortName(name) && forall k | 0 <= k < files :: m.root[k].name != name
    ensures Good(g, sb, m', files + 1)
    ensures FilesOf(g, m', files + 1) == FilesOf(g, m, files) + [File(name, false, [], 0, 0, true, false)]
  {
    hide BlockStart, Beyond, Content, ShortName, FreeSet, Fit, TableOnDisk, RootOnDisk, Owners;
    assert SameData(g, m.vol, m'.vol);
    VolumeFrame(g, m.vol, m'.vol);
    ReadFrame(m.vol.blocks, m'.vol.blocks, 1, g.T);
    CreatedStep(g, sb, m, files, name, m');
    NotRecorded(g, sb, m, files);
    forall k | 0 <= k < files ensures FileAt(g, m', k) == FileAt(g, m, k) {
    }
  }

  lemma CreatedStep(g: Geo, sb: Block, m: Mem, files: nat, name: seq<byte>, m': Mem)
    requires InStep(g, sb, m) && Created(g, m, files, name, m') && DirOK(m, files) && ShortName(name)
    requires Shape(g, m'.vol) && ReadRange(m'.vol.blocks, 1, g.T) == ReadRange(m.vol.blocks, 1, g.T)
    ensures InStep(g, sb, m') && TableOnDisk(g, m'.vol.blocks) == TableOnDisk(g, m.vol.blocks)
  {
    hide BlockStart, Beyond, ShortName, FreeSet, Fit, RootOnDisk;
    assert TableOnDisk(g, m'.vol.blocks) == TableOnDisk(g, m.vol.blocks);
  }

  /** On disk, the next inode is still unused. */
  lemma NotRecorded(g: Geo, sb: Block, m: Mem, files: nat)
    requires Good(g, sb, m, files) && files + 1 < NUM_INODES
    ensures Shape(g, m.vol) && TableOnDisk(g, m.vol.blocks)[files + 1] == FREE_INODE
  {
    hide BlockStart, Beyond, WellFormedBut, RootOnDisk, TableOnDisk, ShortName, FreeSet, Fit;
    GoodShape(g, sb, m, files);
  }

  /** The inodes in use are the first ones. */
  lemma UsedInodes(m: Mem, files: nat)
    requires DirOK(m, files)
    ensures forall i | 0 <= i <= files :: m.vol.table[i].used
    ensures files + 1 < NUM_INODES ==> m.vol.table[files + 1] == FREE_INODE
  {
    hide ShortName;
    forall i | 1 <= i <= files ensures m.vol.table[i].used {
      assert FileOK(m.root[i - 1], m.vol.table[(i - 1) + 1], m.fdt[i - 1], i - 1);
    }
  }

  lemma UsedDescriptors(m: Mem, files: nat)
    requires DirOK(m, files)
    ensures m.fdt[files] == FREE_FD
    ensures forall k | 0 <= k < files :: m.fdt[k].inode != NO_INODE
  {
    hide ShortName;
    forall k | 0 <= k < files ensures m.fdt[k].inode != NO_INODE {
      assert FileOK(m.root[k], m.vol.table[k + 1], m.fdt[k], k);
    }
  }

  /**
   * What opening `name` does to a consistent system: a long name is refused; an existing file gives its own descriptor
   * again, reading from the beginning and writing at the end if it was closed; a new one gets the next directory slot,
   * inode and descriptor; and a tenth file gets a descriptor that names no inode.
   */
  ghost predicate OpenMeets(g: Geo, sb: Block, m: Mem, files: nat, name: seq<byte>, r: int, m': Mem, files': nat)
    requires Good(g, sb, m, files)
  {
    if |name| > MAX_FILE_NAME then
      r == -1 && m' == m && files' == files
    else if exists k :: 0 <= k < files && m.root[k].name == name then
      && 0 <= r < files && m.root[r].name == name && files' == files && Good(g, sb, m', files)
      && m' == (if m.fdt[r].open then m else m.(fdt := m.fdt[r := Fd(r + 1, 0, m.vol.table[r + 1].size, true)]))
      && FilesOf(g, m', files) == FilesOf(g, m, files)[r := Reopened(FileAt(g, m, r))]
    else if files < NUM_INODES - 1 then
      && r == files && files' == files + 1 && Good(g, sb, m', files')
      && m'.root == m.root[r := DirEntry(r + 1, name)] && m'.fdt == m.fdt[r := Fd(r + 1, 0, 0, true)]
      && m'.vol.bits == m.vol.bits
      && m'.vol.table == m.vol.table[r + 1 := Inode(true, 0, [0, 0, 0, 0, 0, 0, 0, 0, 0, 0, 0, 0], 0)]
      && (forall b | 0 <= b < g.N && !(g.T + 2 <= b < g.Meta()) :: m'.vol.blocks[b] == m.vol.blocks[b])
      && FilesOf(g, m', files') == FilesOf(g, m, files) + [File(name, false, [], 0, 0, true, false)]
    else
      && r == files && files' == files && m' == m.WithFd(files, Fd(NUM_INODES, 0, 0, true))
      && !Good(g, sb, m', files)
  }

  lemma OpenedAgain(g: Geo, sb: Block, m: Mem, files: nat, k: nat)
    requires Good(g, sb, m, files) && k < files && m.fdt[k].open
    ensures FilesOf(g, m, files) == FilesOf(g, m, files)[k := Reopened(FileAt(g, m, k))]
  {
    hide BlockStart, Beyond, WellFormedBut, Content;
  }

  lemma ReopenMeets(g: Geo, sb: Block, m: Mem, files: nat, name: seq<byte>, i: nat, m': Mem)
    requires Good(g, sb, m, files) && i < files && m.root[i].name == name && |name| <= MAX_FILE_NAME
    requires m' == if m.fdt[i].open then m else m.WithFd(i, Fd(i + 1, 0, m.vol.table[i + 1].size, true))
    ensures OpenMeets(g, sb, m, files, name, i, m', files)
  {
    hide BlockStart, Beyond, WellFormed, InStep, DirOK, Content, Recorded, ShortName, RootInodeOK;
    GoodKnown(g, sb, m, files, i);
    if m.fdt[i].open {
      OpenedAgain(g, sb, m, files, i);
    } else {
      CursorMoved(g, sb, m, files, i, Fd(i + 1, 0, m.vol.table[i + 1].size, true), m');
    }
  }

  lemma CreateMeets(g: Geo, sb: Block, m: Mem, files: nat, name: seq<byte>, m': Mem)
    requires Good(g, sb, m, files) && Created(g, m, files, name, m')
    requires name != [] && ShortName(name) && forall k | 0 <= k < files :: m.root[k].name != name
    ensures OpenMeets(g, sb, m, files, name, files, m', files + 1)
  {
    hide BlockStart, Beyond, WellFormed, InStep, DirOK, FilesOf, RootInodeOK;
    CreatedFile(g, sb, m, files, name, m');
  }

  lemma LongMeets(g: Geo, sb: Block, m: Mem, files: nat, name: seq<byte>)
    requires Good(g, sb, m, files) && |name| > MAX_FILE_NAME
    ensures OpenMeets(g, sb, m, files, name, -1, m, files)
  {
  }

  lemma TenthMeets(g: Geo, sb: Block, m: Mem, files: nat, name: seq<byte>, m': Mem)
    requires Good(g, sb, m, files) && files == NUM_INODES - 1 && m' == m.WithFd(files, Fd(NUM_INODES, 0, 0, true))
    requires name != [] && ShortName(name) && forall k | 0 <= k < files :: m.root[k].name != name
    ensures OpenMeets(g, sb, m, files, name, files, m', files)
  {
    hide BlockStart, Beyond, WellFormed, InStep, FilesOf, RootInodeOK;
    assert m'.fdt[files] != FREE_FD;
  }

  // ----- reload -----

  /** The state a reload finds on disk; the descriptors stay in memory. */
  ghost function Reloaded(g: Geo, m: Mem): Mem
    requires |m.vol.blocks| == g.N && AllSized(g.B, m.vol.blocks)
  {
    m.WithTable(TableOnDisk(g, m.vol.blocks))
  }

  /** What the metadata blocks of a consistent system hold. */
  lemma OnDisk(g: Geo, sb: Block, m: Mem, files: nat, super: Block, tableBytes: seq<byte>, mapBytes: Block,
               rootBytes: seq<byte>)
    requires Good(g, sb, m, files) && super == m.vol.blocks[0] && mapBytes == m.vol.blocks[g.T + 1]
    requires tableBytes == ReadRange(m.vol.blocks, 1, g.T) && rootBytes == ReadRange(m.vol.blocks, g.T + 2, g.R)
    ensures super == sb && |mapBytes| >= g.S && mapBytes[..g.S] == m.vol.bits
    ensures |tableBytes| >= INODE_BYTES * NUM_INODES && TableFrom(tableBytes) == TableOnDisk(g, m.vol.blocks)
    ensures |rootBytes| >= ENTRY_BYTES * NUM_INODES && RootFrom(rootBytes) == m.root
  {
    hide BlockStart, Beyond, WellFormedBut, DirOK, TableFrom, RootFrom, FreeSet;
    RegionSizes(g);
    ReadRangeLength(g.B, m.vol.blocks, 1, g.T);
    ReadRangeLength(g.B, m.vol.blocks, g.T + 2, g.R);
  }

  /**
   * A reload gives back the whole state exactly when every inode has been recorded, and a file that has been written
   * always is. Which files those are follows from the calls made: `FlatMachine.Step` keeps account of it.
   */
  lemma ReloadIff(g: Geo, sb: Block, m: Mem, files: nat)
    requires Good(g, sb, m, files)
    ensures Reloaded(g, m) == m <==> forall f | f in FilesOf(g, m, files) :: f.stored
    ensures forall f | f in FilesOf(g, m, files) && f.written :: f.stored
    ensures forall k | 0 <= k < files && !FileAt(g, m, k).stored :: !Reloaded(g, m).vol.table[k + 1].used
  {
    hide BlockStart, Beyond, WellFormedBut, RootOnDisk, TableOnDisk, ShortName, FreeSet, Fit, Content;
    GoodShape(g, sb, m, files);
    var t, d, fs := m.vol.table, TableOnDisk(g, m.vol.blocks), FilesOf(g, m, files);
    forall i | 0 <= i < NUM_INODES && !(1 <= i <= files) ensures d[i] == t[i] {
    }
    forall k | 0 <= k < files ensures fs[k].stored <==> d[k + 1] == t[k + 1] {
    }
    if forall f | f in fs :: f.stored {
      forall i | 0 <= i < NUM_INODES ensures d[i] == t[i] {
        if 1 <= i <= files {
          assert fs[i - 1] in fs;
        }
      }
      assert d == t;
    }
  }

  /**
   * Inode by inode: a reload gives back those that are stored, and those that belong to no file; a file that is not
   * stored loses its inode. The files that are stored keep their contents.
   */
  lemma ReloadGives(g: Geo, sb: Block, m: Mem, files: nat)
    requires Good(g, sb, m, files)
    ensures Shape(g, m.vol) && Shape(g, Reloaded(g, m).vol) && |m.root| == |m.fdt| == NUM_INODES && files < NUM_INODES
    ensures forall i | 0 <= i < NUM_INODES :: Reloaded(g, m).vol.table[i] ==
              if i == 0 || i > files || FileAt(g, m, i - 1).stored then m.vol.table[i]
              else Inode(false, 0, [0, 0, 0, 0, 0, 0, 0, 0, 0, 0, 0, 0], 0)
    ensures forall k | 0 <= k < files && FileAt(g, m, k).stored ::
              Content(g, Reloaded(g, m).vol, k + 1) == FileAt(g, m, k).data
  {
    hide BlockStart, Beyond, WellFormedBut, RootOnDisk, TableOnDisk, ShortName, FreeSet, Fit, ExtentOf, Bytes;
    GoodShape(g, sb, m, files);
  }

  // ----- releasing blocks -----

  /** The data blocks behind the first `k` direct pointers. */
  ghost function DirectBlocks(n: Inode, k: nat): set<nat>
    requires |n.direct| == DIRECT && k <= DIRECT
  {
    set j | 0 <= j < k && n.direct[j] != 0 :: n.direct[j]
  }

  /** The first `k` direct pointers of file `i` released: their blocks are cleared and free, the pointers are 0. */
  ghost predicate Released(g: Geo, m: Mem, i: nat, k: nat, m': Mem)
    requires Shape(g, m.vol) && i < NUM_INODES && k <= DIRECT
  {
    var n, gone := m.vol.table[i], DirectBlocks(m.vol.table[i], k);
    && Shape(g, m'.vol) && Fixed(g, m.vol.blocks, m'.vol.blocks) && BitmapStored(g, m, m')
    && ReadRange(m'.vol.blocks, 1, g.T) == ReadRange(m.vol.blocks, 1, g.T)
    && m'.root == m.root && m'.fdt == m.fdt
    && m'.vol.table == m.vol.table[i := m'.vol.table[i]]
    && m'.vol.table[i] == n.(direct := seq(k, _ => 0) + n.direct[k..])
    && FreeSet(m'.vol.bits) == FreeSet(m.vol.bits) + gone
    && forall b | g.Meta() <= b < g.N :: m'.vol.blocks[b] == if b in gone then Zeros(g.B) else m.vol.blocks[b]
  }

  /** One more direct pointer released. */
  lemma ReleaseStep(g: Geo, m: Mem, i: nat, k: nat, m1: Mem, m2: Mem)
    requires Shape(g, m.vol) && i < NUM_INODES && k < DIRECT && Released(g, m, i, k, m1)
    requires var b := m.vol.table[i].direct[k];
             b == 0 || g.Meta() <= b < g.N
    requires var b := m.vol.table[i].direct[k];
             if b == 0 then m2 == m1
             else && b / 8 < |m1.vol.bits| && Fixed(g, m1.vol.blocks, m2.vol.blocks)
                  && ReadRange(m2.vol.blocks, 1, g.T) == ReadRange(m1.vol.blocks, 1, g.T)
                  && m2.vol.blocks[g.T + 1] == Fit(m2.vol.bits, g.B)
                  && m2 == m1.WithBits(FreeBit(m1.vol.bits, b)).WithBlocks(m2.vol.blocks)
                             .WithInode(i, m1.vol.table[i].(direct := m1.vol.table[i].direct[k := 0]))
                  && forall x | g.Meta() <= x < g.N ::
                       m2.vol.blocks[x] == if x == b then Zeros(g.B) else m1.vol.blocks[x]
    ensures Released(g, m, i, k + 1, m2)
  {
    hide BlockStart, Beyond, FreeSet, FreeBit, Fit, ReadRange;
    var n := m.vol.table[i];
    var b := n.direct[k];
    assert DirectBlocks(n, k + 1) == DirectBlocks(n, k) + if b == 0 then {} else {b};
    if b != 0 {
      FreeAdds(m1.vol.bits, b);
    }
    assert m2.vol.table[i].direct == seq(k + 1, _ => 0) + n.direct[k + 1..];
  }

  lemma ReleaseBegin(g: Geo, m: Mem, i: nat)
    requires WellFormed(g, m.vol) && 1 <= i < NUM_INODES
    ensures Shape(g, m.vol) && Released(g, m, i, 0, m)
    ensures forall k | 0 <= k < DIRECT :: m.vol.table[i].direct[k] == 0 || g.Meta() <= m.vol.table[i].direct[k] < g.N
  {
    hide BlockStart, Beyond, FreeSet;
    var n := m.vol.table[i];
    assert n.direct == seq(0, _ => 0) + n.direct[0..];
    assert m.vol.table == m.vol.table[i := n];
    assert DirectBlocks(n, 0) == {};
    FileKnown(g, m.vol, i);
  }

  /** What one step of the release loop may rely on. */
  lemma ReleaseKnown(g: Geo, m: Mem, i: nat, k: nat, m1: Mem)
    requires Shape(g, m.vol) && i < NUM_INODES && k < DIRECT && Released(g, m, i, k, m1)
    ensures |m1.vol.table| == NUM_INODES && |m1.vol.table[i].direct| == DIRECT
    ensures m1.vol.table[i].direct[k] == m.vol.table[i].direct[k] && |m1.vol.bits| == g.S
  {
  }

  /** The end of the loop, pointer by pointer and block by block. */
  lemma ReleaseEnd(g: Geo, m: Mem, i: nat, m': Mem)
    requires WellFormed(g, m.vol) && 1 <= i < NUM_INODES && Released(g, m, i, DIRECT, m')
    ensures m'.vol.table == m.vol.table[i := m.vol.table[i].(direct := [0, 0, 0, 0, 0, 0, 0, 0, 0, 0, 0, 0])]
    ensures forall x :: x in FreeSet(m'.vol.bits) <==>
              x in FreeSet(m.vol.bits) || (x != 0 && x in m.vol.table[i].direct)
    ensures forall b | g.Meta() <= b < g.N ::
              m'.vol.blocks[b] == if b in m.vol.table[i].direct then Zeros(g.B) else m.vol.blocks[b]
    ensures m' == m.WithBlocks(m'.vol.blocks).WithBits(m'.vol.bits).WithTable(m'.vol.table)
  {
    hide BlockStart, Beyond, FreeSet, Fit, ReadRange, AllocOK, FreeZero, InodeOK;
    var n := m.vol.table[i];
    assert seq(DIRECT, _ => 0) + n.direct[DIRECT..] == [0, 0, 0, 0, 0, 0, 0, 0, 0, 0, 0, 0];
    forall b ensures b in DirectBlocks(n, DIRECT) <==> b != 0 && b in n.direct {
    }
  }

  /** Another file keeps its blocks and bytes when one is released. */
  lemma ReleaseOther(g: Geo, m: Mem, i: nat, m': Mem, x: nat)
    requires WellFormed(g, m.vol) && 1 <= i < NUM_INODES && Released(g, m, i, DIRECT, m')
    requires 1 <= x < NUM_INODES && x != i
    ensures Owners(g, m'.vol)[x] == Owners(g, m.vol)[x] && Content(g, m'.vol, x) == Content(g, m.vol, x)
  {
    hide BlockStart, Beyond, FreeSet;
    var n, e := m.vol.table[x], Owners(g, m.vol)[x];
    assert ExtentOK(g, e) && e == ExtentOf(g, m.vol.blocks, n);
    ReleasedBlocks(g, m.vol, i);
    forall b: nat | InExtent(e, b) ensures m'.vol.blocks[b] == m.vol.blocks[b] {
      assert !InExtent(Owners(g, m.vol)[i], b);
    }
    ExtentFrame(g, m.vol.blocks, m'.vol.blocks, n);
    BytesFrame(g.B, m.vol.blocks, m'.vol.blocks, e.data, n.size);
  }

  /** The direct blocks of a consistent file are its first blocks. */
  lemma ReleasedBlocks(g: Geo, v: Volume, i: nat)
    requires WellFormed(g, v) && 1 <= i < NUM_INODES
    ensures var e := Owners(g, v)[i];
            forall b :: b in DirectBlocks(v.table[i], DIRECT) <==> b in Kept(e).data
    ensures forall b | b in DirectBlocks(v.table[i], DIRECT) :: InExtent(Owners(g, v)[i], b) && g.Meta() <= b < g.N
  {
    hide BlockStart, Beyond, FreeSet, ExtentOf, TableOK;
    var n, e := v.table[i], Owners(g, v)[i];
    FileKnown(g, v, i);
    forall b | b in DirectBlocks(n, DIRECT) ensures b in Kept(e).data && InExtent(e, b) && g.Meta() <= b < g.N {
      var k :| 0 <= k < DIRECT && n.direct[k] != 0 && n.direct[k] == b;
      assert e.data[k] == b;
      assert Kept(e).data[k] == b;
    }
    forall b | b in Kept(e).data ensures b in DirectBlocks(n, DIRECT) {
      var k :| 0 <= k < |Kept(e).data| && Kept(e).data[k] == b;
      assert n.direct[k] == e.data[k] == b;
    }
  }

  /**
   * The release loop gives back every direct block, cleared: the books balance and free blocks are zero again,
   * except that the blocks behind a pointer block, if the file has one, are lost to the file.
   */
  lemma ReleaseKeepsAlloc(g: Geo, m: Mem, i: nat, m': Mem)
    requires WellFormed(g, m.vol) && 1 <= i < NUM_INODES && Released(g, m, i, DIRECT, m')
    ensures Owners(g, m'.vol) == Owners(g, m.vol)[i := Extent([], m.vol.table[i].indirect)]
    ensures AllocOK(g, Owners(g, m'.vol), FreeSet(m'.vol.bits), Dropped(Owners(g, m.vol)[i]))
    ensures FreeZero(g, m'.vol.blocks, FreeSet(m'.vol.bits))
    ensures m.vol.table[i].indirect == 0 ==> Dropped(Owners(g, m.vol)[i]) == {}
    ensures forall x | 1 <= x < NUM_INODES && x != i :: Content(g, m'.vol, x) == Content(g, m.vol, x)
  {
    hide BlockStart, Beyond, FreeSet, Content, TableOK, InodeOK, Fixed, BitmapStored, ReadRange, Fit;
    var own, own', free, lost := Owners(g, m.vol), Owners(g, m'.vol), FreeSet(m.vol.bits), Dropped(Owners(g, m.vol)[i]);
    FileKnown(g, m.vol, i);
    forall x | 1 <= x < NUM_INODES && x != i
      ensures own'[x] == own[x] && Content(g, m'.vol, x) == Content(g, m.vol, x)
    {
      ReleaseOther(g, m, i, m', x);
    }
    assert own'[i] == Extent([], own[i].table);
    assert own' == own[i := Extent([], own[i].table)];
    ReleasedBlocks(g, m.vol, i);
    DropKeepsAlloc(g, own, free, i);
    ReturnBlocks(g, own[i := Kept(own[i])], free, lost, i);
    assert FreeSet(m'.vol.bits) == free + (set b | b in Kept(own[i]).data);
    assert own[i := Kept(own[i])][i := Extent([], Kept(own[i]).table)] == own';
  }

  /** All data blocks of a file handed back. */
  lemma ReturnBlocks(g: Geo, own: seq<Extent>, free: set<nat>, lost: set<nat>, i: nat)
    requires AllocOK(g, own, free, lost) && i < NUM_INODES
    ensures AllocOK(g, own[i := Extent([], own[i].table)], free + (set b | b in own[i].data), lost)
  {
    hide BlockStart, Beyond;
    var now := own[i := Extent([], own[i].table)];
    assert ExtentOK(g, own[i]);
    forall b ensures Owned(now, b) <==> Owned(own, b) && b !in own[i].data {
      if b in own[i].data {
        assert InExtent(own[i], b);
      }
      if Owned(now, b) {
        var x :| 0 <= x < |now| && InExtent(now[x], b);
        assert InExtent(own[x], b);
      }
      if Owned(own, b) && b !in own[i].data {
        var x :| 0 <= x < |own| && InExtent(own[x], b);
        assert InExtent(now[x], b);
      }
    }
    forall x, y, b | 0 <= x < |now| && 0 <= y < |now| && InExtent(now[x], b) && InExtent(now[y], b) ensures x == y {
      assert InExtent(own[x], b) && InExtent(own[y], b);
    }
  }
}
