/** The file system object: its tables in memory, the bitmap and the disk. */
module Sfs {
  import opened Arith
  import opened Codec
  import opened DiskEmu
  import opened FreeMap
  import opened Layout
  import opened Metadata
  import opened Transfer
  import opened State
  import opened FlatFs
  import opened WriteCall
  import opened ReadCall
  import opened Directory

  class FileSystem {
    const g: Geo
    /** The superblock as it is stored. */
    const sb: Block
    const disk: Disk
    const bitmap: Bitmap
    const table: array<Inode>
    const root: array<DirEntry>
    const fdt: array<Fd>
    /** How many files have been created. */
    ghost var files: nat

    /** The parts fit the geometry and do not alias. */
    ghost predicate Linked() {
      && disk.Valid() && disk.blockSize == g.B && disk.maxBlock == g.N
      && bitmap.bits.Length == g.S && |sb| == g.B
      && table.Length == root.Length == fdt.Length == NUM_INODES
      && Apart(disk.data, bitmap.bits, table, root, fdt) && (this as object) !in Repr()
    }

    static ghost predicate Apart(a: object, b: object, c: object, d: object, e: object) {
      a != b && a != c && a != d && a != e && b != c && b != d && b != e && c != d && c != e && d != e
    }

    ghost function Repr(): set<object> {
      {disk.data, bitmap.bits, table, root, fdt}
    }

    /** The whole state as a value. */
    ghost function View(): (m: Mem)
      requires Linked()
      reads Repr()
      ensures |m.vol.blocks| == g.N && AllSized(g.B, m.vol.blocks)
      ensures |m.vol.bits| == g.S && |m.vol.table| == |m.root| == |m.fdt| == NUM_INODES
    {
      Mem(Volume(disk.Blocks(), bitmap.bits[..], table[..]), root[..], fdt[..])
    }

    // ----- making a file system -----

    /** Formats a new disk: only the metadata blocks are in use, and every other block is zero. */
    constructor (geometry: Geo)
      ensures Linked() && g == geometry && sb == SuperBytes(g)
      ensures fresh(disk.data) && fresh(bitmap.bits) && fresh(table) && fresh(root) && fresh(fdt)
      ensures Good(g, sb, View(), 0) && files == 0
      ensures table[0].used && table[0].size == 0 && table[0].indirect == 0 && |table[0].direct| == DIRECT
      ensures forall k | 0 <= k < DIRECT :: table[0].direct[k] == if k < g.R then g.T + 2 + k else 0
      ensures forall i | 1 <= i < NUM_INODES :: table[i] == Inode(false, 0, [0, 0, 0, 0, 0, 0, 0, 0, 0, 0, 0, 0], 0)
      ensures forall i | 0 <= i < NUM_INODES :: root[i] == DirEntry(NUM_INODES + 1, [])
      ensures forall i | 0 <= i < NUM_INODES :: fdt[i] == Fd(NUM_INODES + 1, 0, 0, false)
      ensures forall x: nat :: x in FreeSet(bitmap.bits[..]) <==> g.T + 2 + g.R <= x < 8 * g.S
      ensures forall b | g.T + 2 + g.R <= b < g.N :: disk.Blocks()[b] == Zeros(g.B)
      ensures TableWritten(g, View().vol)
    {
      hide BlockStart, Beyond, Good, SuperBytes, FreeSet;
      g := geometry;
      sb := SuperBytes(geometry);
      table := new Inode[NUM_INODES](_ => FREE_INODE);
      root := new DirEntry[NUM_INODES](_ => FREE_ENTRY);
      fdt := new Fd[NUM_INODES](_ => FREE_FD);
      bitmap := new Bitmap(geometry.S);
      disk := new Disk(geometry.B, geometry.N);
      files := 0;
      new;
      Format();
      FormatKnown(View());
    }

    /** What a formatted state holds, entry by entry. */
    lemma FormatKnown(m: Mem)
      requires Good(g, sb, m, 0)
      ensures |m.vol.table| == |m.root| == |m.fdt| == NUM_INODES && RootInodeOK(g, m.vol.table[0])
      ensures forall i | 1 <= i < NUM_INODES ::
                m.vol.table[i] == Inode(false, 0, [0, 0, 0, 0, 0, 0, 0, 0, 0, 0, 0, 0], 0)
      ensures forall i | 0 <= i < NUM_INODES :: m.root[i] == DirEntry(NUM_INODES + 1, [])
      ensures forall i | 0 <= i < NUM_INODES :: m.fdt[i] == Fd(NUM_INODES + 1, 0, 0, false)
    {
      hide BlockStart, Beyond, WellFormed, InStep;
    }

    /** Writes the metadata of an empty file system over a zeroed disk. */
    method Format()
      requires Linked() && forall x: nat :: x in FreeSet(View().vol.bits) <==> x < 8 * g.S
      requires forall i | 0 <= i < NUM_INODES :: View().vol.table[i] == FREE_INODE && View().root[i] == FREE_ENTRY
      requires forall b | 0 <= b < g.N :: View().vol.blocks[b] == Zeros(g.B)
      modifies table, root, fdt, disk.data, bitmap.bits
      ensures Good(g, sb, View(), 0) && TableWritten(g, View().vol)
      ensures forall x: nat :: x in FreeSet(View().vol.bits) <==> g.Meta() <= x < 8 * g.S
      ensures forall b | g.Meta() <= b < g.N :: View().vol.blocks[b] == Zeros(g.B)
    {
      hide BlockStart, Beyond, Good, DirectoryWritten, Fit;
      FormatMaps();
      FormatDirectory();
    }

    /** Everything from the superblock to the bitmap. */
    method FormatMaps()
      requires Linked() && forall x: nat :: x in FreeSet(View().vol.bits) <==> x < 8 * g.S
      requires forall i | 0 <= i < NUM_INODES :: View().vol.table[i] == FREE_INODE
      requires RootFits(View().root)
      modifies table, disk.data, bitmap.bits
      ensures View().root == old(View()).root && View().fdt == old(View()).fdt
      ensures forall i | 0 <= i < NUM_INODES :: View().vol.table[i] == FREE_INODE
      ensures forall x: nat :: x in FreeSet(View().vol.bits) <==> g.Meta() <= x < 8 * g.S
      ensures View().vol.blocks[0] == sb && View().vol.blocks[g.T + 1] == Fit(View().vol.bits, g.B)
      ensures SameBut(g, old(View()).vol.blocks, View().vol.blocks, 0)
    {
      hide BlockStart, Beyond;
      WriteEmptyTables();
      ForceMetadata();
      UpdateBitmap();
    }

    /** The directory, the descriptors and inode 0. */
    method FormatDirectory()
      requires Linked() && forall i | 0 <= i < NUM_INODES :: View().vol.table[i] == FREE_INODE
      requires forall x: nat :: x in FreeSet(View().vol.bits) <==> g.Meta() <= x < 8 * g.S
      requires View().vol.blocks[0] == sb && View().vol.blocks[g.T + 1] == Fit(View().vol.bits, g.B)
      requires forall b | g.Meta() <= b < g.N :: View().vol.blocks[b] == Zeros(g.B)
      modifies table, root, fdt, disk.data
      ensures Good(g, sb, View(), 0) && TableWritten(g, View().vol)
      ensures View().vol.bits == old(View()).vol.bits
      ensures forall b | g.Meta() <= b < g.N :: View().vol.blocks[b] == Zeros(g.B)
    {
      hide BlockStart, Beyond, Good, DirectoryWritten, FreeSet, Fit, TableWritten;
      InitRootDirectory();
      InitFileDescriptor();
      ghost var m := View();
      WriteRootDirectory();
      FormatGood(g, sb, m, View());
      DirectoryKeeps(g, m, View());
    }

    /** First pass of formatting: superblock, empty inode table, bitmap and the directory as it happens to be. */
    method WriteEmptyTables()
      requires Linked() && forall i | 0 <= i < NUM_INODES :: View().vol.table[i] == FREE_INODE
      requires RootFits(View().root)
      modifies table, disk.data
      ensures forall i | 0 <= i < NUM_INODES :: View().vol.table[i] == FREE_INODE
      ensures View() == old(View()).WithBlocks(View().vol.blocks).WithTable(View().vol.table)
      ensures View().vol.blocks[0] == sb
      ensures SameBut(g, old(View()).vol.blocks, View().vol.blocks, 0)
    {
      hide BlockStart, Beyond, RootOnDisk, TableWritten, Fit, FreeSet;
      assert forall k | 0 <= k < NUM_INODES :: table[k] == View().vol.table[k];
      InitInodeTable();
      var s := WriteBlock(0, sb);
      UpdateTable();
      UpdateBitmap();
      UpdateRoot();
    }

    /** Last pass of formatting: the empty directory, and inode 0 pointing at it. */
    method WriteRootDirectory()
      requires Linked() && forall i | 0 <= i < NUM_INODES :: View().vol.table[i] == FREE_INODE
      requires RootFits(View().root)
      modifies table, disk.data
      ensures DirectoryWritten(g, old(View()), View())
    {
      hide BlockStart, Beyond, RootOnDisk, TableWritten, TableFits, InodeFits;
      UpdateRoot();
      RootInode();
      ghost var was := View().vol.blocks;
      FreeTableFits(View().vol.table);
      UpdateTable();
      RootFrame(g, was, View().vol.blocks);
    }

    /** Every inode unused, without pointers. */
    method InitInodeTable()
      requires Linked() && forall i | 0 <= i < NUM_INODES :: table[i].size == 0 && |table[i].direct| == DIRECT
      modifies table
      ensures View() == old(View()).WithTable(View().vol.table)
      ensures forall i | 0 <= i < NUM_INODES :: View().vol.table[i] == FREE_INODE
    {
      for i := 0 to NUM_INODES
        invariant forall k | 0 <= k < i :: table[k] == FREE_INODE
        invariant forall k | i <= k < NUM_INODES :: table[k].size == 0 && |table[k].direct| == DIRECT
      {
        for j := 0 to DIRECT
          invariant forall k | 0 <= k < i :: table[k] == FREE_INODE
          invariant forall k | i <= k < NUM_INODES :: table[k].size == 0 && |table[k].direct| == DIRECT
          invariant forall k | 0 <= k < j :: table[i].direct[k] == 0
          invariant j > 0 ==> !table[i].used && table[i].indirect == 0
        {
          table[i] := table[i].(direct := table[i].direct[j := 0], used := false, indirect := 0);
        }
        assert table[i].direct == FREE_INODE.direct;
      }
    }

    /** Every directory slot unused. */
    method InitRootDirectory()
      requires Linked()
      modifies root
      ensures View() == old(View()).(root := View().root)
      ensures forall i | 0 <= i < NUM_INODES :: View().root[i] == FREE_ENTRY
    {
      for i := 0 to NUM_INODES
        invariant forall k | 0 <= k < i :: root[k] == FREE_ENTRY
      {
        root[i] := DirEntry(NO_INODE, []);
      }
    }

    /** Every descriptor unused. */
    method InitFileDescriptor()
      requires Linked()
      modifies fdt
      ensures View() == old(View()).(fdt := View().fdt)
      ensures forall i | 0 <= i < NUM_INODES :: View().fdt[i] == FREE_FD
    {
      for i := 0 to NUM_INODES
        invariant forall k | 0 <= k < i :: fdt[k] == FREE_FD
      {
        fdt[i] := Fd(NO_INODE, 0, 0, false);
      }
    }

    /** Marks the metadata blocks as used. */
    method ForceMetadata()
      requires Linked() && forall x: nat :: x in FreeSet(View().vol.bits) <==> x < 8 * g.S
      modifies bitmap.bits
      ensures View() == old(View()).WithBits(View().vol.bits)
      ensures forall x: nat :: x in FreeSet(View().vol.bits) <==> g.Meta() <= x < 8 * g.S
    {
      for i := 0 to g.Meta()
        invariant View() == old(View()).WithBits(View().vol.bits)
        invariant forall x: nat :: x in FreeSet(View().vol.bits) <==> i <= x < 8 * g.S
      {
        bitmap.ForceSetIndex(i);
      }
    }

    /** Inode 0 is the root directory and points at its blocks. */
    method RootInode()
      requires Linked() && forall i | 0 <= i < NUM_INODES :: View().vol.table[i] == FREE_INODE
      modifies table
      ensures View() == old(View()).WithTable(View().vol.table)
      ensures forall i | 1 <= i < NUM_INODES :: View().vol.table[i] == FREE_INODE
      ensures RootInodeOK(g, View().vol.table[0]) && InodeFits(View().vol.table[0])
    {
      assert forall k | 0 <= k < NUM_INODES :: table[k] == View().vol.table[k];
      for i := 0 to g.R
        invariant forall k | 1 <= k < NUM_INODES :: table[k] == FREE_INODE
        invariant table[0] == FREE_INODE.(used := i > 0, direct := table[0].direct) && |table[0].direct| == DIRECT
        invariant forall k | 0 <= k < DIRECT :: table[0].direct[k] == if k < i then g.T + 2 + k else 0
      {
        table[0] := table[0].(direct := table[0].direct[i := g.T + 2 + i], used := true);
      }
    }

    // ----- single steps -----

    /** Takes the least free index: a block of the disk exactly when one of those is free. */
    method GetIndex() returns (b: nat)
      requires Linked() && exists x :: x in FreeSet(View().vol.bits)
      modifies bitmap.bits
      ensures b in FreeSet(old(View()).vol.bits) && b / 8 < g.S
      ensures b < g.N <==> exists x :: x in FreeSet(old(View()).vol.bits) && x < g.N
      ensures View() == old(View()).WithBits(UseBit(old(View()).vol.bits, b))
      ensures forall x | x in FreeSet(old(View()).vol.bits) :: b <= x
    {
      b := bitmap.GetIndex();
    }

    /** Reads one block; out of range, the buffer stays as it was. */
    method ReadBlock(b: nat, temp: Block) returns (out: Block)
      requires Linked() && |temp| == g.B
      ensures out == if b < g.N then View().vol.blocks[b] else temp
    {
      var s;
      s, out := disk.ReadBlocks(b, 1, temp);
      assert b < g.N ==> ReadRange(disk.Blocks(), b, 1) == disk.Blocks()[b];
    }

    /** Writes one block; out of range, nothing happens. */
    method WriteBlock(b: nat, data: Block) returns (write: int)
      requires Linked() && |data| == g.B
      modifies disk.data
      ensures b < g.N ==> write == 1
      ensures b < g.N ==> View() == old(View()).WithBlocks(old(View()).vol.blocks[b := data])
      ensures b >= g.N ==> write == -1 && View() == old(View())
    {
      write := disk.WriteBlocks(b, 1, data);
      if b < g.N {
        WriteOne(g.B, old(disk.Blocks()), b, data);
      }
    }

    /** The inode table in memory goes to its blocks on disk. */
    method UpdateTable()
      requires Linked() && TableFits(View().vol.table)
      modifies disk.data
      ensures View() == old(View()).WithBlocks(View().vol.blocks)
      ensures SameBut(g, old(View()).vol.blocks, View().vol.blocks, 0)
      ensures Fixed(g, old(View()).vol.blocks, View().vol.blocks)
      ensures View().vol.blocks[g.T + 1] == old(View()).vol.blocks[g.T + 1]
      ensures TableWritten(g, View().vol)
    {
      hide BlockStart, Beyond, TableBytes, WriteRange;
      ghost var was := disk.Blocks();
      var bytes := TableBytes(table[..], BlockStart(g.B, g.T));
      var s := disk.WriteBlocks(1, g.T, bytes);
      RegionStored(g, was, 1, g.T, bytes, disk.Blocks());
    }

    /** The bitmap in memory goes to its block on disk. */
    method UpdateBitmap()
      requires Linked()
      modifies disk.data
      ensures View() == old(View()).WithBlocks(View().vol.blocks)
      ensures SameBut(g, old(View()).vol.blocks, View().vol.blocks, 0)
      ensures Fixed(g, old(View()).vol.blocks, View().vol.blocks)
      ensures View().vol.blocks[g.T + 1] == Fit(View().vol.bits, g.B)
      ensures ReadRange(View().vol.blocks, 1, g.T) == ReadRange(old(View()).vol.blocks, 1, g.T)
    {
      ghost var was := disk.Blocks();
      var s := WriteBlock(g.T + 1, Fit(bitmap.bits[..], g.B));
      ReadFrame(was, disk.Blocks(), 1, g.T);
    }

    /** The root directory in memory goes to its blocks on disk. */
    method UpdateRoot()
      requires Linked() && RootFits(View().root)
      modifies disk.data
      ensures View() == old(View()).WithBlocks(View().vol.blocks)
      ensures SameBut(g, old(View()).vol.blocks, View().vol.blocks, 0)
      ensures forall b | 0 <= b < g.T + 2 :: View().vol.blocks[b] == old(View()).vol.blocks[b]
      ensures RootOnDisk(g, View().vol.blocks) == View().root
    {
      hide BlockStart, Beyond, RootFrom, RootBytes, RootOnDisk, WriteRange;
      ghost var was := disk.Blocks();
      var bytes := RootBytes(root[..], BlockStart(g.B, g.R));
      var s := disk.WriteBlocks(g.T + 2, g.R, bytes);
      RootStored(g, was, root[..], bytes, disk.Blocks());
    }

    /** Moves the write position of a descriptor. */
    method AdvanceWrite(fd: nat, k: nat)
      requires Linked() && fd < NUM_INODES
      modifies fdt
      ensures View() == old(View()).WithFd(fd, old(View()).fdt[fd].(wptr := old(View()).fdt[fd].wptr + k))
    {
      fdt[fd] := fdt[fd].(wptr := fdt[fd].wptr + k);
    }

    /** Replaces one inode in memory. */
    method SetInode(i: nat, n: Inode)
      requires Linked() && i < NUM_INODES
      modifies table
      ensures View() == old(View()).WithInode(i, n)
    {
      table[i] := n;
    }

    // ----- storing one logical block -----

    /** Takes a block for direct pointer `j`, and records that on disk. */
    method AllocDirect(i: nat, j: nat) returns (b: nat)
      requires Linked() && i < NUM_INODES && j < DIRECT && TableFits(View().vol.table)
      requires exists x :: x in FreeSet(View().vol.bits) && x < g.N
      modifies table, disk.data, bitmap.bits
      ensures Taken(g, old(View()), b, i, WithPointer(old(View()).vol.table[i], j, b), View())
    {
      b := GetIndex();
      assert InodeFits(View().vol.table[i]);
      SetInode(i, table[i].(direct := table[i].direct[j := b]));
      UpdateTable();
      UpdateBitmap();
    }

    /** Takes a block for direct pointer `j` and stores into it. */
    method StoreNewDirect(i: nat, j: nat, temp: Block, ghost c: Call, ghost e: Extent, ghost n: nat)
      returns (write: int, ghost e': Extent)
      requires Linked() && View() in Ongoing(g, c, e, j, n) && i == c.job.i
      requires c.job.first <= j == |e.data| <= c.job.last && j < DIRECT
      requires temp == Wanted(g, c, j)
      modifies table, disk.data, bitmap.bits
      ensures write == 1 && View() in Ongoing(g, c, e', j + 1, n)
      ensures e'.table == e.table && |e'.data| == j + 1
    {
      hide BlockStart, Beyond, Ongoing, Finished;
      ghost var m := View();
      Known(g, c, m, e, j, n);
      DataRoom(g, c, m, e, j, n);
      ghost var b := AllocDirect(i, j);
      ghost var m1 := View();
      write := WriteBlock(table[i].direct[j], temp);
      AppendStep(g, c, m, e, j, n, b, m1, View());
      e' := e.(data := e.data + [b]);
    }

    /** Stores logical block `j` through a direct pointer, taking a block when there is none. */
    method StoreDirect(i: nat, j: nat, temp: Block, ghost c: Call, ghost e: Extent, ghost n: nat)
      returns (write: int, ghost e': Extent)
      requires Linked() && View() in Ongoing(g, c, e, j, n) && i == c.job.i
      requires c.job.first <= j <= c.job.last && j < DIRECT
      requires temp == Wanted(g, c, j)
      modifies table, disk.data, bitmap.bits
      ensures write == 1 && View() in Ongoing(g, c, e', j + 1, n)
      ensures e'.table == e.table
    {
      hide BlockStart, Beyond, Ongoing, Finished;
      e' := e;
      ghost var m := View();
      Known(g, c, m, e, j, n);
      KnownPointers(g, c, m, e, j, n);
      if table[i].direct[j] == 0 {
        write, e' := StoreNewDirect(i, j, temp, c, e, n);
      } else {
        write := WriteBlock(table[i].direct[j], temp);
        OverStep(g, c, m, e, j, n, View());
      }
    }

    /** Takes a block for logical block `j`, which is past the direct pointers, and stores into it. */
    method TakeAndStore(j: nat, temp: Block, ghost c: Call, ghost e: Extent, ghost n: nat)
      returns (b: nat, write: int)
      requires Linked() && View() in Ongoing(g, c, e, j, n)
      requires c.job.first <= j == |e.data| <= c.job.last && DIRECT <= j
      requires temp == Wanted(g, c, j)
      modifies disk.data, bitmap.bits
      ensures write == 1 && View() in Ongoing(g, c, e.(data := e.data + [b]), j + 1, n)
    {
      hide BlockStart, Beyond, Ongoing, Finished;
      ghost var m := View();
      Known(g, c, m, e, j, n);
      DataRoom(g, c, m, e, j, n);
      b := GetIndex();
      UpdateBitmap();
      ghost var m1 := View();
      assert m.vol.table == m.vol.table[c.job.i := m.vol.table[c.job.i]];
      write := WriteBlock(b, temp);
      AppendStep(g, c, m, e, j, n, b, m1, View());
    }

    /** Takes a block for entry `j` of the pointer table in memory and stores into it. */
    method StoreNewIndirect(t: seq<nat>, j: nat, temp: Block, ghost c: Call, ghost e: Extent, ghost n: nat)
      returns (t': seq<nat>, write: int, ghost e': Extent)
      requires Linked() && View() in Ongoing(g, c, e, j, n)
      requires c.job.first <= j == |e.data| <= c.job.last && DIRECT <= j
      requires |t| == g.P && temp == Wanted(g, c, j)
      modifies disk.data, bitmap.bits
      ensures write == 1 && View() in Ongoing(g, c, e', j + 1, n)
      ensures |t'| == g.P && e'.table == e.table && |e'.data| == j + 1
      ensures TableOK(g, t, e) ==> TableOK(g, t', e')
      ensures forall hi: nat | TableUpTo(g, t, e, hi) && j < DIRECT + hi :: TableUpTo(g, t', e', hi)
    {
      hide BlockStart, Beyond, Ongoing, Finished;
      Known(g, c, View(), e, j, n);
      var b;
      b, write := TakeAndStore(j, temp, c, e, n);
      t' := t[j - DIRECT := b];
      e' := e.(data := e.data + [b]);
    }

    /** Stores logical block `j` through the pointer table in memory, taking a block when there is none. */
    method StoreIndirect(t: seq<nat>, j: nat, temp: Block, ghost c: Call, ghost e: Extent, ghost n: nat)
      returns (t': seq<nat>, write: int, ghost e': Extent)
      requires Linked() && View() in Ongoing(g, c, e, j, n)
      requires c.job.first <= j <= c.job.last && DIRECT <= j
      requires |t| == g.P && TableOK(g, t, e) && temp == Wanted(g, c, j)
      modifies disk.data, bitmap.bits
      ensures write == 1 && View() in Ongoing(g, c, e', j + 1, n)
      ensures |t'| == g.P && TableOK(g, t', e') && e'.table == e.table
    {
      hide BlockStart, Beyond, Ongoing, Finished;
      t', e' := t, e;
      ghost var m := View();
      Known(g, c, m, e, j, n);
      KnownPointers(g, c, m, e, j, n);
      assert t[j - DIRECT] == if DIRECT + (j - DIRECT) < |e.data| then e.data[DIRECT + (j - DIRECT)] else 0;
      if t[j - DIRECT] == 0 {
        t', write, e' := StoreNewIndirect(t, j, temp, c, e, n);
      } else {
        write := WriteBlock(t[j - DIRECT], temp);
        OverStep(g, c, m, e, j, n, View());
      }
    }

    /** Adds `k` bytes to the count of a write once the store has succeeded. */
    method CountWritten(write: int, fd: nat, n: nat, k: nat, ghost c: Call, ghost e: Extent, ghost j: nat)
      returns (n': nat)
      requires Linked() && View() in Ongoing(g, c, e, j, n) && fd == c.fd && write == 1
      modifies fdt
      ensures n' == n + k && View() in Ongoing(g, c, e, j, n')
    {
      hide BlockStart, Beyond, Ongoing, Finished;
      n' := n;
      if write >= 1 {
        n' := n + k;
        ghost var m := View();
        Known(g, c, m, e, j, n);
        AdvanceWrite(fd, k);
        CountStep(g, c, m, e, j, n, k, View());
      }
    }

    // ----- the pieces of a write -----

    /** The bytes of the buffer that fill middle block `j`. */
    method MiddleBytes(buf: seq<byte>, currentblk: nat, offset: nat, j: nat, ghost n: nat, ghost c: Call)
      returns (temp: Block)
      requires buf == c.job.buf && Spans(g.B, c.job.w, |buf|, c.job.first, c.job.last)
      requires c.job.w == BlockStart(g.B, c.job.first) + offset
      requires currentblk == c.job.first + 1 && currentblk <= j < c.job.last && BlockStart(g.B, j) == c.job.w + n
      ensures temp == Wanted(g, c, j) && |temp| == g.B
      ensures BlockStart(g.B, j + 1) == c.job.w + (n + g.B)
    {
      MiddlePiece(g.B, c.job.w, buf, c.job.first, currentblk, c.job.last, offset, j, n, c.job.OldBlock(j));
      temp := Memcpy(Zeros(g.B), 0, buf, g.B - offset + (j - currentblk) * g.B, g.B);
    }

    /** The bytes of the buffer that start the last block, and how many there are. */
    method TailBytes(buf: seq<byte>, currentblk: nat, endblk: nat, offset: nat, ghost n: nat, ghost c: Call)
      returns (temp: Block, rest: nat)
      requires buf == c.job.buf && Spans(g.B, c.job.w, |buf|, c.job.first, c.job.last) && g.B > 0
      requires c.job.w == BlockStart(g.B, c.job.first) + offset
      requires currentblk == c.job.first + 1 < endblk == c.job.last + 1 && BlockStart(g.B, c.job.last) == c.job.w + n
      ensures temp == Wanted(g, c, c.job.last) && |temp| == g.B
      ensures n + rest == |buf|
    {
      TailPiece(g.B, c.job.w, buf, c.job.first, currentblk, c.job.last, endblk, offset, n, c.job.OldBlock(c.job.last));
      rest := (offset + |buf|) % g.B;
      temp := Memcpy(Zeros(g.B), 0, buf, (endblk - currentblk) * g.B - offset, rest);
    }

    /** Puts `len` bytes of the buffer into the first block of the write, keeping the rest of that block. */
    method PatchFirst(fd: nat, ptr: nat, offset: nat, buf: seq<byte>, len: nat, ghost c: Call, ghost e: Extent)
      returns (n: nat)
      requires Linked() && View() in Ongoing(g, c, e, c.job.first, 0) && buf == c.job.buf && fd == c.fd
      requires c.job.first < |c.job.Was().data| && c.job.first < |e.data| && ptr == e.data[c.job.first]
      requires offset < g.B && c.job.w == BlockStart(g.B, c.job.first) + offset
      requires (len == |buf| && offset + len <= g.B) || (len == g.B - offset && len <= |buf|)
      modifies disk.data, fdt
      ensures n == len && View() in Ongoing(g, c, e, c.job.first + 1, n)
      ensures MetaSame(g, old(View()), View())
    {
      hide BlockStart, Beyond, Ongoing, Target, Memcpy, Facts, FreeSet;
      ghost var m := View();
      KnownFirst(g, c, m, e, 0);
      var temp := ReadBlock(ptr, Zeros(g.B));
      FirstTarget(g.B, c.job.first, temp, c.job.w, buf, offset, len);
      temp := Memcpy(temp, offset, buf, 0, len);
      var write := WriteBlock(ptr, temp);
      OverStep(g, c, m, e, c.job.first, 0, View());
      n := CountWritten(write, fd, 0, len, c, e, c.job.first + 1);
    }

    /** One whole block through a direct pointer. */
    method OneDirect(fd: nat, i: nat, buf: seq<byte>, currentblk: nat, offset: nat, j: nat, n: nat,
                     ghost c: Call, ghost e: Extent)
      returns (n': nat, ghost e': Extent)
      requires Linked() && View() in Ongoing(g, c, e, j, n)
      requires i == c.job.i && fd == c.fd && buf == c.job.buf
      requires currentblk == c.job.first + 1 && currentblk <= j < DIRECT && j < c.job.last
      requires c.job.w == BlockStart(g.B, c.job.first) + offset
      requires BlockStart(g.B, j) == c.job.w + n
      modifies table, disk.data, bitmap.bits, fdt
      ensures View() in Ongoing(g, c, e', j + 1, n') && BlockStart(g.B, j + 1) == c.job.w + n'
      ensures e'.table == e.table
    {
      hide BlockStart, Beyond, Ongoing, Finished;
      Known(g, c, View(), e, j, n);
      var temp := MiddleBytes(buf, currentblk, offset, j, n, c);
      var write;
      write, e' := StoreDirect(i, j, temp, c, e, n);
      n' := CountWritten(write, fd, n, g.B, c, e', j + 1);
    }

    /** One whole block through the pointer table in memory. */
    method OneIndirect(fd: nat, buf: seq<byte>, currentblk: nat, offset: nat, j: nat, n: nat, t: seq<nat>,
                       ghost c: Call, ghost e: Extent)
      returns (n': nat, t': seq<nat>, ghost e': Extent)
      requires Linked() && View() in Ongoing(g, c, e, j, n)
      requires fd == c.fd && buf == c.job.buf
      requires currentblk == c.job.first + 1 && currentblk <= j < c.job.last && DIRECT <= j
      requires |t| == g.P && TableOK(g, t, e)
      requires c.job.w == BlockStart(g.B, c.job.first) + offset
      requires BlockStart(g.B, j) == c.job.w + n
      modifies disk.data, bitmap.bits, fdt
      ensures View() in Ongoing(g, c, e', j + 1, n') && BlockStart(g.B, j + 1) == c.job.w + n'
      ensures |t'| == g.P && TableOK(g, t', e') && e'.table == e.table
    {
      hide BlockStart, Beyond, Ongoing, Finished;
      Known(g, c, View(), e, j, n);
      var temp := MiddleBytes(buf, currentblk, offset, j, n, c);
      var write;
      t', write, e' := StoreIndirect(t, j, temp, c, e, n);
      n' := CountWritten(write, fd, n, g.B, c, e', j + 1);
    }

    /** Whole blocks up to `stop` through direct pointers. */
    method MiddleDirect(fd: nat, i: nat, buf: seq<byte>, currentblk: nat, stop: nat, offset: nat, n0: nat,
                        ghost c: Call, ghost e0: Extent)
      returns (n: nat, ghost e: Extent)
      requires Linked() && View() in Ongoing(g, c, e0, currentblk, n0)
      requires i == c.job.i && fd == c.fd && buf == c.job.buf
      requires currentblk == c.job.first + 1 && currentblk <= stop <= DIRECT && stop <= c.job.last
      requires c.job.w == BlockStart(g.B, c.job.first) + offset
      requires BlockStart(g.B, currentblk) == c.job.w + n0
      modifies table, disk.data, bitmap.bits, fdt
      ensures View() in Ongoing(g, c, e, stop, n) && BlockStart(g.B, stop) == c.job.w + n
      ensures e.table == e0.table
    {
      hide BlockStart, Beyond, Ongoing, Finished;
      n, e := n0, e0;
      var j := currentblk;
      while j < stop
        invariant currentblk <= j <= stop
        invariant View() in Ongoing(g, c, e, j, n) && BlockStart(g.B, j) == c.job.w + n
        invariant e.table == e0.table
      {
        n, e := OneDirect(fd, i, buf, currentblk, offset, j, n, c, e);
        j := j + 1;
      }
    }

    /** The last block, through a direct pointer. */
    method TailDirect(fd: nat, i: nat, buf: seq<byte>, currentblk: nat, endblk: nat, offset: nat, n0: nat,
                      ghost c: Call, ghost e0: Extent)
      returns (n: nat, ghost e: Extent)
      requires Linked() && View() in Ongoing(g, c, e0, c.job.last, n0)
      requires i == c.job.i && fd == c.fd && buf == c.job.buf
      requires currentblk == c.job.first + 1 < endblk == c.job.last + 1 <= DIRECT
      requires c.job.w == BlockStart(g.B, c.job.first) + offset
      requires BlockStart(g.B, c.job.last) == c.job.w + n0
      modifies table, disk.data, bitmap.bits, fdt
      ensures View() in Ongoing(g, c, e, endblk, n) && n == |buf|
      ensures e.table == e0.table
    {
      hide BlockStart, Beyond, Ongoing, Finished;
      Known(g, c, View(), e0, c.job.last, n0);
      var temp, rest := TailBytes(buf, currentblk, endblk, offset, n0, c);
      var write;
      write, e := StoreDirect(i, endblk - 1, temp, c, e0, n0);
      n := CountWritten(write, fd, n0, rest, c, e, endblk);
    }

    /** Whole blocks up to `stop` through the pointer table in memory. */
    method MiddleIndirect(fd: nat, buf: seq<byte>, currentblk: nat, endblk: nat, offset: nat, n0: nat, t0: seq<nat>,
                          ghost c: Call, ghost e0: Extent)
      returns (n: nat, t: seq<nat>, ghost e: Extent)
      requires Linked() && View() in Ongoing(g, c, e0, currentblk, n0)
      requires fd == c.fd && buf == c.job.buf
      requires DIRECT < currentblk == c.job.first + 1 < endblk == c.job.last + 1
      requires |t0| == g.P && TableOK(g, t0, e0)
      requires c.job.w == BlockStart(g.B, c.job.first) + offset
      requires BlockStart(g.B, currentblk) == c.job.w + n0
      modifies disk.data, bitmap.bits, fdt
      ensures View() in Ongoing(g, c, e, c.job.last, n) && BlockStart(g.B, c.job.last) == c.job.w + n
      ensures |t| == g.P && TableOK(g, t, e) && e.table == e0.table
    {
      hide BlockStart, Beyond, Ongoing, Finished;
      n, e, t := n0, e0, t0;
      var j := currentblk;
      while j < endblk - 1
        invariant currentblk <= j <= endblk - 1
        invariant View() in Ongoing(g, c, e, j, n) && BlockStart(g.B, j) == c.job.w + n
        invariant |t| == g.P && TableOK(g, t, e) && e.table == e0.table
      {
        n, t, e := OneIndirect(fd, buf, currentblk, offset, j, n, t, c, e);
        j := j + 1;
      }
    }

    /** The last block, through the pointer table in memory. */
    method TailIndirect(fd: nat, buf: seq<byte>, currentblk: nat, endblk: nat, offset: nat, n0: nat, t0: seq<nat>,
                        ghost c: Call, ghost e0: Extent)
      returns (n: nat, t: seq<nat>, ghost e: Extent)
      requires Linked() && View() in Ongoing(g, c, e0, c.job.last, n0)
      requires fd == c.fd && buf == c.job.buf
      requires currentblk == c.job.first + 1 < endblk == c.job.last + 1 && DIRECT < endblk
      requires |t0| == g.P && TableOK(g, t0, e0)
      requires c.job.w == BlockStart(g.B, c.job.first) + offset
      requires BlockStart(g.B, c.job.last) == c.job.w + n0
      modifies disk.data, bitmap.bits, fdt
      ensures View() in Ongoing(g, c, e, endblk, n) && n == |buf|
      ensures |t| == g.P && TableOK(g, t, e) && e.table == e0.table
    {
      hide BlockStart, Beyond, Ongoing, Finished;
      Known(g, c, View(), e0, c.job.last, n0);
      var temp, rest := TailBytes(buf, currentblk, endblk, offset, n0, c);
      var write;
      t, write, e := StoreIndirect(t0, endblk - 1, temp, c, e0, n0);
      n := CountWritten(write, fd, n0, rest, c, e, endblk);
    }

    /** Raises the size in the inode, and on disk, when the write went past it. */
    method RecordSize(i: nat, end: nat)
      requires Linked() && i < NUM_INODES && TableFits(View().vol.table) && end < WORD_LIMIT
      modifies table, disk.data
      ensures Resized(g, old(View()), i, end, View())
      ensures View().vol.blocks[g.T + 1] == old(View()).vol.blocks[g.T + 1]
      ensures TableFits(View().vol.table)
      ensures end > old(View()).vol.table[i].size ==> TableWritten(g, View().vol)
      ensures end <= old(View()).vol.table[i].size ==> View() == old(View())
    {
      assert InodeFits(View().vol.table[i]);
      if end > table[i].size {
        SetInode(i, table[i].(size := end));
        UpdateTable();
      } else {
        assert table[i] == table[i].(size := Max(table[i].size, end));
        assert table[..] == table[..][i := table[i]];
      }
    }

    /** Inode table and bitmap to disk. */
    method UpdateMaps()
      requires Linked() && TableFits(View().vol.table) && Shape(g, View().vol)
      modifies disk.data
      ensures MapsWritten(g, old(View()), View())
    {
      hide BlockStart, Beyond, Fit, FreeSet, TableBytes, ReadRange, TableFits;
      UpdateTable();
      UpdateBitmap();
    }

    /** Size, inode table and bitmap, in memory and on disk. */
    method RecordAll(i: nat, end: nat)
      requires Linked() && i < NUM_INODES && TableFits(View().vol.table) && end < WORD_LIMIT
      modifies table, disk.data
      ensures Resized(g, old(View()), i, end, View()) && MapsOK(g, View())
    {
      RecordSize(i, end);
      UpdateMaps();
    }

    /** Size, inode table and bitmap after a write within the direct blocks. */
    method CloseDirectWrite(i: nat, end: nat, ghost c: Call, ghost e: Extent)
      requires Linked() && View() in Ongoing(g, c, e, c.job.last + 1, |c.job.buf|) && i == c.job.i
      requires JobOK(g, c.job) && JobFile(g, c.job) && c.job.last < DIRECT && end == c.job.w + |c.job.buf|
      requires c.job.first < c.job.last
      modifies table, disk.data
      ensures View() in Finished(g, c)
    {
      hide BlockStart, Beyond, Ongoing, Finished, JobOK, JobFile, Resized, MapsOK, MapsStored;
      ghost var m := View();
      Known(g, c, m, e, c.job.last + 1, |c.job.buf|);
      RecordAll(i, end);
      MapsFresh(g, c, View());
      EndDirect(g, c, m, e, View());
    }

    /** Size, pointer table, inode table and bitmap; an inode without a pointer block names the superblock. */
    method RecordIndirect(i: nat, end: nat, t: seq<nat>)
      requires Linked() && i < NUM_INODES && TableFits(View().vol.table) && end < WORD_LIMIT
      requires |t| == g.P && Fits(t) && View().vol.table[i].indirect < g.N
      requires View().vol.table[i].indirect == 0 || g.Meta() <= View().vol.table[i].indirect
      modifies table, disk.data
      ensures TablePut(g, old(View()), i, end, old(View()).vol.table[i].indirect, t, View())
      ensures MapsOK(g, View())
    {
      hide BlockStart, Beyond, TableWritten, Fit, Encode, Fits, TablePut, MapsWritten, MapsOK, FreeSet;
      ghost var m := View();
      RecordSize(i, end);
      ghost var m1 := View();
      var s := WriteBlock(table[i].indirect, Encode(t));
      UpdateMaps();
      PutTable(g, m, i, end, table[i].indirect, t, m1, View());
    }

    /** The records at the end of a write past the direct blocks. */
    method CloseIndirectWrite(i: nat, end: nat, t: seq<nat>, ghost c: Call, ghost e: Extent)
      requires Linked() && View() in Ongoing(g, c, e, c.job.last + 1, |c.job.buf|) && i == c.job.i
      requires JobOK(g, c.job) && c.job.last >= DIRECT && end == c.job.w + |c.job.buf| && e.table != 0
      requires Beyond(g.B, |e.data|, NewSize(c.job))
      requires |t| == g.P && TableOK(g, t, e)
      modifies table, disk.data
      ensures View() in Finished(g, c)
    {
      hide BlockStart, Beyond, Ongoing, Finished, JobOK, JobFile, TablePut, MapsOK, MapsStored;
      ghost var m := View();
      Known(g, c, m, e, c.job.last + 1, |c.job.buf|);
      KnownTable(g, c, m, e, c.job.last + 1, |c.job.buf|, t);
      RecordIndirect(i, end, t);
      MapsFresh(g, c, View());
      EndIndirect(g, c, m, e, t, View());
    }

    /** The same records at the end of a write that crossed into the indirect blocks, inside its domain or not. */
    method CloseCrossing(i: nat, end: nat, t: seq<nat>, ghost c: Call, ghost e: Extent)
      requires Linked() && View() in Ongoing(g, c, e, c.job.last + 1, |c.job.buf|) && i == c.job.i
      requires JobOK(g, c.job) && c.job.last >= DIRECT && end == c.job.w + |c.job.buf|
      requires |t| == g.P && TableOK(g, t, e)
      modifies table, disk.data
      ensures e.table != 0 && JobFile(g, c.job) ==> View() in Finished(g, c)
      ensures e.table == 0 || Forgets(g, c.job) ==> View() in Spoilt(g, c)
    {
      hide BlockStart, Beyond, Ongoing, Finished, Spoilt, Forgets, JobOK, JobFile, TablePut, MapsOK;
      ghost var m := View();
      Known(g, c, m, e, c.job.last + 1, |c.job.buf|);
      KnownTable(g, c, m, e, c.job.last + 1, |c.job.buf|, t);
      RecordIndirect(i, end, t);
      CrossingEnds(g, c, m, e, t, View());
    }

    // ----- the branches of a write -----

    /** Direct blocks only, several of them. */
    method WriteDirectSpan(fd: nat, i: nat, buf: seq<byte>, currentblk: nat, endblk: nat, offset: nat, end: nat,
                           ghost c: Call)
      returns (n: nat)
      requires Linked() && Called(g, c, View(), fd, i, buf, currentblk, endblk, offset) && end == c.job.w + |buf|
      requires JobFile(g, c.job)
      requires c.job.first < |c.job.Was().data| && currentblk < endblk <= DIRECT
      modifies table, disk.data, bitmap.bits, fdt
      ensures n == |buf| && View() in Finished(g, c)
    {
      hide BlockStart, Beyond, Ongoing, Finished, JobOK, JobFile;
      ghost var e := c.job.Was();
      Known(g, c, View(), e, c.job.first, 0);
      KnownPointers(g, c, View(), e, c.job.first, 0);
      HeadAt(g.B, c.job.w, |buf|, c.job.first, c.job.last, offset);
      n := PatchFirst(fd, table[i].direct[currentblk - 1], offset, buf, g.B - offset, c, e);
      n, e := MiddleDirect(fd, i, buf, currentblk, endblk - 1, offset, n, c, e);
      n, e := TailDirect(fd, i, buf, currentblk, endblk, offset, n, c, e);
      CloseDirectWrite(i, end, c, e);
    }

    /** Inside one direct block. */
    method WriteDirectOne(fd: nat, i: nat, buf: seq<byte>, currentblk: nat, offset: nat, end: nat, ghost c: Call)
      returns (n: nat)
      requires Linked() && Called(g, c, View(), fd, i, buf, currentblk, currentblk, offset) && end == c.job.w + |buf|
      requires JobFile(g, c.job)
      requires c.job.first < |c.job.Was().data| && currentblk <= DIRECT
      modifies table, disk.data, fdt
      ensures n == |buf| && View() in Finished(g, c)
    {
      hide BlockStart, Beyond, Ongoing, Finished, JobOK, JobFile, FreeSet, TableWritten, ReadRange, Fit;
      ghost var m0, e := View(), c.job.Was();
      Known(g, c, m0, e, c.job.first, 0);
      KnownPointers(g, c, m0, e, c.job.first, 0);
      n := PatchFirst(fd, table[i].direct[currentblk - 1], offset, buf, |buf|, c, e);
      ghost var m := View();
      Known(g, c, m, e, c.job.first + 1, n);
      MapsUntouched(g, m0, m);
      SizeKept(g, c, m, e, c.job.first + 1, n);
      RecordSize(i, end);
      EndDirect(g, c, m, e, View());
    }

    /** The pointer table of a file, from its pointer block. */
    method ReadTable(i: nat, ghost c: Call) returns (t: seq<nat>)
      requires Linked() && View() == c.m0 && i == c.job.i && JobOK(g, c.job) && JobFile(g, c.job)
      requires c.m0 in Ongoing(g, c, c.job.Was(), c.job.first, 0) && |c.job.Was().data| > DIRECT
      ensures |t| == g.P && TableOK(g, t, c.job.Was())
    {
      hide Ongoing, JobOK, JobFile, TableOK;
      HasTable(g, c);
      var indirect := ReadBlock(table[i].indirect, Zeros(g.B));
      t := Decode(indirect, g.P);
      TableAtStart(g, c, t);
    }

    /** Indirect blocks only, several of them. */
    method WriteIndirectSpan(fd: nat, i: nat, buf: seq<byte>, currentblk: nat, endblk: nat, offset: nat, end: nat,
                             ghost c: Call)
      returns (n: nat)
      requires Linked() && Called(g, c, View(), fd, i, buf, currentblk, endblk, offset) && end == c.job.w + |buf|
      requires JobFile(g, c.job)
      requires c.job.first < |c.job.Was().data| && DIRECT < currentblk < endblk
      modifies table, disk.data, bitmap.bits, fdt
      ensures n == |buf| && View() in Finished(g, c)
    {
      hide BlockStart, Beyond, Ongoing, Finished, JobOK, JobFile;
      ghost var e := c.job.Was();
      Known(g, c, View(), e, c.job.first, 0);
      HasTable(g, c);
      HeadAt(g.B, c.job.w, |buf|, c.job.first, c.job.last, offset);
      var t := ReadTable(i, c);
      TableEntry(g, t, e, currentblk - 1);
      n := PatchFirst(fd, t[currentblk - 13], offset, buf, g.B - offset, c, e);
      n, t, e := MiddleIndirect(fd, buf, currentblk, endblk, offset, n, t, c, e);
      n, t, e := TailIndirect(fd, buf, currentblk, endblk, offset, n, t, c, e);
      EndCount(g, c, View(), e, n);
      CloseIndirectWrite(i, end, t, c, e);
    }

    /** Inside one indirect block. */
    method WriteIndirectOne(fd: nat, i: nat, buf: seq<byte>, currentblk: nat, offset: nat, end: nat, ghost c: Call)
      returns (n: nat)
      requires Linked() && Called(g, c, View(), fd, i, buf, currentblk, currentblk, offset) && end == c.job.w + |buf|
      requires JobFile(g, c.job)
      requires c.job.first < |c.job.Was().data| && DIRECT < currentblk
      modifies table, disk.data, fdt
      ensures n == |buf| && View() in Finished(g, c)
    {
      hide BlockStart, Beyond, Ongoing, Finished, JobOK, JobFile;
      ghost var e := c.job.Was();
      Known(g, c, View(), e, c.job.first, 0);
      HasTable(g, c);
      var t := ReadTable(i, c);
      TableEntry(g, t, e, currentblk - 1);
      n := PatchFirst(fd, t[currentblk - 13], offset, buf, |buf|, c, e);
      EndCount(g, c, View(), e, n);
      CloseIndirectWrite(i, end, t, c, e);
    }

    // ----- the first write of a file -----

    /** Whole blocks of a first write, into the direct pointers before `stop`. */
    method FreshDirect(fd: nat, i: nat, buf: seq<byte>, stop: nat, ghost c: Call)
      returns (n: nat, ghost e: Extent)
      requires Linked() && View() in Ongoing(g, c, Extent([], 0), 0, 0) && c.job.Was() == Extent([], 0)
      requires i == c.job.i && fd == c.fd && buf == c.job.buf && c.job.w == c.job.first == 0
      requires stop <= DIRECT && stop <= c.job.last
      modifies table, disk.data, bitmap.bits, fdt
      ensures View() in Ongoing(g, c, e, stop, n) && n == BlockStart(g.B, stop)
      ensures |e.data| == stop && e.table == 0
    {
      hide BlockStart, Beyond, Ongoing, Finished;
      n, e := 0, Extent([], 0);
      Known(g, c, View(), e, 0, 0);
      for j := 0 to stop
        invariant View() in Ongoing(g, c, e, j, n) && n == BlockStart(g.B, j)
        invariant |e.data| == j && e.table == 0
      {
        FreshPiece(g.B, buf, c.job.last, j, n);
        var temp := Memcpy(Zeros(g.B), 0, buf, j * g.B, g.B);
        var write;
        write, e := StoreNewDirect(i, j, temp, c, e, n);
        n := CountWritten(write, fd, n, g.B, c, e, j + 1);
      }
    }

    /** A first write that fits the direct blocks. */
    method WriteFreshDirect(fd: nat, i: nat, buf: seq<byte>, numblkwr: nat, ghost c: Call)
      returns (n: nat)
      requires Linked() && Called(g, c, View(), fd, i, buf, 1, numblkwr, 0)
      requires JobFile(g, c.job)
      requires c.job.Was() == Extent([], 0) && c.job.w == 0 && numblkwr <= DIRECT
      modifies table, disk.data, bitmap.bits, fdt
      ensures n == |buf| && View() in Finished(g, c)
    {
      hide BlockStart, Beyond, Ongoing, Finished, JobOK, JobFile;
      ghost var e;
      n, e := FreshDirect(fd, i, buf, numblkwr - 1, c);
      Known(g, c, View(), e, c.job.last, n);
      FreshTail(g.B, buf, c.job.last, n);
      var temp := Memcpy(Zeros(g.B), 0, buf, (numblkwr - 1) * g.B, |buf| % g.B);
      var write;
      write, e := StoreNewDirect(i, numblkwr - 1, temp, c, e, n);
      n := CountWritten(write, fd, n, |buf| % g.B, c, e, numblkwr);
      CloseFreshWrite(i, n, c, e);
    }

    /** The size of a file written for the first time. */
    method GrowSize(i: nat, n: nat)
      requires Linked() && i < NUM_INODES && TableFits(View().vol.table) && n < WORD_LIMIT
      requires View().vol.table[i].size == 0
      modifies table
      ensures Resized(g, old(View()), i, n, View()) && TableFits(View().vol.table)
      ensures View().vol.blocks == old(View()).vol.blocks && |View().vol.table[i].direct| == DIRECT
    {
      hide BlockStart, Beyond, FreeSet;
      assert InodeFits(View().vol.table[i]);
      SetInode(i, table[i].(size := table[i].size + n));
    }

    /** The size of a file written for the first time, and the inode table and bitmap. */
    method RecordFresh(i: nat, n: nat)
      requires Linked() && i < NUM_INODES && TableFits(View().vol.table) && n < WORD_LIMIT
      requires View().vol.table[i].size == 0
      modifies table, disk.data
      ensures Resized(g, old(View()), i, n, View()) && MapsOK(g, View())
    {
      hide BlockStart, Beyond, FreeSet, TableWritten, Fit, MapsOK;
      GrowSize(i, n);
      UpdateTable();
      UpdateMaps();
    }

    /** The records at the end of a first write into direct blocks. */
    method CloseFreshWrite(i: nat, n: nat, ghost c: Call, ghost e: Extent)
      requires Linked() && View() in Ongoing(g, c, e, c.job.last + 1, |c.job.buf|) && i == c.job.i
      requires JobOK(g, c.job) && JobFile(g, c.job) && c.job.last < DIRECT
      requires c.job.Was() == Extent([], 0) && c.job.w == 0 && n == |c.job.buf|
      modifies table, disk.data
      ensures View() in Finished(g, c)
    {
      hide BlockStart, Beyond, Ongoing, Finished, JobOK, JobFile, Resized, MapsOK, MapsStored;
      ghost var m := View();
      Known(g, c, m, e, c.job.last + 1, |c.job.buf|);
      FreshSize(g, c, m, e, c.job.last + 1, |c.job.buf|);
      RecordFresh(i, n);
      MapsFresh(g, c, View());
      EndDirect(g, c, m, e, View());
    }

    /** Takes a block for the pointer table of file `i`, and records that on disk. */
    method AllocTable(i: nat) returns (b: nat)
      requires Linked() && i < NUM_INODES && TableFits(View().vol.table)
      requires exists x :: x in FreeSet(View().vol.bits) && x < g.N
      modifies table, disk.data, bitmap.bits
      ensures Taken(g, old(View()), b, i, old(View()).vol.table[i].(indirect := b), View())
    {
      hide BlockStart, Beyond, FreeSet;
      b := GetIndex();
      assert InodeFits(View().vol.table[i]);
      SetInode(i, table[i].(indirect := b));
      UpdateTable();
      UpdateBitmap();
    }

    /** Gives the file being written a pointer block; it reads as an empty table. */
    method TakeTable(i: nat, ghost c: Call, ghost e: Extent, ghost j: nat, ghost n: nat)
      returns (ghost e': Extent)
      requires Linked() && View() in Ongoing(g, c, e, j, n) && i == c.job.i
      requires e.table == 0 && |e.data| == DIRECT && j <= c.job.last + 1 && c.job.TakesTable()
      modifies table, disk.data, bitmap.bits
      ensures View() in Ongoing(g, c, e', j, n)
      ensures e' == e.(table := e'.table) && 0 < e'.table < g.N
      ensures View().vol.table[i].indirect == e'.table && View().vol.blocks[e'.table] == Zeros(g.B)
    {
      hide BlockStart, Beyond, Ongoing;
      ghost var m := View();
      Known(g, c, m, e, j, n);
      TableRoom(g, c, m, e, j, n);
      var b := AllocTable(i);
      TableStep(g, c, m, e, j, n, b, View());
      e' := e.(table := b);
    }

    /** Whole blocks of a first write, through the pointer table in memory. */
    method FreshIndirect(fd: nat, buf: seq<byte>, indirectblknum: nat, n0: nat, t0: seq<nat>, ghost c: Call,
                         ghost e0: Extent)
      returns (n: nat, t: seq<nat>, ghost e: Extent)
      requires Linked() && View() in Ongoing(g, c, e0, DIRECT, n0) && n0 == BlockStart(g.B, DIRECT)
      requires fd == c.fd && buf == c.job.buf && c.job.w == c.job.first == 0
      requires |e0.data| == DIRECT && indirectblknum >= 1 && c.job.last + 1 == DIRECT + indirectblknum
      requires |t0| == g.P && TableUpTo(g, t0, e0, indirectblknum)
      modifies disk.data, bitmap.bits, fdt
      ensures View() in Ongoing(g, c, e, c.job.last, n) && n == BlockStart(g.B, c.job.last)
      ensures |e.data| == c.job.last && e.table == e0.table
      ensures |t| == g.P && TableUpTo(g, t, e, indirectblknum)
    {
      hide BlockStart, Beyond, Ongoing, TableUpTo, TableOK;
      n, t, e := n0, t0, e0;
      Known(g, c, View(), e, DIRECT, n);
      for j := 0 to indirectblknum - 1
        invariant View() in Ongoing(g, c, e, DIRECT + j, n) && n == BlockStart(g.B, DIRECT + j)
        invariant |e.data| == DIRECT + j && e.table == e0.table
        invariant |t| == g.P && TableUpTo(g, t, e, indirectblknum)
      {
        FreshPiece(g.B, buf, c.job.last, DIRECT + j, n);
        var temp := Memcpy(Zeros(g.B), 0, buf, (DIRECT + j) * g.B, g.B);
        var write;
        t, write, e := StoreNewIndirect(t, DIRECT + j, temp, c, e, n);
        n := CountWritten(write, fd, n, g.B, c, e, DIRECT + j + 1);
      }
    }

    /** A first write that needs a pointer block; only the entries of `stack` past the file must be zero. */
    method WriteFreshIndirect(fd: nat, i: nat, buf: seq<byte>, numblkwr: nat, stack: seq<nat>, ghost c: Call)
      returns (n: nat)
      requires Linked() && Called(g, c, View(), fd, i, buf, 1, numblkwr, 0)
      requires JobFile(g, c.job)
      requires c.job.Was() == Extent([], 0) && c.job.w == 0 && numblkwr > DIRECT
      requires |stack| == g.P && forall k | numblkwr - DIRECT <= k < g.P :: stack[k] == 0
      modifies table, disk.data, bitmap.bits, fdt
      ensures n == |buf| && View() in Finished(g, c)
    {
      hide BlockStart, Beyond, Ongoing, Finished, JobOK, JobFile, TableOK;
      var indirectblknum := numblkwr - 12;
      ghost var e;
      n, e := FreshDirect(fd, i, buf, DIRECT, c);
      e := TakeTable(i, c, e, DIRECT, n);
      UpdateBitmapAgain(c, e, DIRECT, n);
      var t := stack;
      n, t, e := FreshIndirect(fd, buf, indirectblknum, n, t, c, e);
      n, t, e := FreshTailIndirect(fd, buf, numblkwr, n, t, c, e);
      CloseFreshIndirect(i, n, t, c, e);
    }

    /** The bitmap written to disk once more. */
    method UpdateBitmapAgain(ghost c: Call, ghost e: Extent, ghost j: nat, ghost n: nat)
      requires Linked() && View() in Ongoing(g, c, e, j, n)
      modifies disk.data
      ensures View() in Ongoing(g, c, e, j, n)
    {
      hide BlockStart, Beyond, Ongoing;
      ghost var m := View();
      UpdateBitmap();
      RewriteStep(g, c, m, e, j, n, View());
    }

    /** The last block of a first write, through the pointer table in memory. */
    method FreshTailIndirect(fd: nat, buf: seq<byte>, numblkwr: nat, n0: nat, t0: seq<nat>, ghost c: Call,
                             ghost e0: Extent)
      returns (n: nat, t: seq<nat>, ghost e: Extent)
      requires Linked() && View() in Ongoing(g, c, e0, c.job.last, n0) && n0 == BlockStart(g.B, c.job.last)
      requires fd == c.fd && buf == c.job.buf && c.job.w == c.job.first == 0
      requires |e0.data| == c.job.last && numblkwr == c.job.last + 1 > DIRECT
      requires |t0| == g.P && TableUpTo(g, t0, e0, numblkwr - DIRECT)
      requires c.job.Was() == Extent([], 0)
      modifies disk.data, bitmap.bits, fdt
      ensures View() in Ongoing(g, c, e, numblkwr, n) && n == |buf|
      ensures e.table == e0.table
      ensures |t| == g.P && TableOK(g, t, e)
    {
      hide BlockStart, Beyond, Ongoing, TableUpTo, TableOK;
      Known(g, c, View(), e0, c.job.last, n0);
      FreshTail(g.B, buf, c.job.last, n0);
      var temp := Memcpy(Zeros(g.B), 0, buf, (numblkwr - 1) * g.B, |buf| % g.B);
      var write;
      t, write, e := StoreNewIndirect(t0, numblkwr - 1, temp, c, e0, n0);
      TableFilled(g, t, e, numblkwr - DIRECT);
      n := CountWritten(write, fd, n0, |buf| % g.B, c, e, numblkwr);
    }

    /** The size, the pointer table, the inode table and the bitmap after a first write. */
    method RecordFreshIndirect(i: nat, n: nat, t: seq<nat>)
      requires Linked() && i < NUM_INODES && TableFits(View().vol.table) && n < WORD_LIMIT
      requires View().vol.table[i].size == 0
      requires |t| == g.P && Fits(t) && g.Meta() <= View().vol.table[i].indirect < g.N
      modifies table, disk.data
      ensures TablePut(g, old(View()), i, n, old(View()).vol.table[i].indirect, t, View())
      ensures MapsOK(g, View())
    {
      hide BlockStart, Beyond, TableWritten, Fit, Encode, Fits, TablePut, MapsWritten, MapsOK, FreeSet;
      ghost var m := View();
      GrowSize(i, n);
      ghost var m1 := View();
      var s := WriteBlock(table[i].indirect, Encode(t));
      UpdateMaps();
      PutTable(g, m, i, n, table[i].indirect, t, m1, View());
    }

    /** The records at the end of a first write with a pointer block. */
    method CloseFreshIndirect(i: nat, n: nat, t: seq<nat>, ghost c: Call, ghost e: Extent)
      requires Linked() && View() in Ongoing(g, c, e, c.job.last + 1, |c.job.buf|) && i == c.job.i
      requires JobOK(g, c.job) && JobFile(g, c.job) && c.job.last >= DIRECT && e.table != 0
      requires c.job.Was() == Extent([], 0) && c.job.w == 0 && n == |c.job.buf|
      requires |t| == g.P && TableOK(g, t, e)
      modifies table, disk.data
      ensures View() in Finished(g, c)
    {
      hide BlockStart, Beyond, Ongoing, Finished, JobOK, JobFile, TablePut, MapsOK, MapsStored;
      ghost var m := View();
      Known(g, c, m, e, c.job.last + 1, |c.job.buf|);
      KnownTable(g, c, m, e, c.job.last + 1, |c.job.buf|, t);
      FreshSize(g, c, m, e, c.job.last + 1, |c.job.buf|);
      EndCount(g, c, m, e, |c.job.buf|);
      RecordFreshIndirect(i, n, t);
      MapsFresh(g, c, View());
      EndIndirect(g, c, m, e, t, View());
    }

    // ----- a write from the direct blocks into the indirect ones -----

    /** One whole block past the direct pointers; the pointer block is taken, and read, when there is none. */
    method OneCrossing(fd: nat, i: nat, buf: seq<byte>, currentblk: nat, offset: nat, j: nat, n: nat, t0: seq<nat>,
                       ghost c: Call, ghost e0: Extent)
      returns (n': nat, t: seq<nat>, ghost e: Extent)
      requires Linked() && View() in Ongoing(g, c, e0, j, n)
      requires i == c.job.i && fd == c.fd && buf == c.job.buf
      requires currentblk == c.job.first + 1 <= DIRECT <= j < c.job.last
      requires |t0| == g.P && TableOK(g, t0, e0) && (e0.table == 0 ==> |e0.data| == DIRECT && c.job.Was().table == 0)
      requires c.job.w == BlockStart(g.B, c.job.first) + offset
      requires BlockStart(g.B, j) == c.job.w + n
      modifies table, disk.data, bitmap.bits, fdt
      ensures View() in Ongoing(g, c, e, j + 1, n') && BlockStart(g.B, j + 1) == c.job.w + n'
      ensures |t| == g.P && TableOK(g, t, e) && e.table != 0
    {
      hide BlockStart, Beyond, Ongoing, TableOK;
      t, e := t0, e0;
      Known(g, c, View(), e, j, n);
      if table[i].indirect == 0 {
        e := TakeTable(i, c, e, j, n);
        var block := ReadBlock(table[i].indirect, Zeros(g.B));
        t := Decode(block, g.P);
        EmptyTable(g, block, t, e);
      }
      n', t, e := OneIndirect(fd, buf, currentblk, offset, j, n, t, c, e);
    }

    /** Whole blocks past the direct pointers. */
    method MiddleCrossing(fd: nat, i: nat, buf: seq<byte>, currentblk: nat, endblk: nat, offset: nat, n0: nat,
                          t0: seq<nat>,
                          ghost c: Call, ghost e0: Extent)
      returns (n: nat, t: seq<nat>, ghost e: Extent)
      requires Linked() && View() in Ongoing(g, c, e0, DIRECT, n0)
      requires i == c.job.i && fd == c.fd && buf == c.job.buf
      requires currentblk == c.job.first + 1 <= DIRECT < endblk == c.job.last + 1
      requires |t0| == g.P && TableOK(g, t0, e0) && (e0.table == 0 ==> |e0.data| == DIRECT && c.job.Was().table == 0)
      requires c.job.w == BlockStart(g.B, c.job.first) + offset
      requires BlockStart(g.B, DIRECT) == c.job.w + n0
      modifies table, disk.data, bitmap.bits, fdt
      ensures View() in Ongoing(g, c, e, c.job.last, n) && BlockStart(g.B, c.job.last) == c.job.w + n
      ensures |t| == g.P && TableOK(g, t, e)
      ensures e.table == 0 <==> e0.table == 0 && c.job.last == DIRECT
    {
      hide BlockStart, Beyond, Ongoing, TableOK;
      n, t, e := n0, t0, e0;
      var j := 12;
      while j < endblk - 1
        invariant DIRECT <= j <= endblk - 1
        invariant View() in Ongoing(g, c, e, j, n) && BlockStart(g.B, j) == c.job.w + n
        invariant |t| == g.P && TableOK(g, t, e)
        invariant e.table == 0 ==> |e.data| == DIRECT && c.job.Was().table == 0
        invariant e.table == 0 <==> e0.table == 0 && j == DIRECT
      {
        n, t, e := OneCrossing(fd, i, buf, currentblk, offset, j, n, t, c, e);
        j := j + 1;
      }
    }

    /** From the direct blocks into the indirect ones; the local table starts out all zero. */
    method WriteCrossing(fd: nat, i: nat, buf: seq<byte>, currentblk: nat, endblk: nat, offset: nat, end: nat,
                         ghost c: Call)
      returns (n: nat)
      requires Linked() && Called(g, c, View(), fd, i, buf, currentblk, endblk, offset) && end == c.job.w + |buf|
      requires c.job.first < |c.job.Was().data| <= DIRECT && currentblk <= DIRECT < endblk
      modifies table, disk.data, bitmap.bits, fdt
      ensures n == |buf|
      ensures c.job.last > DIRECT && JobFile(g, c.job) ==> View() in Finished(g, c)
      ensures (c.job.last == DIRECT && c.job.Was().table == 0) || Forgets(g, c.job) ==> View() in Spoilt(g, c)
    {
      hide BlockStart, Beyond, Ongoing, Finished, Spoilt, Forgets, JobOK, JobFile, TableOK;
      ghost var e := c.job.Was();
      Known(g, c, View(), e, c.job.first, 0);
      KnownPointers(g, c, View(), e, c.job.first, 0);
      HeadAt(g.B, c.job.w, |buf|, c.job.first, c.job.last, offset);
      n := PatchFirst(fd, table[i].direct[currentblk - 1], offset, buf, g.B - offset, c, e);
      n, e := MiddleDirect(fd, i, buf, currentblk, DIRECT, offset, n, c, e);
      Known(g, c, View(), e, DIRECT, n);
      var t := seq(g.P, _ => 0);
      ZeroTable(g, t, e);
      n, t, e := MiddleCrossing(fd, i, buf, currentblk, endblk, offset, n, t, c, e);
      n, t, e := TailIndirect(fd, buf, currentblk, endblk, offset, n, t, c, e);
      CloseCrossing(i, end, t, c, e);
    }

    // ----- write -----

    /** The branches of a first write. */
    method WriteFirst(fd: nat, i: nat, buf: seq<byte>, numblkwr: nat, ghost c: Call) returns (n: nat)
      requires Linked() && Called(g, c, View(), fd, i, buf, 1, numblkwr, 0) && JobFile(g, c.job)
      requires c.job.Was() == Extent([], 0) && c.job.w == 0
      modifies table, disk.data, bitmap.bits, fdt
      ensures n == |buf| && View() in Finished(g, c)
    {
      hide BlockStart, Beyond, Ongoing, Finished, JobOK, JobFile;
      if numblkwr <= 12 {
        n := WriteFreshDirect(fd, i, buf, numblkwr, c);
      } else {
        n := WriteFreshIndirect(fd, i, buf, numblkwr, seq(g.P, _ => 0), c);
      }
    }

    /** The branches of a later write. */
    method WriteLater(fd: nat, i: nat, buf: seq<byte>, currentblk: nat, endblk: nat, offset: nat, end: nat,
                      ghost c: Call)
      returns (n: nat)
      requires Linked() && Called(g, c, View(), fd, i, buf, currentblk, endblk, offset) && end == c.job.w + |buf|
      requires currentblk <= endblk && c.job.first < |c.job.Was().data|
      requires currentblk <= DIRECT < endblk ==> |c.job.Was().data| <= DIRECT
      requires !(currentblk <= DIRECT < endblk) ==> JobFile(g, c.job)
      modifies table, disk.data, bitmap.bits, fdt
      ensures n == |buf|
      ensures !(currentblk <= DIRECT < endblk) || (c.job.last > DIRECT && JobFile(g, c.job)) ==>
          View() in Finished(g, c)
      ensures currentblk <= DIRECT < endblk ==>
                (c.job.last == DIRECT && c.job.Was().table == 0) || Forgets(g, c.job) ==> View() in Spoilt(g, c)
    {
      hide BlockStart, Beyond, Ongoing, Finished, Spoilt, JobOK, JobFile, Forgets;
      if endblk <= 12 {
        if endblk > currentblk {
          n := WriteDirectSpan(fd, i, buf, currentblk, endblk, offset, end, c);
        } else {
          n := WriteDirectOne(fd, i, buf, currentblk, offset, end, c);
        }
      } else if currentblk > 12 {
        if currentblk < endblk {
          n := WriteIndirectSpan(fd, i, buf, currentblk, endblk, offset, end, c);
        } else {
          n := WriteIndirectOne(fd, i, buf, currentblk, offset, end, c);
        }
      } else {
        n := WriteCrossing(fd, i, buf, currentblk, endblk, offset, end, c);
      }
    }

    /** All branches: a first write, or a later one. */
    method WriteBranches(fd: nat, i: nat, buf: seq<byte>, pointer: nat, offset: nat, numblkwr: nat, ghost c: Call)
      returns (n: nat)
      requires Linked() && i < NUM_INODES && |View().vol.table[i].direct| == DIRECT && JobOK(g, c.job)
      requires Called(g, c, View(), fd, i, buf, BlockOf(g.B, pointer) + 1, BlockOf(g.B, pointer + |buf|) + 1, offset)
      requires Shaped(g, View().vol.table[i], c.job) && pointer == c.job.w
      requires pointer == 0 ==> numblkwr == BlockOf(g.B, |buf|) + 1
      modifies table, disk.data, bitmap.bits, fdt
      ensures n == |buf| && Ends(g, c, old(View()).vol.table[i], View())
    {
      hide BlockStart, Beyond, Ongoing, Finished, Spoilt, JobOK, JobFile, Forgets, FreeSet, BlockOf, Target;
      if table[i].direct[0] == 0 {
        BlockZero(g.B);
        n := WriteFirst(fd, i, buf, numblkwr, c);
      } else {
        BlockOrder(g.B, pointer, pointer + |buf|);
        var currentblk, endblk := BlockOf(g.B, pointer) + 1, BlockOf(g.B, pointer + |buf|) + 1;
        n := WriteLater(fd, i, buf, currentblk, endblk, offset, |buf| + pointer, c);
      }
    }

    /** The write call; a file need not be open to be written. */
    method Write(fileID: nat, buf: seq<byte>) returns (written: nat)
      requires Linked() && Good(g, sb, View(), files) && fileID < files
      requires Room(g, View().vol, fileID + 1, View().fdt[fileID].wptr, buf)
      modifies table, disk.data, bitmap.bits, fdt
      ensures written == |buf|
      ensures WriteMeets(g, sb, old(View()), files, fileID, buf, View())
    {
      hide Called, Calls, Ends, Shaped, Room, BlockStart, Beyond, BlockOf, OffsetIn, JobOK, CallOf, FreeSet,
           WriteMeets, Good, WellFormed, ShortName;
      ghost var m := View();
      GoodKnown(g, sb, m, files, fileID);
      var i, pointer := fdt[fileID].inode, fdt[fileID].wptr;
      var offset := OffsetIn(g.B, pointer);
      var numblkwr := BlocksToWrite(offset, |buf|);
      ghost var c := CallOf(g, m, fileID, buf);
      CallBegins(g, sb, m, files, fileID, buf, pointer, offset);
      written := WriteBranches(fileID, i, buf, pointer, offset, numblkwr, c);
      CallMeets(g, sb, c, files, View());
    }

    /** How many blocks a write touches, as the code counts them. */
    method BlocksToWrite(offset: nat, length: nat) returns (numblkwr: nat)
      requires offset < g.B
      ensures numblkwr == BlockOf(g.B, offset + length) + 1
    {
      hide BlockStart, Beyond;
      BlocksTouched(g.B, offset, length);
      if offset + length < g.B {
        numblkwr := 1;
      } else {
        numblkwr := 2 + (length - (g.B - offset)) / g.B;
      }
    }

    // ----- read -----

    /** Copies `len` bytes from `from` on of the block at `ptr`, which is logical block `k`, to the end of `out`. */
    method ReadPiece(fd: nat, ptr: nat, from: nat, len: nat, out: seq<byte>, ghost k: nat, ghost c: Read)
      returns (out': seq<byte>)
      requires Linked() && ReadOK(g, c) && Reading(g, c, View(), |out|, out) && fd == c.fd
      requires from + len <= g.B && |out| + len <= c.len && k < DIRECT + g.P && ptr == PointerTo(g, c, k)
      requires len == 0 || BlockStart(g.B, k) + from == c.r + |out|
      modifies fdt
      ensures |out'| == |out| + len && Reading(g, c, View(), |out'|, out')
    {
      hide BlockStart, Beyond, ReadOK, Reading, PointerTo;
      ghost var m := View();
      ReadKnown(g, c, m, |out|, out);
      var temp := ReadBlock(ptr, Zeros(g.B));
      out' := out + temp[from..from + len];
      AdvanceRead(fd, len);
      PieceRead(g, c, m, |out|, out, k, temp, from, len, View());
    }

    /** Moves the read position of a descriptor. */
    method AdvanceRead(fd: nat, k: nat)
      requires Linked() && fd < NUM_INODES
      modifies fdt
      ensures View() == old(View()).WithFd(fd, old(View()).fdt[fd].(rwptr := old(View()).fdt[fd].rwptr + k))
    {
      fdt[fd] := fdt[fd].(rwptr := fdt[fd].rwptr + k);
    }

    /** The pointer table of the file read; the code does not ask whether there is one. */
    method ReadPointers(i: nat, ghost c: Read) returns (t: seq<nat>)
      requires Linked() && ReadOK(g, c) && Reading(g, c, View(), 0, []) && i == c.i
      ensures |t| == g.P && forall k | 0 <= k < g.P :: PointerTo(g, c, DIRECT + k) == t[k]
    {
      hide BlockStart, Beyond, ReadOK, Reading, PointerTo;
      ReadKnown(g, c, View(), 0, []);
      var indirect := ReadBlock(table[i].indirect, Zeros(g.B));
      t := Decode(indirect, g.P);
      TableSeen(g, c, t);
    }

    /** Where logical block `k`, past the direct pointers, is. */
    lemma EntryKnown(c: Read, t: seq<nat>, k: nat)
      requires ReadOK(g, c) && |t| == g.P && forall x | 0 <= x < g.P :: PointerTo(g, c, DIRECT + x) == t[x]
      requires DIRECT <= k <= c.last
      ensures k < DIRECT + g.P && t[k - DIRECT] == PointerTo(g, c, k)
    {
      assert PointerTo(g, c, DIRECT + (k - DIRECT)) == t[k - DIRECT];
    }

    /** Whole blocks before `stop` through direct pointers. */
    method ReadMiddleDirect(fd: nat, i: nat, currentblk: nat, stop: nat, out0: seq<byte>, ghost c: Read)
      returns (out: seq<byte>)
      requires Linked() && ReadOK(g, c) && Reading(g, c, View(), |out0|, out0) && fd == c.fd && i == c.i
      requires currentblk <= stop <= DIRECT && stop <= c.last && BlockStart(g.B, currentblk) == c.r + |out0|
      modifies fdt
      ensures Reading(g, c, View(), |out|, out) && BlockStart(g.B, stop) == c.r + |out|
    {
      hide BlockStart, Beyond, ReadOK, Reading, PointerTo;
      out := out0;
      var j := currentblk;
      while j < stop
        invariant currentblk <= j <= stop
        invariant Reading(g, c, View(), |out|, out) && BlockStart(g.B, j) == c.r + |out|
      {
        ReadKnown(g, c, View(), |out|, out);
          MiddleRead(g.B, c.r, c.len, c.first, c.last, j, |out|);
        out := ReadPiece(fd, table[i].direct[j], 0, g.B, out, j, c);
        j := j + 1;
      }
    }

    /** Whole blocks before the last through the pointer table. */
    method ReadMiddleIndirect(fd: nat, t: seq<nat>, start: nat, endblk: nat, out0: seq<byte>, ghost c: Read)
      returns (out: seq<byte>)
      requires Linked() && ReadOK(g, c) && Reading(g, c, View(), |out0|, out0) && fd == c.fd
      requires |t| == g.P && forall k | 0 <= k < g.P :: PointerTo(g, c, DIRECT + k) == t[k]
      requires DIRECT <= start <= c.last == endblk - 1 && BlockStart(g.B, start) == c.r + |out0|
      modifies fdt
      ensures Reading(g, c, View(), |out|, out) && BlockStart(g.B, c.last) == c.r + |out|
    {
      hide BlockStart, Beyond, ReadOK, Reading, PointerTo;
      out := out0;
      var j := start;
      while j < endblk - 1
        invariant start <= j <= endblk - 1
        invariant Reading(g, c, View(), |out|, out) && BlockStart(g.B, j) == c.r + |out|
      {
        ReadKnown(g, c, View(), |out|, out);
        EntryKnown(c, t, j);
        MiddleRead(g.B, c.r, c.len, c.first, c.last, j, |out|);
        out := ReadPiece(fd, t[j - 12], 0, g.B, out, j, c);
        j := j + 1;
      }
    }

    /** The call in hand: block numbers count from 1. */
    ghost predicate ReadCalled(c: Read, m: Mem, fd: nat, i: nat, length: nat, currentblk: nat, endblk: nat,
                               offset: nat) {
      && ReadOK(g, c) && Reading(g, c, m, 0, [])
      && fd == c.fd && i == c.i && length == c.len
      && currentblk == c.first + 1 && endblk == c.last + 1
      && offset < g.B && c.r == BlockStart(g.B, c.first) + offset
    }

    /** Direct blocks only, several of them. */
    method ReadDirectSpan(fd: nat, i: nat, pointer: nat, length: nat, currentblk: nat, endblk: nat, offset: nat,
                          ghost c: Read)
      returns (out: seq<byte>)
      requires Linked() && ReadCalled(c, View(), fd, i, length, currentblk, endblk, offset) && pointer == c.r
      requires currentblk < endblk <= DIRECT
      modifies fdt
      ensures |out| == c.len && Reading(g, c, View(), |out|, out)
    {
      hide BlockStart, Beyond, ReadOK, Reading, PointerTo;
      ReadKnown(g, c, View(), 0, []);
      HeadAt(g.B, c.r, c.len, c.first, c.last, offset);
      out := ReadPiece(fd, table[i].direct[currentblk - 1], offset, g.B - offset, [], currentblk - 1, c);
      out := ReadMiddleDirect(fd, i, currentblk, endblk - 1, out, c);
      ReadKnown(g, c, View(), |out|, out);
      TailRest(g.B, c.r, c.len, c.first, c.last, offset, |out|);
      out := ReadPiece(fd, table[i].direct[endblk - 1], 0, (length + pointer) % g.B, out, endblk - 1, c);
    }

    /** Inside one direct block. */
    method ReadDirectOne(fd: nat, i: nat, length: nat, currentblk: nat, offset: nat, ghost c: Read)
      returns (out: seq<byte>)
      requires Linked() && ReadCalled(c, View(), fd, i, length, currentblk, currentblk, offset)
      requires currentblk <= DIRECT
      modifies fdt
      ensures |out| == c.len && Reading(g, c, View(), |out|, out)
    {
      hide BlockStart, Beyond, ReadOK, Reading, PointerTo;
      ReadKnown(g, c, View(), 0, []);
      out := ReadPiece(fd, table[i].direct[currentblk - 1], offset, length, [], currentblk - 1, c);
    }

    /** Indirect blocks only, several of them. */
    method ReadIndirectSpan(fd: nat, i: nat, length: nat, currentblk: nat, endblk: nat, offset: nat, ghost c: Read)
      returns (out: seq<byte>)
      requires Linked() && ReadCalled(c, View(), fd, i, length, currentblk, endblk, offset)
      requires DIRECT < currentblk < endblk
      modifies fdt
      ensures |out| == c.len && Reading(g, c, View(), |out|, out)
    {
      hide BlockStart, Beyond, ReadOK, Reading, PointerTo;
      ReadKnown(g, c, View(), 0, []);
      HeadAt(g.B, c.r, c.len, c.first, c.last, offset);
      var t := ReadPointers(i, c);
      EntryKnown(c, t, currentblk - 1);
      out := ReadPiece(fd, t[currentblk - 13], offset, g.B - offset, [], currentblk - 1, c);
      out := ReadMiddleIndirect(fd, t, currentblk, endblk, out, c);
      EntryKnown(c, t, endblk - 1);
      TailRest(g.B, c.r, c.len, c.first, c.last, offset, |out|);
      out := ReadPiece(fd, t[endblk - 13], 0, (offset + length) % g.B, out, endblk - 1, c);
    }

    /** Inside one indirect block. */
    method ReadIndirectOne(fd: nat, i: nat, length: nat, currentblk: nat, offset: nat, ghost c: Read)
      returns (out: seq<byte>)
      requires Linked() && ReadCalled(c, View(), fd, i, length, currentblk, currentblk, offset)
      requires DIRECT < currentblk
      modifies fdt
      ensures |out| == c.len && Reading(g, c, View(), |out|, out)
    {
      hide BlockStart, Beyond, ReadOK, Reading, PointerTo;
      ReadKnown(g, c, View(), 0, []);
      var t := ReadPointers(i, c);
      EntryKnown(c, t, currentblk - 1);
      out := ReadPiece(fd, t[currentblk - 13], offset, length, [], currentblk - 1, c);
    }

    /** From the direct blocks into the indirect ones. */
    method ReadCrossing(fd: nat, i: nat, length: nat, currentblk: nat, endblk: nat, offset: nat, ghost c: Read)
      returns (out: seq<byte>)
      requires Linked() && ReadCalled(c, View(), fd, i, length, currentblk, endblk, offset)
      requires currentblk <= DIRECT < endblk
      modifies fdt
      ensures |out| == c.len && Reading(g, c, View(), |out|, out)
    {
      hide BlockStart, Beyond, ReadOK, Reading, PointerTo;
      ReadKnown(g, c, View(), 0, []);
      HeadAt(g.B, c.r, c.len, c.first, c.last, offset);
      var t := ReadPointers(i, c);
      out := ReadPiece(fd, table[i].direct[currentblk - 1], offset, g.B - offset, [], currentblk - 1, c);
      out := ReadMiddleDirect(fd, i, currentblk, DIRECT, out, c);
      out := ReadMiddleIndirect(fd, t, DIRECT, endblk, out, c);
      EntryKnown(c, t, endblk - 1);
      TailRest(g.B, c.r, c.len, c.first, c.last, offset, |out|);
      out := ReadPiece(fd, t[endblk - 13], 0, (offset + length) % g.B, out, endblk - 1, c);
    }

    /** The branches of a read. */
    method ReadBranches(fd: nat, i: nat, pointer: nat, length: nat, currentblk: nat, endblk: nat, offset: nat,
                        ghost c: Read)
      returns (out: seq<byte>)
      requires Linked() && ReadCalled(c, View(), fd, i, length, currentblk, endblk, offset) && pointer == c.r
      requires currentblk <= endblk
      modifies fdt
      ensures |out| == c.len && Reading(g, c, View(), |out|, out)
    {
      hide BlockStart, Beyond, ReadOK, Reading, PointerTo;
      if endblk <= 12 {
        if endblk > currentblk {
          out := ReadDirectSpan(fd, i, pointer, length, currentblk, endblk, offset, c);
        } else {
          out := ReadDirectOne(fd, i, length, currentblk, offset, c);
        }
      } else if currentblk > 12 {
        if currentblk < endblk {
          out := ReadIndirectSpan(fd, i, length, currentblk, endblk, offset, c);
        } else {
          out := ReadIndirectOne(fd, i, length, currentblk, offset, c);
        }
      } else {
        out := ReadCrossing(fd, i, length, currentblk, endblk, offset, c);
      }
    }

    /**
     * The read call: the bytes it finds from the read position on, as far as the file goes; nothing when it is not
     * open. The volume need not be consistent.
     */
    method Read(fileID: nat, length: nat) returns (count: nat, out: seq<byte>)
      requires Linked() && Readable(g, View(), fileID)
      modifies fdt
      ensures count == |out|
      ensures var f, all := old(View()).fdt[fileID], Seen(g, old(View()).vol, fileID + 1);
              && f.rwptr <= |all|
              && out == (if f.open then all[f.rwptr..Min(|all|, f.rwptr + length)] else [])
              && View() == old(View()).WithFd(fileID, f.(rwptr := f.rwptr + |out|))
    {
      hide BlockStart, Beyond, BlockOf, OffsetIn, ReadOK, Reading, Bytes;
      ghost var m := View();
      if !fdt[fileID].open {
        assert m == m.WithFd(fileID, m.fdt[fileID].(rwptr := m.fdt[fileID].rwptr + 0));
        return 0, [];
      }
      var i, pointer := fdt[fileID].inode, fdt[fileID].rwptr;
      var size := table[i].size;
      var len := length;
      if len + pointer > size {
        len := size - pointer;
      }
      ghost var c := ReadFor(g, m, fileID, len);
      ReadReady(g, m, fileID, len);
      SpanOf(g.B, pointer, len);
      BlockOrder(g.B, pointer, pointer + len);
      var currentblk, endblk := BlockOf(g.B, pointer) + 1, BlockOf(g.B, pointer + len) + 1;
      out := ReadBranches(fileID, i, pointer, len, currentblk, endblk, OffsetIn(g.B, pointer), c);
      count := |out|;
      ReadDone(g, c, View(), out);
    }

    // ----- descriptors -----

    /** Moves both positions, no further than the end of the file. */
    method Seek(fileID: nat, loc: nat) returns (r: int)
      requires Linked() && Good(g, sb, View(), files) && fileID < files
      modifies fdt
      ensures r == 0 && Good(g, sb, View(), files)
      ensures var p := Min(loc, old(View()).vol.table[fileID + 1].size);
              && View() == old(View()).WithFd(fileID, old(View()).fdt[fileID].(rwptr := p, wptr := p))
              && FilesOf(g, View(), files)
                 == FilesOf(g, old(View()), files)[fileID := FileAt(g, old(View()), fileID).(rpos := p, wpos := p)]
    {
      hide BlockStart, Beyond, Good, WellFormed, Content, ShortName;
      ghost var m := View();
      GoodKnown(g, sb, m, files, fileID);
      var index := fdt[fileID].inode;
      var size := table[index].size;
      var at := loc;
      if size < loc {
        at := size;
      }
      fdt[fileID] := fdt[fileID].(wptr := at);
      fdt[fileID] := fdt[fileID].(rwptr := at);
      r := 0;
      CursorMoved(g, sb, m, files, fileID, m.fdt[fileID].(rwptr := at, wptr := at), View());
    }

    /** Closes a descriptor that is open. */
    method Close(fileID: nat) returns (r: int)
      requires Linked() && Good(g, sb, View(), files) && fileID < files
      modifies fdt
      ensures Good(g, sb, View(), files)
      ensures r == if old(View()).fdt[fileID].open then 0 else -1
      ensures View() == old(View()).WithFd(fileID, old(View()).fdt[fileID].(open := false))
      ensures FilesOf(g, View(), files)
           == FilesOf(g, old(View()), files)[fileID := FileAt(g, old(View()), fileID).(open := false)]
    {
      hide BlockStart, Beyond, Good, WellFormed, Content, ShortName;
      ghost var m := View();
      GoodKnown(g, sb, m, files, fileID);
      if fdt[fileID].open {
        fdt[fileID] := fdt[fileID].(open := false);
        r := 0;
      } else {
        assert m == m.WithFd(fileID, m.fdt[fileID].(open := false));
        r := -1;
      }
      CursorMoved(g, sb, m, files, fileID, m.fdt[fileID].(open := false), View());
    }

    /** The descriptor of an existing file: opened afresh unless it was open. */
    method OpenExisting(i: nat) returns (r: nat)
      requires Linked() && DirOK(View(), files) && i < files
      modifies fdt
      ensures r == i
      ensures View() == if old(View()).fdt[i].open then old(View())
                        else old(View()).WithFd(i, Fd(i + 1, 0, old(View()).vol.table[i + 1].size, true))
    {
      hide BlockStart, Beyond, ShortName;
      assert forall k | 0 <= k < files :: FileOK(View().root[k], View().vol.table[k + 1], View().fdt[k], k);
      var j := 0;
      while fdt[j].inode != root[i].inode
        invariant 0 <= j <= i
        decreases i - j
      {
        j := j + 1;
      }
      if !fdt[j].open {
        fdt[j] := fdt[j].(open := true);
        fdt[j] := fdt[j].(rwptr := 0);
        fdt[j] := fdt[j].(wptr := table[fdt[j].inode].size);
      }
      r := j;
    }

    /** Takes an inode for directory slot `i`, and stores the directory; `NUM_INODES` when there is none left. */
    method TakeInode(i: nat, name: seq<byte>) returns (j: nat)
      requires Linked() && Good(g, sb, View(), files) && i == files && ShortName(name)
      modifies table, root, disk.data
      ensures j == files + 1
      ensures j == NUM_INODES ==> View() == old(View())
      ensures j < NUM_INODES ==>
                && View().fdt == old(View()).fdt
                && Created(g, old(View()), files, name, View().WithFd(files, Fd(files + 1, 0, 0, true)))
    {
      hide BlockStart, Beyond, WellFormed, TableKnown, TableFits, Fit, ShortName, RootOnDisk, TableOnDisk, FreeSet;
      ghost var m := View();
      UsedInodes(m, files);
      j := 0;
      while j < NUM_INODES && table[j].used
        invariant 0 <= j <= files + 1
      {
        j := j + 1;
      }
      if j < NUM_INODES {
        table[j] := table[j].(used := true);
        table[j] := table[j].(size := 0);
        root[i] := root[i].(inode := j);
        root[i] := root[i].(name := name);
        UpdateRoot();
      }
    }

    /** Takes a free descriptor for inode `j`. */
    method TakeDescriptor(j: nat) returns (k: nat)
      requires Linked() && files < NUM_INODES && View().fdt[files].inode == NO_INODE
      requires forall x | 0 <= x < files :: View().fdt[x].inode != NO_INODE
      modifies fdt
      ensures k == files && View() == old(View()).WithFd(k, Fd(j, 0, 0, true))
    {
      k := 0;
      while fdt[k].inode != NUM_INODES + 1
        invariant 0 <= k <= files
        decreases files - k
      {
        k := k + 1;
      }
      fdt[k] := fdt[k].(inode := j);
      fdt[k] := fdt[k].(rwptr := 0);
      fdt[k] := fdt[k].(open := true);
      fdt[k] := fdt[k].(wptr := 0);
    }

    /** Where a name is in the directory; `NUM_INODES` when it is not there. */
    method Find(name: seq<byte>) returns (i: nat)
      requires Linked() && DirOK(View(), files) && name != []
      ensures i < NUM_INODES ==> i < files && View().root[i].name == name
      ensures i >= NUM_INODES ==> forall k | 0 <= k < files :: View().root[k].name != name
    {
      i := 0;
      while i < NUM_INODES && root[i].name != name
        invariant 0 <= i <= NUM_INODES
        invariant forall k | 0 <= k < i :: View().root[k].name != name
      {
        i := i + 1;
      }
    }

    /** The first free slot of the directory. */
    method FindFree() returns (i: nat)
      requires Linked() && DirOK(View(), files)
      ensures i == files
    {
      assert forall k | 0 <= k < files :: FileOK(View().root[k], View().vol.table[k + 1], View().fdt[k], k);
      i := 0;
      while |root[i].name| != 0
        invariant 0 <= i <= files
        decreases files - i
      {
        i := i + 1;
      }
    }

    /** A new file in the first free slot. */
    method Create(name: seq<byte>) returns (r: nat)
      requires Linked() && Good(g, sb, View(), files) && name != [] && ShortName(name)
      requires forall k | 0 <= k < files :: View().root[k].name != name
      modifies this`files, table, root, fdt, disk.data
      ensures OpenMeets(g, sb, old(View()), old(files), name, r, View(), files)
    {
      hide BlockStart, Beyond, WellFormedBut, InStep, ShortName, Created, OpenMeets, RootInodeOK;
      ghost var m := View();
      var i := FindFree();
      UsedDescriptors(m, files);
      var j := TakeInode(i, name);
      r := TakeDescriptor(j);
      if j < NUM_INODES {
        CreateMeets(g, sb, m, files, name, View());
        files := files + 1;
      } else {
        TenthMeets(g, sb, m, files, name, View());
      }
    }

    /** The open call. Names are C strings. */
    method Open(name: seq<byte>) returns (r: int)
      requires Linked() && Good(g, sb, View(), files) && name != [] && 0 !in name
      modifies this`files, table, root, fdt, disk.data
      ensures OpenMeets(g, sb, old(View()), old(files), name, r, View(), files)
    {
      hide BlockStart, Beyond, WellFormed, InStep, DirOK, OpenMeets, RootInodeOK;
      ghost var m := View();
      if |name| > MAX_FILE_NAME {
        LongMeets(g, sb, m, files, name);
        return -1;
      }
      var i := Find(name);
      if i < NUM_INODES {
        r := OpenExisting(i);
        ReopenMeets(g, sb, m, files, name, i, View());
      } else {
        r := Create(name);
      }
    }

    // ----- reload -----

    /** Making the file system again without formatting: the tables are read back from the disk. */
    method Reload() returns (super: Block)
      requires Linked() && Good(g, sb, View(), files)
      modifies table, bitmap.bits, root
      ensures super == sb
      ensures View() == old(View()).WithTable(View().vol.table) == Reloaded(g, old(View()))
      ensures forall i | 0 <= i < NUM_INODES :: View().vol.table[i] ==
                if i == 0 || i > files || FileAt(g, old(View()), i - 1).stored then old(View()).vol.table[i]
                else Inode(false, 0, [0, 0, 0, 0, 0, 0, 0, 0, 0, 0, 0, 0], 0)
      ensures Shape(g, View().vol) && forall k | 0 <= k < files && FileAt(g, old(View()), k).stored ::
                Content(g, View().vol, k + 1) == FileAt(g, old(View()), k).data
    {
      hide BlockStart, Beyond, Good, TableOnDisk, FileAt, Content;
      ReloadGives(g, sb, View(), files);
      var t, bits, r;
      super, t, bits, r := ReadMetadata();
      LoadTable(t);
      LoadBitmap(bits);
      LoadRoot(r);
    }

    /** The four metadata regions, decoded. */
    method ReadMetadata() returns (super: Block, t: seq<Inode>, bits: seq<byte>, r: seq<DirEntry>)
      requires Linked() && Good(g, sb, View(), files)
      ensures |t| == NUM_INODES
      ensures super == sb && t == TableOnDisk(g, View().vol.blocks)
      ensures bits == View().vol.bits && r == View().root
    {
      hide BlockStart, Beyond, Good, TableFrom, RootFrom, TableOnDisk, ReadRange, Chop, FreeSet, Zeros;
      super := ReadBlock(0, Zeros(g.B));
      var tableBytes := ReadRegion(1, g.T);
      var mapBytes := ReadBlock(g.T + 1, Zeros(g.B));
      var rootBytes := ReadRegion(g.T + 2, g.R);
      OnDisk(g, sb, View(), files, super, tableBytes, mapBytes, rootBytes);
      t, bits, r := TableFrom(tableBytes), mapBytes[..g.S], RootFrom(rootBytes);
    }

    method ReadRegion(start: nat, n: nat) returns (bytes: seq<byte>)
      requires Linked() && start + n <= g.N
      ensures bytes == ReadRange(View().vol.blocks, start, n)
    {
      hide BlockStart, Beyond;
      var s;
      s, bytes := disk.ReadBlocks(start, n, Zeros(BlockStart(g.B, n)));
    }

    method LoadTable(t: seq<Inode>)
      requires Linked() && |t| == NUM_INODES
      modifies table
      ensures View() == old(View()).WithTable(t)
    {
      for i := 0 to NUM_INODES
        invariant table[..i] == t[..i]
      {
        table[i] := t[i];
      }
    }

    method LoadBitmap(bits: seq<byte>)
      requires Linked() && |bits| == g.S
      modifies bitmap.bits
      ensures View() == old(View()).WithBits(bits)
    {
      for i := 0 to g.S
        invariant bitmap.bits[..i] == bits[..i]
      {
        bitmap.bits[i] := bits[i];
      }
    }

    method LoadRoot(r: seq<DirEntry>)
      requires Linked() && |r| == NUM_INODES
      modifies root
      ensures View() == old(View()).(root := r)
    {
      for i := 0 to NUM_INODES
        invariant root[..i] == r[..i]
      {
        root[i] := r[i];
      }
    }

    // ----- releasing -----

    /**
     * The loop of remove over the direct pointers: each block is cleared, then freed, and the bitmap goes to disk; the
     * inode changes in memory only.
     */
    method ReleaseDirect(i: nat)
      requires Linked() && WellFormed(g, View().vol) && 1 <= i < NUM_INODES
      modifies table, disk.data, bitmap.bits
      ensures Released(g, old(View()), i, DIRECT, View())
      ensures var m, n := old(View()), old(View()).vol.table[i];
              && View() == m.WithBlocks(View().vol.blocks).WithBits(View().vol.bits)
                            .WithInode(i, n.(direct := [0, 0, 0, 0, 0, 0, 0, 0, 0, 0, 0, 0]))
              && (forall x :: x in FreeSet(View().vol.bits) <==>
                    x in FreeSet(m.vol.bits) || (x != 0 && x in n.direct))
              && (forall b | g.T + 2 + g.R <= b < g.N ::
                    View().vol.blocks[b] == if b in n.direct then Zeros(g.B) else m.vol.blocks[b])
    {
      hide BlockStart, Beyond, WellFormed, FreeSet, Released;
      ghost var m := View();
      ReleasePointers(i);
      ReleaseEnd(g, m, i, View());
    }

    /** The loop itself. */
    method ReleasePointers(i: nat)
      requires Linked() && WellFormed(g, View().vol) && 1 <= i < NUM_INODES
      modifies table, disk.data, bitmap.bits
      ensures Released(g, old(View()), i, DIRECT, View())
    {
      hide BlockStart, Beyond, WellFormed, FreeSet, Released, FreeBit, Fit, ReadRange, Fixed;
      ghost var m := View();
      ReleaseBegin(g, m, i);
      for k := 0 to DIRECT
        invariant Released(g, m, i, k, View())
      {
        ghost var m1 := View();
        ReleaseKnown(g, m, i, k, m1);
        if table[i].direct[k] != 0 {
          ReleaseOne(i, k);
        }
        ReleaseStep(g, m, i, k, m1, View());
      }
    }

    /** One direct block cleared and freed. */
    method ReleaseOne(i: nat, k: nat)
      requires Linked() && i < NUM_INODES && k < DIRECT && |View().vol.table[i].direct| == DIRECT
      requires g.Meta() <= View().vol.table[i].direct[k] < g.N
      modifies table, disk.data, bitmap.bits
      ensures var m, b := old(View()), old(View()).vol.table[i].direct[k];
              && b / 8 < |m.vol.bits| && Fixed(g, m.vol.blocks, View().vol.blocks)
              && ReadRange(View().vol.blocks, 1, g.T) == ReadRange(m.vol.blocks, 1, g.T)
              && View().vol.blocks[g.T + 1] == Fit(View().vol.bits, g.B)
              && View() == m.WithBits(FreeBit(m.vol.bits, b)).WithBlocks(View().vol.blocks)
                            .WithInode(i, m.vol.table[i].(direct := m.vol.table[i].direct[k := 0]))
              && forall x | g.Meta() <= x < g.N ::
                   View().vol.blocks[x] == if x == b then Zeros(g.B) else m.vol.blocks[x]
    {
      hide BlockStart, Beyond, FreeSet, FreeBit, Fit;
      ghost var was := View().vol.blocks;
      var s := WriteBlock(table[i].direct[k], Zeros(g.B));
      ReadFrame(was, View().vol.blocks, 1, g.T);
      bitmap.RmIndex(table[i].direct[k]);
      UpdateBitmap();
      SetInode(i, table[i].(direct := table[i].direct[k := 0]));
    }
  }
}
