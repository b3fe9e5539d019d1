/** Whole runs: the file system does what the flat machine says, call by call. */
module Runs {
  import opened Arith
  import opened Codec
  import opened FlatFile
  import opened DiskEmu
  import opened FreeMap
  import opened Layout
  import opened Metadata
  import opened Transfer
  import opened State
  import opened FlatFs
  import opened FlatMachine
  import opened WriteCall
  import opened Counting
  import opened Directory
  import opened Sfs

  // ----- room on the disk, seen from the files -----

  /** A file takes the blocks its flat form says. */
  lemma FileBlocks(g: Geo, sb: Block, m: Mem, files: nat, k: nat)
    requires Good(g, sb, m, files) && k < files
    ensures Total(Owners(g, m.vol)[k + 1]) == Blocks(g, FileAt(g, m, k))
    ensures Sane(FileAt(g, m, k))
  {
    hide BlockStart, Beyond, WellFormed, InStep, Owners, TableOK, Pointers, ExtentOK, DirectOK, ShortName;
    GoodKnown(g, sb, m, files, k);
    FileKnown(g, m.vol, k + 1);
  }

  /** Blocks owned by the inodes are blocks taken by the files. */
  lemma {:induction false} SumIs(g: Geo, own: seq<Extent>, fs: seq<File>, n: nat)
    requires n < |own| && |fs| < |own| && Total(own[0]) == 0
    requires forall k | 0 <= k < |fs| :: Total(own[k + 1]) == Blocks(g, fs[k])
    requires forall i | |fs| < i < |own| :: Total(own[i]) == 0
    ensures Sum(own, n + 1) == Used(g, fs[..Min(n, |fs|)])
  {
    hide BlockStart, Beyond, Blocks, Total;
    if n > 0 {
      SumIs(g, own, fs, n - 1);
      if n <= |fs| {
        assert fs[..n][..n - 1] == fs[..n - 1];
        assert Total(own[(n - 1) + 1]) == Blocks(g, fs[n - 1]);
      }
    }
  }

  /** The root directory and the inodes not in use own no data blocks. */
  lemma NoBlocks(g: Geo, sb: Block, m: Mem, files: nat, i: nat)
    requires Good(g, sb, m, files) && i < NUM_INODES && (i == 0 || files < i)
    ensures Total(Owners(g, m.vol)[i]) == 0
  {
    hide BlockStart, Beyond, InStep;
  }

  /** Conservation: metadata, free blocks and the blocks of the files make up the disk, at every point of a run. */
  lemma SpaceLeft(g: Geo, sb: Block, m: Mem, files: nat)
    requires Good(g, sb, m, files)
    ensures Avail(g, FreeSet(m.vol.bits)) + Used(g, FilesOf(g, m, files)) + g.Meta() == g.N
  {
    hide BlockStart, Beyond, InStep, DirOK, Used, Blocks, Total, Owners, AllocOK, FreeSet, InodeOK, FreeZero, FileAt;
    GoodShape(g, sb, m, files);
    var own, fs := Owners(g, m.vol), FilesOf(g, m, files);
    Conserved(g, own, FreeSet(m.vol.bits));
    forall i | 0 <= i < NUM_INODES && (i == 0 || files < i) ensures Total(own[i]) == 0 {
      NoBlocks(g, sb, m, files, i);
    }
    forall k | 0 <= k < files ensures Total(own[k + 1]) == Blocks(g, fs[k]) {
      FileBlocks(g, sb, m, files, k);
    }
    SumIs(g, own, fs, NUM_INODES - 1);
    assert fs[..files] == fs;
  }

  /** A legal write is one the code can carry out. */
  lemma LegalWrite(g: Geo, sb: Block, m: Mem, files: nat, k: nat, buf: seq<byte>)
    requires Good(g, sb, m, files) && Legal(g, FilesOf(g, m, files), Write(k, buf))
    ensures k < files && Room(g, m.vol, k + 1, m.fdt[k].wptr, buf)
    ensures Sound(g, m.vol.table[k + 1], m.fdt[k].wptr, |buf|)
  {
    hide BlockStart, Beyond, BlockOf, WellFormed, InStep, DirOK, Used, Owners, FreeSet, Avail, Content, Wrote,
         Blocks, Total, ShortName, MayCross, Crosses, JobFor;
    GoodShape(g, sb, m, files);
    var fs, f := FilesOf(g, m, files), FileAt(g, m, k);
    GoodKnown(g, sb, m, files, k);
    assert fs[k] == f;
    FileBlocks(g, sb, m, files, k);
    SpaceLeft(g, sb, m, files);
    UsedUpdate(g, fs, k, Wrote(g.B, f, buf));
    CrossKnown(g, m, k, buf);
    FinalBlocks(g, m, k, buf);
  }

  lemma CrossKnown(g: Geo, m: Mem, k: nat, buf: seq<byte>)
    requires WellFormed(g, m.vol) && k + 1 < NUM_INODES == |m.root| == |m.fdt|
    requires MayCross(g.B, FileAt(g, m, k), |buf|)
    ensures Sound(g, m.vol.table[k + 1], m.fdt[k].wptr, |buf|)
  {
    hide BlockStart, Beyond, BlockOf, WellFormed, Owners, TableOK, Pointers, ExtentOK, DirectOK;
    FileKnown(g, m.vol, k + 1);
    BlocksKnown(g, m.vol, k + 1);
  }

  /** What a write needs in all, unless it forgets blocks, is at most what the file takes afterwards. */
  lemma FinalBlocks(g: Geo, m: Mem, k: nat, buf: seq<byte>)
    requires WellFormed(g, m.vol) && k + 1 < NUM_INODES == |m.root| == |m.fdt|
    requires !Reuses(g, m.vol.table[k + 1], m.fdt[k].wptr, |buf|) && Sane(FileAt(g, m, k))
    ensures var job := JobFor(g, m.vol, k + 1, m.fdt[k].wptr, buf);
            && job.FinalTotal() <= Blocks(g, Wrote(g.B, FileAt(g, m, k), buf))
            && job.Was() == Owners(g, m.vol)[k + 1]
            && job.last == BlockOf(g.B, m.fdt[k].wptr + |buf|)
  {
    hide BlockStart, Beyond, BlockOf, AllocOK, InodeOK, FreeZero, Owners, TableOK, Pointers, ExtentOK, DirectOK;
    var size, end := m.vol.table[k + 1].size, m.fdt[k].wptr + |buf|;
    FileKnown(g, m.vol, k + 1);
    BlocksKnown(g, m.vol, k + 1);
    BlockOrder(g.B, Min(size, end), Max(size, end));
  }

  // ----- one call, and whole runs -----

  method DoClose(fs: FileSystem, fd: nat) returns (r: Result)
    requires fs.Linked() && Good(fs.g, fs.sb, fs.View(), fs.files)
    requires Legal(fs.g, FilesOf(fs.g, fs.View(), fs.files), Close(fd))
    modifies fs.fdt
    ensures Good(fs.g, fs.sb, fs.View(), fs.files)
    ensures (FilesOf(fs.g, fs.View(), fs.files), r) == Step(fs.g.B, old(FilesOf(fs.g, fs.View(), fs.files)), Close(fd))
  {
    hide BlockStart, Beyond, WellFormedBut, InStep, Content, ShortName;
    var n := fs.Close(fd);
    r := Number(n);
  }

  method DoSeek(fs: FileSystem, fd: nat, loc: nat) returns (r: Result)
    requires fs.Linked() && Good(fs.g, fs.sb, fs.View(), fs.files)
    requires Legal(fs.g, FilesOf(fs.g, fs.View(), fs.files), Seek(fd, loc))
    modifies fs.fdt
    ensures Good(fs.g, fs.sb, fs.View(), fs.files)
    ensures (FilesOf(fs.g, fs.View(), fs.files), r)
         == Step(fs.g.B, old(FilesOf(fs.g, fs.View(), fs.files)), Seek(fd, loc))
  {
    hide BlockStart, Beyond, WellFormedBut, InStep, Content, ShortName;
    var n := fs.Seek(fd, loc);
    r := Number(n);
  }

  method DoRead(fs: FileSystem, fd: nat, len: nat) returns (r: Result)
    requires fs.Linked() && Good(fs.g, fs.sb, fs.View(), fs.files)
    requires Legal(fs.g, FilesOf(fs.g, fs.View(), fs.files), Read(fd, len))
    modifies fs.fdt
    ensures Good(fs.g, fs.sb, fs.View(), fs.files)
    ensures (FilesOf(fs.g, fs.View(), fs.files), r)
         == Step(fs.g.B, old(FilesOf(fs.g, fs.View(), fs.files)), Read(fd, len))
  {
    hide BlockStart, Beyond, WellFormed, InStep, Content, Seen, Readable, ShortName, Recorded, FreeSet;
    ghost var m := fs.View();
    GoodReadable(fs.g, fs.sb, m, fs.files, fd);
    var n, out := fs.Read(fd, len);
    r := Text(out);
    GoodKnown(fs.g, fs.sb, m, fs.files, fd);
    CursorMoved(fs.g, fs.sb, m, fs.files, fd, m.fdt[fd].(rwptr := m.fdt[fd].rwptr + |out|), fs.View());
  }

  method DoWrite(fs: FileSystem, fd: nat, buf: seq<byte>) returns (r: Result)
    requires fs.Linked() && Good(fs.g, fs.sb, fs.View(), fs.files)
    requires Legal(fs.g, FilesOf(fs.g, fs.View(), fs.files), Write(fd, buf))
    modifies fs.table, fs.disk.data, fs.bitmap.bits, fs.fdt
    ensures Good(fs.g, fs.sb, fs.View(), fs.files)
    ensures (FilesOf(fs.g, fs.View(), fs.files), r)
         == Step(fs.g.B, old(FilesOf(fs.g, fs.View(), fs.files)), Write(fd, buf))
  {
    hide BlockStart, Beyond, BlockOf, WellFormed, InStep, DirOK, Content, ShortName, Wrote, Used, Good, WriteMeets,
         FreeSet, Room, Sound;
    ghost var m := fs.View();
    LegalWrite(fs.g, fs.sb, m, fs.files, fd, buf);
    var n := fs.Write(fd, buf);
    r := Number(n);
    WriteFiles(fs.g, fs.sb, m, fs.files, fd, buf, fs.View());
  }

  /** A sound write, on the list of files. */
  lemma WriteFiles(g: Geo, sb: Block, m: Mem, files: nat, k: nat, buf: seq<byte>, m': Mem)
    requires Good(g, sb, m, files) && k < files && WriteMeets(g, sb, m, files, k, buf, m')
    requires Sound(g, m.vol.table[k + 1], m.fdt[k].wptr, |buf|)
    ensures Good(g, sb, m', files) && Sane(FileAt(g, m, k))
    ensures FilesOf(g, m', files) == Rewritten(g.B, FilesOf(g, m, files), k, buf)
  {
    hide BlockStart, Beyond, BlockOf, WellFormed, InStep, Content, ShortName, Wrote, Sound, Marked, InPlace,
         SuperMeets, Readable, Avail, FreeSet, Needs, Seen, Recorded;
    GoodKnown(g, sb, m, files, k);
    assert FilesOf(g, m, files)[k] == FileAt(g, m, k);
  }

  method DoOpen(fs: FileSystem, name: seq<byte>) returns (r: Result)
    requires fs.Linked() && Good(fs.g, fs.sb, fs.View(), fs.files)
    requires Legal(fs.g, FilesOf(fs.g, fs.View(), fs.files), Open(name))
    modifies fs`files, fs.table, fs.root, fs.fdt, fs.disk.data
    ensures Good(fs.g, fs.sb, fs.View(), fs.files)
    ensures (FilesOf(fs.g, fs.View(), fs.files), r) == Step(fs.g.B, old(FilesOf(fs.g, fs.View(), fs.files)), Open(name))
  {
    hide BlockStart, Beyond, WellFormedBut, InStep, Content, ShortName, OpenMeets, FreeSet;
    ghost var m, files := fs.View(), fs.files;
    var n := fs.Open(name);
    r := Number(n);
    OpenFiles(fs.g, fs.sb, m, files, name, n, fs.View(), fs.files);
  }

  /** Opening, on the list of files: names are distinct, so the descriptor found is the only one. */
  lemma OpenFiles(g: Geo, sb: Block, m: Mem, files: nat, name: seq<byte>, r: int, m': Mem, files': nat)
    requires Good(g, sb, m, files) && OpenMeets(g, sb, m, files, name, r, m', files')
    requires Legal(g, FilesOf(g, m, files), Open(name))
    ensures Good(g, sb, m', files')
    ensures (FilesOf(g, m', files'), Number(r)) == Step(g.B, FilesOf(g, m, files), Open(name))
  {
    hide BlockStart, Beyond, WellFormedBut, InStep, Content, ShortName, Reopened;
    GoodShape(g, sb, m, files);
    var fs := FilesOf(g, m, files);
    assert forall k | 0 <= k < files :: fs[k].name == m.root[k].name;
    if |name| <= MAX_FILE_NAME {
      var i := IndexOf(fs, name);
      if exists k :: 0 <= k < files && m.root[k].name == name {
        var k :| 0 <= k < files && m.root[k].name == name;
        assert fs[k].name == name;
        assert i == r;
      }
    }
  }

  /** Reloading while every inode is on disk changes nothing. */
  method DoRemount(fs: FileSystem) returns (r: Result)
    requires fs.Linked() && Good(fs.g, fs.sb, fs.View(), fs.files)
    requires Legal(fs.g, FilesOf(fs.g, fs.View(), fs.files), Remount)
    modifies fs.table, fs.bitmap.bits, fs.root
    ensures Good(fs.g, fs.sb, fs.View(), fs.files)
    ensures (FilesOf(fs.g, fs.View(), fs.files), r) == Step(fs.g.B, old(FilesOf(fs.g, fs.View(), fs.files)), Remount)
  {
    hide BlockStart, Beyond, Good, Content, Reloaded, TableOnDisk, FreeSet;
    ghost var m := fs.View();
    GoodShape(fs.g, fs.sb, m, fs.files);
    ReloadIff(fs.g, fs.sb, m, fs.files);
    var super := fs.Reload();
    r := Number(0);
  }

  /** Every call the machine allows does what the machine says. */
  method Execute(fs: FileSystem, op: Op) returns (r: Result)
    requires fs.Linked() && Good(fs.g, fs.sb, fs.View(), fs.files)
    requires Legal(fs.g, FilesOf(fs.g, fs.View(), fs.files), op)
    modifies fs`files, fs.Repr()
    ensures Good(fs.g, fs.sb, fs.View(), fs.files)
    ensures (FilesOf(fs.g, fs.View(), fs.files), r) == Step(fs.g.B, old(FilesOf(fs.g, fs.View(), fs.files)), op)
  {
    hide BlockStart, Beyond, Good, Content, Step, Legal;
    match op {
      case Open(name) => r := DoOpen(fs, name);
      case Close(fd) => r := DoClose(fs, fd);
      case Seek(fd, loc) => r := DoSeek(fs, fd, loc);
      case Write(fd, buf) => r := DoWrite(fs, fd, buf);
      case Read(fd, len) => r := DoRead(fs, fd, len);
      case Remount => r := DoRemount(fs);
    }
  }

  /**
   * Any legal run from any consistent state: the results are the flat machine's, the files end up as the flat
   * machine's, and the volume is consistent at the end.
   */
  method Run(fs: FileSystem, ops: seq<Op>) returns (rs: seq<Result>)
    requires fs.Linked() && Good(fs.g, fs.sb, fs.View(), fs.files)
    requires LegalRun(fs.g, FilesOf(fs.g, fs.View(), fs.files), ops)
    modifies fs`files, fs.Repr()
    ensures Good(fs.g, fs.sb, fs.View(), fs.files)
    ensures (FilesOf(fs.g, fs.View(), fs.files), rs) == Outcome(fs.g, old(FilesOf(fs.g, fs.View(), fs.files)), ops)
    decreases |ops|
  {
    hide BlockStart, Beyond, Good, Content, Step, Legal, FileAt;
    if ops == [] {
      return [];
    }
    var r := Execute(fs, ops[0]);
    rs := Run(fs, ops[1..]);
    rs := [r] + rs;
  }

  /** Names, inodes and descriptors correspond one to one, so the machine's laws about names apply to the system. */
  lemma NamesDistinct(g: Geo, sb: Block, m: Mem, files: nat)
    requires Good(g, sb, m, files)
    ensures Distinct(FilesOf(g, m, files))
    ensures forall k | 0 <= k < files :: m.root[k].inode == m.fdt[k].inode == k + 1
    ensures forall k | 0 <= k < files :: Sane(FileAt(g, m, k))
  {
    hide BlockStart, Beyond, WellFormedBut, InStep, ShortName;
    GoodShape(g, sb, m, files);
    forall k | 0 <= k < files ensures m.root[k].inode == m.fdt[k].inode == k + 1 && Sane(FileAt(g, m, k)) {
      GoodKnown(g, sb, m, files, k);
    }
  }

  /** From a fresh disk: a run that the flat machine allows from no files at all. */
  method FormatAndRun(geometry: Geo, ops: seq<Op>) returns (fs: FileSystem, rs: seq<Result>)
    requires LegalRun(geometry, [], ops)
    ensures fresh(fs) && fresh(fs.Repr())
    ensures fs.Linked() && fs.g == geometry && Good(geometry, fs.sb, fs.View(), fs.files)
    ensures fs.View().vol.blocks[0] == fs.sb == SuperBytes(geometry) && |fs.View().vol.table[0].direct| == DIRECT
    ensures forall k | 0 <= k < DIRECT :: fs.View().vol.table[0].direct[k] ==
              if k < geometry.R then geometry.T + 2 + k else 0
    ensures (FilesOf(geometry, fs.View(), fs.files), rs) == Outcome(geometry, [], ops)
    ensures Reloaded(geometry, fs.View()) == fs.View() <==> forall f | f in Outcome(geometry, [], ops).0 :: f.stored
  {
    hide BlockStart, Beyond, Good, Content, Step, Legal, FileAt, SuperBytes, FreeSet, Reloaded, LegalRun, Outcome;
    fs := new FileSystem(geometry);
    GoodShape(fs.g, fs.sb, fs.View(), fs.files);
    assert FilesOf(geometry, fs.View(), 0) == [];
    rs := Run(fs, ops);
    GoodShape(fs.g, fs.sb, fs.View(), fs.files);
    SuperNow(fs.g, fs.sb, fs.View(), fs.files);
    RootNow(fs.g, fs.sb, fs.View(), fs.files);
    ReloadIff(fs.g, fs.sb, fs.View(), fs.files);
  }

  lemma RootNow(g: Geo, sb: Block, m: Mem, files: nat)
    requires Good(g, sb, m, files)
    ensures |m.vol.table| == NUM_INODES && |m.vol.table[0].direct| == DIRECT
    ensures forall k | 0 <= k < DIRECT :: m.vol.table[0].direct[k] == if k < g.R then g.T + 2 + k else 0
  {
    hide BlockStart, Beyond, WellFormed, InStep;
  }

  // ----- a run on the disk the source fixes -----

  const SOURCE: Geometry := Geometry(1024, 256, 512, 128, 1, 1)

  /** A file written, rewound and read back: the run is allowed, and gives what one expects. */
  lemma SmallRun()
    ensures var ops := [Open([97]), Write(0, [1, 2, 3]), Seek(0, 0), Read(0, 5)];
            && LegalRun(SOURCE, [], ops)
            && Outcome(SOURCE, [], ops).1 == [Number(0), Number(3), Number(0), Text([1, 2, 3])]
  {
    hide Step, Legal, LegalRun, Outcome, Blocks;
    var empty := File([97], false, [], 0, 0, true, false);
    var full := File([97], true, [1, 2, 3], 0, 3, true, true);
    var back := full.(wpos := 0);
    SmallOpen(empty);
    SmallWrite(empty, full);
    SmallSeek(full, back);
    SmallRead(back);
    RunNil(SOURCE, [back.(rpos := 3)]);
    var r, s, w := [Read(0, 5)], [Seek(0, 0), Read(0, 5)], [Write(0, [1, 2, 3]), Seek(0, 0), Read(0, 5)];
    RunCons(SOURCE, [back], Read(0, 5), []);
    assert [Read(0, 5)] + [] == r;
    RunCons(SOURCE, [full], Seek(0, 0), r);
    assert [Seek(0, 0)] + r == s;
    RunCons(SOURCE, [empty], Write(0, [1, 2, 3]), s);
    assert [Write(0, [1, 2, 3])] + s == w;
    RunCons(SOURCE, [], Open([97]), w);
    assert [Open([97])] + w == [Open([97]), Write(0, [1, 2, 3]), Seek(0, 0), Read(0, 5)];
  }

  lemma SmallOpen(empty: File)
    requires empty == File([97], false, [], 0, 0, true, false)
    ensures Legal(SOURCE, [], Open([97]))
    ensures Step(1024, [], Open([97])).0 == [empty] && Step(1024, [], Open([97])).1 == Number(0)
  {
  }

  lemma SmallWrite(empty: File, full: File)
    requires empty == File([97], false, [], 0, 0, true, false) && full == File([97], true, [1, 2, 3], 0, 3, true, true)
    ensures Legal(SOURCE, [empty], Write(0, [1, 2, 3]))
    ensures var r := Step(1024, [empty], Write(0, [1, 2, 3]));
            r.0 == [full] && r.1 == Number(3)
  {
    OverwriteToEnd(1024, [], 0, [1, 2, 3]);
    assert Wrote(1024, empty, [1, 2, 3]) == full.(stored := false);
    assert Rewritten(1024, [empty], 0, [1, 2, 3]) == [full];
    assert [full][..0] == [];
  }

  lemma SmallSeek(full: File, back: File)
    requires full == File([97], true, [1, 2, 3], 0, 3, true, true) && back == full.(wpos := 0)
    ensures Legal(SOURCE, [full], Seek(0, 0))
    ensures Step(1024, [full], Seek(0, 0)).0 == [back] && Step(1024, [full], Seek(0, 0)).1 == Number(0)
  {
  }

  lemma SmallRead(back: File)
    requires back == File([97], true, [1, 2, 3], 0, 0, true, true)
    ensures Legal(SOURCE, [back], Read(0, 5))
    ensures Step(1024, [back], Read(0, 5)).0 == [back.(rpos := 3)]
    ensures Step(1024, [back], Read(0, 5)).1 == Text([1, 2, 3])
  {
  }
}
