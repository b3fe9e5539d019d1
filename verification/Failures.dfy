/**
 * Where the code fails, reached from a fresh disk of the size the source fixes: runs that the flat machine allows,
 * and the call after them that goes wrong.
 */
module Failures {
  import opened Arith
  import opened Codec
  import opened FlatFile
  import opened DiskEmu
  import opened FreeMap
  import opened Layout
  import opened Metadata
  import opened Transfer
  import opened State
  import opened FlatFs
  import opened FlatMachine
  import opened WriteCall
  import opened Directory
  import opened Sfs
  import opened Runs

  // ----- crossing into the indirect blocks -----

  /** A file one byte short of twelve blocks. */
  function Brim(): (f: File)
    ensures |f.data| == f.wpos == 12287 && f.written
  {
    File([97], true, Zeros(12287), 0, 12287, true, true)
  }

  /** Writing such a file is an allowed run. */
  lemma BrimRun()
    ensures LegalRun(SOURCE, [], BrimOps()) && Outcome(SOURCE, [], BrimOps()).0 == [Brim()]
  {
    var empty := File([97], false, [], 0, 0, true, false);
    assert Step(1024, [], Open([97])).0 == [empty];
    BrimWrite(empty);
    RunCons(SOURCE, [empty], Write(0, Zeros(12287)), []);
    RunCons(SOURCE, [], Open([97]), [Write(0, Zeros(12287))]);
  }

  lemma BrimWrite(empty: File)
    requires empty == File([97], false, [], 0, 0, true, false)
    ensures Legal(SOURCE, [empty], Write(0, Zeros(12287)))
    ensures Step(1024, [empty], Write(0, Zeros(12287))).0 == [Brim()]
  {
    OverwriteToEnd(1024, [], 0, Zeros(12287));
    assert [][..0] + Zeros(12287) == Zeros(12287);
    assert Rewritten(1024, [empty], 0, Zeros(12287)) == [Brim()];
    assert [Brim()][..0] == [];
  }

  /** One byte more would end in the first indirect block: there is room, but it is outside the domain. */
  lemma BrimFull(g: Geo, sb: Block, m: Mem, files: nat)
    requires g == SOURCE && Good(g, sb, m, files) && FilesOf(g, m, files) == [Brim()]
    ensures Room(g, m.vol, 1, m.fdt[0].wptr, [7]) && !Sound(g, m.vol.table[1], m.fdt[0].wptr, 1)
    ensures LosesSuper(g, m.vol.table[1], m.fdt[0].wptr, 1)
  {
    hide BlockStart, Beyond, WellFormed, InStep, DirOK, Owners, FreeSet, Avail, Content, Total, ShortName, TableOK,
         Pointers, ExtentOK, DirectOK, JobFor;
    GoodShape(g, sb, m, files);
    assert FilesOf(g, m, files)[0] == FileAt(g, m, 0) == Brim();
    FileKnown(g, m.vol, 1);
    BlocksKnown(g, m.vol, 1);
    FileBlocks(g, sb, m, files, 0);
    SpaceLeft(g, sb, m, files);
    assert [Brim()][..0] == [];
    FinalBlocks(g, m, 0, [7]);
  }

  function BrimOps(): seq<Op> {
    [Open([97]), Write(0, Zeros(12287))]
  }

  /**
   * From a fresh disk, an allowed run and one write outside the domain leave an inconsistent volume without its
   * superblock; the file itself reads right, through the table that has taken the superblock's place.
   */
  method CrossingBreaks() returns (fs: FileSystem, out: seq<byte>)
    ensures fs.Linked() && fs.g == SOURCE && !WellFormed(fs.g, fs.View().vol)
    ensures fs.View().vol.blocks[0] != SuperBytes(SOURCE)
    ensures out == Zeros(12287) + [7]
  {
    hide BlockStart, Beyond, WellFormed, Good, Content, LegalRun, Outcome, Brim, BrimOps, FreeSet, SuperBytes;
    SourceSized();
    BrimRun();
    var rs;
    fs, rs := FormatAndRun(SOURCE, BrimOps());
    out := OneByteMore(fs);
  }

  /** The write outside the domain, and the whole file read back. */
  method OneByteMore(fs: FileSystem) returns (out: seq<byte>)
    requires fs.Linked() && fs.g == SOURCE && Good(fs.g, fs.sb, fs.View(), fs.files)
    requires FilesOf(fs.g, fs.View(), fs.files) == [Brim()] && fs.sb == SuperBytes(SOURCE)
    modifies fs.Repr()
    ensures !WellFormed(fs.g, fs.View().vol) && fs.View().vol.blocks[0] != SuperBytes(SOURCE)
    ensures out == Zeros(12287) + [7]
  {
    hide BlockStart, Beyond, WellFormed, Good, WriteMeets, Sound, Room, Content, Seen, Readable, Brim, FreeSet,
         SuperBytes, LosesSuper, Overwrite, ShortName;
    ghost var m := fs.View();
    GoodShape(fs.g, fs.sb, m, fs.files);
    BrimFull(fs.g, fs.sb, m, fs.files);
    var n := fs.Write(0, [7]);
    ghost var m' := fs.View();
    Unsound(fs.g, fs.sb, m, fs.files, 0, [7], m');
    BrimRead(fs.g, fs.sb, m, fs.files, m');
    n, out := fs.Read(0, 12288);
  }

  /** The file after that write can be read, from its beginning to its end. */
  lemma BrimRead(g: Geo, sb: Block, m: Mem, files: nat, m': Mem)
    requires g == SOURCE && Good(g, sb, m, files) && FilesOf(g, m, files) == [Brim()]
    requires WriteMeets(g, sb, m, files, 0, [7], m') && LosesSuper(g, m.vol.table[1], m.fdt[0].wptr, 1)
    ensures Readable(g, m', 0) && m'.fdt[0].rwptr == 0 && m'.fdt[0].open
    ensures Seen(g, m'.vol, 1) == Zeros(12287) + [7] && (Zeros(12287) + [7])[0..12288] == Zeros(12287) + [7]
  {
    hide BlockStart, Beyond, WellFormed, InStep, DirOK, Sound, Content, Seen, Overwrite, Forgotten, LosesSuper,
         SuperMeets, Avail, FreeSet, Needs, Recorded;
    GoodShape(g, sb, m, files);
    SurvivesIff(g, sb, m, files, 0, [7], m');
    assert FilesOf(g, m, files)[0] == FileAt(g, m, 0) == Brim();
    OverwriteToEnd(1024, Zeros(12287), 12287, [7]);
    assert Zeros(12287)[..12287] == Zeros(12287);
  }

  lemma Unsound(g: Geo, sb: Block, m: Mem, files: nat, k: nat, buf: seq<byte>, m': Mem)
    requires Good(g, sb, m, files) && k < files && WriteMeets(g, sb, m, files, k, buf, m')
    requires !Sound(g, m.vol.table[k + 1], m.fdt[k].wptr, |buf|)
    ensures !WellFormed(g, m'.vol) && Shape(g, m'.vol)
    ensures LosesSuper(g, m.vol.table[k + 1], m.fdt[k].wptr, |buf|) && sb == SuperBytes(g) ==>
              m'.vol.blocks[0] != SuperBytes(g)
  {
    hide WellFormedBut, InStep, DirOK, Content, Wrote, SuperBytes, LosesSuper, BlockStart, Beyond;
  }

  // ----- crossing over a pointer block that is there -----

  function Ones(n: nat): (s: seq<byte>)
    ensures |s| == n && forall i | 0 <= i < n :: s[i] == 1
  {
    seq(n, _ => 1)
  }

  /** A file of twenty full blocks, its positions inside the twelfth. */
  function Tall(): (f: File)
    ensures |f.data| == 20480 && f.wpos == f.rpos == 12000 && f.written && f.open
  {
    File([97], true, Ones(20480), 12000, 12000, true, true)
  }

  function TallOps(): seq<Op> {
    [Open([97]), Write(0, Ones(20480)), Seek(0, 12000)]
  }

  /** Writing such a file and seeking back is an allowed run. */
  lemma TallRun()
    ensures LegalRun(SOURCE, [], TallOps()) && Outcome(SOURCE, [], TallOps()).0 == [Tall()]
  {
    hide Step, Legal, LegalRun, Outcome, Blocks, Ones;
    var empty := File([97], false, [], 0, 0, true, false);
    var full := File([97], true, Ones(20480), 0, 20480, true, true);
    var s := [Seek(0, 12000)];
    SmallOpen(empty);
    WriteOnes(20480, empty, full);
    SeekOnes(20480, 12000, full);
    RunNil(SOURCE, [Tall()]);
    RunCons(SOURCE, [full], Seek(0, 12000), []);
    assert [Seek(0, 12000)] + [] == s;
    RunCons(SOURCE, [empty], Write(0, Ones(20480)), s);
    RunCons(SOURCE, [], Open([97]), [Write(0, Ones(20480))] + s);
    assert [Open([97])] + ([Write(0, Ones(20480))] + s) == TallOps();
  }

  /** A crossing write over a pointer block takes new indirect blocks, although the file has some. */
  lemma ReuseNeeds(g: Geo, v: Volume, i: nat, w: nat, buf: seq<byte>)
    requires WellFormed(g, v) && 1 <= i < NUM_INODES && Reuses(g, v.table[i], w, |buf|)
    ensures Needs(g, v, i, w, buf) == BlockOf(g.B, w + |buf|) + 1 - DIRECT
  {
    hide BlockStart, Beyond, BlockOf, AllocOK, InodeOK, FreeZero, Owners, TableOK, Pointers, ExtentOK, DirectOK;
    FileKnown(g, v, i);
  }

  /** Four blocks written across the pointer block: there is room, but it is outside the domain. */
  lemma TallFull(g: Geo, sb: Block, m: Mem, files: nat)
    requires g == SOURCE && Good(g, sb, m, files) && FilesOf(g, m, files) == [Tall()]
    ensures m.fdt[0].wptr == 12000 && Room(g, m.vol, 1, 12000, Ones(4096)) && !Sound(g, m.vol.table[1], 12000, 4096)
  {
    hide BlockStart, Beyond, WellFormed, InStep, DirOK, Owners, FreeSet, Avail, Content, Total, ShortName, TableOK,
         Pointers, ExtentOK, DirectOK, Needs;
    GoodShape(g, sb, m, files);
    assert FilesOf(g, m, files)[0] == FileAt(g, m, 0) == Tall();
    FileKnown(g, m.vol, 1);
    BlocksKnown(g, m.vol, 1);
    SpaceLeft(g, sb, m, files);
    assert [Tall()][..0] == [];
    ReuseNeeds(g, m.vol, 1, 12000, Ones(4096));
  }

  /**
   * From a fresh disk, an allowed run and a crossing write over the pointer block leave an inconsistent volume, and a
   * file whose blocks after the write read as the superblock.
   */
  method ReuseLoses() returns (fs: FileSystem, out: seq<byte>)
    ensures fs.Linked() && fs.g == SOURCE && !WellFormed(fs.g, fs.View().vol)
    ensures fs.View().vol.blocks[0] == fs.sb == SuperBytes(SOURCE)
    ensures out == Torn(fs.sb)
    ensures Shape(fs.g, fs.View().vol)
    ensures Seen(fs.g, fs.View().vol, 1) != Overwrite(1024, Ones(20480), 12000, Ones(4096))
  {
    hide BlockStart, Beyond, WellFormed, Good, Content, Seen, LegalRun, Outcome, Tall, TallOps, FreeSet, SuperBytes,
         Overwrite, Ones, Torn;
    SourceSized();
    TallRun();
    var rs;
    fs, rs := FormatAndRun(SOURCE, TallOps());
    out := FourBlocks(fs);
  }

  /** The crossing write, and the file read from there to its end. */
  method FourBlocks(fs: FileSystem) returns (out: seq<byte>)
    requires fs.Linked() && fs.g == SOURCE && Good(fs.g, fs.sb, fs.View(), fs.files)
    requires FilesOf(fs.g, fs.View(), fs.files) == [Tall()] && fs.sb == SuperBytes(SOURCE)
    modifies fs.Repr()
    ensures !WellFormed(fs.g, fs.View().vol) && fs.View().vol.blocks[0] == fs.sb
    ensures out == Torn(fs.sb)
    ensures Shape(fs.g, fs.View().vol)
    ensures Seen(fs.g, fs.View().vol, 1) != Overwrite(1024, Ones(20480), 12000, Ones(4096))
  {
    hide BlockStart, Beyond, WellFormed, Good, WriteMeets, Sound, Room, Content, Seen, Readable, Tall, FreeSet,
         SuperBytes, LosesSuper, Overwrite, ShortName, Ones, Torn;
    ghost var m := fs.View();
    GoodShape(fs.g, fs.sb, m, fs.files);
    TallFull(fs.g, fs.sb, m, fs.files);
    var n := fs.Write(0, Ones(4096));
    ghost var m' := fs.View();
    Unsound(fs.g, fs.sb, m, fs.files, 0, Ones(4096), m');
    TallRead(fs.g, fs.sb, m, fs.files, m');
    n, out := fs.Read(0, 8480);
  }

  /** What that write leaves to be read. */
  lemma TallRead(g: Geo, sb: Block, m: Mem, files: nat, m': Mem)
    requires g == SOURCE && Good(g, sb, m, files) && FilesOf(g, m, files) == [Tall()] && sb == SuperBytes(g)
    requires WriteMeets(g, sb, m, files, 0, Ones(4096), m') && !Sound(g, m.vol.table[1], 12000, 4096)
    ensures Readable(g, m', 0) && m'.fdt[0].rwptr == 12000 && m'.fdt[0].open && m'.vol.blocks[0] == sb
    ensures |Seen(g, m'.vol, 1)| == 20480
    ensures Seen(g, m'.vol, 1)[12000..20480] == Torn(sb)
    ensures Seen(g, m'.vol, 1) != Overwrite(1024, Ones(20480), 12000, Ones(4096))
  {
    hide BlockStart, Beyond, WellFormed, InStep, DirOK, Content, Seen, Overwrite, Forgotten, Avail, FreeSet, Needs,
         Recorded, SuperBytes, Ones, Torn;
    GoodShape(g, sb, m, files);
    assert FilesOf(g, m, files)[0] == FileAt(g, m, 0) == Tall();
    GoodReadable(g, sb, m, files, 0);
    TallPieces(sb);
    SurvivesIff(g, sb, m, files, 0, Ones(4096), m');
    SuperEnd(g);
    assert BlockOf(1024, 16424) == 16 && OffsetIn(1024, 16424) == 40 && BlockOf(1024, 16096) == 15;
    assert Ones(20480)[16424] == 1;
  }

  /** The bytes from the write to the end of the file: as written, cleared, and four times the superblock. */
  function Torn(sb: Block): seq<byte> {
    Ones(4096) + Zeros(288) + (sb + sb + sb + sb)
  }

  lemma TallPieces(sb: Block)
    requires |sb| == 1024
    ensures Forgotten(1024, Ones(20480), 12000, Ones(4096), sb)[12000..20480] == Torn(sb)
  {
    var all := Forgotten(1024, Ones(20480), 12000, Ones(4096), sb);
    assert all[12000..16096] == Ones(4096);
    assert all[16096..16384] == Zeros(288);
    assert all[16384..17408] == sb;
    assert all[17408..18432] == sb;
    assert all[18432..19456] == sb;
    assert all[19456..20480] == sb;
  }

  /** The superblock is padded with zeros. */
  lemma SuperEnd(g: Geo)
    requires g.B == 1024
    ensures SuperBytes(g)[40] == 0
  {
    hide Encode, Long;
  }

  // ----- clearing the last block -----

  function ClearOps(): seq<Op> {
    [Open([97]), Write(0, Ones(2048)), Seek(0, 0), Write(0, Ones(1025))]
  }

  /** The file of ones after its first 1025 bytes have been written again. */
  function Cleared(): File {
    File([97], true, Overwrite(1024, Ones(2048), 0, Ones(1025)), 0, 1025, true, true)
  }

  /** Writing a file of ones and then the first of them again is an allowed run. */
  lemma ClearRun()
    ensures LegalRun(SOURCE, [], ClearOps()) && Outcome(SOURCE, [], ClearOps()).0 == [Cleared()]
  {
    hide Step, Legal, LegalRun, Outcome, Blocks, Cleared, Ones;
    var empty := File([97], false, [], 0, 0, true, false);
    var full := File([97], true, Ones(2048), 0, 2048, true, true);
    var w, s := [Write(0, Ones(1025))], [Seek(0, 0), Write(0, Ones(1025))];
    SmallOpen(empty);
    WriteOnes(2048, empty, full);
    SeekOnes(2048, 0, full);
    ClearAgain(full.(wpos := 0));
    RunNil(SOURCE, [Cleared()]);
    RunCons(SOURCE, [full.(wpos := 0)], Write(0, Ones(1025)), []);
    assert [Write(0, Ones(1025))] + [] == w;
    RunCons(SOURCE, [full], Seek(0, 0), w);
    assert [Seek(0, 0)] + w == s;
    RunCons(SOURCE, [empty], Write(0, Ones(2048)), s);
    RunCons(SOURCE, [], Open([97]), [Write(0, Ones(2048))] + s);
    assert [Open([97])] + ([Write(0, Ones(2048))] + s) == ClearOps();
  }

  lemma WriteOnes(n: nat, empty: File, full: File)
    requires n < 268 * 1024 && empty == File([97], false, [], 0, 0, true, false)
    requires full == File([97], true, Ones(n), 0, n, true, true)
    ensures Legal(SOURCE, [empty], Write(0, Ones(n))) && Step(1024, [empty], Write(0, Ones(n))).0 == [full]
  {
    OverwriteToEnd(1024, [], 0, Ones(n));
    assert Wrote(1024, empty, Ones(n)) == full.(stored := false);
    assert Rewritten(1024, [empty], 0, Ones(n)) == [full];
    assert [full][..0] == [];
  }

  lemma SeekOnes(n: nat, loc: nat, full: File)
    requires full == File([97], true, Ones(n), 0, n, true, true) && loc <= n
    ensures Legal(SOURCE, [full], Seek(0, loc))
    ensures Step(1024, [full], Seek(0, loc)).0 == [full.(rpos := loc, wpos := loc)]
  {
  }

  lemma ClearAgain(back: File)
    requires back == File([97], true, Ones(2048), 0, 0, true, true)
    ensures Legal(SOURCE, [back], Write(0, Ones(1025)))
    ensures Step(1024, [back], Write(0, Ones(1025))).0 == [Cleared()]
  {
    assert Rewritten(1024, [back], 0, Ones(1025)) == [Cleared()];
    assert [Cleared()][..0] == [];
  }

  /** A file of ones loses some to the clearing: it is not the file with its first 1025 bytes replaced. */
  method ClearingLoses() returns (fs: FileSystem)
    ensures fs.Linked() && fs.g == SOURCE && Good(fs.g, fs.sb, fs.View(), fs.files)
    ensures Content(fs.g, fs.View().vol, 1) == Overwrite(1024, Ones(2048), 0, Ones(1025))
    ensures Content(fs.g, fs.View().vol, 1) != Splice(Ones(2048), 0, Ones(1025))
  {
    hide BlockStart, Beyond, WellFormed, Good, Content, LegalRun, Outcome, ClearOps, FreeSet, SuperBytes, Overwrite,
         Splice;
    SourceSized();
    ClearRun();
    var rs;
    fs, rs := FormatAndRun(SOURCE, ClearOps());
    GoodShape(fs.g, fs.sb, fs.View(), fs.files);
    assert FilesOf(fs.g, fs.View(), fs.files)[0] == FileAt(fs.g, fs.View(), 0);
    SpliceFails(Ones(2048), Ones(1025));
  }

  // ----- reloading before the inode table has been stored -----

  /** A file that has only been created is in the directory after a reload, and its inode is not in use. */
  method ReloadForgets() returns (fs: FileSystem)
    ensures fs.Linked() && fs.g == SOURCE && fs.files == 1
    ensures fs.View().root[0] == DirEntry(1, [97]) && !fs.View().vol.table[1].used
    ensures !Good(fs.g, fs.sb, fs.View(), fs.files)
  {
    hide BlockStart, Beyond, WellFormed, Good, Content, FreeSet, SuperBytes, Reloaded, InStep;
    SourceSized();
    CreateRun();
    var rs;
    fs, rs := FormatAndRun(SOURCE, [Open([97])]);
    ghost var m := fs.View();
    GoodKnown(fs.g, fs.sb, m, fs.files, 0);
    assert FilesOf(fs.g, m, fs.files)[0] == FileAt(fs.g, m, 0);
    ReloadIff(fs.g, fs.sb, m, fs.files);
    var super := fs.Reload();
    Unused(fs.g, fs.sb, m, fs.View(), fs.files);
  }

  lemma CreateRun()
    ensures LegalRun(SOURCE, [], [Open([97])])
    ensures Outcome(SOURCE, [], [Open([97])]).0 == [File([97], false, [], 0, 0, true, false)]
  {
    var empty := File([97], false, [], 0, 0, true, false);
    SmallOpen(empty);
    RunNil(SOURCE, [empty]);
    RunCons(SOURCE, [], Open([97]), []);
    assert [Open([97])] + [] == [Open([97])];
  }

  lemma Unused(g: Geo, sb: Block, m: Mem, m': Mem, files: nat)
    requires |m.vol.blocks| == g.N && AllSized(g.B, m.vol.blocks) && m' == Reloaded(g, m) && files > 0
    requires !m'.vol.table[1].used
    ensures m'.root == m.root && m'.fdt == m.fdt && !Good(g, sb, m', files)
  {
    hide BlockStart, Beyond, WellFormed, InStep, TableOnDisk, ShortName;
    if Good(g, sb, m', files) {
      GoodKnown(g, sb, m', files, 0);
    }
  }

  /** A file that has been written, and another only created after that. */
  function OneOfTwo(): seq<File> {
    [File([97], true, [1], 0, 1, true, true), File([98], false, [], 0, 0, true, false)]
  }

  function TwoOps(): seq<Op> {
    [Open([97]), Write(0, [1]), Open([98])]
  }

  lemma TwoRun()
    ensures LegalRun(SOURCE, [], TwoOps()) && Outcome(SOURCE, [], TwoOps()).0 == OneOfTwo()
  {
    hide Step, Legal, LegalRun, Outcome, Blocks;
    var empty := File([97], false, [], 0, 0, true, false);
    var full := File([97], true, [1], 0, 1, true, true);
    SmallOpen(empty);
    WriteOne(empty, full);
    OpenSecond(full);
    RunNil(SOURCE, OneOfTwo());
    RunCons(SOURCE, [full], Open([98]), []);
    assert [Open([98])] + [] == [Open([98])];
    RunCons(SOURCE, [empty], Write(0, [1]), [Open([98])]);
    RunCons(SOURCE, [], Open([97]), [Write(0, [1])] + [Open([98])]);
    assert [Open([97])] + ([Write(0, [1])] + [Open([98])]) == TwoOps();
  }

  lemma WriteOne(empty: File, full: File)
    requires empty == File([97], false, [], 0, 0, true, false) && full == File([97], true, [1], 0, 1, true, true)
    ensures Legal(SOURCE, [empty], Write(0, [1])) && Step(1024, [empty], Write(0, [1])).0 == [full]
  {
    OverwriteToEnd(1024, [], 0, [1]);
    assert Wrote(1024, empty, [1]) == full.(stored := false);
    assert Rewritten(1024, [empty], 0, [1]) == [full];
    assert [full][..0] == [];
  }

  lemma OpenSecond(full: File)
    requires full == File([97], true, [1], 0, 1, true, true)
    ensures Legal(SOURCE, [full], Open([98])) && Step(1024, [full], Open([98])).0 == OneOfTwo()
  {
    assert [97][0] != [98][0];
    assert [full][1..] == [];
  }

  /** After a reload the file that was stored is there to be read, and the other has lost its inode. */
  method ReloadKeepsOne() returns (fs: FileSystem, out: seq<byte>)
    ensures fs.Linked() && fs.g == SOURCE && fs.files == 2 && out == [1]
    ensures fs.View().vol.table[1].used && fs.View().vol.table[1].size == 1
    ensures fs.View().root[1] == DirEntry(2, [98]) && !fs.View().vol.table[2].used
  {
    hide BlockStart, Beyond, WellFormed, Good, Content, Seen, FreeSet, SuperBytes, LegalRun, Outcome, OneOfTwo;
    SourceSized();
    TwoRun();
    var rs;
    fs, rs := FormatAndRun(SOURCE, TwoOps());
    out := ReloadAndRead(fs);
  }

  method ReloadAndRead(fs: FileSystem) returns (out: seq<byte>)
    requires fs.Linked() && fs.g == SOURCE && Good(fs.g, fs.sb, fs.View(), fs.files)
    requires FilesOf(fs.g, fs.View(), fs.files) == OneOfTwo()
    modifies fs.Repr()
    ensures fs.files == 2 && out == [1]
    ensures fs.View().vol.table[1].used && fs.View().vol.table[1].size == 1
    ensures fs.View().root[1] == DirEntry(2, [98]) && !fs.View().vol.table[2].used
  {
    hide BlockStart, Beyond, WellFormed, Good, Content, Seen, FreeSet, Reloaded, ShortName, Recorded, Readable;
    ghost var m := fs.View();
    GoodKnown(fs.g, fs.sb, m, fs.files, 0);
    GoodKnown(fs.g, fs.sb, m, fs.files, 1);
    GoodReadable(fs.g, fs.sb, m, fs.files, 0);
    assert FilesOf(fs.g, m, 2)[0] == FileAt(fs.g, m, 0) && FilesOf(fs.g, m, 2)[1] == FileAt(fs.g, m, 1);
    var super := fs.Reload();
    ghost var m' := fs.View();
    StillReadable(fs.g, m, m', 0);
    StillSeen(fs.g, m.vol, m'.vol, 1);
    var n;
    n, out := fs.Read(0, 5);
  }

  lemma StillSeen(g: Geo, v: Volume, v': Volume, i: nat)
    requires Shape(g, v) && Shape(g, v') && i < NUM_INODES && v'.blocks == v.blocks && v'.table[i] == v.table[i]
    ensures Seen(g, v', i) == Seen(g, v, i)
  {
  }

  // ----- the tenth file -----

  function Name(k: nat): (name: seq<byte>)
    requires k < NUM_INODES
    ensures |name| == 1 && name[0] as nat == 97 + k
  {
    [ByteOf(97 + k)]
  }

  function Opens(k: nat): seq<Op>
    requires k < NUM_INODES
    decreases NUM_INODES - k
  {
    if k == NUM_INODES - 1 then [] else [Open(Name(k))] + Opens(k + 1)
  }

  /** The files so far are the ones opened. */
  predicate Named(fs: seq<File>) {
    |fs| < NUM_INODES && forall j | 0 <= j < |fs| :: fs[j].name == Name(j) && Sane(fs[j])
  }

  /** Opening the names that are left is an allowed run, and creates nine files in all. */
  lemma {:induction false} OpensRun(fs: seq<File>)
    requires Named(fs)
    ensures LegalRun(SOURCE, fs, Opens(|fs|))
    ensures Named(Outcome(SOURCE, fs, Opens(|fs|)).0) && |Outcome(SOURCE, fs, Opens(|fs|)).0| == NUM_INODES - 1
    decreases NUM_INODES - |fs|
  {
    hide Legal, Step, LegalRun, Outcome, Name, Named;
    assert |fs| < NUM_INODES by { NamedFew(fs); }
    if |fs| == NUM_INODES - 1 {
      RunNil(SOURCE, fs);
    } else {
      var name := Name(|fs|);
      NextName(fs);
      OpensRun(Step(1024, fs, Open(name)).0);
      RunCons(SOURCE, fs, Open(name), Opens(|fs| + 1));
    }
  }

  lemma NamedFew(fs: seq<File>)
    requires Named(fs)
    ensures |fs| < NUM_INODES
  {
  }

  lemma NextName(fs: seq<File>)
    requires Named(fs) && |fs| < NUM_INODES - 1
    ensures Legal(SOURCE, fs, Open(Name(|fs|)))
    ensures Named(Step(1024, fs, Open(Name(|fs|))).0) && |Step(1024, fs, Open(Name(|fs|))).0| == |fs| + 1
  {
    var name := Name(|fs|);
    assert 0 !in name;
    assert forall j | 0 <= j < |fs| :: fs[j].name[0] != name[0];
  }

  /** Nine files, then a tenth: its descriptor names an inode that does not exist. */
  method TenthFile() returns (fs: FileSystem, r: int)
    ensures fs.Linked() && fs.g == SOURCE && r == NUM_INODES - 1
    ensures fs.View().fdt[r] == Fd(NUM_INODES, 0, 0, true) && !Good(fs.g, fs.sb, fs.View(), fs.files)
  {
    hide BlockStart, Beyond, WellFormed, Good, Content, FreeSet, SuperBytes, OpenMeets, LegalRun, Outcome, Named, Opens;
    SourceSized();
    NoFiles();
    var rs;
    fs, rs := FormatAndRun(SOURCE, Opens(0));
    ghost var m, files := fs.View(), fs.files;
    GoodShape(fs.g, fs.sb, m, files);
    var name := Name(NUM_INODES - 1);
    assert 0 !in name;
    r := fs.Open(name);
    NoTenth(fs.g, fs.sb, m, files, r, fs.View(), fs.files);
  }

  lemma NoFiles()
    ensures LegalRun(SOURCE, [], Opens(0))
    ensures Named(Outcome(SOURCE, [], Opens(0)).0) && |Outcome(SOURCE, [], Opens(0)).0| == NUM_INODES - 1
  {
    OpensRun([]);
  }

  lemma NoTenth(g: Geo, sb: Block, m: Mem, files: nat, r: int, m': Mem, files': nat)
    requires Good(g, sb, m, files) && OpenMeets(g, sb, m, files, Name(NUM_INODES - 1), r, m', files')
    requires files == NUM_INODES - 1 && Shape(g, m.vol) && |m.root| == |m.fdt| == NUM_INODES
    requires Named(FilesOf(g, m, files))
    ensures r == NUM_INODES - 1 && |m'.fdt| == NUM_INODES && m'.fdt[r] == Fd(NUM_INODES, 0, 0, true)
    ensures files' == files && !Good(g, sb, m', files)
  {
    hide BlockStart, Beyond, WellFormed, Good, Content, FreeSet;
    var fs, name := FilesOf(g, m, files), Name(NUM_INODES - 1);
    forall k | 0 <= k < files ensures m.root[k].name != name {
      assert fs[k].name == Name(k) && Name(k)[0] != name[0];
    }
  }
}
