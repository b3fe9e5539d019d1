/** What is on the disk, in bytes and words: the superblock, the inode table and the bitmap. */
module Image {
  import opened Arith
  import opened Codec
  import opened FlatFile
  import opened DiskEmu
  import opened FreeMap
  import opened Layout
  import opened Metadata
  import opened Transfer
  import opened State
  import opened FlatFs
  import opened WriteCall
  import opened Directory
  import opened FlatMachine
  import opened Sfs
  import opened Runs

  // ----- superblock -----

  /** Field `k` of a block of 64-bit numbers. */
  function Field(b: Block, k: nat): nat
    requires 8 * k + 8 <= |b|
  {
    WordOf(b[8 * k..8 * k + 4]) + 0x1_0000_0000 * WordOf(b[8 * k + 4..8 * k + 8])
  }

  lemma FieldAt(g: Geo, k: nat, x: nat)
    requires g.B >= 40 && k < 5 && x < 0x1_0000_0000 * 0x1_0000_0000
    requires SuperWords(g)[2 * k..2 * k + 2] == Long(x)
    ensures Field(SuperBytes(g), k) == x
  {
    hide WordBytes, WordOf, Encode, SuperWords, BlockStart, Beyond, Long;
    var ws, b, lo, hi := SuperWords(g), SuperBytes(g), x % WORD_LIMIT, x / WORD_LIMIT;
    LongIs(x, lo, hi);
    assert ws[2 * k] == ws[2 * k..2 * k + 2][0] && ws[2 * k + 1] == ws[2 * k..2 * k + 2][1];
    WordAt(ws, 2 * k);
    WordAt(ws, 2 * k + 1);
    WordRoundTrip(lo);
    WordRoundTrip(hi);
    assert b[8 * k..8 * k + 4] == Encode(ws)[8 * k..8 * k + 4];
    assert b[8 * k + 4..8 * k + 8] == Encode(ws)[8 * k + 4..8 * k + 8];
  }

  lemma LongIs(x: nat, lo: nat, hi: nat)
    requires x < 0x1_0000_0000 * 0x1_0000_0000 && lo == x % WORD_LIMIT && hi == x / WORD_LIMIT
    ensures hi < WORD_LIMIT && Long(x) == [lo, hi] && x == lo + 0x1_0000_0000 * hi
  {
  }

  lemma ProductFits(a: nat, b: nat)
    requires a < WORD_LIMIT && b < WORD_LIMIT
    ensures a * b < 0x1_0000_0000 * 0x1_0000_0000
  {
    MulMonotone(a, WORD_LIMIT, b);
    MulMonotone(b, WORD_LIMIT, WORD_LIMIT);
  }

  lemma Pieces(a: seq<nat>, b: seq<nat>, c: seq<nat>, d: seq<nat>, e: seq<nat>)
    requires |a| == |b| == |c| == |d| == |e| == 2
    ensures var ws := a + b + c + d + e;
            ws[0..2] == a && ws[2..4] == b && ws[4..6] == c && ws[6..8] == d && ws[8..10] == e
  {
  }

  /** The five fields of the superblock: magic, block size, bytes on the disk, blocks of inode table, root inode. */
  lemma SuperFields(g: Geo)
    requires g.B >= 40
    ensures Field(SuperBytes(g), 0) == 0xACBD0005 && Field(SuperBytes(g), 1) == g.B
    ensures Field(SuperBytes(g), 2) == g.N * g.B && Field(SuperBytes(g), 3) == g.T && Field(SuperBytes(g), 4) == 0
  {
    hide SuperBytes, BlockStart, Beyond, Long, Field;
    BlockSize(g);
    ProductFits(g.N, g.B);
    Pieces(Long(0xACBD0005), Long(g.B), Long(g.N * g.B), Long(g.T), Long(0));
    FieldAt(g, 0, 0xACBD0005);
    FieldAt(g, 1, g.B);
    FieldAt(g, 2, g.N * g.B);
    FieldAt(g, 3, g.T);
    FieldAt(g, 4, 0);
  }

  lemma FourDigits(w: nat, a: nat, b: nat, c: nat, d: nat)
    requires a < 256 && b < 256 && c < 256 && d < 256 && w == a + 256 * b + 65536 * c + 16777216 * d
    ensures w < WORD_LIMIT && w % 256 == a && w / 256 % 256 == b && w / 65536 % 256 == c && w / 16777216 % 256 == d
  {
    assert w / 256 == b + 256 * c + 65536 * d;
    assert w / 65536 == c + 256 * d;
    assert w / 16777216 == d;
  }

  lemma ByteIs(b: byte, x: nat)
    requires b as nat == x
    ensures x < 256 && ByteOf(x) == b
  {
  }

  /** A word as four bytes, the lowest first. */
  lemma BytesOf(w: nat, a: byte, b: byte, c: byte, d: byte, x: nat, y: nat, z: nat, u: nat)
    requires a as nat == x && b as nat == y && c as nat == z && d as nat == u
    requires w == x + 256 * y + 65536 * z + 16777216 * u
    ensures w < WORD_LIMIT && WordBytes(w) == [a, b, c, d]
  {
    ByteIs(a, x);
    ByteIs(b, y);
    ByteIs(c, z);
    ByteIs(d, u);
    FourDigits(w, x, y, z, u);
  }

  /** The superblock of the source's disk, byte for byte: little-endian. */
  lemma SuperImage()
    ensures SOURCE.Sized()
    ensures SuperBytes(SOURCE)[0..8] == [0x05, 0x00, 0xBD, 0xAC, 0, 0, 0, 0]
    ensures SuperBytes(SOURCE)[8..16] == [0x00, 0x04, 0x00, 0x00, 0, 0, 0, 0]
    ensures SuperBytes(SOURCE)[16..24] == [0x00, 0x00, 0x08, 0x00, 0, 0, 0, 0]
    ensures SuperBytes(SOURCE)[24..32] == [0x01, 0x00, 0x00, 0x00, 0, 0, 0, 0]
    ensures SuperBytes(SOURCE)[32..] == Zeros(992)
  {
    hide WordBytes, Encode, BlockStart, Beyond, SuperWords, SuperBytes, Zeros;
    SourceSized();
    var ws := [0xACBD0005, 0, 1024, 0, 524288, 0, 1, 0, 0, 0];
    SuperPadded(ws);
    SourceBytes();
    WordsAt(ws);
    FourAt(Encode(ws), ws);
    PaddedAt(Encode(ws), SuperBytes(SOURCE));
  }

  lemma PaddedAt(e: seq<byte>, b: seq<byte>)
    requires |e| == 40 && b == e + Zeros(984) && e[32..40] == [0, 0, 0, 0] + [0, 0, 0, 0]
    ensures b[0..8] == e[0..8] && b[8..16] == e[8..16] && b[16..24] == e[16..24] && b[24..32] == e[24..32]
    ensures b[32..] == Zeros(992)
  {
    forall k | 0 <= k < 992 ensures b[32..][k] == 0 {
      assert k < 8 ==> b[32..][k] == e[32..40][k];
    }
  }

  lemma SourceBytes()
    ensures WordBytes(0xACBD0005) == [0x05, 0x00, 0xBD, 0xAC] && WordBytes(1024) == [0x00, 0x04, 0x00, 0x00]
    ensures WordBytes(524288) == [0x00, 0x00, 0x08, 0x00] && WordBytes(1) == [0x01, 0x00, 0x00, 0x00]
    ensures WordBytes(0) == [0, 0, 0, 0]
  {
    hide WordBytes;
    BytesOf(0xACBD0005, 0x05, 0x00, 0xBD, 0xAC, 0x05, 0x00, 0xBD, 0xAC);
    BytesOf(1024, 0x00, 0x04, 0x00, 0x00, 0, 4, 0, 0);
    BytesOf(524288, 0x00, 0x00, 0x08, 0x00, 0, 0, 8, 0);
    BytesOf(1, 0x01, 0x00, 0x00, 0x00, 1, 0, 0, 0);
    BytesOf(0, 0, 0, 0, 0, 0, 0, 0, 0);
  }

  lemma WordsAt(ws: seq<nat>)
    requires Fits(ws)
    ensures forall k | 0 <= k < |ws| :: Encode(ws)[4 * k..4 * k + 4] == WordBytes(ws[k])
  {
    hide WordBytes, Encode;
    forall k | 0 <= k < |ws| ensures Encode(ws)[4 * k..4 * k + 4] == WordBytes(ws[k]) {
      WordAt(ws, k);
    }
  }

  lemma SuperPadded(ws: seq<nat>)
    requires SOURCE.Sized() && ws == [0xACBD0005, 0, 1024, 0, 524288, 0, 1, 0, 0, 0]
    ensures Fits(ws) && SuperBytes(SOURCE) == Encode(ws) + Zeros(984)
  {
    hide Encode, BlockStart, Beyond, SuperWords;
    SourceWords();
  }

  lemma SourceWords()
    requires SOURCE.Sized()
    ensures SuperWords(SOURCE) == [0xACBD0005, 0, 1024, 0, 524288, 0, 1, 0, 0, 0]
  {
    hide BlockStart, Beyond;
  }

  lemma FourAt(e: seq<byte>, ws: seq<nat>)
    requires Fits(ws) && |ws| == 10 && |e| == 40 && forall k | 0 <= k < 10 :: e[4 * k..4 * k + 4] == WordBytes(ws[k])
    ensures e[0..8] == WordBytes(ws[0]) + WordBytes(ws[1]) && e[8..16] == WordBytes(ws[2]) + WordBytes(ws[3])
    ensures e[16..24] == WordBytes(ws[4]) + WordBytes(ws[5]) && e[24..32] == WordBytes(ws[6]) + WordBytes(ws[7])
    ensures e[32..40] == WordBytes(ws[8]) + WordBytes(ws[9])
    ensures e == e[0..8] + e[8..16] + e[16..24] + e[24..32] + e[32..40]
  {
    hide WordBytes;
    assert e[0..8] == e[4 * 0..4 * 0 + 4] + e[4 * 1..4 * 1 + 4];
    assert e[8..16] == e[4 * 2..4 * 2 + 4] + e[4 * 3..4 * 3 + 4];
    assert e[16..24] == e[4 * 4..4 * 4 + 4] + e[4 * 5..4 * 5 + 4];
    assert e[24..32] == e[4 * 6..4 * 6 + 4] + e[4 * 7..4 * 7 + 4];
    assert e[32..40] == e[4 * 8..4 * 8 + 4] + e[4 * 9..4 * 9 + 4];
  }

  // ----- inode table -----

  lemma {:induction false} InodeWordsAt(t: seq<Inode>, i: nat)
    requires i < |t| && forall k | 0 <= k < |t| :: |t[k].direct| == DIRECT
    ensures TableWords(t)[19 * i..19 * i + 19]
         == [0, 0, 0, 0, t[i].size] + t[i].direct + [if t[i].used then 1 else 0, t[i].indirect]
  {
    if i > 0 {
      InodeWordsAt(t[1..], i - 1);
      assert TableWords(t)[19 * i..19 * i + 19] == TableWords(t[1..])[19 * (i - 1)..19 * (i - 1) + 19];
    }
  }

  /**
   * Inode `i` on disk: nineteen words from word 19 * i on, the size in the fifth, the direct pointers after it, then
   * whether it is in use and the pointer block.
   */
  lemma InodeOnDisk(g: Geo, v: Volume, i: nat)
    requires Shape(g, v) && TableWritten(g, v) && i < NUM_INODES
    ensures |ReadRange(v.blocks, 1, g.T)| >= 760
    ensures var n := v.table[i];
            Decode(ReadRange(v.blocks, 1, g.T), 190)[19 * i..19 * i + 19]
            == [0, 0, 0, 0, n.size] + n.direct + [if n.used then 1 else 0, n.indirect]
  {
    hide BlockStart, Beyond, Encode, Decode, TableWords, ReadRange;
    RegionSizes(g);
    TableWordsFit(v.table);
    var ws := TableWords(v.table);
    RoundTrip(ws, Zeros(BlockStart(g.B, g.T) - |Encode(ws)|));
    InodeWordsAt(v.table, i);
  }

  // ----- root directory -----

  lemma {:induction false} EntryIs(bs: seq<byte>, n: nat, i: nat)
    requires |bs| >= 24 * n && i < n
    ensures EntriesOf(bs, n)[i] == EntryOf(bs[24 * i..24 * i + 24])
  {
    hide EntryOf;
    if i > 0 {
      EntryIs(bs[24..], n - 1, i - 1);
      NextSlice(bs, 24 * (i - 1));
    }
  }

  lemma NextSlice(bs: seq<byte>, at: nat)
    requires at + 48 <= |bs|
    ensures bs[24..][at..at + 24] == bs[at + 24..at + 48]
  {
  }

  lemma {:induction false} NameIs(bs: seq<byte>)
    ensures NameOf(bs) <= bs && (|NameOf(bs)| < |bs| ==> bs[|NameOf(bs)|] == 0)
  {
    if bs != [] && bs[0] != 0 {
      NameIs(bs[1..]);
    }
  }

  /** Directory slot `i` on disk: the inode number as a word, then the name, ended by a zero byte unless it is full. */
  lemma EntryOnDisk(g: Geo, sb: Block, m: Mem, files: nat, i: nat)
    requires Good(g, sb, m, files) && i < NUM_INODES
    ensures |m.vol.blocks| == g.N && |m.root| == NUM_INODES && |ReadRange(m.vol.blocks, g.T + 2, g.R)| >= 240
    ensures var bs, name := ReadRange(m.vol.blocks, g.T + 2, g.R)[24 * i..24 * i + 24], m.root[i].name;
            && WordOf(bs[..4]) == m.root[i].inode && |name| <= 20 && bs[4..4 + |name|] == name
            && (|name| < 20 ==> bs[4 + |name|] == 0)
  {
    hide BlockStart, Beyond, WellFormedBut, DirOK, TableOnDisk, FreeSet, RootInodeOK, ReadRange, NameOf, EntriesOf, Fit;
    GoodShape(g, sb, m, files);
    MapsNow(g, sb, m, files);
    ReadRangeLength(g.B, m.vol.blocks, g.T + 2, g.R);
    RegionSizes(g);
    var bs := ReadRange(m.vol.blocks, g.T + 2, g.R);
    EntryIs(bs, NUM_INODES, i);
    NameIs(bs[24 * i..24 * i + 24][4..]);
  }

  // ----- bitmap -----

  lemma Masks()
    ensures Mask(0) == 1 && Mask(1) == 2 && Mask(2) == 4 && Mask(3) == 8
    ensures Mask(4) == 16 && Mask(5) == 32 && Mask(6) == 64 && Mask(7) == 128
  {
  }

  lemma FullByte(d: byte)
    requires forall c: nat | c < 8 :: d & Mask(c) != 0
    ensures d == 0xFF
  {
    Masks();
    assert d & Mask(0) != 0 && d & Mask(1) != 0 && d & Mask(2) != 0 && d & Mask(3) != 0;
    assert d & Mask(4) != 0 && d & Mask(5) != 0 && d & Mask(6) != 0 && d & Mask(7) != 0;
  }

  lemma HalfByte(d: byte)
    requires forall c: nat | c < 8 :: d & Mask(c) != 0 <==> c >= 4
    ensures d == 0xF0
  {
    Masks();
    assert d & Mask(0) == 0 && d & Mask(1) == 0 && d & Mask(2) == 0 && d & Mask(3) == 0;
    assert d & Mask(4) != 0 && d & Mask(5) != 0 && d & Mask(6) != 0 && d & Mask(7) != 0;
  }

  /** Four blocks in use: the first byte has its upper half set, and every other byte is full. */
  lemma FormatBits(bits: seq<byte>)
    requires |bits| == 128 && forall x: nat :: x in FreeSet(bits) <==> 4 <= x < 1024
    ensures bits[0] == 0xF0 && forall k | 1 <= k < 128 :: bits[k] == 0xFF
  {
    hide Mask;
    forall k | 0 <= k < 128 ensures bits[k] == if k == 0 then 0xF0 else 0xFF {
      forall c: nat | c < 8 ensures bits[k] & Mask(c) != 0 <==> 8 * k + c >= 4 {
        BitAt(bits, k, c);
      }
      if k == 0 {
        HalfByte(bits[0]);
      } else {
        FullByte(bits[k]);
      }
    }
  }

  lemma BitAt(bits: seq<byte>, k: nat, c: nat)
    requires k < |bits| && c < 8
    ensures 8 * k + c in FreeSet(bits) <==> bits[k] & Mask(c) != 0
  {
    assert (8 * k + c) / 8 == k && (8 * k + c) % 8 == c;
  }

  // ----- a formatted disk -----

  /**
   * The disk of the source's size after formatting: superblock, inode table, bitmap and directory in the first four
   * blocks, and nothing else.
   */
  method FreshImage() returns (fs: FileSystem)
    ensures fs.Linked() && fs.g == SOURCE && |fs.View().vol.blocks| == 512
    ensures var b := fs.View().vol.blocks[0];
            && b[0..8] == [0x05, 0x00, 0xBD, 0xAC, 0, 0, 0, 0] && b[8..16] == [0x00, 0x04, 0x00, 0x00, 0, 0, 0, 0]
            && b[16..24] == [0x00, 0x00, 0x08, 0x00, 0, 0, 0, 0] && b[24..32] == [0x01, 0x00, 0x00, 0x00, 0, 0, 0, 0]
            && b[32..] == Zeros(992)
    ensures var ws := Decode(fs.View().vol.blocks[1], 190);
            && ws[0..19] == [0, 0, 0, 0, 0, 3, 0, 0, 0, 0, 0, 0, 0, 0, 0, 0, 0, 1, 0]
            && forall i | 1 <= i < 10 ::
                 ws[19 * i..19 * i + 19] == [0, 0, 0, 0, 0, 0, 0, 0, 0, 0, 0, 0, 0, 0, 0, 0, 0, 0, 0]
    ensures var b := fs.View().vol.blocks[2];
            b[0] == 0xF0 && (forall k | 1 <= k < 128 :: b[k] == 0xFF) && forall k | 128 <= k < 1024 :: b[k] == 0
    ensures forall i | 0 <= i < 10 :: RootFrom(fs.View().vol.blocks[3])[i] == DirEntry(11, [])
    ensures forall k | 4 <= k < 512 :: fs.View().vol.blocks[k] == Zeros(1024)
  {
    hide BlockStart, Beyond, Good, SuperBytes, FreeSet, Decode, RootFrom, TableWritten, Shape, Fit;
    SourceSized();
    fs := new FileSystem(SOURCE);
    ghost var m := fs.View();
    GoodShape(fs.g, fs.sb, m, 0);
    SuperImage();
    SuperNow(fs.g, fs.sb, m, 0);
    FormatBits(m.vol.bits);
    BlocksNow(fs.g, fs.sb, m, 0);
    forall i | 0 <= i < 10
      ensures Decode(m.vol.blocks[1], 190)[19 * i..19 * i + 19]
           == [0, 0, 0, 0, 0, if i == 0 then 3 else 0, 0, 0, 0, 0, 0, 0, 0, 0, 0, 0, 0, if i == 0 then 1 else 0, 0]
    {
      InodeOnDisk(fs.g, m.vol, i);
      FormatInode(m.vol.table[i], i);
    }
    assert 19 * 0 == 0 && 19 * 0 + 19 == 19;
  }

  lemma FormatInode(n: Inode, i: nat)
    requires |n.direct| == 12 && n.size == 0 && n.indirect == 0 && n.used == (i == 0)
    requires forall k | 0 <= k < 12 :: n.direct[k] == if i == 0 && k == 0 then 3 else 0
    ensures [0, 0, 0, 0, n.size] + n.direct + [if n.used then 1 else 0, n.indirect]
         == [0, 0, 0, 0, 0, if i == 0 then 3 else 0, 0, 0, 0, 0, 0, 0, 0, 0, 0, 0, 0, if i == 0 then 1 else 0, 0]
  {
  }

  /** One block each for the table, the bitmap and the directory. */
  lemma BlocksNow(g: Geo, sb: Block, m: Mem, files: nat)
    requires g == SOURCE && Good(g, sb, m, files)
    ensures Shape(g, m.vol) && ReadRange(m.vol.blocks, 1, 1) == m.vol.blocks[1]
    ensures m.vol.blocks[2] == m.vol.bits + Zeros(896) && |m.vol.bits| == 128
    ensures |m.vol.blocks[3]| == 1024 && RootFrom(m.vol.blocks[3]) == m.root
  {
    hide BlockStart, Beyond, WellFormedBut, DirOK, TableOnDisk, RootFrom, FreeSet;
    GoodShape(g, sb, m, files);
    MapsNow(g, sb, m, files);
    assert ReadRange(m.vol.blocks, 3, 1) == m.vol.blocks[3];
  }

  // ----- the first file -----

  /**
   * The first file written on that disk: inode 1, directory slot 0 and descriptor 0 are its own, and its data is in
   * block 4, the first one after the metadata.
   */
  method FirstFile() returns (fs: FileSystem)
    ensures fs.Linked() && fs.g == SOURCE && fs.files == 1
    ensures fs.View().root[0] == DirEntry(1, [97]) && fs.View().fdt[0] == Fd(1, 0, 3, true)
    ensures fs.View().vol.table[1] == Inode(true, 3, [4, 0, 0, 0, 0, 0, 0, 0, 0, 0, 0, 0], 0)
    ensures |fs.View().vol.blocks| == 512 && |fs.View().vol.blocks[4]| == 1024
    ensures fs.View().vol.blocks[4][0..3] == [1, 2, 3]
  {
    hide BlockStart, Beyond, Good, FreeSet, OpenMeets, WriteMeets, Room, SuperBytes, OneOpened, TableWritten, Sound;
    SourceSized();
    fs := new FileSystem(SOURCE);
    ghost var m0 := fs.View();
    GoodShape(fs.g, fs.sb, m0, 0);
    var fd := fs.Open([97]);
    ghost var m1 := fs.View();
    FirstOpened(fs.g, fs.sb, m0, fd, m1, fs.files);
    FirstRoom(fs.g, fs.sb, m1);
    var n := fs.Write(0, [1, 2, 3]);
    FirstWritten(fs.g, fs.sb, m1, fs.View());
  }

  /** A new disk with one file, opened but not written. */
  ghost predicate OneOpened(g: Geo, sb: Block, m: Mem) {
    && g == SOURCE && Good(g, sb, m, 1) && (forall x: nat :: x in FreeSet(m.vol.bits) <==> 4 <= x < 1024)
    && m.root[0] == DirEntry(1, [97]) && m.fdt[0] == Fd(1, 0, 0, true)
    && m.vol.table[1] == Inode(true, 0, [0, 0, 0, 0, 0, 0, 0, 0, 0, 0, 0, 0], 0)
    && FilesOf(g, m, 1) == [File([97], false, [], 0, 0, true, false)]
  }

  lemma FirstOpened(g: Geo, sb: Block, m0: Mem, r: int, m: Mem, files: nat)
    requires g == SOURCE && Good(g, sb, m0, 0) && OpenMeets(g, sb, m0, 0, [97], r, m, files)
    requires forall x: nat :: x in FreeSet(m0.vol.bits) <==> 4 <= x < 1024
    ensures r == 0 && files == 1 && OneOpened(g, sb, m) && Good(g, sb, m, 1)
    ensures |m.root| == |m.fdt| == NUM_INODES && m.root[0] == DirEntry(1, [97]) && m.fdt[0] == Fd(1, 0, 0, true)
  {
    hide BlockStart, Beyond, WellFormed, InStep, DirOK, Content, Recorded, FreeSet, RootInodeOK;
    GoodShape(g, sb, m0, 0);
  }

  lemma FirstRoom(g: Geo, sb: Block, m: Mem)
    requires OneOpened(g, sb, m)
    ensures Shape(g, m.vol) && Room(g, m.vol, 1, m.fdt[0].wptr, [1, 2, 3])
    ensures Sound(g, m.vol.table[1], 0, 3)
  {
    hide BlockStart, Beyond, WellFormed, InStep, DirOK, Content, Recorded, FreeSet, RootInodeOK, ShortName, Needs;
    GoodKnown(g, sb, m, 1, 0);
    SmallWrite(File([97], false, [], 0, 0, true, false), File([97], true, [1, 2, 3], 0, 3, true, true));
    LegalWrite(g, sb, m, 1, 0, [1, 2, 3]);
  }

  lemma FirstWritten(g: Geo, sb: Block, m: Mem, m': Mem)
    requires OneOpened(g, sb, m) && WriteMeets(g, sb, m, 1, 0, [1, 2, 3], m')
    ensures Shape(g, m'.vol) && m'.root == m.root && |m'.fdt| == NUM_INODES && m'.fdt[0] == Fd(1, 0, 3, true)
    ensures m'.vol.table[1] == Inode(true, 3, [4, 0, 0, 0, 0, 0, 0, 0, 0, 0, 0, 0], 0)
    ensures m'.vol.blocks[4][0..3] == [1, 2, 3]
  {
    hide BlockStart, Beyond, WellFormed, InStep, DirOK, Content, Recorded, FreeSet, RootInodeOK, FirstFit, ShortName,
         Needs, Avail, Sound, Owners, BlockOf, Seen, Readable, Fit, RootOnDisk, Overwrite;
    GoodKnown(g, sb, m, 1, 0);
    FirstRoom(g, sb, m);
    GoodKnown(g, sb, m', 1, 0);
    assert FilesOf(g, m, 1)[0] == FileAt(g, m, 0);
    OverwriteToEnd(1024, [], 0, [1, 2, 3]);
    assert Content(g, m'.vol, 1) == [][..0] + [1, 2, 3] == [1, 2, 3];
    FirstInode(g, sb, m, m');
  }

  lemma FirstInode(g: Geo, sb: Block, m: Mem, m': Mem)
    requires OneOpened(g, sb, m) && Good(g, sb, m', 1) && Written(m'.vol.table[1])
    requires Shape(g, m.vol) && Shape(g, m'.vol) && Content(g, m'.vol, 1) == [1, 2, 3]
    requires FirstFit(Owners(g, m.vol)[1], Owners(g, m'.vol)[1], FreeSet(m.vol.bits), FreeSet(m'.vol.bits))
    ensures m'.vol.table[1] == Inode(true, 3, [4, 0, 0, 0, 0, 0, 0, 0, 0, 0, 0, 0], 0)
    ensures m'.vol.blocks[4][0..3] == [1, 2, 3]
  {
    hide BlockStart, Beyond, WellFormed, InStep, DirOK, FreeSet, RootInodeOK, ShortName, Owners, FirstFit, TableOK,
         Pointers, Content, ExtentOK;
    GoodKnown(g, sb, m, 1, 0);
    GoodKnown(g, sb, m', 1, 0);
    FileKnown(g, m.vol, 1);
    FileKnown(g, m'.vol, 1);
    BlocksKnown(g, m'.vol, 1);
    assert BlockOf(1024, 3) == 0;
    var n, e := m'.vol.table[1], Owners(g, m'.vol)[1];
    FirstBlock(g, sb, m, m');
    assert n.direct == [4, 0, 0, 0, 0, 0, 0, 0, 0, 0, 0, 0];
    FirstBytes(g, m'.vol, e);
  }

  lemma FirstBytes(g: Geo, v: Volume, e: Extent)
    requires g == SOURCE && Shape(g, v) && Content(g, v, 1) == [1, 2, 3] && e == Owners(g, v)[1] && e.data == [4]
    ensures v.blocks[4][0..3] == [1, 2, 3]
  {
    hide BlockStart, Beyond, ExtentOf;
    var c := Content(g, v, 1);
    assert c[0] == v.blocks[4][0] && c[1] == v.blocks[4][1] && c[2] == v.blocks[4][2];
  }

  /** The least free block is block 4, and nobody else can have taken it. */
  lemma FirstBlock(g: Geo, sb: Block, m: Mem, m': Mem)
    requires OneOpened(g, sb, m) && Good(g, sb, m', 1) && Shape(g, m.vol) && Shape(g, m'.vol)
    requires FirstFit(Owners(g, m.vol)[1], Owners(g, m'.vol)[1], FreeSet(m.vol.bits), FreeSet(m'.vol.bits))
    requires Owners(g, m.vol)[1].data == [] && |Owners(g, m'.vol)[1].data| == 1 && Owners(g, m'.vol)[1].table == 0
    ensures Owners(g, m'.vol)[1].data == [4]
  {
    hide BlockStart, Beyond, InStep, FreeSet, RootInodeOK, ShortName, Owners;
    var own, b := Owners(g, m'.vol), Owners(g, m'.vol)[1].data[0];
    if b != 4 {
      assert 4 !in FreeSet(m'.vol.bits);
      assert Owned(own, 4);
      var i :| 0 <= i < |own| && InExtent(own[i], 4);
      if i != 1 {
        NoBlocks(g, sb, m', 1, i);
      }
      assert false;
    }
  }
}
