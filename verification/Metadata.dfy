/** The metadata records and their bytes on disk: superblock, inode table, bitmap and root directory. */
module Metadata {
  import opened Arith
  import opened Codec
  import opened DiskEmu
  import opened Layout

  const MAX_FILE_NAME: nat := 20
  const NO_INODE: nat := NUM_INODES + 1
  const INODE_WORDS: nat := 19
  const MAGIC: nat := 0xACBD0005

  /** A root directory entry; an unused one has an empty name. */
  datatype DirEntry = DirEntry(inode: nat, name: seq<byte>)

  const FREE_ENTRY := DirEntry(NO_INODE, [])
  const FREE_INODE := Inode(false, 0, [0, 0, 0, 0, 0, 0, 0, 0, 0, 0, 0, 0], 0)

  /** `bytes` cut or zero-padded to `n`. */
  function Fit(bytes: seq<byte>, n: nat): (r: seq<byte>)
    ensures |r| == n
    ensures |bytes| <= n ==> r == bytes + Zeros(n - |bytes|)
  {
    if |bytes| <= n then bytes + Zeros(n - |bytes|) else bytes[..n]
  }

  // ----- superblock -----

  /** A 64-bit field as two words. */
  function Long(x: nat): (ws: seq<nat>)
    ensures |ws| == 2 && Fits(ws)
  {
    [x % WORD_LIMIT, x / WORD_LIMIT % WORD_LIMIT]
  }

  function Capacity(B: nat, N: nat): nat {
    N * B
  }

  function SuperWords(g: Geo): (ws: seq<nat>)
    ensures |ws| == 10 && Fits(ws)
  {
    Long(MAGIC) + Long(g.B) + Long(Capacity(g.B, g.N)) + Long(g.T) + Long(0)
  }

  function SuperBytes(g: Geo): (b: Block)
    ensures |b| == g.B
  {
    Fit(Encode(SuperWords(g)), g.B)
  }

  // ----- inode table -----

  ghost predicate InodeFits(n: Inode) {
    && |n.direct| == DIRECT && Fits(n.direct)
    && n.size < WORD_LIMIT && n.indirect < WORD_LIMIT
  }

  ghost predicate TableFits(t: seq<Inode>) {
    forall i | 0 <= i < |t| :: InodeFits(t[i])
  }

  function InodeWords(n: Inode): (ws: seq<nat>)
    requires |n.direct| == DIRECT
    ensures |ws| == INODE_WORDS
  {
    [0, 0, 0, 0, n.size] + n.direct + [if n.used then 1 else 0, n.indirect]
  }

  function InodeOf(ws: seq<nat>): (n: Inode)
    requires |ws| == INODE_WORDS
    ensures |n.direct| == DIRECT
  {
    Inode(ws[17] != 0, ws[4], ws[5..17], ws[18])
  }

  function TableWords(t: seq<Inode>): (ws: seq<nat>)
    requires forall i | 0 <= i < |t| :: |t[i].direct| == DIRECT
    ensures |ws| == INODE_WORDS * |t|
  {
    if t == [] then [] else InodeWords(t[0]) + TableWords(t[1..])
  }

  function TableOf(ws: seq<nat>, n: nat): (t: seq<Inode>)
    requires |ws| == INODE_WORDS * n
    ensures |t| == n && forall i | 0 <= i < n :: |t[i].direct| == DIRECT
  {
    if n == 0 then [] else [InodeOf(ws[..INODE_WORDS])] + TableOf(ws[INODE_WORDS..], n - 1)
  }

  lemma {:induction false} TableWordsFit(t: seq<Inode>)
    requires TableFits(t)
    ensures Fits(TableWords(t))
  {
    if t != [] {
      TableWordsFit(t[1..]);
    }
  }

  /** The inode table survives a round trip through words. */
  lemma {:induction false} TableRoundTrip(t: seq<Inode>)
    requires forall i | 0 <= i < |t| :: |t[i].direct| == DIRECT
    ensures TableOf(TableWords(t), |t|) == t
  {
    if t != [] {
      var ws := TableWords(t);
      assert ws[..INODE_WORDS] == InodeWords(t[0]);
      assert ws[INODE_WORDS..] == TableWords(t[1..]);
      assert InodeWords(t[0])[5..17] == t[0].direct;
      TableRoundTrip(t[1..]);
    }
  }

  function TableBytes(t: seq<Inode>, n: nat): (bs: seq<byte>)
    requires TableFits(t)
    ensures |bs| == n
  {
    TableWordsFit(t);
    Fit(Encode(TableWords(t)), n)
  }

  function TableFrom(bs: seq<byte>): (t: seq<Inode>)
    requires |bs| >= INODE_BYTES * NUM_INODES
    ensures |t| == NUM_INODES && forall i | 0 <= i < NUM_INODES :: |t[i].direct| == DIRECT
  {
    TableOf(Decode(bs, INODE_WORDS * NUM_INODES), NUM_INODES)
  }

  /** What is read back from the table blocks is the table that was written there. */
  lemma TableReload(t: seq<Inode>, n: nat)
    requires TableFits(t) && |t| == NUM_INODES && n >= INODE_BYTES * NUM_INODES
    ensures TableFrom(TableBytes(t, n)) == t
  {
    TableWordsFit(t);
    var ws := TableWords(t);
    RoundTrip(ws, Zeros(n - |Encode(ws)|));
    TableRoundTrip(t);
  }

  // ----- root directory -----

  predicate ShortName(name: seq<byte>) {
    |name| <= MAX_FILE_NAME && 0 !in name
  }

  ghost predicate RootFits(r: seq<DirEntry>) {
    forall i | 0 <= i < |r| :: ShortName(r[i].name) && r[i].inode < WORD_LIMIT
  }

  function EntryBytes(e: DirEntry): (bs: seq<byte>)
    requires e.inode < WORD_LIMIT
    ensures |bs| == ENTRY_BYTES
  {
    WordBytes(e.inode) + Fit(e.name, MAX_FILE_NAME)
  }

  /** A stored name ends at the first zero byte. */
  function NameOf(bs: seq<byte>): seq<byte> {
    if bs == [] || bs[0] == 0 then [] else [bs[0]] + NameOf(bs[1..])
  }

  lemma {:induction false} NameRoundTrip(name: seq<byte>, pad: nat)
    requires 0 !in name
    ensures NameOf(name + Zeros(pad)) == name
  {
    if name != [] {
      var bs := name + Zeros(pad);
      assert bs[1..] == name[1..] + Zeros(pad);
      NameRoundTrip(name[1..], pad);
    }
  }

  function EntryOf(bs: seq<byte>): DirEntry
    requires |bs| == ENTRY_BYTES
  {
    DirEntry(WordOf(bs[..4]), NameOf(bs[4..]))
  }

  function EntriesBytes(r: seq<DirEntry>): (bs: seq<byte>)
    requires RootFits(r)
    ensures |bs| == ENTRY_BYTES * |r|
  {
    if r == [] then [] else EntryBytes(r[0]) + EntriesBytes(r[1..])
  }

  function EntriesOf(bs: seq<byte>, n: nat): (r: seq<DirEntry>)
    requires |bs| >= ENTRY_BYTES * n
    ensures |r| == n
  {
    if n == 0 then [] else [EntryOf(bs[..ENTRY_BYTES])] + EntriesOf(bs[ENTRY_BYTES..], n - 1)
  }

  lemma EntryRoundTrip(e: DirEntry)
    requires ShortName(e.name) && e.inode < WORD_LIMIT
    ensures EntryOf(EntryBytes(e)) == e
  {
    WordRoundTrip(e.inode);
    NameRoundTrip(e.name, MAX_FILE_NAME - |e.name|);
    assert EntryBytes(e)[..4] == WordBytes(e.inode);
    assert EntryBytes(e)[4..] == e.name + Zeros(MAX_FILE_NAME - |e.name|);
  }

  function RootBytes(r: seq<DirEntry>, n: nat): (bs: seq<byte>)
    requires RootFits(r)
    ensures |bs| == n
  {
    Fit(EntriesBytes(r), n)
  }

  function RootFrom(bs: seq<byte>): (r: seq<DirEntry>)
    requires |bs| >= ENTRY_BYTES * NUM_INODES
    ensures |r| == NUM_INODES
  {
    EntriesOf(bs, NUM_INODES)
  }

  /** The root directory survives a round trip through its bytes. */
  lemma {:induction false} EntriesRoundTrip(r: seq<DirEntry>, pad: seq<byte>)
    requires RootFits(r)
    ensures EntriesOf(EntriesBytes(r) + pad, |r|) == r
  {
    if r != [] {
      var bs := EntriesBytes(r) + pad;
      assert bs[..ENTRY_BYTES] == EntryBytes(r[0]);
      assert bs[ENTRY_BYTES..] == EntriesBytes(r[1..]) + pad;
      EntryRoundTrip(r[0]);
      EntriesRoundTrip(r[1..], pad);
    }
  }

  lemma RootReload(r: seq<DirEntry>, n: nat)
    requires RootFits(r) && |r| == NUM_INODES && n >= ENTRY_BYTES * NUM_INODES
    ensures RootFrom(RootBytes(r, n)) == r
  {
    EntriesRoundTrip(r, Zeros(n - |EntriesBytes(r)|));
  }

  // ----- sizes -----

  /** The regions on disk are larger than what they hold. */
  lemma RegionSizes(g: Geo)
    ensures BlockStart(g.B, g.T) >= INODE_BYTES * NUM_INODES && BlockStart(g.B, g.R) >= ENTRY_BYTES * NUM_INODES
  {
  }
}
