/** The flat file system as a machine: what each call returns, and what a whole run leaves. */
module FlatMachine {
  import opened Arith
  import opened Codec
  import opened Layout
  import opened Metadata
  import opened FlatFile
  import opened FlatFs

  /** The calls; `Remount` is making the file system again without formatting it. */
  datatype Op = Open(name: seq<byte>) | Close(fd: nat) | Seek(fd: nat, loc: nat) | Write(fd: nat, buf: seq<byte>)
              | Read(fd: nat, len: nat) | Remount

  datatype Result = Number(n: int) | Text(bytes: seq<byte>)

  /** Both positions are inside the file. */
  predicate Sane(f: File) {
    f.rpos <= |f.data| && f.wpos <= |f.data|
  }

  /** Where a name is; the number of files when it is not there. */
  function IndexOf(fs: seq<File>, name: seq<byte>): (i: nat)
    ensures i <= |fs| && (i < |fs| ==> fs[i].name == name)
    ensures forall k | 0 <= k < i :: fs[k].name != name
  {
    if fs == [] || fs[0].name == name then 0
    else
      var i := IndexOf(fs[1..], name);
      assert forall k | 1 <= k < i + 1 :: fs[k] == fs[1..][k - 1];
      i + 1
  }

  /** The bytes a read of `len` returns. */
  function ReadOf(f: File, len: nat): seq<byte>
    requires Sane(f)
  {
    if f.open then f.data[f.rpos..Min(|f.data|, f.rpos + len)] else []
  }

  /** The call names a file, and all positions are inside their files. */
  predicate InRange(fs: seq<File>, op: Op) {
    (forall k | 0 <= k < |fs| :: Sane(fs[k])) && (op.Open? || op.Remount? || op.fd < |fs|)
  }

  /** One call: the files afterwards and what is returned. */
  function Step(B: nat, fs: seq<File>, op: Op): (r: (seq<File>, Result))
    requires B > 0 && InRange(fs, op)
    ensures forall k | 0 <= k < |r.0| :: Sane(r.0[k])
    ensures |fs| <= |r.0|
  {
    match op
    case Open(name) =>
      if |name| > MAX_FILE_NAME then (fs, Number(-1))
      else
        var i := IndexOf(fs, name);
        if i < |fs| then (fs[i := Reopened(fs[i])], Number(i))
        else (fs + [File(name, false, [], 0, 0, true, false)], Number(i))
    case Close(fd) =>
      (fs[fd := fs[fd].(open := false)], Number(if fs[fd].open then 0 else -1))
    case Seek(fd, loc) =>
      var p := Min(loc, |fs[fd].data|);
      (fs[fd := fs[fd].(rpos := p, wpos := p)], Number(0))
    case Write(fd, buf) =>
      (Rewritten(B, fs, fd, buf), Number(|buf|))
    case Read(fd, len) =>
      var out := ReadOf(fs[fd], len);
      (fs[fd := fs[fd].(rpos := fs[fd].rpos + |out|)], Text(out))
    case Remount => (fs, Number(0))
  }

  /** Data blocks and pointer block of a file: one ahead of its size once it has been written. */
  function Blocks(g: Geometry, f: File): nat
    requires g.B > 0
  {
    if !f.written then 0
    else var k := BlockOf(g.B, |f.data|) + 1; k + if k > DIRECT then 1 else 0
  }

  /** Blocks all files take. */
  function Used(g: Geometry, fs: seq<File>): nat
    requires g.B > 0
  {
    if fs == [] then 0 else Used(g, fs[..|fs| - 1]) + Blocks(g, fs[|fs| - 1])
  }

  /** A later write from the direct blocks into the indirect ones works once, and only past the first of them. */
  predicate MayCross(B: nat, f: File, len: nat)
    requires B > 0
  {
    f.written && BlockOf(B, f.wpos) < DIRECT <= BlockOf(B, f.wpos + len) ==>
      BlockOf(B, |f.data|) < DIRECT && BlockOf(B, f.wpos + len) > DIRECT
  }

  /** The calls the code answers for. */
  predicate Legal(g: Geometry, fs: seq<File>, op: Op)
    requires g.B > 0
  {
    && InRange(fs, op)
    && match op
       case Open(name) =>
         name != [] && 0 !in name
         && (|name| <= MAX_FILE_NAME && IndexOf(fs, name) == |fs| ==> |fs| < NUM_INODES - 1)
       case Write(fd, buf) =>
         && BlockOf(g.B, fs[fd].wpos + |buf|) < DIRECT + g.P
         && MayCross(g.B, fs[fd], |buf|)
         && g.Meta() + Used(g, fs[fd := Wrote(g.B, fs[fd], buf)]) <= g.N
       case Remount => forall f | f in fs :: f.stored
       case _ => true
  }

  /** Every call of the run is answered for when its turn comes. */
  predicate LegalRun(g: Geometry, fs: seq<File>, ops: seq<Op>)
    requires g.B > 0
    decreases |ops|
  {
    ops != [] ==> Legal(g, fs, ops[0]) && LegalRun(g, Step(g.B, fs, ops[0]).0, ops[1..])
  }

  /** A whole run: the files at the end and all that was returned. */
  function Outcome(g: Geometry, fs: seq<File>, ops: seq<Op>): (seq<File>, seq<Result>)
    requires g.B > 0 && LegalRun(g, fs, ops)
    decreases |ops|
  {
    if ops == [] then (fs, [])
    else
      var one := Step(g.B, fs, ops[0]);
      var rest := Outcome(g, one.0, ops[1..]);
      (rest.0, [one.1] + rest.1)
  }

  lemma RunNil(g: Geometry, fs: seq<File>)
    requires g.B > 0
    ensures LegalRun(g, fs, []) && Outcome(g, fs, []) == (fs, [])
  {
  }

  /** A run is its first call and then the rest. */
  lemma RunCons(g: Geometry, fs: seq<File>, op: Op, rest: seq<Op>)
    requires g.B > 0 && Legal(g, fs, op) && LegalRun(g, Step(g.B, fs, op).0, rest)
    ensures LegalRun(g, fs, [op] + rest)
    ensures var one := Step(g.B, fs, op);
            Outcome(g, fs, [op] + rest) == (Outcome(g, one.0, rest).0, [one.1] + Outcome(g, one.0, rest).1)
  {
    assert ([op] + rest)[1..] == rest;
  }

  lemma {:induction false} UsedUpdate(g: Geometry, fs: seq<File>, k: nat, f: File)
    requires g.B > 0 && k < |fs|
    ensures Used(g, fs[k := f]) + Blocks(g, fs[k]) == Used(g, fs) + Blocks(g, f)
  {
    hide Blocks;
    var n, now := |fs| - 1, fs[k := f];
    if k < n {
      assert now[..n] == fs[..n][k := f];
      UsedUpdate(g, fs[..n], k, f);
    } else {
      assert now[..n] == fs[..n];
    }
  }

  // ----- what every run keeps -----

  /** No two files have the same name. */
  predicate Distinct(fs: seq<File>) {
    forall j, k | 0 <= j < k < |fs| :: fs[j].name != fs[k].name
  }

  lemma StepKeepsNames(B: nat, fs: seq<File>, op: Op)
    requires B > 0 && InRange(fs, op) && Distinct(fs)
    ensures Distinct(Step(B, fs, op).0)
    ensures forall k | 0 <= k < |fs| :: Step(B, fs, op).0[k].name == fs[k].name
  {
  }

  /** However a run goes, a file keeps its name and its place, and names stay distinct. */
  lemma {:induction false} RunKeepsNames(g: Geometry, fs: seq<File>, ops: seq<Op>)
    requires g.B > 0 && LegalRun(g, fs, ops) && Distinct(fs)
    ensures |fs| <= |Outcome(g, fs, ops).0| && Distinct(Outcome(g, fs, ops).0)
    ensures forall k | 0 <= k < |fs| :: Outcome(g, fs, ops).0[k].name == fs[k].name
    decreases |ops|
  {
    if ops != [] {
      StepKeepsNames(g.B, fs, ops[0]);
      RunKeepsNames(g, Step(g.B, fs, ops[0]).0, ops[1..]);
    }
  }

  /** Opening a name again, after any run, gives the descriptor it had before. */
  lemma ReopenReturns(g: Geometry, fs: seq<File>, ops: seq<Op>, k: nat)
    requires g.B > 0 && LegalRun(g, fs, ops) && Distinct(fs) && k < |fs|
    requires |fs[k].name| <= MAX_FILE_NAME && forall j | 0 <= j < |fs| :: Sane(fs[j])
    ensures var after := Outcome(g, fs, ops).0;
            InRange(after, Open(fs[k].name)) && Step(g.B, after, Open(fs[k].name)).1 == Number(k)
  {
    RunKeepsNames(g, fs, ops);
    RunKeepsSane(g, fs, ops);
  }

  /** However a run goes, positions stay inside their files. */
  lemma {:induction false} RunKeepsSane(g: Geometry, fs: seq<File>, ops: seq<Op>)
    requires g.B > 0 && LegalRun(g, fs, ops) && forall k | 0 <= k < |fs| :: Sane(fs[k])
    ensures forall k | 0 <= k < |Outcome(g, fs, ops).0| :: Sane(Outcome(g, fs, ops).0[k])
    decreases |ops|
  {
    if ops != [] {
      RunKeepsSane(g, Step(g.B, fs, ops[0]).0, ops[1..]);
    }
  }

  /** The call is about another file. */
  predicate Elsewhere(fs: seq<File>, op: Op, k: nat)
    requires k < |fs|
  {
    if op.Open? then op.name != fs[k].name else op.Remount? || op.fd != k
  }

  /**
   * A run that never names file `k` leaves it exactly as it was, contents, size and positions; only its inode may have
   * gone to disk.
   */
  lemma {:induction false} RunElsewhere(g: Geometry, fs: seq<File>, ops: seq<Op>, k: nat)
    requires g.B > 0 && LegalRun(g, fs, ops) && k < |fs|
    requires forall i | 0 <= i < |ops| :: Elsewhere(fs, ops[i], k)
    ensures k < |Outcome(g, fs, ops).0|
    ensures Outcome(g, fs, ops).0[k] == fs[k].(stored := Outcome(g, fs, ops).0[k].stored)
    decreases |ops|
  {
    if ops != [] {
      var next := Step(g.B, fs, ops[0]).0;
      assert next[k] == fs[k].(stored := next[k].stored);
      forall i | 0 <= i < |ops[1..]| ensures Elsewhere(next, ops[1..][i], k) {
        assert Elsewhere(fs, ops[i + 1], k);
      }
      RunElsewhere(g, next, ops[1..], k);
    }
  }

  // ----- which inodes are on disk -----

  /** The call stores the inode table: only a write does, and not one in place. */
  predicate Stores(B: nat, fs: seq<File>, op: Op)
    requires B > 0 && InRange(fs, op)
  {
    op.Write? && !InPlace(B, fs[op.fd], |op.buf|)
  }

  /** Some call of the run stores the inode table. */
  predicate StoresIn(g: Geometry, fs: seq<File>, ops: seq<Op>)
    requires g.B > 0 && LegalRun(g, fs, ops)
    decreases |ops|
  {
    ops != [] && (Stores(g.B, fs, ops[0]) || StoresIn(g, Step(g.B, fs, ops[0]).0, ops[1..]))
  }

  /** A file's inode is on disk after a run if and only if it was before, or some call of the run stored the table. */
  lemma {:induction false} StoredIff(g: Geometry, fs: seq<File>, ops: seq<Op>, k: nat)
    requires g.B > 0 && LegalRun(g, fs, ops) && k < |fs|
    ensures k < |Outcome(g, fs, ops).0|
    ensures Outcome(g, fs, ops).0[k].stored <==> fs[k].stored || StoresIn(g, fs, ops)
    decreases |ops|
  {
    if ops != [] {
      StoredIff(g, Step(g.B, fs, ops[0]).0, ops[1..], k);
    }
  }

  /** A file that is created starts out not on disk. */
  lemma CreatedNotStored(g: Geometry, fs: seq<File>, name: seq<byte>, ops: seq<Op>)
    requires g.B > 0 && LegalRun(g, fs, [Open(name)] + ops)
    requires |name| <= MAX_FILE_NAME && IndexOf(fs, name) == |fs|
    ensures var next := Step(g.B, fs, Open(name)).0;
            && LegalRun(g, next, ops) && |fs| < |Outcome(g, next, ops).0|
            && Outcome(g, fs, [Open(name)] + ops).0 == Outcome(g, next, ops).0
            && (Outcome(g, next, ops).0[|fs|].stored <==> StoresIn(g, next, ops))
  {
    assert ([Open(name)] + ops)[1..] == ops;
    StoredIff(g, Step(g.B, fs, Open(name)).0, ops, |fs|);
  }

  /** A run in two parts is the first part, then the second from where the first ended. */
  lemma {:induction false} RunAppend(g: Geometry, fs: seq<File>, a: seq<Op>, b: seq<Op>)
    requires g.B > 0 && LegalRun(g, fs, a)
    ensures LegalRun(g, fs, a + b) <==> LegalRun(g, Outcome(g, fs, a).0, b)
    ensures LegalRun(g, fs, a + b) ==> Outcome(g, fs, a + b).0 == Outcome(g, Outcome(g, fs, a).0, b).0
    decreases |a|
  {
    hide Step;
    if a == [] {
      assert a + b == b;
    } else {
      assert (a + b)[1..] == a[1..] + b;
      RunAppend(g, Step(g.B, fs, a[0]).0, a[1..], b);
    }
  }

  /**
   * When the last file has been created at some point of a run, the inodes of all files are on disk at its end if and
   * only if some call after that point stored the table.
   */
  lemma AllStoredIff(g: Geometry, fs: seq<File>, pre: seq<Op>, name: seq<byte>, post: seq<Op>)
    requires g.B > 0 && LegalRun(g, fs, pre) && LegalRun(g, Outcome(g, fs, pre).0, [Open(name)] + post)
    requires var before := Outcome(g, fs, pre).0;
             && |name| <= MAX_FILE_NAME && IndexOf(before, name) == |before|
             && |Outcome(g, before, [Open(name)] + post).0| == |before| + 1
    ensures var ops, next := pre + ([Open(name)] + post), Step(g.B, Outcome(g, fs, pre).0, Open(name)).0;
            && LegalRun(g, fs, ops) && LegalRun(g, next, post)
            && ((forall f | f in Outcome(g, fs, ops).0 :: f.stored) <==> StoresIn(g, next, post))
  {
    hide Step, StoresIn;
    var before := Outcome(g, fs, pre).0;
    RunAppend(g, fs, pre, [Open(name)] + post);
    assert Legal(g, before, ([Open(name)] + post)[0]);
    CreatedNotStored(g, before, name, post);
    var next := Step(g.B, before, Open(name)).0;
    var after := Outcome(g, next, post).0;
    assert after[|before|] in after;
    if StoresIn(g, next, post) {
      forall k | 0 <= k < |after| ensures after[k].stored {
        CreatedLength(g, before, name);
        StoredIff(g, next, post, k);
      }
    }
  }

  lemma CreatedLength(g: Geometry, fs: seq<File>, name: seq<byte>)
    requires g.B > 0 && InRange(fs, Open(name)) && |name| <= MAX_FILE_NAME && IndexOf(fs, name) == |fs|
    ensures |Step(g.B, fs, Open(name)).0| == |fs| + 1
  {
  }

  // ----- chunks -----

  function Concat(chunks: seq<seq<byte>>): seq<byte> {
    if chunks == [] then [] else chunks[0] + Concat(chunks[1..])
  }

  /** The calls that write `chunks` one after the other. */
  function Writes(fd: nat, chunks: seq<seq<byte>>): seq<Op> {
    if chunks == [] then [] else [Write(fd, chunks[0])] + Writes(fd, chunks[1..])
  }

  /**
   * Chunked writing as a run: if every chunk is allowed when its turn comes, the one large write is allowed too, and
   * leaves the same files, although the first chunk and the later ones take different branches.
   */
  lemma {:induction false} WriteSplit(g: Geometry, fs: seq<File>, fd: nat, chunks: seq<seq<byte>>)
    requires g.B > 0 && chunks != [] && LegalRun(g, fs, Writes(fd, chunks))
    ensures Legal(g, fs, Write(fd, Concat(chunks)))
    ensures Outcome(g, fs, Writes(fd, chunks)).0 == Step(g.B, fs, Write(fd, Concat(chunks))).0
    decreases |chunks|
  {
    var op, rest := Write(fd, chunks[0]), Writes(fd, chunks[1..]);
    assert Writes(fd, chunks)[0] == op && Writes(fd, chunks)[1..] == rest;
    var next := Step(g.B, fs, op).0;
    if |chunks| == 1 {
      assert Concat(chunks) == chunks[0] + [] == chunks[0];
      RunNil(g, next);
    } else {
      WriteSplit(g, next, fd, chunks[1..]);
      TwoWrites(g, fs, fd, chunks[0], Concat(chunks[1..]));
    }
  }

  /** Two allowed writes in a row are one allowed write. */
  lemma TwoWrites(g: Geometry, fs: seq<File>, fd: nat, a: seq<byte>, b: seq<byte>)
    requires g.B > 0 && Legal(g, fs, Write(fd, a)) && Legal(g, Step(g.B, fs, Write(fd, a)).0, Write(fd, b))
    ensures Legal(g, fs, Write(fd, a + b))
    ensures Step(g.B, Step(g.B, fs, Write(fd, a)).0, Write(fd, b)).0 == Step(g.B, fs, Write(fd, a + b)).0
  {
    hide Blocks, Used, BlockOf, Overwrite;
    var f, next := fs[fd], Rewritten(g.B, fs, fd, a);
    var f1 := Wrote(g.B, f, a);
    OverwriteChunks(g.B, f.data, f.wpos, a, b);
    assert Wrote(g.B, f1, b) == Wrote(g.B, f, a + b);
    BlockOrder(g.B, f.wpos, f.wpos + |a|);
    BlockOrder(g.B, f.wpos + |a|, f.wpos + |a + b|);
    BlockOrder(g.B, |f.data|, |f1.data|);
    SameBlocks(g, next[fd := Wrote(g.B, next[fd], b)], fs[fd := Wrote(g.B, f, a + b)]);
    assert Rewritten(g.B, next, fd, b) == Rewritten(g.B, fs, fd, a + b);
  }

  lemma {:induction false} SameBlocks(g: Geometry, fs: seq<File>, gs: seq<File>)
    requires g.B > 0 && |fs| == |gs|
    requires forall k | 0 <= k < |fs| :: fs[k].written == gs[k].written && fs[k].data == gs[k].data
    ensures Used(g, fs) == Used(g, gs)
    decreases |fs|
  {
    if fs != [] {
      SameBlocks(g, fs[..|fs| - 1], gs[..|gs| - 1]);
    }
  }

  function SumOf(lens: seq<nat>): nat {
    if lens == [] then 0 else lens[0] + SumOf(lens[1..])
  }

  lemma TwoReads(f: File, a: nat, b: nat)
    requires Sane(f)
    ensures f.rpos + |ReadOf(f, a)| <= |f.data|
    ensures ReadOf(f, a) + ReadOf(f.(rpos := f.rpos + |ReadOf(f, a)|), b) == ReadOf(f, a + b)
  {
    hide ReadOf;
    ReadIs(f, a);
    var f' := f.(rpos := f.rpos + |ReadOf(f, a)|);
    ReadIs(f', b);
    ReadIs(f, a + b);
    if f.open {
      Slices(f.data, f.rpos, f'.rpos, Min(|f.data|, f.rpos + a + b));
    }
  }

  lemma ReadIs(f: File, n: nat)
    requires Sane(f)
    ensures f.open ==> ReadOf(f, n) == f.data[f.rpos..Min(|f.data|, f.rpos + n)]
    ensures !f.open ==> ReadOf(f, n) == []
    ensures f.rpos + |ReadOf(f, n)| == if f.open then Min(|f.data|, f.rpos + n) else f.rpos
  {
  }

  lemma Slices(s: seq<byte>, a: nat, b: nat, c: nat)
    requires a <= b <= c <= |s|
    ensures s[a..b] + s[b..c] == s[a..c]
  {
  }

  lemma NothingRead(f: File)
    requires Sane(f)
    ensures ReadOf(f, 0) == []
  {
  }

  /** The calls that read `lens` bytes at a time. */
  function Reads(fd: nat, lens: seq<nat>): seq<Op> {
    if lens == [] then [] else [Read(fd, lens[0])] + Reads(fd, lens[1..])
  }

  /** The bytes returned, one after the other. */
  function Texts(rs: seq<Result>): seq<byte> {
    if rs == [] then [] else (if rs[0].Text? then rs[0].bytes else []) + Texts(rs[1..])
  }

  /**
   * Chunked reading as a run: it is always allowed, returns the bytes of the one large read, and leaves the same
   * files.
   */
  lemma {:induction false} ReadSplit(g: Geometry, fs: seq<File>, fd: nat, lens: seq<nat>)
    requires g.B > 0 && InRange(fs, Read(fd, SumOf(lens)))
    ensures LegalRun(g, fs, Reads(fd, lens))
    ensures Outcome(g, fs, Reads(fd, lens)).0 == Step(g.B, fs, Read(fd, SumOf(lens))).0
    ensures Texts(Outcome(g, fs, Reads(fd, lens)).1) == Step(g.B, fs, Read(fd, SumOf(lens))).1.bytes
    decreases |lens|
  {
    hide ReadOf;
    if lens == [] {
      NothingRead(fs[fd]);
      RunNil(g, fs);
    } else {
      var rest := Reads(fd, lens[1..]);
      var next := Step(g.B, fs, Read(fd, lens[0])).0;
      assert Reads(fd, lens)[0] == Read(fd, lens[0]) && Reads(fd, lens)[1..] == rest;
      TwoReads(fs[fd], lens[0], SumOf(lens[1..]));
      ReadSplit(g, next, fd, lens[1..]);
      var rs := Outcome(g, fs, Reads(fd, lens)).1;
      assert rs[1..] == Outcome(g, next, rest).1;
    }
  }

  /** The first place of a name that no other file has. */
  lemma IndexIs(fs: seq<File>, k: nat)
    requires Distinct(fs) && k < |fs|
    ensures IndexOf(fs, fs[k].name) == k
  {
    var i := IndexOf(fs, fs[k].name);
  }

  /** A long name is refused, an open file stays as it is, and a new name gives an empty open file after the others. */
  lemma Opened(B: nat, fs: seq<File>, name: seq<byte>)
    requires B > 0 && InRange(fs, Open(name)) && Distinct(fs)
    ensures |name| > 20 ==> Step(B, fs, Open(name)) == (fs, Number(-1))
    ensures forall k | 0 <= k < |fs| && fs[k].name == name && fs[k].open && |name| <= 20 ::
              Step(B, fs, Open(name)) == (fs, Number(k))
    ensures |name| <= 20 && (forall k | 0 <= k < |fs| :: fs[k].name != name) ==>
              Step(B, fs, Open(name)) == (fs + [File(name, false, [], 0, 0, true, false)], Number(|fs|))
  {
    forall k | 0 <= k < |fs| && fs[k].name == name && fs[k].open && |name| <= 20
      ensures Step(B, fs, Open(name)) == (fs, Number(k))
    {
      IndexIs(fs, k);
      assert fs[k := fs[k]] == fs;
    }
  }

  /** A closed file reads as nothing and cannot be closed again, until it is opened; its contents stay. */
  lemma ClosedReads(B: nat, fs: seq<File>, fd: nat, n: nat)
    requires B > 0 && InRange(fs, Close(fd))
    ensures var one := Step(B, fs, Close(fd));
            && one.1 == Number(if fs[fd].open then 0 else -1) && |one.0| == |fs|
            && one.0[fd].data == fs[fd].data && one.0[fd].wpos == fs[fd].wpos
            && Step(B, one.0, Read(fd, n)).1 == Text([]) && Step(B, one.0, Close(fd)) == (one.0, Number(-1))
  {
    var one := Step(B, fs, Close(fd)).0;
    assert one[fd := one[fd].(open := false)] == one;
  }

  /** After a seek, reading and writing begin at the place asked for, or at the end of the file. */
  lemma SeekThen(B: nat, fs: seq<File>, fd: nat, loc: nat, n: nat, buf: seq<byte>)
    requires B > 0 && InRange(fs, Seek(fd, loc)) && fs[fd].open
    ensures var f, one := fs[fd], Step(B, fs, Seek(fd, loc));
            && one.1 == Number(0) && |one.0| == |fs|
            && (loc <= |f.data| ==>
                  && Step(B, one.0, Read(fd, n)).1 == Text(f.data[loc..Min(|f.data|, loc + n)])
                  && Step(B, one.0, Write(fd, buf)).0[fd].data[..loc + |buf|] == f.data[..loc] + buf)
            && (loc > |f.data| ==>
                  && Step(B, one.0, Read(fd, n)).1 == Text([])
                  && Step(B, one.0, Write(fd, buf)).0[fd].data == f.data + buf)
  {
    var f, p := fs[fd], Min(loc, |fs[fd].data|);
    var data := Overwrite(B, f.data, p, buf);
    assert data[..p + |buf|] == f.data[..p] + buf;
    assert p == |f.data| ==> f.data[..p] == f.data && data[..p + |buf|] == data;
  }

  /** Closed and opened again, a file is on the same descriptor and is read from its beginning. */
  lemma ReopenReads(B: nat, fs: seq<File>, fd: nat)
    requires B > 0 && InRange(fs, Close(fd)) && Distinct(fs) && |fs[fd].name| <= MAX_FILE_NAME
    ensures var one := Step(B, fs, Close(fd)).0;
            var two := Step(B, one, Open(fs[fd].name));
            && two.1 == Number(fd) && |two.0| == |fs|
            && Step(B, two.0, Read(fd, |fs[fd].data|)).1 == Text(fs[fd].data)
  {
    var one := Step(B, fs, Close(fd)).0;
    IndexIs(one, fd);
    assert fs[fd].data[0..|fs[fd].data|] == fs[fd].data;
  }

  /** Written straight after that, it grows by what is written. */
  lemma ReopenAppends(B: nat, fs: seq<File>, fd: nat, buf: seq<byte>)
    requires B > 0 && InRange(fs, Close(fd)) && Distinct(fs) && |fs[fd].name| <= MAX_FILE_NAME
    ensures var one := Step(B, fs, Close(fd)).0;
            var two := Step(B, one, Open(fs[fd].name)).0;
            var three := Step(B, two, Write(fd, buf));
            three.1 == Number(|buf|) && |three.0| == |fs| && three.0[fd].data == fs[fd].data + buf
  {
    hide Overwrite, InPlace;
    var one := Step(B, fs, Close(fd)).0;
    IndexIs(one, fd);
    OverwriteToEnd(B, fs[fd].data, |fs[fd].data|, buf);
    assert fs[fd].data[..|fs[fd].data|] == fs[fd].data;
  }

  /**
   * A write stores the inodes of all files, unless it stays in one direct block and does not grow its file; it changes
   * nothing else about the others, and of its own file the data and the write position.
   */
  lemma WriteLeaves(B: nat, fs: seq<File>, fd: nat, buf: seq<byte>)
    requires B > 0 && InRange(fs, Write(fd, buf))
    ensures var f, end, r := fs[fd], fs[fd].wpos + |buf|, Step(B, fs, Write(fd, buf)).0;
            && |r| == |fs|
            && (forall k | 0 <= k < |fs| && k != fd :: r[k] == fs[k].(stored := r[k].stored))
            && r[fd] == f.(written := true, data := r[fd].data, wpos := end, stored := r[fd].stored)
            && (|f.data| <= end ==> r[fd].data == f.data[..f.wpos] + buf)
            && (forall k | 0 <= k < |fs| :: r[k].stored <==>
                  fs[k].stored || !f.written || end > |f.data| || f.wpos / B != end / B || end / B >= 12)
  {
    hide Overwrite;
    if |fs[fd].data| <= fs[fd].wpos + |buf| {
      OverwriteToEnd(B, fs[fd].data, fs[fd].wpos, buf);
    }
  }

  /** What was written is what is read back from where it was written. */
  lemma ReadBack(B: nat, fs: seq<File>, fd: nat, buf: seq<byte>)
    requires B > 0 && InRange(fs, Write(fd, buf)) && fs[fd].open
    ensures var one := Step(B, fs, Write(fd, buf)).0;
            var two := Step(B, one, Seek(fd, fs[fd].wpos)).0;
            Step(B, two, Read(fd, |buf|)).1 == Text(buf)
  {
    var f := fs[fd];
    var data := Overwrite(B, f.data, f.wpos, buf);
    assert data[f.wpos..f.wpos + |buf|] == buf;
  }
}
