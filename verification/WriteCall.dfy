/** One call of write: what it is asked to do, when the code can do it, and what it leaves behind. */
module WriteCall {
  import opened Arith
  import opened Codec
  import opened DiskEmu
  import opened FreeMap
  import opened FlatFile
  import opened Layout
  import opened Metadata
  import opened Transfer
  import opened State
  import opened FlatFs

  /** A later write that begins in a direct block and ends in an indirect one. */
  ghost predicate Crosses(g: Geo, n: Inode, w: nat, len: nat)
    requires |n.direct| == DIRECT
  {
    Written(n) && BlockOf(g.B, w) < DIRECT <= BlockOf(g.B, w + len)
  }

  /**
   * The writes that keep the volume consistent: a crossing write must be the first to need a pointer block,
   * and must go beyond the first indirect block.
   */
  ghost predicate Sound(g: Geo, n: Inode, w: nat, len: nat)
    requires |n.direct| == DIRECT
  {
    Crosses(g, n, w, len) ==> n.indirect == 0 && BlockOf(g.B, w + len) > DIRECT
  }

  /** A crossing write starts from an empty table even when the file has one: it forgets the indirect blocks. */
  ghost predicate Reuses(g: Geo, n: Inode, w: nat, len: nat)
    requires |n.direct| == DIRECT
  {
    Crosses(g, n, w, len) && n.indirect != 0
  }

  /**
   * Two writes outside the domain on the disk the source fixes: one byte that takes a file of 12287 bytes to
   * exactly twelve full blocks, and a crossing into blocks the file already has behind its pointer block.
   */
  lemma SoundFails()
    ensures var g := Geometry(1024, 256, 512, 128, 1, 1);
            var d := [4, 5, 6, 7, 8, 9, 10, 11, 12, 13, 14, 15];
            && g.Sized()
            && !Sound(g, Inode(true, 12287, d, 0), 12287, 1)
            && !Sound(g, Inode(true, 20480, d, 16), 12000, 4096)
            && Sound(g, Inode(true, 12287, d, 0), 12287, 1025)
  {
    SourceSized();
  }

  lemma SourceSized()
    ensures Geometry(1024, 256, 512, 128, 1, 1).Sized()
  {
    StartZero(1024);
    StartNext(1024, 0);
  }

  /** The blocks a file still knows when the table is started over. */
  ghost function Kept(e: Extent): Extent {
    if |e.data| <= DIRECT then e else e.(data := e.data[..DIRECT])
  }

  /** The blocks it then forgets. */
  ghost function Dropped(e: Extent): set<nat> {
    if |e.data| <= DIRECT then {} else set b | b in e.data[DIRECT..]
  }

  /** The write of `buf` at byte `w` of file `i`. */
  ghost function JobFor(g: Geo, v: Volume, i: nat, w: nat, buf: seq<byte>): (job: Job)
    requires Shape(g, v) && i < NUM_INODES
    ensures job.v0 == v && job.i == i && job.w == w && job.buf == buf
    ensures job.first == BlockOf(g.B, w) && job.last == BlockOf(g.B, w + |buf|)
  {
    var own, f, l := Owners(g, v), BlockOf(g.B, w), BlockOf(g.B, w + |buf|);
    if Reuses(g, v.table[i], w, |buf|)
    then Job(v, own[i := Kept(own[i])], Dropped(own[i]), i, w, buf, f, l)
    else Job(v, own, {}, i, w, buf, f, l)
  }

  /** How many blocks the write takes. */
  ghost function Needs(g: Geo, v: Volume, i: nat, w: nat, buf: seq<byte>): nat
    requires Shape(g, v) && i < NUM_INODES
  {
    var job := JobFor(g, v, i, w, buf);
    job.FinalTotal() - Total(job.Was())
  }

  /** The file does not outgrow its pointers, and there are free blocks for what the write takes. */
  ghost predicate Room(g: Geo, v: Volume, i: nat, w: nat, buf: seq<byte>)
    requires Shape(g, v) && i < NUM_INODES
  {
    BlockOf(g.B, w + |buf|) < DIRECT + g.P && Needs(g, v, i, w, buf) <= Avail(g, FreeSet(v.bits))
  }

  /** Dropping the blocks past the direct ones loses them. */
  lemma DropKeepsAlloc(g: Geo, own: seq<Extent>, free: set<nat>, i: nat)
    requires AllocOK(g, own, free, {}) && i < NUM_INODES
    ensures AllocOK(g, own[i := Kept(own[i])], free, Dropped(own[i]))
  {
    hide BlockStart, Beyond;
    var now, e, k := own[i := Kept(own[i])], own[i], Kept(own[i]);
    assert ExtentOK(g, e);
    forall b ensures InExtent(e, b) <==> InExtent(k, b) || b in Dropped(e)
      ensures b in Dropped(e) ==> !InExtent(k, b)
    {
      KeptSplit(e, b);
    }
    forall b ensures Owned(own, b) <==> Owned(now, b) || b in Dropped(e)
      ensures b in Dropped(e) ==> !Owned(now, b)
    {
      OwnedSplit(own, now, i, b);
    }
    forall x, y, b | 0 <= x < |now| && 0 <= y < |now| && InExtent(now[x], b) && InExtent(now[y], b) ensures x == y {
      assert InExtent(own[x], b) && InExtent(own[y], b);
    }
    assert ExtentOK(g, k);
  }

  lemma OwnedSplit(own: seq<Extent>, now: seq<Extent>, i: nat, b: nat)
    requires Disjoint(own) && i < |own| && now == own[i := Kept(own[i])]
    requires InExtent(own[i], b) <==> InExtent(now[i], b) || b in Dropped(own[i])
    requires b in Dropped(own[i]) ==> !InExtent(now[i], b)
    ensures Owned(own, b) <==> Owned(now, b) || b in Dropped(own[i])
    ensures b in Dropped(own[i]) ==> !Owned(now, b)
  {
    if b in Dropped(own[i]) {
      assert InExtent(own[i], b);
    }
    if Owned(now, b) {
      var x :| 0 <= x < |now| && InExtent(now[x], b);
      assert InExtent(own[x], b);
    }
    if Owned(own, b) {
      var x :| 0 <= x < |own| && InExtent(own[x], b);
      assert x != i ==> InExtent(now[x], b);
    }
  }

  lemma KeptSplit(e: Extent, b: nat)
    requires forall j, k | 0 <= j < k < |e.data| :: e.data[j] != e.data[k]
    requires e.table != 0 ==> e.table !in e.data
    ensures InExtent(e, b) <==> InExtent(Kept(e), b) || b in Dropped(e)
    ensures b in Dropped(e) ==> !InExtent(Kept(e), b)
  {
    if |e.data| > DIRECT {
      assert e.data == e.data[..DIRECT] + e.data[DIRECT..];
      if b in Dropped(e) {
        var k :| 0 <= k < |e.data[DIRECT..]| && e.data[DIRECT..][k] == b;
        assert e.data[DIRECT + k] == b;
      }
    }
  }

  /** A file of a consistent volume, as its extent describes it. */
  lemma FileKnown(g: Geo, v: Volume, i: nat)
    requires WellFormed(g, v) && 1 <= i < NUM_INODES
    ensures var n, e := v.table[i], Owners(g, v)[i];
            && ExtentOK(g, e) && DirectOK(n, e) && n.indirect == e.table
            && TableOK(g, Pointers(g, v.blocks, e.table), e)
            && (e.table != 0 <==> |e.data| > DIRECT)
            && |e.data| <= DIRECT + g.P
            && (Written(n) <==> e.data != [])
            && (if e.data == [] then n.size == 0 else Beyond(g.B, |e.data|, n.size))
            && |e.data| == Count(g, n)
  {
    hide BlockStart, Beyond;
    var n, e := v.table[i], Owners(g, v)[i];
    assert e == ExtentOf(g, v.blocks, n);
    InodeRead(g, v.blocks, n);
    if e.data != [] {
      BeyondIs(g.B, |e.data|, n.size);
    }
  }

  /** Any write into a consistent volume with room can be carried out as a job. */
  lemma JobReady(g: Geo, v: Volume, i: nat, w: nat, buf: seq<byte>)
    requires WellFormed(g, v) && 1 <= i < NUM_INODES && w <= v.table[i].size && Room(g, v, i, w, buf)
    ensures var job := JobFor(g, v, i, w, buf);
            && JobOK(g, job) && Bystanders(g, job) && job.own0[0] == Extent([], 0)
            && (if Reuses(g, v.table[i], w, |buf|) then Forgets(g, job)
                else job.lost == {} && JobFile(g, job) && job.Was() == Owners(g, v)[i])
  {
    hide BlockStart, Beyond, FreeSet, FreeZero, Avail, ExtentOf, Pointers, TableOK;
    var n, e, job := v.table[i], Owners(g, v)[i], JobFor(g, v, i, w, buf);
    FileKnown(g, v, i);
    SpanOf(g.B, w, |buf|);
    DivMonotone(w, n.size, g.B);
    if Reuses(g, n, w, |buf|) {
      DropKeepsAlloc(g, Owners(g, v), FreeSet(v.bits), i);
      assert DirectOK(n, Kept(e));
      assert JobOK(g, job);
      assert ExtentOK(g, e);
      assert e.data[DIRECT..][0] == e.data[DIRECT];
      assert e.data[DIRECT] in job.lost;
    }
  }

  // ----- what a finished call leaves behind -----

  lemma SettledJob(g: Geo, job: Job, v: Volume, own: seq<Extent>, v': Volume)
    requires Settled(g, job, v, own, v')
    ensures JobOK(g, job) && Shape(g, job.v0) && 1 <= job.i < NUM_INODES
  {
  }

  /** Any other file, whether the write was sound or not. */
  lemma OthersKept(g: Geo, c: Call, v: Volume, own: seq<Extent>, m: Mem, k: nat)
    requires Left(g, c, v, own, m) && Bystanders(g, c.job) && |m.root| == |m.fdt| == NUM_INODES
    requires k + 1 < NUM_INODES && k + 1 != c.job.i && k != c.fd
    ensures Shape(g, m.vol) && m.vol.table[k + 1] == c.m0.vol.table[k + 1]
    ensures Shape(g, c.m0.vol) && FileAt(g, m, k) == FileAt(g, c.m0, k).(stored := Recorded(g, m, k))
    ensures Seen(g, m.vol, k + 1) == FileAt(g, c.m0, k).data
  {
    hide Progress, Settled, JobOK, Bystanders, BlockStart, Beyond, Content, Seen, FreeSet, ExtentOf, InodeOK, Recorded;
    SettledJob(g, c.job, v, own, m.vol);
    BystanderKept(g, c.job, v, own, m.vol, k + 1);
    SeenIs(g, m.vol, k + 1);
  }

  /** The old bytes of a file are in its old blocks. */
  lemma OldContent(g: Geo, job: Job)
    requires WellFormed(g, job.v0) && 1 <= job.i < NUM_INODES && |job.own0| == NUM_INODES
    requires job.Was() == Owners(g, job.v0)[job.i]
    ensures var old_ := Content(g, job.v0, job.i);
            forall q: nat | q < |old_| :: OldByte(g, job, old_, q)
  {
    hide BlockStart, Beyond;
    var old_ := Content(g, job.v0, job.i);
    FileKnown(g, job.v0, job.i);
    forall q: nat | q < |old_| ensures OldByte(g, job, old_, q) {
      DivMonotone(q, |old_|, g.B);
    }
  }

  /** The file written reads as the overwritten flat file. */
  lemma ContentDone(g: Geo, job: Job, v: Volume, own: seq<Extent>, v': Volume)
    requires WellFormed(g, job.v0) && JobOK(g, job) && JobFile(g, job) && job.Was() == Owners(g, job.v0)[job.i]
    requires Closed(g, job, v, own, v') && Shape(g, v')
    ensures Content(g, v', job.i) == Overwrite(g.B, Content(g, job.v0, job.i), job.w, job.buf)
    ensures Written(v'.table[job.i]) && v'.table[job.i].used == job.v0.table[job.i].used
  {
    hide BlockStart, Beyond, Avail, FreeSet, TableOK, Pointers, FreeZero, ExtentOf, ByteAt, Target;
    var old_, e := Content(g, job.v0, job.i), own[job.i];
    WriterKept(g, job, v, own, v');
    OldContent(g, job);
    ContentStored(g, job, v.blocks, e, old_);
    assert ExtentOK(g, e);
    BytesFrame(g.B, v.blocks, v'.blocks, e.data, NewSize(job));
    assert e.data[0] != 0;
  }

  /** Once the inode table has been written, every inode is on disk. */
  lemma AllRecorded(g: Geo, m: Mem, k: nat)
    requires Shape(g, m.vol) && TableWritten(g, m.vol) && k + 1 < NUM_INODES
    ensures Recorded(g, m, k)
  {
    hide BlockStart, TableFrom, TableBytes;
    RegionSizes(g);
    TableReload(m.vol.table, BlockStart(g.B, g.T));
  }

  lemma SameRecorded(g: Geo, m0: Mem, m: Mem, k: nat)
    requires Shape(g, m0.vol) && Shape(g, m.vol) && TableUntouched(g, m0.vol, m.vol) && k + 1 < NUM_INODES
    ensures Recorded(g, m, k) <==> Recorded(g, m0, k)
  {
    hide BlockStart, Beyond, TableFrom;
  }

  /** The quiet writes are the ones in place. */
  lemma QuietIs(g: Geo, m: Mem, k: nat, buf: seq<byte>)
    requires WellFormed(g, m.vol) && k + 1 < NUM_INODES == |m.root| == |m.fdt|
    requires !Reuses(g, m.vol.table[k + 1], m.fdt[k].wptr, |buf|)
    ensures Quiet(JobFor(g, m.vol, k + 1, m.fdt[k].wptr, buf)) <==> InPlace(g.B, FileAt(g, m, k), |buf|)
  {
    hide BlockStart, Beyond, BlockOf, AllocOK, FreeZero, InodeOK, TableOK, Pointers, DirectOK, ExtentOK, Recorded;
    FileKnown(g, m.vol, k + 1);
  }

  /** What a finished write has done about the inodes on disk. */
  lemma RecordedAfter(g: Geo, c: Call, m: Mem, k: nat)
    requires TableStored(g, c, m) && Shape(g, c.m0.vol) && k + 1 < NUM_INODES
    ensures Recorded(g, m, k) <==> Recorded(g, c.m0, k) || !Quiet(c.job)
  {
    hide BlockStart, Beyond, TableWritten, TableUntouched, Recorded;
    if Quiet(c.job) {
      SameRecorded(g, c.m0, m, k);
    } else {
      AllRecorded(g, m, k);
    }
  }

  /** Memory and disk are in step after a finished write. */
  lemma StepDone(g: Geo, sb: Block, c: Call, v: Volume, own: seq<Extent>, m: Mem)
    requires InStep(g, sb, c.m0) && Ended(g, c, v, own, m)
    ensures InStep(g, sb, m)
  {
    hide Closed, BlockStart, Beyond, FreeSet, Fit, RootOnDisk, TableOnDisk, TableFits, RootFits;
    InStepKept(g, sb, c.m0, m);
  }

  /** The inode of the file written, and all the others, after a write. */
  lemma InodesDone(g: Geo, c: Call, v: Volume, own: seq<Extent>, m: Mem)
    requires Settled(g, c.job, v, own, m.vol) && c.job.v0 == c.m0.vol
    ensures Shape(g, m.vol) && Shape(g, c.m0.vol) && 1 <= c.job.i < NUM_INODES
    ensures forall x | 0 <= x < NUM_INODES && x != c.job.i :: m.vol.table[x] == c.m0.vol.table[x]
    ensures m.vol.table[c.job.i].used == c.m0.vol.table[c.job.i].used
    ensures m.vol.table[c.job.i].size == Max(c.m0.vol.table[c.job.i].size, c.job.w + |c.job.buf|)
  {
    hide AllocOK, Grown, Stored, DirectOK, Avail, FreeSet, BlockStart, Beyond, Spans;
  }

  lemma DirDone(g: Geo, c: Call, v: Volume, own: seq<Extent>, m: Mem, files: nat)
    requires DirOK(c.m0, files) && Left(g, c, v, own, m) && c.fd < files && c.job.i == c.fd + 1
    ensures DirOK(m, files) && m.vol.table[0] == c.m0.vol.table[0]
  {
    hide Settled, BlockStart, Beyond, ShortName;
    InodesDone(g, c, v, own, m);
  }

  /** The call is a write on descriptor `k` of a consistent system. */
  ghost predicate Calls(g: Geo, sb: Block, c: Call, files: nat) {
    && Good(g, sb, c.m0, files) && c.fd < files && c.job.i == c.fd + 1
    && c.job == JobFor(g, c.m0.vol, c.fd + 1, c.m0.fdt[c.fd].wptr, c.job.buf)
    && Room(g, c.m0.vol, c.fd + 1, c.m0.fdt[c.fd].wptr, c.job.buf)
  }

  /** A sound write keeps everything consistent, and its file becomes what the flat file would. */
  lemma WriteDone(g: Geo, sb: Block, c: Call, files: nat, m: Mem)
    requires Calls(g, sb, c, files) && m in Finished(g, c)
    requires Sound(g, c.m0.vol.table[c.job.i], c.job.w, |c.job.buf|)
    ensures Good(g, sb, m, files) && Shape(g, m.vol) && |m.root| == |m.fdt| == NUM_INODES
    ensures Shape(g, c.m0.vol) && |c.m0.root| == |c.m0.fdt| == NUM_INODES
    ensures FileAt(g, c.m0, c.fd).wpos <= |FileAt(g, c.m0, c.fd).data|
    ensures FilesOf(g, m, files) == Rewritten(g.B, FilesOf(g, c.m0, files), c.fd, c.job.buf)
  {
    hide WellFormedBut, InStep, DirOK, Closed, Settled, JobOK, JobFile, Bystanders, Forgets, Room, Progress,
         BlockStart, Beyond, FreeSet, Content, Overwrite, MapsStored, Fixed, Owners, Quiet, Recorded, InPlace,
         TableStored, ShortName, BlockOf, RootInodeOK;
    var v, own :| Ended(g, c, v, own, m);
    GoodKnown(g, sb, c.m0, files, c.fd);
    JobReady(g, c.m0.vol, c.job.i, c.job.w, c.job.buf);
    EndedLeft(g, c, v, own, m);
    FirstUnowned(g, c, v, own, m);
    Finish(g, c.job, v, own, m.vol);
    StepDone(g, sb, c, v, own, m);
    DirDone(g, c, v, own, m, files);
    ContentDone(g, c.job, v, own, m.vol);
    QuietIs(g, c.m0, c.fd, c.job.buf);
    EndedTable(g, c, v, own, m);
    var fs, table := FilesOf(g, c.m0, files), !InPlace(g.B, FileAt(g, c.m0, c.fd), |c.job.buf|);
    forall k | 0 <= k < files && k != c.fd
      ensures Shape(g, m.vol) && FileAt(g, m, k) == Marked(FileAt(g, c.m0, k), table)
    {
      OthersKept(g, c, v, own, m, k);
      RecordedAfter(g, c, m, k);
    }
    RecordedAfter(g, c, m, c.fd);
    assert FileAt(g, m, c.fd) == Marked(Wrote(g.B, FileAt(g, c.m0, c.fd), c.job.buf), table);
    assert fs[c.fd] == FileAt(g, c.m0, c.fd);
  }

  lemma EndedTable(g: Geo, c: Call, v: Volume, own: seq<Extent>, m: Mem)
    requires Ended(g, c, v, own, m)
    ensures TableStored(g, c, m)
  {
  }

  /** A consistent system has its shape. */
  lemma GoodShape(g: Geo, sb: Block, m: Mem, files: nat)
    requires Good(g, sb, m, files)
    ensures WellFormed(g, m.vol) && Shape(g, m.vol)
    ensures files < NUM_INODES && |m.root| == |m.fdt| == |m.vol.table| == NUM_INODES
  {
  }

  /** A file of a consistent system has its entry, inode and descriptor. */
  lemma GoodKnown(g: Geo, sb: Block, m: Mem, files: nat, k: nat)
    requires Good(g, sb, m, files) && k < files
    ensures WellFormed(g, m.vol) && Shape(g, m.vol)
    ensures files < NUM_INODES && |m.root| == |m.fdt| == |m.vol.table| == NUM_INODES
    ensures FileOK(m.root[k], m.vol.table[k + 1], m.fdt[k], k)
  {
  }

  /** A consistent file can be read, and a read sees what it contains. */
  lemma GoodReadable(g: Geo, sb: Block, m: Mem, files: nat, k: nat)
    requires Good(g, sb, m, files) && k < files
    ensures Readable(g, m, k) && |m.root| == NUM_INODES && Seen(g, m.vol, k + 1) == FileAt(g, m, k).data
  {
    hide BlockStart, Beyond, BlockOf, Content, Seen, AllocOK, FreeZero, InodeOK, ExtentOf, TableOK, Pointers, DirectOK,
         InStep, ShortName, Owners, FreeSet;
    GoodKnown(g, sb, m, files, k);
    SeenIs(g, m.vol, k + 1);
    FileKnown(g, m.vol, k + 1);
    BlocksKnown(g, m.vol, k + 1);
    BlockZero(g.B);
  }

  /** The size of a file that has been written says how many blocks it has. */
  lemma BlocksKnown(g: Geo, v: Volume, i: nat)
    requires WellFormed(g, v) && 1 <= i < NUM_INODES
    ensures Written(v.table[i]) ==> |Owners(g, v)[i].data| == BlockOf(g.B, v.table[i].size) + 1
    ensures !Written(v.table[i]) ==> v.table[i].size == 0
    ensures Owners(g, v)[i].table < g.N
  {
    hide BlockStart, Beyond;
    FileKnown(g, v, i);
  }

  lemma EndedLeft(g: Geo, c: Call, v: Volume, own: seq<Extent>, m: Mem)
    requires Ended(g, c, v, own, m)
    ensures Left(g, c, v, own, m) && Closed(g, c.job, v, own, m.vol) && JobOK(g, c.job)
  {
  }

  lemma FirstUnowned(g: Geo, c: Call, v: Volume, own: seq<Extent>, m: Mem)
    requires Left(g, c, v, own, m) && |c.job.own0| == NUM_INODES && c.job.own0[0] == Extent([], 0)
    ensures |own| == NUM_INODES && own[0] == Extent([], 0)
  {
  }

  // ----- the call the code makes -----

  /** Which branch the job takes, and what that branch may rely on. */
  ghost predicate Shaped(g: Geo, n: Inode, job: Job)
    requires |n.direct| == DIRECT && JobOK(g, job)
  {
    && (!Written(n) ==> job.Was() == Extent([], 0) && job.w == 0)
    && (Written(n) ==> job.first < |job.Was().data|)
    && (!Crosses(g, n, job.w, |job.buf|) ==> JobFile(g, job))
    && (Crosses(g, n, job.w, |job.buf|) ==> |job.Was().data| <= DIRECT)
    && (Crosses(g, n, job.w, |job.buf|) && Sound(g, n, job.w, |job.buf|) ==> JobFile(g, job) && job.last > DIRECT)
    && (Crosses(g, n, job.w, |job.buf|) && !Sound(g, n, job.w, |job.buf|) ==>
          Forgets(g, job) || (job.last == DIRECT && job.Was().table == 0))
  }

  /** Every call that can be carried out has the shape its branch relies on. */
  lemma JobShape(g: Geo, v: Volume, i: nat, w: nat, buf: seq<byte>)
    requires WellFormed(g, v) && 1 <= i < NUM_INODES && w <= v.table[i].size && Room(g, v, i, w, buf)
    ensures JobOK(g, JobFor(g, v, i, w, buf)) && Shaped(g, v.table[i], JobFor(g, v, i, w, buf))
  {
    hide BlockStart, Beyond, FreeSet, FreeZero, Avail, ExtentOf, Pointers, TableOK, AllocOK, Spans, Forgets, Bystanders;
    var n, e, job := v.table[i], Owners(g, v)[i], JobFor(g, v, i, w, buf);
    FileKnown(g, v, i);
    JobReady(g, v, i, w, buf);
    DivMonotone(w, n.size, g.B);
  }

  /** The code's block numbers are those of the job. */
  lemma CallReady(g: Geo, sb: Block, c: Call, files: nat, currentblk: nat, endblk: nat, offset: nat)
    requires Calls(g, sb, c, files)
    requires currentblk == BlockOf(g.B, c.job.w) + 1 && endblk == BlockOf(g.B, c.job.w + |c.job.buf|) + 1
    requires offset == OffsetIn(g.B, c.job.w)
    ensures Called(g, c, c.m0, c.fd, c.job.i, c.job.buf, currentblk, endblk, offset)
  {
    hide WellFormed, BlockStart, Beyond, Room, Ongoing, JobOK, JobFile, Forgets, Bystanders, Owners, BlockOf, OffsetIn,
         ShortName, Fit, RootOnDisk, TableOnDisk;
    GoodKnown(g, sb, c.m0, files, c.fd);
    SpanOf(g.B, c.job.w, |c.job.buf|);
    JobReady(g, c.m0.vol, c.job.i, c.job.w, c.job.buf);
    Begin(g, c);
  }

  /** The call of write on descriptor `k`. */
  ghost function CallOf(g: Geo, m: Mem, k: nat, buf: seq<byte>): Call
    requires Shape(g, m.vol) && k + 1 < NUM_INODES && |m.fdt| == NUM_INODES
  {
    Call(JobFor(g, m.vol, k + 1, m.fdt[k].wptr, buf), m, k)
  }

  lemma CallBegins(g: Geo, sb: Block, m: Mem, files: nat, k: nat, buf: seq<byte>, w: nat, offset: nat)
    requires Good(g, sb, m, files) && k < files && Room(g, m.vol, k + 1, m.fdt[k].wptr, buf)
    requires w == m.fdt[k].wptr && offset == OffsetIn(g.B, w)
    ensures var c := CallOf(g, m, k, buf);
            && c.m0 == m && c.fd == k && c.job.w == w && c.job.buf == buf && c.job.i == k + 1
            && Calls(g, sb, c, files) && JobOK(g, c.job) && Shaped(g, m.vol.table[k + 1], c.job)
            && Called(g, c, m, k, k + 1, buf, BlockOf(g.B, w) + 1, BlockOf(g.B, w + |buf|) + 1, offset)
  {
    hide WellFormed, Called, Shaped, Room, BlockStart, Beyond, Ongoing, JobOK, JobFor, FreeSet, BlockOf, OffsetIn,
         InStep, DirOK;
    GoodKnown(g, sb, m, files, k);
    JobShape(g, m.vol, k + 1, w, buf);
    CallReady(g, sb, CallOf(g, m, k, buf), files, BlockOf(g.B, w) + 1, BlockOf(g.B, w + |buf|) + 1, offset);
  }

  // ----- what a write outside the domain leaves behind -----

  /** Without a pointer block to go to, the table goes over block 0. */
  ghost predicate LosesSuper(g: Geo, n: Inode, w: nat, len: nat)
    requires |n.direct| == DIRECT
  {
    Crosses(g, n, w, len) && n.indirect == 0 && BlockOf(g.B, w + len) == DIRECT
  }

  lemma {:induction false} WordAt(ws: seq<nat>, k: nat)
    requires Fits(ws) && k < |ws|
    ensures Encode(ws)[4 * k..4 * k + 4] == WordBytes(ws[k])
  {
    var rest := Encode(ws[1..]);
    if k > 0 {
      WordAt(ws[1..], k - 1);
      assert Encode(ws)[4 * k..4 * k + 4] == rest[4 * (k - 1)..4 * (k - 1) + 4];
    }
  }

  lemma Narrow(B: nat, R: nat)
    requires Beyond(B, R, 240) && R <= DIRECT
    ensures B > 20
  {
    StartMonotone(B, R, DIRECT);
    StartMul(B, DIRECT);
  }

  /** A block holds more than five pointers, and its size fits a word. */
  lemma BlockSize(g: Geo)
    ensures 20 < g.B < WORD_LIMIT && g.P > 5
  {
    Narrow(g.B, g.R);
    MulMonotone(1, DIRECT + g.P, g.B);
  }

  lemma SuperWord(g: Geo)
    ensures g.B >= 12 && SuperBytes(g)[8..12] == WordBytes(g.B % WORD_LIMIT)
  {
    hide Encode, WordBytes, BlockStart, Beyond;
    BlockSize(g);
    WordAt(SuperWords(g), 2);
    var all := Encode(SuperWords(g));
    assert Fit(all, g.B)[8..12] == all[8..12];
  }

  lemma SmallWord(x: nat)
    requires x < WORD_LIMIT
    ensures x % WORD_LIMIT == x
  {
  }

  /** A table with no third pointer is not the superblock. */
  lemma NotSuper(g: Geo, t: seq<nat>)
    requires |t| == g.P && Fits(t)
    ensures g.P > 2 && (t[2] == 0 ==> Encode(t) != SuperBytes(g))
  {
    hide SuperBytes, BlockStart, Beyond, WordBytes, WordOf, Encode;
    BlockSize(g);
    SuperWord(g);
    WordAt(t, 2);
    var word, size := Encode(t)[8..12], SuperBytes(g)[8..12];
    SmallWord(g.B);
    WordRoundTrip(g.B);
    WordRoundTrip(t[2]);
    assert t[2] == 0 ==> word != size;
  }

  /** The pointers a read then finds: the file's own blocks up to the end of the write, and after that zeros. */
  lemma SpoiltPointer(g: Geo, job: Job, v: Volume, own: seq<Extent>, v': Volume, t: seq<nat>, k: nat)
    requires Settled(g, job, v, own, v') && Shape(g, v')
    requires |t| == g.P && TableOK(g, t, own[job.i]) && job.last >= DIRECT >= |job.Was().data|
    requires TableAt(g, v'.blocks, own[job.i].table) == t && k < DIRECT + g.P
    ensures |own[job.i].data| == job.last + 1
    ensures SeenPointers(g, v'.blocks, v'.table[job.i])[k] == if k <= job.last then own[job.i].data[k] else 0
  {
    hide BlockStart, Beyond, Stored, AllocOK, FreeSet, Avail, FreeZero, Target, TableAt;
    var n, e := v'.table[job.i], own[job.i];
    if k >= DIRECT {
      assert t[k - DIRECT] == if DIRECT + (k - DIRECT) < |e.data| then e.data[DIRECT + (k - DIRECT)] else 0;
    }
  }

  lemma OwnExtent(g: Geo, job: Job, v: Volume, own: seq<Extent>)
    requires JobOK(g, job) && Progress(g, job, v, own, job.last + 1)
    ensures ExtentOK(g, own[job.i]) && |own[job.i].data| > job.last && own[job.i].data[0] >= g.Meta()
    ensures ExtentOK(g, job.Was())
  {
  }

  lemma KeptHead(e: Extent, k: nat)
    requires k < DIRECT && k < |e.data|
    ensures k < |Kept(e).data| && Kept(e).data[k] == e.data[k]
  {
  }

  /** Where the file's old bytes before the write come from. */
  lemma OldHead(g: Geo, v: Volume, i: nat, w: nat, buf: seq<byte>, p: nat)
    requires WellFormed(g, v) && 1 <= i < NUM_INODES && w <= v.table[i].size
    requires Crosses(g, v.table[i], w, |buf|) && p < w
    ensures OldByte(g, JobFor(g, v, i, w, buf), Content(g, v, i), p)
  {
    hide BlockStart, Beyond, AllocOK, InodeOK, FreeZero, TableOK, Pointers, ExtentOK, DirectOK, ByteAt, Kept, Owners,
         ExtentOf;
    var e, k, job := Owners(g, v)[i], BlockOf(g.B, p), JobFor(g, v, i, w, buf);
    FileKnown(g, v, i);
    OwnersAre(g, v, i);
    BlockOrder(g.B, p, w);
    BlockOrder(g.B, p, v.table[i].size);
    KeptHead(e, k);
    assert k < |job.Was().data| && job.Was().data[k] == e.data[k];
    SameByteAt(g.B, v.blocks, v.blocks, job.Was().data, e.data, p);
    ContentAt(g, v, i, p);
  }

  lemma OwnersAre(g: Geo, v: Volume, i: nat)
    requires Shape(g, v) && 1 <= i < NUM_INODES
    ensures Owners(g, v)[i] == ExtentOf(g, v.blocks, v.table[i])
  {
  }

  lemma ContentAt(g: Geo, v: Volume, i: nat, p: nat)
    requires Shape(g, v) && i < NUM_INODES && p < v.table[i].size
    ensures Content(g, v, i)[p] == ByteAt(g.B, v.blocks, ExtentOf(g, v.blocks, v.table[i]).data, p)
    ensures Seen(g, v, i)[p] == ByteAt(g.B, v.blocks, SeenPointers(g, v.blocks, v.table[i]), p)
  {
  }

  /** A byte in a block that is still found is the one the flat file would have. */
  lemma FoundByte(g: Geo, job: Job, v: Volume, own: seq<Extent>, v': Volume, old_: seq<byte>, p: nat)
    requires Settled(g, job, v, own, v') && job.first < DIRECT <= job.last
    requires job.w <= |old_| && p < Max(|old_|, job.w + |job.buf|)
    requires BlockOf(g.B, p) < |own[job.i].data| && BlockOf(g.B, p) <= job.last
    requires p < job.w ==> OldByte(g, job, old_, p)
    ensures ByteAt(g.B, v'.blocks, own[job.i].data, p) == Overwrite(g.B, old_, job.w, job.buf)[p]
  {
    hide BlockStart, Beyond, FreeSet, Avail, FreeZero, Target, ByteAt, Overwrite, ClearedTo, OldByte, Disjoint, Owned;
    var e, k := own[job.i], BlockOf(g.B, p);
    OwnExtent(g, job, v, own);
    Cleared(g.B, job.w, |job.buf|, job.first, job.last);
    StartDiv(g.B, p, k);
    StartMonotone(g.B, k, job.last);
    FileByte(g, job, v.blocks, e, old_, p, k, OffsetIn(g.B, p));
    assert e.data[k] != e.table;
    SameByteAt(g.B, v'.blocks, v.blocks, e.data, e.data, p);
  }

  /** A byte in a block that is no longer found is read from block 0. */
  lemma LostByte(B: nat, blocks: seq<Block>, d: seq<nat>, p: nat)
    requires B > 0 && BlockOf(B, p) < |d| && d[BlockOf(B, p)] == 0 && |blocks| > 0 && |blocks[0]| == B
    ensures ByteAt(B, blocks, d, p) == blocks[0][OffsetIn(B, p)]
  {
  }

  /** What is known at the end of a write outside the domain. */
  lemma SpoiltKnown(g: Geo, sb: Block, c: Call, files: nat, v: Volume, own: seq<Extent>, m: Mem)
    requires Calls(g, sb, c, files) && Left(g, c, v, own, m)
    requires Shape(g, m.vol) && !Sound(g, c.m0.vol.table[c.job.i], c.job.w, |c.job.buf|)
    ensures WellFormed(g, c.m0.vol) && c.job.v0 == c.m0.vol && Settled(g, c.job, v, own, m.vol) && JobOK(g, c.job)
    ensures c.job.first < DIRECT <= c.job.last < DIRECT + g.P && |c.job.Was().data| <= DIRECT
    ensures c.job.w <= c.m0.vol.table[c.job.i].size && BlockOf(g.B, NewSize(c.job)) < DIRECT + g.P
    ensures own[c.job.i].table == 0 <==> c.m0.vol.table[c.job.i].indirect == 0
    ensures own[c.job.i].table == 0 ==> BlockOf(g.B, NewSize(c.job)) <= c.job.last
    ensures own[c.job.i].table < g.N && (own[c.job.i].table != 0 <==> c.job.Was().table != 0 || c.job.TakesTable())
    ensures |own[c.job.i].data| == c.job.last + 1
  {
    hide WellFormed, InStep, DirOK, BlockStart, Beyond, BlockOf, FreeSet, Content, TableOK, Pointers, ExtentOf, Owners,
         Stored, AllocOK, Avail, FreeZero, DirectOK, Forgets, Bystanders, Spans, FirstFit, RootInodeOK, ShortName;
    var job, n := c.job, c.m0.vol.table[c.job.i];
    GoodKnown(g, sb, c.m0, files, c.fd);
    JobShape(g, c.m0.vol, job.i, job.w, job.buf);
    FileKnown(g, c.m0.vol, job.i);
    BlocksKnown(g, c.m0.vol, job.i);
    BlockOrder(g.B, Min(n.size, job.w + |job.buf|), Max(n.size, job.w + |job.buf|));
    OwnExtent(g, job, v, own);
  }

  /** A byte of the file after such a write. */
  lemma SpoiltByte(g: Geo, sb: Block, c: Call, files: nat, v: Volume, own: seq<Extent>, t: seq<nat>, m: Mem, p: nat)
    requires Calls(g, sb, c, files) && Left(g, c, v, own, m) && Strewn(g, c, own, t, m)
    requires !Sound(g, c.m0.vol.table[c.job.i], c.job.w, |c.job.buf|)
    requires p < NewSize(c.job) && |sb| == g.B && c.m0.vol.blocks[0] == sb
    ensures c.job.w <= |Content(g, c.m0.vol, c.job.i)|
    ensures var rest := Forgotten(g.B, Content(g, c.m0.vol, c.job.i), c.job.w, c.job.buf, sb);
            |Seen(g, m.vol, c.job.i)| == |rest| == NewSize(c.job) && Seen(g, m.vol, c.job.i)[p] == rest[p]
  {
    hide WellFormed, InStep, DirOK, BlockStart, Beyond, BlockOf, FreeSet, Content, Seen, Overwrite, ByteAt, Settled,
         JobOK, TableOK, TableAt, ExtentOf, SeenPointers, TableWritten, Owners, OldByte, OffsetIn, AllocOK, Room, Calls;
    var job, k := c.job, BlockOf(g.B, p);
    CallKnown(g, sb, c, files);
    SpoiltKnown(g, sb, c, files, v, own, m);
    InodesDone(g, c, v, own, m);
    BlockOrder(g.B, p, NewSize(job));
    SpoiltPointer(g, job, v, own, m.vol, t, k);
    ContentAt(g, m.vol, job.i, p);
    var d, e := SeenPointers(g, m.vol.blocks, m.vol.table[job.i]), own[job.i];
    if k <= job.last {
      if p < job.w {
        OldHead(g, c.m0.vol, job.i, job.w, job.buf, p);
      }
      FoundByte(g, job, v, own, m.vol, Content(g, c.m0.vol, job.i), p);
      SameByteAt(g.B, m.vol.blocks, m.vol.blocks, d, e.data, p);
    } else {
      LostByte(g.B, m.vol.blocks, d, p);
    }
  }

  lemma CallKnown(g: Geo, sb: Block, c: Call, files: nat)
    requires Calls(g, sb, c, files)
    ensures Shape(g, c.m0.vol) && 1 <= c.job.i < NUM_INODES && c.fd + 1 == c.job.i
    ensures c.job == JobFor(g, c.m0.vol, c.job.i, c.job.w, c.job.buf)
    ensures c.job.last == BlockOf(g.B, c.job.w + |c.job.buf|) && c.job.first == BlockOf(g.B, c.job.w)
  {
    hide BlockOf, BlockStart, Beyond, Room, JobFor, Good;
    GoodKnown(g, sb, c.m0, files, c.fd);
  }

  /** The file written, and the superblock, after a write outside the domain. */
  lemma SpoiltFile(g: Geo, sb: Block, c: Call, files: nat, m: Mem)
    requires Calls(g, sb, c, files) && m in Spoilt(g, c) && Shape(g, m.vol)
    requires !Sound(g, c.m0.vol.table[c.job.i], c.job.w, |c.job.buf|)
    ensures c.job.w <= |Content(g, c.m0.vol, c.job.i)| && |sb| == g.B
    ensures Seen(g, m.vol, c.job.i) == Forgotten(g.B, Content(g, c.m0.vol, c.job.i), c.job.w, c.job.buf, sb)
    ensures SuperMeets(g, sb, c.m0.vol.table[c.job.i], c.job.w, |c.job.buf|, m)
    ensures Readable(g, m, c.fd)
  {
    hide WellFormed, InStep, DirOK, BlockStart, Beyond, BlockOf, FreeSet, Content, Seen, Forgotten, Settled, JobOK,
         TableAt, TableWritten, Owners, OffsetIn, Room, JobFor, SuperBytes, Encode;
    var v, own, t :| Left(g, c, v, own, m) && Strewn(g, c, own, t, m);
    GoodKnown(g, sb, c.m0, files, c.fd);
    SuperNow(g, sb, c.m0, files);
    CallKnown(g, sb, c, files);
    SpoiltKnown(g, sb, c, files, v, own, m);
    NotSuper(g, t);
    InodesDone(g, c, v, own, m);
    SpoiltInode(g, c, v, own, m);
    var rest := Forgotten(g.B, Content(g, c.m0.vol, c.job.i), c.job.w, c.job.buf, sb);
    forall p | 0 <= p < NewSize(c.job) ensures Seen(g, m.vol, c.job.i)[p] == rest[p] {
      SpoiltByte(g, sb, c, files, v, own, t, m, p);
    }
  }

  lemma SpoiltInode(g: Geo, c: Call, v: Volume, own: seq<Extent>, m: Mem)
    requires Left(g, c, v, own, m)
    ensures |m.vol.table| == NUM_INODES == |own| && c.job.i < NUM_INODES
    ensures m.vol.table[c.job.i].indirect == own[c.job.i].table
  {
  }

  lemma SuperNow(g: Geo, sb: Block, m: Mem, files: nat)
    requires Good(g, sb, m, files)
    ensures m.vol.blocks != [] && m.vol.blocks[0] == sb && |sb| == g.B
  {
  }

  /** The superblock survives unless a table without a pointer block has gone over it. */
  ghost predicate SuperMeets(g: Geo, sb: Block, n: Inode, w: nat, len: nat, m: Mem)
    requires |n.direct| == DIRECT && m.vol.blocks != []
  {
    && (!LosesSuper(g, n, w, len) ==> m.vol.blocks[0] == sb)
    && (LosesSuper(g, n, w, len) && sb == SuperBytes(g) ==> m.vol.blocks[0] != sb)
  }

  /** A finished write has taken the blocks it asked for, the least free ones. */
  lemma BlocksTaken(g: Geo, sb: Block, c: Call, files: nat, v: Volume, own: seq<Extent>, m: Mem)
    requires Calls(g, sb, c, files) && Left(g, c, v, own, m)
    requires own[c.job.i].table != 0 <==> c.job.Was().table != 0 || c.job.TakesTable()
    ensures Shape(g, c.m0.vol) && c.job.i < NUM_INODES
    ensures Avail(g, FreeSet(m.vol.bits)) + Needs(g, c.m0.vol, c.job.i, c.job.w, c.job.buf)
         == Avail(g, FreeSet(c.m0.vol.bits))
    ensures FirstFit(c.job.Was(), own[c.job.i], FreeSet(c.m0.vol.bits), FreeSet(m.vol.bits))
  {
    hide WellFormed, InStep, DirOK, BlockStart, Beyond, FreeSet, Avail, Stored, AllocOK, FreeZero, DirectOK, Spans,
         JobFor, Room, TableOK, FirstFit;
    CallKnown(g, sb, c, files);
  }

  /**
   * What is the same for every write: the position moves; the blocks asked for are taken, the least free ones; bitmap
   * and directory are on disk as they are in memory; all files can still be read, and the other files are what they
   * were, except that their inodes are on disk once the inode table has been stored.
   */
  ghost predicate Passes(g: Geo, m0: Mem, files: nat, k: nat, buf: seq<byte>, m: Mem)
    requires Shape(g, m0.vol) && |m0.root| == |m0.fdt| == NUM_INODES && k < files < NUM_INODES
  {
    var w, table := m0.fdt[k].wptr, !InPlace(g.B, FileAt(g, m0, k), |buf|);
    && Shape(g, m.vol) && m.root == m0.root && m.fdt == m0.fdt[k := m0.fdt[k].(wptr := w + |buf|)]
    && Avail(g, FreeSet(m.vol.bits)) + Needs(g, m0.vol, k + 1, w, buf) == Avail(g, FreeSet(m0.vol.bits))
    && m.vol.blocks[g.T + 1] == Fit(m.vol.bits, g.B) && RootOnDisk(g, m.vol.blocks) == m.root
    && FreeSet(m.vol.bits) <= FreeSet(m0.vol.bits)
    && (forall x, y | x in FreeSet(m0.vol.bits) && x !in FreeSet(m.vol.bits) && y in FreeSet(m.vol.bits) :: x < y)
    && (forall x | 0 <= x < files :: Readable(g, m, x))
    && (forall x | 0 <= x < files && x != k :: FileAt(g, m, x) == Marked(FileAt(g, m0, x), table))
    && (forall x | 0 <= x < files && x != k :: Seen(g, m.vol, x + 1) == FileAt(g, m0, x).data)
  }

  /**
   * A write outside the domain leaves the other files alone, but neither a consistent volume nor, when the table had
   * no pointer block to go to, a superblock.
   */
  lemma SpoiltDone(g: Geo, sb: Block, c: Call, files: nat, m: Mem)
    requires Calls(g, sb, c, files) && m in Spoilt(g, c)
    requires !Sound(g, c.m0.vol.table[c.job.i], c.job.w, |c.job.buf|)
    ensures !WellFormed(g, m.vol) && Shape(g, m.vol)
    ensures c.job.w <= |Content(g, c.m0.vol, c.job.i)| && |sb| == g.B
    ensures Seen(g, m.vol, c.job.i) == Forgotten(g.B, Content(g, c.m0.vol, c.job.i), c.job.w, c.job.buf, sb)
    ensures SuperMeets(g, sb, c.m0.vol.table[c.job.i], c.job.w, |c.job.buf|, m) && Recorded(g, m, c.fd)
    ensures |c.m0.root| == |c.m0.fdt| == NUM_INODES && Passes(g, c.m0, files, c.fd, c.job.buf, m)
  {
    hide WellFormedBut, Settled, JobOK, JobFile, Bystanders, Forgets, Room, Progress, Readable, SuperMeets, Needs,
         BlockStart, Beyond, FreeSet, Content, Seen, Fixed, Owners, Recorded, TableWritten, TableOK, TableAt,
         Forgotten, BlockOf, Avail, Good, Closed, Marked, JobFor, FirstFit, Fit, RootOnDisk, MapsOK, RootKept;
    var v, own, t :| Left(g, c, v, own, m) && Strewn(g, c, own, t, m);
    GoodKnown(g, sb, c.m0, files, c.fd);
    JobReady(g, c.m0.vol, c.job.i, c.job.w, c.job.buf);
    InodesDone(g, c, v, own, m);
    SpoiltKnown(g, sb, c, files, v, own, m);
    SpoiltFile(g, sb, c, files, m);
    SpoiltMaps(g, sb, c, files, own, t, m);
    BlocksTaken(g, sb, c, files, v, own, m);
    LeastTaken(g, c, v, own, m);
    AllRecorded(g, m, c.fd);
    forall k | 0 <= k < files && k != c.fd
      ensures Shape(g, m.vol) && FileAt(g, m, k) == Marked(FileAt(g, c.m0, k), true) && Readable(g, m, k)
      ensures Seen(g, m.vol, k + 1) == FileAt(g, c.m0, k).data
    {
      OtherPasses(g, sb, c, files, v, own, m, k);
    }
  }

  lemma LeastTaken(g: Geo, c: Call, v: Volume, own: seq<Extent>, m: Mem)
    requires Left(g, c, v, own, m)
    ensures FreeSet(m.vol.bits) <= FreeSet(c.m0.vol.bits)
    ensures forall x, y | x in FreeSet(c.m0.vol.bits) && x !in FreeSet(m.vol.bits) && y in FreeSet(m.vol.bits) :: x < y
  {
    hide BlockStart, Beyond, FreeSet, Avail, Stored, AllocOK, FreeZero, DirectOK, Spans;
  }

  /** In a consistent system the bitmap and the directory are on disk. */
  lemma MapsNow(g: Geo, sb: Block, m: Mem, files: nat)
    requires Good(g, sb, m, files)
    ensures Shape(g, m.vol) && m.vol.blocks[g.T + 1] == Fit(m.vol.bits, g.B) && RootOnDisk(g, m.vol.blocks) == m.root
  {
  }

  /** So they are after a write outside the domain. */
  lemma SpoiltMaps(g: Geo, sb: Block, c: Call, files: nat, own: seq<Extent>, t: seq<nat>, m: Mem)
    requires Good(g, sb, c.m0, files) && Strewn(g, c, own, t, m)
    ensures Shape(g, m.vol) && TableWritten(g, m.vol) && m.vol.blocks[g.T + 1] == Fit(m.vol.bits, g.B)
    ensures RootOnDisk(g, m.vol.blocks) == c.m0.root
  {
    hide BlockStart, Beyond, Fit, TableBytes, RootFrom, WellFormed, DirOK, TableAt, TableOK, Encode;
    MapsNow(g, sb, c.m0, files);
    ReadFrame(c.m0.vol.blocks, m.vol.blocks, g.T + 2, g.R);
  }

  lemma OtherPasses(g: Geo, sb: Block, c: Call, files: nat, v: Volume, own: seq<Extent>, m: Mem, k: nat)
    requires Good(g, sb, c.m0, files) && Left(g, c, v, own, m) && Bystanders(g, c.job)
    requires c.fd < files && k < files && k != c.fd && c.job.i == c.fd + 1
    requires Shape(g, m.vol) && TableWritten(g, m.vol) && |m.root| == |m.fdt| == NUM_INODES
    ensures Shape(g, c.m0.vol) && |c.m0.root| == |c.m0.fdt| == NUM_INODES
    ensures FileAt(g, m, k) == Marked(FileAt(g, c.m0, k), true) && Readable(g, m, k)
    ensures Seen(g, m.vol, k + 1) == FileAt(g, c.m0, k).data
  {
    hide WellFormedBut, Settled, JobOK, Bystanders, Readable, InStep, DirOK, ShortName, BlockStart, Beyond, FreeSet,
         Content, Seen, Owners, Recorded, TableWritten;
    GoodKnown(g, sb, c.m0, files, k);
    OthersKept(g, c, v, own, m, k);
    AllRecorded(g, m, k);
    GoodReadable(g, sb, c.m0, files, k);
    StillReadable(g, c.m0, m, k);
  }

  lemma StillReadable(g: Geo, m0: Mem, m: Mem, k: nat)
    requires Readable(g, m0, k) && Shape(g, m.vol) && |m.fdt| == NUM_INODES
    requires m.vol.table[k + 1] == m0.vol.table[k + 1] && m.fdt[k] == m0.fdt[k]
    ensures Readable(g, m, k)
  {
  }

  /**
   * What a write of `buf` through descriptor `k` does to a consistent system: inside its domain the file becomes
   * what the flat file would and everything stays consistent; outside it the volume is left inconsistent, and the file
   * reads with the blocks after the write replaced by the superblock.
   */
  ghost predicate WriteMeets(g: Geo, sb: Block, m0: Mem, files: nat, k: nat, buf: seq<byte>, m: Mem)
    requires Good(g, sb, m0, files) && k < files
  {
    var f, n, w := FileAt(g, m0, k), m0.vol.table[k + 1], m0.fdt[k].wptr;
    && Passes(g, m0, files, k, buf, m)
    && (WellFormed(g, m.vol) <==> Sound(g, n, w, |buf|))
    && (Good(g, sb, m, files) <==> Sound(g, n, w, |buf|))
    && SuperMeets(g, sb, n, w, |buf|, m)
    && (Good(g, sb, m, files) ==>
          && FileAt(g, m, k) == Marked(Wrote(g.B, f, buf), !InPlace(g.B, f, |buf|))
          && FirstFit(Owners(g, m0.vol)[k + 1], Owners(g, m.vol)[k + 1], FreeSet(m0.vol.bits), FreeSet(m.vol.bits)))
    && (!Good(g, sb, m, files) ==>
          Recorded(g, m, k) && Seen(g, m.vol, k + 1) == Forgotten(g.B, f.data, w, buf, sb))
  }

  /**
   * The file written reads as the flat file exactly when the write is inside its domain, or what it had in the blocks
   * after the write was the same as the superblock. When the superblock is lost, the file is not.
   */
  lemma SurvivesIff(g: Geo, sb: Block, m0: Mem, files: nat, k: nat, buf: seq<byte>, m: Mem)
    requires Good(g, sb, m0, files) && k < files && WriteMeets(g, sb, m0, files, k, buf, m)
    ensures var f, n := FileAt(g, m0, k), m0.vol.table[k + 1];
            && f.wpos <= |f.data| && |sb| == g.B
            && (Seen(g, m.vol, k + 1) == Overwrite(g.B, f.data, f.wpos, buf)
                <==> Sound(g, n, f.wpos, |buf|)
                     || forall p | 0 <= p < |f.data| && BlockOf(g.B, p) > BlockOf(g.B, f.wpos + |buf|) ::
                          f.data[p] == sb[OffsetIn(g.B, p)])
            && (LosesSuper(g, n, f.wpos, |buf|) ==>
                  Seen(g, m.vol, k + 1) == Overwrite(g.B, f.data, f.wpos, buf))
  {
    hide WellFormedBut, InStep, DirOK, Passes, Sound, LosesSuper, SuperMeets, BlockStart, Beyond, BlockOf, OffsetIn,
         Content, Seen, Overwrite, Forgotten, InPlace, Recorded;
    GoodKnown(g, sb, m0, files, k);
    SuperNow(g, sb, m0, files);
    var f := FileAt(g, m0, k);
    if Good(g, sb, m, files) {
      GoodReadable(g, sb, m, files, k);
    } else {
      ForgottenIff(g.B, f.data, f.wpos, buf, sb);
    }
    if LosesSuper(g, m0.vol.table[k + 1], f.wpos, |buf|) {
      LostIs(g, m0.vol, k + 1, f.wpos, |buf|);
    }
  }

  /** A file without a pointer block ends before the first indirect block. */
  lemma LostIs(g: Geo, v: Volume, i: nat, w: nat, len: nat)
    requires WellFormed(g, v) && 1 <= i < NUM_INODES && LosesSuper(g, v.table[i], w, len)
    ensures !Sound(g, v.table[i], w, len)
    ensures forall p | 0 <= p < v.table[i].size :: BlockOf(g.B, p) <= BlockOf(g.B, w + len)
  {
    hide BlockStart, Beyond, BlockOf, AllocOK, FreeZero, InodeOK, TableOK, Pointers, DirectOK, ExtentOK, Owners;
    FileKnown(g, v, i);
    BlocksKnown(g, v, i);
    forall p | 0 <= p < v.table[i].size ensures BlockOf(g.B, p) <= BlockOf(g.B, w + len) {
      BlockOrder(g.B, p, v.table[i].size);
    }
  }

  /** Where the branches of a call end. */
  ghost predicate Ends(g: Geo, c: Call, n: Inode, m: Mem)
    requires |n.direct| == DIRECT
  {
    if Sound(g, n, c.job.w, |c.job.buf|) then m in Finished(g, c) else m in Spoilt(g, c)
  }

  /** A call ends as its domain decides. */
  lemma CallMeets(g: Geo, sb: Block, c: Call, files: nat, m: Mem)
    requires Calls(g, sb, c, files)
    requires Ends(g, c, c.m0.vol.table[c.job.i], m)
    ensures WriteMeets(g, sb, c.m0, files, c.fd, c.job.buf, m)
  {
    hide WellFormedBut, InStep, DirOK, Finished, Spoilt, Room, BlockStart, Beyond, BlockOf, Content, JobFor, Wrote,
         Passes, Forgotten, Seen, SuperBytes, FirstFit, Owners, Recorded, Marked, InPlace, RootInodeOK;
    GoodKnown(g, sb, c.m0, files, c.fd);
    if Sound(g, c.m0.vol.table[c.job.i], c.job.w, |c.job.buf|) {
      WriteDone(g, sb, c, files, m);
      GoodKnown(g, sb, m, files, c.fd);
      SuperNow(g, sb, m, files);
      SoundPasses(g, sb, c, files, m);
      SoundFits(g, sb, c, files, m);
      FilesEach(g, c.m0, files, m, c.fd, c.job.buf);
    } else {
      SpoiltDone(g, sb, c, files, m);
    }
  }

  /** A sound write gives its file the least free blocks, in order. */
  lemma SoundFits(g: Geo, sb: Block, c: Call, files: nat, m: Mem)
    requires Calls(g, sb, c, files) && m in Finished(g, c)
    requires Sound(g, c.m0.vol.table[c.job.i], c.job.w, |c.job.buf|)
    ensures Shape(g, c.m0.vol) && Shape(g, m.vol) && c.job.i < NUM_INODES
    ensures FirstFit(Owners(g, c.m0.vol)[c.job.i], Owners(g, m.vol)[c.job.i],
                     FreeSet(c.m0.vol.bits), FreeSet(m.vol.bits))
  {
    hide WellFormedBut, InStep, DirOK, Closed, Settled, JobOK, JobFile, Bystanders, Forgets, Room, Progress, FirstFit,
         BlockStart, Beyond, FreeSet, MapsStored, Fixed, Owners, ShortName, BlockOf, RootInodeOK, Needs;
    var v, own :| Ended(g, c, v, own, m);
    GoodKnown(g, sb, c.m0, files, c.fd);
    JobReady(g, c.m0.vol, c.job.i, c.job.w, c.job.buf);
    EndedLeft(g, c, v, own, m);
    FirstUnowned(g, c, v, own, m);
    Finish(g, c.job, v, own, m.vol);
    TableTaken(g, c.job, v, own, m.vol);
    BlocksTaken(g, sb, c, files, v, own, m);
  }

  lemma SoundPasses(g: Geo, sb: Block, c: Call, files: nat, m: Mem)
    requires Calls(g, sb, c, files) && m in Finished(g, c) && Good(g, sb, m, files)
    requires Shape(g, c.m0.vol) && |c.m0.root| == |c.m0.fdt| == NUM_INODES
    requires FileAt(g, c.m0, c.fd).wpos <= |FileAt(g, c.m0, c.fd).data|
    requires FilesOf(g, m, files) == Rewritten(g.B, FilesOf(g, c.m0, files), c.fd, c.job.buf)
    ensures Passes(g, c.m0, files, c.fd, c.job.buf, m)
  {
    hide WellFormedBut, InStep, DirOK, Finished, Room, BlockStart, Beyond, BlockOf, Content, JobFor, Wrote, Seen,
         Readable, Avail, Needs, FreeSet, InPlace, FileAt, Fit, RootOnDisk, RootInodeOK;
    GoodKnown(g, sb, m, files, c.fd);
    MapsNow(g, sb, m, files);
    SoundBooks(g, sb, c, files, m);
    FilesEach(g, c.m0, files, m, c.fd, c.job.buf);
    forall x | 0 <= x < files ensures Readable(g, m, x) && Seen(g, m.vol, x + 1) == FileAt(g, m, x).data {
      GoodReadable(g, sb, m, files, x);
    }
  }

  lemma SoundBooks(g: Geo, sb: Block, c: Call, files: nat, m: Mem)
    requires Calls(g, sb, c, files) && m in Finished(g, c)
    ensures Shape(g, c.m0.vol) && m.root == c.m0.root
    ensures m.fdt == c.m0.fdt[c.fd := c.m0.fdt[c.fd].(wptr := c.m0.fdt[c.fd].wptr + |c.job.buf|)]
    ensures var free0, free := FreeSet(c.m0.vol.bits), FreeSet(m.vol.bits);
            && Avail(g, free) + Needs(g, c.m0.vol, c.job.i, c.m0.fdt[c.fd].wptr, c.job.buf) == Avail(g, free0)
            && free <= free0 && forall x, y | x in free0 && x !in free && y in free :: x < y
  {
    hide WellFormed, InStep, DirOK, Settled, Room, BlockStart, Beyond, BlockOf, JobFor, Avail, Needs, FreeSet,
         MapsStored, Fixed, FirstFit;
    var v, own :| Ended(g, c, v, own, m);
    CallKnown(g, sb, c, files);
    EndedLeft(g, c, v, own, m);
    TableTaken(g, c.job, v, own, m.vol);
    BlocksTaken(g, sb, c, files, v, own, m);
    LeastTaken(g, c, v, own, m);
  }

  /** A pointer block has been taken exactly when the write was to take one. */
  lemma TableTaken(g: Geo, job: Job, v: Volume, own: seq<Extent>, v': Volume)
    requires Closed(g, job, v, own, v')
    ensures own[job.i].table != 0 <==> job.Was().table != 0 || job.TakesTable()
  {
  }

  lemma FilesEach(g: Geo, m0: Mem, files: nat, m: Mem, k: nat, buf: seq<byte>)
    requires Shape(g, m0.vol) && |m0.root| == |m0.fdt| == NUM_INODES && k < files < NUM_INODES
    requires Shape(g, m.vol) && |m.root| == |m.fdt| == NUM_INODES
    requires FileAt(g, m0, k).wpos <= |FileAt(g, m0, k).data|
    requires FilesOf(g, m, files) == Rewritten(g.B, FilesOf(g, m0, files), k, buf)
    ensures var table := !InPlace(g.B, FileAt(g, m0, k), |buf|);
            && (forall x | 0 <= x < files && x != k :: FileAt(g, m, x) == Marked(FileAt(g, m0, x), table))
            && FileAt(g, m, k) == Marked(Wrote(g.B, FileAt(g, m0, k), buf), table)
  {
    hide InPlace, Wrote, Marked, FileAt, BlockStart, Beyond;
    var fs, fs0 := FilesOf(g, m, files), FilesOf(g, m0, files);
    var table := !InPlace(g.B, FileAt(g, m0, k), |buf|);
    assert fs0[k] == FileAt(g, m0, k);
    forall x | 0 <= x < files && x != k ensures FileAt(g, m, x) == Marked(FileAt(g, m0, x), table) {
      assert fs[x] == FileAt(g, m, x) && fs0[x] == FileAt(g, m0, x);
    }
    assert fs[k] == FileAt(g, m, k);
  }
}
