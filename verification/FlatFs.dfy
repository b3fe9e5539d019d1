/** What the file system is to its user: named flat files, each with a read and a write position. */
module FlatFs {
  import opened Arith
  import opened Codec
  import opened FlatFile
  import opened Layout
  import opened State

  /** A file; `stored` says whether its inode has gone to disk as it is. */
  datatype File = File(name: seq<byte>, written: bool, data: seq<byte>, rpos: nat, wpos: nat, open: bool, stored: bool)

  /** Whether the inode of file `k` is on disk as it is in memory. */
  ghost predicate Recorded(g: Geo, m: Mem, k: nat)
    requires Shape(g, m.vol) && k + 1 < NUM_INODES
  {
    TableOnDisk(g, m.vol.blocks)[k + 1] == m.vol.table[k + 1]
  }

  /** File `k` of a state: inode `k + 1` through descriptor `k`. */
  ghost function FileAt(g: Geo, m: Mem, k: nat): File
    requires Shape(g, m.vol) && |m.root| == |m.fdt| == NUM_INODES && k + 1 < NUM_INODES
  {
    File(m.root[k].name, Written(m.vol.table[k + 1]), Content(g, m.vol, k + 1),
         m.fdt[k].rwptr, m.fdt[k].wptr, m.fdt[k].open, Recorded(g, m, k))
  }

  ghost function FilesOf(g: Geo, m: Mem, files: nat): (fs: seq<File>)
    requires Shape(g, m.vol) && |m.root| == |m.fdt| == NUM_INODES && files < NUM_INODES
    ensures |fs| == files
  {
    seq(files, k requires 0 <= k < files => FileAt(g, m, k))
  }

  /** The file after `buf` has been written at its write position. */
  function Wrote(B: nat, f: File, buf: seq<byte>): File
    requires B > 0 && f.wpos <= |f.data|
  {
    f.(written := true, data := Overwrite(B, f.data, f.wpos, buf), wpos := f.wpos + |buf|)
  }

  /** A write of `len` bytes that stays in one direct block of a written file and does not grow it. */
  predicate InPlace(B: nat, f: File, len: nat)
    requires B > 0
  {
    && f.written && f.wpos + len <= |f.data|
    && BlockOf(B, f.wpos) == BlockOf(B, f.wpos + len) < DIRECT
  }

  /** The file once the inode table has gone to disk, if it has. */
  function Marked(f: File, table: bool): File {
    f.(stored := f.stored || table)
  }

  /** All files after a write to file `k`: unless it is in place, the write stores the inode table for every file. */
  function Rewritten(B: nat, fs: seq<File>, k: nat, buf: seq<byte>): (r: seq<File>)
    requires B > 0 && k < |fs| && fs[k].wpos <= |fs[k].data|
    ensures |r| == |fs|
  {
    var table := !InPlace(B, fs[k], |buf|);
    seq(|fs|, x requires 0 <= x < |fs| => Marked(if x == k then Wrote(B, fs[k], buf) else fs[x], table))
  }

  /** An open file stays as it is; a closed one starts over, writing at its end. */
  function Reopened(f: File): File {
    if f.open then f else f.(rpos := 0, wpos := |f.data|, open := true)
  }
}
