/** What a file is to its user: a flat sequence of bytes. */
module FlatFile {
  import opened Arith
  import opened Codec

  /**
   * Where a write of `len` bytes at `w` stops changing the file: it clears the rest of its last block, unless it
   * began there.
   */
  function ClearedTo(B: nat, w: nat, len: nat): (c: nat)
    requires B > 0
    ensures w + len <= c
  {
    if w / B == (w + len) / B then w + len
    else (InBlock(w + len, B, (w + len) / B); ((w + len) / B + 1) * B)
  }

  /** `buf` put at `w`, then zeros up to `c` as far as the file goes. */
  function Patch(old_: seq<byte>, w: nat, buf: seq<byte>, c: nat): (r: seq<byte>)
    requires w <= |old_|
    ensures |r| == Max(|old_|, w + |buf|)
  {
    seq(Max(|old_|, w + |buf|), p requires 0 <= p < Max(|old_|, w + |buf|) =>
      if p < w then old_[p] else if p < w + |buf| then buf[p - w] else if p < c then 0 else old_[p])
  }

  /** The content after writing `buf` at `w`. */
  function Overwrite(B: nat, old_: seq<byte>, w: nat, buf: seq<byte>): (r: seq<byte>)
    requires B > 0 && w <= |old_|
    ensures |r| == Max(|old_|, w + |buf|)
  {
    Patch(old_, w, buf, ClearedTo(B, w, |buf|))
  }

  /** The same, when the blocks after the one the write ends in have been forgotten: they read as the block `other`. */
  function Forgotten(B: nat, old_: seq<byte>, w: nat, buf: seq<byte>, other: seq<byte>): (r: seq<byte>)
    requires 0 < B == |other| && w <= |old_|
    ensures |r| == Max(|old_|, w + |buf|)
  {
    var all := Overwrite(B, old_, w, buf);
    seq(|all|, p requires 0 <= p < |all| =>
      if BlockOf(B, p) <= BlockOf(B, w + |buf|) then all[p] else other[OffsetIn(B, p)])
  }

  /** Exactly when nothing has been lost by that: the bytes of the file in those blocks were the same as the other's. */
  lemma ForgottenIff(B: nat, old_: seq<byte>, w: nat, buf: seq<byte>, other: seq<byte>)
    requires 0 < B == |other| && w <= |old_|
    ensures Forgotten(B, old_, w, buf, other) == Overwrite(B, old_, w, buf)
       <==> forall p | 0 <= p < |old_| && BlockOf(B, p) > BlockOf(B, w + |buf|) :: old_[p] == other[OffsetIn(B, p)]
  {
    hide BlockOf, OffsetIn, Overwrite;
    var all, now := Overwrite(B, old_, w, buf), Forgotten(B, old_, w, buf, other);
    forall p | 0 <= p < |all| && BlockOf(B, p) > BlockOf(B, w + |buf|) ensures p < |old_| && all[p] == old_[p] {
      AfterWrite(B, old_, w, buf, p);
    }
    if now == all {
      forall p | 0 <= p < |old_| && BlockOf(B, p) > BlockOf(B, w + |buf|) ensures old_[p] == other[OffsetIn(B, p)] {
        assert now[p] == all[p];
      }
    }
  }

  /** Blocks after the one a write ends in keep their bytes. */
  lemma AfterWrite(B: nat, old_: seq<byte>, w: nat, buf: seq<byte>, p: nat)
    requires B > 0 && w <= |old_| && p < Max(|old_|, w + |buf|) && BlockOf(B, p) > BlockOf(B, w + |buf|)
    ensures p < |old_| && Overwrite(B, old_, w, buf)[p] == old_[p]
  {
    var end := w + |buf|;
    if p <= end {
      BlockOrder(B, p, end);
    }
    MulMonotone(end / B + 1, p / B, B);
    Split(p, B);
  }

  /** What a write is meant to do: replace exactly the bytes from `w` on. */
  function Splice(old_: seq<byte>, w: nat, buf: seq<byte>): (r: seq<byte>)
    requires w <= |old_|
    ensures |r| == Max(|old_|, w + |buf|)
  {
    old_[..w] + buf + if w + |buf| < |old_| then old_[w + |buf|..] else []
  }

  /** A write reaching the end of the file keeps what is before it and nothing else. */
  lemma OverwriteToEnd(B: nat, old_: seq<byte>, w: nat, buf: seq<byte>)
    requires B > 0 && w <= |old_| <= w + |buf|
    ensures Overwrite(B, old_, w, buf) == old_[..w] + buf
  {
  }

  /**
   * Exactly when a write is a splice: it stays in its block, or reaches the end of the file,
   * or the bytes it clears in its last block were zero already.
   */
  lemma SpliceIff(B: nat, old_: seq<byte>, w: nat, buf: seq<byte>)
    requires B > 0 && w <= |old_|
    ensures Overwrite(B, old_, w, buf) == Splice(old_, w, buf)
       <==> (|| w / B == (w + |buf|) / B
             || |old_| <= w + |buf|
             || forall p | w + |buf| <= p < |old_| && p / B == (w + |buf|) / B :: old_[p] == 0)
  {
    var end, last, c := w + |buf|, (w + |buf|) / B, ClearedTo(B, w, |buf|);
    PatchIff(old_, w, buf, c);
    if w / B != last {
      forall p | end <= p < |old_| ensures p < c <==> p / B == last {
        InBlock(p, B, last);
        InBlock(end, B, last);
      }
    }
  }

  lemma PatchIff(old_: seq<byte>, w: nat, buf: seq<byte>, c: nat)
    requires w <= |old_|
    ensures Patch(old_, w, buf, c) == Splice(old_, w, buf)
       <==> forall p | w + |buf| <= p < |old_| && p < c :: old_[p] == 0
  {
    var o, s := Patch(old_, w, buf, c), Splice(old_, w, buf);
    assert forall p | w + |buf| <= p < |old_| :: s[p] == old_[p];
    if o == s {
      forall p | w + |buf| <= p < |old_| && p < c ensures old_[p] == 0 {
        assert o[p] == s[p];
      }
    }
  }

  /** A write that is not a splice: one block and one byte over a file of two full blocks clears a byte after it. */
  lemma SpliceFails(old_: seq<byte>, buf: seq<byte>)
    requires |old_| == 2048 && |buf| == 1025 && old_[1025] != 0
    ensures Overwrite(1024, old_, 0, buf) != Splice(old_, 0, buf)
  {
    SpliceIff(1024, old_, 0, buf);
  }

  /** Writing in two chunks is writing once, for every split, although each chunk clears the end of its block. */
  lemma OverwriteChunks(B: nat, old_: seq<byte>, w: nat, a: seq<byte>, b: seq<byte>)
    requires B > 0 && w <= |old_|
    ensures Overwrite(B, Overwrite(B, old_, w, a), w + |a|, b) == Overwrite(B, old_, w, a + b)
  {
    var one := Overwrite(B, old_, w, a);
    var two := Overwrite(B, one, w + |a|, b);
    var all := Overwrite(B, old_, w, a + b);
    assert |a + b| == |a| + |b|;
    ClearedChunks(B, w, |a|, |b|);
    forall p | 0 <= p < |all| ensures two[p] == all[p] {
    }
  }

  lemma ClearedChunks(B: nat, w: nat, a: nat, b: nat)
    requires B > 0
    ensures Max(ClearedTo(B, w, a), ClearedTo(B, w + a, b)) == ClearedTo(B, w, a + b)
  {
    var x, y, z := w / B, (w + a) / B, (w + a + b) / B;
    DivMonotone(w, w + a, B);
    DivMonotone(w + a, w + a + b, B);
    MulMonotone(y + 1, z + 1, B);
    InBlock(w + a + b, B, z);
  }
}
