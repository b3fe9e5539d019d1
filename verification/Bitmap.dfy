/** The free-block bitmap: a set bit means a free block, and blocks are handed out first fit. */
module FreeMap {
  import opened Codec

  function Mask(bit: nat): bv8
    requires bit < 8
  {
    (1 as bv8) << bit
  }

  predicate IsFree(bits: seq<byte>, x: nat) {
    x / 8 < |bits| && bits[x / 8] & Mask(x % 8) != 0
  }

  /** The indices the bitmap calls free. */
  function FreeSet(bits: seq<byte>): set<nat> {
    set x: nat | 0 <= x < 8 * |bits| && IsFree(bits, x)
  }

  /** The bitmap with index `x` marked used. */
  function UseBit(bits: seq<byte>, x: nat): (r: seq<byte>)
    requires x / 8 < |bits|
    ensures |r| == |bits|
  {
    bits[x / 8 := bits[x / 8] & !Mask(x % 8)]
  }

  /** The bitmap with index `x` marked free. */
  function FreeBit(bits: seq<byte>, x: nat): (r: seq<byte>)
    requires x / 8 < |bits|
    ensures |r| == |bits|
  {
    bits[x / 8 := bits[x / 8] | Mask(x % 8)]
  }

  lemma ClearOne(d: byte, b: nat, c: nat)
    requires b < 8 && c < 8
    ensures ((d & !Mask(b)) & Mask(c) != 0) == (d & Mask(c) != 0 && b != c)
  {
  }

  lemma SetOne(d: byte, b: nat, c: nat)
    requires b < 8 && c < 8
    ensures ((d | Mask(b)) & Mask(c) != 0) == (d & Mask(c) != 0 || b == c)
  {
  }

  /** Using an index removes it, and nothing else, from the free set. */
  lemma UseRemoves(bits: seq<byte>, x: nat)
    requires x / 8 < |bits|
    ensures FreeSet(UseBit(bits, x)) == FreeSet(bits) - {x}
  {
    forall y: nat | y / 8 < |bits|
      ensures IsFree(UseBit(bits, x), y) == (IsFree(bits, y) && y != x)
    {
      ClearOne(bits[x / 8], x % 8, y % 8);
    }
  }

  /** Freeing an index adds it, and nothing else, to the free set. */
  lemma FreeAdds(bits: seq<byte>, x: nat)
    requires x / 8 < |bits|
    ensures FreeSet(FreeBit(bits, x)) == FreeSet(bits) + {x}
  {
    forall y: nat | y / 8 < |bits|
      ensures IsFree(FreeBit(bits, x), y) == (IsFree(bits, y) || y == x)
    {
      SetOne(bits[x / 8], x % 8, y % 8);
    }
  }

  /** Position of the lowest set bit, counted from 1. */
  function Ffs(d: byte): (r: nat)
    requires d != 0
    ensures 1 <= r <= 8 && d & Mask(r - 1) != 0
    ensures forall c | 0 <= c < r - 1 :: d & Mask(c) == 0
  {
    if d & 1 != 0 then 1
    else if d & 2 != 0 then 2
    else if d & 4 != 0 then 3
    else if d & 8 != 0 then 4
    else if d & 16 != 0 then 5
    else if d & 32 != 0 then 6
    else if d & 64 != 0 then 7
    else 8
  }

  class Bitmap {
    const bits: array<byte>

    ghost function Free(): set<nat>
      reads bits
    {
      FreeSet(bits[..])
    }

    /** Every index starts free. */
    constructor (size: nat)
      ensures fresh(bits) && bits.Length == size
      ensures forall x: nat :: x in FreeSet(bits[..]) <==> x < 8 * size
    {
      bits := new byte[size];
      new;
      for i := 0 to size
        invariant forall k | 0 <= k < i :: bits[k] == 0xff
      {
        bits[i] := 0xff;
      }
      forall x: nat | x < 8 * size ensures IsFree(bits[..], x) {
        AllOnes(x % 8);
      }
    }

    /** Marks one index used. */
    method ForceSetIndex(index: nat)
      requires index / 8 < bits.Length
      modifies bits
      ensures bits[..] == UseBit(old(bits[..]), index)
      ensures Free() == old(Free()) - {index}
    {
      UseRemoves(bits[..], index);
      var i := index / 8;
      var bit := index % 8;
      bits[i] := bits[i] & !Mask(bit);
    }

    /** First fit: the least free index, taken out of the free set. */
    method GetIndex() returns (index: nat)
      requires Free() != {}
      modifies bits
      ensures index in old(Free()) && forall x | x in old(Free()) :: index <= x
      ensures bits[..] == UseBit(old(bits[..]), index)
      ensures Free() == old(Free()) - {index}
    {
      hide FreeSet, IsFree, Mask;
      var i := 0;
      ghost var was := bits[..];
      ghost var last := NonZeroByte(was);
      while bits[i] == 0
        invariant i <= last < |was| && bits[..] == was
        invariant forall k | 0 <= k < i :: was[k] == 0
        decreases last - i
      {
        i := i + 1;
      }
      var bit := Ffs(bits[i]) - 1;
      index := i * 8 + bit;
      LeastFree(was, i, bit);
      UseRemoves(was, index);
      bits[i] := bits[i] & !Mask(bit);
    }

    /** Several indices in a row: the least ones, in increasing order. */
    method GetMany(n: nat) returns (got: seq<nat>)
      requires n <= |Free()|
      modifies bits
      ensures |got| == n && (forall k | 0 <= k < n :: got[k] in old(Free()))
      ensures forall j, k | 0 <= j < k < n :: got[j] < got[k]
      ensures forall x :: x in Free() <==> x in old(Free()) && x !in got
      ensures forall k, x | 0 <= k < n && x in Free() :: got[k] < x
    {
      hide FreeSet, UseBit;
      got := [];
      ghost var was := Free();
      for i := 0 to n
        invariant |got| == i && (forall k | 0 <= k < i :: got[k] in was)
        invariant forall j, k | 0 <= j < k < i :: got[j] < got[k]
        invariant forall x :: x in Free() <==> x in was && x !in got
        invariant forall k, x | 0 <= k < i && x in Free() :: got[k] < x
        invariant |Free()| == |was| - i
      {
        var index := GetIndex();
        got := got + [index];
      }
    }

    /** Gives one index back. */
    method RmIndex(index: nat)
      requires index / 8 < bits.Length
      modifies bits
      ensures bits[..] == FreeBit(old(bits[..]), index)
      ensures Free() == old(Free()) + {index}
    {
      FreeAdds(bits[..], index);
      var i := index / 8;
      var bit := index % 8;
      bits[i] := bits[i] | Mask(bit);
    }
  }

  /** Taken from a map where all of `a` and above is free, they are consecutive. */
  lemma {:induction false} Consecutive(got: seq<nat>, a: nat, limit: nat, k: nat)
    requires forall i, j | 0 <= i < j < |got| :: got[i] < got[j]
    requires forall x: nat | a <= x < limit && x !in got :: forall i | 0 <= i < |got| :: got[i] < x
    requires forall i | 0 <= i < |got| :: a <= got[i] < limit
    requires k < |got|
    ensures got[k] == a + k
  {
    if k > 0 {
      Consecutive(got, a, limit, k - 1);
    }
    var least := got[k];
    assert least >= a + k;
    assert a + k in got || least < a + k;
  }

  lemma AllOnes(b: nat)
    requires b < 8
    ensures (0xff as byte) & Mask(b) != 0
  {
  }

  lemma NoBits(b: nat)
    requires b < 8
    ensures (0 as byte) & Mask(b) == 0
  {
  }

  lemma NonZeroByte(bits: seq<byte>) returns (k: nat)
    requires FreeSet(bits) != {}
    ensures k < |bits| && bits[k] != 0
  {
    var x :| x in FreeSet(bits);
    NoBits(x % 8);
    k := x / 8;
  }

  /** The lowest bit of the first non-zero byte is the least free index. */
  lemma LeastFree(bits: seq<byte>, i: nat, bit: nat)
    requires i < |bits| && bits[i] != 0 && bit == Ffs(bits[i]) - 1
    requires forall k | 0 <= k < i :: bits[k] == 0
    ensures (i * 8 + bit) / 8 == i && (i * 8 + bit) % 8 == bit
    ensures i * 8 + bit in FreeSet(bits)
    ensures forall x | x in FreeSet(bits) :: i * 8 + bit <= x
  {
    assert (i * 8 + bit) / 8 == i && (i * 8 + bit) % 8 == bit;
    forall x | x in FreeSet(bits) ensures i * 8 + bit <= x {
      if x / 8 < i {
        NoBits(x % 8);
      }
    }
  }
}
