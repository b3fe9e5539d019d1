/** Conservation in numbers: every block of the disk is metadata, free, or one of some file's blocks. */
module Counting {
  import opened Arith
  import opened Layout

  ghost function Elements(s: seq<nat>): set<nat> {
    set b | b in s
  }

  ghost function BlocksOf(e: Extent): set<nat> {
    Elements(e.data) + if e.table != 0 then {e.table} else {}
  }

  ghost function BlocksUpTo(own: seq<Extent>, n: nat): set<nat>
    requires n <= |own|
  {
    if n == 0 then {} else BlocksUpTo(own, n - 1) + BlocksOf(own[n - 1])
  }

  function Sum(own: seq<Extent>, n: nat): nat
    requires n <= |own|
  {
    if n == 0 then 0 else Sum(own, n - 1) + Total(own[n - 1])
  }

  ghost function Below(n: nat): (s: set<nat>)
    ensures |s| == n && forall b: nat :: b in s <==> b < n
  {
    if n == 0 then {} else Below(n - 1) + {n - 1}
  }

  lemma {:induction false} DistinctSize(s: seq<nat>)
    requires forall j, k | 0 <= j < k < |s| :: s[j] != s[k]
    ensures |Elements(s)| == |s|
  {
    if s == [] {
      assert Elements(s) == {};
    } else {
      var rest, last := s[..|s| - 1], s[|s| - 1];
      DistinctSize(rest);
      assert s == rest + [last];
      assert Elements(s) == Elements(rest) + {last};
    }
  }

  lemma ExtentSize(g: Geometry, e: Extent)
    requires ExtentOK(g, e)
    ensures |BlocksOf(e)| == Total(e)
  {
    DistinctSize(e.data);
  }

  lemma {:induction false} UpToMembers(own: seq<Extent>, n: nat, b: nat)
    requires n <= |own|
    ensures b in BlocksUpTo(own, n) <==> exists i :: 0 <= i < n && InExtent(own[i], b)
  {
    if n > 0 {
      UpToMembers(own, n - 1, b);
      assert b in BlocksOf(own[n - 1]) <==> InExtent(own[n - 1], b);
    }
  }

  lemma {:induction false} OwnedSize(g: Geometry, own: seq<Extent>, n: nat)
    requires n <= |own| && Disjoint(own) && forall i | 0 <= i < |own| :: ExtentOK(g, own[i])
    ensures |BlocksUpTo(own, n)| == Sum(own, n)
  {
    hide ExtentOK, BlocksOf, Total;
    if n > 0 {
      OwnedSize(g, own, n - 1);
      ExtentSize(g, own[n - 1]);
      LastApart(own, n);
    }
  }

  lemma LastApart(own: seq<Extent>, n: nat)
    requires 0 < n <= |own| && Disjoint(own)
    ensures BlocksUpTo(own, n - 1) !! BlocksOf(own[n - 1])
  {
    var before, last := BlocksUpTo(own, n - 1), BlocksOf(own[n - 1]);
    forall b | b in before ensures b !in last {
      UpToMembers(own, n - 1, b);
      assert b in last <==> InExtent(own[n - 1], b);
    }
  }

  /** No block is leaked and none is counted twice. */
  lemma Conserved(g: Geometry, own: seq<Extent>, free: set<nat>)
    requires g.Valid() && AllocOK(g, own, free, {})
    ensures Avail(g, free) + Sum(own, NUM_INODES) + g.Meta() == g.N
  {
    hide BlockStart, Beyond, AllocOK, BlocksUpTo;
    Parts(g, own, free);
    var avail, used, meta := (set b | b in free && b < g.N), BlocksUpTo(own, NUM_INODES), Below(g.Meta());
    OwnedSize(g, own, NUM_INODES);
    forall b: nat
      ensures b in Below(g.N) <==> b in avail || b in used || b in meta
      ensures !(b in avail && b in used) && !(b in avail && b in meta) && !(b in used && b in meta)
    {
      Partition(g, own, free, b);
    }
    ThreeParts(Below(g.N), avail, used, meta);
  }

  lemma Parts(g: Geometry, own: seq<Extent>, free: set<nat>)
    requires AllocOK(g, own, free, {})
    ensures |own| == NUM_INODES && Disjoint(own) && forall i | 0 <= i < |own| :: ExtentOK(g, own[i])
  {
  }

  lemma ThreeParts(all: set<nat>, a: set<nat>, b: set<nat>, c: set<nat>)
    requires forall x: nat :: x in all <==> x in a || x in b || x in c
    requires forall x: nat :: !(x in a && x in b) && !(x in a && x in c) && !(x in b && x in c)
    ensures |all| == |a| + |b| + |c|
  {
    assert all == a + b + c && a !! b && a + b !! c;
  }

  lemma Partition(g: Geometry, own: seq<Extent>, free: set<nat>, b: nat)
    requires g.Valid() && AllocOK(g, own, free, {})
    ensures b in BlocksUpTo(own, NUM_INODES) <==> Owned(own, b)
    ensures Owned(own, b) ==> g.Meta() <= b < g.N && b !in free
    ensures b < g.N <==> (b in free && b < g.N) || Owned(own, b) || b < g.Meta()
    ensures b in free ==> g.Meta() <= b
  {
    hide BlockStart, Beyond, BlocksUpTo;
    UpToMembers(own, NUM_INODES, b);
    if Owned(own, b) {
      var i :| 0 <= i < NUM_INODES && InExtent(own[i], b);
      assert ExtentOK(g, own[i]);
    }
  }
}
