/** Division by a symbolic block size, kept away from every other proof. */
module Arith {

  function Min(a: nat, b: nat): nat { if a < b then a else b }

  function Max(a: nat, b: nat): nat { if a < b then b else a }

  /** The block a byte position is in. */
  function BlockOf(B: nat, p: nat): nat
    requires B > 0
  {
    p / B
  }

  /** Where in its block a byte position is. */
  function OffsetIn(B: nat, p: nat): (m: nat)
    requires B > 0
    ensures m < B && m <= p
  {
    p % B
  }

  lemma MulStrict(a: nat, b: nat, B: nat)
    requires a < b
    ensures a * B + B <= b * B
  {
    MulMonotone(a + 1, b, B);
    Next(a, B);
  }

  lemma DivMod(k: nat, B: nat, m: nat)
    requires m < B
    ensures (k * B + m) / B == k && (k * B + m) % B == m
  {
    var p := k * B + m;
    Split(p, B);
    if k < p / B {
      MulStrict(k, p / B, B);
    } else if p / B < k {
      MulStrict(p / B, k, B);
    }
  }

  lemma Split(p: nat, B: nat)
    requires B > 0
    ensures p == (p / B) * B + p % B && 0 <= p % B < B
  {
  }

  /** Which block a byte position is in, without naming the offset. */
  lemma InBlock(p: nat, B: nat, k: nat)
    requires B > 0
    ensures k * B <= p < (k + 1) * B <==> p / B == k
    ensures p / B == k ==> p % B == p - k * B
  {
    if k * B <= p < (k + 1) * B {
      DivMod(k, B, p - k * B);
    }
  }

  /** How the code counts the blocks a write touches. */
  lemma BlocksTouched(B: nat, off: nat, len: nat)
    requires off < B
    ensures (if off + len < B then 1 else 2 + (len - (B - off)) / B) == (off + len) / B + 1
  {
    if off + len < B {
      DivMod(0, B, off + len);
    } else {
      var r := len - (B - off);
      Split(r, B);
      Next(r / B, B);
      DivMod(r / B + 1, B, r % B);
    }
  }

  lemma BlockOrder(B: nat, p: nat, q: nat)
    requires B > 0 && p <= q
    ensures BlockOf(B, p) <= BlockOf(B, q)
  {
    DivMonotone(p, q, B);
  }

  lemma BlockZero(B: nat)
    requires B > 0
    ensures BlockOf(B, 0) == 0 && BlockStart(B, 0) == 0
  {
  }

  lemma DivMonotone(p: nat, q: nat, B: nat)
    requires B > 0 && p <= q
    ensures p / B <= q / B
  {
    if p / B > q / B {
      MulMonotone(q / B + 1, p / B, B);
      Split(p, B);
      Split(q, B);
    }
  }

  lemma MulMonotone(a: nat, b: nat, B: nat)
    requires a <= b
    ensures a * B <= b * B
  {
  }

  lemma Next(a: nat, B: nat)
    ensures (a + 1) * B == a * B + B
  {
  }

  /** The first byte of block `k`: `k * B`, spelled without a product. */
  function BlockStart(B: nat, k: nat): nat {
    if k == 0 then 0 else BlockStart(B, k - 1) + B
  }

  lemma StartZero(B: nat)
    ensures BlockStart(B, 0) == 0
  {
  }

  lemma StartNext(B: nat, k: nat)
    ensures BlockStart(B, k + 1) == BlockStart(B, k) + B
  {
  }

  lemma {:induction false} StartMul(B: nat, k: nat)
    ensures BlockStart(B, k) == k * B
  {
    if k > 0 {
      StartMul(B, k - 1);
      Next(k - 1, B);
    }
  }

  lemma {:induction false} StartMonotone(B: nat, a: nat, b: nat)
    requires a <= b
    ensures BlockStart(B, a) <= BlockStart(B, b)
    ensures a < b ==> BlockStart(B, a) + B <= BlockStart(B, b)
  {
    if a < b {
      StartMonotone(B, a, b - 1);
    }
  }

  lemma {:induction false} StartDiff(B: nat, a: nat, b: nat)
    requires a <= b
    ensures BlockStart(B, b - a) == BlockStart(B, b) - BlockStart(B, a)
  {
    if a < b {
      StartDiff(B, a, b - 1);
    }
  }

  /** A position between the starts of block `k` and the next one is in block `k`. */
  lemma StartDiv(B: nat, p: nat, k: nat)
    requires B > 0
    ensures BlockStart(B, k) <= p < BlockStart(B, k) + B <==> p / B == k
    ensures p / B == k ==> p == BlockStart(B, k) + p % B
  {
    StartMul(B, k);
    InBlock(p, B, k);
    Next(k, B);
  }

  /** Two indices less than one turn of a ring apart use the same slot only when they are equal. */
  lemma RingInjective(a: nat, b: nat, n: nat)
    requires n > 0 && a <= b < a + n
    ensures a % n == b % n <==> a == b
  {
    Split(a, n);
    Split(b, n);
    if a / n < b / n {
      MulStrict(a / n, b / n, n);
    } else if b / n < a / n {
      MulStrict(b / n, a / n, n);
    }
  }

  /** One step round a ring. */
  lemma RingNext(a: nat, n: nat)
    requires n > 0
    ensures (a + 1) % n == if a % n == n - 1 then 0 else a % n + 1
  {
    Split(a, n);
    var q, r := a / n, a % n;
    Next(q, n);
    if r == n - 1 {
      DivMod(q + 1, n, 0);
    } else {
      DivMod(q, n, r + 1);
    }
  }
}
