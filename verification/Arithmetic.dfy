/** Ceiling division and the few nonlinear facts the page arithmetic needs. */
module Arithmetic {

  /** Pages (or blocks) of `d` tokens needed to hold `n` tokens. */
  function CeilDiv(n: nat, d: nat): nat
    requires d > 0
  {
    (n + d - 1) / d
  }

  lemma MulStep(a: int, b: int, d: nat)
    ensures a < b ==> a * d + d <= b * d
  {
    if a < b {
      var k: nat := b - a - 1;
      assert b * d == (a + 1 + k) * d == a * d + d + k * d;
      assert 0 <= k * d;
    }
  }

  lemma DivUnique(n: nat, d: nat, q: nat, r: nat)
    requires r < d && n == q * d + r
    ensures n / d == q && n % d == r
  {
    var a := n / d;
    assert n == a * d + n % d;
    MulStep(a, q, d);
    MulStep(q, a, d);
  }

  /** CeilDiv in terms of quotient and remainder, and its change by one token. */
  lemma CeilDivSteps(n: nat, d: nat)
    requires d > 0
    ensures CeilDiv(n + 1, d) == n / d + 1
    ensures CeilDiv(n, d) == if n % d == 0 then n / d else n / d + 1
  {
    var q, r := n / d, n % d;
    assert n == q * d + r;
    assert (q + 1) * d == q * d + d;
    DivUnique(n + d, d, q + 1, r);
    if r == 0 {
      DivUnique(n + d - 1, d, q, d - 1);
    } else {
      DivUnique(n + d - 1, d, q + 1, r - 1);
    }
  }

  lemma DivMonotone(a: nat, b: nat, d: nat)
    requires d > 0 && a <= b
    ensures a / d <= b / d
  {
    assert a == (a / d) * d + a % d;
    assert b == (b / d) * d + b % d;
    MulStep(b / d, a / d, d);
  }

  lemma CeilDivMonotone(a: nat, b: nat, d: nat)
    requires d > 0 && a <= b
    ensures CeilDiv(a, d) <= CeilDiv(b, d)
  {
    DivMonotone(a + d - 1, b + d - 1, d);
  }

  /** A position below a length falls on one of the length's pages. */
  lemma PositionHasPage(p: nat, n: nat, d: nat)
    requires d > 0 && p < n
    ensures p / d < CeilDiv(n, d)
  {
    CeilDivSteps(p, d);
    CeilDivMonotone(p + 1, n, d);
  }

  /** Whole pages: a multiple of the page size needs exactly its quotient. */
  lemma CeilDivExact(k: nat, d: nat)
    requires d > 0
    ensures (k * d) / d == k && (k * d) % d == 0 && CeilDiv(k * d, d) == k
  {
    DivUnique(k * d, d, k, 0);
    CeilDivSteps(k * d, d);
  }

  /** CeilDiv(n) pages cover n tokens, and one page fewer does not. */
  lemma CeilDivBounds(n: nat, d: nat)
    requires d > 0
    ensures n <= CeilDiv(n, d) * d < n + d
  {
    CeilDivSteps(n, d);
    assert n == (n / d) * d + n % d;
    assert (n / d + 1) * d == (n / d) * d + d;
  }

  /** The largest multiple of `d` not above `n`. */
  function Floor(n: nat, d: nat): nat
    requires d > 0
  {
    n / d * d
  }

  lemma FloorBounds(n: nat, d: nat)
    requires d > 0
    ensures Floor(n, d) <= n && Floor(n, d) % d == 0 && Floor(n, d) / d == n / d && n < Floor(n, d) + d
  {
    CeilDivExact(n / d, d);
    assert n == n / d * d + n % d;
  }

  /** Less than one multiple has no multiple in it. */
  lemma FloorZero(n: nat, d: nat)
    requires d > 0 && Floor(n, d) == 0
    ensures forall k: nat :: 0 < k <= n ==> k % d != 0
  {
    FloorBounds(n, d);
    forall k: nat | 0 < k <= n ensures k % d != 0 {
      DivUnique(k, d, 0, k);
    }
  }

  lemma FloorLargest(k: nat, n: nat, d: nat)
    requires d > 0 && k % d == 0 && k <= n
    ensures k <= Floor(n, d)
  {
    DivMonotone(k, n, d);
    assert k == k / d * d;
    MulStep(k / d, n / d, d);
  }
}
