/** Index arithmetic shared by the layouts. */
module Arith {

  /** The number of values of a 64-bit word. */
  const WORD: nat := 0x1_0000_0000_0000_0000

  lemma MulStep(a: nat, b: nat, width: nat)
    requires a < b
    ensures a * width + width <= b * width
  {
    var d := b - a - 1;
    assert b * width == a * width + width + d * width;
  }

  /** A quotient and a remainder below the divisor determine each other. */
  lemma MulAddUnique(width: nat, a: nat, x: nat, b: nat, y: nat)
    requires x < width && y < width && a * width + x == b * width + y
    ensures a == b && x == y
  {
    if a < b {
      MulStep(a, b, width);
    } else if b < a {
      MulStep(b, a, width);
    }
  }

  lemma MulAddBound(width: nat, a: nat, x: nat, bound: nat)
    requires x < width && a < bound
    ensures a * width + x < bound * width
  {
    MulStep(a, bound, width);
  }

  lemma DivModUnique(d: nat, q: nat, r: nat)
    requires r < d
    ensures (q * d + r) / d == q && (q * d + r) % d == r
  {
    var x := q * d + r;
    assert (x / d) * d + x % d == x;
    MulAddUnique(d, q, r, x / d, x % d);
  }

  lemma QuotientTimesDivisor(x: nat, d: nat)
    requires d > 0
    ensures 0 <= x / d * d <= x < x / d * d + d && x / d * d % d == 0
  {
    assert x / d * d + x % d == x;
    if x / d > 0 { MulStep(0, x / d, d); }
    DivModUnique(d, x / d, 0);
  }

  lemma CloseMultiples(m: nat, a: nat, b: nat)
    requires a * m < b * m + m && b * m < a * m + m
    ensures a == b
  {
    if a < b {
      MulStep(a, b, m);
    } else if b < a {
      MulStep(b, a, m);
    }
  }

  /** Two numbers less than `m` apart that agree modulo `m` are equal. */
  lemma SameResidue(m: nat, x: nat, y: nat)
    requires m > 0 && x % m == y % m && x < y + m && y < x + m
    ensures x == y
  {
    var a, b := x / m, y / m;
    assert a * m + x % m == x;
    assert b * m + y % m == y;
    CloseMultiples(m, a, b);
  }

  /** The numbers below `n`. */
  function Below(n: nat): (s: set<nat>)
    ensures forall t: nat :: t in s <==> t < n
    ensures |s| == n
  {
    if n == 0 then {} else Below(n - 1) + {n - 1}
  }

  lemma SubsetSize(s: set<nat>, n: nat)
    requires forall k: nat :: k in s ==> k < n
    ensures |s| <= n
    ensures |s| == n <==> forall k: nat :: k < n ==> k in s
  {
    var rest := Below(n) - s;
    assert Below(n) == s + rest;
    if forall k: nat :: k < n ==> k in s { assert rest == {}; }
    if |s| == n { assert rest == {}; }
  }
}
