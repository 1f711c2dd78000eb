/** Absolute values, quotients, roots, and sign rules for products of reals; quotients of integers. */
module Reals {

  function Abs(x: real): real
  {
    if x < 0.0 then -x else x
  }

  /** Division as a total function; where it is used, the divisor is shown not to be zero or the source
      guards against it. */
  function Quotient(a: real, b: real): real
  {
    if b == 0.0 then 0.0 else a / b
  }

  lemma QuotientTimes(a: real, b: real)
    requires b != 0.0
    ensures b * Quotient(a, b) == a
  {
  }

  function Times(a: real, b: real): real
  {
    a * b
  }

  lemma TimesPositive(a: real, b: real)
    requires (a > 0.0 && b > 0.0) || (a < 0.0 && b < 0.0)
    ensures Times(a, b) > 0.0
  {
    if a < 0.0 {
      assert a * b == (-a) * (-b);
    }
  }

  lemma TimesNonneg(a: real, b: real)
    requires (a >= 0.0 && b >= 0.0) || (a <= 0.0 && b <= 0.0)
    ensures Times(a, b) >= 0.0
  {
    if a < 0.0 && b < 0.0 {
      TimesPositive(a, b);
    } else if a > 0.0 && b > 0.0 {
      TimesPositive(a, b);
    }
  }

  /** A nonnegative square root. */
  ghost predicate IsRoot(root: real -> real)
  {
    forall x | x >= 0.0 :: root(x) >= 0.0 && root(x) * root(x) == x
  }

  lemma SquareOrder(x: real, y: real)
    requires x >= 0.0 && y >= 0.0
    ensures x < y <==> x * x < y * y
  {
    if x < y {
      TimesPositive(y - x, y + x);
      assert Times(y - x, y + x) == y * y - x * x;
    } else {
      TimesNonneg(x - y, x + y);
      assert Times(x - y, x + y) == x * x - y * y;
    }
  }

  lemma SquareUnique(x: real, y: real)
    requires x >= 0.0 && y >= 0.0 && x * x == y * y
    ensures x == y
  {
    SquareOrder(x, y);
    SquareOrder(y, x);
  }

  /** Square roots are ordered like their squares. */
  lemma RootBound(r: real, h: real, s: real)
    requires r >= 0.0 && h >= 0.0 && s >= 0.0 && r * r == s + h * h
    ensures r >= h
  {
    if r < h {
      TimesPositive(h - r, h + r);
    }
  }

  /** Quotient and remainder are unique. */
  lemma DivModUnique(p: int, n: nat, q: int, r: int)
    requires n > 0 && p == q * n + r && 0 <= r < n
    ensures p / n == q && p % n == r
  {
    assert p == p / n * n + p % n;
    var d := q - p / n;
    assert d * n == p % n - r;
    assert d == 0;
  }
}
