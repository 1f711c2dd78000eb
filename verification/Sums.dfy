/** Finite sums of reals, the meaning of the library's `sum`, `dot` and `matmul` over exact
    arithmetic.  A summand is a total function of the index; only indices below the bound matter. */
module Sums {

  function Sum(n: nat, f: int -> real): (s: real)
  {
    if n == 0 then 0.0 else Sum(n - 1, f) + f(n - 1)
  }

  lemma {:induction false} SumExt(n: nat, f: int -> real, g: int -> real)
    requires forall i | 0 <= i < n :: f(i) == g(i)
    ensures Sum(n, f) == Sum(n, g)
  {
    if n > 0 {
      SumExt(n - 1, f, g);
    }
  }

  lemma {:induction false} SumLe(n: nat, f: int -> real, g: int -> real)
    requires forall i | 0 <= i < n :: f(i) <= g(i)
    ensures Sum(n, f) <= Sum(n, g)
  {
    if n > 0 {
      SumLe(n - 1, f, g);
    }
  }

  lemma OneMore(n: nat, c: real)
    requires n > 0
    ensures n as real * c == (n - 1) as real * c + c
  {
  }

  lemma {:induction false} SumConst(n: nat, c: real, f: int -> real)
    requires forall i | 0 <= i < n :: f(i) == c
    ensures Sum(n, f) == n as real * c
  {
    if n > 0 {
      SumConst(n - 1, c, f);
      OneMore(n, c);
    }
  }

  lemma SumZero(n: nat, f: int -> real)
    requires forall i | 0 <= i < n :: f(i) == 0.0
    ensures Sum(n, f) == 0.0
  {
    SumConst(n, 0.0, f);
  }

  lemma Distribute(a: real, x: real, y: real)
    ensures a * (x + y) == a * x + a * y
  {
  }

  /** Linearity: `h` is the combination a*f + b*g. */
  lemma {:induction false} SumLinear(n: nat, a: real, f: int -> real, b: real, g: int -> real, h: int -> real)
    requires forall i | 0 <= i < n :: h(i) == a * f(i) + b * g(i)
    ensures Sum(n, h) == a * Sum(n, f) + b * Sum(n, g)
  {
    if n > 0 {
      SumLinear(n - 1, a, f, b, g, h);
      Distribute(a, Sum(n - 1, f), f(n - 1));
      Distribute(b, Sum(n - 1, g), g(n - 1));
    }
  }

  lemma SumAdd(n: nat, f: int -> real, g: int -> real, h: int -> real)
    requires forall i | 0 <= i < n :: h(i) == f(i) + g(i)
    ensures Sum(n, h) == Sum(n, f) + Sum(n, g)
  {
    SumLinear(n, 1.0, f, 1.0, g, h);
  }

  lemma SumScale(n: nat, a: real, f: int -> real, h: int -> real)
    requires forall i | 0 <= i < n :: h(i) == a * f(i)
    ensures Sum(n, h) == a * Sum(n, f)
  {
    SumLinear(n, a, f, 0.0, f, h);
  }

  lemma {:induction false} SumNonneg(n: nat, f: int -> real)
    requires forall i | 0 <= i < n :: f(i) >= 0.0
    ensures Sum(n, f) >= 0.0
    ensures Sum(n, f) == 0.0 <==> forall i | 0 <= i < n :: f(i) == 0.0
  {
    if n > 0 {
      SumNonneg(n - 1, f);
    }
  }

  /** The inner sum of a double sum, as a summand of the outer one. */
  function Inner(n: nat, f: (int, int) -> real): int -> real
  {
    i => Sum(n, Row(f, i))
  }

  function Row(f: (int, int) -> real, i: int): int -> real
  {
    j => f(i, j)
  }

  function Flip(f: (int, int) -> real): (int, int) -> real
  {
    (i, j) => f(j, i)
  }

  function Sum2(m: nat, n: nat, f: (int, int) -> real): (s: real)
  {
    Sum(m, Inner(n, f))
  }

  /** Exchanging the order of a double sum. */
  lemma {:induction false} SumSwap(m: nat, n: nat, f: (int, int) -> real)
    ensures Sum2(m, n, f) == Sum2(n, m, Flip(f))
  {
    if m == 0 {
      SumZero(n, Inner(0, Flip(f)));
    } else {
      SumSwap(m - 1, n, f);
      SumAdd(n, Inner(m - 1, Flip(f)), Row(f, m - 1), Inner(m, Flip(f)));
    }
  }

  lemma Sum2Ext(m: nat, n: nat, f: (int, int) -> real, g: (int, int) -> real)
    requires forall i, j | 0 <= i < m && 0 <= j < n :: f(i, j) == g(i, j)
    ensures Sum2(m, n, f) == Sum2(m, n, g)
  {
    forall i | 0 <= i < m ensures Inner(n, f)(i) == Inner(n, g)(i) {
      SumExt(n, Row(f, i), Row(g, i));
    }
    SumExt(m, Inner(n, f), Inner(n, g));
  }

  /** An antisymmetric double sum vanishes. */
  lemma Sum2Antisymmetric(n: nat, f: (int, int) -> real)
    requires forall i, j | 0 <= i < n && 0 <= j < n :: f(i, j) == -f(j, i)
    ensures Sum2(n, n, f) == 0.0
  {
    SumSwap(n, n, f);
    forall i | 0 <= i < n ensures Inner(n, f)(i) == -1.0 * Inner(n, Flip(f))(i) {
      SumScale(n, -1.0, Row(Flip(f), i), Row(f, i));
    }
    SumScale(n, -1.0, Inner(n, Flip(f)), Inner(n, f));
  }
}
