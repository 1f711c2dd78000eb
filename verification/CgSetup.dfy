/** The system that the benchmark builds: a sparsified random matrix made symmetric and positive
    definite. */
module CgSetup {
  import opened Reals
  import opened Sums
  import opened Vectors
  import CgInvariants
  import CgConvergence
  import Krylov
  import Galerkin

  const SPARSITY_FACTOR := 7
  const DIMENSION := 4096
  const MAX_ITER := 10

  /** The thousandths of t, kept when divisible by the sparsity factor. */
  function Kept(t: real): real
  {
    var thousandths := (t * 1000.0).Floor;
    if thousandths % SPARSITY_FACTOR == 0 then thousandths as real / 1000.0 else 0.0
  }

  /** Entry (i, j) of transpose(A) + A + n I. */
  function Entry(T: Mat, i: nat, j: nat): real
    requires Square(T, |T|) && i < |T| && j < |T|
  {
    Kept(T[j][i]) + Kept(T[i][j]) + (if i == j then |T| as real else 0.0)
  }

  function SetupMatrix(T: Mat): (A: Mat)
    requires Square(T, |T|)
    ensures Square(A, |T|)
    ensures forall i, j | 0 <= i < |T| && 0 <= j < |T| :: A[i][j] == Entry(T, i, j)
  {
    seq(|T|, i requires 0 <= i < |T| => seq(|T|, j requires 0 <= j < |T| => Entry(T, i, j)))
  }

  /** k is the number of whole thousandths in t. */
  ghost predicate Thousandths(k: nat, t: real)
  {
    k as real <= 1000.0 * t < k as real + 1.0
  }

  ghost predicate MultipleOfSeven(k: nat)
  {
    exists j: nat :: k == 7 * j
  }

  /** Of every entry the whole thousandths are kept if their number is a multiple of seven, and nothing otherwise. */
  lemma KeptThousandths(t: real, k: nat)
    requires Thousandths(k, t)
    ensures 1000.0 * Kept(t) == if MultipleOfSeven(k) then k as real else 0.0
  {
    assert (t * 1000.0).Floor == k;
    if k % 7 == 0 {
      assert k == 7 * (k / 7);
    } else {
      forall j: nat ensures k != 7 * j {
      }
    }
  }

  /** Entry (i, j) of the system matrix, in thousandths: what is kept of the entries (i, j) and (j, i) of the random
      matrix, and n more on the diagonal. */
  lemma SetupThousandths(T: Mat, i: nat, j: nat, k: nat, l: nat)
    requires Square(T, |T|) && i < |T| && j < |T| && Thousandths(k, T[i][j]) && Thousandths(l, T[j][i])
    ensures 1000.0 * SetupMatrix(T)[i][j]
         == (if MultipleOfSeven(k) then k as real else 0.0) + (if MultipleOfSeven(l) then l as real else 0.0)
            + (if i == j then 1000.0 * |T| as real else 0.0)
  {
    hide Kept, MultipleOfSeven, Thousandths;
    KeptThousandths(T[i][j], k);
    KeptThousandths(T[j][i], l);
  }

  /** Kept entries are thousandths divisible by 7, so at most 994. */
  lemma KeptRange(t: real)
    requires 0.0 <= t <= 1.0
    ensures 0.0 <= Kept(t) <= 0.994
  {
    var f := (t * 1000.0).Floor;
    assert 0 <= f <= 1000;
    if f % SPARSITY_FACTOR == 0 {
      assert f <= 994;
    }
  }

  ghost predicate UnitEntries(T: Mat)
    requires Square(T, |T|)
  {
    forall i, j | 0 <= i < |T| && 0 <= j < |T| :: 0.0 <= T[i][j] <= 1.0
  }

  /** For s between 0 and 1.988, s x y differs from 0.994 x y by at most 0.994 |x y|. */
  lemma PairBound(s: real, x: real, y: real)
    requires 0.0 <= s <= 1.988
    ensures s * (x * y) >= 0.994 * (x * y) - 0.497 * (x * x) - 0.497 * (y * y)
  {
    var theta := s / 1.988;
    var d, e := (x - y) * (x - y), (x + y) * (x + y);
    SquareNonneg(x - y);
    SquareNonneg(x + y);
    Weighted(1.0 - theta, d);
    Weighted(theta, e);
    assert s == theta * 1.988;
    assert s * (x * y) - 0.994 * (x * y) + 0.497 * (x * x) + 0.497 * (y * y)
      == 0.497 * ((1.0 - theta) * d) + 0.497 * (theta * e);
  }

  lemma SquareNonneg(x: real)
    ensures x * x >= 0.0
  {
  }

  lemma Weighted(w: real, q: real)
    requires w >= 0.0 && q >= 0.0
    ensures w * q >= 0.0
  {
  }

  function Plain(v: Vec): int -> real
  {
    i => At(v, i)
  }

  /** A lower bound for the (i, j) term of v' A v. */
  ghost function Lower(v: Vec): (int, int) -> real
  {
    (i, j) => 0.994 * (At(v, i) * At(v, j)) - 0.497 * (At(v, i) * At(v, i)) - 0.497 * (At(v, j) * At(v, j))
              + (if i == j then |v| as real * (At(v, i) * At(v, i)) else 0.0)
  }

  lemma TermBound(T: Mat, v: Vec, i: nat, j: nat)
    requires Square(T, |T|) && UnitEntries(T) && |v| == |T| && i < |T| && j < |T|
    ensures FormTerm(SetupMatrix(T), v, v)(i, j) >= Lower(v)(i, j)
  {
    KeptRange(T[i][j]);
    KeptRange(T[j][i]);
    var s := Kept(T[j][i]) + Kept(T[i][j]);
    var x, y := At(v, i), At(v, j);
    PairBound(s, x, y);
    var a := SetupMatrix(T)[i][j];
    assert FormTerm(SetupMatrix(T), v, v)(i, j) == x * (a * y) == a * (x * y);
    if i == j {
      assert a * (x * y) == s * (x * y) + |v| as real * (x * y);
    }
  }

  ghost function OnlyAt(i: int, c: real): int -> real
  {
    j => if i == j then c else 0.0
  }

  lemma {:induction false} SumOnlyAt(i: nat, c: real, n: nat)
    ensures Sum(n, OnlyAt(i, c)) == if i < n then c else 0.0
  {
    if n > 0 {
      SumOnlyAt(i, c, n - 1);
    }
  }

  /** a v(j) + b v(j)^2 + c. */
  ghost function Affine(v: Vec, a: real, b: real, c: real): int -> real
  {
    j => a * At(v, j) + b * Prod(v, v)(j) + c
  }

  ghost function Quadratic(v: Vec, a: real, b: real): int -> real
  {
    j => a * At(v, j) + b * Prod(v, v)(j)
  }

  ghost function Fixed(c: real): int -> real
  {
    j => c
  }

  lemma SumAffineOf(v: Vec, n: nat, a: real, b: real, c: real)
    ensures Sum(n, Affine(v, a, b, c)) == a * Sum(n, Plain(v)) + b * Sum(n, Prod(v, v)) + n as real * c
  {
    hide Sum, Prod, At;
    SumLinear(n, a, Plain(v), b, Prod(v, v), Quadratic(v, a, b));
    SumConst(n, c, Fixed(c));
    SumAdd(n, Quadratic(v, a, b), Fixed(c), Affine(v, a, b, c));
  }

  lemma LowerEntry(v: Vec, i: nat, j: nat, y: real)
    requires y == At(v, i)
    ensures Row(Lower(v), i)(j)
         == Affine(v, 0.994 * y, -0.497, -0.497 * (y * y))(j) + OnlyAt(i, |v| as real * (y * y))(j)
  {
    var x := At(v, j);
    assert Prod(v, v)(j) == x * x;
    assert Affine(v, 0.994 * y, -0.497, -0.497 * (y * y))(j) == 0.994 * y * x + -0.497 * (x * x) + -0.497 * (y * y);
    assert Row(Lower(v), i)(j) == Lower(v)(i, j);
  }

  lemma LowerRowSplit(v: Vec, i: nat, y: real, n: real, a: real, c: real, m: real)
    requires i < |v| && y == At(v, i) && n == |v| as real
    requires a == 0.994 * y && c == -0.497 * (y * y) && m == n * (y * y)
    ensures Inner(|v|, Lower(v))(i) == Sum(|v|, Affine(v, a, -0.497, c)) + m
  {
    hide Sum, Affine, Lower;
    var base := Affine(v, a, -0.497, c);
    forall j | 0 <= j < |v| ensures Row(Lower(v), i)(j) == base(j) + OnlyAt(i, m)(j) {
      LowerEntry(v, i, j, y);
    }
    SumAdd(|v|, base, OnlyAt(i, m), Row(Lower(v), i));
    SumOnlyAt(i, m, |v|);
  }

  lemma LowerRowSum(v: Vec, i: nat, y: real, sigma: real, q: real, n: real)
    requires i < |v| && sigma == Sum(|v|, Plain(v)) && q == Dot(v, v) && n == |v| as real && y == At(v, i)
    ensures Inner(|v|, Lower(v))(i) == 0.994 * y * sigma + -0.497 * q + n * (-0.497 * (y * y)) + n * (y * y)
  {
    hide Sum, Affine, Lower, Plain, Prod;
    var a, c := 0.994 * y, -0.497 * (y * y);
    LowerRowSplit(v, i, y, n, a, c, n * (y * y));
    SumAffineOf(v, |v|, a, -0.497, c);
  }

  /** Row i of the lower bound sums to an affine function of v(i); sigma is the sum of the entries of v
      and q its squared length. */
  lemma LowerRow(v: Vec, i: nat, sigma: real, q: real, n: real)
    requires i < |v| && sigma == Sum(|v|, Plain(v)) && q == Dot(v, v) && n == |v| as real
    ensures Inner(|v|, Lower(v))(i) == Affine(v, 0.994 * sigma, 0.503 * n, -0.497 * q)(i)
  {
    LowerRowSum(v, i, At(v, i), sigma, q, n);
    Collect(n, At(v, i), sigma, q);
    assert Affine(v, 0.994 * sigma, 0.503 * n, -0.497 * q)(i)
      == 0.994 * sigma * At(v, i) + 0.503 * n * (At(v, i) * At(v, i)) + -0.497 * q;
  }

  lemma Collect(n: real, y: real, sigma: real, q: real)
    ensures 0.994 * y * sigma + -0.497 * q + n * (-0.497 * (y * y)) + n * (y * y)
         == 0.994 * sigma * y + 0.503 * n * (y * y) + -0.497 * q
  {
  }

  lemma Leftover(n: real, sigma: real, q: real)
    ensures 0.994 * sigma * sigma + 0.503 * n * q + n * (-0.497 * q) >= 0.006 * (n * q)
  {
    SquareNonneg(sigma);
    assert 0.994 * sigma * sigma == 0.994 * (sigma * sigma);
  }

  /** Each row of the form dominates the row of the bound. */
  lemma RowsDominate(T: Mat, v: Vec, i: nat)
    requires Square(T, |T|) && UnitEntries(T) && |v| == |T| && i < |v|
    ensures Inner(|v|, Lower(v))(i) <= Inner(|v|, FormTerm(SetupMatrix(T), v, v))(i)
  {
    var n := |v|;
    var f, g := FormTerm(SetupMatrix(T), v, v), Lower(v);
    forall j | 0 <= j < n ensures Row(g, i)(j) <= Row(f, i)(j) {
      TermBound(T, v, i, j);
    }
    SumLe(n, Row(g, i), Row(f, i));
  }

  lemma SumLower(v: Vec, sigma: real, q: real, n: real)
    requires sigma == Sum(|v|, Plain(v)) && q == Dot(v, v) && n == |v| as real
    ensures Sum2(|v|, |v|, Lower(v)) >= 0.006 * (n * q)
  {
    SumLowerRows(v, sigma, q, n, 0.994 * sigma, 0.503 * n, -0.497 * q);
    Leftover(n, sigma, q);
  }

  lemma SumLowerRows(v: Vec, sigma: real, q: real, n: real, a: real, b: real, c: real)
    requires sigma == Sum(|v|, Plain(v)) && q == Dot(v, v) && n == |v| as real
    requires a == 0.994 * sigma && b == 0.503 * n && c == -0.497 * q
    ensures Sum2(|v|, |v|, Lower(v)) == a * sigma + b * q + n * c
  {
    hide Sum, Affine, Lower;
    forall i | 0 <= i < |v| ensures Inner(|v|, Lower(v))(i) == Affine(v, a, b, c)(i) {
      LowerRow(v, i, sigma, q, n);
    }
    SumExt(|v|, Inner(|v|, Lower(v)), Affine(v, a, b, c));
    SumAffineOf(v, |v|, a, b, c);
  }

  /** v' A v is at least 0.006 n |v|^2. */
  lemma FormLowerBound(T: Mat, v: Vec)
    requires Square(T, |T|) && UnitEntries(T) && |v| == |T|
    ensures Dot(v, MatVec(SetupMatrix(T), v)) >= 0.006 * (|T| as real * Dot(v, v))
  {
    FormIsSum2(SetupMatrix(T), v, v);
    forall i | 0 <= i < |v|
      ensures Inner(|v|, Lower(v))(i) <= Inner(|v|, FormTerm(SetupMatrix(T), v, v))(i)
    {
      RowsDominate(T, v, i);
    }
    SumLe(|v|, Inner(|v|, Lower(v)), Inner(|v|, FormTerm(SetupMatrix(T), v, v)));
    SumLower(v, Sum(|v|, Plain(v)), Dot(v, v), |v| as real);
  }

  /** For every square T with entries between 0 and 1 the matrix built from it is symmetric and
      positive definite. */
  lemma SetupIsSpd(T: Mat)
    requires Square(T, |T|) && UnitEntries(T)
    ensures CgInvariants.Spd(SetupMatrix(T), |T|)
  {
    forall v: Vec | |v| == |T| ensures PositiveAt(SetupMatrix(T), v) {
      FormLowerBound(T, v);
      DotSelf(v);
      if Dot(v, v) > 0.0 {
        assert |T| > 0;
        TimesPositive(|T| as real, Dot(v, v));
      }
    }
  }

  // ----- A system that is solved after one iteration

  ghost predicate AllZero(T: Mat)
    requires Square(T, |T|)
  {
    forall i, j | 0 <= i < |T| && 0 <= j < |T| :: T[i][j] == 0.0
  }

  lemma ZeroEntry(T: Mat, i: nat, j: nat)
    requires Square(T, |T|) && AllZero(T) && i < |T| && j < |T|
    ensures Entry(T, i, j) == if i == j then |T| as real else 0.0
  {
    assert T[i][j] == 0.0 && T[j][i] == 0.0 && Kept(0.0) == 0.0;
  }

  /** Without entries the matrix is n times the identity. */
  lemma ZeroImage(T: Mat, v: Vec)
    requires Square(T, |T|) && AllZero(T) && |v| == |T|
    ensures MatVec(SetupMatrix(T), v) == Axpy(Zeros(|v|), |T| as real, v)
  {
    hide Entry;
    var A, n := SetupMatrix(T), |T| as real;
    forall i | 0 <= i < |v| ensures Dot(A[i], v) == n * v[i] {
      forall j | 0 <= j < |v| ensures Prod(A[i], v)(j) == OnlyAt(i, n * v[i])(j) {
        ZeroEntry(T, i, j);
      }
      SumExt(|v|, Prod(A[i], v), OnlyAt(i, n * v[i]));
      SumOnlyAt(i, n * v[i], |v|);
    }
    var w, u := MatVec(A, v), Axpy(Zeros(|v|), n, v);
    assert forall i | 0 <= i < |v| :: w[i] == u[i];
  }

  /** Then A b = n b, whatever b is. */
  lemma ZeroDepends(T: Mat, b: Vec, k: nat)
    requires Square(T, |T|) && AllZero(T) && |b| == |T| > 0 && k >= 2
    ensures !Krylov.Independent(SetupMatrix(T), b, k)
  {
    hide MatVec, Entry, Krylov.OnlyTrivially;
    var A, n := SetupMatrix(T), |T| as real;
    var c := [n, -1.0];
    ZeroImage(T, b);
    TwoPowers(A, n, b);
    Krylov.PaddedMany(c, k - 2, A, b);
    assert (c + seq(k - 2, _ => 0.0))[0] == n;
    assert !Krylov.OnlyTrivially(c + seq(k - 2, _ => 0.0), A, b) by {
      NotTrivial(c + seq(k - 2, _ => 0.0), A, b);
    }
  }

  lemma NotTrivial(c: seq<real>, A: Mat, b: Vec)
    requires Square(A, |b|) && IsZero(Krylov.Combination(c, A, b)) && c != [] && c[0] != 0.0
    ensures !Krylov.OnlyTrivially(c, A, b)
  {
    hide Krylov.Combination;
  }

  lemma TwoPowers(A: Mat, n: real, b: Vec)
    requires Square(A, |b|) && MatVec(A, b) == Axpy(Zeros(|b|), n, b)
    ensures IsZero(Krylov.Combination([n, -1.0], A, b))
  {
    var c := [n, -1.0];
    assert c[..1] == [n] && c[..1][..0] == [];
    assert Krylov.Power(A, b, 0) == b && Krylov.Power(A, b, 1) == MatVec(A, b);
    assert Krylov.Combination([n], A, b) == Axpy(Zeros(|b|), n, b);
  }

  /** A matrix without entries makes a solvable system for which the program, with its ten iterations, divides zero
      by zero, for every x0 and in every dimension. */
  lemma ZeroSystemBreaksDown(T: Mat, x0: Vec)
    requires Square(T, |T|) && AllZero(T) && |x0| == |T| > 0
    ensures UnitEntries(T) && CgInvariants.Spd(SetupMatrix(T), |T|)
    ensures !Krylov.Independent(SetupMatrix(T), MatVec(SetupMatrix(T), x0), MAX_ITER)
  {
    SetupIsSpd(T);
    ZeroDepends(T, MatVec(SetupMatrix(T), x0), MAX_ITER);
  }

  /** So the check after a fixed number of iterations prints the squared distance of x0 to the one vector in the span
      of that many powers b, A b, ... whose residual is orthogonal to them, zero exactly when they are linearly
      independent and one more is not, and NaN when they are dependent, as always above the dimension. */
  method SetupAndCheck(T: Mat, x0: Vec, maxIter: nat) returns (res: CgConvergence.Printed)
    requires Square(T, |T|) && UnitEntries(T) && |x0| == |T|
    ensures var A := SetupMatrix(T);
      CgInvariants.Spd(A, |T|)
      && (res == CgConvergence.Difference(0.0) <==>
          Krylov.Independent(A, MatVec(A, x0), maxIter) && !Krylov.Independent(A, MatVec(A, x0), maxIter + 1))
      && (res.NaN? <==> !Krylov.Independent(A, MatVec(A, x0), maxIter))
      && (res.Difference? ==>
          (exists c: seq<real> :: |c| == maxIter && Galerkin.SolvesInSpan(A, MatVec(A, x0), c))
          && forall c: seq<real> | |c| == maxIter && Galerkin.SolvesInSpan(A, MatVec(A, x0), c) ::
               res.value == Galerkin.SquaredDistance(x0, Krylov.Combination(c, A, MatVec(A, x0))))
      && (maxIter > |T| ==> res.NaN?)
  {
    SetupIsSpd(T);
    res := CgConvergence.CheckSolution(SetupMatrix(T), x0, maxIter);
  }

  /** An input for which the program prints NaN: no entry of the random matrix is kept. */
  method RunOnZeros(x0: Vec) returns (res: CgConvergence.Printed)
    requires |x0| == DIMENSION
    ensures res.NaN?
  {
    var T := seq(DIMENSION, i => seq(DIMENSION, j => 0.0));
    ZeroSystemBreaksDown(T, x0);
    res := SetupAndCheck(T, x0, MAX_ITER);
  }
}
