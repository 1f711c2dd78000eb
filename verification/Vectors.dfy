/** Real vectors and square matrices, with the inner product and the matrix-vector product that
    the solver's `dot` and `matmul` compute. */
module Vectors {
  import opened Reals
  import opened Sums

  type Vec = seq<real>
  type Mat = seq<Vec>

  function At(v: Vec, i: int): real
  {
    if 0 <= i < |v| then v[i] else 0.0
  }

  function Prod(u: Vec, v: Vec): int -> real
  {
    i => At(u, i) * At(v, i)
  }

  function Dot(u: Vec, v: Vec): real
    requires |u| == |v|
  {
    Sum(|u|, Prod(u, v))
  }

  function Zeros(n: nat): (z: Vec)
    ensures |z| == n
  {
    seq(n, i => 0.0)
  }

  /** u + c v, entry by entry. */
  function Axpy(u: Vec, c: real, v: Vec): (w: Vec)
    requires |u| == |v|
    ensures |w| == |u|
    ensures forall i | 0 <= i < |u| :: w[i] == u[i] + c * v[i]
  {
    seq(|u|, i requires 0 <= i < |u| => u[i] + c * v[i])
  }

  ghost predicate IsZero(v: Vec)
  {
    forall i | 0 <= i < |v| :: v[i] == 0.0
  }

  lemma DotSym(u: Vec, v: Vec)
    requires |u| == |v|
    ensures Dot(u, v) == Dot(v, u)
  {
    SumExt(|u|, Prod(u, v), Prod(v, u));
  }

  /** The inner product is linear in its first argument. */
  lemma DotAxpy(u: Vec, c: real, v: Vec, w: Vec)
    requires |u| == |v| == |w|
    ensures Dot(Axpy(u, c, v), w) == Dot(u, w) + c * Dot(v, w)
  {
    forall i | 0 <= i < |u| ensures Prod(Axpy(u, c, v), w)(i) == 1.0 * Prod(u, w)(i) + c * Prod(v, w)(i) {
    }
    SumLinear(|u|, 1.0, Prod(u, w), c, Prod(v, w), Prod(Axpy(u, c, v), w));
  }

  lemma DotAxpyRight(w: Vec, u: Vec, c: real, v: Vec)
    requires |u| == |v| == |w|
    ensures Dot(w, Axpy(u, c, v)) == Dot(w, u) + c * Dot(w, v)
  {
    DotAxpy(u, c, v, w);
    DotSym(w, Axpy(u, c, v));
    DotSym(w, u);
    DotSym(w, v);
  }

  /** The squared length is positive except at the zero vector. */
  lemma DotSelf(v: Vec)
    ensures Dot(v, v) >= 0.0
    ensures Dot(v, v) == 0.0 <==> IsZero(v)
  {
    var f := Prod(v, v);
    forall i | 0 <= i < |v|
      ensures v[i] != 0.0 ==> f(i) > 0.0
      ensures v[i] == 0.0 ==> f(i) == 0.0
    {
      assert f(i) == Times(v[i], v[i]);
      if v[i] != 0.0 {
        TimesPositive(v[i], v[i]);
      }
    }
    SumNonneg(|v|, f);
    if Dot(v, v) == 0.0 {
      forall i | 0 <= i < |v| ensures v[i] == 0.0 {
        assert f(i) == 0.0;
      }
    }
  }

  lemma DotZero(u: Vec, v: Vec)
    requires |u| == |v| && IsZero(u)
    ensures Dot(u, v) == 0.0
  {
    SumZero(|u|, Prod(u, v));
  }

  predicate Square(A: Mat, n: nat)
  {
    |A| == n && forall i | 0 <= i < n :: |A[i]| == n
  }

  ghost predicate Symmetric(A: Mat, n: nat)
    requires Square(A, n)
  {
    forall i, j | 0 <= i < n && 0 <= j < n :: A[i][j] == A[j][i]
  }

  function MatVec(A: Mat, x: Vec): (y: Vec)
    requires Square(A, |x|)
    ensures |y| == |x|
    ensures forall i | 0 <= i < |x| :: y[i] == Dot(A[i], x)
  {
    seq(|x|, i requires 0 <= i < |x| => Dot(A[i], x))
  }

  lemma MatVecAxpy(A: Mat, u: Vec, c: real, v: Vec)
    requires |u| == |v| && Square(A, |u|)
    ensures MatVec(A, Axpy(u, c, v)) == Axpy(MatVec(A, u), c, MatVec(A, v))
  {
    forall i | 0 <= i < |u| ensures MatVec(A, Axpy(u, c, v))[i] == Axpy(MatVec(A, u), c, MatVec(A, v))[i] {
      DotAxpyRight(A[i], u, c, v);
    }
  }

  /** The (i, j) term of the bilinear form u' A v. */
  function FormTerm(A: Mat, u: Vec, v: Vec): (int, int) -> real
  {
    (i, j) => if 0 <= i < |A| then At(u, i) * (At(A[i], j) * At(v, j)) else 0.0
  }

  lemma FormIsSum2(A: Mat, u: Vec, v: Vec)
    requires |u| == |v| && Square(A, |u|)
    ensures Dot(u, MatVec(A, v)) == Sum2(|u|, |u|, FormTerm(A, u, v))
  {
    var n := |u|;
    forall i | 0 <= i < n ensures Prod(u, MatVec(A, v))(i) == Inner(n, FormTerm(A, u, v))(i) {
      forall j | 0 <= j < n ensures Row(FormTerm(A, u, v), i)(j) == u[i] * Prod(A[i], v)(j) {
        assert Prod(A[i], v)(j) == At(A[i], j) * At(v, j);
      }
      SumScale(n, u[i], Prod(A[i], v), Row(FormTerm(A, u, v), i));
    }
    SumExt(n, Prod(u, MatVec(A, v)), Inner(n, FormTerm(A, u, v)));
  }

  /** A symmetric matrix is self-adjoint for the inner product. */
  lemma SelfAdjoint(A: Mat, u: Vec, v: Vec)
    requires |u| == |v| && Square(A, |u|) && Symmetric(A, |u|)
    ensures Dot(u, MatVec(A, v)) == Dot(v, MatVec(A, u))
  {
    var n := |u|;
    FormIsSum2(A, u, v);
    FormIsSum2(A, v, u);
    SumSwap(n, n, FormTerm(A, u, v));
    forall i, j | 0 <= i < n && 0 <= j < n ensures Flip(FormTerm(A, u, v))(i, j) == FormTerm(A, v, u)(i, j) {
      assert A[j][i] == A[i][j];
    }
    Sum2Ext(n, n, Flip(FormTerm(A, u, v)), FormTerm(A, v, u));
  }

  ghost predicate PositiveAt(A: Mat, v: Vec)
    requires Square(A, |v|)
  {
    IsZero(v) || Dot(v, MatVec(A, v)) > 0.0
  }

  ghost predicate PositiveDefinite(A: Mat, n: nat)
    requires Square(A, n)
  {
    forall v: Vec | |v| == n :: PositiveAt(A, v)
  }
}
