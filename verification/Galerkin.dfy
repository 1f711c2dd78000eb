/** What the iterates are, in terms of the system alone: in the span of b, A b, ..., A^(k-1) b, the one vector whose
    residual is orthogonal to all of these powers. */
module Galerkin {
  import opened Sums
  import opened Vectors
  import opened ConjugateGradient
  import opened CgInvariants
  import opened Krylov

  /** The residual of x is orthogonal to the first k powers. */
  ghost predicate ResidualOrthogonal(A: Mat, b: Vec, x: Vec, k: nat)
    requires Square(A, |b|) && |x| == |b|
  {
    forall j: nat | j < k :: Dot(Axpy(b, -1.0, MatVec(A, x)), Power(A, b, j)) == 0.0
  }

  /** The coefficients of a vector in the span of as many powers, with a residual orthogonal to them. */
  ghost predicate SolvesInSpan(A: Mat, b: Vec, c: seq<real>)
    requires Square(A, |b|)
  {
    ResidualOrthogonal(A, b, Combination(c, A, b), |c|)
  }

  function SquaredDifferences(x: Vec, y: Vec): int -> real
  {
    i => (At(x, i) - At(y, i)) * (At(x, i) - At(y, i))
  }

  /** The sum of the squared differences of the entries. */
  function SquaredDistance(x: Vec, y: Vec): real
    requires |x| == |y|
  {
    Sum(|x|, SquaredDifferences(x, y))
  }

  /** The iterate after k steps is such a vector. */
  lemma IterateIsGalerkin(A: Mat, b: Vec, k: nat) returns (c: seq<real>)
    requires Square(A, |b|) && Symmetric(A, |b|) && Live(A, b, k)
    ensures |c| == k && Combination(c, A, b) == StateAt(A, b, k).x && SolvesInSpan(A, b, c)
  {
    hide Combination, Run, Dot, MatVec, Power, StateAt, Live;
    var cp;
    c, cp := StateCoefficients(A, b, k);
    RunKeepsInvariant(A, b, k);
    forall j: nat | j < k ensures Dot(Axpy(b, -1.0, MatVec(A, StateAt(A, b, k).x)), Power(A, b, j)) == 0.0 {
      ResidualVsPower(A, b, j, k);
    }
  }

  /** A vector orthogonal to its own image is zero. */
  lemma NoForm(A: Mat, e: Vec)
    requires Spd(A, |e|) && Dot(e, MatVec(A, e)) == 0.0
    ensures IsZero(e)
  {
    hide Dot;
    assert PositiveAt(A, e);
  }

  /** The difference of two residuals is the image of the difference. */
  lemma ResidualDifference(A: Mat, b: Vec, x: Vec, y: Vec)
    requires Square(A, |b|) && |x| == |y| == |b|
    ensures Axpy(Axpy(b, -1.0, MatVec(A, y)), -1.0, Axpy(b, -1.0, MatVec(A, x))) == MatVec(A, Axpy(x, -1.0, y))
  {
    hide MatVec;
    MatVecAxpy(A, x, -1.0, y);
  }

  /** There is only one such vector. */
  lemma GalerkinUnique(A: Mat, b: Vec, c: seq<real>, d: seq<real>)
    requires Spd(A, |b|) && |c| == |d| && SolvesInSpan(A, b, c) && SolvesInSpan(A, b, d)
    ensures Combination(c, A, b) == Combination(d, A, b)
  {
    hide Combination, Dot, MatVec, Power, Axpy;
    var x, y := Combination(c, A, b), Combination(d, A, b);
    var e := Axpy(x, -1.0, y);
    CombinationSum(c, -1.0, d, A, b);
    ResidualDifference(A, b, x, y);
    forall j: nat | j < |c| ensures Dot(MatVec(A, e), Power(A, b, j)) == 0.0 {
      DotAxpy(Axpy(b, -1.0, MatVec(A, y)), -1.0, Axpy(b, -1.0, MatVec(A, x)), Power(A, b, j));
    }
    DotCombination(MatVec(A, e), AddScaled(c, -1.0, d), A, b);
    DotSym(e, MatVec(A, e));
    NoForm(A, e);
    assert forall i | 0 <= i < |b| :: e[i] == x[i] + -1.0 * y[i];
  }

  lemma DotOfDifference(x: Vec, y: Vec)
    requires |x| == |y|
    ensures Dot(Axpy(x, -1.0, y), Axpy(x, -1.0, y)) == SquaredDistance(x, y)
  {
    var d := Axpy(x, -1.0, y);
    forall i | 0 <= i < |x| ensures Prod(d, d)(i) == SquaredDifferences(x, y)(i) {
      assert d[i] == x[i] - y[i];
    }
    SumExt(|x|, Prod(d, d), SquaredDifferences(x, y));
  }

  /** The squared difference of the iterate is that of every vector that meets the condition, and there is one. */
  lemma IterateDistance(A: Mat, b: Vec, x0: Vec, k: nat) returns (c: seq<real>)
    requires Spd(A, |b|) && |x0| == |b| && Live(A, b, k)
    ensures |c| == k && SolvesInSpan(A, b, c)
    ensures forall c': seq<real> | |c'| == k && SolvesInSpan(A, b, c') ::
      var d := Axpy(x0, -1.0, StateAt(A, b, k).x); Dot(d, d) == SquaredDistance(x0, Combination(c', A, b))
  {
    hide Combination, SolvesInSpan, Dot, MatVec, StateAt, Live, SquaredDistance;
    c := IterateIsGalerkin(A, b, k);
    DotOfDifference(x0, StateAt(A, b, k).x);
    forall c': seq<real> | |c'| == k && SolvesInSpan(A, b, c')
      ensures Combination(c', A, b) == StateAt(A, b, k).x
    {
      GalerkinUnique(A, b, c', c);
    }
  }
}
