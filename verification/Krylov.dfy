/** How many iterations a system needs, in terms of the system alone: as many as the vectors b, A b, A^2 b, ...
    stay linearly independent. */
module Krylov {
  import opened Vectors
  import opened ConjugateGradient
  import opened CgStep
  import opened CgInvariants

  /** A^j b. */
  ghost function Power(A: Mat, b: Vec, j: nat): (v: Vec)
    requires Square(A, |b|)
    ensures |v| == |b|
  {
    if j == 0 then b else MatVec(A, Power(A, b, j - 1))
  }

  /** c_0 b + c_1 A b + ... */
  ghost function Combination(c: seq<real>, A: Mat, b: Vec): (v: Vec)
    requires Square(A, |b|)
    ensures |v| == |b|
  {
    if c == [] then Zeros(|b|)
    else Axpy(Combination(c[..|c| - 1], A, b), c[|c| - 1], Power(A, b, |c| - 1))
  }

  ghost predicate Trivial(c: seq<real>)
  {
    forall i | 0 <= i < |c| :: c[i] == 0.0
  }

  ghost predicate OnlyTrivially(c: seq<real>, A: Mat, b: Vec)
    requires Square(A, |b|)
  {
    IsZero(Combination(c, A, b)) ==> Trivial(c)
  }

  /** b, A b, ..., A^(k-1) b are linearly independent. */
  ghost predicate Independent(A: Mat, b: Vec, k: nat)
    requires Square(A, |b|)
  {
    forall c: seq<real> | |c| == k :: OnlyTrivially(c, A, b)
  }

  // ----- While the run goes on, the powers are independent

  ghost predicate OrthogonalUpTo(A: Mat, b: Vec, w: Vec, j: nat)
    requires Square(A, |b|) && |w| == |b|
  {
    forall i | 0 <= i <= j :: Dot(w, StateAt(A, b, i).r) == 0.0
  }

  /** A w against direction i, from w against the residuals before and after step i. */
  lemma AgainstDirection(A: Mat, b: Vec, w: Vec, i: nat)
    requires Square(A, |b|) && Symmetric(A, |b|) && |w| == |b| && Live(A, b, i + 1)
    ensures Steppable(A, StateAt(A, b, i))
    ensures Alpha(A, StateAt(A, b, i)) * Dot(MatVec(A, w), StateAt(A, b, i).p)
         == Dot(w, StateAt(A, b, i).r) - Dot(w, StateAt(A, b, i + 1).r)
  {
    hide Dot, Run, Step;
    Unfold(A, b, i);
    var st := StateAt(A, b, i);
    ImageOfDirection(A, st, w);
    SelfAdjoint(A, w, st.p);
    DotSym(MatVec(A, w), st.p);
  }

  lemma OrthogonalToDirection(A: Mat, b: Vec, w: Vec, i: nat)
    requires Square(A, |b|) && Symmetric(A, |b|) && |w| == |b| && Live(A, b, i + 1)
    requires Dot(w, StateAt(A, b, i).r) == 0.0 && Dot(w, StateAt(A, b, i + 1).r) == 0.0
    ensures Dot(MatVec(A, w), StateAt(A, b, i).p) == 0.0
  {
    hide Dot, Run;
    AgainstDirection(A, b, w, i);
    StepFacts(A, StateAt(A, b, i));
    ZeroFactor(Alpha(A, StateAt(A, b, i)), Dot(MatVec(A, w), StateAt(A, b, i).p));
  }

  /** A residual is a combination of two directions, and the first is a direction. */
  lemma ResidualByDirections(A: Mat, b: Vec, v: Vec, i: nat)
    requires Square(A, |b|) && |v| == |b| && Live(A, b, i)
    requires i > 0 ==> Dot(v, StateAt(A, b, i - 1).p) == 0.0
    ensures Dot(v, StateAt(A, b, i).r) == Dot(v, StateAt(A, b, i).p)
  {
    hide Dot, Step;
    if i > 0 {
      Unfold(A, b, i - 1);
      var st := StateAt(A, b, i - 1);
      StepFacts(A, st);
      DotAxpyRight(v, Step(A, st).r, Beta(A, st), st.p);
    }
  }

  /** If w is orthogonal to one more residual, then so is A w to all the residuals before. */
  lemma ImageOrthogonal(A: Mat, b: Vec, w: Vec, j: nat)
    requires Square(A, |b|) && Symmetric(A, |b|) && |w| == |b| && Live(A, b, j + 1)
    requires OrthogonalUpTo(A, b, w, j + 1)
    ensures OrthogonalUpTo(A, b, MatVec(A, w), j)
  {
    hide Dot, Run, Step;
    forall i: nat | i <= j ensures Dot(MatVec(A, w), StateAt(A, b, i).r) == 0.0 {
      LiveBefore(A, b, i + 1, j + 1);
      LiveBefore(A, b, i, j + 1);
      OrthogonalToDirection(A, b, w, i);
      if i > 0 {
        OrthogonalToDirection(A, b, w, i - 1);
      }
      ResidualByDirections(A, b, MatVec(A, w), i);
    }
  }

  /** A vector orthogonal to the residuals up to j is orthogonal to A^j b. */
  lemma {:induction false} PowerInResiduals(A: Mat, b: Vec, w: Vec, j: nat)
    requires Square(A, |b|) && Symmetric(A, |b|) && |w| == |b| && Live(A, b, j)
    requires OrthogonalUpTo(A, b, w, j)
    ensures Dot(w, Power(A, b, j)) == 0.0
    decreases j
  {
    hide Dot, Run, Step;
    if j == 0 {
      FirstResidual(A, b);
    } else {
      ImageOrthogonal(A, b, w, j - 1);
      LiveBefore(A, b, j - 1, j);
      PowerInResiduals(A, b, MatVec(A, w), j - 1);
      SelfAdjoint(A, w, Power(A, b, j - 1));
      DotSym(MatVec(A, w), Power(A, b, j - 1));
    }
  }

  lemma FirstResidual(A: Mat, b: Vec)
    requires Square(A, |b|)
    ensures Live(A, b, 0) && StateAt(A, b, 0).r == StateAt(A, b, 0).p == b
    ensures StateAt(A, b, 0).x == Zeros(|b|)
  {
    forall i | 0 <= i < |b| ensures MatVec(A, Zeros(|b|))[i] == 0.0 {
      DotSym(A[i], Zeros(|b|));
      DotZero(Zeros(|b|), A[i]);
    }
    assert Axpy(b, -1.0, MatVec(A, Zeros(|b|))) == b;
  }

  /** Later residuals are orthogonal to earlier powers. */
  lemma ResidualVsPower(A: Mat, b: Vec, j: nat, m: nat)
    requires Square(A, |b|) && Symmetric(A, |b|) && Live(A, b, m) && j < m
    ensures Dot(StateAt(A, b, m).r, Power(A, b, j)) == 0.0
  {
    hide Dot, Run, Step;
    RunKeepsInvariant(A, b, m);
    LiveBefore(A, b, j, m);
    forall i | 0 <= i <= j ensures Dot(StateAt(A, b, m).r, StateAt(A, b, i).r) == 0.0 {
      assert Orthogonal(A, StateAt(A, b, i), StateAt(A, b, m));
    }
    PowerInResiduals(A, b, StateAt(A, b, m).r, j);
  }

  /** A residual that is not zero is not orthogonal to its own power. */
  lemma {:induction false} ResidualVsOwnPower(A: Mat, b: Vec, m: nat)
    requires Square(A, |b|) && Symmetric(A, |b|) && Live(A, b, m + 1)
    ensures Dot(StateAt(A, b, m).r, Power(A, b, m)) != 0.0
  {
    hide Dot, Run, Step;
    Unfold(A, b, m);
    if m == 0 {
      FirstResidual(A, b);
    } else {
      ResidualVsOwnPower(A, b, m - 1);
      OwnPowerStep(A, b, m - 1);
    }
  }

  lemma OwnPowerStep(A: Mat, b: Vec, m: nat)
    requires Square(A, |b|) && Symmetric(A, |b|) && Live(A, b, m + 2)
    requires Dot(StateAt(A, b, m).r, Power(A, b, m)) != 0.0
    ensures Dot(StateAt(A, b, m + 1).r, Power(A, b, m + 1)) != 0.0
  {
    hide Dot, Run, Step;
    LiveBefore(A, b, m + 1, m + 2);
    Unfold(A, b, m);
    Unfold(A, b, m + 1);
    var K, st, r' := Power(A, b, m), StateAt(A, b, m), StateAt(A, b, m + 1).r;
    // r' . A K = K . A r', and r' = p' - beta p
    SelfAdjoint(A, r', K);
    StepFacts(A, st);
    ResidualVsPower(A, b, m, m + 1);
    ResidualVsPower(A, b, m, m + 2);
    DotSym(K, r');
    DotSym(K, StateAt(A, b, m + 2).r);
    DotSym(K, st.r);
    AgainstDirection(A, b, K, m);
    AgainstDirection(A, b, K, m + 1);
    StepFacts(A, StateAt(A, b, m + 1));
    ZeroFactor(Alpha(A, StateAt(A, b, m + 1)), Dot(MatVec(A, K), StateAt(A, b, m + 1).p));
    DotAxpyRight(MatVec(A, K), r', Beta(A, st), st.p);
    DotSym(r', MatVec(A, K));
    BetaNonzero(A, b, m);
    NonzeroProduct(Alpha(A, st), Beta(A, st), Dot(MatVec(A, K), st.p), Dot(MatVec(A, K), r'), Dot(K, st.r));
  }

  lemma BetaNonzero(A: Mat, b: Vec, m: nat)
    requires Square(A, |b|) && Live(A, b, m + 2)
    ensures Steppable(A, StateAt(A, b, m)) && Beta(A, StateAt(A, b, m)) != 0.0
  {
    hide Dot;
    LiveBefore(A, b, m + 1, m + 2);
    Unfold(A, b, m);
    Unfold(A, b, m + 1);
    StepFacts(A, StateAt(A, b, m));
  }

  lemma NonzeroProduct(alpha: real, beta: real, d: real, e: real, g: real)
    requires alpha * d == g && g != 0.0 && beta != 0.0 && 0.0 == e + beta * d
    ensures e != 0.0
  {
    if e == 0.0 {
      ZeroFactor(beta, d);
    }
  }

  // ----- Independence

  lemma {:induction false} DotCombination(w: Vec, c: seq<real>, A: Mat, b: Vec)
    requires Square(A, |b|) && |w| == |b|
    requires forall j: nat | j < |c| :: Dot(w, Power(A, b, j)) == 0.0
    ensures Dot(w, Combination(c, A, b)) == 0.0
  {
    hide Dot, Power;
    if c == [] {
      DotSym(w, Zeros(|b|));
      DotZero(Zeros(|b|), w);
    } else {
      DotCombination(w, c[..|c| - 1], A, b);
      DotAxpyRight(w, Combination(c[..|c| - 1], A, b), c[|c| - 1], Power(A, b, |c| - 1));
    }
  }

  lemma CombinationStep(c: seq<real>, A: Mat, b: Vec)
    requires Square(A, |b|) && c != []
    ensures Combination(c, A, b)
         == Axpy(Combination(c[..|c| - 1], A, b), c[|c| - 1], Power(A, b, |c| - 1))
  {
    hide Power;
  }

  lemma OnlyLast(r: Vec, init: Vec, c: real, v: Vec)
    requires |r| == |init| == |v| && Dot(r, init) == 0.0 && Dot(r, v) != 0.0 && IsZero(Axpy(init, c, v))
    ensures c == 0.0 && IsZero(init)
  {
    var sum := Axpy(init, c, v);
    DotAxpyRight(r, init, c, v);
    DotSym(r, sum);
    DotZero(sum, r);
    ZeroFactor(Dot(r, v), c);
    assert forall i | 0 <= i < |r| :: sum[i] == init[i] + c * v[i];
  }

  /** The last coefficient of a vanishing combination is zero. */
  lemma LastCoefficient(c: seq<real>, A: Mat, b: Vec)
    requires Square(A, |b|) && Symmetric(A, |b|) && c != [] && Live(A, b, |c|) && IsZero(Combination(c, A, b))
    ensures c[|c| - 1] == 0.0 && IsZero(Combination(c[..|c| - 1], A, b))
  {
    hide Dot, Run, Step, Power, Combination, StateAt, Live;
    var m := |c| - 1;
    LiveBefore(A, b, m, m + 1);
    var r := StateAt(A, b, m).r;
    forall j: nat | j < m ensures Dot(r, Power(A, b, j)) == 0.0 {
      ResidualVsPower(A, b, j, m);
    }
    DotCombination(r, c[..m], A, b);
    ResidualVsOwnPower(A, b, m);
    CombinationStep(c, A, b);
    OnlyLast(r, Combination(c[..m], A, b), c[m], Power(A, b, m));
  }

  lemma {:induction false} LiveIsTrivial(c: seq<real>, A: Mat, b: Vec)
    requires Square(A, |b|) && Symmetric(A, |b|) && Live(A, b, |c|)
    ensures OnlyTrivially(c, A, b)
  {
    hide Dot, Run, Step, Power, Combination;
    if c != [] && IsZero(Combination(c, A, b)) {
      LastCoefficient(c, A, b);
      LiveBefore(A, b, |c| - 1, |c|);
      LiveIsTrivial(c[..|c| - 1], A, b);
    }
  }

  // ----- When the run has ended, they are not

  /** The sum of two coefficient lists of the same length, the second scaled. */
  ghost function AddScaled(c: seq<real>, s: real, d: seq<real>): (e: seq<real>)
    requires |c| == |d|
    ensures |e| == |c| && forall i | 0 <= i < |c| :: e[i] == c[i] + s * d[i]
  {
    seq(|c|, i requires 0 <= i < |c| => c[i] + s * d[i])
  }

  lemma AddScaledInit(c: seq<real>, s: real, d: seq<real>)
    requires |c| == |d| > 0
    ensures var m := |c| - 1;
      && AddScaled(c, s, d)[..m] == AddScaled(c[..m], s, d[..m])
      && AddScaled(c, s, d)[m] == c[m] + s * d[m]
  {
    var m := |c| - 1;
    var e, f := AddScaled(c, s, d)[..m], AddScaled(c[..m], s, d[..m]);
    forall i | 0 <= i < m ensures e[i] == f[i] {
      assert c[..m][i] == c[i] && d[..m][i] == d[i];
    }
  }

  lemma {:induction false} CombinationSum(c: seq<real>, s: real, d: seq<real>, A: Mat, b: Vec)
    requires Square(A, |b|) && |c| == |d|
    ensures Combination(AddScaled(c, s, d), A, b) == Axpy(Combination(c, A, b), s, Combination(d, A, b))
  {
    hide Power, Combination, Axpy, AddScaled;
    if c == [] {
      EmptyCombination(A, b);
      assert AddScaled(c, s, d) == [];
    } else {
      var m := |c| - 1;
      CombinationSum(c[..m], s, d[..m], A, b);
      AddScaledInit(c, s, d);
      CombinationStep(c, A, b);
      CombinationStep(d, A, b);
      CombinationStep(AddScaled(c, s, d), A, b);
      AxpyMix(Combination(c[..m], A, b), c[m], Combination(d[..m], A, b), d[m], s, AddScaled(c, s, d)[m],
              Power(A, b, m));
    }
  }

  lemma EmptyCombination(A: Mat, b: Vec)
    requires Square(A, |b|)
    ensures Combination([], A, b) == Zeros(|b|) && Axpy(Zeros(|b|), 1.0, Zeros(|b|)) == Zeros(|b|)
    ensures forall s :: Axpy(Zeros(|b|), s, Zeros(|b|)) == Zeros(|b|)
  {
  }

  lemma AxpyMix(x: Vec, c: real, y: Vec, d: real, s: real, e: real, v: Vec)
    requires |x| == |y| == |v| && e == c + s * d
    ensures Axpy(Axpy(x, s, y), e, v) == Axpy(Axpy(x, c, v), s, Axpy(y, d, v))
  {
    forall i | 0 <= i < |v|
      ensures Axpy(Axpy(x, s, y), e, v)[i] == Axpy(Axpy(x, c, v), s, Axpy(y, d, v))[i]
    {
      MixEntry(x[i], c, y[i], d, s, v[i]);
    }
  }

  lemma MixEntry(x: real, c: real, y: real, d: real, s: real, v: real)
    ensures (x + s * y) + (c + s * d) * v == (x + c * v) + s * (y + d * v)
  {
  }

  /** One more coefficient, of value zero. */
  lemma Padded(c: seq<real>, A: Mat, b: Vec)
    requires Square(A, |b|)
    ensures Combination(c + [0.0], A, b) == Combination(c, A, b)
  {
    hide Power, Combination;
    CombinationStep(c + [0.0], A, b);
    assert (c + [0.0])[..|c|] == c;
  }

  lemma PrependedSplit(a: real, c: seq<real>)
    requires c != []
    ensures ([a] + c)[..|c|] == [a] + c[..|c| - 1] && ([a] + c)[|c|] == c[|c| - 1]
  {
  }

  /** Multiplying by the matrix moves every coefficient on by one. */
  lemma {:induction false} ShiftedCombination(a: real, c: seq<real>, A: Mat, b: Vec)
    requires Square(A, |b|)
    ensures Combination([a] + c, A, b) == Axpy(MatVec(A, Combination(c, A, b)), a, b)
  {
    hide Combination, MatVec;
    CombinationStep([a] + c, A, b);
    if c == [] {
      SingleCombination(a, A, b);
    } else {
      var m := |c| - 1;
      ShiftedCombination(a, c[..m], A, b);
      CombinationStep(c, A, b);
      PrependedSplit(a, c);
      MatVecAxpy(A, Combination(c[..m], A, b), c[m], Power(A, b, m));
      AxpySwap(MatVec(A, Combination(c[..m], A, b)), a, b, c[m], MatVec(A, Power(A, b, m)));
    }
  }

  lemma SingleCombination(a: real, A: Mat, b: Vec)
    requires Square(A, |b|)
    ensures Combination([a] + [], A, b) == Axpy(MatVec(A, Combination([], A, b)), a, b)
  {
    FirstResidual(A, b);
    assert [a] + [] == [a] && [a][..0] == [];
    EmptyCombination(A, b);
    ZeroImage(A, b);
  }

  lemma ZeroImage(A: Mat, b: Vec)
    requires Square(A, |b|)
    ensures MatVec(A, Zeros(|b|)) == Zeros(|b|)
  {
    forall i | 0 <= i < |b| ensures MatVec(A, Zeros(|b|))[i] == 0.0 {
      DotSym(A[i], Zeros(|b|));
      DotZero(Zeros(|b|), A[i]);
    }
  }

  lemma AxpySwap(x: Vec, a: real, b: Vec, c: real, v: Vec)
    requires |x| == |b| == |v|
    ensures Axpy(Axpy(x, a, b), c, v) == Axpy(Axpy(x, c, v), a, b)
  {
  }

  /** The coefficients of b - A (c_0 b + c_1 A b + ...). */
  ghost function Negated(c: seq<real>): (e: seq<real>)
    ensures |e| == |c|
  {
    seq(|c|, i requires 0 <= i < |c| => -1.0 * c[i])
  }

  lemma ResidualCoefficients(c: seq<real>, A: Mat, b: Vec)
    requires Square(A, |b|)
    ensures Combination([1.0] + Negated(c), A, b) == Axpy(b, -1.0, MatVec(A, Combination(c, A, b)))
  {
    hide Combination, MatVec;
    var zero := seq(|c|, _ => 0.0);
    ZeroCombination(|c|, A, b);
    CombinationSum(zero, -1.0, c, A, b);
    assert AddScaled(zero, -1.0, c) == Negated(c);
    ShiftedCombination(1.0, Negated(c), A, b);
    ZeroImage(A, b);
    MatVecAxpy(A, Zeros(|b|), -1.0, Combination(c, A, b));
    var y := MatVec(A, Combination(c, A, b));
    assert Axpy(Axpy(Zeros(|b|), -1.0, y), 1.0, b) == Axpy(b, -1.0, y);
  }

  lemma {:induction false} ZeroCombination(n: nat, A: Mat, b: Vec)
    requires Square(A, |b|)
    ensures Combination(seq(n, _ => 0.0), A, b) == Zeros(|b|)
  {
    hide Combination, Power;
    if n == 0 {
      EmptyCombination(A, b);
      assert seq(0, _ => 0.0) == [];
    } else {
      ZeroCombination(n - 1, A, b);
      Padded(seq(n - 1, _ => 0.0), A, b);
      assert seq(n, _ => 0.0) == seq(n - 1, _ => 0.0) + [0.0];
    }
  }

  /** The iterate and the direction after k steps are combinations of the first powers. */
  lemma {:induction false} StateCoefficients(A: Mat, b: Vec, k: nat) returns (cx: seq<real>, cp: seq<real>)
    requires Square(A, |b|) && Symmetric(A, |b|) && Live(A, b, k)
    ensures |cx| == k && Combination(cx, A, b) == StateAt(A, b, k).x
    ensures |cp| == k + 1 && Combination(cp, A, b) == StateAt(A, b, k).p
  {
    hide Combination, Run, Step, Dot, MatVec;
    if k == 0 {
      FirstResidual(A, b);
      cx, cp := [], [1.0];
      EmptyCombination(A, b);
      CombinationStep(cp, A, b);
      assert cp[..0] == [];
      assert Axpy(Zeros(|b|), 1.0, b) == b;
    } else {
      Unfold(A, b, k - 1);
      var st := StateAt(A, b, k - 1);
      var x, p := StateCoefficients(A, b, k - 1);
      cx := AddScaled(x + [0.0], Alpha(A, st), p);
      Padded(x, A, b);
      CombinationSum(x + [0.0], Alpha(A, st), p, A, b);
      StepFacts(A, st);
      StepX(A, st);
      RunKeepsInvariant(A, b, k);
      ResidualCoefficients(cx, A, b);
      cp := AddScaled([1.0] + Negated(cx), Beta(A, st), p + [0.0]);
      Padded(p, A, b);
      CombinationSum([1.0] + Negated(cx), Beta(A, st), p + [0.0], A, b);
    }
  }

  lemma StepX(A: Mat, st: State)
    requires Steppable(A, st)
    ensures Step(A, st).x == Axpy(st.x, Alpha(A, st), st.p)
  {
  }

  lemma {:induction false} PaddedMany(c: seq<real>, n: nat, A: Mat, b: Vec)
    requires Square(A, |b|)
    ensures Combination(c + seq(n, _ => 0.0), A, b) == Combination(c, A, b)
  {
    hide Combination;
    if n == 0 {
      assert c + seq(0, _ => 0.0) == c;
    } else {
      PaddedMany(c, n - 1, A, b);
      Padded(c + seq(n - 1, _ => 0.0), A, b);
      assert c + seq(n, _ => 0.0) == c + seq(n - 1, _ => 0.0) + [0.0];
    }
  }

  /** A zero residual is a combination that vanishes with first coefficient 1. */
  lemma ZeroResidualDepends(A: Mat, b: Vec, s: nat, k: nat)
    requires Square(A, |b|) && Symmetric(A, |b|) && Live(A, b, s) && IsZero(StateAt(A, b, s).r) && s < k
    ensures !Independent(A, b, k)
  {
    hide Combination, Run, Step, Dot, MatVec, StateAt;
    RunKeepsInvariant(A, b, s);
    var cx, cp := StateCoefficients(A, b, s);
    ResidualCoefficients(cx, A, b);
    var c := [1.0] + Negated(cx) + seq(k - s - 1, _ => 0.0);
    PaddedMany([1.0] + Negated(cx), k - s - 1, A, b);
    assert |c| == k && c[0] == 1.0;
    assert !OnlyTrivially(c, A, b);
  }

  lemma {:induction false} LastLive(A: Mat, b: Vec, k: nat) returns (s: nat)
    requires Square(A, |b|) && !Live(A, b, k)
    ensures s < k && Live(A, b, s) && !Live(A, b, s + 1)
  {
    hide Step, CanStep;
    if Live(A, b, k - 1) {
      s := k - 1;
    } else {
      s := LastLive(A, b, k - 1);
    }
  }

  /** For a symmetric positive definite matrix, k iterations yield finite numbers exactly when b, A b, ...,
      A^(k-1) b are linearly independent. */
  lemma LiveIffIndependent(A: Mat, b: Vec, k: nat)
    requires Spd(A, |b|)
    ensures Live(A, b, k) <==> Independent(A, b, k)
  {
    hide Combination, Run, Step, Dot, MatVec, StateAt, OnlyTrivially;
    if Live(A, b, k) {
      forall c: seq<real> | |c| == k ensures OnlyTrivially(c, A, b) {
        LiveIsTrivial(c, A, b);
      }
    } else {
      var s := LastLive(A, b, k);
      StepsWhileResidualNonzero(A, b, s);
      ZeroResidualDepends(A, b, s, k);
    }
  }
}
