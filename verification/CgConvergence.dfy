/** Finite termination, energy descent, and what a fixed iteration count does once the residual has
    reached zero. */
module CgConvergence {
  import opened Reals
  import opened Vectors
  import opened ConjugateGradient
  import opened CgStep
  import opened CgInvariants
  import Bessel
  import opened Krylov
  import opened Galerkin

  ghost function Residuals(A: Mat, b: Vec, k: nat): (rs: seq<Vec>)
    requires Square(A, |b|)
    ensures |rs| == k && forall j | 0 <= j < k :: rs[j] == StateAt(A, b, j).r
  {
    seq(k, j requires 0 <= j < k => StateAt(A, b, j).r)
  }

  lemma ResidualsOrthogonal(A: Mat, b: Vec, k: nat)
    requires Square(A, |b|) && Symmetric(A, |b|) && Live(A, b, k)
    ensures Bessel.OrthogonalFamily(Residuals(A, b, k), |b|)
  {
    var rs := Residuals(A, b, k);
    forall j | 0 <= j < k ensures Dot(rs[j], rs[j]) > 0.0 {
      LiveBefore(A, b, j + 1, k);
      Unfold(A, b, j);
      DotSelf(rs[j]);
    }
    forall i, j | 0 <= i < j < k ensures Dot(rs[i], rs[j]) == 0.0 {
      LiveBefore(A, b, j, k);
      RunKeepsInvariant(A, b, j);
      assert Orthogonal(A, StateAt(A, b, i), StateAt(A, b, j));
      DotSym(rs[i], rs[j]);
    }
  }

  /** A run of length n cannot go on: there would be n + 1 orthogonal residuals. */
  lemma AtMostDimensionSteps(A: Mat, b: Vec, k: nat)
    requires Square(A, |b|) && Symmetric(A, |b|) && Live(A, b, k)
    ensures k <= |b|
  {
    ResidualsOrthogonal(A, b, k);
    Bessel.DimensionBound(|b|, Residuals(A, b, k));
  }

  /** The number of iterations after which the loop has nothing left to divide by. */
  ghost function StepsFrom(A: Mat, b: Vec, k: nat): (s: nat)
    requires Square(A, |b|) && Symmetric(A, |b|) && Live(A, b, k)
    ensures k <= s <= |b| && Live(A, b, s) && !Live(A, b, s + 1)
    decreases |b| - k
  {
    AtMostDimensionSteps(A, b, k);
    if Live(A, b, k + 1) then
      AtMostDimensionSteps(A, b, k + 1);
      StepsFrom(A, b, k + 1)
    else k
  }

  ghost function Steps(A: Mat, b: Vec): (s: nat)
    requires Square(A, |b|) && Symmetric(A, |b|)
    ensures s <= |b| && Live(A, b, s) && !Live(A, b, s + 1)
  {
    StepsFrom(A, b, 0)
  }

  lemma {:induction false} LiveExactlyUpToSteps(A: Mat, b: Vec, k: nat)
    requires Square(A, |b|) && Symmetric(A, |b|)
    ensures Live(A, b, k) <==> k <= Steps(A, b)
  {
    if k <= Steps(A, b) {
      LiveBefore(A, b, k, Steps(A, b));
    } else if Live(A, b, k) {
      LiveBefore(A, b, Steps(A, b) + 1, k);
    }
  }

  ghost function Error(x0: Vec, x: Vec): (d: Vec)
    requires |x0| == |x|
    ensures |d| == |x|
  {
    Axpy(x0, -1.0, x)
  }

  /** The residual is the image of the error. */
  lemma ResidualIsImageOfError(A: Mat, x0: Vec, st: State)
    requires Square(A, |x0|) && Sized(st, |x0|) && st.r == Axpy(MatVec(A, x0), -1.0, MatVec(A, st.x))
    ensures MatVec(A, Error(x0, st.x)) == st.r
  {
    MatVecAxpy(A, x0, -1.0, st.x);
  }

  /** The residual is zero exactly at the solution the right-hand side was built from. */
  lemma SolvedIffResidualZero(A: Mat, x0: Vec, k: nat)
    requires Spd(A, |x0|) && Live(A, MatVec(A, x0), k)
    ensures IsZero(StateAt(A, MatVec(A, x0), k).r) <==> StateAt(A, MatVec(A, x0), k).x == x0
  {
    var b := MatVec(A, x0);
    var st := StateAt(A, b, k);
    RunKeepsInvariant(A, b, k);
    ResidualIsImageOfError(A, x0, st);
    var d := Error(x0, st.x);
    if IsZero(st.r) {
      DotSym(d, st.r);
      DotZero(st.r, d);
      assert PositiveAt(A, d);
      assert forall i | 0 <= i < |x0| :: d[i] == 0.0 && st.x[i] == x0[i];
    }
  }

  lemma NextLiveIffBeforeSteps(A: Mat, b: Vec, k: nat)
    requires Square(A, |b|) && Symmetric(A, |b|) && k <= Steps(A, b)
    ensures Live(A, b, k) && (Live(A, b, k + 1) <==> k != Steps(A, b))
  {
    LiveExactlyUpToSteps(A, b, k);
    LiveExactlyUpToSteps(A, b, k + 1);
  }

  lemma SolvedIffAtSteps(A: Mat, b: Vec, x0: Vec, k: nat)
    requires Spd(A, |x0|) && |b| == |x0| && b == MatVec(A, x0) && k <= Steps(A, b)
    ensures Live(A, b, k) && (StateAt(A, b, k).x == x0 <==> k == Steps(A, b))
  {
    NextLiveIffBeforeSteps(A, b, k);
    StepsWhileResidualNonzero(A, b, k);
    SolvedIffResidualZero(A, x0, k);
  }

  /** For every symmetric positive definite A and every x0, the loop started on b = A x0 reaches x0
      after at most n iterations, not before, and performs 0/0 on every iteration after that. */
  lemma ReachesSolution(A: Mat, b: Vec, x0: Vec, k: nat)
    requires Spd(A, |x0|) && |b| == |x0| && b == MatVec(A, x0)
    ensures Steps(A, b) <= |x0|
    ensures Live(A, b, k) <==> k <= Steps(A, b)
    ensures k <= Steps(A, b) ==> (StateAt(A, b, k).x == x0 <==> k == Steps(A, b))
  {
    LiveExactlyUpToSteps(A, b, k);
    if k <= Steps(A, b) {
      SolvedIffAtSteps(A, b, x0, k);
    }
  }

  /** The number of steps is a property of the system alone: the number of vectors b, A b, A^2 b, ... up to the
      first that depends on the ones before it. */
  lemma StepsAreIndependentPowers(A: Mat, b: Vec, k: nat)
    requires Spd(A, |b|)
    ensures k <= Steps(A, b) <==> Independent(A, b, k)
  {
    LiveExactlyUpToSteps(A, b, k);
    LiveIffIndependent(A, b, k);
  }

  datatype Printed = Difference(value: real) | NaN

  /** The check of the final difference in solutions: the loop, then dot(x0 - x, x0 - x).  With b = A x0, it prints
      a number exactly when b, A b, ..., A^(maxIter-1) b are linearly independent, and otherwise NaN -- in
      particular for every count above n.  The number is the squared distance of x0 to the one vector in the span
      of these powers whose residual is orthogonal to all of them; it is zero exactly when one power more makes
      them dependent. */
  method CheckSolution(A: Mat, x0: Vec, maxIter: nat) returns (res: Printed)
    requires Spd(A, |x0|)
    ensures res.NaN? <==> !Independent(A, MatVec(A, x0), maxIter)
    ensures res == Difference(0.0) <==>
      Independent(A, MatVec(A, x0), maxIter) && !Independent(A, MatVec(A, x0), maxIter + 1)
    ensures res.Difference? ==> res.value >= 0.0
    ensures res.Difference? ==> exists c: seq<real> :: |c| == maxIter && SolvesInSpan(A, MatVec(A, x0), c)
    ensures res.Difference? ==> forall c: seq<real> | |c| == maxIter && SolvesInSpan(A, MatVec(A, x0), c) ::
      res.value == SquaredDistance(x0, Combination(c, A, MatVec(A, x0)))
    ensures maxIter > |x0| ==> res.NaN?
  {
    hide Independent, Steps, Dot, Run, SolvesInSpan, SquaredDistance, Combination;
    var b := MatVec(A, x0);
    var o := Solve(A, b, maxIter);
    ReachesSolution(A, b, x0, maxIter);
    StepsAreIndependentPowers(A, b, maxIter);
    StepsAreIndependentPowers(A, b, maxIter + 1);
    match o
    case NotFinite =>
      res := NaN;
    case Finite(st) =>
      var d := Axpy(x0, -1.0, st.x);
      res := Difference(Dot(d, d));
      NoDifference(x0, st.x);
      ghost var c := IterateDistance(A, b, x0, maxIter);
  }

  /** The squared difference is zero exactly at x0 itself. */
  lemma NoDifference(x0: Vec, x: Vec)
    requires |x0| == |x|
    ensures var d := Axpy(x0, -1.0, x);
      Dot(d, d) >= 0.0 && (Dot(d, d) == 0.0 <==> x == x0)
  {
    var d := Axpy(x0, -1.0, x);
    DotSelf(d);
    if IsZero(d) {
      assert forall i | 0 <= i < |x0| :: d[i] == 0.0 && x[i] == x0[i];
      assert x == x0;
    }
  }

  /** A check that fails on a solvable system: with A = (1) and x0 = (0) the first iteration already
      divides zero by zero. */
  lemma ConvergedSystemBreaksDown()
    ensures Square([[1.0]], 1) && Run([[1.0]], MatVec([[1.0]], [0.0]), 1) == NotFinite
  {
  }

  // ----- Energy

  /** (x0 - x)' A (x0 - x). */
  ghost function ErrorEnergy(A: Mat, x0: Vec, x: Vec): real
    requires |x0| == |x| && Square(A, |x0|)
  {
    Form(A, Error(x0, x), Error(x0, x))
  }

  lemma ErrorStep(x0: Vec, x: Vec, alpha: real, p: Vec)
    requires |x0| == |x| == |p|
    ensures Error(x0, Axpy(x, alpha, p)) == Axpy(Error(x0, x), -alpha, p)
  {
  }

  /** One step lowers the energy by alpha r'r, given what the invariant says of the state. */
  lemma EnergyStep(A: Mat, x0: Vec, st: State)
    requires Square(A, |x0|) && Symmetric(A, |x0|) && Sized(st, |x0|) && Steppable(A, st)
    requires st.r == Axpy(MatVec(A, x0), -1.0, MatVec(A, st.x))
    requires Dot(st.r, st.p) == Dot(st.r, st.r)
    ensures ErrorEnergy(A, x0, Step(A, st).x) == ErrorEnergy(A, x0, st.x) - Alpha(A, st) * Dot(st.r, st.r)
  {
    var d, st' := Error(x0, st.x), Step(A, st);
    ErrorStep(x0, st.x, Alpha(A, st), st.p);
    ResidualKept(A, MatVec(A, x0), st);
    ResidualIsImageOfError(A, x0, st);
    ResidualIsImageOfError(A, x0, st');
    ResidualVsOwnDirection(A, st);
    NewErrorDot(A, st, d);
  }

  /** The inner product of an updated error with the updated residual. */
  lemma NewErrorDot(A: Mat, st: State, d: Vec)
    requires Steppable(A, st) && Symmetric(A, |st.p|) && |d| == |st.p| && MatVec(A, d) == st.r
    requires Dot(st.r, st.p) == Dot(st.r, st.r) && Dot(Step(A, st).r, st.p) == 0.0
    ensures Dot(Axpy(d, -Alpha(A, st), st.p), Step(A, st).r)
         == Dot(d, st.r) - Alpha(A, st) * Dot(st.r, st.r)
  {
    var st' := Step(A, st);
    DotAxpy(d, -Alpha(A, st), st.p, st'.r);
    DotSym(st'.r, st.p);
    NewResidualDot(A, st, d);
    DotSym(d, st'.r);
    DotSym(d, st.r);
    DotSym(st.p, st.r);
  }

  lemma DirectionFormPositive(A: Mat, st: State)
    requires Spd(A, |st.p|) && Steppable(A, st)
    ensures Form(A, st.p, st.p) > 0.0
  {
    assert PositiveAt(A, st.p);
    if IsZero(st.p) {
      DotZero(st.p, MatVec(A, st.p));
    }
  }

  /** The energy one step removes. */
  ghost function EnergyDrop(A: Mat, st: State): real
    requires Steppable(A, st)
  {
    Dot(st.r, st.r) * Dot(st.r, st.r) / Form(A, st.p, st.p)
  }

  lemma DropPositive(A: Mat, st: State)
    requires Spd(A, |st.p|) && Steppable(A, st)
    ensures Form(A, st.p, st.p) > 0.0
    ensures EnergyDrop(A, st) > 0.0
    ensures EnergyDrop(A, st) == Alpha(A, st) * Dot(st.r, st.r)
  {
    DirectionFormPositive(A, st);
    DotSelf(st.r);
    Quotient(Dot(st.r, st.r), Form(A, st.p, st.p));
  }

  lemma Quotient(rr: real, pAp: real)
    requires rr > 0.0 && pAp > 0.0
    ensures rr / pAp * rr == rr * rr / pAp
    ensures rr * rr / pAp > 0.0
  {
    TimesPositive(rr, rr);
    assert rr * rr == Times(rr, rr);
  }

  lemma EnergyStepExact(A: Mat, x0: Vec, st: State)
    requires Spd(A, |x0|) && Sized(st, |x0|) && Steppable(A, st)
    requires st.r == Axpy(MatVec(A, x0), -1.0, MatVec(A, st.x))
    requires Dot(st.r, st.p) == Dot(st.r, st.r)
    ensures EnergyDrop(A, st) > 0.0
    ensures ErrorEnergy(A, x0, Step(A, st).x) == ErrorEnergy(A, x0, st.x) - EnergyDrop(A, st)
  {
    EnergyStep(A, x0, st);
    DropPositive(A, st);
  }

  lemma StateFacts(A: Mat, b: Vec, k: nat)
    requires Square(A, |b|) && Symmetric(A, |b|) && Live(A, b, k + 1)
    ensures Steppable(A, StateAt(A, b, k)) && StateAt(A, b, k + 1) == Step(A, StateAt(A, b, k))
    ensures StateAt(A, b, k).r == Axpy(b, -1.0, MatVec(A, StateAt(A, b, k).x))
    ensures Dot(StateAt(A, b, k).r, StateAt(A, b, k).p) == Dot(StateAt(A, b, k).r, StateAt(A, b, k).r)
  {
    Unfold(A, b, k);
    RunKeepsInvariant(A, b, k);
  }

  /** Each iteration lowers the energy error by exactly (r'r)^2 / p'Ap, a positive amount. */
  lemma EnergyDecreases(A: Mat, b: Vec, x0: Vec, k: nat)
    requires Spd(A, |x0|) && |b| == |x0| && b == MatVec(A, x0) && Live(A, b, k + 1)
    ensures Steppable(A, StateAt(A, b, k)) && EnergyDrop(A, StateAt(A, b, k)) > 0.0
    ensures ErrorEnergy(A, x0, StateAt(A, b, k + 1).x)
         == ErrorEnergy(A, x0, StateAt(A, b, k).x) - EnergyDrop(A, StateAt(A, b, k))
  {
    StateFacts(A, b, k);
    EnergyStepExact(A, x0, StateAt(A, b, k));
  }
}
