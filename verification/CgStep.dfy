/** One conjugate gradient iteration as algebra on vectors, without reference to a run. */
module CgStep {
  import opened Vectors
  import opened ConjugateGradient

  /** u' A v. */
  ghost function Form(A: Mat, u: Vec, v: Vec): real
    requires |u| == |v| && Square(A, |u|)
  {
    Dot(u, MatVec(A, v))
  }

  /** A state on which the loop body yields finite numbers. */
  ghost predicate Steppable(A: Mat, st: State)
  {
    Square(A, |st.p|) && Sized(st, |st.p|) && CanStep(A, st)
  }

  ghost function Beta(A: Mat, st: State): real
    requires Steppable(A, st)
  {
    Dot(Step(A, st).r, Step(A, st).r) / Dot(st.r, st.r)
  }

  lemma StepFacts(A: Mat, st: State)
    requires Steppable(A, st)
    ensures Alpha(A, st) != 0.0
    ensures Alpha(A, st) * Form(A, st.p, st.p) == Dot(st.r, st.r)
    ensures Beta(A, st) * Dot(st.r, st.r) == Dot(Step(A, st).r, Step(A, st).r)
    ensures Step(A, st).p == Axpy(Step(A, st).r, Beta(A, st), st.p)
  {
    var num, den := Dot(st.r, st.r), Form(A, st.p, st.p);
    assert num / den * den == num;
    assert num / den != 0.0;
  }

  /** The inner product of the updated residual with any vector. */
  lemma NewResidualDot(A: Mat, st: State, v: Vec)
    requires Steppable(A, st) && Symmetric(A, |st.p|) && |v| == |st.p|
    ensures Dot(Step(A, st).r, v) == Dot(st.r, v) - Alpha(A, st) * Form(A, st.p, v)
  {
    DotAxpy(st.r, -Alpha(A, st), MatVec(A, st.p), v);
    DotSym(MatVec(A, st.p), v);
    SelfAdjoint(A, v, st.p);
  }

  lemma AxpyRegroup(b: Vec, y: Vec, alpha: real, z: Vec)
    requires |b| == |y| == |z|
    ensures Axpy(Axpy(b, -1.0, y), -alpha, z) == Axpy(b, -1.0, Axpy(y, alpha, z))
  {
  }

  /** The residual recurrence computes the true residual of the new iterate. */
  lemma ResidualKept(A: Mat, b: Vec, st: State)
    requires Steppable(A, st) && |b| == |st.p|
    requires st.r == Axpy(b, -1.0, MatVec(A, st.x))
    ensures Step(A, st).r == Axpy(b, -1.0, MatVec(A, Step(A, st).x))
  {
    MatVecAxpy(A, st.x, Alpha(A, st), st.p);
    AxpyRegroup(b, MatVec(A, st.x), Alpha(A, st), MatVec(A, st.p));
  }

  /** The new residual is orthogonal to the direction just used and stays so for earlier ones. */
  lemma ResidualVsDirection(A: Mat, st: State, v: Vec)
    requires Steppable(A, st) && Symmetric(A, |st.p|) && |v| == |st.p|
    requires Dot(st.r, v) == 0.0 && Form(A, st.p, v) == 0.0
    ensures Dot(Step(A, st).r, v) == 0.0
  {
    NewResidualDot(A, st, v);
  }

  lemma ResidualVsOwnDirection(A: Mat, st: State)
    requires Steppable(A, st) && Symmetric(A, |st.p|)
    requires Dot(st.r, st.p) == Dot(st.r, st.r)
    ensures Dot(Step(A, st).r, st.p) == 0.0
  {
    NewResidualDot(A, st, st.p);
    StepFacts(A, st);
  }

  /** A residual is a combination of two directions. */
  lemma ResidualVsResidual(A: Mat, prev: State, v: Vec)
    requires Steppable(A, prev) && |v| == |prev.p|
    requires Dot(v, prev.p) == 0.0 && Dot(v, Step(A, prev).p) == 0.0
    ensures Dot(v, Step(A, prev).r) == 0.0
  {
    StepFacts(A, prev);
    DotAxpyRight(v, Step(A, prev).r, Beta(A, prev), prev.p);
  }

  lemma DirectionKept(A: Mat, st: State)
    requires Steppable(A, st) && Dot(Step(A, st).r, st.p) == 0.0
    ensures Dot(Step(A, st).r, Step(A, st).p) == Dot(Step(A, st).r, Step(A, st).r)
  {
    StepFacts(A, st);
    DotAxpyRight(Step(A, st).r, Step(A, st).r, Beta(A, st), st.p);
  }

  /** The image of a used direction is a difference of two residuals divided by alpha. */
  lemma ImageOfDirection(A: Mat, st: State, v: Vec)
    requires Steppable(A, st) && |v| == |st.p|
    ensures Alpha(A, st) * Dot(v, MatVec(A, st.p)) == Dot(v, st.r) - Dot(v, Step(A, st).r)
  {
    DotAxpyRight(v, st.r, -Alpha(A, st), MatVec(A, st.p));
  }

  lemma ZeroFactor(a: real, d: real)
    requires a != 0.0 && a * d == 0.0
    ensures d == 0.0
  {
    assert d == a * d / a;
  }

  lemma NewDirectionForm(A: Mat, st: State, v: Vec)
    requires Steppable(A, st) && |v| == |st.p|
    ensures Form(A, Step(A, st).p, v) == Form(A, Step(A, st).r, v) + Beta(A, st) * Form(A, st.p, v)
  {
    StepFacts(A, st);
    DotAxpy(Step(A, st).r, Beta(A, st), st.p, MatVec(A, v));
  }

  /** The new direction is conjugate to a direction `old.p` used before, whose residuals on either
      side are orthogonal to the new residual. */
  lemma DirectionVsDirection(A: Mat, old': State, st: State)
    requires Steppable(A, st) && Steppable(A, old') && |old'.p| == |st.p|
    requires Form(A, st.p, old'.p) == 0.0
    requires Dot(Step(A, st).r, old'.r) == 0.0 && Dot(Step(A, st).r, Step(A, old').r) == 0.0
    ensures Form(A, Step(A, st).p, old'.p) == 0.0
  {
    ImageOfDirection(A, old', Step(A, st).r);
    StepFacts(A, old');
    ZeroFactor(Alpha(A, old'), Form(A, Step(A, st).r, old'.p));
    NewDirectionForm(A, st, old'.p);
  }

  lemma Cancels(alpha: real, beta: real, pAp: real, rr: real, rr': real, d: real)
    requires alpha != 0.0 && alpha * pAp == rr && beta * rr == rr' && alpha * d == -rr'
    ensures d + beta * pAp == 0.0
  {
    assert alpha * (d + beta * pAp) == alpha * d + beta * (alpha * pAp);
    ZeroFactor(alpha, d + beta * pAp);
  }

  lemma DirectionVsOwnDirection(A: Mat, st: State)
    requires Steppable(A, st) && Dot(Step(A, st).r, st.r) == 0.0
    ensures Form(A, Step(A, st).p, st.p) == 0.0
  {
    var r := Step(A, st).r;
    StepFacts(A, st);
    ImageOfDirection(A, st, r);
    NewDirectionForm(A, st, st.p);
    Cancels(Alpha(A, st), Beta(A, st), Form(A, st.p, st.p), Dot(st.r, st.r), Dot(r, r), Form(A, r, st.p));
  }
}
