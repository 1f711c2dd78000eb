/** What every iteration of the conjugate gradient loop keeps: residuals are pairwise orthogonal
    and search directions pairwise conjugate over the whole run, not just between neighbours. */
module CgInvariants {
  import opened Vectors
  import opened ConjugateGradient
  import opened CgStep

  ghost predicate Spd(A: Mat, n: nat)
  {
    Square(A, n) && Symmetric(A, n) && PositiveDefinite(A, n)
  }

  /** The run still holds finite numbers after k iterations. */
  ghost predicate Live(A: Mat, b: Vec, k: nat)
    requires Square(A, |b|)
  {
    Run(A, b, k).Finite?
  }

  /** The arrays after k iterations (the start state once a run has broken down). */
  ghost function StateAt(A: Mat, b: Vec, k: nat): (st: State)
    requires Square(A, |b|)
    ensures Sized(st, |b|)
  {
    if Live(A, b, k) then Run(A, b, k).st else Start(A, b)
  }

  lemma {:induction false} LiveBefore(A: Mat, b: Vec, j: nat, k: nat)
    requires Square(A, |b|) && Live(A, b, k) && j <= k
    ensures Live(A, b, j)
  {
    if j < k {
      LiveBefore(A, b, j, k - 1);
    }
  }

  lemma Unfold(A: Mat, b: Vec, k: nat)
    requires Square(A, |b|) && Live(A, b, k + 1)
    ensures Live(A, b, k) && Steppable(A, StateAt(A, b, k)) && StateAt(A, b, k + 1) == Step(A, StateAt(A, b, k))
  {
  }

  ghost predicate Orthogonal(A: Mat, early: State, late: State)
    requires Square(A, |early.p|) && Sized(early, |early.p|) && Sized(late, |early.p|)
  {
    && Dot(late.r, early.r) == 0.0
    && Dot(late.r, early.p) == 0.0
    && Form(A, late.p, early.p) == 0.0
  }

  /** The invariant of one state against all the earlier states of its run. */
  ghost predicate Inv(A: Mat, b: Vec, k: nat)
    requires Square(A, |b|)
  {
    && StateAt(A, b, k).r == Axpy(b, -1.0, MatVec(A, StateAt(A, b, k).x))
    && Dot(StateAt(A, b, k).r, StateAt(A, b, k).p) == Dot(StateAt(A, b, k).r, StateAt(A, b, k).r)
    && (forall j | 0 <= j < k :: Orthogonal(A, StateAt(A, b, j), StateAt(A, b, k)))
  }

  /** The new residual against direction j. */
  lemma NewResidualVsDirection(A: Mat, b: Vec, j: nat, k: nat)
    requires Square(A, |b|) && Symmetric(A, |b|) && Live(A, b, k + 1) && Inv(A, b, k) && j <= k
    ensures Dot(StateAt(A, b, k + 1).r, StateAt(A, b, j).p) == 0.0
  {
    Unfold(A, b, k);
    if j < k {
      assert Orthogonal(A, StateAt(A, b, j), StateAt(A, b, k));
      ResidualVsDirection(A, StateAt(A, b, k), StateAt(A, b, j).p);
    } else {
      ResidualVsOwnDirection(A, StateAt(A, b, k));
    }
  }

  lemma NewResidualVsResidual(A: Mat, b: Vec, j: nat, k: nat)
    requires Square(A, |b|) && Symmetric(A, |b|) && Live(A, b, k + 1) && Inv(A, b, k) && j <= k
    ensures Dot(StateAt(A, b, k + 1).r, StateAt(A, b, j).r) == 0.0
  {
    NewResidualVsDirection(A, b, j, k);
    if j > 0 {
      LiveBefore(A, b, j, k + 1);
      Unfold(A, b, j - 1);
      NewResidualVsDirection(A, b, j - 1, k);
      ResidualVsResidual(A, StateAt(A, b, j - 1), StateAt(A, b, k + 1).r);
    }
  }

  lemma NewDirectionVsDirection(A: Mat, b: Vec, j: nat, k: nat)
    requires Square(A, |b|) && Symmetric(A, |b|) && Live(A, b, k + 1) && Inv(A, b, k) && j <= k
    ensures Form(A, StateAt(A, b, k + 1).p, StateAt(A, b, j).p) == 0.0
  {
    hide Dot, Run, Step;
    Unfold(A, b, k);
    NewResidualVsResidual(A, b, j, k);
    if j < k {
      assert Orthogonal(A, StateAt(A, b, j), StateAt(A, b, k));
      LiveBefore(A, b, j + 1, k + 1);
      Unfold(A, b, j);
      NewResidualVsResidual(A, b, j + 1, k);
      DirectionVsDirection(A, StateAt(A, b, j), StateAt(A, b, k));
    } else {
      DirectionVsOwnDirection(A, StateAt(A, b, k));
    }
  }

  lemma InvStep(A: Mat, b: Vec, k: nat)
    requires Square(A, |b|) && Symmetric(A, |b|) && Live(A, b, k + 1) && Inv(A, b, k)
    ensures Inv(A, b, k + 1)
  {
    Unfold(A, b, k);
    ResidualKept(A, b, StateAt(A, b, k));
    NewResidualVsDirection(A, b, k, k);
    DirectionKept(A, StateAt(A, b, k));
    forall j | 0 <= j < k + 1 ensures Orthogonal(A, StateAt(A, b, j), StateAt(A, b, k + 1)) {
      NewResidualVsDirection(A, b, j, k);
      NewResidualVsResidual(A, b, j, k);
      NewDirectionVsDirection(A, b, j, k);
    }
  }

  /** For a symmetric matrix and any right-hand side, every state the loop reaches satisfies the
      invariant. */
  lemma {:induction false} RunKeepsInvariant(A: Mat, b: Vec, k: nat)
    requires Square(A, |b|) && Symmetric(A, |b|) && Live(A, b, k)
    ensures Inv(A, b, k)
  {
    if k > 0 {
      Unfold(A, b, k - 1);
      RunKeepsInvariant(A, b, k - 1);
      InvStep(A, b, k - 1);
    }
  }

  /** Over the whole run so far, any two residuals are orthogonal and any two search directions are
      conjugate; every residual is that of its iterate. */
  lemma WholeRun(A: Mat, b: Vec, i: nat, j: nat, k: nat)
    requires Square(A, |b|) && Symmetric(A, |b|) && Live(A, b, k) && i < j <= k
    ensures Dot(StateAt(A, b, i).r, StateAt(A, b, j).r) == 0.0
    ensures Form(A, StateAt(A, b, i).p, StateAt(A, b, j).p) == 0.0
    ensures StateAt(A, b, j).r == Axpy(b, -1.0, MatVec(A, StateAt(A, b, j).x))
  {
    hide Dot, Run;
    LiveBefore(A, b, j, k);
    RunKeepsInvariant(A, b, j);
    assert Orthogonal(A, StateAt(A, b, i), StateAt(A, b, j));
    DotSym(StateAt(A, b, i).r, StateAt(A, b, j).r);
    SelfAdjoint(A, StateAt(A, b, i).p, StateAt(A, b, j).p);
  }

  /** Hence the loop goes on exactly while the residual is not zero: alpha and beta are quotients of
      nonzero numbers until then, and 0/0 at the next iteration. */
  lemma StepsWhileResidualNonzero(A: Mat, b: Vec, k: nat)
    requires Spd(A, |b|) && Live(A, b, k)
    ensures Live(A, b, k + 1) <==> !IsZero(StateAt(A, b, k).r)
  {
    RunKeepsInvariant(A, b, k);
    var r, p := StateAt(A, b, k).r, StateAt(A, b, k).p;
    DotSelf(r);
    if !IsZero(r) {
      if IsZero(p) {
        DotSym(r, p);
        DotZero(p, r);
      }
      assert PositiveAt(A, p);
    }
  }
}
