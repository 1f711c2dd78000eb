/** The conjugate gradient loop: one loop body shared by the sparse, dense and checking entry
    points, run for a fixed number of iterations. */
module ConjugateGradient {
  import opened Vectors

  /** The arrays the loop overwrites. */
  datatype State = State(x: Vec, r: Vec, p: Vec)

  datatype Outcome = Finite(st: State) | NotFinite

  ghost predicate Sized(st: State, n: nat)
  {
    |st.x| == n && |st.r| == n && |st.p| == n
  }

  function Start(A: Mat, b: Vec): (st: State)
    requires Square(A, |b|)
    ensures Sized(st, |b|)
  {
    var x := Zeros(|b|);
    var r := Axpy(b, -1.0, MatVec(A, x));
    State(x, r, r)
  }

  /** A step divides by p'Ap and by r'r. */
  predicate CanStep(A: Mat, st: State)
    requires Square(A, |st.p|) && |st.r| == |st.p|
  {
    Dot(st.p, MatVec(A, st.p)) != 0.0 && Dot(st.r, st.r) != 0.0
  }

  function Alpha(A: Mat, st: State): real
    requires Square(A, |st.p|) && |st.r| == |st.p| && CanStep(A, st)
  {
    Dot(st.r, st.r) / Dot(st.p, MatVec(A, st.p))
  }

  function Step(A: Mat, st: State): (st': State)
    requires Square(A, |st.p|) && Sized(st, |st.p|) && CanStep(A, st)
    ensures Sized(st', |st.p|)
  {
    var alpha := Alpha(A, st);
    var r := Axpy(st.r, -alpha, MatVec(A, st.p));
    var x := Axpy(st.x, alpha, st.p);
    var beta := Dot(r, r) / Dot(st.r, st.r);
    State(x, r, Axpy(r, beta, st.p))
  }

  /** The state after k iterations.  A zero divisor makes a quotient infinite or not a number, and
      from then on some array holds entries that are not finite: the run has no exact value. */
  function Run(A: Mat, b: Vec, k: nat): (o: Outcome)
    requires Square(A, |b|)
    ensures o.Finite? ==> Sized(o.st, |b|)
  {
    if k == 0 then Finite(Start(A, b))
    else
      var o := Run(A, b, k - 1);
      if o.Finite? && CanStep(A, o.st) then Finite(Step(A, o.st)) else NotFinite
  }

  /** The loop as written, updating r, x and p in place. */
  method Solve(A: Mat, b: Vec, maxIter: nat) returns (o: Outcome)
    requires Square(A, |b|)
    ensures o == Run(A, b, maxIter)
  {
    hide Dot;
    var x := Zeros(|b|);
    var r := Axpy(b, -1.0, MatVec(A, x));
    var p := r;
    var finite := true;
    for i := 0 to maxIter
      invariant |x| == |r| == |p| == |b|
      invariant Run(A, b, i) == if finite then Finite(State(x, r, p)) else NotFinite
    {
      if finite {
        var Ap := MatVec(A, p);
        var alphaNum := Dot(r, r);
        var alphaDen := Dot(p, Ap);
        if alphaDen == 0.0 || alphaNum == 0.0 {
          finite := false;
        } else {
          var alpha := alphaNum / alphaDen;
          r := Axpy(r, -alpha, Ap);
          x := Axpy(x, alpha, p);
          var betaNum := Dot(r, r);
          var beta := betaNum / alphaNum;
          p := Axpy(r, beta, p);
        }
      }
    }
    o := if finite then Finite(State(x, r, p)) else NotFinite;
  }
}
