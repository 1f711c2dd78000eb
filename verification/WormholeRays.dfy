/** A ray that circles the wormhole as fast as wanted: its first step is rejected as hard as wanted, and it still
    comes to its end. */
module WormholeRays {
  import opened Reals
  import opened RayStepping
  import opened StepOrder
  import opened Geodesics
  import opened WormholeSteps

  const WHITE := Color(1.0, 1.0, 1.0)

  function Fourth(x: real): real
  {
    Times(Times(x, x), Times(x, x))
  }

  ghost predicate IsFourthRoot(fourthRoot: real -> real)
  {
    forall x | x >= 0.0 :: fourthRoot(x) >= 0.0 && Fourth(fourthRoot(x)) == x
  }

  /** A wormhole of throat 3 without objects in front of a white background, traced with tolerance tau^4 for the
      time tau / 2, which is also the length of the first step. */
  ghost predicate WhiteWormhole(sc: Scene, tau: real)
  {
    && 0.0 < tau <= 0.001 && sc.time == tau / 2.0 && sc.tol == Fourth(tau) && IsFourthRoot(sc.fourthRoot)
    && !sc.hasHorizon && sc.objects == [] && (forall d :: sc.background(d) == WHITE)
    && (forall pos: Vec4, vel: Vec4 | pos.r > 0.0 && 0.0 < pos.o < 3.0 && pos.p == 0.0 && vel.p == 0.0 ::
          sc.geodesic(pos, vel) == Pull(pos, vel))
  }

  lemma PullAt(sc: Scene, tau: real, pos: Vec4, vel: Vec4)
    requires WhiteWormhole(sc, tau) && pos.r > 0.0 && 0.0 < pos.o < 3.0 && pos.p == 0.0 && vel.p == 0.0
    ensures sc.geodesic(pos, vel) == Pull(pos, vel)
  {
    hide Pull;
  }

  // ----- A ray w times as fast, with steps w times as short

  lemma RadialScaled(r: real, vo: real, w: real, m: real, vo': real)
    requires m == w * w && vo' == vo * w
    ensures RadialPull(r, vo') == RadialPull(r, vo) * m
  {
    assert vo' * vo' == (vo * vo) * m;
    assert r * ((vo * vo) * m) == r * (vo * vo) * m;
  }

  lemma AngularScaled(r: real, vr: real, vo: real, w: real, m: real, vr': real, vo': real)
    requires m == w * w && vr' == vr * w && vo' == vo * w
    ensures AngularPull(r, vr', vo') == AngularPull(r, vr, vo) * m
  {
    hide Area;
    var x := -2.0 * (r * (vr * vo));
    assert vr' * vo' == (vr * vo) * m;
    assert -2.0 * (r * ((vr * vo) * m)) == x * m;
    QuotientScaled(x, Area(3.0, r), m);
  }

  lemma QuotientScaled(x: real, a: real, m: real)
    ensures Quotient(x * m, a) == Quotient(x, a) * m
  {
    if a != 0.0 {
      var i := 1.0 / a;
      assert x * m / a == x * m * i && x / a == x * i;
    }
  }

  lemma PullScaled(pos: Vec4, vel: Vec4, w: real, m: real)
    requires m == w * w
    ensures Pull(pos, vel.Scale(w)) == Pull(pos, vel).Scale(m)
  {
    hide RadialPull, AngularPull, Vec4.Scale;
    var v := vel.Scale(w);
    ScaledParts(vel, w);
    RadialScaled(pos.r, vel.o, w, m, v.o);
    AngularScaled(pos.r, vel.r, vel.o, w, m, v.r, v.o);
    FlatScaled(RadialPull(pos.r, vel.o), AngularPull(pos.r, vel.r, vel.o), m);
  }

  lemma FlatScaled(x: real, y: real, m: real)
    ensures Vec4(0.0, x, y, 0.0).Scale(m) == Vec4(0.0, x * m, y * m, 0.0)
  {
    StillZero(m);
  }

  lemma ScaledParts(v: Vec4, c: real)
    ensures v.Scale(c).t == v.t * c && v.Scale(c).r == v.r * c && v.Scale(c).o == v.o * c && v.Scale(c).p == v.p * c
  {
  }

  lemma ScaleSum(u: Vec4, v: Vec4, c: real)
    ensures u.Scale(c).Plus(v.Scale(c)) == u.Plus(v).Scale(c)
  {
  }

  lemma ScaleSwap(v: Vec4, a: real, b: real)
    ensures v.Scale(a).Scale(b) == v.Scale(b).Scale(a)
  {
    ScaleTwice(v, a, b, a * b);
    ScaleTwice(v, b, a, a * b);
  }

  lemma TrialScaled(pos: Vec4, vel: Vec4, k: Vec4, w: real, m: real, c: real, c': real, e: real, e': real)
    requires c' == w * c && e' == m * e
    ensures Trial(pos, vel.Scale(w), c, k.Scale(m), e) == Trial(pos, vel, c', k, e')
  {
    hide Vec4.Plus, Vec4.Scale;
    ScaleTwice(vel, w, c, c');
    ScaleTwice(k, m, e, e');
    assert Trial(pos, vel, c', k, e') == pos.Plus(vel.Scale(c')).Plus(k.Scale(e'));
  }

  lemma TurnScaled(vel: Vec4, k: Vec4, w: real, m: real, c: real, c': real)
    requires c' == w * c && m == w * w
    ensures vel.Scale(w).Plus(k.Scale(m).Scale(c)) == vel.Plus(k.Scale(c')).Scale(w)
  {
    hide Vec4.Plus, Vec4.Scale;
    assert m * c == c' * w;
    ScaleTwice(k, m, c, m * c);
    ScaleTwice(k, c', w, m * c);
    ScaleSum(vel, k.Scale(c'), w);
  }

  /** The acceleration at a trial point of the fast ray. */
  lemma FastPull(sc: Scene, tau: real, pos: Vec4, vel: Vec4, k: Vec4, l: Vec4, w: real, m: real,
                 c: real, c': real, e: real, e': real, f: real, f': real)
    requires WhiteWormhole(sc, tau) && m == w * w && c' == w * c && e' == m * e && f' == w * f
    requires InRegion(Trial(pos, vel, c', k, e'), vel.Plus(l.Scale(f')))
    ensures sc.geodesic(Trial(pos, vel.Scale(w), c, k.Scale(m), e), vel.Scale(w).Plus(l.Scale(m).Scale(f)))
         == Pull(Trial(pos, vel, c', k, e'), vel.Plus(l.Scale(f'))).Scale(m)
  {
    hide Vec4.Plus, Pull, Trial, WhiteWormhole;
    TrialScaled(pos, vel, k, w, m, c, c', e, e');
    TurnScaled(vel, l, w, m, f, f');
    var p, v := Trial(pos, vel, c', k, e'), vel.Plus(l.Scale(f'));
    assert v.Scale(w).p == 0.0 by { StillZero(w); }
    PullAt(sc, tau, p, v.Scale(w));
    PullScaled(p, v, w, m);
  }

  lemma StillZero(w: real)
    ensures 0.0 * w == 0.0
  {
  }

  lemma Lengths(w: real, m: real, h: real, z: real)
    requires z == w * h && m == w * w
    ensures z / 4.0 == w * (h / 4.0) && z / 2.0 == w * (h / 2.0)
    ensures z * z / 32.0 == m * (h * h / 32.0) && z * z / 16.0 == m * (h * h / 16.0) && z * z / 4.0 == m * (h * h / 4.0)
    ensures z * z == m * (h * h)
  {
    assert z * z == m * (h * h);
  }

  function ScaleAll(k: Slopes, m: real): Slopes
  {
    Slopes(k.k1.Scale(m), k.k2.Scale(m), k.k3.Scale(m), k.k4.Scale(m))
  }

  lemma FastSecond(sc: Scene, tau: real, pos: Vec4, vel: Vec4, s: real, w: real, m: real, h: real, z: real, k1: Vec4)
    requires WhiteWormhole(sc, tau) && Circling(pos, vel, s) && Fits(s, z) && z == w * h && m == w * w
    requires Boxed(k1, 7.0, 1.0)
    ensures Slope2(sc, pos, vel.Scale(w), h, k1.Scale(m)) == Second(pos, vel, z, k1).Scale(m)
  {
    hide Vec4.Plus, Vec4.Scale, Pull, Trial, WhiteWormhole, InRegion, Boxed, Circling;
    Lengths(w, m, h, z);
    SecondBounded(pos, vel, s, z, k1);
    FastPull(sc, tau, pos, vel, k1, k1, w, m, h / 4.0, z / 4.0, h * h / 32.0, z * z / 32.0, h / 4.0, z / 4.0);
  }

  lemma FastThird(sc: Scene, tau: real, pos: Vec4, vel: Vec4, s: real, w: real, m: real, h: real, z: real,
                  k1: Vec4, k2: Vec4)
    requires WhiteWormhole(sc, tau) && Circling(pos, vel, s) && Fits(s, z) && z == w * h && m == w * w
    requires Boxed(k1, 7.0, 1.0) && Boxed(k2, 7.0, 1.0)
    ensures Slope3(sc, pos, vel.Scale(w), h, k1.Scale(m), k2.Scale(m)) == Third(pos, vel, z, k1, k2).Scale(m)
  {
    hide Vec4.Plus, Vec4.Scale, Pull, Trial, WhiteWormhole, InRegion, Boxed, Circling;
    Lengths(w, m, h, z);
    ThirdBounded(pos, vel, s, z, k1, k2);
    ScaleSum(k1, k2, m);
    FastPull(sc, tau, pos, vel, k1.Plus(k2), k2, w, m, h / 2.0, z / 2.0, h * h / 16.0, z * z / 16.0, h / 2.0, z / 2.0);
  }

  lemma LastScaled(k1: Vec4, k2: Vec4, k3: Vec4, m: real)
    ensures LastPoint(k1.Scale(m), k2.Scale(m), k3.Scale(m)) == LastPoint(k1, k2, k3).Scale(m)
    ensures LastTurn(k1.Scale(m), k2.Scale(m), k3.Scale(m)) == LastTurn(k1, k2, k3).Scale(m)
  {
    hide Vec4.Plus, Vec4.Scale;
    ScaleSwap(k2, m, -1.0);
    ScaleSwap(k2, m, -2.0);
    ScaleSwap(k3, m, 2.0);
    ScaleSum(k1, k2.Scale(-1.0), m);
    ScaleSum(k1, k2.Scale(-2.0), m);
    ScaleSum(k1.Plus(k2.Scale(-1.0)), k3.Scale(2.0), m);
    ScaleSum(k1.Plus(k2.Scale(-2.0)), k3.Scale(2.0), m);
  }

  lemma FastLast(sc: Scene, tau: real, pos: Vec4, vel: Vec4, s: real, w: real, m: real, h: real, z: real,
                 k1: Vec4, k2: Vec4, k3: Vec4)
    requires WhiteWormhole(sc, tau) && Circling(pos, vel, s) && Fits(s, z) && z == w * h && m == w * w
    requires Boxed(k1, 7.0, 1.0) && Boxed(k2, 7.0, 1.0) && Boxed(k3, 7.0, 1.0)
    ensures Slope4(sc, pos, vel.Scale(w), h, k1.Scale(m), k2.Scale(m), k3.Scale(m))
         == Last(pos, vel, z, k1, k2, k3).Scale(m)
  {
    hide Vec4.Plus, Vec4.Scale, Pull, Trial, WhiteWormhole, InRegion, Boxed, Circling, LastPoint, LastTurn;
    Lengths(w, m, h, z);
    var l, v := LastPoint(k1, k2, k3), LastTurn(k1, k2, k3);
    LastVectors(k1, k2, k3);
    LastAtBounded(pos, vel, s, z, z * z / 4.0, l, v);
    FastPull(sc, tau, pos, vel, l, v, w, m, h, z, h * h / 4.0, z * z / 4.0, h, z);
    LastScaled(k1, k2, k3, m);
    Slope4Is(sc, pos, vel.Scale(w), h, k1.Scale(m), k2.Scale(m), k3.Scale(m), h * h / 4.0);
    LastIs(pos, vel, z, k1, k2, k3, z * z / 4.0);
  }

  lemma LastIs(pos: Vec4, vel: Vec4, z: real, k1: Vec4, k2: Vec4, k3: Vec4, e: real)
    requires e == z * z / 4.0
    ensures Last(pos, vel, z, k1, k2, k3)
         == Pull(Trial(pos, vel, z, LastPoint(k1, k2, k3), e), vel.Plus(LastTurn(k1, k2, k3).Scale(z)))
  {
    hide Vec4.Plus, Vec4.Scale, Trial, Pull, LastPoint, LastTurn;
  }

  lemma Slope4Is(sc: Scene, pos: Vec4, vel: Vec4, h: real, k1: Vec4, k2: Vec4, k3: Vec4, e: real)
    requires e == h * h / 4.0
    ensures Slope4(sc, pos, vel, h, k1, k2, k3)
         == sc.geodesic(Trial(pos, vel, h, LastPoint(k1, k2, k3), e), vel.Plus(LastTurn(k1, k2, k3).Scale(h)))
  {
    hide Vec4.Plus, Vec4.Scale, Trial;
  }

  // ----- A step of the fast ray

  lemma FastSlopes(sc: Scene, tau: real, ray: Ray, vel: Vec4, s: real, w: real, m: real, z: real)
    requires WhiteWormhole(sc, tau) && Circling(ray.pos, vel, s) && Fits(s, z) && z == w * ray.dt && m == w * w
    requires ray.vel == vel.Scale(w)
    ensures SlopesOf(sc, ray) == ScaleAll(UnitSlopes(ray.pos, vel, z), m)
    ensures AllBoxed(UnitSlopes(ray.pos, vel, z))
  {
    hide Vec4.Plus, Vec4.Scale, Pull, WhiteWormhole, InRegion, Boxed, Slope2, Slope3, Slope4, Second, Third, Last;
    var k := UnitSlopes(ray.pos, vel, z);
    SlopesBounded(ray.pos, vel, s, z);
    FirstPull(sc, tau, ray.pos, vel, s, w, m);
    FastSecond(sc, tau, ray.pos, vel, s, w, m, ray.dt, z, k.k1);
    FastThird(sc, tau, ray.pos, vel, s, w, m, ray.dt, z, k.k1, k.k2);
    FastLast(sc, tau, ray.pos, vel, s, w, m, ray.dt, z, k.k1, k.k2, k.k3);
  }

  lemma FirstPull(sc: Scene, tau: real, pos: Vec4, vel: Vec4, s: real, w: real, m: real)
    requires WhiteWormhole(sc, tau) && Circling(pos, vel, s) && 0.0 <= s <= 0.025 && m == w * w
    ensures sc.geodesic(pos, vel.Scale(w)) == Pull(pos, vel).Scale(m)
  {
    hide Pull, WhiteWormhole;
    StillZero(w);
    PullAt(sc, tau, pos, vel.Scale(w));
    PullScaled(pos, vel, w, m);
  }

  lemma TotalsScaled(k: Slopes, m: real)
    ensures Total4(ScaleAll(k, m)) == Total4(k).Scale(m) && Total3(ScaleAll(k, m)) == Total3(k).Scale(m)
    ensures TotalTurn(ScaleAll(k, m)) == TotalTurn(k).Scale(m)
  {
    hide Vec4.Plus, Vec4.Scale;
    ScaleSwap(k.k2, m, 8.0);
    ScaleSwap(k.k3, m, 2.0);
    ScaleSwap(k.k3, m, 4.0);
    ScaleSum(k.k1, k.k2.Scale(8.0), m);
    ScaleSum(k.k1.Plus(k.k2.Scale(8.0)), k.k3.Scale(2.0), m);
    ScaleSum(k.k1.Plus(k.k2.Scale(8.0)).Plus(k.k3.Scale(2.0)), k.k4, m);
    ScaleSum(k.k2.Scale(8.0), k.k4, m);
    ScaleSum(k.k1, k.k3.Scale(4.0), m);
    ScaleSum(k.k1.Plus(k.k3.Scale(4.0)), k.k4, m);
  }

  lemma DeviationScaled(k: Slopes, m: real)
    ensures Deviation(ScaleAll(k, m)) == Deviation(k).Scale(m)
  {
    hide Vec4.Plus, Vec4.Scale, Total4, Total3, ScaleAll;
    TotalsScaled(k, m);
    ScaleSwap(Total4(k), m, 1.0 / 24.0);
    ScaleSwap(Total3(k), m, 1.0 / 18.0);
    ScaleSwap(Total3(k).Scale(1.0 / 18.0), m, -1.0);
    ScaleSum(Total4(k).Scale(1.0 / 24.0), Total3(k).Scale(1.0 / 18.0).Scale(-1.0), m);
  }

  lemma SizeScaled(d: Vec4, m: real)
    requires m >= 0.0
    ensures d.Scale(m).MaxAbs() == d.MaxAbs() * m
  {
    hide Max, Abs, Vec4.Scale;
    var e := d.Scale(m);
    ScaledParts(d, m);
    AbsScaled(d.t, m, e.t);
    AbsScaled(d.r, m, e.r);
    AbsScaled(d.o, m, e.o);
    AbsScaled(d.p, m, e.p);
    MaxScaled(Abs(d.t), Abs(d.r), m, Abs(e.t), Abs(e.r));
    MaxScaled(Abs(d.o), Abs(d.p), m, Abs(e.o), Abs(e.p));
    MaxScaled(Max(Abs(d.t), Abs(d.r)), Max(Abs(d.o), Abs(d.p)), m,
              Max(Abs(e.t), Abs(e.r)), Max(Abs(e.o), Abs(e.p)));
  }

  lemma AbsScaled(x: real, m: real, y: real)
    requires m >= 0.0 && y == x * m
    ensures Abs(y) == Abs(x) * m
  {
    AbsTimes(x, m);
  }

  lemma MaxScaled(x: real, y: real, m: real, x': real, y': real)
    requires m >= 0.0 && x' == x * m && y' == y * m
    ensures Max(x', y') == Max(x, y) * m
  {
    if x < y {
      TimesNonneg(y - x, m);
      assert Times(y - x, m) == y' - x';
    } else {
      TimesNonneg(x - y, m);
      assert Times(x - y, m) == x' - y';
    }
  }

  /** The error of a step is that of the slower ray. */
  lemma ErrorScaled(k: Slopes, w: real, m: real, h: real, z: real, zz: real)
    requires z == w * h && m == w * w && zz == z * z
    ensures StepError(ScaleAll(k, m), h) == StepError(k, z)
  {
    hide StepError, Deviation, Vec4.MaxAbs, ScaleAll, Vec4.Scale;
    Lengths(w, m, h, z);
    TimesNonneg(w, w);
    assert m == Times(w, w);
    DeviationScaled(k, m);
    SizeScaled(Deviation(k), m);
    ErrorIs(ScaleAll(k, m), h, h * h);
    ErrorIs(k, z, zz);
    ErrorProduct(Deviation(k).MaxAbs(), m, h * h, zz);
  }

  lemma ErrorProduct(d: real, m: real, hh: real, zz: real)
    requires zz == m * hh
    ensures d * m * hh == d * zz
  {
  }

  /** And so is where it goes. */
  lemma MovedScaled(pos: Vec4, vel: Vec4, k: Slopes, w: real, m: real, h: real, z: real)
    requires z == w * h && m == w * w
    ensures MovedPos(pos, vel.Scale(w), ScaleAll(k, m), h) == MovedPos(pos, vel, k, z)
    ensures MovedVel(vel.Scale(w), ScaleAll(k, m), h) == MovedVel(vel, k, z).Scale(w)
  {
    hide Vec4.Plus, Vec4.Scale, MovedPos, MovedVel, Total4, TotalTurn, ScaleAll;
    MovedIs(pos, vel.Scale(w), ScaleAll(k, m), h);
    MovedIs(pos, vel, k, z);
    TotalsScaled(k, m);
    Lengths(w, m, h, z);
    assert z * z / 24.0 == m * (h * h / 24.0) && z / 6.0 == w * (h / 6.0);
    ScaleTwice(vel, w, h, z);
    ScaleTwice(Total4(k), m, h * h / 24.0, z * z / 24.0);
    TurnScaled(vel, TotalTurn(k), w, m, h / 6.0, z / 6.0);
  }
}
