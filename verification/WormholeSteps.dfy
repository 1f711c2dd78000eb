/** Steps of a ray that circles the wormhole with speed about one: bounds on its slopes, its error and where it
    goes. */
module WormholeSteps {
  import opened Reals
  import opened RayStepping
  import opened StepOrder
  import opened Geodesics

  const STILL := Vec4(0.0, 0.0, 0.0, 0.0)

  function RadialPull(r: real, vo: real): real
  {
    r * (vo * vo)
  }

  function AngularPull(r: real, vr: real, vo: real): real
  {
    Quotient(-2.0 * (r * (vr * vo)), Area(3.0, r))
  }

  /** The acceleration in a wormhole of throat 3 of a ray that does not turn around the axis. */
  function Pull(pos: Vec4, vel: Vec4): Vec4
  {
    Vec4(0.0, RadialPull(pos.r, vel.o), AngularPull(pos.r, vel.r, vel.o), 0.0)
  }

  // ----- Bounds

  lemma AbsTimes(a: real, b: real)
    ensures Abs(a * b) == Abs(a) * Abs(b)
  {
    TimesNonneg(Abs(a), Abs(b));
    assert Times(Abs(a), Abs(b)) == Abs(a) * Abs(b);
    if a < 0.0 && b < 0.0 {
      assert a * b == (-a) * (-b);
    } else if a < 0.0 {
      assert a * b == -((-a) * b);
    } else if b < 0.0 {
      assert a * b == -(a * (-b));
    }
  }

  lemma AbsProduct(a: real, b: real, x: real, y: real)
    requires Abs(a) <= x && Abs(b) <= y
    ensures Abs(a * b) <= x * y
  {
    TimesNonneg(Abs(a), y - Abs(b));
    TimesNonneg(x - Abs(a), y);
    assert Times(Abs(a), y - Abs(b)) == Abs(a) * y - Abs(a) * Abs(b);
    assert Times(x - Abs(a), y) == x * y - Abs(a) * y;
    AbsTimes(a, b);
  }

  lemma QuotientOrder(q: real, x: real, d: real)
    requires d > 0.0 && q * d <= x * d
    ensures q <= x
  {
    if q > x {
      TimesPositive(q - x, d);
    }
  }

  lemma AbsQuotient(a: real, d: real, x: real)
    requires d > 0.0 && Abs(a) <= x * d
    ensures Abs(Quotient(a, d)) <= x
  {
    var q := a / d;
    assert q * d == a;
    QuotientOrder(q, x, d);
    QuotientOrder(-q, x, d);
  }

  lemma AreaBound(r: real)
    requires 3.9 <= r
    ensures Area(3.0, r) >= 24.0
  {
    TimesNonneg(r - 3.9, r);
    assert Times(r - 3.9, r) == r * r - 3.9 * r;
  }

  /** A slope of size up to x along the radius and y along the angle, and without other components. */
  ghost predicate Boxed(k: Vec4, x: real, y: real)
  {
    k.t == 0.0 && k.p == 0.0 && Abs(k.r) <= x && Abs(k.o) <= y
  }

  /** Where the accelerations are bounded. */
  ghost predicate InRegion(pos: Vec4, vel: Vec4)
  {
    && 3.9 <= pos.r <= 4.1 && 1.0 <= pos.o <= 2.0 && pos.p == 0.0 && vel.p == 0.0
    && Abs(vel.r) <= 1.5 && Abs(vel.o) <= 1.25
  }

  lemma RadialBound(r: real, vo: real)
    requires 3.9 <= r <= 4.1 && Abs(vo) <= 1.25
    ensures Abs(RadialPull(r, vo)) <= 7.0
  {
    hide Abs;
    var vv := vo * vo;
    SmallRadius(r);
    AbsProduct(vo, vo, 1.25, 1.25);
    AbsProduct(r, vv, 4.1, 1.5625);
    assert RadialPull(r, vo) == r * vv;
  }

  lemma SmallRadius(r: real)
    requires 3.9 <= r <= 4.1
    ensures Abs(r) <= 4.1
  {
  }

  lemma AbsTwice(x: real)
    ensures Abs(-2.0 * x) == 2.0 * Abs(x)
  {
  }

  lemma AngularBound(r: real, vr: real, vo: real)
    requires 3.9 <= r <= 4.1 && Abs(vr) <= 1.5 && Abs(vo) <= 1.25
    ensures Abs(AngularPull(r, vr, vo)) <= 1.0
  {
    hide Area, Abs;
    var x := vr * vo;
    SmallRadius(r);
    AbsProduct(vr, vo, 1.5, 1.25);
    AbsProduct(r, x, 4.1, 1.875);
    AbsTwice(r * x);
    AreaBound(r);
    AbsQuotient(-2.0 * (r * x), Area(3.0, r), 1.0);
    assert AngularPull(r, vr, vo) == Quotient(-2.0 * (r * x), Area(3.0, r));
  }

  lemma PullBounded(pos: Vec4, vel: Vec4)
    requires InRegion(pos, vel)
    ensures Boxed(Pull(pos, vel), 7.0, 1.0)
  {
    hide RadialPull, AngularPull;
    RadialBound(pos.r, vel.o);
    AngularBound(pos.r, vel.r, vel.o);
  }

  lemma SumBoxed(k: Vec4, l: Vec4, x: real, y: real, x': real, y': real)
    requires Boxed(k, x, y) && Boxed(l, x', y')
    ensures Boxed(k.Plus(l), x + x', y + y')
  {
  }

  lemma ScaledBoxed(k: Vec4, c: real, x: real, y: real, d: real, x': real, y': real)
    requires Boxed(k, x, y) && Abs(c) <= d && x * d <= x' && y * d <= y'
    ensures Boxed(k.Scale(c), x', y')
  {
    AbsProduct(k.r, c, x, d);
    AbsProduct(k.o, c, y, d);
  }

  // ----- A step of length z

  function Second(pos: Vec4, vel: Vec4, z: real, k1: Vec4): Vec4
  {
    Pull(Trial(pos, vel, z / 4.0, k1, z * z / 32.0), vel.Plus(k1.Scale(z / 4.0)))
  }

  function Third(pos: Vec4, vel: Vec4, z: real, k1: Vec4, k2: Vec4): Vec4
  {
    Pull(Trial(pos, vel, z / 2.0, k1.Plus(k2), z * z / 16.0), vel.Plus(k2.Scale(z / 2.0)))
  }

  function LastPoint(k1: Vec4, k2: Vec4, k3: Vec4): Vec4
  {
    k1.Plus(k2.Scale(-1.0)).Plus(k3.Scale(2.0))
  }

  function LastTurn(k1: Vec4, k2: Vec4, k3: Vec4): Vec4
  {
    k1.Plus(k2.Scale(-2.0)).Plus(k3.Scale(2.0))
  }

  function LastAt(pos: Vec4, vel: Vec4, z: real, e: real, l: Vec4, v: Vec4): Vec4
  {
    Pull(Trial(pos, vel, z, l, e), vel.Plus(v.Scale(z)))
  }

  function Last(pos: Vec4, vel: Vec4, z: real, k1: Vec4, k2: Vec4, k3: Vec4): Vec4
  {
    LastAt(pos, vel, z, z * z / 4.0, LastPoint(k1, k2, k3), LastTurn(k1, k2, k3))
  }

  function UnitSlopes(pos: Vec4, vel: Vec4, z: real): Slopes
  {
    var k1 := Pull(pos, vel);
    var k2 := Second(pos, vel, z, k1);
    var k3 := Third(pos, vel, z, k1, k2);
    Slopes(k1, k2, k3, Last(pos, vel, z, k1, k2, k3))
  }

  /** A ray on its way around the wormhole: after a way of length s it has moved and turned by no more than in
      proportion to s. */
  ghost predicate Circling(pos: Vec4, vel: Vec4, s: real)
  {
    && pos.p == 0.0 && vel.p == 0.0
    && Abs(pos.r - 4.0) <= s && Abs(pos.o - 1.5) <= 2.0 * s
    && Abs(vel.r) <= 8.0 * s && Abs(vel.o - 1.0) <= s
  }

  /** A step that fits into the way. */
  ghost predicate Fits(s: real, z: real)
  {
    s >= 0.0 && z >= 0.0 && s + z <= 0.025
  }

  lemma PointInRegion(pos: Vec4, vel: Vec4, s: real, a: Vec4, b: Vec4, d: Vec4)
    requires Circling(pos, vel, s) && 0.0 <= s <= 0.025
    requires Abs(a.r) <= 0.005 && Abs(a.o) <= 0.026 && a.p == 0.0
    requires Boxed(b, 0.01, 0.01) && Boxed(d, 1.2, 0.2)
    ensures InRegion(pos.Plus(a).Plus(b), vel.Plus(d))
  {
  }

  lemma ScaledVelocity(vel: Vec4, c: real, z: real)
    requires Abs(vel.r) <= 0.2 && Abs(vel.o) <= 1.025 && vel.p == 0.0 && 0.0 <= c <= z <= 0.025
    ensures Abs(vel.Scale(c).r) <= 0.2 * z <= 0.005 && Abs(vel.Scale(c).o) <= 1.025 * z <= 0.026
    ensures vel.Scale(c).p == 0.0
  {
    AbsProduct(vel.r, c, 0.2, z);
    AbsProduct(vel.o, c, 1.025, z);
  }

  /** Displacements of a trial point that stay in the region. */
  lemma TrialInRegion(pos: Vec4, vel: Vec4, s: real, z: real, c: real, k: Vec4, e: real, l: Vec4, f: real)
    requires Circling(pos, vel, s) && Fits(s, z) && 0.0 <= c <= z
    requires Boxed(k.Scale(e), 0.01, 0.01) && Boxed(l.Scale(f), 1.2, 0.2)
    ensures InRegion(Trial(pos, vel, c, k, e), vel.Plus(l.Scale(f)))
  {
    hide Vec4.Plus, Vec4.Scale, InRegion, Boxed;
    ScaledVelocity(vel, c, z);
    PointInRegion(pos, vel, s, vel.Scale(c), k.Scale(e), l.Scale(f));
    assert Trial(pos, vel, c, k, e) == pos.Plus(vel.Scale(c)).Plus(k.Scale(e));
  }

  lemma Small(z: real)
    requires 0.0 <= z <= 0.025
    ensures 0.0 <= z * z <= 0.000625
  {
    AbsProduct(z, z, 0.025, 0.025);
    TimesNonneg(z, z);
    assert z * z == Times(z, z);
  }

  lemma SecondBounded(pos: Vec4, vel: Vec4, s: real, z: real, k1: Vec4)
    requires Circling(pos, vel, s) && Fits(s, z) && Boxed(k1, 7.0, 1.0)
    ensures InRegion(Trial(pos, vel, z / 4.0, k1, z * z / 32.0), vel.Plus(k1.Scale(z / 4.0)))
    ensures Boxed(Second(pos, vel, z, k1), 7.0, 1.0)
  {
    hide Boxed, InRegion, Pull, Trial, Vec4.Plus, Vec4.Scale, Circling;
    Small(z);
    ScaledBoxed(k1, z * z / 32.0, 7.0, 1.0, 0.000625, 0.01, 0.01);
    ScaledBoxed(k1, z / 4.0, 7.0, 1.0, 0.025, 1.2, 0.2);
    TrialInRegion(pos, vel, s, z, z / 4.0, k1, z * z / 32.0, k1, z / 4.0);
    PullBounded(Trial(pos, vel, z / 4.0, k1, z * z / 32.0), vel.Plus(k1.Scale(z / 4.0)));
  }

  lemma ThirdBounded(pos: Vec4, vel: Vec4, s: real, z: real, k1: Vec4, k2: Vec4)
    requires Circling(pos, vel, s) && Fits(s, z) && Boxed(k1, 7.0, 1.0) && Boxed(k2, 7.0, 1.0)
    ensures InRegion(Trial(pos, vel, z / 2.0, k1.Plus(k2), z * z / 16.0), vel.Plus(k2.Scale(z / 2.0)))
    ensures Boxed(Third(pos, vel, z, k1, k2), 7.0, 1.0)
  {
    hide Boxed, InRegion, Pull, Trial, Vec4.Plus, Vec4.Scale, Circling;
    Small(z);
    SumBoxed(k1, k2, 7.0, 1.0, 7.0, 1.0);
    ScaledBoxed(k1.Plus(k2), z * z / 16.0, 14.0, 2.0, 0.000625, 0.01, 0.01);
    ScaledBoxed(k2, z / 2.0, 7.0, 1.0, 0.025, 1.2, 0.2);
    TrialInRegion(pos, vel, s, z, z / 2.0, k1.Plus(k2), z * z / 16.0, k2, z / 2.0);
    PullBounded(Trial(pos, vel, z / 2.0, k1.Plus(k2), z * z / 16.0), vel.Plus(k2.Scale(z / 2.0)));
  }

  /** k1 + c k2 + d k3. */
  lemma ThreeBoxed(k1: Vec4, k2: Vec4, k3: Vec4, c: real, d: real, n: real)
    requires Boxed(k1, 7.0, 1.0) && Boxed(k2, 7.0, 1.0) && Boxed(k3, 7.0, 1.0) && n == 1.0 + Abs(c) + Abs(d)
    ensures Boxed(k1.Plus(k2.Scale(c)).Plus(k3.Scale(d)), 7.0 * n, n)
  {
    hide Boxed, Vec4.Plus, Vec4.Scale;
    ScaledBoxed(k2, c, 7.0, 1.0, Abs(c), 7.0 * Abs(c), Abs(c));
    ScaledBoxed(k3, d, 7.0, 1.0, Abs(d), 7.0 * Abs(d), Abs(d));
    SumBoxed(k1, k2.Scale(c), 7.0, 1.0, 7.0 * Abs(c), Abs(c));
    SumBoxed(k1.Plus(k2.Scale(c)), k3.Scale(d), 7.0 + 7.0 * Abs(c), 1.0 + Abs(c), 7.0 * Abs(d), Abs(d));
  }

  lemma LastAtBounded(pos: Vec4, vel: Vec4, s: real, z: real, e: real, l: Vec4, v: Vec4)
    requires Circling(pos, vel, s) && Fits(s, z) && Boxed(l, 28.0, 4.0) && Boxed(v, 35.0, 5.0) && e == z * z / 4.0
    ensures InRegion(Trial(pos, vel, z, l, e), vel.Plus(v.Scale(z)))
    ensures Boxed(LastAt(pos, vel, z, e, l, v), 7.0, 1.0)
  {
    hide Boxed, InRegion, Pull, Trial, Vec4.Plus, Vec4.Scale, Circling;
    Small(z);
    ScaledBoxed(l, e, 28.0, 4.0, 0.00015625, 0.01, 0.01);
    ScaledBoxed(v, z, 35.0, 5.0, 0.025, 1.2, 0.2);
    TrialInRegion(pos, vel, s, z, z, l, e, v, z);
    PullBounded(Trial(pos, vel, z, l, e), vel.Plus(v.Scale(z)));
  }

  lemma LastBounded(pos: Vec4, vel: Vec4, s: real, z: real, k1: Vec4, k2: Vec4, k3: Vec4)
    requires Circling(pos, vel, s) && Fits(s, z) && Boxed(k1, 7.0, 1.0) && Boxed(k2, 7.0, 1.0) && Boxed(k3, 7.0, 1.0)
    ensures Boxed(Last(pos, vel, z, k1, k2, k3), 7.0, 1.0)
  {
    hide Boxed, LastAt, Circling, LastPoint, LastTurn;
    LastVectors(k1, k2, k3);
    LastAtBounded(pos, vel, s, z, z * z / 4.0, LastPoint(k1, k2, k3), LastTurn(k1, k2, k3));
  }

  lemma LastVectors(k1: Vec4, k2: Vec4, k3: Vec4)
    requires Boxed(k1, 7.0, 1.0) && Boxed(k2, 7.0, 1.0) && Boxed(k3, 7.0, 1.0)
    ensures Boxed(LastPoint(k1, k2, k3), 28.0, 4.0) && Boxed(LastTurn(k1, k2, k3), 35.0, 5.0)
  {
    hide Boxed, Vec4.Plus, Vec4.Scale;
    ThreeBoxed(k1, k2, k3, -1.0, 2.0, 4.0);
    ThreeBoxed(k1, k2, k3, -2.0, 2.0, 5.0);
  }

  ghost predicate AllBoxed(k: Slopes)
  {
    Boxed(k.k1, 7.0, 1.0) && Boxed(k.k2, 7.0, 1.0) && Boxed(k.k3, 7.0, 1.0) && Boxed(k.k4, 7.0, 1.0)
  }

  lemma CirclingInRegion(pos: Vec4, vel: Vec4, s: real)
    requires Circling(pos, vel, s) && Fits(s, 0.0)
    ensures InRegion(pos, vel)
  {
  }

  lemma SlopesBounded(pos: Vec4, vel: Vec4, s: real, z: real)
    requires Circling(pos, vel, s) && Fits(s, z)
    ensures AllBoxed(UnitSlopes(pos, vel, z))
  {
    hide Boxed, InRegion, Pull, Trial, Circling, Second, Third, Last;
    var k := UnitSlopes(pos, vel, z);
    CirclingInRegion(pos, vel, s);
    PullBounded(pos, vel);
    SecondBounded(pos, vel, s, z, k.k1);
    ThirdBounded(pos, vel, s, z, k.k1, k.k2);
    LastBounded(pos, vel, s, z, k.k1, k.k2, k.k3);
  }

  lemma TotalsBoxed(k: Slopes)
    requires AllBoxed(k)
    ensures Boxed(Total4(k), 84.0, 12.0) && Boxed(Total3(k), 63.0, 9.0) && Boxed(TotalTurn(k), 42.0, 6.0)
  {
    hide Boxed, Vec4.Plus, Vec4.Scale;
    ScaledBoxed(k.k2, 8.0, 7.0, 1.0, 8.0, 56.0, 8.0);
    ScaledBoxed(k.k3, 2.0, 7.0, 1.0, 2.0, 14.0, 2.0);
    ScaledBoxed(k.k3, 4.0, 7.0, 1.0, 4.0, 28.0, 4.0);
    SumBoxed(k.k1, k.k2.Scale(8.0), 7.0, 1.0, 56.0, 8.0);
    SumBoxed(k.k1.Plus(k.k2.Scale(8.0)), k.k3.Scale(2.0), 63.0, 9.0, 14.0, 2.0);
    SumBoxed(k.k1.Plus(k.k2.Scale(8.0)).Plus(k.k3.Scale(2.0)), k.k4, 77.0, 11.0, 7.0, 1.0);
    SumBoxed(k.k2.Scale(8.0), k.k4, 56.0, 8.0, 7.0, 1.0);
    SumBoxed(k.k1, k.k3.Scale(4.0), 7.0, 1.0, 28.0, 4.0);
    SumBoxed(k.k1.Plus(k.k3.Scale(4.0)), k.k4, 35.0, 5.0, 7.0, 1.0);
  }

  lemma BoxedSize(d: Vec4, x: real, y: real)
    requires Boxed(d, x, y) && y <= x
    ensures Abs(d.r) <= d.MaxAbs() <= x
  {
  }

  lemma DeviationBoxed(k: Slopes)
    requires AllBoxed(k)
    ensures Boxed(Deviation(k), 7.0, 1.0)
  {
    hide Boxed, Vec4.Plus, Vec4.Scale, Total4, Total3, AllBoxed;
    TotalsBoxed(k);
    ScaledBoxed(Total4(k), 1.0 / 24.0, 84.0, 12.0, 1.0 / 24.0, 3.5, 0.5);
    ScaledBoxed(Total3(k), 1.0 / 18.0, 63.0, 9.0, 1.0 / 18.0, 3.5, 0.5);
    ScaledBoxed(Total3(k).Scale(1.0 / 18.0), -1.0, 3.5, 0.5, 1.0, 3.5, 0.5);
    SumBoxed(Total4(k).Scale(1.0 / 24.0), Total3(k).Scale(1.0 / 18.0).Scale(-1.0), 3.5, 0.5, 3.5, 0.5);
  }

  /** The error of a step of length z is at most 7 z^2. */
  lemma ErrorBounded(k: Slopes, z: real, zz: real)
    requires AllBoxed(k) && zz == z * z
    ensures 0.0 <= StepError(k, z) <= 7.0 * zz
  {
    hide StepError, Deviation, Vec4.MaxAbs, Boxed, AllBoxed;
    ErrorIs(k, z, zz);
    DeviationBoxed(k);
    BoxedSize(Deviation(k), 7.0, 1.0);
    TimesNonneg(z, z);
    assert zz == Times(z, z);
    SquareScaled(Deviation(k).MaxAbs(), zz);
  }

  lemma SquareScaled(d: real, zz: real)
    requires 0.0 <= d <= 7.0 && zz >= 0.0
    ensures 0.0 <= d * zz <= 7.0 * zz
  {
    TimesNonneg(d, zz);
    TimesNonneg(7.0 - d, zz);
    assert Times(d, zz) == d * zz && Times(7.0 - d, zz) == 7.0 * zz - d * zz;
  }

  lemma PointGoesOn(pos: Vec4, vel: Vec4, s: real, z: real, a: Vec4, b: Vec4, d: Vec4)
    requires Circling(pos, vel, s) && Fits(s, z)
    requires Abs(a.r) <= 0.2 * z && Abs(a.o) <= 1.025 * z && a.p == 0.0
    requires Boxed(b, 0.0875 * z, 0.0125 * z) && Boxed(d, 7.0 * z, z)
    ensures Circling(pos.Plus(a).Plus(b), vel.Plus(d), s + z)
  {
  }

  /** An accepted step goes on circling. */
  lemma MovedCircling(pos: Vec4, vel: Vec4, s: real, z: real, k: Slopes)
    requires Circling(pos, vel, s) && Fits(s, z) && AllBoxed(k)
    ensures Circling(MovedPos(pos, vel, k, z), MovedVel(vel, k, z), s + z)
  {
    hide Vec4.Plus, Vec4.Scale, Total4, TotalTurn, MovedPos, MovedVel, AllBoxed, Boxed;
    MovedIs(pos, vel, k, z);
    TotalsBoxed(k);
    ScaledVelocity(vel, z, z);
    ShortSquare(z);
    ScaledBoxed(Total4(k), z * z / 24.0, 84.0, 12.0, 0.025 * z / 24.0, 0.0875 * z, 0.0125 * z);
    ScaledBoxed(TotalTurn(k), z / 6.0, 42.0, 6.0, z / 6.0, 7.0 * z, z);
    PointGoesOn(pos, vel, s, z, vel.Scale(z), Total4(k).Scale(z * z / 24.0), TotalTurn(k).Scale(z / 6.0));
  }

  lemma ShortSquare(z: real)
    requires 0.0 <= z <= 0.025
    ensures Abs(z * z / 24.0) <= 0.025 * z / 24.0 && Abs(z / 6.0) <= z / 6.0 && Abs(z) <= z
  {
    TimesNonneg(z, 0.025 - z);
    TimesNonneg(z, z);
    assert Times(z, z) == z * z && Times(z, 0.025 - z) == 0.025 * z - z * z;
  }

  // ----- The first step

  const FIRST_POS := Vec4(0.0, 4.0, 1.5, 0.0)
  const FIRST_VEL := Vec4(5.0, 0.0, 1.0, 0.0)

  lemma AngularRange(r: real, vr: real, vo: real, low: real, high: real)
    requires 4.0 <= r <= 4.01 && low <= -2.0 * (r * (vr * vo)) <= high <= 0.0
    ensures low / 25.0 <= AngularPull(r, vr, vo) <= high / 25.1
  {
    var a, x := Area(3.0, r), -2.0 * (r * (vr * vo));
    AreaRange(r);
    QuotientRange(x, a, low, high);
  }

  lemma AreaRange(r: real)
    requires 4.0 <= r <= 4.01
    ensures 25.0 <= Area(3.0, r) <= 25.1
  {
    AbsProduct(r, r, 4.01, 4.01);
    TimesNonneg(r - 4.0, r + 4.0);
    assert Times(r - 4.0, r + 4.0) == r * r - 16.0;
  }

  lemma QuotientRange(x: real, a: real, low: real, high: real)
    requires 25.0 <= a <= 25.1 && low <= x <= high <= 0.0
    ensures low / 25.0 <= Quotient(x, a) <= high / 25.1
  {
    var q := x / a;
    assert q * a == x;
    var l, h := low / 25.0, high / 25.1;
    TimesNonneg(-l, a - 25.0);
    assert Times(-l, a - 25.0) == -(l * a) + low;
    QuotientOrder(-q, -l, a);
    TimesNonneg(-h, 25.1 - a);
    assert Times(-h, 25.1 - a) == -high + h * a;
    QuotientOrder(q, h, a);
  }

  lemma FirstSlope()
    ensures Pull(FIRST_POS, FIRST_VEL) == Vec4(0.0, 4.0, 0.0, 0.0)
  {
    var r, vo := 4.0, 1.0;
    assert RadialPull(r, vo) == 4.0;
    assert AngularPull(r, 0.0, vo) == Quotient(0.0, Area(3.0, r));
  }

  lemma FirstSecond(k1: Vec4) returns (k2: Vec4)
    requires k1 == Vec4(0.0, 4.0, 0.0, 0.0)
    ensures k2 == Second(FIRST_POS, FIRST_VEL, 0.025, k1)
    ensures k2.t == 0.0 && k2.p == 0.0 && k2.r == 4.000078125 && -0.0081 <= k2.o <= -0.0079
  {
    hide RadialPull, AngularPull, Second;
    var pos, vel := SecondPoint(k1, 0.025);
    k2 := Pull(pos, vel);
    AngularRange(pos.r, vel.r, vel.o, -0.2001, -0.2);
    RadialIs(pos.r, vel.o);
  }

  lemma RadialIs(r: real, vo: real)
    ensures RadialPull(r, vo) == r * (vo * vo)
  {
  }

  lemma SecondPoint(k1: Vec4, z: real) returns (pos: Vec4, vel: Vec4)
    requires k1 == Vec4(0.0, 4.0, 0.0, 0.0) && z == 0.025
    ensures Second(FIRST_POS, FIRST_VEL, z, k1) == Pull(pos, vel)
    ensures pos.r == 4.000078125 && vel.r == 0.025 && vel.o == 1.0
  {
    hide Pull, Trial, Vec4.Plus, Vec4.Scale;
    pos, vel := Trial(FIRST_POS, FIRST_VEL, z / 4.0, k1, z * z / 32.0), FIRST_VEL.Plus(k1.Scale(z / 4.0));
    SecondAt(k1, 0.00625, 0.00001953125);
  }

  lemma SecondAt(k1: Vec4, c: real, e: real)
    requires k1 == Vec4(0.0, 4.0, 0.0, 0.0) && c == 0.00625 && e == 0.00001953125
    ensures Trial(FIRST_POS, FIRST_VEL, c, k1, e).r == 4.000078125
    ensures FIRST_VEL.Plus(k1.Scale(c)).r == 0.025 && FIRST_VEL.Plus(k1.Scale(c)).o == 1.0
  {
  }

  lemma FirstThird(k1: Vec4, k2: Vec4) returns (k3: Vec4)
    requires k1 == Vec4(0.0, 4.0, 0.0, 0.0)
    requires k2.t == 0.0 && k2.p == 0.0 && k2.r == 4.000078125 && -0.0081 <= k2.o <= -0.0079
    ensures k3 == Third(FIRST_POS, FIRST_VEL, 0.025, k1, k2)
    ensures k3.t == 0.0 && k3.p == 0.0 && 3.999 <= k3.r <= 3.99961 && -0.0162 <= k3.o <= -0.015
  {
    hide RadialPull, AngularPull, Third;
    var pos, vel := ThirdPoint(k1, k2, 0.025);
    k3 := Pull(pos, vel);
    RadialIs(pos.r, vel.o);
    ThirdProducts(pos.r, vel.r, vel.o);
    AngularRange(pos.r, vel.r, vel.o, -0.4003, -0.39);
  }

  lemma ThirdPoint(k1: Vec4, k2: Vec4, z: real) returns (pos: Vec4, vel: Vec4)
    requires k1 == Vec4(0.0, 4.0, 0.0, 0.0) && z == 0.025
    requires k2.t == 0.0 && k2.p == 0.0 && k2.r == 4.000078125 && -0.0081 <= k2.o <= -0.0079
    ensures Third(FIRST_POS, FIRST_VEL, z, k1, k2) == Pull(pos, vel)
    ensures 4.0003 <= pos.r <= 4.00032 && 0.05 <= vel.r <= 0.05001 && 0.99989 <= vel.o <= 0.99991
  {
    hide Pull;
    pos, vel := Trial(FIRST_POS, FIRST_VEL, z / 2.0, k1.Plus(k2), z * z / 16.0), FIRST_VEL.Plus(k2.Scale(z / 2.0));
  }

  lemma ThirdProducts(r: real, vr: real, vo: real)
    requires 4.0003 <= r <= 4.00032 && 0.05 <= vr <= 0.05001 && 0.99989 <= vo <= 0.99991
    ensures 3.999 <= r * (vo * vo) <= 3.99961
    ensures -0.4003 <= -2.0 * (r * (vr * vo)) <= -0.39
  {
    ProductRange(vo, vo, 0.99989, 0.99991, 0.99989, 0.99991);
    ProductRange(r, vo * vo, 4.0003, 4.00032, 0.99978, 0.99982009);
    ProductRange(vr, vo, 0.05, 0.05001, 0.99989, 0.99991);
    ProductRange(r, vr * vo, 4.0003, 4.00032, 0.04999, 0.05001);
  }

  lemma ProductRange(a: real, b: real, low: real, high: real, low': real, high': real)
    requires 0.0 <= low <= a <= high && 0.0 <= low' <= b <= high'
    ensures low * low' <= a * b <= high * high'
  {
    TimesNonneg(a - low, b);
    TimesNonneg(low, b - low');
    TimesNonneg(high - a, b);
    TimesNonneg(high, high' - b);
    assert Times(a - low, b) == a * b - low * b && Times(low, b - low') == low * b - low * low';
    assert Times(high - a, b) == high * b - a * b && Times(high, high' - b) == high * high' - high * b;
  }

  lemma FirstLast(k1: Vec4, k2: Vec4, k3: Vec4) returns (k4: Vec4)
    requires k1 == Vec4(0.0, 4.0, 0.0, 0.0)
    requires k2.r == 4.000078125 && -0.0081 <= k2.o <= -0.0079
    requires 3.999 <= k3.r <= 3.99961 && -0.0162 <= k3.o <= -0.015
    ensures k4 == Last(FIRST_POS, FIRST_VEL, 0.025, k1, k2, k3)
    ensures k4.r >= 3.9975
  {
    hide RadialPull, AngularPull, Last;
    var pos, vel := LastPlace(k1, k2, k3, 0.025);
    k4 := Pull(pos, vel);
    RadialIs(pos.r, vel.o);
    ProductRange(vel.o, vel.o, 0.99958, 2.0, 0.99958, 2.0);
    ProductRange(pos.r, vel.o * vel.o, 4.0012, 5.0, 0.99916, 4.0);
  }

  lemma LastPlace(k1: Vec4, k2: Vec4, k3: Vec4, z: real) returns (pos: Vec4, vel: Vec4)
    requires k1 == Vec4(0.0, 4.0, 0.0, 0.0) && z == 0.025
    requires k2.r == 4.000078125 && -0.0081 <= k2.o <= -0.0079
    requires 3.999 <= k3.r <= 3.99961 && -0.0162 <= k3.o <= -0.015
    ensures Last(FIRST_POS, FIRST_VEL, z, k1, k2, k3) == Pull(pos, vel)
    ensures 4.0012 <= pos.r <= 5.0 && 0.99958 <= vel.o <= 2.0
  {
    hide Pull;
    pos, vel := Trial(FIRST_POS, FIRST_VEL, z, LastPoint(k1, k2, k3), z * z / 4.0),
                FIRST_VEL.Plus(LastTurn(k1, k2, k3).Scale(z));
  }

  /** The error of the first step, of length 0.025, is not zero. */
  lemma FirstError()
    ensures StepError(UnitSlopes(FIRST_POS, FIRST_VEL, 0.025), 0.025) >= 0.000000001
  {
    hide Pull, Second, Third, Last, StepError, Deviation;
    FirstSlope();
    var k1 := Pull(FIRST_POS, FIRST_VEL);
    var k2 := FirstSecond(k1);
    var k3 := FirstThird(k1, k2);
    var k4 := FirstLast(k1, k2, k3);
    var k := Slopes(k1, k2, k3, k4);
    assert UnitSlopes(FIRST_POS, FIRST_VEL, 0.025) == k;
    ErrorIs(k, 0.025, 0.000625);
    FirstDeviation(k);
    DeviationSize(Deviation(k));
  }

  lemma FirstDeviation(k: Slopes)
    requires k.k1.r == 4.0 && k.k2.r == 4.000078125 && k.k3.r <= 3.99961 && k.k4.r >= 3.9975
    ensures Deviation(k).r <= -0.000006
  {
  }

  lemma DeviationSize(d: Vec4)
    requires d.r <= -0.000006
    ensures d.MaxAbs() >= 0.000006
  {
  }
}
