/** Two light rays launched alike at the wormhole: the radial one ends with its first step, and the circling one
    takes as many steps as wanted, but comes to its end too. */
module WormholeRuns {
  import opened Reals
  import opened RayStepping
  import opened StepOrder
  import opened RayReference
  import opened WormholeSteps
  import opened WormholeRays
  import opened WormholeRace

  /** One fifth to the n. */
  function Fifth(n: nat): (x: real)
    ensures 0.0 < x <= 1.0
  {
    if n == 0 then 1.0 else Fifth(n - 1) / 5.0
  }

  /** The fourth root of the tolerance at which the circling ray takes more than n steps. */
  function Tau(n: nat): (tau: real)
    ensures 0.0 < tau <= 0.001
  {
    Fifth(n) / 1000.0
  }

  function Pace(n: nat): (w: real)
    ensures w > 0.0 && w * Tau(n) == 0.05
  {
    0.05 / Tau(n)
  }

  const RADIAL := Vec4(1.0, 1.0, 0.0, 0.0)

  function RadialRay(n: nat): Ray
  {
    Ray(FIRST_POS, RADIAL, 0.0, Tau(n) / 2.0)
  }

  function CirclingRay(n: nat): Ray
  {
    Ray(FIRST_POS, FIRST_VEL.Scale(Pace(n)), 0.0, Tau(n) / 2.0)
  }

  // ----- The radial ray

  lemma AddStill(v: Vec4)
    ensures v.Plus(STILL) == v
  {
  }

  lemma StillScaled(c: real)
    ensures STILL.Scale(c) == STILL
  {
  }

  lemma StillSize()
    ensures STILL.MaxAbs() == 0.0
  {
    assert Abs(0.0) == 0.0 && Max(0.0, 0.0) == 0.0;
  }

  const ALL_STILL := Slopes(STILL, STILL, STILL, STILL)

  lemma StillTotals()
    ensures Total4(ALL_STILL) == STILL && Total3(ALL_STILL) == STILL && TotalTurn(ALL_STILL) == STILL
    ensures Deviation(ALL_STILL) == STILL
  {
    hide Vec4.Plus, Vec4.Scale;
    AddStill(STILL);
    StillScaled(8.0);
    StillScaled(4.0);
    StillScaled(2.0);
    StillScaled(1.0 / 24.0);
    StillScaled(1.0 / 18.0);
    StillScaled(-1.0);
  }

  /** Without acceleration a step of any length is taken. */
  lemma StillStep(sc: Scene, ray: Ray)
    requires SlopesOf(sc, ray) == ALL_STILL && sc.tol > 0.0
    ensures Advance(sc, ray).t == ray.t + ray.dt
  {
    hide Vec4.Plus, Vec4.Scale, Vec4.MaxAbs, SlopesOf, StepError, Tolerance, NextDt, MovedPos, MovedVel, Deviation;
    StillTotals();
    StillSize();
    ErrorIs(ALL_STILL, ray.dt, ray.dt * ray.dt);
    ToleranceAtLeast(sc, ray);
    AcceptedStep(sc, ray);
  }

  lemma RadialPull0(pos: Vec4, vel: Vec4)
    requires vel.o == 0.0
    ensures Pull(pos, vel) == STILL
  {
    assert RadialPull(pos.r, 0.0) == 0.0;
    assert AngularPull(pos.r, vel.r, 0.0) == 0.0;
  }

  /** A trial point of the radial ray. */
  lemma RadialTrial(sc: Scene, tau: real, c: real, e: real, f: real)
    requires WhiteWormhole(sc, tau) && c >= 0.0
    ensures sc.geodesic(Trial(FIRST_POS, RADIAL, c, STILL, e), RADIAL.Plus(STILL.Scale(f))) == STILL
  {
    hide WhiteWormhole, Pull, Vec4.Plus, Vec4.Scale;
    StillScaled(e);
    StillScaled(f);
    AddStill(RADIAL);
    AddStill(FIRST_POS.Plus(RADIAL.Scale(c)));
    RadialPlace(c);
    var pos := FIRST_POS.Plus(RADIAL.Scale(c));
    assert Trial(FIRST_POS, RADIAL, c, STILL, e) == pos;
    PullAt(sc, tau, pos, RADIAL);
    RadialPull0(pos, RADIAL);
  }

  lemma RadialPlace(c: real)
    ensures FIRST_POS.Plus(RADIAL.Scale(c)) == Vec4(c, 4.0 + c, 1.5, 0.0)
  {
  }

  lemma StillVectors()
    ensures STILL.Plus(STILL) == STILL && LastPoint(STILL, STILL, STILL) == STILL
    ensures LastTurn(STILL, STILL, STILL) == STILL
  {
    hide Vec4.Plus, Vec4.Scale;
    AddStill(STILL);
    StillScaled(-1.0);
    StillScaled(-2.0);
    StillScaled(2.0);
  }

  lemma Slope2Is(sc: Scene, pos: Vec4, vel: Vec4, h: real, k1: Vec4, e: real)
    requires e == h * h / 32.0
    ensures Slope2(sc, pos, vel, h, k1) == sc.geodesic(Trial(pos, vel, h / 4.0, k1, e), vel.Plus(k1.Scale(h / 4.0)))
  {
    hide Vec4.Plus, Vec4.Scale, Trial;
  }

  lemma Slope3Is(sc: Scene, pos: Vec4, vel: Vec4, h: real, k1: Vec4, k2: Vec4, e: real)
    requires e == h * h / 16.0
    ensures Slope3(sc, pos, vel, h, k1, k2)
         == sc.geodesic(Trial(pos, vel, h / 2.0, k1.Plus(k2), e), vel.Plus(k2.Scale(h / 2.0)))
  {
    hide Vec4.Plus, Vec4.Scale, Trial;
  }

  lemma RadialSlopes(sc: Scene, tau: real, ray: Ray)
    requires WhiteWormhole(sc, tau) && ray.pos == FIRST_POS && ray.vel == RADIAL && ray.dt >= 0.0
    ensures SlopesOf(sc, ray) == ALL_STILL
  {
    hide WhiteWormhole, Pull, Trial, Vec4.Plus, Vec4.Scale, Slope2, Slope3, Slope4, LastPoint, LastTurn;
    var h := ray.dt;
    PullAt(sc, tau, FIRST_POS, RADIAL);
    RadialPull0(FIRST_POS, RADIAL);
    RadialTrial(sc, tau, h / 4.0, h * h / 32.0, h / 4.0);
    RadialTrial(sc, tau, h / 2.0, h * h / 16.0, h / 2.0);
    RadialTrial(sc, tau, h, h * h / 4.0, h);
    StillVectors();
    Slope2Is(sc, FIRST_POS, RADIAL, h, STILL, h * h / 32.0);
    Slope3Is(sc, FIRST_POS, RADIAL, h, STILL, STILL, h * h / 16.0);
    Slope4Is(sc, FIRST_POS, RADIAL, h, STILL, STILL, STILL, h * h / 4.0);
  }

  lemma RadialEnds(sc: Scene, n: nat)
    requires WhiteWormhole(sc, Tau(n))
    ensures RayAt(sc, RadialRay(n), 1).t == sc.time
  {
    hide Advance, SlopesOf, Fourth, Tau;
    ScenePositive(sc, Tau(n));
    RadialSlopes(sc, Tau(n), RadialRay(n));
    StillStep(sc, RadialRay(n));
    assert RayAt(sc, RadialRay(n), 0) == RadialRay(n);
  }

  // ----- The first step of the circling ray

  /** The factor by which the first step shrinks. */
  lemma FirstGrowth(sc: Scene, d: real, tau: real, err: real, maxerr: real)
    requires IsFourthRoot(sc.fourthRoot) && 0.0 < d <= 1.0 && tau == d / 1000.0
    requires err >= 0.000000001 && maxerr == 5.0 * Fourth(tau)
    ensures err > maxerr && Growth(sc, err, maxerr) <= d
  {
    FourthScaled(0.001, d, 0.000000000001);
    FourthPositive(d);
    FourthOrder(d, 1.0);
    assert Fourth(1.0) == 1.0;
    var f := GrowthRoot(sc, err, maxerr);
    if f > 1.25 * d {
      FourthOrder(1.25 * d, f);
      FourthScaled(1.25, d, 2.44140625);
      TimesNonneg(Fourth(f) - 2.44140625 * Fourth(d), err);
      TimesNonneg(2.44140625 * Fourth(d), err - 0.000000001);
      FirstRootBound(Fourth(f), Fourth(d), err);
      assert false;
    }
  }

  lemma FirstRootBound(ff: real, dd: real, err: real)
    requires Times(ff - 2.44140625 * dd, err) >= 0.0 && Times(2.44140625 * dd, err - 0.000000001) >= 0.0
    ensures ff * err >= 0.00000000244140625 * dd
  {
    assert Times(ff - 2.44140625 * dd, err) == ff * err - 2.44140625 * dd * err;
    assert Times(2.44140625 * dd, err - 0.000000001) == 2.44140625 * dd * err - 0.00000000244140625 * dd;
  }

  lemma FirstCircling()
    ensures Circling(FIRST_POS, FIRST_VEL, 0.0) && FIRST_POS.MaxAbs() == 4.0
  {
    assert Abs(0.0) == 0.0 && Abs(4.0) == 4.0 && Abs(1.5) == 1.5;
  }

  /** The error of the first step. */
  lemma FirstStepError(sc: Scene, tau: real, w: real, ray: Ray)
    requires WhiteWormhole(sc, tau) && ray.pos == FIRST_POS && ray.vel == FIRST_VEL.Scale(w)
    requires w * ray.dt == 0.025
    ensures StepError(SlopesOf(sc, ray), ray.dt) >= 0.000000001
  {
    hide WhiteWormhole, SlopesOf, StepError, UnitSlopes, ScaleAll, Circling, Vec4.Scale, AllBoxed;
    FirstCircling();
    var z, m, k := 0.025, w * w, UnitSlopes(FIRST_POS, FIRST_VEL, 0.025);
    assert Fits(0.0, z);
    FastSlopes(sc, tau, ray, FIRST_VEL, 0.0, w, m, z);
    ErrorScaled(k, w, m, ray.dt, z, 0.000625);
    FirstError();
  }

  lemma FirstTolerance(sc: Scene, ray: Ray)
    requires ray.pos == FIRST_POS
    ensures Tolerance(sc, ray) == 5.0 * sc.tol
  {
    hide Vec4.MaxAbs;
    FirstCircling();
  }

  /** The first step is rejected, and the next one is shorter by the factor d at least. */
  lemma FirstShrinks(sc: Scene, d: real, tau: real, w: real, ray: Ray)
    requires WhiteWormhole(sc, tau) && 0.0 < d <= 0.2 && tau == d / 1000.0
    requires ray.pos == FIRST_POS && ray.vel == FIRST_VEL.Scale(w) && ray.t == 0.0 && ray.dt == tau / 2.0
    requires w * tau == 0.05
    ensures Advance(sc, ray).t == 0.0 && Advance(sc, ray).dt <= Times(d, tau / 2.0)
  {
    hide *;
    ScenePositive(sc, tau);
    HalfPace(w, tau);
    FirstStepError(sc, tau, w, ray);
    FirstTolerance(sc, ray);
    var err, maxerr := StepError(SlopesOf(sc, ray), ray.dt), Tolerance(sc, ray);
    FirstGrowth(sc, d, tau, err, maxerr);
    GrowthNonneg(sc, err, maxerr);
    RejectedStep(sc, ray);
    DtAfterReject(sc, Growth(sc, err, maxerr), d, tau / 2.0);
  }

  lemma HalfPace(w: real, tau: real)
    requires w * tau == 0.05
    ensures w * (tau / 2.0) == 0.025
  {
    assert w * (tau / 2.0) == w * tau / 2.0;
  }

  lemma DtAfterReject(sc: Scene, q: real, d: real, h: real)
    requires 0.0 <= q <= d <= 0.2 && h > 0.0 && sc.time == h
    ensures NextDt(sc, q, h, 0.0) <= Times(d, h)
  {
    TimesNonneg(d - q, h);
    assert Times(d - q, h) == Times(d, h) - q * h;
    TimesNonneg(0.2 - d, h);
    assert Times(0.2 - d, h) == 0.2 * h - Times(d, h);
  }

  // ----- Growing back

  /** After some steps the time is at most a quarter of c, and the next step at most c. */
  ghost predicate Behind(ray: Ray, c: real)
  {
    ray.t <= c / 4.0 && ray.dt <= c
  }

  lemma BehindStep(sc: Scene, ray: Ray, c: real)
    requires Behind(ray, c) && ray.dt >= 0.0 && ray.t + ray.dt <= sc.time
    ensures Behind(Advance(sc, ray), 5.0 * c)
  {
    hide SlopesOf, StepError, Tolerance, Growth, MovedPos, MovedVel;
    var q := Growth(sc, StepError(SlopesOf(sc, ray), ray.dt), Tolerance(sc, ray));
    GrowthNonneg(sc, StepError(SlopesOf(sc, ray), ray.dt), Tolerance(sc, ray));
    TimesNonneg(5.0 - q, ray.dt);
    assert Times(5.0 - q, ray.dt) == 5.0 * ray.dt - q * ray.dt;
    TimesNonneg(q, ray.dt);
    assert Times(q, ray.dt) == q * ray.dt;
  }

  lemma UnderFits(ray: Ray, vel: Vec4, tau: real, w: real, sigma: real)
    requires Under(ray, vel, tau, w, sigma)
    ensures ray.t >= 0.0 && ray.dt >= 0.0 && ray.t + ray.dt <= tau / 2.0
    ensures ray.dt >= sigma || ray.dt == tau / 2.0 - ray.t
  {
  }

  /** The shortest step of a ray. */
  function Shortest(n: nat): real
  {
    4.0 * (Tau(n) * Times(Tau(n), Tau(n)))
  }

  lemma PacedBy(n: nat)
    ensures Paced(Tau(n), Pace(n), Shortest(n)) && Shortest(n) > 0.0
  {
    hide Tau, Pace;
    TimesPositive(Tau(n), Tau(n));
    TimesPositive(Tau(n), Times(Tau(n), Tau(n)));
    assert Times(Tau(n), Times(Tau(n), Tau(n))) == Tau(n) * Times(Tau(n), Tau(n));
  }

  ghost predicate OnItsWay(n: nat, ray: Ray, vel: Vec4)
  {
    Under(ray, vel, Tau(n), Pace(n), Shortest(n))
  }

  lemma StartsUnder(n: nat)
    ensures OnItsWay(n, CirclingRay(n), FIRST_VEL)
  {
    hide Circling, Vec4.Scale, Tau, Pace;
    FirstCircling();
    WayStart(Pace(n));
  }

  lemma WayStart(w: real)
    ensures w * 0.0 == 0.0
  {
  }

  lemma NextOnItsWay(sc: Scene, n: nat, ray: Ray, vel: Vec4) returns (vel': Vec4)
    requires WhiteWormhole(sc, Tau(n)) && OnItsWay(n, ray, vel)
    ensures OnItsWay(n, Advance(sc, ray), vel') && Progress(ray, Advance(sc, ray), Tau(n), Shortest(n))
  {
    hide Advance, Under, WhiteWormhole, Paced, Progress, Tau, Pace, Shortest;
    PacedBy(n);
    vel' := UnderStep(sc, Tau(n), ray, vel, Pace(n), Shortest(n));
  }

  lemma FifthBound(n: nat)
    requires n > 0
    ensures Fifth(n) <= 0.2
  {
  }

  lemma FifthNext(n: nat, j: nat, t: real)
    requires j < n
    ensures Times(Fifth(n - j - 1), t) == 5.0 * Times(Fifth(n - j), t)
  {
    assert Fifth(n - j) == Fifth(n - j - 1) / 5.0;
  }

  /** The ray after its first step and j more. */
  lemma {:induction false} StillBehind(sc: Scene, n: nat, j: nat) returns (vel: Vec4)
    requires WhiteWormhole(sc, Tau(n)) && 0 < n && j <= n
    ensures OnItsWay(n, RayAt(sc, CirclingRay(n), 1 + j), vel)
    ensures Behind(RayAt(sc, CirclingRay(n), 1 + j), Times(Fifth(n - j), Tau(n) / 2.0))
  {
    hide *;
    var start := CirclingRay(n);
    RayAtNext(sc, start, j);
    if j == 0 {
      StartsUnder(n);
      vel := NextOnItsWay(sc, n, start, FIRST_VEL);
      FirstBehind(sc, n);
    } else {
      var before := RayAt(sc, start, j);
      var v := StillBehind(sc, n, j - 1);
      vel := NextOnItsWay(sc, n, before, v);
      OnItsWayFits(n, before, v);
      WormholeTime(sc, Tau(n));
      BehindStep(sc, before, Times(Fifth(n - (j - 1)), Tau(n) / 2.0));
      FifthNext(n, j - 1, Tau(n) / 2.0);
    }
  }

  lemma FirstBehind(sc: Scene, n: nat)
    requires WhiteWormhole(sc, Tau(n)) && 0 < n
    ensures Behind(Advance(sc, CirclingRay(n)), Times(Fifth(n), Tau(n) / 2.0))
  {
    hide Advance, Vec4.Scale, Fifth, Pace, WhiteWormhole, Times;
    FifthBound(n);
    FirstShrinks(sc, Fifth(n), Tau(n), Pace(n), CirclingRay(n));
    HalfPositive(Fifth(n), Tau(n));
  }

  lemma HalfPositive(d: real, tau: real)
    requires d > 0.0 && tau > 0.0
    ensures Times(d, tau / 2.0) > 0.0
  {
    TimesPositive(d, tau / 2.0);
  }

  lemma OnItsWayFits(n: nat, ray: Ray, vel: Vec4)
    requires OnItsWay(n, ray, vel)
    ensures ray.t >= 0.0 && ray.dt >= 0.0 && ray.t + ray.dt <= Tau(n) / 2.0
    ensures ray.dt >= Shortest(n) || ray.dt == Tau(n) / 2.0 - ray.t
  {
    hide Shortest, Tau, Pace;
    UnderFits(ray, vel, Tau(n), Pace(n), Shortest(n));
  }

  lemma WormholeTime(sc: Scene, tau: real)
    requires WhiteWormhole(sc, tau)
    ensures sc.time == tau / 2.0 > 0.0 && sc.tol == Fourth(tau) > 0.0
  {
    FourthPositive(tau);
  }

  // ----- The end

  /** The number of times a unit fits into x. */
  function Fitting(x: real, unit: real): nat
    requires unit > 0.0
  {
    if x < 0.0 then 0 else FloorOf(x, unit)
  }

  function FloorOf(x: real, unit: real): nat
    requires x >= 0.0 && unit > 0.0
  {
    assert x / unit >= 0.0;
    (x / unit).Floor
  }

  lemma FewerFit(x: real, y: real, unit: real)
    requires unit > 0.0 && y >= 0.0 && y <= x - unit
    ensures Fitting(y, unit) < Fitting(x, unit)
  {
    var a, b := x / unit, y / unit;
    assert a * unit == x && b * unit == y;
    if b > a - 1.0 {
      TimesPositive(b - a + 1.0, unit);
    }
  }

  /** The ray has time left and moves in its next step. */
  ghost predicate Moving(sc: Scene, start: Ray, k: nat)
  {
    RayAt(sc, start, k).t < sc.time && RayAt(sc, start, k).dt > 0.0
  }

  lemma IsMoving(sc: Scene, start: Ray, k: nat)
    ensures Moving(sc, start, k) <==> RayAt(sc, start, k).t < sc.time && RayAt(sc, start, k).dt > 0.0
  {
    hide RayAt;
  }

  /** A ray that still moves before step n, and has used up the time at step n. */
  ghost predicate EndsAt(sc: Scene, start: Ray, n: nat)
  {
    RayAt(sc, start, n).t >= sc.time && forall k: nat | k < n :: Moving(sc, start, k)
  }

  /** From a step on its way the ray comes to its end. */
  lemma {:induction false} ComesToEnd(sc: Scene, n: nat, k: nat, vel: Vec4) returns (end: nat)
    requires WhiteWormhole(sc, Tau(n)) && OnItsWay(n, RayAt(sc, CirclingRay(n), k), vel)
    requires Shortest(n) > 0.0
    ensures end >= k && RayAt(sc, CirclingRay(n), end).t == sc.time
    ensures forall j: nat | k <= j < end :: Moving(sc, CirclingRay(n), j)
    decreases Fitting(sc.time - RayAt(sc, CirclingRay(n), k).t, Shortest(n)),
              Fitting(RayAt(sc, CirclingRay(n), k).dt, 0.2 * Shortest(n))
  {
    hide *;
    var sigma, start := Shortest(n), CirclingRay(n);
    var ray := RayAt(sc, start, k);
    OnItsWayFits(n, ray, vel);
    WormholeTime(sc, Tau(n));
    if ray.t == sc.time {
      end := k;
    } else {
      var v := NextOnItsWay(sc, n, ray, vel);
      RayAtNext(sc, start, k);
      IsMoving(sc, start, k);
      var next := Advance(sc, ray);
      OnItsWayFits(n, next, v);
      ProgressIs(ray, next, Tau(n), sigma);
      if next.t == sc.time {
        end := k + 1;
      } else {
        if next.t >= ray.t + sigma {
          FewerFit(sc.time - ray.t, sc.time - next.t, sigma);
        } else {
          FewerFit(ray.dt, next.dt, 0.2 * sigma);
        }
        end := ComesToEnd(sc, n, k + 1, v);
      }
    }
  }

  /** The circling ray ends, after more than n steps. */
  lemma CirclingEnds(sc: Scene, n: nat) returns (end: nat)
    requires WhiteWormhole(sc, Tau(n)) && 0 < n
    ensures end > n + 1 && EndsAt(sc, CirclingRay(n), end)
  {
    hide *;
    PacedBy(n);
    StartsUnder(n);
    RayAtNext(sc, CirclingRay(n), 0);
    end := ComesToEnd(sc, n, 0, FIRST_VEL);
    if end <= n + 1 {
      EarlyTime(sc, n, end);
      assert false;
    }
    EndsWhen(sc, CirclingRay(n), end);
  }

  lemma EndsWhen(sc: Scene, start: Ray, n: nat)
    requires RayAt(sc, start, n).t >= sc.time
    requires forall k: nat | k < n :: Moving(sc, start, k)
    ensures EndsAt(sc, start, n)
  {
    hide RayAt;
  }

  lemma EarlyTime(sc: Scene, n: nat, k: nat)
    requires WhiteWormhole(sc, Tau(n)) && 0 < n && k <= n + 1
    ensures RayAt(sc, CirclingRay(n), k).t < sc.time
  {
    hide *;
    WormholeTime(sc, Tau(n));
    if k == 0 {
      RayAtNext(sc, CirclingRay(n), 0);
      ZeroTime(n);
    } else {
      var vel := StillBehind(sc, n, k - 1);
      BehindIs(RayAt(sc, CirclingRay(n), k), Times(Fifth(n - (k - 1)), Tau(n) / 2.0));
      AtMostHalf(Fifth(n - (k - 1)), Tau(n) / 2.0);
    }
  }

  lemma ZeroTime(n: nat)
    ensures CirclingRay(n).t == 0.0
  {
  }

  lemma BehindIs(ray: Ray, c: real)
    requires Behind(ray, c)
    ensures ray.t <= c / 4.0
  {
  }

  lemma AtMostHalf(d: real, h: real)
    requires 0.0 < d <= 1.0 && h > 0.0
    ensures Times(d, h) / 4.0 < h
  {
    TimesNonneg(1.0 - d, h);
    assert Times(1.0 - d, h) == h - Times(d, h);
  }
}
