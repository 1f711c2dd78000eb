/** The circling ray from its first step to its last: the step shrinks as hard as wanted, but never below a
    positive length, so that the ray comes to its end. */
module WormholeRace {
  import opened Reals
  import opened RayStepping
  import opened StepOrder
  import opened WormholeSteps
  import opened WormholeRays

  // ----- Fourth powers

  lemma FourthPositive(r: real)
    requires r > 0.0
    ensures Fourth(r) > 0.0
  {
    TimesPositive(r, r);
    TimesPositive(Times(r, r), Times(r, r));
  }

  lemma TimesOrder(x: real, y: real)
    requires 0.0 <= x <= y
    ensures Times(x, x) <= Times(y, y)
  {
    TimesNonneg(y - x, y + x);
    assert Times(y - x, y + x) == Times(y, y) - Times(x, x);
  }

  lemma FourthOrder(x: real, y: real)
    requires 0.0 <= x <= y
    ensures 0.0 <= Fourth(x) <= Fourth(y)
  {
    TimesOrder(x, y);
    TimesNonneg(x, x);
    TimesOrder(Times(x, x), Times(y, y));
    TimesNonneg(Times(x, x), Times(x, x));
  }

  lemma FourthUnique(x: real, y: real)
    requires x >= 0.0 && y > 0.0 && Fourth(x) == Fourth(y)
    ensures x == y
  {
    TimesNonneg(x, x);
    TimesPositive(y, y);
    SquareUnique(Times(x, x), Times(y, y));
    SquareUnique(x, y);
  }

  lemma FourthScaled(c: real, x: real, c4: real)
    requires c4 == c * c * (c * c)
    ensures Fourth(c * x) == c4 * Fourth(x)
  {
    assert Times(c * x, c * x) == c * c * Times(x, x);
    SquareOfProduct(c * c, Times(x, x));
  }

  lemma SquareOfProduct(a: real, b: real)
    ensures Times(a * b, a * b) == a * a * Times(b, b)
  {
  }

  // ----- Growth of the step

  /** The growth factor against the quotient of tolerance and error. */
  lemma GrowthRoot(sc: Scene, err: real, maxerr: real) returns (f: real)
    requires IsFourthRoot(sc.fourthRoot) && err > 0.0 && maxerr > 0.0
    ensures f >= 0.0 && Fourth(f) * err == maxerr
    ensures 0.0 <= Growth(sc, err, maxerr) <= 0.8 * f
    ensures Growth(sc, err, maxerr) == 0.8 * f || Growth(sc, err, maxerr) == 5.0
  {
    var y := maxerr / err;
    assert y * err == maxerr;
    if y < 0.0 {
      TimesPositive(-y, err);
    }
    f := sc.fourthRoot(y);
  }

  /** The error is at least three quarters of the tolerance when the step would grow by less than a factor g. */
  lemma SmallGrowth(g: real, f: real, err: real, maxerr: real)
    requires f >= 0.0 && g == 0.8 * f && Fourth(f) * err == maxerr
    ensures Fourth(g) * err == 0.4096 * maxerr
  {
    FourthScaled(0.8, f, 0.4096);
    assert Fourth(g) * err == 0.4096 * (Fourth(f) * err);
  }

  /** A rejected step shrinks. */
  lemma RejectShrinks(sc: Scene, err: real, maxerr: real)
    requires IsFourthRoot(sc.fourthRoot) && err > maxerr > 0.0
    ensures Growth(sc, err, maxerr) <= 0.8
  {
    var f := GrowthRoot(sc, err, maxerr);
    if f > 1.0 {
      FourthOrder(1.0, f);
      assert Fourth(1.0) == 1.0;
      TimesNonneg(Fourth(f) - 1.0, err);
      assert false;
    }
  }

  /** The length below which no step falls, in time and in way. */
  ghost predicate Floor(sigma: real, w: real, tau: real)
  {
    sigma > 0.0 && w > 0.0 && tau > 0.0 && w * sigma == Times(tau, tau) / 5.0
  }

  /** A step of the shortest length has an error below the tolerance. */
  lemma FloorError(sigma: real, w: real, tau: real, h: real, z: real, err: real)
    requires Floor(sigma, w, tau) && 0.0 <= h <= sigma && z == w * h && err <= 7.0 * Times(z, z)
    ensures err <= 0.28 * Fourth(tau)
  {
    TimesNonneg(w, h);
    TimesNonneg(w, sigma - h);
    assert Times(w, h) == z && Times(w, sigma - h) == w * sigma - z;
    TimesOrder(z, Times(tau, tau) / 5.0);
    var x := Times(tau, tau);
    assert Times(x / 5.0, x / 5.0) == Times(x, x) / 25.0;
  }

  /** From a step no shorter than the shortest length, the next one is not shorter either. */
  lemma LongEnough(sc: Scene, sigma: real, w: real, tau: real, h: real, z: real, err: real, maxerr: real)
    requires IsFourthRoot(sc.fourthRoot) && Floor(sigma, w, tau) && h >= sigma && z == w * h
    requires 0.0 <= err <= 7.0 * Times(z, z) && maxerr >= Fourth(tau)
    ensures Growth(sc, err, maxerr) * h >= sigma
  {
    FourthPositive(tau);
    var q := Growth(sc, err, maxerr);
    if err > 0.0 {
      var f := GrowthRoot(sc, err, maxerr);
      if q * h < sigma {
        assert q < 1.0 by {
          if q >= 1.0 {
            TimesNonneg(q - 1.0, h);
          }
        }
        assert q == 0.8 * f;
        SmallGrowth(q, f, err, maxerr);
        TooSmall(sigma, w, tau, h, z, err, q);
        assert false;
      }
    } else {
      assert q == 5.0;
    }
  }

  /** A small factor q carries a step of length h below the shortest length only if the error was larger. */
  lemma TooSmall(sigma: real, w: real, tau: real, h: real, z: real, err: real, q: real)
    requires Floor(sigma, w, tau) && h >= sigma && z == w * h && 0.0 <= err <= 7.0 * Times(z, z)
    requires 0.0 <= q < 1.0 && q * h < sigma
    ensures Fourth(q) * err <= 0.28 * Fourth(tau)
  {
    var a := q * h;
    TimesNonneg(q, h);
    assert a == Times(q, h);
    FloorError(sigma, w, tau, a, w * a, 7.0 * Times(w * a, w * a));
    assert w * a == q * z;
    var qq, zz := Times(q, q), Times(z, z);
    TimesNonneg(q, q);
    TimesNonneg(z, z);
    assert Times(q * z, q * z) == qq * zz;
    SquareBelow(qq, zz, err, q);
  }

  lemma SquareBelow(qq: real, zz: real, err: real, q: real)
    requires qq == Times(q, q) && 0.0 <= q < 1.0 && zz >= 0.0 && 0.0 <= err <= 7.0 * zz
    ensures Times(qq, qq) * err <= 7.0 * (qq * zz)
  {
    TimesOrder(q, 1.0);
    TimesNonneg(q, q);
    TimesNonneg(qq, 1.0 - qq);
    assert Times(qq, 1.0 - qq) == qq - Times(qq, qq);
    TimesNonneg(qq - Times(qq, qq), err);
    assert Times(qq - Times(qq, qq), err) == qq * err - Times(qq, qq) * err;
    TimesNonneg(qq, 7.0 * zz - err);
    assert Times(qq, 7.0 * zz - err) == 7.0 * (qq * zz) - qq * err;
  }

  // ----- Steps of the circling ray

  /** The ray circles with velocity w times that of a ray of unit speed. */
  ghost predicate OnWay(ray: Ray, vel: Vec4, w: real)
  {
    ray.vel == vel.Scale(w) && Circling(ray.pos, vel, Times(w, ray.t))
  }

  /** The circling speed for which the whole time is a way of 0.025, and the shortest step. */
  ghost predicate Paced(tau: real, w: real, sigma: real)
  {
    tau > 0.0 && w > 0.0 && w * tau == 0.05 && sigma == 4.0 * (tau * Times(tau, tau))
  }

  lemma PacedFloor(tau: real, w: real, sigma: real)
    requires Paced(tau, w, sigma)
    ensures Floor(sigma, w, tau)
  {
    var x := Times(tau, tau);
    TimesPositive(tau, tau);
    TimesPositive(tau, x);
    assert tau * x == Times(tau, x);
    assert w * (tau * x) == (w * tau) * x;
  }

  /** The ray is on its way, and its next step fits into the time; it is no shorter than the shortest one unless it
      is the last. */
  ghost predicate Under(ray: Ray, vel: Vec4, tau: real, w: real, sigma: real)
  {
    && OnWay(ray, vel, w) && ray.t >= 0.0 && ray.dt >= 0.0 && ray.t + ray.dt <= tau / 2.0
    && (ray.dt >= sigma || ray.dt == tau / 2.0 - ray.t)
  }

  lemma WayFits(tau: real, w: real, t: real, dt: real, s: real, z: real)
    requires w > 0.0 && w * tau == 0.05 && t >= 0.0 && dt >= 0.0 && t + dt <= tau / 2.0 && s == w * t && z == w * dt
    ensures Fits(s, z) && s + z == w * (t + dt)
  {
    TimesNonneg(w, t);
    TimesNonneg(w, dt);
    TimesNonneg(w, tau / 2.0 - t - dt);
    assert Times(w, t) == s && Times(w, dt) == z;
    assert Times(w, tau / 2.0 - t - dt) == w * tau / 2.0 - s - z;
  }

  lemma ToleranceAtLeast(sc: Scene, ray: Ray)
    requires sc.tol > 0.0
    ensures Tolerance(sc, ray) >= sc.tol
  {
    MaxAbsNonneg(ray.pos);
    TimesNonneg(sc.tol, ray.pos.MaxAbs());
    assert Times(sc.tol, ray.pos.MaxAbs()) == sc.tol * ray.pos.MaxAbs();
  }

  lemma OnWayAt(ray: Ray, vel: Vec4, w: real, s: real)
    requires s == w * ray.t
    ensures OnWay(ray, vel, w) <==> ray.vel == vel.Scale(w) && Circling(ray.pos, vel, s)
  {
    hide Vec4.Scale, Circling;
    assert s == Times(w, ray.t);
  }

  /** The error of the next step, and what it does if it is accepted. */
  lemma StepOnWay(sc: Scene, tau: real, ray: Ray, vel: Vec4, w: real, s: real, z: real) returns (vel': Vec4)
    requires WhiteWormhole(sc, tau) && ray.vel == vel.Scale(w) && Circling(ray.pos, vel, s)
    requires Fits(s, z) && z == w * ray.dt
    ensures 0.0 <= StepError(SlopesOf(sc, ray), ray.dt) <= 7.0 * Times(z, z)
    ensures StepError(SlopesOf(sc, ray), ray.dt) <= Tolerance(sc, ray) ==> (
      Advance(sc, ray).vel == vel'.Scale(w) && Circling(Advance(sc, ray).pos, vel', s + z))
  {
    hide WhiteWormhole, Circling, SlopesOf, UnitSlopes, StepError, Times, Fits, Tolerance, MovedPos, MovedVel,
         AllBoxed, Growth;
    var k, m, zz := UnitSlopes(ray.pos, vel, z), w * w, z * z;
    SquareIs(z, zz);
    FastSlopes(sc, tau, ray, vel, s, w, m, z);
    ErrorScaled(k, w, m, ray.dt, z, zz);
    ErrorBounded(k, z, zz);
    MovedCircling(ray.pos, vel, s, z, k);
    MovedScaled(ray.pos, vel, k, w, m, ray.dt, z);
    vel' := MovedVel(vel, k, z);
  }

  lemma SquareIs(z: real, zz: real)
    requires zz == z * z
    ensures Times(z, z) == zz
  {
  }

  /** A rejected step leaves the ray in place. */
  lemma RejectedStep(sc: Scene, ray: Ray)
    requires StepError(SlopesOf(sc, ray), ray.dt) > Tolerance(sc, ray)
    ensures var q := Growth(sc, StepError(SlopesOf(sc, ray), ray.dt), Tolerance(sc, ray));
      Advance(sc, ray) == Ray(ray.pos, ray.vel, ray.t, NextDt(sc, q, ray.dt, ray.t))
  {
    hide SlopesOf, StepError, Tolerance, Growth, NextDt, MovedPos, MovedVel;
    NotMoved(ray.pos, ray.vel, SlopesOf(sc, ray));
  }

  lemma AcceptedStep(sc: Scene, ray: Ray)
    requires StepError(SlopesOf(sc, ray), ray.dt) <= Tolerance(sc, ray)
    ensures var q := Growth(sc, StepError(SlopesOf(sc, ray), ray.dt), Tolerance(sc, ray));
      Advance(sc, ray).t == ray.t + ray.dt && Advance(sc, ray).dt == NextDt(sc, q, ray.dt, ray.t + ray.dt)
  {
    hide SlopesOf, StepError, Tolerance, Growth, NextDt, MovedPos, MovedVel;
  }

  /** How far a step brings the ray: to its end, or on by the shortest length, or to a step a fifth shorter. */
  ghost predicate Progress(ray: Ray, next: Ray, tau: real, sigma: real)
  {
    || next.t == tau / 2.0
    || next.t >= ray.t + sigma
    || (next.t == ray.t && next.dt <= 0.8 * ray.dt && ray.dt >= sigma)
  }

  /** Rejected steps shrink and accepted ones lead on, and the ray stays on its way. */
  lemma UnderStep(sc: Scene, tau: real, ray: Ray, vel: Vec4, w: real, sigma: real) returns (vel': Vec4)
    requires WhiteWormhole(sc, tau) && Paced(tau, w, sigma) && Under(ray, vel, tau, w, sigma)
    ensures Under(Advance(sc, ray), vel', tau, w, sigma) && Progress(ray, Advance(sc, ray), tau, sigma)
  {
    hide Advance, SlopesOf, StepError, Tolerance, Growth, Circling, NextDt, OnWay, WhiteWormhole, Fits, Times,
         Vec4.Scale, Progress;
    var s, z := w * ray.t, w * ray.dt;
    WayFits(tau, w, ray.t, ray.dt, s, z);
    OnWayAt(ray, vel, w, s);
    var turned := StepOnWay(sc, tau, ray, vel, w, s, z);
    NextLength(sc, tau, ray, w, sigma, z);
    if StepError(SlopesOf(sc, ray), ray.dt) > Tolerance(sc, ray) {
      RejectedStep(sc, ray);
      OnWayAt(Advance(sc, ray), vel, w, s);
      vel' := vel;
    } else {
      AcceptedStep(sc, ray);
      OnWayAt(Advance(sc, ray), turned, w, s + z);
      vel' := turned;
    }
  }

  /** The next step is not too short either, whatever its error was. */
  lemma GrowthEnough(sc: Scene, tau: real, w: real, sigma: real, h: real, z: real, err: real, maxerr: real)
    requires WhiteWormhole(sc, tau) && Paced(tau, w, sigma) && z == w * h && h >= 0.0
    requires 0.0 <= err <= 7.0 * Times(z, z) && maxerr >= Fourth(tau)
    ensures sigma > 0.0
    ensures h >= sigma ==> Times(Growth(sc, err, maxerr), h) >= sigma
    ensures h < sigma ==> err <= maxerr
  {
    hide WhiteWormhole, Growth, Fourth, Paced, IsFourthRoot;
    PacedFloor(tau, w, sigma);
    ScenePositive(sc, tau);
    assert sigma > 0.0 by { FloorParts(sigma, w, tau); }
    if h >= sigma {
      LongEnough(sc, sigma, w, tau, h, z, err, maxerr);
    } else {
      hide Floor;
      FloorError(sigma, w, tau, h, z, err);
    }
  }

  lemma FloorParts(sigma: real, w: real, tau: real)
    requires Floor(sigma, w, tau)
    ensures sigma > 0.0 && w > 0.0 && tau > 0.0
  {
  }

  /** The lengths of the next step. */
  lemma NextLength(sc: Scene, tau: real, ray: Ray, w: real, sigma: real, z: real)
    requires WhiteWormhole(sc, tau) && Paced(tau, w, sigma) && z == w * ray.dt
    requires 0.0 <= StepError(SlopesOf(sc, ray), ray.dt) <= 7.0 * Times(z, z)
    requires ray.t >= 0.0 && ray.dt >= 0.0 && ray.t + ray.dt <= tau / 2.0
    requires ray.dt >= sigma || ray.dt == tau / 2.0 - ray.t
    ensures var next := Advance(sc, ray);
      && next.t >= 0.0 && next.dt >= 0.0 && next.t + next.dt <= tau / 2.0
      && (next.dt >= sigma || next.dt == tau / 2.0 - next.t)
      && Progress(ray, next, tau, sigma)
  {
    hide *;
    var err, maxerr := StepError(SlopesOf(sc, ray), ray.dt), Tolerance(sc, ray);
    ScenePositive(sc, tau);
    ToleranceAtLeast(sc, ray);
    GrowthEnough(sc, tau, w, sigma, ray.dt, z, err, maxerr);
    NextLengthFrom(sc, tau, ray, sigma, err, maxerr);
  }

  lemma NextLengthFrom(sc: Scene, tau: real, ray: Ray, sigma: real, err: real, maxerr: real)
    requires err == StepError(SlopesOf(sc, ray), ray.dt) && maxerr == Tolerance(sc, ray)
    requires IsFourthRoot(sc.fourthRoot) && sc.time == tau / 2.0 && maxerr > 0.0 && sigma > 0.0
    requires ray.dt >= sigma ==> Times(Growth(sc, err, maxerr), ray.dt) >= sigma
    requires ray.dt < sigma ==> err <= maxerr
    requires ray.t >= 0.0 && ray.dt >= 0.0 && ray.t + ray.dt <= tau / 2.0
    requires ray.dt >= sigma || ray.dt == tau / 2.0 - ray.t
    ensures var next := Advance(sc, ray);
      && next.t >= 0.0 && next.dt >= 0.0 && next.t + next.dt <= tau / 2.0
      && (next.dt >= sigma || next.dt == tau / 2.0 - next.t)
      && Progress(ray, next, tau, sigma)
  {
    hide *;
    var q := Growth(sc, err, maxerr);
    GrowthNonneg(sc, err, maxerr);
    if err > maxerr {
      RejectedStep(sc, ray);
      RejectShrinks(sc, err, maxerr);
      ShorterStep(sc, tau, q, ray.dt, ray.t, sigma);
      ProgressIs(ray, Advance(sc, ray), tau, sigma);
    } else {
      AcceptedStep(sc, ray);
      NextStep(sc, tau, q, ray.dt, ray.t, sigma);
      ProgressIs(ray, Advance(sc, ray), tau, sigma);
    }
  }

  lemma ProgressIs(ray: Ray, next: Ray, tau: real, sigma: real)
    ensures Progress(ray, next, tau, sigma) <==>
      || next.t == tau / 2.0
      || next.t >= ray.t + sigma
      || (next.t == ray.t && next.dt <= 0.8 * ray.dt && ray.dt >= sigma)
  {
  }

  lemma ScenePositive(sc: Scene, tau: real)
    requires WhiteWormhole(sc, tau)
    ensures sc.tol == Fourth(tau) > 0.0 && sc.time == tau / 2.0 && IsFourthRoot(sc.fourthRoot)
  {
    FourthPositive(tau);
  }

  lemma GrowthNonneg(sc: Scene, err: real, maxerr: real)
    ensures 0.0 <= Growth(sc, err, maxerr) <= 5.0
  {
  }

  /** The next step after a rejection. */
  lemma ShorterStep(sc: Scene, tau: real, q: real, h: real, t: real, sigma: real)
    requires sc.time == tau / 2.0 && 0.0 <= q <= 0.8 && h >= sigma > 0.0 && t + h <= tau / 2.0
    requires Times(q, h) >= sigma
    ensures NextDt(sc, q, h, t) == Times(q, h) && sigma <= Times(q, h) <= 0.8 * h
  {
    TimesNonneg(0.8 - q, h);
    assert Times(0.8 - q, h) == 0.8 * h - q * h;
  }

  /** The next step after an accepted one. */
  lemma NextStep(sc: Scene, tau: real, q: real, h: real, t: real, sigma: real)
    requires sc.time == tau / 2.0 && q >= 0.0 && h >= 0.0 && sigma > 0.0 && t + h <= tau / 2.0
    requires h >= sigma ==> Times(q, h) >= sigma
    requires h >= sigma || h == tau / 2.0 - t
    ensures var h' := NextDt(sc, q, h, t + h);
      0.0 <= h' && t + h + h' <= tau / 2.0 && (h' >= sigma || h' == tau / 2.0 - (t + h))
  {
    TimesNonneg(q, h);
    assert Times(q, h) == q * h;
  }
}
