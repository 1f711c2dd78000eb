/** How exact a step is: it follows parabolas, it integrates accelerations up to the second order in a coordinate the
    ray passes evenly, and its error is the third order. */
module StepOrder {
  import opened Reals
  import opened RayStepping

  // ----- A step by the sums of its slopes

  function Total4(k: Slopes): Vec4
  {
    k.k1.Plus(k.k2.Scale(8.0)).Plus(k.k3.Scale(2.0)).Plus(k.k4)
  }

  function Total3(k: Slopes): Vec4
  {
    k.k2.Scale(8.0).Plus(k.k4)
  }

  function TotalTurn(k: Slopes): Vec4
  {
    k.k1.Plus(k.k3.Scale(4.0)).Plus(k.k4)
  }

  /** The difference of the two formulas of a step. */
  function Deviation(k: Slopes): Vec4
  {
    Total4(k).Scale(1.0 / 24.0).Plus(Total3(k).Scale(1.0 / 18.0).Scale(-1.0))
  }

  lemma ErrorIs(k: Slopes, z: real, zz: real)
    requires zz == z * z
    ensures StepError(k, z) == Deviation(k).MaxAbs() * zz
  {
    hide Vec4.Plus, Vec4.Scale, Vec4.MaxAbs;
  }

  lemma MovedIs(pos: Vec4, vel: Vec4, k: Slopes, z: real)
    ensures MovedPos(pos, vel, k, z) == pos.Plus(vel.Scale(z)).Plus(Total4(k).Scale(z * z / 24.0))
    ensures MovedVel(vel, k, z) == vel.Plus(TotalTurn(k).Scale(z / 6.0))
  {
    hide Vec4.Plus, Vec4.Scale;
  }

  // ----- Parabolas

  /** The point and the velocity after time s under a constant acceleration. */
  function Thrown(pos: Vec4, vel: Vec4, g: Vec4, s: real): Vec4
  {
    pos.Plus(vel.Scale(s)).Plus(g.Scale(s * s / 2.0))
  }

  function Sped(vel: Vec4, g: Vec4, s: real): Vec4
  {
    vel.Plus(g.Scale(s))
  }

  /** The acceleration is g at four times along the parabola. */
  ghost predicate Throws(sc: Scene, pos: Vec4, vel: Vec4, g: Vec4, h: real)
  {
    && sc.geodesic(pos, vel) == g
    && sc.geodesic(Thrown(pos, vel, g, h / 4.0), Sped(vel, g, h / 4.0)) == g
    && sc.geodesic(Thrown(pos, vel, g, h / 2.0), Sped(vel, g, h / 2.0)) == g
    && sc.geodesic(Thrown(pos, vel, g, h), Sped(vel, g, h)) == g
  }

  lemma ScaleTwice(v: Vec4, a: real, b: real, c: real)
    requires c == a * b
    ensures v.Scale(a).Scale(b) == v.Scale(c)
  {
    Scaled2(v.t, a, b, c);
    Scaled2(v.r, a, b, c);
    Scaled2(v.o, a, b, c);
    Scaled2(v.p, a, b, c);
  }

  lemma Scaled2(x: real, a: real, b: real, c: real)
    requires c == a * b
    ensures x * a * b == x * c
  {
  }

  lemma Multiples(g: Vec4)
    ensures g.Plus(g) == g.Scale(2.0)
    ensures g.Plus(g.Scale(-1.0)).Plus(g.Scale(2.0)) == g.Scale(2.0)
    ensures g.Plus(g.Scale(-2.0)).Plus(g.Scale(2.0)) == g
    ensures g.Plus(g.Scale(8.0)).Plus(g.Scale(2.0)).Plus(g) == g.Scale(12.0)
    ensures g.Plus(g.Scale(4.0)).Plus(g) == g.Scale(6.0)
    ensures g.Scale(8.0).Plus(g) == g.Scale(9.0)
  {
  }

  lemma Opposite(g: Vec4)
    ensures g.Plus(g.Scale(-1.0)).MaxAbs() == 0.0
  {
    assert Abs(0.0) == 0.0 && Max(0.0, 0.0) == 0.0;
  }

  lemma ThrownSlopes(sc: Scene, ray: Ray, g: Vec4)
    requires Throws(sc, ray.pos, ray.vel, g, ray.dt)
    ensures SlopesOf(sc, ray) == Slopes(g, g, g, g)
  {
    hide Vec4.Plus, Vec4.Scale, Slope2, Slope3, Slope4;
    var pos, vel, h := ray.pos, ray.vel, ray.dt;
    Multiples(g);
    SecondThrown(sc, pos, vel, g, h);
    ThirdThrown(sc, pos, vel, g, h);
    LastThrown(sc, pos, vel, g, h);
  }

  lemma SecondThrown(sc: Scene, pos: Vec4, vel: Vec4, g: Vec4, h: real)
    requires Throws(sc, pos, vel, g, h)
    ensures Slope2(sc, pos, vel, h, g) == g
  {
    hide Vec4.Plus, Vec4.Scale;
    assert (h / 4.0) * (h / 4.0) / 2.0 == h * h / 32.0;
  }

  lemma ThirdThrown(sc: Scene, pos: Vec4, vel: Vec4, g: Vec4, h: real)
    requires Throws(sc, pos, vel, g, h)
    ensures Slope3(sc, pos, vel, h, g, g) == g
  {
    hide Vec4.Plus, Vec4.Scale;
    Multiples(g);
    assert (h / 2.0) * (h / 2.0) / 2.0 == 2.0 * (h * h / 16.0);
    ScaleTwice(g, 2.0, h * h / 16.0, (h / 2.0) * (h / 2.0) / 2.0);
  }

  lemma LastThrown(sc: Scene, pos: Vec4, vel: Vec4, g: Vec4, h: real)
    requires Throws(sc, pos, vel, g, h)
    ensures Slope4(sc, pos, vel, h, g, g, g) == g
  {
    hide Vec4.Plus, Vec4.Scale;
    Multiples(g);
    assert h * h / 2.0 == 2.0 * (h * h / 4.0);
    ScaleTwice(g, 2.0, h * h / 4.0, h * h / 2.0);
  }

  lemma EqualTotals(g: Vec4)
    ensures var k := Slopes(g, g, g, g);
      Total4(k) == g.Scale(12.0) && Total3(k) == g.Scale(9.0) && TotalTurn(k) == g.Scale(6.0)
      && Deviation(k).MaxAbs() == 0.0
  {
    hide Vec4.Plus, Vec4.Scale, Vec4.MaxAbs;
    Multiples(g);
    ScaleTwice(g, 12.0, 1.0 / 24.0, 0.5);
    ScaleTwice(g, 9.0, 1.0 / 18.0, 0.5);
    Opposite(g.Scale(0.5));
  }

  lemma EqualSlopes(pos: Vec4, vel: Vec4, g: Vec4, h: real)
    ensures var k := Slopes(g, g, g, g);
      && MovedPos(pos, vel, k, h) == Thrown(pos, vel, g, h) && MovedVel(vel, k, h) == Sped(vel, g, h)
      && StepError(k, h) == 0.0
  {
    hide Vec4.Plus, Vec4.Scale, Vec4.MaxAbs, MovedPos, MovedVel, StepError, Total4, Total3, TotalTurn, Deviation;
    var k := Slopes(g, g, g, g);
    EqualTotals(g);
    MovedIs(pos, vel, k, h);
    ErrorIs(k, h, h * h);
    assert h * h / 2.0 == 12.0 * (h * h / 24.0) && h == 6.0 * (h / 6.0);
    ScaleTwice(g, 12.0, h * h / 24.0, h * h / 2.0);
    ScaleTwice(g, 6.0, h / 6.0, h);
  }

  /** A step along a parabola is exact, and is taken without an error. */
  lemma ParabolaStep(sc: Scene, ray: Ray, g: Vec4)
    requires Throws(sc, ray.pos, ray.vel, g, ray.dt) && sc.tol >= 0.0
    ensures StepError(SlopesOf(sc, ray), ray.dt) == 0.0
    ensures Advance(sc, ray) == Ray(Thrown(ray.pos, ray.vel, g, ray.dt), Sped(ray.vel, g, ray.dt), ray.t + ray.dt,
                                    NextDt(sc, 5.0, ray.dt, ray.t + ray.dt))
  {
    hide Throws, SlopesOf, StepError, MovedPos, MovedVel, Thrown, Sped, NextDt, Tolerance;
    ThrownSlopes(sc, ray, g);
    EqualSlopes(ray.pos, ray.vel, g, ray.dt);
    ToleranceNonneg(sc, ray);
  }

  lemma ToleranceNonneg(sc: Scene, ray: Ray)
    requires sc.tol >= 0.0
    ensures Tolerance(sc, ray) >= 0.0
  {
    hide Vec4.MaxAbs;
    MaxAbsNonneg(ray.pos);
    TimesNonneg(sc.tol, 1.0 + ray.pos.MaxAbs());
  }

  lemma MaxAbsNonneg(v: Vec4)
    ensures v.MaxAbs() >= 0.0
  {
  }

  // ----- Accelerations that change evenly

  /** A polynomial of the third order. */
  datatype Cubic = Cubic(a: real, b: real, c: real, d: real)
  {
    function At(s: real): real
    {
      a + b * s + c * (s * s) + d * (s * s * s)
    }
  }

  /** The acceleration depends on the time coordinate alone, which the ray passes evenly, by a cubic in every
      component; s is counted from where the ray is. */
  ghost predicate Timed(sc: Scene, from: real, r: Cubic, o: Cubic, p: Cubic)
  {
    forall pos: Vec4, vel: Vec4 ::
      sc.geodesic(pos, vel) == Vec4(0.0, r.At(pos.t - from), o.At(pos.t - from), p.At(pos.t - from))
  }

  /** The acceleration at time s. */
  function Force(r: Cubic, o: Cubic, p: Cubic, s: real): Vec4
  {
    Vec4(0.0, r.At(s), o.At(s), p.At(s))
  }

  lemma TimedAt(sc: Scene, from: real, r: Cubic, o: Cubic, p: Cubic, pos: Vec4, vel: Vec4)
    requires Timed(sc, from, r, o, p)
    ensures sc.geodesic(pos, vel) == Force(r, o, p, pos.t - from)
  {
    hide Cubic.At;
  }

  /** Accelerations without a time component do not change when a trial point is reached. */
  lemma TrialTime(pos: Vec4, vel: Vec4, c: real, k: Vec4, e: real)
    requires k.t == 0.0 && vel.t == 1.0
    ensures Trial(pos, vel, c, k, e).t == pos.t + c
  {
  }

  lemma TimelessSums(k: Vec4, l: Vec4, c: real)
    requires k.t == 0.0 && l.t == 0.0
    ensures k.Plus(l).t == 0.0 && k.Plus(l.Scale(c)).t == 0.0
  {
  }

  /** The acceleration at a trial point is that after its time. */
  lemma TrialForce(sc: Scene, r: Cubic, o: Cubic, p: Cubic, pos: Vec4, vel: Vec4, c: real, k: Vec4, e: real, v: Vec4)
    requires Timed(sc, pos.t, r, o, p) && vel.t == 1.0 && k.t == 0.0
    ensures sc.geodesic(Trial(pos, vel, c, k, e), v) == Force(r, o, p, c)
  {
    hide Timed, Trial, Force;
    TrialTime(pos, vel, c, k, e);
    TimedAt(sc, pos.t, r, o, p, Trial(pos, vel, c, k, e), v);
    assert Trial(pos, vel, c, k, e).t - pos.t == c;
  }

  lemma SecondTimed(sc: Scene, r: Cubic, o: Cubic, p: Cubic, pos: Vec4, vel: Vec4, h: real, k1: Vec4)
    requires Timed(sc, pos.t, r, o, p) && vel.t == 1.0 && k1.t == 0.0
    ensures Slope2(sc, pos, vel, h, k1) == Force(r, o, p, h / 4.0)
  {
    hide Timed, Trial, Force, Vec4.Plus, Vec4.Scale;
    TrialForce(sc, r, o, p, pos, vel, h / 4.0, k1, h * h / 32.0, vel.Plus(k1.Scale(h / 4.0)));
  }

  lemma ThirdTimed(sc: Scene, r: Cubic, o: Cubic, p: Cubic, pos: Vec4, vel: Vec4, h: real, k1: Vec4, k2: Vec4)
    requires Timed(sc, pos.t, r, o, p) && vel.t == 1.0 && k1.t == 0.0 && k2.t == 0.0
    ensures Slope3(sc, pos, vel, h, k1, k2) == Force(r, o, p, h / 2.0)
  {
    hide Timed, Trial, Force, Vec4.Plus, Vec4.Scale;
    TimelessSums(k1, k2, 0.0);
    TrialForce(sc, r, o, p, pos, vel, h / 2.0, k1.Plus(k2), h * h / 16.0, vel.Plus(k2.Scale(h / 2.0)));
  }

  lemma LastTimed(sc: Scene, r: Cubic, o: Cubic, p: Cubic, pos: Vec4, vel: Vec4, h: real,
                  k1: Vec4, k2: Vec4, k3: Vec4)
    requires Timed(sc, pos.t, r, o, p) && vel.t == 1.0 && k1.t == 0.0 && k2.t == 0.0 && k3.t == 0.0
    ensures Slope4(sc, pos, vel, h, k1, k2, k3) == Force(r, o, p, h)
  {
    hide Timed, Trial, Force, Vec4.Plus, Vec4.Scale;
    TimelessSums(k1, k2, -1.0);
    TimelessSums(k1.Plus(k2.Scale(-1.0)), k3, 2.0);
    TrialForce(sc, r, o, p, pos, vel, h, k1.Plus(k2.Scale(-1.0)).Plus(k3.Scale(2.0)), h * h / 4.0,
               vel.Plus(k1.Plus(k2.Scale(-2.0)).Plus(k3.Scale(2.0)).Scale(h)));
  }

  lemma TimedSlopes(sc: Scene, ray: Ray, r: Cubic, o: Cubic, p: Cubic)
    requires Timed(sc, ray.pos.t, r, o, p) && ray.vel.t == 1.0
    ensures SlopesOf(sc, ray) == Slopes(Force(r, o, p, 0.0), Force(r, o, p, ray.dt / 4.0),
                                        Force(r, o, p, ray.dt / 2.0), Force(r, o, p, ray.dt))
  {
    hide Timed, Cubic.At, Slope2, Slope3, Slope4;
    var pos, vel, h := ray.pos, ray.vel, ray.dt;
    var k1, k2, k3 := Force(r, o, p, 0.0), Force(r, o, p, h / 4.0), Force(r, o, p, h / 2.0);
    TimedAt(sc, pos.t, r, o, p, pos, vel);
    SecondTimed(sc, r, o, p, pos, vel, h, k1);
    ThirdTimed(sc, r, o, p, pos, vel, h, k1, k2);
    LastTimed(sc, r, o, p, pos, vel, h, k1, k2, k3);
  }

  /** Where a coordinate is after time h, when its acceleration is the cubic: the double integral, but for the third
      order, which comes out as 11/192 in place of 1/20. */
  function MovedTo(x: real, v: real, q: Cubic, h: real): real
  {
    x + v * h + q.a * (h * h) / 2.0 + q.b * (h * h * h) / 6.0 + q.c * (h * h * h * h) / 12.0
    + q.d * (h * h * h * h * h) * 11.0 / 192.0
  }

  /** Its velocity then: the integral, exactly. */
  function SpedTo(v: real, q: Cubic, h: real): real
  {
    v + q.a * h + q.b * (h * h) / 2.0 + q.c * (h * h * h) / 3.0 + q.d * (h * h * h * h) / 4.0
  }

  lemma CubicValues(q: Cubic, h: real, bh: real, ch: real, dh: real)
    requires bh == q.b * h && ch == q.c * (h * h) && dh == q.d * (h * h * h)
    ensures q.At(0.0) == q.a
    ensures q.At(h / 4.0) == q.a + bh / 4.0 + ch / 16.0 + dh / 64.0
    ensures q.At(h / 2.0) == q.a + bh / 2.0 + ch / 4.0 + dh / 8.0
    ensures q.At(h) == q.a + bh + ch + dh
  {
    assert (h / 4.0) * (h / 4.0) == h * h / 16.0 && h * h / 16.0 * (h / 4.0) == h * h * h / 64.0;
    assert (h / 2.0) * (h / 2.0) == h * h / 4.0 && h * h / 4.0 * (h / 2.0) == h * h * h / 8.0;
  }

  function Part(x: real, c: real): real
  {
    x * c / 192.0
  }

  // one component of a step, from those of the slopes

  function PosPart(x: real, v: real, k1: real, k2: real, k3: real, k4: real, h: real): real
  {
    x + v * h + (k1 + k2 * 8.0 + k3 * 2.0 + k4) * (h * h / 24.0)
  }

  function VelPart(v: real, k1: real, k3: real, k4: real, h: real): real
  {
    v + (k1 + k3 * 4.0 + k4) * (h / 6.0)
  }

  function Gap(k1: real, k2: real, k3: real, k4: real): real
  {
    (k1 + k2 * 8.0 + k3 * 2.0 + k4) * (1.0 / 24.0) + (k2 * 8.0 + k4) * (1.0 / 18.0) * -1.0
  }

  lemma ComponentMoves(x: real, v: real, q: Cubic, h: real)
    ensures PosPart(x, v, q.At(0.0), q.At(h / 4.0), q.At(h / 2.0), q.At(h), h) == MovedTo(x, v, q, h)
    ensures VelPart(v, q.At(0.0), q.At(h / 2.0), q.At(h), h) == SpedTo(v, q, h)
    ensures Gap(q.At(0.0), q.At(h / 4.0), q.At(h / 2.0), q.At(h)) == -Part(q.d, h * h * h)
  {
    hide Cubic.At, PosPart, VelPart, Gap, Part, MovedTo, SpedTo;
    var bh, ch, dh := q.b * h, q.c * (h * h), q.d * (h * h * h);
    CubicValues(q, h, bh, ch, dh);
    PositionOrder(q, x, v, h, bh, ch, dh, q.At(0.0), q.At(h / 4.0), q.At(h / 2.0), q.At(h));
    VelocityOrder(q, v, h, bh, ch, dh, q.At(0.0), q.At(h / 2.0), q.At(h));
    GapOrder(q, h * h * h, q.a, bh, ch, dh);
  }

  lemma PositionOrder(q: Cubic, x: real, v: real, h: real, bh: real, ch: real, dh: real,
                      k1: real, k2: real, k3: real, k4: real)
    requires bh == q.b * h && ch == q.c * (h * h) && dh == q.d * (h * h * h)
    requires k1 == q.a && k2 == q.a + bh / 4.0 + ch / 16.0 + dh / 64.0
    requires k3 == q.a + bh / 2.0 + ch / 4.0 + dh / 8.0 && k4 == q.a + bh + ch + dh
    ensures PosPart(x, v, k1, k2, k3, k4, h) == MovedTo(x, v, q, h)
  {
    var h2 := h * h;
    assert k1 + k2 * 8.0 + k3 * 2.0 + k4 == 12.0 * q.a + 4.0 * bh + 2.0 * ch + 1.375 * dh;
    PositionTerms(q, h, bh, ch, dh);
  }

  lemma PositionTerms(q: Cubic, h: real, bh: real, ch: real, dh: real)
    requires bh == q.b * h && ch == q.c * (h * h) && dh == q.d * (h * h * h)
    ensures (12.0 * q.a + 4.0 * bh + 2.0 * ch + 1.375 * dh) * (h * h / 24.0)
         == q.a * (h * h) / 2.0 + q.b * (h * h * h) / 6.0 + q.c * (h * h * h * h) / 12.0
            + q.d * (h * h * h * h * h) * 11.0 / 192.0
  {
    assert bh * (h * h) == q.b * (h * h * h);
    assert ch * (h * h) == q.c * (h * h * h * h);
    assert dh * (h * h) == q.d * (h * h * h * h * h);
  }

  lemma VelocityOrder(q: Cubic, v: real, h: real, bh: real, ch: real, dh: real, k1: real, k3: real, k4: real)
    requires bh == q.b * h && ch == q.c * (h * h) && dh == q.d * (h * h * h)
    requires k1 == q.a && k3 == q.a + bh / 2.0 + ch / 4.0 + dh / 8.0 && k4 == q.a + bh + ch + dh
    ensures VelPart(v, k1, k3, k4, h) == SpedTo(v, q, h)
  {
    assert k1 + k3 * 4.0 + k4 == 6.0 * q.a + 3.0 * bh + 2.0 * ch + 1.5 * dh;
    VelocityTerms(q, h, bh, ch, dh);
  }

  lemma VelocityTerms(q: Cubic, h: real, bh: real, ch: real, dh: real)
    requires bh == q.b * h && ch == q.c * (h * h) && dh == q.d * (h * h * h)
    ensures (6.0 * q.a + 3.0 * bh + 2.0 * ch + 1.5 * dh) * (h / 6.0)
         == q.a * h + q.b * (h * h) / 2.0 + q.c * (h * h * h) / 3.0 + q.d * (h * h * h * h) / 4.0
  {
    assert bh * h == q.b * (h * h);
    assert ch * h == q.c * (h * h * h);
    assert dh * h == q.d * (h * h * h * h);
  }

  lemma GapOrder(q: Cubic, c: real, a: real, bh: real, ch: real, dh: real)
    requires dh == q.d * c
    ensures Gap(a, a + bh / 4.0 + ch / 16.0 + dh / 64.0, a + bh / 2.0 + ch / 4.0 + dh / 8.0, a + bh + ch + dh)
         == -Part(q.d, c)
  {
  }

  /** The largest third-order coefficient. */
  function Largest(r: Cubic, o: Cubic, p: Cubic): real
  {
    Max(Abs(r.d), Max(Abs(o.d), Abs(p.d)))
  }

  lemma Components(u: Vec4, v: Vec4, w: Vec4, c: real, e: real)
    ensures u.Plus(v.Scale(c)).Plus(w.Scale(e)) == Vec4(u.t + v.t * c + w.t * e, u.r + v.r * c + w.r * e,
                                                        u.o + v.o * c + w.o * e, u.p + v.p * c + w.p * e)
    ensures u.Plus(w.Scale(e)) == Vec4(u.t + w.t * e, u.r + w.r * e, u.o + w.o * e, u.p + w.p * e)
  {
  }

  lemma MovedComponents(pos: Vec4, vel: Vec4, k: Slopes, h: real)
    ensures MovedPos(pos, vel, k, h)
         == Vec4(PosPart(pos.t, vel.t, k.k1.t, k.k2.t, k.k3.t, k.k4.t, h),
                 PosPart(pos.r, vel.r, k.k1.r, k.k2.r, k.k3.r, k.k4.r, h),
                 PosPart(pos.o, vel.o, k.k1.o, k.k2.o, k.k3.o, k.k4.o, h),
                 PosPart(pos.p, vel.p, k.k1.p, k.k2.p, k.k3.p, k.k4.p, h))
  {
    hide MovedPos, Vec4.Plus, Vec4.Scale, Total4;
    MovedIs(pos, vel, k, h);
    Components(pos, vel, Total4(k), h, h * h / 24.0);
    TotalComponents(k);
  }

  lemma SpedComponents(vel: Vec4, k: Slopes, h: real)
    ensures MovedVel(vel, k, h)
         == Vec4(VelPart(vel.t, k.k1.t, k.k3.t, k.k4.t, h), VelPart(vel.r, k.k1.r, k.k3.r, k.k4.r, h),
                 VelPart(vel.o, k.k1.o, k.k3.o, k.k4.o, h), VelPart(vel.p, k.k1.p, k.k3.p, k.k4.p, h))
  {
    hide MovedVel, Vec4.Plus, Vec4.Scale, TotalTurn;
    MovedIs(vel, vel, k, h);
    Components(vel, vel, TotalTurn(k), 0.0, h / 6.0);
    TotalComponents(k);
  }

  lemma TotalComponents(k: Slopes)
    ensures Total4(k) == Vec4(k.k1.t + k.k2.t * 8.0 + k.k3.t * 2.0 + k.k4.t,
                              k.k1.r + k.k2.r * 8.0 + k.k3.r * 2.0 + k.k4.r,
                              k.k1.o + k.k2.o * 8.0 + k.k3.o * 2.0 + k.k4.o,
                              k.k1.p + k.k2.p * 8.0 + k.k3.p * 2.0 + k.k4.p)
    ensures TotalTurn(k) == Vec4(k.k1.t + k.k3.t * 4.0 + k.k4.t, k.k1.r + k.k3.r * 4.0 + k.k4.r,
                                 k.k1.o + k.k3.o * 4.0 + k.k4.o, k.k1.p + k.k3.p * 4.0 + k.k4.p)
    ensures Deviation(k) == Vec4(Gap(k.k1.t, k.k2.t, k.k3.t, k.k4.t), Gap(k.k1.r, k.k2.r, k.k3.r, k.k4.r),
                                 Gap(k.k1.o, k.k2.o, k.k3.o, k.k4.o), Gap(k.k1.p, k.k2.p, k.k3.p, k.k4.p))
  {
  }

  lemma EvenTime(x: real, h: real)
    ensures PosPart(x, 1.0, 0.0, 0.0, 0.0, 0.0, h) == x + h && VelPart(1.0, 0.0, 0.0, 0.0, h) == 1.0
    ensures Gap(0.0, 0.0, 0.0, 0.0) == 0.0
  {
  }

  ghost function ForcesOver(r: Cubic, o: Cubic, p: Cubic, h: real): Slopes
  {
    Slopes(Force(r, o, p, 0.0), Force(r, o, p, h / 4.0), Force(r, o, p, h / 2.0), Force(r, o, p, h))
  }

  lemma PositionMoves(pos: Vec4, vel: Vec4, r: Cubic, o: Cubic, p: Cubic, h: real)
    requires vel.t == 1.0
    ensures MovedPos(pos, vel, ForcesOver(r, o, p, h), h)
         == Vec4(pos.t + h, MovedTo(pos.r, vel.r, r, h), MovedTo(pos.o, vel.o, o, h), MovedTo(pos.p, vel.p, p, h))
  {
    hide Cubic.At, MovedTo, SpedTo, MovedPos, Part, PosPart, VelPart, Gap;
    MovedComponents(pos, vel, ForcesOver(r, o, p, h), h);
    EvenTime(pos.t, h);
    ComponentMoves(pos.r, vel.r, r, h);
    ComponentMoves(pos.o, vel.o, o, h);
    ComponentMoves(pos.p, vel.p, p, h);
  }

  lemma VelocityMoves(vel: Vec4, r: Cubic, o: Cubic, p: Cubic, h: real)
    requires vel.t == 1.0
    ensures MovedVel(vel, ForcesOver(r, o, p, h), h)
         == Vec4(1.0, SpedTo(vel.r, r, h), SpedTo(vel.o, o, h), SpedTo(vel.p, p, h))
  {
    hide Cubic.At, MovedTo, SpedTo, MovedVel, Part, PosPart, VelPart, Gap;
    SpedComponents(vel, ForcesOver(r, o, p, h), h);
    EvenTime(0.0, h);
    ComponentMoves(0.0, vel.r, r, h);
    ComponentMoves(0.0, vel.o, o, h);
    ComponentMoves(0.0, vel.p, p, h);
  }

  lemma GapOf(q: Cubic, h: real, c: real)
    requires c == h * h * h
    ensures Gap(q.At(0.0), q.At(h / 4.0), q.At(h / 2.0), q.At(h)) == -Part(q.d, c)
  {
    hide Cubic.At, MovedTo, SpedTo, Part, PosPart, VelPart, Gap;
    ComponentMoves(0.0, 0.0, q, h);
  }

  lemma ErrorOf(r: Cubic, o: Cubic, p: Cubic, h: real, c: real)
    requires c == h * h * h
    ensures StepError(ForcesOver(r, o, p, h), h)
         == Vec4(0.0, -Part(r.d, c), -Part(o.d, c), -Part(p.d, c)).MaxAbs() * (h * h)
  {
    hide Cubic.At, StepError, Vec4.MaxAbs, Part, Gap, Deviation, Total4, TotalTurn;
    EvenTime(0.0, h);
    ErrorIs(ForcesOver(r, o, p, h), h, h * h);
    TotalComponents(ForcesOver(r, o, p, h));
    GapOf(r, h, c);
    GapOf(o, h, c);
    GapOf(p, h, c);
  }

  /** A step integrates its acceleration exactly up to the second order, and its velocity up to the third; its error
      is the third-order term of its largest component. */
  lemma TimedStep(sc: Scene, ray: Ray, r: Cubic, o: Cubic, p: Cubic)
    requires Timed(sc, ray.pos.t, r, o, p) && ray.vel.t == 1.0
    ensures var k, h := SlopesOf(sc, ray), ray.dt;
      && MovedPos(ray.pos, ray.vel, k, h)
         == Vec4(ray.pos.t + h, MovedTo(ray.pos.r, ray.vel.r, r, h), MovedTo(ray.pos.o, ray.vel.o, o, h),
                 MovedTo(ray.pos.p, ray.vel.p, p, h))
      && MovedVel(ray.vel, k, h)
         == Vec4(1.0, SpedTo(ray.vel.r, r, h), SpedTo(ray.vel.o, o, h), SpedTo(ray.vel.p, p, h))
      && (h >= 0.0 ==> StepError(k, h) == Largest(r, o, p) * (h * h * h * h * h) / 192.0)
  {
    hide *;
    var h := ray.dt;
    TimedSlopes(sc, ray, r, o, p);
    SlopesAre(r, o, p, h);
    PositionMoves(ray.pos, ray.vel, r, o, p, h);
    VelocityMoves(ray.vel, r, o, p, h);
    if h >= 0.0 {
      ErrorOf(r, o, p, h, h * h * h);
      LargestOf(r, o, p, h * h * h, h);
    }
  }

  lemma SlopesAre(r: Cubic, o: Cubic, p: Cubic, h: real)
    ensures ForcesOver(r, o, p, h)
         == Slopes(Force(r, o, p, 0.0), Force(r, o, p, h / 4.0), Force(r, o, p, h / 2.0), Force(r, o, p, h))
  {
  }

  lemma PartSize(x: real, c: real)
    requires c >= 0.0
    ensures Abs(-Part(x, c)) == Part(Abs(x), c)
  {
    if x < 0.0 {
      TimesNonneg(-x, c);
      assert Times(-x, c) == -(x * c);
    } else {
      TimesNonneg(x, c);
      assert Times(x, c) == x * c;
    }
  }

  lemma PartOrder(x: real, y: real, c: real)
    requires c >= 0.0
    ensures Max(Part(x, c), Part(y, c)) == Part(Max(x, y), c)
  {
    if x < y {
      TimesNonneg(y - x, c);
      assert Times(y - x, c) == y * c - x * c;
    } else {
      TimesNonneg(x - y, c);
      assert Times(x - y, c) == x * c - y * c;
    }
  }

  lemma FifthPower(m: real, c: real, h: real)
    requires c == h * h * h
    ensures Part(m, c) * (h * h) == m * (h * h * h * h * h) / 192.0
  {
    assert h * h * h * h * h == c * (h * h);
    assert m * (c * (h * h)) == m * c * (h * h);
  }

  lemma SizeOfThree(x: real, y: real, z: real)
    ensures Vec4(0.0, x, y, z).MaxAbs() == Max(Abs(x), Max(Abs(y), Abs(z)))
  {
  }

  lemma SizeOfError(x: real, y: real, z: real, c: real)
    requires c >= 0.0
    ensures Vec4(0.0, -Part(x, c), -Part(y, c), -Part(z, c)).MaxAbs() == Part(Max(Abs(x), Max(Abs(y), Abs(z))), c)
  {
    hide Vec4.MaxAbs, Max, Abs, Part;
    PartSize(x, c);
    PartSize(y, c);
    PartSize(z, c);
    PartOrder(Abs(y), Abs(z), c);
    PartOrder(Abs(x), Max(Abs(y), Abs(z)), c);
    SizeOfThree(-Part(x, c), -Part(y, c), -Part(z, c));
  }

  lemma CubeNonneg(h: real, c: real)
    requires c == h * h * h && h >= 0.0
    ensures c >= 0.0
  {
    TimesNonneg(h, h);
    TimesNonneg(Times(h, h), h);
  }

  lemma LargestOf(r: Cubic, o: Cubic, p: Cubic, c: real, h: real)
    requires c == h * h * h && h >= 0.0
    ensures Vec4(0.0, -Part(r.d, c), -Part(o.d, c), -Part(p.d, c)).MaxAbs() * (h * h)
         == Largest(r, o, p) * (h * h * h * h * h) / 192.0
  {
    hide Vec4.MaxAbs, Max, Abs, Part;
    CubeNonneg(h, c);
    SizeOfError(r.d, o.d, p.d, c);
    FifthPower(Largest(r, o, p), c, h);
  }
}
