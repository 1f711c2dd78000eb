/** One ray of the tracer: the adaptive Runge-Kutta step, the coordinates and colours of its segment.
    Geodesics, coordinate changes, background lookup and roots are functions of the single ray. */
module RayStepping {
  import opened Reals

  datatype Vec4 = Vec4(t: real, r: real, o: real, p: real)
  {
    function Plus(w: Vec4): Vec4
    {
      Vec4(t + w.t, r + w.r, o + w.o, p + w.p)
    }

    function Scale(c: real): Vec4
    {
      Vec4(t * c, r * c, o * c, p * c)
    }

    function MaxAbs(): real
    {
      Max(Max(Abs(t), Abs(r)), Max(Abs(o), Abs(p)))
    }
  }

  datatype Vec3 = Vec3(x: real, y: real, z: real)
  {
    function Minus(w: Vec3): Vec3
    {
      Vec3(x - w.x, y - w.y, z - w.z)
    }

    function Plus(w: Vec3): Vec3
    {
      Vec3(x + w.x, y + w.y, z + w.z)
    }

    function Scale(c: real): Vec3
    {
      Vec3(x * c, y * c, z * c)
    }

    function Dot(w: Vec3): real
    {
      x * w.x + y * w.y + z * w.z
    }
  }

  datatype Color = Color(r: real, g: real, b: real)
  {
    function Plus(c: Color): Color
    {
      Color(r + c.r, g + c.g, b + c.b)
    }
  }

  const BLACK := Color(0.0, 0.0, 0.0)

  function Max(x: real, y: real): real
  {
    if x < y then y else x
  }

  datatype Disk = Disk(center: Vec3, normal: Vec3, inner: real, outer: real, color: Color)

  datatype Scene = Scene(
    geodesic: (Vec4, Vec4) -> Vec4,
    place: Vec4 -> Vec3,
    heading: (Vec4, Vec4) -> Vec3,
    background: Vec3 -> Color,
    root: real -> real,
    fourthRoot: real -> real,
    objects: seq<Disk>,
    time: real,
    tol: real,
    hasHorizon: bool,
    cut: real)

  datatype Ray = Ray(pos: Vec4, vel: Vec4, t: real, dt: real)

  function Clamp(x: real, low: real, high: real): real
  {
    if x < low then low else if x > high then high else x
  }

  /** The factor by which the step grows or shrinks; with no error at all the quotient is infinite and
      the factor is its upper bound. */
  function Growth(sc: Scene, err: real, maxerr: real): (q: real)
    ensures 0.0 <= q <= 5.0
  {
    if err == 0.0 then 5.0 else Clamp(0.8 * sc.fourthRoot(maxerr / err), 0.0, 5.0)
  }

  /** The next step never goes past the end time. */
  function NextDt(sc: Scene, q: real, dt: real, t: real): real
  {
    if q * dt < sc.time - t then q * dt else Abs(sc.time - t)
  }

  datatype Slopes = Slopes(k1: Vec4, k2: Vec4, k3: Vec4, k4: Vec4)

  /** A trial point of a step. */
  function Trial(pos: Vec4, vel: Vec4, c: real, k: Vec4, e: real): Vec4
  {
    pos.Plus(vel.Scale(c)).Plus(k.Scale(e))
  }

  function Slope2(sc: Scene, pos: Vec4, vel: Vec4, dt: real, k1: Vec4): Vec4
  {
    sc.geodesic(Trial(pos, vel, dt / 4.0, k1, dt * dt / 32.0), vel.Plus(k1.Scale(dt / 4.0)))
  }

  function Slope3(sc: Scene, pos: Vec4, vel: Vec4, dt: real, k1: Vec4, k2: Vec4): Vec4
  {
    sc.geodesic(Trial(pos, vel, dt / 2.0, k1.Plus(k2), dt * dt / 16.0), vel.Plus(k2.Scale(dt / 2.0)))
  }

  function Slope4(sc: Scene, pos: Vec4, vel: Vec4, dt: real, k1: Vec4, k2: Vec4, k3: Vec4): Vec4
  {
    sc.geodesic(Trial(pos, vel, dt, k1.Plus(k2.Scale(-1.0)).Plus(k3.Scale(2.0)), dt * dt / 4.0),
                vel.Plus(k1.Plus(k2.Scale(-2.0)).Plus(k3.Scale(2.0)).Scale(dt)))
  }

  function SlopesOf(sc: Scene, ray: Ray): Slopes
  {
    var k1 := sc.geodesic(ray.pos, ray.vel);
    var k2 := Slope2(sc, ray.pos, ray.vel, ray.dt, k1);
    var k3 := Slope3(sc, ray.pos, ray.vel, ray.dt, k1, k2);
    Slopes(k1, k2, k3, Slope4(sc, ray.pos, ray.vel, ray.dt, k1, k2, k3))
  }

  function StepError(k: Slopes, dt: real): real
  {
    var diff4 := k.k1.Plus(k.k2.Scale(8.0)).Plus(k.k3.Scale(2.0)).Plus(k.k4).Scale(1.0 / 24.0);
    var diff3 := k.k2.Scale(8.0).Plus(k.k4).Scale(1.0 / 18.0);
    diff4.Plus(diff3.Scale(-1.0)).MaxAbs() * (dt * dt)
  }

  function Tolerance(sc: Scene, ray: Ray): real
  {
    sc.tol * (1.0 + ray.pos.MaxAbs())
  }

  /** The step taken: none when the error is too large. */
  function Taken(sc: Scene, ray: Ray): (rdt: real)
    ensures rdt == 0.0 || rdt == ray.dt
  {
    if StepError(SlopesOf(sc, ray), ray.dt) > Tolerance(sc, ray) then 0.0 else ray.dt
  }

  function MovedPos(pos: Vec4, vel: Vec4, k: Slopes, rdt: real): Vec4
  {
    pos.Plus(vel.Scale(rdt)).Plus(k.k1.Plus(k.k2.Scale(8.0)).Plus(k.k3.Scale(2.0)).Plus(k.k4).Scale(rdt * rdt / 24.0))
  }

  function MovedVel(vel: Vec4, k: Slopes, rdt: real): Vec4
  {
    vel.Plus(k.k1.Plus(k.k3.Scale(4.0)).Plus(k.k4).Scale(rdt / 6.0))
  }

  function Advance(sc: Scene, ray: Ray): Ray
  {
    var k := SlopesOf(sc, ray);
    var rdt := Taken(sc, ray);
    var q := Growth(sc, StepError(k, ray.dt), Tolerance(sc, ray));
    Ray(MovedPos(ray.pos, ray.vel, k, rdt), MovedVel(ray.vel, k, rdt), ray.t + rdt,
        NextDt(sc, q, ray.dt, ray.t + rdt))
  }

  // ----- The accretion disk

  /** Where the segment meets the plane of the disk, as a multiple of the segment. */
  function PlaneParameter(d: Disk, begin: Vec3, end: Vec3): real
  {
    Quotient(d.normal.Dot(d.center.Minus(begin)), d.normal.Dot(end.Minus(begin)))
  }

  function CenterDistance(sc: Scene, d: Disk, begin: Vec3, end: Vec3): real
  {
    var p := end.Minus(begin).Scale(PlaneParameter(d, begin, end)).Plus(begin).Minus(d.center);
    sc.root(p.Dot(p))
  }

  predicate Hit(sc: Scene, d: Disk, begin: Vec3, end: Vec3)
  {
    var t := Abs(PlaneParameter(d, begin, end));
    var dist := CenterDistance(sc, d, begin, end);
    dist < d.outer && t <= 1.0 && t > 0.0 && dist > d.inner
  }

  function DiskColor(sc: Scene, d: Disk, begin: Vec3, end: Vec3): Color
  {
    if Hit(sc, d, begin, end) then
      var val := 1.0 - Quotient(CenterDistance(sc, d, begin, end) - d.inner, d.outer - d.inner);
      var s := 1.5 * (val * val * (val * -2.0 + 3.0));
      Color(d.color.r * s, d.color.g * s, d.color.b * s)
    else BLACK
  }

  /** The colours of the objects met by a segment, added up in order. */
  function SegmentColor(sc: Scene, base: Color, n: nat, begin: Vec3, end: Vec3): Color
    requires n <= |sc.objects|
  {
    if n == 0 then base
    else SegmentColor(sc, base, n - 1, begin, end).Plus(DiskColor(sc, sc.objects[n - 1], begin, end))
  }

  // ----- A ray that has used up its time

  lemma ScaleZero(v: Vec4, w: Vec4)
    ensures v.Plus(w.Scale(0.0)) == v
  {
  }

  /** A step of length zero moves nothing. */
  lemma NotMoved(pos: Vec4, vel: Vec4, k: Slopes)
    ensures MovedPos(pos, vel, k, 0.0) == pos && MovedVel(vel, k, 0.0) == vel
  {
    hide Vec4.Plus, Vec4.Scale;
    ScaleZero(pos, vel);
    ScaleZero(pos, k.k1.Plus(k.k2.Scale(8.0)).Plus(k.k3.Scale(2.0)).Plus(k.k4));
    ScaleZero(vel, k.k1.Plus(k.k3.Scale(4.0)).Plus(k.k4));
  }

  /** A ray whose step is zero stays exactly as it is. */
  lemma RestingRay(sc: Scene, ray: Ray)
    requires ray.dt == 0.0 && ray.t <= sc.time
    ensures Advance(sc, ray) == ray
  {
    hide SlopesOf, StepError, Tolerance, Growth, MovedPos, MovedVel;
    NotMoved(ray.pos, ray.vel, SlopesOf(sc, ray));
    var q := Growth(sc, StepError(SlopesOf(sc, ray), ray.dt), Tolerance(sc, ray));
    assert q * ray.dt == 0.0;
  }

  /** A segment of length zero hits nothing. */
  lemma EmptySegment(sc: Scene, base: Color, n: nat, p: Vec3)
    requires n <= |sc.objects|
    ensures SegmentColor(sc, base, n, p, p) == base
  {
    if n > 0 {
      EmptySegment(sc, base, n - 1, p);
      var d := sc.objects[n - 1];
      assert d.normal.Dot(p.Minus(p)) == 0.0;
      assert PlaneParameter(d, p, p) == 0.0;
    }
  }

  /** The time left covers the next step. */
  predicate OnTime(sc: Scene, ray: Ray)
  {
    0.0 <= ray.t && 0.0 <= ray.dt && ray.t + ray.dt <= sc.time
  }

  /** No step goes past the end time. */
  lemma AdvanceOnTime(sc: Scene, ray: Ray)
    requires OnTime(sc, ray)
    ensures OnTime(sc, Advance(sc, ray))
  {
    hide SlopesOf, StepError, Tolerance, Growth;
    var q := Growth(sc, StepError(SlopesOf(sc, ray), ray.dt), Tolerance(sc, ray));
    TimesNonneg(q, ray.dt);
    assert Times(q, ray.dt) == q * ray.dt;
  }
}
