/** The three spaces of the tracer: how their metrics are related, and what the horizon cut is for. */
module Spaces {
  import opened Reals
  import opened RayStepping
  import opened RayReference
  import opened RayRun
  import opened KerrMetric
  import opened Geodesics

  /** The rays of a scene follow the geodesics of one of the three spaces, with the horizon cut of that space. */
  ghost predicate InSpace(sc: Scene, space: Space, sin: real -> real, cos: real -> real)
  {
    && (forall pos: Vec4, vel: Vec4 :: sc.geodesic(pos, vel) == Geodesic(space, sin, cos, pos, vel))
    && match space
       case Rotating(m, a) => sc.hasHorizon && sc.cut == 1.01 * Horizon(sc.root, m, a)
       case Static(m) => sc.hasHorizon && sc.cut == 2.0 * m * 1.01
       case Wormhole(_) => !sc.hasHorizon
  }

  /** The squared length of a velocity. */
  function Norm(g: Metric, v: Vec4): real
  {
    g.a * (v.t * v.t) + 2.0 * (g.b * (v.t * v.p)) + g.c * (v.r * v.r) + g.d * (v.o * v.o) + g.e * (v.p * v.p)
  }

  // ----- Metrics

  /** Light falls straight in and comes straight out: the two principal directions of the rotating black hole are
      null. */
  lemma PrincipalNull(m: real, a: real, r: real, sin: real, cos: real, t: real, inward: bool, p: real)
    requires Delta(m, a, r) != 0.0 && Sigma(a, r, cos) != 0.0 && sin * sin + cos * cos == 1.0
    requires t * Delta(m, a, r) == r * r + a * a && p * Delta(m, a, r) == a
    ensures Norm(Kerr(m, a, r, sin, cos), Vec4(t, if inward then -1.0 else 1.0, 0.0, p)) == 0.0
  {
    hide Kerr, Delta, Sigma, Norm, Form;
    var delta, sigma, u, q := Delta(m, a, r), Sigma(a, r, cos), sin * sin, r * r + a * a;
    var g := Kerr(m, a, r, sin, cos);
    var k := KerrParts(m, a, r, sin, cos, u, q, a * a * u);
    var tt, tp, pp := t * t, t * p, p * p;
    Squares(t, p, delta, q, a, delta * delta);
    NullAlgebra(k, a, q, u, a * a * u, sigma, delta, tt, tp, pp, g.a, g.b, g.c, g.e);
    NormAlong(g, t, if inward then -1.0 else 1.0, p, tt, tp, pp);
  }

  /** The entries of the time-angle block and the radial one. */
  lemma KerrParts(m: real, a: real, r: real, sin: real, cos: real, u: real, q: real, w: real) returns (k: real)
    requires Delta(m, a, r) != 0.0 && Sigma(a, r, cos) != 0.0 && sin * sin + cos * cos == 1.0
    requires u == sin * sin && q == r * r + a * a && w == a * a * u
    ensures Sigma(a, r, cos) == q - w && Delta(m, a, r) == q - k * Sigma(a, r, cos)
    ensures var g := Kerr(m, a, r, sin, cos);
      g.a == 1.0 - k && g.b == k * a * u && g.c == -Sigma(a, r, cos) / Delta(m, a, r) && g.e == -((q + k * w) * u)
  {
    hide *;
    k := MassTerm(m, a, r, sin, cos, u, q, w);
    RadialEntry(m, a, r, sin, cos);
  }

  lemma MassTerm(m: real, a: real, r: real, sin: real, cos: real, u: real, q: real, w: real) returns (k: real)
    requires Delta(m, a, r) != 0.0 && Sigma(a, r, cos) != 0.0 && sin * sin + cos * cos == 1.0
    requires u == sin * sin && q == r * r + a * a && w == a * a * u
    ensures Sigma(a, r, cos) == q - w && Delta(m, a, r) == q - k * Sigma(a, r, cos)
    ensures var g := Kerr(m, a, r, sin, cos); g.a == 1.0 - k && g.b == k * a * u && g.e == -((q + k * w) * u)
  {
    hide *;
    k := r * (2.0 * m) / Sigma(a, r, cos);
    KerrEntriesBy(m, a, r, sin, cos, k, u, q, w);
    SigmaBy(a, r, sin, cos, u, q, w);
    DeltaByMass(m, a, r, Sigma(a, r, cos), k, q);
  }

  lemma SigmaBy(a: real, r: real, sin: real, cos: real, u: real, q: real, w: real)
    requires sin * sin + cos * cos == 1.0 && u == sin * sin && q == r * r + a * a && w == a * a * u
    ensures Sigma(a, r, cos) == q - w
  {
    hide Sigma;
    SigmaBySine(a, r, sin, cos);
  }

  lemma KerrEntriesBy(m: real, a: real, r: real, sin: real, cos: real, k: real, u: real, q: real, w: real)
    requires Delta(m, a, r) != 0.0 && Sigma(a, r, cos) != 0.0 && k == r * (2.0 * m) / Sigma(a, r, cos)
    requires u == sin * sin && q == r * r + a * a && w == a * a * u
    ensures var g := Kerr(m, a, r, sin, cos); g.a == 1.0 - k && g.b == k * a * u && g.e == -((q + k * w) * u)
  {
    hide Kerr, Delta, Sigma;
    KerrEntries(m, a, r, sin, cos, k);
  }

  lemma DeltaByMass(m: real, a: real, r: real, sigma: real, k: real, q: real)
    requires sigma != 0.0 && k == r * (2.0 * m) / sigma && q == r * r + a * a
    ensures Delta(m, a, r) == q - k * sigma
  {
    assert k * sigma == r * (2.0 * m);
    assert (r - 2.0 * m) * r == r * r - r * (2.0 * m);
  }

  lemma NormAlong(g: Metric, t: real, s: real, p: real, tt: real, tp: real, pp: real)
    requires (s == 1.0 || s == -1.0) && tt == t * t && tp == t * p && pp == p * p
    ensures Norm(g, Vec4(t, s, 0.0, p)) == Form(g.a, g.b, g.c, g.e, tt, tp, pp)
  {
    assert s * s == 1.0;
  }

  function Form(ga: real, gb: real, gc: real, ge: real, tt: real, tp: real, pp: real): real
  {
    ga * tt + 2.0 * (gb * tp) + gc + ge * pp
  }

  lemma RadialEntry(m: real, a: real, r: real, sin: real, cos: real)
    requires Delta(m, a, r) != 0.0 && Sigma(a, r, cos) != 0.0
    ensures Kerr(m, a, r, sin, cos).c == -Sigma(a, r, cos) / Delta(m, a, r)
  {
  }

  lemma NullAlgebra(k: real, a: real, q: real, u: real, w: real, sigma: real, delta: real,
                    tt: real, tp: real, pp: real, ga: real, gb: real, gc: real, ge: real)
    requires delta != 0.0 && w == a * a * u && sigma == q - w && delta == q - k * sigma
    requires tt * (delta * delta) == q * q && tp * (delta * delta) == q * a && pp * (delta * delta) == a * a
    requires ga == 1.0 - k && gb == k * a * u && gc == -sigma / delta && ge == -((q + k * w) * u)
    ensures Form(ga, gb, gc, ge, tt, tp, pp) == 0.0
  {
    hide Form, Times;
    var dd, q2, qa, aa := delta * delta, q * q, q * a, a * a;
    TimesTerms(ga, gb, gc, ge, tt, tp, pp, dd, q2, qa, aa);
    RadialTerm(gc, sigma, delta, dd);
    NullTerms(k, a, q, u, w, ga, gb, ge, q2, qa, aa);
    NullSum(k, w, q, sigma, delta, Times(ga, q2), Times(gb, qa), Times(gc, dd), Times(ge, aa));
    ZeroQuotient(Form(ga, gb, gc, ge, tt, tp, pp), dd);
  }

  lemma Squares(t: real, p: real, delta: real, q: real, a: real, dd: real)
    requires t * delta == q && p * delta == a && dd == delta * delta
    ensures t * t * dd == q * q && t * p * dd == q * a && p * p * dd == a * a
  {
    assert t * t * dd == (t * delta) * (t * delta);
    assert t * p * dd == (t * delta) * (p * delta);
    assert p * p * dd == (p * delta) * (p * delta);
  }

  lemma RadialTerm(gc: real, sigma: real, delta: real, dd: real)
    requires delta != 0.0 && gc == -sigma / delta && dd == delta * delta
    ensures Times(gc, dd) == -(sigma * delta) && dd > 0.0
  {
    TimesPositive(delta, delta);
    assert gc * delta == -sigma;
    assert gc * dd == gc * delta * delta;
  }

  lemma ZeroQuotient(x: real, dd: real)
    requires Times(x, dd) == 0.0 && dd != 0.0
    ensures x == 0.0
  {
    if x != 0.0 {
      NonzeroProduct(x, dd);
    }
  }

  lemma TimesTerms(ga: real, gb: real, gc: real, ge: real, tt: real, tp: real, pp: real, dd: real,
                   q2: real, qa: real, aa: real)
    requires tt * dd == q2 && tp * dd == qa && pp * dd == aa
    ensures Times(Form(ga, gb, gc, ge, tt, tp, pp), dd)
         == Times(ga, q2) + 2.0 * Times(gb, qa) + Times(gc, dd) + Times(ge, aa)
  {
    assert ga * tt * dd == ga * (tt * dd) && gb * tp * dd == gb * (tp * dd) && ge * pp * dd == ge * (pp * dd);
  }

  lemma NullTerms(k: real, a: real, q: real, u: real, w: real, ga: real, gb: real, ge: real,
                  q2: real, qa: real, aa: real)
    requires w == a * a * u && ga == 1.0 - k && gb == k * a * u && ge == -((q + k * w) * u)
    requires q2 == q * q && qa == q * a && aa == a * a
    ensures Times(ga, q2) == (1.0 - k) * (q * q) && Times(gb, qa) == k * (w * q)
    ensures Times(ge, aa) == -((q + k * w) * w)
  {
    var y := q + k * w;
    assert y * u * (a * a) == y * w;
    assert k * a * u * (q * a) == k * (a * a * u * q);
  }

  lemma NullSum(k: real, w: real, q: real, sigma: real, delta: real, x: real, y: real, z: real, e: real)
    requires sigma == q - w && delta == q - k * sigma
    requires x == (1.0 - k) * (q * q) && y == k * (w * q) && z == -(sigma * delta) && e == -((q + k * w) * w)
    ensures x + 2.0 * y + z + e == 0.0
  {
  }

  /** Without mass, space is flat: the entries are the squared lengths of the coordinate lines of the oblate
      coordinates (R sin o cos p, R sin o sin p, r cos o), where R^2 = r^2 + a^2. */
  lemma MasslessIsFlat(a: real, r: real, sin: real, cos: real, R: real)
    requires R != 0.0 && R * R == r * r + a * a && sin * sin + cos * cos == 1.0
    ensures Delta(0.0, a, r) != 0.0
    ensures Sigma(a, r, cos) != 0.0 ==>
      var g, s := Kerr(0.0, a, r, sin, cos), r * sin / R;
      && g.a == 1.0 && g.b == 0.0
      && g.c == -(s * s + cos * cos)
      && g.d == -((R * cos) * (R * cos) + (r * sin) * (r * sin))
      && g.e == -((R * sin) * (R * sin))
  {
    if R > 0.0 {
      TimesPositive(R, R);
    } else {
      TimesPositive(-R, -R);
    }
    var sigma, q := Sigma(a, r, cos), R * R;
    assert q > 0.0 && Delta(0.0, a, r) == q;
    SigmaBySine(a, r, sin, cos);
    if sigma != 0.0 {
      KerrEntries(0.0, a, r, sin, cos, 0.0);
      RadialEntry(0.0, a, r, sin, cos);
      FlatSigma(a, r, sin, cos, R, sigma);
      FlatRadial(r, sin, cos, R, sigma, q);
      assert (R * sin) * (R * sin) == q * (sin * sin);
    }
  }

  lemma FlatSigma(a: real, r: real, sin: real, cos: real, R: real, sigma: real)
    requires R * R == r * r + a * a && sin * sin + cos * cos == 1.0 && sigma == r * r + a * a - a * a * (sin * sin)
    ensures sigma == (R * cos) * (R * cos) + (r * sin) * (r * sin)
  {
    var q, u := R * R, sin * sin;
    assert (R * cos) * (R * cos) == q * (1.0 - u);
    assert (r * sin) * (r * sin) == r * r * u;
    assert q * (1.0 - u) == q - (r * r + a * a) * u;
  }

  lemma FlatRadial(r: real, sin: real, cos: real, R: real, sigma: real, q: real)
    requires R != 0.0 && sigma == (R * cos) * (R * cos) + (r * sin) * (r * sin) && q == R * R && q != 0.0
    ensures var s := r * sin / R; -sigma / q == -(s * s + cos * cos)
  {
    var s := r * sin / R;
    assert s * R == r * sin;
    assert s * s * q == (s * R) * (s * R);
    assert cos * cos * q == (R * cos) * (R * cos);
    DivideOut(s * s + cos * cos, q, sigma);
  }

  lemma DivideOut(x: real, q: real, sigma: real)
    requires q != 0.0 && x * q == sigma
    ensures -sigma / q == -x
  {
  }

  /** Without spin, the rotating black hole is the static one. */
  lemma SpinlessIsStatic(m: real, r: real, sin: real, cos: real)
    requires r != 0.0 && r != 2.0 * m
    ensures StaticMetric(m, r, sin) == RotatingMetric(m, 0.0, r, sin, cos)
  {
    var delta, sigma := Delta(m, 0.0, r), Sigma(0.0, r, cos);
    NonzeroProduct(r, r);
    NonzeroProduct(r - 2.0 * m, r);
    assert delta == (r - 2.0 * m) * r && sigma == r * r;
    SpinlessEntries(m, r, sigma, delta);
    assert 0.0 * sin == 0.0 && 2.0 * m * r * (0.0 * 0.0) == 0.0;
    assert (r * sin) * (r * sin) == r * r * (sin * sin);
  }

  lemma NonzeroProduct(x: real, y: real)
    requires x != 0.0 && y != 0.0
    ensures x * y != 0.0
  {
    if x > 0.0 && y > 0.0 {
      TimesPositive(x, y);
    } else if x < 0.0 && y < 0.0 {
      TimesPositive(x, y);
    } else if x > 0.0 {
      TimesPositive(x, -y);
      assert Times(x, -y) == -(x * y);
    } else {
      TimesPositive(-x, y);
      assert Times(-x, y) == -(x * y);
    }
  }

  lemma SpinlessEntries(m: real, r: real, sigma: real, delta: real)
    requires r != 0.0 && r != 2.0 * m && sigma == r * r && sigma != 0.0 && delta == (r - 2.0 * m) * r && delta != 0.0
    ensures r * (2.0 * m) / sigma == 2.0 * m / r
    ensures 1.0 - 2.0 * m / r != 0.0 && -sigma / delta == -1.0 / (1.0 - 2.0 * m / r)
  {
    var k := 2.0 * m / r;
    assert k * r == 2.0 * m;
    assert k * sigma == r * (2.0 * m);
    var f := 1.0 - k;
    assert f * r == r - 2.0 * m;
    assert f != 0.0;
    assert f * sigma == delta;
    var x := -1.0 / f;
    assert x * f == -1.0;
    assert x * delta == -sigma;
  }

  // ----- The horizon cut

  /** Wherever a row of a rotating black hole is still traced, it is outside the horizon, and off the axis the metric
      has the inverse that its acceleration is computed with. */
  lemma TracedIsRegular(sc: Scene, m: real, a: real, sin: real -> real, cos: real -> real, ray: Ray)
    requires InSpace(sc, Rotating(m, a), sin, cos) && IsRoot(sc.root) && m > 0.0 && -m < a < m
    requires Tracing(sc, ray) && sin(ray.pos.o) * sin(ray.pos.o) + cos(ray.pos.o) * cos(ray.pos.o) == 1.0
    ensures ray.t < sc.time && ray.pos.r > 0.0 && Delta(m, a, ray.pos.r) > 0.0
    ensures var g := MetricAt(Rotating(m, a), sin, cos, ray.pos);
      sin(ray.pos.o) != 0.0 ==> Inverse(g, InverseAt(g))
  {
    hide Inverse, Kerr, InvMetric, Det, IsRoot, Horizon, Geodesic;
    var h := sc.root(m * m - a * a);
    HorizonRoot(sc.root, m, a);
    SelectedOutsideHorizon(sc.root, m, a, ray.pos.r, h);
    KerrInvertible(sc.root, m, a, ray.pos.r, sin(ray.pos.o), cos(ray.pos.o), h);
  }

  lemma HorizonRoot(root: real -> real, m: real, a: real)
    requires IsRoot(root) && m > 0.0 && -m < a < m
    ensures var h := root(m * m - a * a); h >= 0.0 && h * h == m * m - a * a
  {
    TimesPositive(m - a, m + a);
    assert Times(m - a, m + a) == m * m - a * a;
  }

  /** A ray whose row was removed at or under the cut of a rotating black hole shows the objects it met and no
      background; one whose row was removed above the cut has used up its time, and shows the background too. */
  lemma RemovedPixel(sc: Scene, m: real, a: real, sin: real -> real, cos: real -> real,
                     starts: seq<Ray>, checks: nat, removing: bool, n: nat, i: nat)
    requires InSpace(sc, Rotating(m, a), sin, cos) && checks > 0 && i < |starts|
    requires i !in RowsAt(sc, starts, removing, n)
    ensures var k := Walked(sc, starts, removing, i, n);
      var c, last := k / checks, RayAt(sc, starts[i], k);
      if last.pos.r <= 1.01 * Horizon(sc.root, m, a) then
        Picture(sc, starts, checks, removing, n, i) == ObjectsAfter(sc, starts[i], checks, c).Plus(BLACK)
      else
        last.t >= sc.time
        && Picture(sc, starts, checks, removing, n, i) == PixelAfter(sc, starts[i], checks, c)
  {
    hide RayAt, RowsAt, Walked, ObjectsAfter, BackgroundAfter, Color.Plus, Picture, Horizon, Geodesic;
    RemovedIsDone(sc, starts, removing, i, n);
    PictureOf(sc, starts, checks, removing, n, i);
  }
}
