/** The accelerations of the rays: the metric of each scene, its differences along the coordinates, and their
    contraction with the velocity. */
module Geodesics {
  import opened Reals
  import opened RayStepping
  import opened KerrMetric

  /** The scenes: a rotating and a static black hole of mass m, and a wormhole of throat b. */
  datatype Space = Rotating(m: real, a: real) | Static(m: real) | Wormhole(b: real)

  const NONE := Metric(0.0, 0.0, 0.0, 0.0, 0.0)

  function RotatingMetric(m: real, a: real, r: real, s: real, c: real): Metric
  {
    if Delta(m, a, r) == 0.0 || Sigma(a, r, c) == 0.0 then NONE else Kerr(m, a, r, s, c)
  }

  function StaticMetric(m: real, r: real, s: real): Metric
  {
    if r == 0.0 || r == 2.0 * m then NONE
    else
      var f := 1.0 - 2.0 * m / r;
      Metric(f, 0.0, Quotient(-1.0, f), -r * r, -((r * s) * (r * s)))
  }

  function WormholeMetric(b: real, r: real, s: real): Metric
  {
    Metric(1.0, 0.0, -1.0, -(r * r + b * b), -(r * r + b * b) * (s * s))
  }

  /** The metric at a position; where a divisor is zero its entries are not finite, and zeros stand for them. */
  function MetricAt(space: Space, sin: real -> real, cos: real -> real, pos: Vec4): Metric
  {
    match space
    case Rotating(m, a) => RotatingMetric(m, a, pos.r, sin(pos.o), cos(pos.o))
    case Static(m) => StaticMetric(m, pos.r, sin(pos.o))
    case Wormhole(b) => WormholeMetric(b, pos.r, sin(pos.o))
  }

  function InverseAt(g: Metric): Metric
  {
    if Det(g) == 0.0 || g.c == 0.0 || g.d == 0.0 then NONE else InvMetric(g)
  }

  function Coordinate(v: Vec4, i: nat): real
  {
    match i case 0 => v.t case 1 => v.r case 2 => v.o case _ => v.p
  }

  function Moved(pos: Vec4, i: nat, h: real): Vec4
  {
    match i
    case 0 => pos.(t := pos.t + h)
    case 1 => pos.(r := pos.r + h)
    case 2 => pos.(o := pos.o + h)
    case _ => pos.(p := pos.p + h)
  }

  /** The spacing of the difference points. */
  function Spacing(x: real): real
  {
    x * 0.000001 + 0.000000000001
  }

  /** The five-point difference of four values. */
  function FivePoint(far: real, near: real, near': real, far': real, h: real): real
  {
    Quotient(-far + near * 8.0 - near' * 8.0 + far', h * 12.0)
  }

  function DifferenceOf(far: Metric, near: Metric, near': Metric, far': Metric, h: real): Metric
  {
    Metric(FivePoint(far.a, near.a, near'.a, far'.a, h), FivePoint(far.b, near.b, near'.b, far'.b, h),
           FivePoint(far.c, near.c, near'.c, far'.c, h), FivePoint(far.d, near.d, near'.d, far'.d, h),
           FivePoint(far.e, near.e, near'.e, far'.e, h))
  }

  /** The partial differences of the metric with respect to coordinate i; no scene depends on the time. */
  function Partial(space: Space, sin: real -> real, cos: real -> real, pos: Vec4, i: nat): Metric
  {
    if i == 0 then NONE
    else
      var h := Spacing(Coordinate(pos, i));
      DifferenceOf(MetricAt(space, sin, cos, Moved(pos, i, h * 2.0)),
                   MetricAt(space, sin, cos, Moved(pos, i, h)),
                   MetricAt(space, sin, cos, Moved(pos, i, -h)),
                   MetricAt(space, sin, cos, Moved(pos, i, -(h * 2.0))), h)
  }

  /** The partial differences with respect to all coordinates. */
  datatype Partials = Partials(dr: Metric, dtheta: Metric, dphi: Metric)

  function Along(d: Partials, k: nat): Metric
  {
    match k case 0 => NONE case 1 => d.dr case 2 => d.dtheta case _ => d.dphi
  }

  function PartialsAt(space: Space, sin: real -> real, cos: real -> real, pos: Vec4): Partials
  {
    Partials(Partial(space, sin, cos, pos, 1), Partial(space, sin, cos, pos, 2), Partial(space, sin, cos, pos, 3))
  }

  /** inverse(i, .) times the partial k of the metric, at column j. */
  function Raised(inverse: Metric, d: Partials, i: nat, j: nat, k: nat): real
    requires i < 4 && j < 4 && k < 4
  {
    Element(inverse, i, 0) * Element(Along(d, k), 0, j) + Element(inverse, i, 1) * Element(Along(d, k), 1, j)
    + Element(inverse, i, 2) * Element(Along(d, k), 2, j) + Element(inverse, i, 3) * Element(Along(d, k), 3, j)
  }

  /** inverse(i, .) times the partials of entry (j, k). */
  function Lowered(inverse: Metric, d: Partials, i: nat, j: nat, k: nat): real
    requires i < 4 && j < 4 && k < 4
  {
    Element(inverse, i, 0) * Element(Along(d, 0), j, k) + Element(inverse, i, 1) * Element(Along(d, 1), j, k)
    + Element(inverse, i, 2) * Element(Along(d, 2), j, k) + Element(inverse, i, 3) * Element(Along(d, 3), j, k)
  }

  function Christoffel(inverse: Metric, d: Partials, i: nat, j: nat, k: nat): real
    requires i < 4 && j < 4 && k < 4
  {
    -0.5 * (Raised(inverse, d, i, j, k) + Raised(inverse, d, i, k, j) - Lowered(inverse, d, i, j, k))
  }

  function RowSum(inverse: Metric, d: Partials, u: Vec4, i: nat, k: nat): real
    requires i < 4 && k < 4
  {
    Christoffel(inverse, d, i, 0, k) * (u.t * Coordinate(u, k))
    + Christoffel(inverse, d, i, 1, k) * (u.r * Coordinate(u, k))
    + Christoffel(inverse, d, i, 2, k) * (u.o * Coordinate(u, k))
    + Christoffel(inverse, d, i, 3, k) * (u.p * Coordinate(u, k))
  }

  function Contracted(inverse: Metric, d: Partials, u: Vec4, i: nat): real
    requires i < 4
  {
    RowSum(inverse, d, u, i, 0) + RowSum(inverse, d, u, i, 1)
    + RowSum(inverse, d, u, i, 2) + RowSum(inverse, d, u, i, 3)
  }

  /** The acceleration of a ray. */
  function Geodesic(space: Space, sin: real -> real, cos: real -> real, pos: Vec4, vel: Vec4): Vec4
  {
    var inverse := InverseAt(MetricAt(space, sin, cos, pos));
    var d := PartialsAt(space, sin, cos, pos);
    Vec4(Contracted(inverse, d, vel, 0), Contracted(inverse, d, vel, 1),
         Contracted(inverse, d, vel, 2), Contracted(inverse, d, vel, 3))
  }

  // ----- The wormhole

  /** The difference is exact on squares. */
  lemma FivePointSquare(r: real, h: real, c: real, s: real)
    requires h != 0.0
    ensures FivePoint(-((r + h * 2.0) * (r + h * 2.0) + c) * s, -((r + h) * (r + h) + c) * s,
                      -((r + -h) * (r + -h) + c) * s, -((r + -(h * 2.0)) * (r + -(h * 2.0)) + c) * s, h)
         == -2.0 * r * s
  {
    var num := -(-((r + h * 2.0) * (r + h * 2.0) + c) * s) + (-((r + h) * (r + h) + c) * s) * 8.0
               - (-((r + -h) * (r + -h) + c) * s) * 8.0 + (-((r + -(h * 2.0)) * (r + -(h * 2.0)) + c) * s);
    SquareDifference(r, h, c, s);
    assert num == -2.0 * r * s * (h * 12.0);
    DivideExactly(-2.0 * r * s, h * 12.0);
  }

  lemma SquareDifference(r: real, h: real, c: real, s: real)
    ensures -(-((r + h * 2.0) * (r + h * 2.0) + c) * s) + (-((r + h) * (r + h) + c) * s) * 8.0
            - (-((r + -h) * (r + -h) + c) * s) * 8.0 + (-((r + -(h * 2.0)) * (r + -(h * 2.0)) + c) * s)
         == -2.0 * r * s * (h * 12.0)
  {
    var a, b, b', a' := (r + h * 2.0) * (r + h * 2.0) + c, (r + h) * (r + h) + c, (r + -h) * (r + -h) + c,
                        (r + -(h * 2.0)) * (r + -(h * 2.0)) + c;
    assert a - 8.0 * b + 8.0 * b' - a' == -24.0 * (r * h);
    assert -(-a * s) + (-b * s) * 8.0 - (-b' * s) * 8.0 + (-a' * s) == (a - 8.0 * b + 8.0 * b' - a') * s;
  }

  /** a + b s + c s^2 + d s^3 + e s^4. */
  function Quartic(a: real, b: real, c: real, d: real, e: real, s: real): real
  {
    a + b * s + c * (s * s) + d * (s * s * s) + e * (s * s * s * s)
  }

  /** The five-point difference of a polynomial of the fourth order is its derivative. */
  lemma FivePointExact(a: real, b: real, c: real, d: real, e: real, h: real)
    requires h != 0.0
    ensures FivePoint(Quartic(a, b, c, d, e, h * 2.0), Quartic(a, b, c, d, e, h), Quartic(a, b, c, d, e, -h),
                      Quartic(a, b, c, d, e, -(h * 2.0)), h) == b
  {
    hide Quartic, FivePoint;
    var bh, ch, dh, eh := b * h, c * (h * h), d * (h * h * h), e * (h * h * h * h);
    QuarticPoints(a, b, c, d, e, h, bh, ch, dh, eh);
    FivePointOf(Quartic(a, b, c, d, e, h * 2.0), Quartic(a, b, c, d, e, h), Quartic(a, b, c, d, e, -h),
                Quartic(a, b, c, d, e, -(h * 2.0)), h, b, bh);
  }

  ghost predicate Terms(b: real, c: real, d: real, e: real, h: real, bh: real, ch: real, dh: real, eh: real)
  {
    bh == b * h && ch == c * (h * h) && dh == d * (h * h * h) && eh == e * (h * h * h * h)
  }

  lemma QuarticPoints(a: real, b: real, c: real, d: real, e: real, h: real, bh: real, ch: real, dh: real, eh: real)
    requires Terms(b, c, d, e, h, bh, ch, dh, eh)
    ensures Quartic(a, b, c, d, e, h * 2.0) == a + 2.0 * bh + 4.0 * ch + 8.0 * dh + 16.0 * eh
    ensures Quartic(a, b, c, d, e, h) == a + bh + ch + dh + eh
    ensures Quartic(a, b, c, d, e, -h) == a - bh + ch - dh + eh
    ensures Quartic(a, b, c, d, e, -(h * 2.0)) == a - 2.0 * bh + 4.0 * ch - 8.0 * dh + 16.0 * eh
  {
    QuarticTwice(a, b, c, d, e, h, h * 2.0, bh, ch, dh, eh);
    QuarticOnce(a, b, c, d, e, h, h, bh, ch, dh, eh);
    QuarticOnce(a, b, c, d, e, h, -h, bh, ch, dh, eh);
    QuarticTwice(a, b, c, d, e, h, -(h * 2.0), bh, ch, dh, eh);
  }

  lemma FivePointOf(far: real, near: real, near': real, far': real, h: real, b: real, bh: real)
    requires h != 0.0 && bh == b * h && -far + near * 8.0 - near' * 8.0 + far' == 12.0 * bh
    ensures FivePoint(far, near, near', far', h) == b
  {
    assert 12.0 * bh == b * (h * 12.0);
    DivideExactly(b, h * 12.0);
  }

  lemma QuarticOnce(a: real, b: real, c: real, d: real, e: real, h: real, s: real,
                    bh: real, ch: real, dh: real, eh: real)
    requires Terms(b, c, d, e, h, bh, ch, dh, eh) && (s == h || s == -h)
    ensures Quartic(a, b, c, d, e, s) == if s == h then a + bh + ch + dh + eh else a - bh + ch - dh + eh
  {
    if s == -h {
      assert s * s == h * h && s * s * s == -(h * h * h) && s * s * s * s == h * h * h * h;
    }
  }

  lemma QuarticTwice(a: real, b: real, c: real, d: real, e: real, h: real, s: real,
                     bh: real, ch: real, dh: real, eh: real)
    requires Terms(b, c, d, e, h, bh, ch, dh, eh) && (s == h * 2.0 || s == -(h * 2.0))
    ensures Quartic(a, b, c, d, e, s) == if s == h * 2.0 then a + 2.0 * bh + 4.0 * ch + 8.0 * dh + 16.0 * eh
                                         else a - 2.0 * bh + 4.0 * ch - 8.0 * dh + 16.0 * eh
  {
    if s == h * 2.0 {
      assert s * s == 4.0 * (h * h) && s * s * s == 8.0 * (h * h * h) && s * s * s * s == 16.0 * (h * h * h * h);
    } else {
      assert s * s == 4.0 * (h * h) && s * s * s == -8.0 * (h * h * h) && s * s * s * s == 16.0 * (h * h * h * h);
    }
  }

  lemma DivideExactly(q: real, d: real)
    requires d != 0.0
    ensures Quotient(q * d, d) == q
  {
  }

  lemma FivePointConstant(x: real, h: real)
    ensures FivePoint(x, x, x, x, h) == 0.0
  {
    assert -x + x * 8.0 - x * 8.0 + x == 0.0;
  }

  lemma WormholeMoved(b: real, sin: real -> real, cos: real -> real, pos: Vec4, x: real)
    ensures MetricAt(Wormhole(b), sin, cos, Moved(pos, 1, x)) == WormholeMetric(b, pos.r + x, sin(pos.o))
    ensures MetricAt(Wormhole(b), sin, cos, Moved(pos, 2, x)) == WormholeMetric(b, pos.r, sin(pos.o + x))
    ensures MetricAt(Wormhole(b), sin, cos, Moved(pos, 3, x)) == WormholeMetric(b, pos.r, sin(pos.o))
  {
    hide RotatingMetric, StaticMetric, WormholeMetric;
  }

  /** Along the radius, the differences of the wormhole metric are its derivatives. */
  lemma RadialDifference(b: real, r: real, s: real, h: real)
    requires h != 0.0
    ensures DifferenceOf(WormholeMetric(b, r + h * 2.0, s), WormholeMetric(b, r + h, s), WormholeMetric(b, r + -h, s),
                         WormholeMetric(b, r + -(h * 2.0), s), h)
         == Metric(0.0, 0.0, 0.0, -2.0 * r, -2.0 * r * (s * s))
  {
    FivePointConstant(1.0, h);
    FivePointConstant(0.0, h);
    FivePointConstant(-1.0, h);
    FivePointSquare(r, h, b * b, 1.0);
    FivePointSquare(r, h, b * b, s * s);
    FactorOne(r, h, b * b);
  }

  lemma FactorOne(r: real, h: real, c: real)
    requires h != 0.0
    ensures FivePoint(-((r + h * 2.0) * (r + h * 2.0) + c), -((r + h) * (r + h) + c),
                      -((r + -h) * (r + -h) + c), -((r + -(h * 2.0)) * (r + -(h * 2.0)) + c), h)
         == -2.0 * r
  {
    FivePointSquare(r, h, c, 1.0);
    var x, y, y', x' := -((r + h * 2.0) * (r + h * 2.0) + c), -((r + h) * (r + h) + c),
                        -((r + -h) * (r + -h) + c), -((r + -(h * 2.0)) * (r + -(h * 2.0)) + c);
    assert x * 1.0 == x && y * 1.0 == y && y' * 1.0 == y' && x' * 1.0 == x';
  }

  lemma RadialPartial(b: real, sin: real -> real, cos: real -> real, pos: Vec4)
    requires Spacing(pos.r) != 0.0
    ensures var s := sin(pos.o);
      Partial(Wormhole(b), sin, cos, pos, 1) == Metric(0.0, 0.0, 0.0, -2.0 * pos.r, -2.0 * pos.r * (s * s))
  {
    hide MetricAt, DifferenceOf, WormholeMetric, Spacing, Moved;
    var h := Spacing(pos.r);
    WormholeMoved(b, sin, cos, pos, h * 2.0);
    WormholeMoved(b, sin, cos, pos, h);
    WormholeMoved(b, sin, cos, pos, -h);
    WormholeMoved(b, sin, cos, pos, -(h * 2.0));
    RadialDifference(b, pos.r, sin(pos.o), h);
  }

  lemma SameDifference(far: Metric, near: Metric, near': Metric, far': Metric, h: real)
    requires far.a == near.a == near'.a == far'.a && far.b == near.b == near'.b == far'.b
    requires far.c == near.c == near'.c == far'.c && far.d == near.d == near'.d == far'.d
    ensures var d := DifferenceOf(far, near, near', far', h);
      d.a == 0.0 && d.b == 0.0 && d.c == 0.0 && d.d == 0.0
      && (far.e == near.e == near'.e == far'.e ==> d == NONE)
  {
    hide FivePoint;
    FivePointConstant(far.a, h);
    FivePointConstant(far.b, h);
    FivePointConstant(far.c, h);
    FivePointConstant(far.d, h);
    FivePointConstant(far.e, h);
  }

  /** Along the polar angle only the last entry changes, and along the other angle nothing. */
  lemma AngularPartials(b: real, sin: real -> real, cos: real -> real, pos: Vec4)
    ensures var d := Partial(Wormhole(b), sin, cos, pos, 2);
      d.a == 0.0 && d.b == 0.0 && d.c == 0.0 && d.d == 0.0
    ensures Partial(Wormhole(b), sin, cos, pos, 3) == NONE
  {
    hide MetricAt, DifferenceOf, Spacing, Moved;
    forall i | 2 <= i <= 3
      ensures var d := Partial(Wormhole(b), sin, cos, pos, i);
        d.a == 0.0 && d.b == 0.0 && d.c == 0.0 && d.d == 0.0 && (i == 3 ==> d == NONE)
    {
      var h := Spacing(Coordinate(pos, i));
      WormholeMoved(b, sin, cos, pos, h * 2.0);
      WormholeMoved(b, sin, cos, pos, h);
      WormholeMoved(b, sin, cos, pos, -h);
      WormholeMoved(b, sin, cos, pos, -(h * 2.0));
      SameDifference(MetricAt(Wormhole(b), sin, cos, Moved(pos, i, h * 2.0)),
                     MetricAt(Wormhole(b), sin, cos, Moved(pos, i, h)),
                     MetricAt(Wormhole(b), sin, cos, Moved(pos, i, -h)),
                     MetricAt(Wormhole(b), sin, cos, Moved(pos, i, -(h * 2.0))), h);
    }
  }

  /** A metric and its differences as in the wormhole. */
  ghost predicate RoundWormhole(inverse: Metric, d: Partials, area: real)
  {
    && area != 0.0 && inverse.a == 1.0 && inverse.b == 0.0 && inverse.c == -1.0 && inverse.d == -1.0 / area
    && d.dr.a == 0.0 && d.dr.b == 0.0 && d.dr.c == 0.0
    && d.dtheta.a == 0.0 && d.dtheta.b == 0.0 && d.dtheta.c == 0.0 && d.dtheta.d == 0.0
    && d.dphi == NONE
  }

  /** With a diagonal inverse and diagonal differences, a raised difference has one term. */
  lemma RaisedIs(inverse: Metric, d: Partials, area: real, i: nat, j: nat, k: nat)
    requires RoundWormhole(inverse, d, area) && i < 4 && j < 4 && k < 4
    ensures Raised(inverse, d, i, j, k) == if i == j then Element(inverse, i, i) * Element(Along(d, k), i, i) else 0.0
    ensures Lowered(inverse, d, i, j, k) == if j == k then Element(inverse, i, i) * Element(Along(d, i), j, j) else 0.0
  {
    hide Element, Along;
    forall x: nat, y: nat | x < 4 && y < 4 && x != y ensures Element(inverse, x, y) == 0.0 {
      Mixed(inverse, x, y);
    }
    forall m: nat, x: nat, y: nat | m < 4 && x < 4 && y < 4 && x != y ensures Element(Along(d, m), x, y) == 0.0 {
      AlongDiagonal(inverse, d, area, m);
      Mixed(Along(d, m), x, y);
    }
  }

  lemma Mixed(g: Metric, i: nat, j: nat)
    requires g.b == 0.0 && i < 4 && j < 4 && i != j
    ensures Element(g, i, j) == 0.0
  {
  }

  lemma AlongDiagonal(inverse: Metric, d: Partials, area: real, k: nat)
    requires RoundWormhole(inverse, d, area) && k < 4
    ensures Along(d, k).b == 0.0
  {
  }

  lemma Entries(inverse: Metric, d: Partials, area: real)
    requires RoundWormhole(inverse, d, area)
    ensures Element(inverse, 0, 0) == 1.0 && Element(inverse, 1, 1) == -1.0 && Element(inverse, 2, 2) == -1.0 / area
    ensures forall k: nat | k < 4 :: Element(Along(d, k), 0, 0) == 0.0 && Element(Along(d, k), 1, 1) == 0.0
    ensures Element(Along(d, 0), 2, 2) == 0.0 && Element(Along(d, 0), 3, 3) == 0.0
    ensures Element(Along(d, 1), 2, 2) == d.dr.d && Element(Along(d, 2), 2, 2) == 0.0
    ensures Element(Along(d, 3), 2, 2) == 0.0 && Element(Along(d, 3), 3, 3) == 0.0
  {
  }

  /** The products of a velocity that has no component along phi. */
  lemma RowSumIs(inverse: Metric, d: Partials, area: real, u: Vec4, i: nat, k: nat)
    requires RoundWormhole(inverse, d, area) && u.p == 0.0 && i < 4 && k < 4
    ensures RowSum(inverse, d, u, i, k) ==
      if i == 1 && k == 2 then -0.5 * d.dr.d * (u.o * u.o)
      else if i == 2 && k == 1 then -0.5 * (-1.0 / area * d.dr.d) * (u.o * u.r)
      else if i == 2 && k == 2 then -0.5 * (-1.0 / area * d.dr.d) * (u.r * u.o)
      else 0.0
  {
    hide Element, Along, Raised, Lowered;
    Entries(inverse, d, area);
    RaisedIs(inverse, d, area, i, 0, k);
    RaisedIs(inverse, d, area, i, 1, k);
    RaisedIs(inverse, d, area, i, 2, k);
    RaisedIs(inverse, d, area, i, k, 0);
    RaisedIs(inverse, d, area, i, k, 1);
    RaisedIs(inverse, d, area, i, k, 2);
  }

  lemma RowSums(inverse: Metric, d: Partials, area: real, u: Vec4)
    requires RoundWormhole(inverse, d, area) && u.p == 0.0
    ensures Contracted(inverse, d, u, 0) == 0.0 && Contracted(inverse, d, u, 3) == 0.0
    ensures Contracted(inverse, d, u, 1) == -0.5 * d.dr.d * (u.o * u.o)
    ensures Contracted(inverse, d, u, 2)
         == -0.5 * (-1.0 / area * d.dr.d) * (u.o * u.r) + -0.5 * (-1.0 / area * d.dr.d) * (u.r * u.o)
  {
    hide RowSum;
    forall i: nat, k: nat | i < 4 && k < 4
      ensures RowSum(inverse, d, u, i, k) ==
        if i == 1 && k == 2 then -0.5 * d.dr.d * (u.o * u.o)
        else if i == 2 && k == 1 then -0.5 * (-1.0 / area * d.dr.d) * (u.o * u.r)
        else if i == 2 && k == 2 then -0.5 * (-1.0 / area * d.dr.d) * (u.r * u.o)
        else 0.0
    {
      RowSumIs(inverse, d, area, u, i, k);
    }
  }

  /** The difference spacings at a position are not zero. */
  predicate Spaced(pos: Vec4)
  {
    Spacing(pos.r) != 0.0 && Spacing(pos.o) != 0.0 && Spacing(pos.p) != 0.0
  }

  /** The squared radius of the wormhole at distance r from its throat. */
  function Area(b: real, r: real): real
  {
    r * r + b * b
  }

  lemma AreaPositive(b: real, r: real)
    requires b > 0.0
    ensures Area(b, r) > 0.0
  {
    TimesPositive(b, b);
    TimesNonneg(r, r);
    assert Area(b, r) == Times(r, r) + Times(b, b);
  }

  lemma InverseWormhole(b: real, sin: real -> real, cos: real -> real, pos: Vec4)
    requires b > 0.0 && sin(pos.o) != 0.0
    ensures var area := Area(b, pos.r);
      var g := InverseAt(MetricAt(Wormhole(b), sin, cos, pos));
      area > 0.0 && g.a == 1.0 && g.b == 0.0 && g.c == -1.0 && g.d == -1.0 / area
  {
    hide RotatingMetric, StaticMetric;
    var s, area := sin(pos.o), Area(b, pos.r);
    AreaPositive(b, pos.r);
    if s > 0.0 {
      TimesPositive(s, s);
    } else {
      TimesPositive(-s, -s);
    }
    TimesPositive(area, Times(s, s));
    WormholeInverse(area, Times(area, Times(s, s)));
    assert MetricAt(Wormhole(b), sin, cos, pos) == Metric(1.0, 0.0, -1.0, -area, -Times(area, Times(s, s)));
  }

  lemma WormholeInverse(area: real, e: real)
    requires area > 0.0 && e > 0.0
    ensures var g := InverseAt(Metric(1.0, 0.0, -1.0, -area, -e));
      g.a == 1.0 && g.b == 0.0 && g.c == -1.0 && g.d == -1.0 / area
  {
    assert Det(Metric(1.0, 0.0, -1.0, -area, -e)) == e;
    assert -(-e) / e == 1.0 && 0.0 / e == 0.0 && 1.0 / -area == -1.0 / area;
  }

  lemma AngularTerm(area: real, r: real, x: real, y: real)
    requires area != 0.0
    ensures -0.5 * (-1.0 / area * (-2.0 * r)) * (y * x) + -0.5 * (-1.0 / area * (-2.0 * r)) * (x * y)
         == -2.0 * (r * (x * y)) / area
  {
    var i := 1.0 / area;
    assert -1.0 / area == -i;
    assert -2.0 * (r * (x * y)) / area == -2.0 * (r * (x * y)) * i;
  }

  lemma WormholeParts(b: real, sin: real -> real, cos: real -> real, pos: Vec4)
    requires b > 0.0 && sin(pos.o) != 0.0 && Spaced(pos)
    ensures var d := PartialsAt(Wormhole(b), sin, cos, pos);
      Area(b, pos.r) > 0.0 && d.dr.d == -2.0 * pos.r
      && RoundWormhole(InverseAt(MetricAt(Wormhole(b), sin, cos, pos)), d, Area(b, pos.r))
  {
    hide MetricAt, Partial, InverseAt, Spacing, Area;
    InverseWormhole(b, sin, cos, pos);
    RadialPartial(b, sin, cos, pos);
    AngularPartials(b, sin, cos, pos);
  }

  /** In the wormhole, a ray that does not turn around the axis is accelerated exactly as its geodesic is, despite
      the differences: along the radius by r vo^2, and along the polar angle by -2 r vr vo / (r^2 + b^2). */
  lemma WormholeAcceleration(b: real, sin: real -> real, cos: real -> real, pos: Vec4, vel: Vec4)
    requires b > 0.0 && sin(pos.o) != 0.0 && Spaced(pos) && vel.p == 0.0
    ensures Area(b, pos.r) > 0.0
    ensures Geodesic(Wormhole(b), sin, cos, pos, vel)
         == Vec4(0.0, pos.r * (vel.o * vel.o), Quotient(-2.0 * (pos.r * (vel.r * vel.o)), Area(b, pos.r)), 0.0)
  {
    hide MetricAt, PartialsAt, InverseAt, Contracted, Spacing, Area;
    WormholeParts(b, sin, cos, pos);
    RowSums(InverseAt(MetricAt(Wormhole(b), sin, cos, pos)), PartialsAt(Wormhole(b), sin, cos, pos),
            Area(b, pos.r), vel);
    AngularTerm(Area(b, pos.r), pos.r, vel.r, vel.o);
  }
}
