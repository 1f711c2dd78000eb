/** The equation that the acceleration of a ray solves, for every metric with an inverse: lowered by the metric, it is
    the contraction of the Christoffel symbols of the first kind with the velocity. */
module GeodesicLaw {
  import opened RayStepping
  import opened KerrMetric
  import opened Geodesics

  function Dot(u: Vec4, v: Vec4): real
  {
    u.t * v.t + u.r * v.r + u.o * v.o + u.p * v.p
  }

  function RowOf(g: Metric, i: nat): Vec4
    requires i < 4
  {
    Vec4(Element(g, i, 0), Element(g, i, 1), Element(g, i, 2), Element(g, i, 3))
  }

  /** The symbol of the first kind, with a minus sign: half of what the metric changes along m, less what its entries
      (m, j) and (m, k) change along k and j. */
  function First(d: Partials, m: nat, j: nat, k: nat): real
    requires m < 4 && j < 4 && k < 4
  {
    0.5 * (Element(Along(d, m), j, k) - Element(Along(d, k), m, j) - Element(Along(d, j), m, k))
  }

  function Firsts(d: Partials, j: nat, k: nat): Vec4
    requires j < 4 && k < 4
  {
    Vec4(First(d, 0, j, k), First(d, 1, j, k), First(d, 2, j, k), First(d, 3, j, k))
  }

  function Pair(u: Vec4, j: nat, k: nat): real
  {
    Coordinate(u, j) * Coordinate(u, k)
  }

  function FirstsAlong(d: Partials, u: Vec4, k: nat): Vec4
    requires k < 4
  {
    Firsts(d, 0, k).Scale(Pair(u, 0, k))
    .Plus(Firsts(d, 1, k).Scale(Pair(u, 1, k)))
    .Plus(Firsts(d, 2, k).Scale(Pair(u, 2, k)))
    .Plus(Firsts(d, 3, k).Scale(Pair(u, 3, k)))
  }

  /** The symbols of the first kind contracted twice with the velocity. */
  function FirstsTwice(d: Partials, u: Vec4): Vec4
  {
    FirstsAlong(d, u, 0).Plus(FirstsAlong(d, u, 1)).Plus(FirstsAlong(d, u, 2)).Plus(FirstsAlong(d, u, 3))
  }

  lemma DotSum(u: Vec4, v: Vec4, w: Vec4)
    ensures Dot(u, v.Plus(w)) == Dot(u, v) + Dot(u, w)
    ensures Dot(v.Plus(w), u) == Dot(v, u) + Dot(w, u)
  {
    Distribute(u.t, v.t, w.t);
    Distribute(u.r, v.r, w.r);
    Distribute(u.o, v.o, w.o);
    Distribute(u.p, v.p, w.p);
  }

  lemma Distribute(x: real, y: real, z: real)
    ensures x * (y + z) == x * y + x * z && (y + z) * x == y * x + z * x
  {
  }

  lemma DotScale(u: Vec4, v: Vec4, c: real)
    ensures Dot(u, v.Scale(c)) == Dot(u, v) * c && Dot(v.Scale(c), u) == Dot(v, u) * c
  {
    Factor(u.t, v.t, c);
    Factor(u.r, v.r, c);
    Factor(u.o, v.o, c);
    Factor(u.p, v.p, c);
    Collect(u.t * v.t, u.r * v.r, u.o * v.o, u.p * v.p, c);
    Collect(v.t * u.t, v.r * u.r, v.o * u.o, v.p * u.p, c);
  }

  lemma Factor(x: real, y: real, c: real)
    ensures x * (y * c) == x * y * c && y * c * x == y * x * c
  {
  }

  lemma Collect(x: real, y: real, z: real, w: real, c: real)
    ensures x * c + y * c + z * c + w * c == (x + y + z + w) * c
  {
  }

  /** Column j of the partial k, and entry (j, k) of all partials. */
  function ColumnOf(g: Metric, j: nat): Vec4
    requires j < 4
  {
    Vec4(Element(g, 0, j), Element(g, 1, j), Element(g, 2, j), Element(g, 3, j))
  }

  function EntriesOf(d: Partials, j: nat, k: nat): Vec4
    requires j < 4 && k < 4
  {
    Vec4(Element(Along(d, 0), j, k), Element(Along(d, 1), j, k), Element(Along(d, 2), j, k), Element(Along(d, 3), j, k))
  }

  lemma FirstsAre(d: Partials, j: nat, k: nat)
    requires j < 4 && k < 4
    ensures Firsts(d, j, k)
         == ColumnOf(Along(d, k), j).Plus(ColumnOf(Along(d, j), k)).Plus(EntriesOf(d, j, k).Scale(-1.0)).Scale(-0.5)
  {
    hide Element, Along;
  }

  lemma RaisedIsDot(inverse: Metric, d: Partials, i: nat, j: nat, k: nat)
    requires i < 4 && j < 4 && k < 4
    ensures Raised(inverse, d, i, j, k) == Dot(RowOf(inverse, i), ColumnOf(Along(d, k), j))
    ensures Lowered(inverse, d, i, j, k) == Dot(RowOf(inverse, i), EntriesOf(d, j, k))
  {
    hide Element, Along;
  }

  /** A Christoffel symbol is one of the first kind with its first index raised. */
  lemma ChristoffelRaised(inverse: Metric, d: Partials, i: nat, j: nat, k: nat)
    requires i < 4 && j < 4 && k < 4
    ensures Christoffel(inverse, d, i, j, k) == Dot(RowOf(inverse, i), Firsts(d, j, k))
  {
    hide Raised, Lowered, Dot, RowOf, ColumnOf, EntriesOf, Firsts, Vec4.Plus, Vec4.Scale;
    var row, x, y, z := RowOf(inverse, i), ColumnOf(Along(d, k), j), ColumnOf(Along(d, j), k), EntriesOf(d, j, k);
    RaisedIsDot(inverse, d, i, j, k);
    RaisedIsDot(inverse, d, i, k, j);
    FirstsAre(d, j, k);
    DotScale(row, x.Plus(y).Plus(z.Scale(-1.0)), -0.5);
    DotSum(row, x.Plus(y), z.Scale(-1.0));
    DotSum(row, x, y);
    DotScale(row, z, -1.0);
  }

  lemma ScaledTerm(inverse: Metric, d: Partials, u: Vec4, i: nat, j: nat, k: nat)
    requires i < 4 && j < 4 && k < 4
    ensures Contribution(inverse, d, u, i, j, k) == Dot(RowOf(inverse, i), Firsts(d, j, k).Scale(Pair(u, j, k)))
  {
    hide Christoffel, Firsts, Dot, RowOf, Vec4.Scale, Pair;
    ChristoffelRaised(inverse, d, i, j, k);
    DotScale(RowOf(inverse, i), Firsts(d, j, k), Pair(u, j, k));
  }

  function Contribution(inverse: Metric, d: Partials, u: Vec4, i: nat, j: nat, k: nat): real
    requires i < 4 && j < 4 && k < 4
  {
    Christoffel(inverse, d, i, j, k) * Pair(u, j, k)
  }

  lemma RowSumRaised(inverse: Metric, d: Partials, u: Vec4, i: nat, k: nat)
    requires i < 4 && k < 4
    ensures RowSum(inverse, d, u, i, k) == Dot(RowOf(inverse, i), FirstsAlong(d, u, k))
  {
    hide Firsts, RowOf, Dot, Vec4.Plus, Vec4.Scale, RowSum, Pair, Contribution;
    var row := RowOf(inverse, i);
    var v0, v1, v2, v3 := Firsts(d, 0, k).Scale(Pair(u, 0, k)), Firsts(d, 1, k).Scale(Pair(u, 1, k)),
                          Firsts(d, 2, k).Scale(Pair(u, 2, k)), Firsts(d, 3, k).Scale(Pair(u, 3, k));
    RowSumIs(inverse, d, u, i, k);
    ScaledTerm(inverse, d, u, i, 0, k);
    ScaledTerm(inverse, d, u, i, 1, k);
    ScaledTerm(inverse, d, u, i, 2, k);
    ScaledTerm(inverse, d, u, i, 3, k);
    DotSum(row, v0, v1);
    DotSum(row, v0.Plus(v1), v2);
    DotSum(row, v0.Plus(v1).Plus(v2), v3);
  }

  lemma RowSumIs(inverse: Metric, d: Partials, u: Vec4, i: nat, k: nat)
    requires i < 4 && k < 4
    ensures RowSum(inverse, d, u, i, k)
         == Contribution(inverse, d, u, i, 0, k) + Contribution(inverse, d, u, i, 1, k)
            + Contribution(inverse, d, u, i, 2, k) + Contribution(inverse, d, u, i, 3, k)
  {
    hide Christoffel;
  }

  lemma ContractedRaised(inverse: Metric, d: Partials, u: Vec4, i: nat)
    requires i < 4
    ensures Contracted(inverse, d, u, i) == Dot(RowOf(inverse, i), FirstsTwice(d, u))
  {
    hide RowSum, FirstsAlong, RowOf, Dot, Vec4.Plus;
    var row := RowOf(inverse, i);
    var v0, v1, v2, v3 := FirstsAlong(d, u, 0), FirstsAlong(d, u, 1), FirstsAlong(d, u, 2), FirstsAlong(d, u, 3);
    RowSumRaised(inverse, d, u, i, 0);
    RowSumRaised(inverse, d, u, i, 1);
    RowSumRaised(inverse, d, u, i, 2);
    RowSumRaised(inverse, d, u, i, 3);
    DotSum(row, v0, v1);
    DotSum(row, v0.Plus(v1), v2);
    DotSum(row, v0.Plus(v1).Plus(v2), v3);
  }

  function Unit(i: nat): Vec4
  {
    Vec4(if i == 0 then 1.0 else 0.0, if i == 1 then 1.0 else 0.0, if i == 2 then 1.0 else 0.0,
         if i == 3 then 1.0 else 0.0)
  }

  /** The rows of the inverse, combined with a row of the metric, are a unit vector. */
  lemma RowsCombined(g: Metric, h: Metric, l: nat)
    requires l < 4 && Inverse(g, h)
    ensures RowOf(h, 0).Scale(Element(g, l, 0)).Plus(RowOf(h, 1).Scale(Element(g, l, 1)))
            .Plus(RowOf(h, 2).Scale(Element(g, l, 2))).Plus(RowOf(h, 3).Scale(Element(g, l, 3))) == Unit(l)
  {
    hide Element, Inverse, Vec4.Plus, Vec4.Scale;
    FourScaled(RowOf(h, 0), RowOf(h, 1), RowOf(h, 2), RowOf(h, 3),
               Element(g, l, 0), Element(g, l, 1), Element(g, l, 2), Element(g, l, 3));
    CombinedAt(g, h, l, 0);
    CombinedAt(g, h, l, 1);
    CombinedAt(g, h, l, 2);
    CombinedAt(g, h, l, 3);
  }

  lemma FourScaled(a: Vec4, b: Vec4, c: Vec4, d: Vec4, x: real, y: real, z: real, w: real)
    ensures a.Scale(x).Plus(b.Scale(y)).Plus(c.Scale(z)).Plus(d.Scale(w))
         == Vec4(a.t * x + b.t * y + c.t * z + d.t * w, a.r * x + b.r * y + c.r * z + d.r * w,
                 a.o * x + b.o * y + c.o * z + d.o * w, a.p * x + b.p * y + c.p * z + d.p * w)
  {
  }

  lemma CombinedAt(g: Metric, h: Metric, l: nat, j: nat)
    requires l < 4 && j < 4 && Inverse(g, h)
    ensures Element(h, 0, j) * Element(g, l, 0) + Element(h, 1, j) * Element(g, l, 1)
            + Element(h, 2, j) * Element(g, l, 2) + Element(h, 3, j) * Element(g, l, 3) == if l == j then 1.0 else 0.0
  {
    hide Element;
    assert ProductElement(g, h, l, j) == if l == j then 1.0 else 0.0;
  }

  lemma UnitDot(l: nat, v: Vec4)
    requires l < 4
    ensures Dot(Unit(l), v) == Coordinate(v, l)
  {
  }

  lemma LoweredRaised(g: Metric, h: Metric, l: nat, q: Vec4)
    requires l < 4 && Inverse(g, h)
    ensures Dot(RowOf(g, l), Vec4(Dot(RowOf(h, 0), q), Dot(RowOf(h, 1), q), Dot(RowOf(h, 2), q), Dot(RowOf(h, 3), q)))
         == Coordinate(q, l)
  {
    hide Inverse, Element, Vec4.Plus, Vec4.Scale;
    var c0, c1, c2, c3 := Element(g, l, 0), Element(g, l, 1), Element(g, l, 2), Element(g, l, 3);
    var v0, v1, v2, v3 := RowOf(h, 0).Scale(c0), RowOf(h, 1).Scale(c1), RowOf(h, 2).Scale(c2), RowOf(h, 3).Scale(c3);
    RowsCombined(g, h, l);
    UnitDot(l, q);
    hide Dot;
    DotScale(q, RowOf(h, 0), c0);
    DotScale(q, RowOf(h, 1), c1);
    DotScale(q, RowOf(h, 2), c2);
    DotScale(q, RowOf(h, 3), c3);
    DotSum(q, v0, v1);
    DotSum(q, v0.Plus(v1), v2);
    DotSum(q, v0.Plus(v1).Plus(v2), v3);
    Row4(RowOf(g, l), Dot(RowOf(h, 0), q), Dot(RowOf(h, 1), q), Dot(RowOf(h, 2), q), Dot(RowOf(h, 3), q));
  }

  lemma Row4(g: Vec4, x: real, y: real, z: real, w: real)
    ensures Dot(g, Vec4(x, y, z, w)) == x * g.t + y * g.r + z * g.o + w * g.p
  {
  }

  /** Where the inverse is one, the acceleration solves the geodesic equation: lowered by the metric it is the
      contraction of the symbols of the first kind. */
  lemma AccelerationLowered(space: Space, sin: real -> real, cos: real -> real, pos: Vec4, vel: Vec4, l: nat)
    requires l < 4 && Inverse(MetricAt(space, sin, cos, pos), InverseAt(MetricAt(space, sin, cos, pos)))
    ensures Dot(RowOf(MetricAt(space, sin, cos, pos), l), Geodesic(space, sin, cos, pos, vel))
         == Coordinate(FirstsTwice(PartialsAt(space, sin, cos, pos), vel), l)
  {
    hide Inverse, MetricAt, InverseAt, PartialsAt, Contracted, FirstsTwice, RowOf, Dot;
    var g, d := MetricAt(space, sin, cos, pos), PartialsAt(space, sin, cos, pos);
    var h := InverseAt(g);
    ContractedRaised(h, d, vel, 0);
    ContractedRaised(h, d, vel, 1);
    ContractedRaised(h, d, vel, 2);
    ContractedRaised(h, d, vel, 3);
    LoweredRaised(g, h, l, FirstsTwice(d, vel));
  }
}
