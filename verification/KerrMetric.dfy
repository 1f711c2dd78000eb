/** The metrics of the ray tracer at one position, and the block inverse used on them. */
module KerrMetric {
  import opened Reals

  /** A symmetric matrix with the layout (a 0 0 b / 0 c 0 0 / 0 0 d 0 / b 0 0 e). */
  datatype Metric = Metric(a: real, b: real, c: real, d: real, e: real)

  function Element(g: Metric, i: nat, j: nat): real
    requires i < 4 && j < 4
  {
    if i == j then [g.a, g.c, g.d, g.e][i]
    else if (i == 0 && j == 3) || (i == 3 && j == 0) then g.b
    else 0.0
  }

  function ProductElement(g: Metric, h: Metric, i: nat, j: nat): real
    requires i < 4 && j < 4
  {
    Element(g, i, 0) * Element(h, 0, j) + Element(g, i, 1) * Element(h, 1, j)
    + Element(g, i, 2) * Element(h, 2, j) + Element(g, i, 3) * Element(h, 3, j)
  }

  ghost predicate Inverse(g: Metric, h: Metric)
  {
    forall i: nat, j: nat | i < 4 && j < 4 ::
      ProductElement(g, h, i, j) == (if i == j then 1.0 else 0.0)
      && ProductElement(h, g, i, j) == (if i == j then 1.0 else 0.0)
  }

  function Det(g: Metric): real
  {
    g.b * g.b - g.a * g.e
  }

  function InvMetric(g: Metric): Metric
    requires Det(g) != 0.0 && g.c != 0.0 && g.d != 0.0
  {
    Metric(-g.e / Det(g), g.b / Det(g), 1.0 / g.c, 1.0 / g.d, -g.a / Det(g))
  }

  lemma OverDet(x: real, y: real, z: real, w: real, det: real)
    requires det != 0.0
    ensures x * (y / det) + z * (w / det) == (x * y + z * w) / det
  {
    var k := 1.0 / det;
    assert y / det == k * y && w / det == k * w && (x * y + z * w) / det == k * (x * y + z * w);
  }

  /** What it takes for two matrices of this layout to be inverse to each other. */
  ghost predicate BlockInverse(g: Metric, h: Metric)
  {
    && g.a * h.a + g.b * h.b == 1.0 && g.a * h.b + g.b * h.e == 0.0
    && g.b * h.a + g.e * h.b == 0.0 && g.b * h.b + g.e * h.e == 1.0
    && g.c * h.c == 1.0 && g.d * h.d == 1.0
  }

  lemma BlockRow0(g: Metric, h: Metric, j: nat)
    requires j < 4 && BlockInverse(g, h)
    ensures ProductElement(g, h, 0, j) == if j == 0 then 1.0 else 0.0
    ensures ProductElement(g, h, 3, j) == if j == 3 then 1.0 else 0.0
  {
    if j == 0 {
    } else if j == 1 {
    } else if j == 2 {
    } else {
      assert j == 3;
    }
  }

  lemma BlockRow1(g: Metric, h: Metric, j: nat)
    requires j < 4 && BlockInverse(g, h)
    ensures ProductElement(g, h, 1, j) == if j == 1 then 1.0 else 0.0
    ensures ProductElement(g, h, 2, j) == if j == 2 then 1.0 else 0.0
  {
    if j == 0 {
    } else if j == 1 {
    } else if j == 2 {
    } else {
      assert j == 3;
    }
  }

  lemma BlockProduct(g: Metric, h: Metric, i: nat, j: nat)
    requires i < 4 && j < 4 && BlockInverse(g, h)
    ensures ProductElement(g, h, i, j) == if i == j then 1.0 else 0.0
  {
    hide ProductElement;
    BlockRow0(g, h, j);
    BlockRow1(g, h, j);
    assert i == 0 || i == 1 || i == 2 || i == 3;
  }

  lemma BlockEntries(g: Metric)
    requires Det(g) != 0.0 && g.c != 0.0 && g.d != 0.0
    ensures BlockInverse(g, InvMetric(g)) && BlockInverse(InvMetric(g), g)
  {
    var det := Det(g);
    OverDet(g.a, -g.e, g.b, g.b, det);
    OverDet(g.a, g.b, g.b, -g.a, det);
    OverDet(g.b, -g.e, g.e, g.b, det);
    OverDet(g.b, g.b, g.e, -g.a, det);
    assert g.c * (1.0 / g.c) == 1.0 && g.d * (1.0 / g.d) == 1.0;
  }

  /** The block inverse is a two-sided inverse wherever the three divisors are nonzero. */
  lemma InvMetricIsInverse(g: Metric)
    requires Det(g) != 0.0 && g.c != 0.0 && g.d != 0.0
    ensures Inverse(g, InvMetric(g))
  {
    hide ProductElement, InvMetric, Det, BlockInverse;
    BlockEntries(g);
    forall i: nat, j: nat | i < 4 && j < 4
      ensures ProductElement(g, InvMetric(g), i, j) == (if i == j then 1.0 else 0.0)
      ensures ProductElement(InvMetric(g), g, i, j) == (if i == j then 1.0 else 0.0)
    {
      BlockProduct(g, InvMetric(g), i, j);
      BlockProduct(InvMetric(g), g, i, j);
    }
  }

  // ----- The Kerr metric

  function Delta(m: real, a: real, r: real): real
  {
    (r - 2.0 * m) * r + a * a
  }

  function Sigma(a: real, r: real, cos: real): real
  {
    r * r + (a * cos) * (a * cos)
  }

  /** The metric of a rotating black hole of mass m and spin a at radius r; sin and cos are those of the
      polar angle. */
  function Kerr(m: real, a: real, r: real, sin: real, cos: real): Metric
    requires Delta(m, a, r) != 0.0 && Sigma(a, r, cos) != 0.0
  {
    var rs := 2.0 * m;
    var delta := Delta(m, a, r);
    var sigma := Sigma(a, r, cos);
    Metric(1.0 - r * rs / sigma,
           rs * r * a * (sin * sin) / sigma,
           -sigma / delta,
           -sigma,
           -(r * r + a * a + rs * r * ((a * sin) * (a * sin)) / sigma) * (sin * sin))
  }

  /** gtp^2 - gtt gpp in terms of k = rs r / sigma and u = sin^2. */
  lemma BlockAlgebra(k: real, a: real, r: real, u: real, sigma: real, delta: real)
    requires sigma == r * r + a * a - a * a * u && delta == r * r + a * a - k * sigma
    ensures k * a * u * (k * a * u) + (1.0 - k) * ((r * r + a * a + k * (a * a * u)) * u) == delta * u
  {
    assert (1.0 - k) * (r * r + a * a + k * (a * a * u)) + k * k * (a * a) * u
      == r * r + a * a + k * (a * a * u) - k * (r * r + a * a) ;
    assert k * (a * a * u) - k * (r * r + a * a) == -(k * sigma);
    var p := (1.0 - k) * (r * r + a * a + k * (a * a * u)) + k * k * (a * a) * u;
    assert p == delta;
    assert k * a * u * (k * a * u) == k * k * (a * a) * u * u;
  }

  /** The determinant of the time-angle block is delta sin^2. */
  lemma KerrDeterminant(m: real, a: real, r: real, sin: real, cos: real)
    requires Delta(m, a, r) != 0.0 && Sigma(a, r, cos) != 0.0 && sin * sin + cos * cos == 1.0
    ensures Det(Kerr(m, a, r, sin, cos)) == Delta(m, a, r) * (sin * sin)
  {
    var sigma, u, rs := Sigma(a, r, cos), sin * sin, 2.0 * m;
    var k := r * rs / sigma;
    assert k * sigma == r * rs;
    SigmaBySine(a, r, sin, cos);
    KerrEntries(m, a, r, sin, cos, k);
    BlockAlgebra(k, a, r, u, sigma, Delta(m, a, r));
  }

  lemma SigmaBySine(a: real, r: real, sin: real, cos: real)
    requires sin * sin + cos * cos == 1.0
    ensures Sigma(a, r, cos) == r * r + a * a - a * a * (sin * sin)
  {
    assert (a * cos) * (a * cos) == a * a * (cos * cos);
    assert a * a * (cos * cos) == a * a * (1.0 - sin * sin);
  }

  lemma KerrEntries(m: real, a: real, r: real, sin: real, cos: real, k: real)
    requires Delta(m, a, r) != 0.0 && Sigma(a, r, cos) != 0.0 && k == r * (2.0 * m) / Sigma(a, r, cos)
    ensures var g, u := Kerr(m, a, r, sin, cos), sin * sin;
      g.a == 1.0 - k && g.b == k * a * u && g.e == -((r * r + a * a + k * (a * a * u)) * u)
  {
    var sigma, u := Sigma(a, r, cos), sin * sin;
    var i := 1.0 / sigma;
    assert k == r * (2.0 * m) * i;
    assert 2.0 * m * r * a * u / sigma == 2.0 * m * r * a * u * i == k * a * u;
    assert (a * sin) * (a * sin) == a * a * u;
    assert 2.0 * m * r * (a * a * u) / sigma == 2.0 * m * r * (a * a * u) * i == k * (a * a * u);
  }

  /** The radius of the outer horizon. */
  function Horizon(root: real -> real, m: real, a: real): real
  {
    m + root(m * m - a * a)
  }

  /** A ray is followed while its radius is above 1.01 times the outer horizon. */
  predicate Selected(root: real -> real, m: real, a: real, r: real)
  {
    r > 1.01 * Horizon(root, m, a)
  }

  lemma SelectedOutsideHorizon(root: real -> real, m: real, a: real, r: real, h: real)
    requires m > 0.0 && -m < a < m && h == root(m * m - a * a) && h >= 0.0 && h * h == m * m - a * a
    requires Selected(root, m, a, r)
    ensures r > 0.0 && Delta(m, a, r) > 0.0
  {
    assert r - m > h;
    TimesPositive(r - m - h, r - m + h);
    assert Times(r - m - h, r - m + h) == (r - m) * (r - m) - h * h;
  }

  lemma SigmaPositive(a: real, r: real, cos: real)
    requires r > 0.0
    ensures Sigma(a, r, cos) > 0.0
  {
    TimesPositive(r, r);
    TimesNonneg(a * cos, a * cos);
  }

  /** At every selected position the Kerr metric has a two-sided inverse exactly off the axis, and there
      the block inverse computes it. */
  lemma KerrInvertible(root: real -> real, m: real, a: real, r: real, sin: real, cos: real, h: real)
    requires m > 0.0 && -m < a < m && h == root(m * m - a * a) && h >= 0.0 && h * h == m * m - a * a
    requires Selected(root, m, a, r) && sin * sin + cos * cos == 1.0
    ensures Delta(m, a, r) > 0.0 && Sigma(a, r, cos) > 0.0
    ensures var g := Kerr(m, a, r, sin, cos);
      && (Det(g) != 0.0 <==> sin != 0.0)
      && ((exists h' :: Inverse(g, h')) <==> sin != 0.0)
      && (sin != 0.0 ==> g.c != 0.0 && g.d != 0.0 && Inverse(g, InvMetric(g)))
  {
    hide Det, InvMetric, Inverse, Selected;
    SelectedOutsideHorizon(root, m, a, r, h);
    SigmaPositive(a, r, cos);
    KerrDeterminant(m, a, r, sin, cos);
    var g := Kerr(m, a, r, sin, cos);
    DeterminantSign(Delta(m, a, r), sin, Det(g));
    RadialNonzero(Sigma(a, r, cos), Delta(m, a, r));
    if sin != 0.0 {
      InvMetricIsInverse(g);
    } else {
      forall h' ensures !Inverse(g, h') {
        AxisSingular(m, a, r, cos, h');
      }
    }
  }

  /** On the axis the last row of the metric vanishes. */
  lemma AxisSingular(m: real, a: real, r: real, cos: real, h: Metric)
    requires Delta(m, a, r) != 0.0 && Sigma(a, r, cos) != 0.0
    ensures !Inverse(Kerr(m, a, r, 0.0, cos), h)
  {
    var g := Kerr(m, a, r, 0.0, cos);
    assert g.b == 0.0 && g.e == 0.0;
    assert ProductElement(g, h, 3, 3) == 0.0;
  }

  lemma DeterminantSign(delta: real, sin: real, det: real)
    requires delta > 0.0 && det == delta * (sin * sin)
    ensures det != 0.0 <==> sin != 0.0
  {
    if sin != 0.0 {
      TimesPositive(sin, sin);
      TimesPositive(delta, Times(sin, sin));
    } else {
      assert sin * sin == 0.0;
    }
  }

  lemma RadialNonzero(sigma: real, delta: real)
    requires sigma > 0.0 && delta > 0.0
    ensures -sigma / delta != 0.0
  {
  }
}
