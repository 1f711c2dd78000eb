/** When a segment is coloured by a disk and how brightly, in terms of the points of its line. */
module DiskColors {
  import opened Reals
  import opened Sums
  import opened RayStepping

  /** The point at parameter s of the line through a segment. */
  function PointAt(begin: Vec3, end: Vec3, s: real): Vec3
  {
    begin.Plus(end.Minus(begin).Scale(s))
  }

  function Length2(v: Vec3): real
  {
    v.x * v.x + v.y * v.y + v.z * v.z
  }

  /** The point lies in the plane of the disk, strictly between its two edges. */
  ghost predicate OnDisk(d: Disk, p: Vec3)
  {
    && d.normal.Dot(p.Minus(d.center)) == 0.0
    && d.inner * d.inner < Length2(p.Minus(d.center)) < d.outer * d.outer
  }

  ghost predicate Parallel(d: Disk, begin: Vec3, end: Vec3)
  {
    d.normal.Dot(end.Minus(begin)) == 0.0
  }

  /** The line of the segment meets the disk within one length of the segment from its begin, on either side. */
  ghost predicate Met(d: Disk, begin: Vec3, end: Vec3)
  {
    !Parallel(d, begin, end) && exists s :: 0.0 < Abs(s) <= 1.0 && OnDisk(d, PointAt(begin, end, s))
  }

  /** The segment itself meets the disk after its begin. */
  ghost predicate Crossed(d: Disk, begin: Vec3, end: Vec3)
  {
    !Parallel(d, begin, end) && exists s :: 0.0 < s <= 1.0 && OnDisk(d, PointAt(begin, end, s))
  }

  /** A disk with an inner and an outer edge, and a colour. */
  ghost predicate Proper(d: Disk)
  {
    0.0 <= d.inner < d.outer && d.color != BLACK
  }

  /** The brightness b of a disk at distance rho from its centre. */
  ghost predicate Brightness(d: Disk, rho: real, b: real)
  {
    var width := d.outer - d.inner;
    b * (width * width * width) == 1.5 * ((d.outer - rho) * (d.outer - rho) * (width + 2.0 * (rho - d.inner)))
  }

  function Shaded(c: Color, b: real): Color
  {
    Color(c.r * b, c.g * b, c.b * b)
  }

  // ----- Where the line meets the plane

  lemma PlaneAt(d: Disk, begin: Vec3, end: Vec3, s: real)
    ensures d.normal.Dot(PointAt(begin, end, s).Minus(d.center))
         == s * d.normal.Dot(end.Minus(begin)) - d.normal.Dot(d.center.Minus(begin))
  {
    var n, u, c, p := d.normal, end.Minus(begin), d.center, begin;
    PlaneTerm(n.x, p.x, u.x, s, c.x);
    PlaneTerm(n.y, p.y, u.y, s, c.y);
    PlaneTerm(n.z, p.z, u.z, s, c.z);
    assert s * (n.x * u.x + n.y * u.y + n.z * u.z) == s * (n.x * u.x) + s * (n.y * u.y) + s * (n.z * u.z);
  }

  lemma PlaneTerm(n: real, p: real, u: real, s: real, c: real)
    ensures n * (p + u * s - c) == s * (n * u) - n * (c - p)
  {
  }

  /** The parameter of the program is the only one at which the line is in the plane. */
  lemma OnlyParameter(d: Disk, begin: Vec3, end: Vec3, s: real)
    requires !Parallel(d, begin, end)
    ensures d.normal.Dot(PointAt(begin, end, s).Minus(d.center)) == 0.0 <==> s == PlaneParameter(d, begin, end)
  {
    hide PointAt, Vec3.Dot, Vec3.Minus;
    PlaneAt(d, begin, end, s);
    ZeroOfLine(d.normal.Dot(end.Minus(begin)), d.normal.Dot(d.center.Minus(begin)), s);
  }

  lemma ZeroOfLine(b: real, a: real, s: real)
    requires b != 0.0
    ensures s * b - a == 0.0 <==> s == Quotient(a, b)
  {
    var q := a / b;
    assert q * b == a;
    if s > q {
      Apart(s - q, b);
    } else if s < q {
      Apart(q - s, b);
    }
  }

  lemma Apart(x: real, b: real)
    requires x > 0.0 && b != 0.0
    ensures x * b != 0.0
  {
    if b > 0.0 {
      TimesPositive(x, b);
    } else {
      TimesPositive(x, -b);
      assert Times(x, -b) == -(x * b);
    }
  }

  lemma LengthNonneg(v: Vec3)
    ensures Length2(v) >= 0.0
  {
    TimesNonneg(v.x, v.x);
    TimesNonneg(v.y, v.y);
    TimesNonneg(v.z, v.z);
    assert Length2(v) == Times(v.x, v.x) + Times(v.y, v.y) + Times(v.z, v.z);
  }

  /** The distance the program computes is that of the point at its parameter. */
  lemma DistanceOf(sc: Scene, d: Disk, begin: Vec3, end: Vec3)
    requires IsRoot(sc.root)
    ensures var p := PointAt(begin, end, PlaneParameter(d, begin, end));
      var rho := CenterDistance(sc, d, begin, end);
      rho >= 0.0 && rho * rho == Length2(p.Minus(d.center))
  {
    hide PlaneParameter, IsRoot;
    var t := PlaneParameter(d, begin, end);
    var v := PointAt(begin, end, t).Minus(d.center);
    LengthNonneg(v);
    SamePoint(begin, end, t, d.center);
    assert v.Dot(v) == Length2(v);
    RootIs(sc.root, Length2(v));
  }

  lemma RootIs(root: real -> real, x: real)
    requires IsRoot(root) && x >= 0.0
    ensures root(x) >= 0.0 && root(x) * root(x) == x
  {
  }

  lemma SamePoint(begin: Vec3, end: Vec3, t: real, c: Vec3)
    ensures end.Minus(begin).Scale(t).Plus(begin).Minus(c) == PointAt(begin, end, t).Minus(c)
  {
  }

  /** The test of the program is the geometric one. */
  lemma HitIffMet(sc: Scene, d: Disk, begin: Vec3, end: Vec3)
    requires IsRoot(sc.root) && 0.0 <= d.inner < d.outer
    ensures Hit(sc, d, begin, end) <==> Met(d, begin, end)
  {
    hide PlaneParameter, CenterDistance, PointAt, Vec3.Minus, Vec3.Dot, Length2, IsRoot;
    var t, rho := PlaneParameter(d, begin, end), CenterDistance(sc, d, begin, end);
    DistanceOf(sc, d, begin, end);
    SquareOrder(rho, d.outer);
    SquareOrder(d.inner, rho);
    if Parallel(d, begin, end) {
      ParallelParameter(d, begin, end);
    } else {
      OnlyParameter(d, begin, end, t);
      assert OnDisk(d, PointAt(begin, end, t)) <==> d.inner < rho < d.outer;
      forall s | OnDisk(d, PointAt(begin, end, s)) ensures s == t {
        OnlyParameter(d, begin, end, s);
      }
    }
  }

  lemma ParallelParameter(d: Disk, begin: Vec3, end: Vec3)
    requires Parallel(d, begin, end)
    ensures PlaneParameter(d, begin, end) == 0.0
  {
  }

  // ----- Brightness

  lemma Smooth(val: real, rho: real, inner: real, outer: real)
    requires inner < outer && val == 1.0 - Quotient(rho - inner, outer - inner)
    ensures var width := outer - inner;
      1.5 * (val * val * (val * -2.0 + 3.0)) * (width * width * width)
      == 1.5 * ((outer - rho) * (outer - rho) * (width + 2.0 * (rho - inner)))
  {
    var width := outer - inner;
    QuotientTimes(rho - inner, width);
    var a, c := val * width, (val * -2.0 + 3.0) * width;
    assert a == width - width * Quotient(rho - inner, width) == outer - rho;
    assert c == 3.0 * width - 2.0 * a == width + 2.0 * (rho - inner);
    assert val * val * (val * -2.0 + 3.0) * (width * width * width) == a * a * c;
  }

  lemma CubePositive(w: real)
    requires w > 0.0
    ensures w * w * w > 0.0
  {
    TimesPositive(w, w);
    TimesPositive(Times(w, w), w);
  }

  /** (outer - rho)^2 (outer - inner + 2 (rho - inner)) falls between the edges. */
  lemma Falling(x: real, y: real, w: real)
    requires 0.0 <= x < y <= w
    ensures (w - x) * (w - x) * (w + 2.0 * x) > (w - y) * (w - y) * (w + 2.0 * y)
  {
    var h := y - x;
    TimesPositive(h, h);
    Difference(x, y, w);
    // the difference is h times 3 w (x + y) - 2 (x^2 + x y + y^2), which is positive
    var p := 3.0 * w * (x + y) - 2.0 * (x * x + x * y + y * y);
    TimesNonneg(w - y, x + y);
    TimesNonneg(x, h);
    TimesPositive(y, y);
    TimesNonneg(x, y);
    assert Times(w - y, x + y) == w * (x + y) - y * (x + y);
    assert p >= 3.0 * (y * (x + y)) - 2.0 * (x * x + x * y + y * y);
    assert 3.0 * (y * (x + y)) - 2.0 * (x * x + x * y + y * y) == y * y + x * y - 2.0 * (x * x);
    assert Times(x, h) == x * y - x * x;
    assert h * (y + x) == y * y - x * x;
    TimesPositive(h, y + x);
    assert Times(h, y + x) == h * (y + x);
    assert p > 0.0;
    TimesPositive(h, p);
  }

  lemma Difference(x: real, y: real, w: real)
    ensures (w - x) * (w - x) * (w + 2.0 * x) - (w - y) * (w - y) * (w + 2.0 * y)
         == (y - x) * (3.0 * w * (x + y) - 2.0 * (x * x + x * y + y * y))
  {
    Cubic(x, w);
    Cubic(y, w);
    assert (y - x) * (3.0 * w * (x + y)) == 3.0 * w * (y * y) - 3.0 * w * (x * x);
    assert (y - x) * (x * x + x * y + y * y) == y * y * y - x * x * x;
  }

  lemma Cubic(x: real, w: real)
    ensures (w - x) * (w - x) * (w + 2.0 * x) == w * w * w - 3.0 * w * (x * x) + 2.0 * (x * x * x)
  {
    assert (w - x) * (w - x) == w * w - 2.0 * (w * x) + x * x;
  }

  /** Brightness falls strictly from 1.5 at the inner edge to 0 at the outer one. */
  lemma BrightnessFalls(d: Disk, rho: real, b: real, rho': real, b': real)
    requires 0.0 <= d.inner <= rho < rho' <= d.outer && Brightness(d, rho, b) && Brightness(d, rho', b')
    ensures b' < b && (rho == d.inner ==> b == 1.5) && (rho' == d.outer ==> b' == 0.0)
  {
    var w := d.outer - d.inner;
    var cube := w * w * w;
    CubePositive(w);
    Falling(rho - d.inner, rho' - d.inner, w);
    BrightnessOver(d, rho, b, rho - d.inner, cube);
    BrightnessOver(d, rho', b', rho' - d.inner, cube);
    if b' >= b {
      TimesNonneg(b' - b, cube);
    }
    if rho == d.inner {
      assert (w - 0.0) * (w - 0.0) * (w + 2.0 * 0.0) == cube;
      SameFactor(b, 1.5, cube);
    }
    if rho' == d.outer {
      assert (w - w) * (w - w) * (w + 2.0 * w) == 0.0;
      SameFactor(b', 0.0, cube);
    }
  }

  lemma BrightnessOver(d: Disk, rho: real, b: real, x: real, cube: real)
    requires Brightness(d, rho, b) && x == rho - d.inner
    requires cube == (d.outer - d.inner) * (d.outer - d.inner) * (d.outer - d.inner)
    ensures var w := d.outer - d.inner; b * cube == 1.5 * ((w - x) * (w - x) * (w + 2.0 * x))
  {
    var w := d.outer - d.inner;
    assert w - x == d.outer - rho;
  }

  lemma SameFactor(b: real, c: real, cube: real)
    requires b * cube == c * cube && cube > 0.0
    ensures b == c
  {
    if b < c {
      TimesPositive(c - b, cube);
    } else if b > c {
      TimesPositive(b - c, cube);
    }
  }

  // ----- Colours

  /** Where the line meets the disk, its colour is that of the disk, as bright as its distance from the centre
      says. */
  lemma DiskColorAt(sc: Scene, d: Disk, begin: Vec3, end: Vec3, s: real, rho: real) returns (b: real)
    requires IsRoot(sc.root) && Proper(d) && !Parallel(d, begin, end)
    requires 0.0 < Abs(s) <= 1.0 && OnDisk(d, PointAt(begin, end, s))
    requires rho >= 0.0 && rho * rho == Length2(PointAt(begin, end, s).Minus(d.center))
    ensures d.inner < rho < d.outer && Brightness(d, rho, b) && 0.0 < b < 1.5
    ensures DiskColor(sc, d, begin, end) == Shaded(d.color, b)
  {
    hide *;
    SeenAt(d, begin, end, s);
    HitIffMet(sc, d, begin, end);
    OnlyParameter(d, begin, end, s);
    DistanceOf(sc, d, begin, end);
    var dist := CenterDistance(sc, d, begin, end);
    SquareUnique(dist, rho);
    Between(d, PointAt(begin, end, s), rho);
    b := ColorOfHit(sc, d, begin, end);
    BrightnessBetween(d, rho, b);
  }

  lemma SeenAt(d: Disk, begin: Vec3, end: Vec3, s: real)
    requires Proper(d) && !Parallel(d, begin, end) && 0.0 < Abs(s) <= 1.0 && OnDisk(d, PointAt(begin, end, s))
    ensures Met(d, begin, end) && 0.0 <= d.inner < d.outer
    ensures d.normal.Dot(PointAt(begin, end, s).Minus(d.center)) == 0.0
  {
    hide PointAt, Vec3.Minus, Vec3.Dot, Length2, Parallel;
  }

  lemma Between(d: Disk, p: Vec3, rho: real)
    requires 0.0 <= d.inner < d.outer && OnDisk(d, p) && rho >= 0.0 && rho * rho == Length2(p.Minus(d.center))
    ensures d.inner < rho < d.outer
  {
    hide Vec3.Minus, Vec3.Dot, Length2;
    SquareOrder(rho, d.outer);
    SquareOrder(d.inner, rho);
  }

  lemma ColorOfHit(sc: Scene, d: Disk, begin: Vec3, end: Vec3) returns (b: real)
    requires Hit(sc, d, begin, end) && d.inner < d.outer
    ensures Brightness(d, CenterDistance(sc, d, begin, end), b) && DiskColor(sc, d, begin, end) == Shaded(d.color, b)
  {
    hide Hit, CenterDistance, Quotient;
    var dist := CenterDistance(sc, d, begin, end);
    var val := 1.0 - Quotient(dist - d.inner, d.outer - d.inner);
    b := 1.5 * (val * val * (val * -2.0 + 3.0));
    Smooth(val, dist, d.inner, d.outer);
  }

  lemma BrightnessBetween(d: Disk, rho: real, b: real)
    requires 0.0 <= d.inner < rho < d.outer && Brightness(d, rho, b)
    ensures 0.0 < b < 1.5
  {
    var w := d.outer - d.inner;
    assert 1.5 * (w * w * w) == 1.5 * (w * w * (w + 2.0 * 0.0));
    BrightnessFalls(d, d.inner, 1.5, rho, b);
    assert 0.0 * (w * w * w) == 1.5 * (0.0 * 0.0 * (w + 2.0 * w));
    BrightnessFalls(d, rho, b, d.outer, 0.0);
  }

  /** A segment is coloured by a disk exactly when its line meets the disk within one length of the segment from its
      begin, on either side. */
  lemma DiskSeenIff(sc: Scene, d: Disk, begin: Vec3, end: Vec3)
    requires IsRoot(sc.root) && Proper(d)
    ensures DiskColor(sc, d, begin, end) != BLACK <==> Met(d, begin, end)
  {
    hide OnDisk, PointAt, Vec3.Minus, Vec3.Dot, Length2, IsRoot, Hit, Quotient, Brightness;
    HitIffMet(sc, d, begin, end);
    if Met(d, begin, end) {
      var s :| 0.0 < Abs(s) <= 1.0 && OnDisk(d, PointAt(begin, end, s));
      var v := PointAt(begin, end, s).Minus(d.center);
      LengthNonneg(v);
      RootIs(sc.root, Length2(v));
      var b := DiskColorAt(sc, d, begin, end, s, sc.root(Length2(v)));
      NotBlack(d.color, b);
    }
  }

  lemma NotBlack(c: Color, b: real)
    requires c != BLACK && b > 0.0
    ensures Shaded(c, b) != BLACK
  {
    if c.r != 0.0 {
      NonzeroTimes(c.r, b);
    } else if c.g != 0.0 {
      NonzeroTimes(c.g, b);
    } else {
      NonzeroTimes(c.b, b);
    }
  }

  lemma NonzeroTimes(x: real, b: real)
    requires x != 0.0 && b > 0.0
    ensures x * b != 0.0
  {
    Apart(b, x);
  }

  // ----- Several disks

  /** The colour c of a disk at the point where the line of a segment meets it. */
  ghost predicate ColorThere(d: Disk, begin: Vec3, end: Vec3, c: Color)
  {
    exists s, rho, b :: 0.0 < Abs(s) <= 1.0 && OnDisk(d, PointAt(begin, end, s)) && rho >= 0.0
      && rho * rho == Length2(PointAt(begin, end, s).Minus(d.center)) && Brightness(d, rho, b)
      && c == Shaded(d.color, b)
  }

  /** What a disk adds to a segment: its shaded colour if the line meets it, and nothing otherwise. */
  ghost predicate Adds(d: Disk, begin: Vec3, end: Vec3, c: Color)
  {
    if Met(d, begin, end) then ColorThere(d, begin, end, c) else c == BLACK
  }

  ghost predicate AllAdd(sc: Scene, cs: seq<Color>, begin: Vec3, end: Vec3)
    requires |cs| <= |sc.objects|
  {
    forall i | 0 <= i < |cs| :: Adds(sc.objects[i], begin, end, cs[i])
  }

  function Reds(cs: seq<Color>): int -> real
  {
    i => if 0 <= i < |cs| then cs[i].r else 0.0
  }

  function Greens(cs: seq<Color>): int -> real
  {
    i => if 0 <= i < |cs| then cs[i].g else 0.0
  }

  function Blues(cs: seq<Color>): int -> real
  {
    i => if 0 <= i < |cs| then cs[i].b else 0.0
  }

  /** A base colour and a list of colours added up, channel by channel. */
  function Total(base: Color, cs: seq<Color>): Color
  {
    Color(base.r + Sum(|cs|, Reds(cs)), base.g + Sum(|cs|, Greens(cs)), base.b + Sum(|cs|, Blues(cs)))
  }

  lemma DiskAdds(sc: Scene, d: Disk, begin: Vec3, end: Vec3)
    requires IsRoot(sc.root) && Proper(d)
    ensures Adds(d, begin, end, DiskColor(sc, d, begin, end))
  {
    hide OnDisk, PointAt, Vec3.Minus, Vec3.Dot, Length2, IsRoot, DiskColor, Brightness, Proper;
    DiskSeenIff(sc, d, begin, end);
    if Met(d, begin, end) {
      var s :| 0.0 < Abs(s) <= 1.0 && OnDisk(d, PointAt(begin, end, s));
      var v := PointAt(begin, end, s).Minus(d.center);
      LengthNonneg(v);
      RootIs(sc.root, Length2(v));
      var b := DiskColorAt(sc, d, begin, end, s, sc.root(Length2(v)));
    }
  }

  lemma TotalStep(base: Color, cs: seq<Color>, c: Color)
    ensures Total(base, cs + [c]) == Total(base, cs).Plus(c)
  {
    var ds, n := cs + [c], |cs|;
    SumExt(n, Reds(ds), Reds(cs));
    SumExt(n, Greens(ds), Greens(cs));
    SumExt(n, Blues(ds), Blues(cs));
  }

  /** The colour of a segment is its base and the colours of the disks its line meets, added up. */
  lemma {:induction false} SegmentAddsUp(sc: Scene, base: Color, n: nat, begin: Vec3, end: Vec3)
    returns (cs: seq<Color>)
    requires IsRoot(sc.root) && n <= |sc.objects| && forall i | 0 <= i < n :: Proper(sc.objects[i])
    ensures |cs| == n && AllAdd(sc, cs, begin, end) && SegmentColor(sc, base, n, begin, end) == Total(base, cs)
  {
    hide IsRoot, Proper, DiskColor, Total, Adds;
    if n == 0 {
      cs := [];
      EmptyTotal(base);
    } else {
      var init := SegmentAddsUp(sc, base, n - 1, begin, end);
      var c := DiskColor(sc, sc.objects[n - 1], begin, end);
      DiskAdds(sc, sc.objects[n - 1], begin, end);
      TotalStep(base, init, c);
      cs := init + [c];
    }
  }

  lemma EmptyTotal(base: Color)
    ensures Total(base, []) == base
  {
  }

  // ----- Disks behind the segment

  /** The line meets the disk within one length before the begin of the segment. */
  ghost predicate Behind(d: Disk, begin: Vec3, end: Vec3)
  {
    !Parallel(d, begin, end) && exists s :: -1.0 <= s < 0.0 && OnDisk(d, PointAt(begin, end, s))
  }

  /** Colouring a segment is crossing the disk exactly unless the disk lies behind the segment. */
  lemma SeenIsCrossedIff(sc: Scene, d: Disk, begin: Vec3, end: Vec3)
    requires IsRoot(sc.root) && Proper(d)
    ensures (DiskColor(sc, d, begin, end) != BLACK <==> Crossed(d, begin, end)) <==> !Behind(d, begin, end)
  {
    hide PointAt, Vec3.Minus, Vec3.Dot, Length2, IsRoot, Hit, Brightness, DiskColor;
    DiskSeenIff(sc, d, begin, end);
    if !Parallel(d, begin, end) {
      forall s | OnDisk(d, PointAt(begin, end, s)) ensures s == PlaneParameter(d, begin, end) {
        OnlyParameter(d, begin, end, s);
      }
    }
  }

  /** A ray that goes on straight after it has crossed a disk gets its colour twice. */
  lemma ColoredTwice(sc: Scene, d: Disk, a: Vec3, b: Vec3, c: Vec3, s: real)
    requires IsRoot(sc.root) && Proper(d) && c.Minus(b) == b.Minus(a)
    requires !Parallel(d, a, b) && 0.0 < s < 1.0 && OnDisk(d, PointAt(a, b, s))
    ensures DiskColor(sc, d, a, b) == DiskColor(sc, d, b, c) != BLACK && !Crossed(d, b, c)
  {
    hide Vec3.Dot, Length2, IsRoot, Hit, Brightness, DiskColor, OnDisk, Proper, Parallel, Vec3.Minus, PointAt;
    SamePointLater(a, b, c, s);
    assert Parallel(d, b, c) == Parallel(d, a, b) by { SameDirection(d, a, b, c); }
    var v := PointAt(a, b, s).Minus(d.center);
    LengthNonneg(v);
    RootIs(sc.root, Length2(v));
    var rho := sc.root(Length2(v));
    var first := DiskColorAt(sc, d, a, b, s, rho);
    var second := DiskColorAt(sc, d, b, c, s - 1.0, rho);
    SameBrightness(d, rho, first, second);
    assert Met(d, a, b);
    DiskSeenIff(sc, d, a, b);
    forall t | OnDisk(d, PointAt(b, c, t)) ensures t == s - 1.0 {
      InPlane(d, b, c, t);
      InPlane(d, b, c, s - 1.0);
    }
  }

  lemma InPlane(d: Disk, begin: Vec3, end: Vec3, s: real)
    requires !Parallel(d, begin, end) && OnDisk(d, PointAt(begin, end, s))
    ensures s == PlaneParameter(d, begin, end)
  {
    hide PointAt, Vec3.Minus, Vec3.Dot, Length2, Parallel, PlaneParameter;
    OnlyParameter(d, begin, end, s);
  }

  lemma SameDirection(d: Disk, a: Vec3, b: Vec3, c: Vec3)
    requires c.Minus(b) == b.Minus(a)
    ensures Parallel(d, b, c) == Parallel(d, a, b)
  {
    hide Vec3.Minus, Vec3.Dot;
  }

  lemma SamePointLater(a: Vec3, b: Vec3, c: Vec3, s: real)
    requires c.Minus(b) == b.Minus(a)
    ensures PointAt(b, c, s - 1.0) == PointAt(a, b, s)
  {
    Later(a.x, b.x, c.x, s);
    Later(a.y, b.y, c.y, s);
    Later(a.z, b.z, c.z, s);
  }

  lemma Later(a: real, b: real, c: real, s: real)
    requires c - b == b - a
    ensures b + (c - b) * (s - 1.0) == a + (b - a) * s
  {
  }

  lemma SameBrightness(d: Disk, rho: real, b: real, b': real)
    requires d.inner < d.outer && Brightness(d, rho, b) && Brightness(d, rho, b')
    ensures b == b'
  {
    var w := d.outer - d.inner;
    CubePositive(w);
    SameFactor(b, b', w * w * w);
  }
}
