/** How many pixels Otsu's threshold can take: from 2^17 pixels on, the 32-bit product of the class sizes wraps
    around for some histogram, and the threshold is no longer the best one. */
module OtsuLimit {
  import opened Reals
  import opened Sums
  import opened Otsu
  import opened OtsuOptimality

  // ----- A split whose product wraps around to a small number

  function Product(n: nat, m: nat): int
  {
    m * (n - m)
  }

  lemma ProductStep(n: nat, m: nat)
    requires m > 0
    ensures Product(n, m) == Product(n, m - 1) + n - 2 * m + 1
  {
  }

  /** Between a product below the target and one that reaches it, there is a first one that does. */
  lemma {:induction false} FirstAbove(n: nat, target: int, low: nat, high: nat) returns (m: nat)
    requires low < high && Product(n, low) < target <= Product(n, high)
    ensures low < m <= high && Product(n, m - 1) < target <= Product(n, m)
  {
    hide Product;
    if target <= Product(n, high - 1) && low < high - 1 {
      m := FirstAbove(n, target, low, high - 1);
    } else {
      m := high;
    }
  }

  lemma HalfProduct(n: nat)
    requires MAX_PIXELS < n
    ensures Product(n, n / 2) >= WRAP && Product(n, n / 2) >= 2 * Product(n, 8)
  {
    var a, b := n / 2, n - n / 2;
    ProductMonotone(a, 0x1_0000, b);
    assert a * b >= a * 0x1_0000 >= WRAP;
    assert a * b >= 0x1_0000 * a;
  }

  lemma Remainder(x: int, q: int, r: int)
    requires x == q * WRAP + r && 0 <= r < WRAP
    ensures x % WRAP == r
  {
  }

  lemma WrappingSplit(n: nat) returns (m: nat)
    requires MAX_PIXELS < n < WRAP
    ensures 9 <= m <= n / 2 && Product(n, m) >= WRAP && Product(n, m) % WRAP < n
  {
    hide Product;
    var q := Product(n, 8) / WRAP + 1;
    var target := q * WRAP;
    assert Product(n, 8) >= 0 by { EightProduct(n); }
    assert Product(n, 8) < target <= Product(n, 8) + WRAP;
    HalfProduct(n);
    m := FirstAbove(n, target, 8, n / 2);
    ProductStep(n, m);
    Remainder(Product(n, m), q, Product(n, m) - target);
  }

  lemma EightProduct(n: nat)
    requires n > 8
    ensures Product(n, 8) >= 0
  {
  }

  // ----- The histogram it gives

  /** The number of levels of the program's histogram. */
  const LEVELS := 256

  /** One pixel at level 0, m - 1 at level 1, the others at level 2, and none at the levels above. */
  function ThreeLevels(n: nat, m: nat): (h: Histogram)
    requires 1 <= m <= n
    ensures |h| == LEVELS && h[0] == 1 && h[1] == m - 1 && h[2] == n - m
    ensures forall i | 3 <= i < LEVELS :: h[i] == 0
  {
    seq(LEVELS, i => if i == 0 then 1 else if i == 1 then m - 1 else if i == 2 then n - m else 0)
  }

  lemma ThreePrefixes(f: int -> real)
    ensures Sum(1, f) == f(0) && Sum(2, f) == f(0) + f(1) && Sum(3, f) == f(0) + f(1) + f(2)
  {
    assert Sum(0, f) == 0.0;
  }

  /** Empty levels add nothing. */
  lemma {:induction false} SumStops(f: int -> real, l: nat)
    requires 3 <= l <= LEVELS && forall i | 3 <= i < LEVELS :: f(i) == 0.0
    ensures Sum(l, f) == Sum(3, f)
  {
    if l > 3 {
      SumStops(f, l - 1);
    }
  }

  lemma {:induction false} PixelsStop(h: Histogram, l: nat)
    requires |h| == LEVELS && 3 <= l <= LEVELS && forall i | 3 <= i < LEVELS :: h[i] == 0
    ensures Pixels(h, l) == Pixels(h, 3)
  {
    if l > 3 {
      PixelsStop(h, l - 1);
    }
  }

  lemma ThreeTotals(n: nat, m: nat, h: Histogram)
    requires 1 < m < n && h == ThreeLevels(n, m)
    ensures Sum(1, Count(h)) == 1.0 && Sum(2, Count(h)) == m as real
    ensures Sum(1, Weighted(h)) == 0.0 && Sum(2, Weighted(h)) == (m - 1) as real
    ensures Sum(LEVELS, Weighted(h)) == (2 * n - m - 1) as real
    ensures forall l: nat | 3 <= l <= LEVELS :: Sum(l, Count(h)) == n as real
  {
    hide Sum;
    ThreePrefixes(Count(h));
    ThreePrefixes(Weighted(h));
    assert Weighted(h)(0) == 0.0 && Weighted(h)(1) == (m - 1) as real && Weighted(h)(2) == 2.0 * (n - m) as real;
    forall l: nat | 3 <= l <= LEVELS ensures Sum(l, Count(h)) == n as real {
      SumStops(Count(h), l);
    }
    SumStops(Weighted(h), LEVELS);
  }

  lemma ThreeSums(n: nat, m: nat, h: Histogram)
    requires 1 < m < n && h == ThreeLevels(n, m)
    ensures WtB(h, 0) == 1.0 && WtF(h, 0) == (n - 1) as real && SumB(h, 0) == 0.0
    ensures SumF(h, 0) == (2 * n - m - 1) as real
    ensures WtB(h, 1) == m as real && WtF(h, 1) == (n - m) as real && SumB(h, 1) == (m - 1) as real
    ensures SumF(h, 1) == 2.0 * (n - m) as real
    ensures forall k: nat | 2 <= k < LEVELS :: WtF(h, k) == 0.0
  {
    hide Sum, Count, Weighted;
    ThreeTotals(n, m, h);
  }

  lemma ThreePixels(n: nat, m: nat, h: Histogram)
    requires 1 < m < n < WRAP && h == ThreeLevels(n, m)
    ensures Pixels(h, LEVELS) == n
    ensures WeightProduct(h, 0) == n - 1 && WeightProduct(h, 1) == Product(n, m) % WRAP
  {
    FirstPixels(h);
    PixelsStop(h, LEVELS);
    hide Pixels;
  }

  lemma FirstPixels(h: Histogram)
    requires |h| == LEVELS
    ensures Pixels(h, 1) == h[0] && Pixels(h, 2) == h[0] + h[1] && Pixels(h, 3) == h[0] + h[1] + h[2]
  {
    assert Pixels(h, 0) == 0;
  }

  /** The difference of the means at the first split is at least 3/2 ... */
  lemma FirstDifference(n: real, m: real, d: real)
    requires 9.0 <= m <= n / 2.0 && d == 0.0 / 1.0 - (2.0 * n - m - 1.0) / (n - 1.0)
    ensures -2.0 <= d <= -1.5
  {
    var c := -d;
    assert c * (n - 1.0) == 2.0 * n - m - 1.0;
    if c < 1.5 {
      TimesPositive(1.5 - c, n - 1.0);
    }
    if c > 2.0 {
      TimesPositive(c - 2.0, n - 1.0);
    }
  }

  /** ... and at the second between 1 and 10/9. */
  lemma SecondDifference(n: real, m: real, d: real)
    requires 9.0 <= m <= n / 2.0 && d == (m - 1.0) / m - 2.0 * (n - m) / (n - m)
    ensures -10.0 / 9.0 <= d < -1.0
  {
    assert 2.0 * (n - m) / (n - m) == 2.0;
    var e := 1.0 / m;
    assert (m - 1.0) / m == 1.0 - e;
    assert e * m == 1.0;
    assert e <= 1.0 / 9.0;
  }

  lemma SquareBounds(d: real, low: real, high: real)
    requires 0.0 <= low <= -d <= high
    ensures low * low <= d * d <= high * high
  {
    TimesNonneg(-d - low, -d + low);
    TimesNonneg(high + d, high - d);
    assert Times(-d - low, -d + low) == d * d - low * low;
    assert Times(high + d, high - d) == high * high - d * d;
  }

  lemma ScaleLe(w: real, x: real, y: real)
    requires w >= 0.0 && x <= y
    ensures w * x <= w * y
  {
    TimesNonneg(w, y - x);
    assert Times(w, y - x) == w * y - w * x;
  }

  lemma CompareSquares(n: real, m: real, w: real, p: real, s0: real, s1: real)
    requires 9.0 <= m <= n / 2.0 && 0.0 <= w < n && p == m * (n - m)
    requires 2.25 <= s0 <= 4.0 && 1.0 <= s1 <= 1.25
    ensures w * s1 < (n - 1.0) * s0 < p * s1
  {
    var second, first, exact := w * s1, (n - 1.0) * s0, p * s1;
    assert p >= 9.0 * (n - m) by {
      TimesNonneg(m - 9.0, n - m);
      assert Times(m - 9.0, n - m) == p - 9.0 * (n - m);
    }
    assert second <= w * 1.25 by { ScaleLe(w, s1, 1.25); }
    assert (n - 1.0) * 2.25 <= first by { ScaleLe(n - 1.0, 2.25, s0); }
    assert first <= (n - 1.0) * 4.0 by { ScaleLe(n - 1.0, s0, 4.0); }
    assert p <= exact by { ScaleLe(p, 1.0, s1); }
    Chain(n, m, w, p, second, first, exact);
  }

  lemma Chain(n: real, m: real, w: real, p: real, second: real, first: real, exact: real)
    requires 9.0 <= m <= n / 2.0 && w < n && p >= 9.0 * (n - m)
    requires second <= w * 1.25 && (n - 1.0) * 2.25 <= first <= (n - 1.0) * 4.0 && p <= exact
    ensures second < first < exact
  {
  }

  lemma Regroup(w: real, d: real)
    ensures w * d * d == w * (d * d)
  {
  }

  /** With a product that wrapped to less than n, the second split counts for less than the first; with the
      true product it counts for more. */
  lemma Compare(n: real, m: real, w: real, p: real, d0: real, d1: real)
    requires 9.0 <= m <= n / 2.0 && 0.0 <= w < n && p == m * (n - m)
    requires -2.0 <= d0 <= -1.5 && -10.0 / 9.0 <= d1 < -1.0
    ensures w * d1 * d1 < (n - 1.0) * d0 * d0 < p * d1 * d1
  {
    SquareBounds(d0, 1.5, 2.0);
    SquareBounds(d1, 1.0, 10.0 / 9.0);
    CompareSquares(n, m, w, p, d0 * d0, d1 * d1);
    Regroup(w, d1);
    Regroup(n - 1.0, d0);
    Regroup(p, d1);
  }

  lemma ThreeMeans(n: nat, m: nat, h: Histogram)
    requires 1 < m < n && h == ThreeLevels(n, m)
    ensures var nr, mr := n as real, m as real;
      && WtB(h, 0) == 1.0 && WtF(h, 0) == nr - 1.0 != 0.0 && WtB(h, 1) == mr != 0.0 && WtF(h, 1) == nr - mr != 0.0
      && MeanDifference(h, 0) == 0.0 / 1.0 - (2.0 * nr - mr - 1.0) / (nr - 1.0)
      && MeanDifference(h, 1) == (mr - 1.0) / mr - 2.0 * (nr - mr) / (nr - mr)
  {
    hide Sum, WtB, WtF, SumB, SumF, ThreeLevels;
    ThreeSums(n, m, h);
    assert (n - 1) as real == n as real - 1.0 && (n - m) as real == n as real - m as real;
    assert (2 * n - m - 1) as real == 2.0 * n as real - m as real - 1.0 && (m - 1) as real == m as real - 1.0;
  }

  lemma ThreeDifferences(n: nat, m: nat, h: Histogram)
    requires 9 <= m <= n / 2 && h == ThreeLevels(n, m)
    ensures Split(h, 0) && Split(h, 1) && forall k: nat | 2 <= k < LEVELS :: !Split(h, k)
    ensures -2.0 <= MeanDifference(h, 0) <= -1.5 && -10.0 / 9.0 <= MeanDifference(h, 1) < -1.0
    ensures BetweenVariance(h, 0) == (n as real - 1.0) * MeanDifference(h, 0) * MeanDifference(h, 0)
    ensures BetweenVariance(h, 1) == m as real * (n as real - m as real) * MeanDifference(h, 1) * MeanDifference(h, 1)
  {
    hide Sum, WtB, WtF, SumB, SumF;
    ThreeSums(n, m, h);
    ThreeMeans(n, m, h);
    FirstDifference(n as real, m as real, MeanDifference(h, 0));
    SecondDifference(n as real, m as real, MeanDifference(h, 1));
  }

  /** The second split of three such levels explains more, but its array entry is smaller. */
  lemma ThreeVariances(n: nat, m: nat, h: Histogram)
    requires 9 <= m <= n / 2 && n < WRAP && Product(n, m) % WRAP < n && h == ThreeLevels(n, m)
    ensures Split(h, 0) && Split(h, 1) && forall k: nat | 2 <= k < LEVELS :: !Split(h, k)
    ensures InterClassVariance(h, 1).value < InterClassVariance(h, 0).value
    ensures BetweenVariance(h, 0) < BetweenVariance(h, 1)
  {
    hide MeanDifference, BetweenVariance, WeightProduct, Pixels, Product, WtB, WtF;
    ThreeDifferences(n, m, h);
    ThreePixels(n, m, h);
    var nr, mr := n as real, m as real;
    Compare(nr, mr, WeightProduct(h, 1) as real, mr * (nr - mr), MeanDifference(h, 0), MeanDifference(h, 1));
  }

  /** So the threshold is 0, and the split at level 1 has less scatter within its classes. */
  lemma ThreeLevelsGoWrong(n: nat, m: nat, h: Histogram, t: nat)
    requires 9 <= m <= n / 2 && n < WRAP && Product(n, m) % WRAP < n && h == ThreeLevels(n, m)
    ensures Split(h, 0) && !FirstMinimiser(h, t)
  {
    hide WithinScatter, Threshold, Product, Split, BetweenVariance, InterClassVariance, Pixels;
    ThreeVariances(n, m, h);
    SplitTrade(h, 1, 0);
    var t' := ThresholdLevel(h, 0);
    assert t' == 0;
    if FirstMinimiser(h, t) {
      SameThreshold(h, t, t');
    }
  }

  lemma SameThreshold(h: Histogram, t: nat, t': nat)
    requires ThresholdAt(h, t) && ThresholdAt(h, t')
    ensures t == t'
  {
  }

  /** Every histogram of 256 levels and n pixels that has a split gets its best threshold. */
  ghost predicate GoodFor(n: nat)
  {
    forall h: Histogram, k: nat | |h| == LEVELS && Pixels(h, LEVELS) == n && k < LEVELS && Split(h, k) ::
      exists t :: FirstMinimiser(h, t)
  }

  /** The threshold minimises the scatter within the classes for every histogram of 256 levels and n pixels
      exactly when n is less than 2^17. */
  lemma PixelLimit(n: nat)
    requires n < WRAP
    ensures GoodFor(n) <==> n <= MAX_PIXELS
  {
    hide Split, FirstMinimiser, Pixels, Product;
    if n <= MAX_PIXELS {
      forall h: Histogram, k: nat | |h| == LEVELS && Pixels(h, LEVELS) == n && k < LEVELS && Split(h, k)
        ensures exists t :: FirstMinimiser(h, t)
      {
        var t := ThresholdMinimisesWithin(h, k);
      }
    } else {
      var m := WrappingSplit(n);
      var h := ThreeLevels(n, m);
      ThreePixels(n, m, h);
      forall t ensures !FirstMinimiser(h, t) {
        ThreeLevelsGoWrong(n, m, h, t);
      }
      ThreeLevelsGoWrong(n, m, h, 0);
      assert Pixels(h, LEVELS) == n && Split(h, 0);
    }
  }
}
