/** The law of total variance for a histogram, and what it makes of the threshold: the first level that
    maximises the between-class variance is the first that minimises the scatter within the classes. */
module OtsuOptimality {
  import opened Reals
  import opened Sums
  import opened Otsu

  lemma {:induction false} CountsMonotone(h: Histogram, m: nat, n: nat)
    requires m <= n
    ensures 0.0 <= Sum(m, Count(h)) <= Sum(n, Count(h))
  {
    if m < n {
      CountsMonotone(h, m, n - 1);
    } else if m > 0 {
      CountsMonotone(h, m - 1, m - 1);
    }
  }

  lemma WeightsNonneg(h: Histogram, k: nat)
    requires k < |h|
    ensures WtB(h, k) >= 0.0 && WtF(h, k) >= 0.0 && WtB(h, k) + WtF(h, k) == Sum(|h|, Count(h))
    ensures Split(h, k) ==> Sum(|h|, Count(h)) > 0.0
  {
    CountsMonotone(h, k + 1, |h|);
  }

  /** The part of the second moment that the mean of a class accounts for. */
  function Explained(s: real, w: real): real
    requires w != 0.0
  {
    s * s / w
  }

  lemma ClassScatter(h: Histogram, k: nat)
    requires Split(h, k)
    ensures WithinScatter(h, k) == Sum(|h|, Squares(h)) - Explained(SumB(h, k), WtB(h, k))
                                   - Explained(SumF(h, k), WtF(h, k))
  {
    hide Sum;
    var mB, mF := SumB(h, k) / WtB(h, k), SumF(h, k) / WtF(h, k);
    ScatterByMoments(h, k + 1, mB);
    ScatterByMoments(h, |h|, mF);
    ScatterByMoments(h, k + 1, mF);
    AroundMean(Sum(k + 1, Squares(h)), SumB(h, k), WtB(h, k));
    var qF := Sum(|h|, Squares(h)) - Sum(k + 1, Squares(h));
    AroundMean(qF, SumF(h, k), WtF(h, k));
    Difference(mF, Sum(|h|, Squares(h)), Sum(k + 1, Squares(h)), Sum(|h|, Weighted(h)), Sum(k + 1, Weighted(h)),
               Sum(|h|, Count(h)), Sum(k + 1, Count(h)));
  }

  lemma Difference(c: real, q: real, q': real, s: real, s': real, w: real, w': real)
    ensures (q - 2.0 * c * s + c * c * w) - (q' - 2.0 * c * s' + c * c * w')
         == (q - q') - 2.0 * c * (s - s') + c * c * (w - w')
  {
  }

  lemma WholeScatter(h: Histogram)
    requires Sum(|h|, Count(h)) != 0.0
    ensures TotalScatter(h) == Sum(|h|, Squares(h)) - Explained(Sum(|h|, Weighted(h)), Sum(|h|, Count(h)))
  {
    hide Sum;
    ScatterByMoments(h, |h|, Mean(h));
    AroundMean(Sum(|h|, Squares(h)), Sum(|h|, Weighted(h)), Sum(|h|, Count(h)));
  }

  /** Total scatter = scatter within the classes + between-class variance / number of pixels, at every
      split with pixels on both sides. */
  lemma TotalVariance(h: Histogram, k: nat)
    requires k < |h| && Split(h, k)
    ensures Sum(|h|, Count(h)) > 0.0
    ensures TotalScatter(h) == WithinScatter(h, k) + BetweenVariance(h, k) / Sum(|h|, Count(h))
  {
    hide *;
    WeightsNonneg(h, k);
    ClassScatter(h, k);
    WholeScatter(h);
    BetweenExplained(h, k);
  }

  /** The between-class variance is what the class means explain beyond the overall mean. */
  lemma BetweenExplained(h: Histogram, k: nat)
    requires k < |h| && Split(h, k) && Sum(|h|, Count(h)) != 0.0
    ensures BetweenVariance(h, k) / Sum(|h|, Count(h))
         == Explained(SumB(h, k), WtB(h, k)) + Explained(SumF(h, k), WtF(h, k))
            - Explained(Sum(|h|, Weighted(h)), Sum(|h|, Count(h)))
  {
    hide *;
    SplitFacts(h, k);
    SumsAdd(h, k);
    WeightsNonneg(h, k);
    TwoClassesExplained(WtB(h, k), WtF(h, k), SumB(h, k), SumF(h, k), Sum(|h|, Count(h)), Sum(|h|, Weighted(h)),
                        BetweenVariance(h, k));
  }

  lemma TwoClassesExplained(wB: real, wF: real, sB: real, sF: real, n: real, s: real, v: real)
    requires wB != 0.0 && wF != 0.0 && n != 0.0 && n == wB + wF && s == sB + sF
    requires v == wB * wF * (sB / wB - sF / wF) * (sB / wB - sF / wF)
    ensures v / n == Explained(sB, wB) + Explained(sF, wF) - Explained(s, n)
  {
    hide Explained;
    var a, b, m := sB / wB, sF / wF, s / n;
    ExplainedByMean(sB, wB, a);
    ExplainedByMean(sF, wF, b);
    ExplainedByMean(s, n, m);
    MeansAlgebra(a, b, m, wB, wF, n, sB, sF, s);
    DivideExact(v, n, a * sB + b * sF - m * s);
  }

  lemma ExplainedByMean(s: real, w: real, m: real)
    requires w != 0.0 && m == s / w
    ensures m * w == s && Explained(s, w) == m * s
  {
  }

  lemma DivideExact(v: real, n: real, r: real)
    requires n != 0.0 && v == n * r
    ensures v / n == r
  {
  }

  lemma MeansAlgebra(a: real, b: real, m: real, wB: real, wF: real, n: real, sB: real, sF: real, s: real)
    requires n == wB + wF && s == sB + sF && a * wB == sB && b * wF == sF && m * n == s
    ensures wB * wF * (a - b) * (a - b) == n * (a * sB + b * sF - m * s)
  {
    assert n * (m * s) == s * s;
    CrossTerms(a, b, wB, wF);
    assert n * (a * sB + b * sF - m * s) == n * (a * sB + b * sF) - n * (m * s);
  }

  lemma SplitFacts(h: Histogram, k: nat)
    requires Split(h, k)
    ensures WtB(h, k) != 0.0 && WtF(h, k) != 0.0
    ensures BetweenVariance(h, k)
         == WtB(h, k) * WtF(h, k) * (SumB(h, k) / WtB(h, k) - SumF(h, k) / WtF(h, k))
            * (SumB(h, k) / WtB(h, k) - SumF(h, k) / WtF(h, k))
  {
  }

  lemma SumsAdd(h: Histogram, k: nat)
    ensures SumB(h, k) + SumF(h, k) == Sum(|h|, Weighted(h))
  {
    hide Sum;
  }

  // ----- The search

  lemma {:induction false} MaximumIsLargest(v: seq<Entry>)
    ensures Maximum(v).Number? ==> Maximum(v) in v
    ensures forall j | 0 <= j < |v| && v[j].Number? :: Maximum(v).Number? && v[j].value <= Maximum(v).value
  {
    if v != [] {
      MaximumIsLargest(v[..|v| - 1]);
      assert v == v[..|v| - 1] + [v[|v| - 1]];
    }
  }

  lemma {:induction false} FirstEqualFinds(v: seq<Entry>, x: real)
    requires Number(x) in v
    ensures FirstEqual(v, x) < |v|
  {
    if v[0] != Number(x) {
      FirstEqualFinds(v[1..], x);
    }
  }

  /** The two searches stop at the same level. */
  lemma SearchesAgree(v: seq<Entry>)
    requires Maximum(v).Number?
    ensures FirstEqual(v, Maximum(v).value) == FirstAtLeast(v, Maximum(v).value) < |v|
  {
    var x := Maximum(v).value;
    MaximumIsLargest(v);
    FirstEqualFinds(v, x);
    var e, l := FirstEqual(v, x), FirstAtLeast(v, x);
    if l < e {
      assert false;
    }
  }

  /** The level the threshold stands at. */
  ghost predicate ThresholdAt(h: Histogram, t: nat)
  {
    t < |h| && Split(h, t) && Threshold(h) == Number(t as real)
  }

  lemma ThresholdLevel(h: Histogram, k: nat) returns (t: nat)
    requires k < |h| && Split(h, k)
    ensures ThresholdAt(h, t)
    ensures forall j | 0 <= j < |h| && Split(h, j) ::
      InterClassVariance(h, j).value <= InterClassVariance(h, t).value
    ensures forall j | 0 <= j < t && Split(h, j) ::
      InterClassVariance(h, j).value < InterClassVariance(h, t).value
  {
    hide Split, WtB, WtF, MeanDifference;
    var v := Variances(h);
    MaximumIsLargest(v);
    assert v[k].Number?;
    SearchesAgree(v);
    t := FirstEqual(v, Maximum(v).value);
    assert (t as real + t as real) / 2.0 == t as real;
    assert v[t] == InterClassVariance(h, t);
  }

  lemma Trade(within: real, within': real, between: real, between': real, n: real)
    requires n > 0.0 && within + between / n == within' + between' / n
    ensures between' <= between ==> within <= within'
    ensures between' < between ==> within < within'
  {
    var c := 1.0 / n;
    assert c > 0.0;
    assert between / n - between' / n == c * (between - between');
    if between' < between {
      TimesPositive(c, between - between');
    }
  }

  /** Less between the classes is more within them. */
  lemma SplitTrade(h: Histogram, t: nat, j: nat)
    requires t < |h| && j < |h| && Split(h, t) && Split(h, j)
    ensures BetweenVariance(h, j) <= BetweenVariance(h, t) ==> WithinScatter(h, t) <= WithinScatter(h, j)
    ensures BetweenVariance(h, j) < BetweenVariance(h, t) ==> WithinScatter(h, t) < WithinScatter(h, j)
  {
    hide *;
    TotalVariance(h, t);
    TotalVariance(h, j);
    Trade(WithinScatter(h, t), WithinScatter(h, j), BetweenVariance(h, t), BetweenVariance(h, j), Sum(|h|, Count(h)));
  }

  // ----- Without wrap-around

  lemma {:induction false} PixelsAreCounts(h: Histogram, n: nat)
    ensures Sum(n, Count(h)) == Pixels(h, n) as real
  {
    if n > 0 {
      PixelsAreCounts(h, n - 1);
    }
  }

  lemma {:induction false} PixelsMonotone(h: Histogram, m: nat, n: nat)
    requires m <= n
    ensures Pixels(h, m) <= Pixels(h, n)
  {
    if m < n {
      PixelsMonotone(h, m, n - 1);
    }
  }

  /** The largest number of pixels for which no product of class sizes reaches 32 bits. */
  const MAX_PIXELS := 0x1_FFFF

  lemma ProductMonotone(a: nat, b: nat, c: nat)
    requires b <= c
    ensures a * b <= a * c
  {
  }

  /** Of two factors with a bounded sum, the product is largest when they are equal. */
  lemma ProductFits(a: nat, b: nat)
    requires a + b <= MAX_PIXELS
    ensures a * b < WRAP
  {
    ProductMonotone(a, b, MAX_PIXELS - a);
    var d := 0x1_0000 - a;
    assert a * (MAX_PIXELS - a) == 0x1_0000 * 0xFFFF + d - d * d;
    assert d - d * d <= 0 by {
      if d > 0 {
        ProductMonotone(d, 1, d);
      } else {
        ProductMonotone(-d, 0, -d);
      }
    }
  }

  lemma ProductIsExact(h: Histogram, k: nat)
    requires k < |h| && Pixels(h, |h|) <= MAX_PIXELS
    ensures WeightProduct(h, k) as real == WtB(h, k) * WtF(h, k)
  {
    hide Sum, Pixels;
    var a, n := Pixels(h, k + 1), Pixels(h, |h|);
    PixelsMonotone(h, k + 1, |h|);
    PixelsAreCounts(h, k + 1);
    PixelsAreCounts(h, |h|);
    ProductFits(a, n - a);
    ProductOfReals(a, n - a);
    assert WtB(h, k) == a as real && WtF(h, k) == (n - a) as real;
    assert WeightProduct(h, k) == a * (n - a);
  }

  lemma ProductOfReals(a: nat, b: nat)
    ensures (a * b) as real == a as real * b as real
  {
  }

  /** The array entry is the between-class variance. */
  lemma VarianceIsExact(h: Histogram, k: nat)
    requires k < |h| && Split(h, k) && Pixels(h, |h|) <= MAX_PIXELS
    ensures InterClassVariance(h, k) == Number(BetweenVariance(h, k))
  {
    ProductIsExact(h, k);
  }

  /** The threshold stands at the first of the splits with the least scatter within the classes. */
  ghost predicate FirstMinimiser(h: Histogram, t: nat)
  {
    && ThresholdAt(h, t)
    && (forall j | 0 <= j < |h| && Split(h, j) :: WithinScatter(h, t) <= WithinScatter(h, j))
    && (forall j | 0 <= j < t && Split(h, j) :: WithinScatter(h, t) < WithinScatter(h, j))
  }

  /** For every histogram of fewer than 2^17 pixels with a split that has pixels on both sides, the threshold
      is a level, and it is the first of the splits with the least scatter within the classes. */
  lemma ThresholdMinimisesWithin(h: Histogram, k: nat) returns (t: nat)
    requires k < |h| && Split(h, k) && Pixels(h, |h|) <= MAX_PIXELS
    ensures FirstMinimiser(h, t)
  {
    hide WithinScatter, BetweenVariance, Threshold, InterClassVariance, WtB, WtF;
    t := ThresholdLevel(h, k);
    VarianceIsExact(h, t);
    forall j | 0 <= j < |h| && Split(h, j)
      ensures WithinScatter(h, t) <= WithinScatter(h, j)
      ensures j < t ==> WithinScatter(h, t) < WithinScatter(h, j)
    {
      VarianceIsExact(h, j);
      SplitTrade(h, t, j);
    }
  }

  // ----- When there is a threshold

  lemma {:induction false} PrefixPositive(h: Histogram, n: nat, a: nat)
    requires a < n && a < |h| && h[a] > 0
    ensures Sum(n, Count(h)) > 0.0
  {
    if a == n - 1 {
      CountsMonotone(h, n - 1, n - 1);
    } else {
      PrefixPositive(h, n - 1, a);
    }
  }

  lemma {:induction false} OccupiedBelow(h: Histogram, m: nat, n: nat) returns (a: nat)
    requires m <= n && Sum(n, Count(h)) > Sum(m, Count(h))
    ensures m <= a < n && a < |h| && h[a] > 0
  {
    if Count(h)(n - 1) > 0.0 {
      a := n - 1;
    } else {
      a := OccupiedBelow(h, m, n - 1);
    }
  }

  lemma {:induction false} SomeNumber(v: seq<Entry>)
    requires Maximum(v).Number?
    ensures exists j :: 0 <= j < |v| && v[j].Number?
  {
    MaximumIsLargest(v);
  }

  lemma TwoLevelsSplit(h: Histogram, a: nat, b: nat)
    requires a < b < |h| && h[a] > 0 && h[b] > 0
    ensures Split(h, a)
  {
    PrefixPositive(h, a + 1, a);
    AfterPositive(h, a, b);
  }

  lemma SplitHasTwoLevels(h: Histogram, k: nat) returns (a: nat, b: nat)
    requires k < |h| && Split(h, k)
    ensures a < b < |h| && h[a] > 0 && h[b] > 0
  {
    WeightsNonneg(h, k);
    assert Sum(0, Count(h)) == 0.0;
    a := OccupiedBelow(h, 0, k + 1);
    b := OccupiedBelow(h, k + 1, |h|);
  }

  /** There is a threshold exactly when two different levels are occupied. */
  lemma ThresholdExists(h: Histogram)
    ensures Threshold(h).Number? <==> exists a, b :: 0 <= a < b < |h| && h[a] > 0 && h[b] > 0
  {
    hide MeanDifference, Sum, WtB, WtF;
    if a, b :| 0 <= a < b < |h| && h[a] > 0 && h[b] > 0 {
      TwoLevelsSplit(h, a, b);
      var t := ThresholdLevel(h, a);
    }
    if Threshold(h).Number? {
      SomeNumber(Variances(h));
      var k :| 0 <= k < |h| && Variances(h)[k].Number?;
      var a, b := SplitHasTwoLevels(h, k);
    }
  }

  lemma AfterPositive(h: Histogram, a: nat, b: nat)
    requires a < b < |h| && h[b] > 0
    ensures WtF(h, a) > 0.0
  {
    CountsMonotone(h, a + 1, b);
    CountsMonotone(h, b + 1, |h|);
  }
}
