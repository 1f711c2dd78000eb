/** Otsu's threshold: prefix sums over a histogram, the between-class variance of every split, and the
    level of its first maximum. */
module Otsu {
  import opened Sums

  /** An array entry of a quotient: zero over zero is not a number. */
  datatype Entry = NaN | Number(value: real)

  type Histogram = seq<nat>

  function Count(h: Histogram): int -> real
  {
    i => if 0 <= i < |h| then h[i] as real else 0.0
  }

  /** Level times count. */
  function Weighted(h: Histogram): int -> real
  {
    i => i as real * Count(h)(i)
  }

  function Squares(h: Histogram): int -> real
  {
    i => i as real * (i as real * Count(h)(i))
  }

  function WtB(h: Histogram, k: nat): real
  {
    Sum(k + 1, Count(h))
  }

  function WtF(h: Histogram, k: nat): real
  {
    Sum(|h|, Count(h)) - WtB(h, k)
  }

  function SumB(h: Histogram, k: nat): real
  {
    Sum(k + 1, Weighted(h))
  }

  function SumF(h: Histogram, k: nat): real
  {
    Sum(|h|, Weighted(h)) - SumB(h, k)
  }

  function MeanDifference(h: Histogram, k: nat): real
    requires WtB(h, k) != 0.0 && WtF(h, k) != 0.0
  {
    SumB(h, k) / WtB(h, k) - SumF(h, k) / WtF(h, k)
  }

  /** Both classes of the split after level k hold pixels. */
  predicate Split(h: Histogram, k: nat)
  {
    WtB(h, k) != 0.0 && WtF(h, k) != 0.0
  }

  /** The number of pixels at the levels below n. */
  function Pixels(h: Histogram, n: nat): (p: nat)
  {
    if n == 0 then 0 else Pixels(h, n - 1) + (if n - 1 < |h| then h[n - 1] else 0)
  }

  const WRAP := 0x1_0000_0000

  /** The product of the pixel counts of the two classes, which are arrays of 32-bit unsigned integers. */
  function WeightProduct(h: Histogram, k: nat): nat
  {
    Pixels(h, k + 1) * (Pixels(h, |h|) - Pixels(h, k + 1)) % WRAP
  }

  function InterClassVariance(h: Histogram, k: nat): Entry
  {
    if Split(h, k) then
      Number(WeightProduct(h, k) as real * MeanDifference(h, k) * MeanDifference(h, k))
    else NaN
  }

  function Variances(h: Histogram): (v: seq<Entry>)
    ensures |v| == |h| && forall k | 0 <= k < |h| :: v[k] == InterClassVariance(h, k)
  {
    seq(|h|, k requires 0 <= k < |h| => InterClassVariance(h, k))
  }

  /** The largest number of an array; entries that are not numbers are ignored. */
  function Maximum(v: seq<Entry>): Entry
  {
    if v == [] then NaN
    else
      var m, e := Maximum(v[..|v| - 1]), v[|v| - 1];
      if e.NaN? then m else if m.NaN? || e.value > m.value then e else m
  }

  /** The first index where the comparison holds, or the length. */
  function FirstEqual(v: seq<Entry>, x: real): (k: nat)
    ensures k <= |v| && (k < |v| ==> v[k] == Number(x))
    ensures forall j | 0 <= j < k :: v[j] != Number(x)
  {
    if v == [] || v[0] == Number(x) then 0 else 1 + FirstEqual(v[1..], x)
  }

  function FirstAtLeast(v: seq<Entry>, x: real): (k: nat)
    ensures k <= |v| && (k < |v| ==> v[k].Number? && v[k].value >= x)
    ensures forall j | 0 <= j < k :: v[j].NaN? || v[j].value < x
  {
    if v == [] || (v[0].Number? && v[0].value >= x) then 0 else 1 + FirstAtLeast(v[1..], x)
  }

  /** The mean of the two searches; no threshold when no split has pixels on both sides. */
  function Threshold(h: Histogram): Entry
  {
    var v := Variances(h);
    var max := Maximum(v);
    if max.NaN? then NaN
    else
      var threshold2 := FirstEqual(v, max.value);
      var threshIdx := FirstAtLeast(v, max.value);
      var threshold1 := if threshIdx < |v| then threshIdx else 0;
      Number((threshold1 as real + threshold2 as real) / 2.0)
  }

  // ----- Scatter

  /** Squared distance of a level from c, times its count. */
  function Deviations(h: Histogram, c: real): int -> real
  {
    i => Count(h)(i) * ((i as real - c) * (i as real - c))
  }

  /** Scatter of the levels below n around c. */
  function Scatter(h: Histogram, n: nat, c: real): real
  {
    Sum(n, Deviations(h, c))
  }

  function Mean(h: Histogram): real
    requires Sum(|h|, Count(h)) != 0.0
  {
    Sum(|h|, Weighted(h)) / Sum(|h|, Count(h))
  }

  function TotalScatter(h: Histogram): real
    requires Sum(|h|, Count(h)) != 0.0
  {
    Scatter(h, |h|, Mean(h))
  }

  /** Scatter of each class around its own mean. */
  function WithinScatter(h: Histogram, k: nat): real
    requires Split(h, k)
  {
    var mB := SumB(h, k) / WtB(h, k);
    var mF := SumF(h, k) / WtF(h, k);
    Scatter(h, k + 1, mB) + (Scatter(h, |h|, mF) - Scatter(h, k + 1, mF))
  }

  /** The between-class variance of a split, times the square of the number of pixels, without wrap-around. */
  function BetweenVariance(h: Histogram, k: nat): real
    requires Split(h, k)
  {
    WtB(h, k) * WtF(h, k) * MeanDifference(h, k) * MeanDifference(h, k)
  }

  function Centred(h: Histogram, c: real): int -> real
  {
    i => Squares(h)(i) + -2.0 * c * Weighted(h)(i)
  }

  lemma ScatterByMoments(h: Histogram, n: nat, c: real)
    ensures Scatter(h, n, c)
         == Sum(n, Squares(h)) - 2.0 * c * Sum(n, Weighted(h)) + c * c * Sum(n, Count(h))
  {
    hide Sum, Squares, Weighted, Count, Centred, Deviations;
    forall i | 0 <= i < n ensures Centred(h, c)(i) == 1.0 * Squares(h)(i) + -2.0 * c * Weighted(h)(i) {
      CentredAt(h, c, i);
    }
    SumLinear(n, 1.0, Squares(h), -2.0 * c, Weighted(h), Centred(h, c));
    forall i | 0 <= i < n ensures Deviations(h, c)(i) == 1.0 * Centred(h, c)(i) + c * c * Count(h)(i) {
      DeviationAt(h, c, i);
    }
    SumLinear(n, 1.0, Centred(h, c), c * c, Count(h), Deviations(h, c));
  }

  lemma CentredAt(h: Histogram, c: real, i: int)
    ensures Centred(h, c)(i) == 1.0 * Squares(h)(i) + -2.0 * c * Weighted(h)(i)
  {
    hide Squares, Weighted;
  }

  lemma DeviationAt(h: Histogram, c: real, i: int)
    ensures Deviations(h, c)(i) == 1.0 * Centred(h, c)(i) + c * c * Count(h)(i)
  {
    hide Count;
    Square(i as real, c, Count(h)(i));
    assert Squares(h)(i) == i as real * (i as real * Count(h)(i)) && Weighted(h)(i) == i as real * Count(h)(i);
  }

  lemma Square(i: real, c: real, w: real)
    ensures w * ((i - c) * (i - c)) == 1.0 * (i * (i * w) + -2.0 * c * (i * w)) + c * c * w
  {
  }

  /** Scatter around the mean, from the three moments of a class. */
  lemma AroundMean(q: real, s: real, w: real)
    requires w != 0.0
    ensures q - 2.0 * (s / w) * s + s / w * (s / w) * w == q - s * s / w
  {
    var c := s / w;
    assert c * w == s;
    assert s * s / w == c * s;
    assert c * c * w == c * (c * w);
  }

  lemma CrossTerms(a: real, b: real, wB: real, wF: real)
    ensures (wB + wF) * (a * (a * wB) + b * (b * wF)) - (a * wB + b * wF) * (a * wB + b * wF)
         == wB * wF * (a - b) * (a - b)
  {
  }
}
