/** The law of attraction that a step obeys, in terms of positions and masses alone: every particle pulls with its
    mass over the square of the distance, along the line between them, and the pulls add up. */
module GravityLaw {
  import opened Reals
  import opened Sums
  import opened NdArrays
  import opened GravityArrays
  import opened GravityConservation

  ghost function SquaredGap(pos: seq<NdArray>, a: int, b: int): int -> real
  {
    k => if 0 <= k < |pos| then (Entry(pos[k], b) - Entry(pos[k], a)) * (Entry(pos[k], b) - Entry(pos[k], a)) else 0.0
  }

  /** The squared distance of two particles. */
  ghost function Separation2(pos: seq<NdArray>, a: int, b: int): real
  {
    Sum(|pos|, SquaredGap(pos, a, b))
  }

  /** The distance of two particles, but at least 3. */
  ghost predicate Apart(pos: seq<NdArray>, a: int, b: int, d: real)
  {
    && d >= 3.0
    && (Separation2(pos, a, b) >= 9.0 ==> d * d == Separation2(pos, a, b))
    && (Separation2(pos, a, b) < 9.0 ==> d == 3.0)
  }

  /** The acceleration g of a by b along coordinate p, times the cube of their distance. */
  ghost predicate Attracts(g: real, pos: seq<NdArray>, mass: NdArray, p: NdArray, a: int, b: int)
  {
    forall d | Apart(pos, a, b, d) :: g * (d * d * d) == 20000.0 * (Entry(mass, b) * (Entry(p, b) - Entry(p, a)))
  }

  /** The velocity of a changes by the sum of the accelerations by all n particles. */
  ghost predicate PulledBy(g: int -> real, pos: seq<NdArray>, mass: NdArray, p: NdArray, n: nat, a: int,
                           v: real, v': real, dt: real)
  {
    v' - v == dt * Sum(n, g) && forall b | 0 <= b < n :: Attracts(g(b), pos, mass, p, a, b)
  }

  ghost predicate SuperposedAt(pos: seq<NdArray>, mass: NdArray, p: NdArray, n: nat, a: int,
                               v: real, v': real, dt: real)
  {
    exists g: int -> real :: PulledBy(g, pos, mass, p, n, a, v, v', dt)
  }

  /** Superposition, for every particle, along coordinate p. */
  ghost predicate Superposed(pos: seq<NdArray>, mass: NdArray, p: NdArray, n: nat, v: NdArray, v': NdArray, dt: real)
  {
    forall a | 0 <= a < n :: SuperposedAt(pos, mass, p, n, a, Entry(v, a), Entry(v', a), dt)
  }

  /** The law for two particles alone. */
  ghost predicate TwoBodies(pos: seq<NdArray>, mass: NdArray, p: NdArray, v: NdArray, v': NdArray, dt: real)
  {
    forall a, b, d | 0 <= a < 2 && b == 1 - a && Apart(pos, a, b, d) ::
      (Entry(v', a) - Entry(v, a)) * (d * d * d) == 20000.0 * dt * (Entry(mass, b) * (Entry(p, b) - Entry(p, a)))
  }

  // ----- Distances

  lemma {:induction false} GapsAddUp(pos: seq<NdArray>, d: nat, a: int, b: int)
    requires d <= |pos|
    ensures Distance2(pos, d, b, a) == Sum(d, SquaredGap(pos, a, b))
  {
    if d > 0 {
      GapsAddUp(pos, d - 1, a, b);
    }
  }

  lemma SeparationNonneg(pos: seq<NdArray>, a: int, b: int)
    ensures Separation2(pos, a, b) >= 0.0
  {
    forall k | 0 <= k < |pos| ensures SquaredGap(pos, a, b)(k) >= 0.0 {
      var x := Entry(pos[k], b) - Entry(pos[k], a);
      TimesNonneg(x, x);
      assert SquaredGap(pos, a, b)(k) == Times(x, x);
    }
    SumNonneg(|pos|, SquaredGap(pos, a, b));
  }

  /** There is exactly one such distance: the weight of a pair is its cube. */
  lemma WeightIsCube(root: real -> real, pos: seq<NdArray>, a: int, b: int) returns (d: real)
    requires IsRoot(root)
    ensures Apart(pos, a, b, d) && Weight(root, pos, b, a) == d * d * d
    ensures forall d' | Apart(pos, a, b, d') :: d' == d
  {
    hide Sum;
    GapsAddUp(pos, |pos|, a, b);
    SeparationNonneg(pos, a, b);
    var s := Separation2(pos, a, b);
    var r := root(s);
    assert r >= 0.0 && r * r == s;
    SquareOrder(r, 3.0);
    d := AtLeast(r, 3.0);
    Cube(d);
    forall d' | Apart(pos, a, b, d') ensures d' == d {
      if s >= 9.0 {
        SquareUnique(d', d);
      }
    }
  }

  lemma Cube(d: real)
    ensures d * (d * d) == d * d * d
  {
  }

  /** The cube of the distance of two particles. */
  ghost predicate CubedDistance(w: real, pos: seq<NdArray>, a: int, b: int)
  {
    exists d :: Apart(pos, a, b, d) && w == d * d * d
  }

  ghost predicate HoldsCubes(dist: NdArray, pos: seq<NdArray>, n: nat)
  {
    forall a, b | 0 <= a < n && 0 <= b < n :: CubedDistance(dist.at(a, b, 0, 0), pos, b, a)
  }

  lemma WeightsAreCubes(dist: NdArray, root: real -> real, pos: seq<NdArray>, n: nat)
    requires IsRoot(root)
    requires forall a, b | 0 <= a < n && 0 <= b < n :: dist.at(a, b, 0, 0) == Weight(root, pos, a, b)
    ensures HoldsCubes(dist, pos, n)
  {
    hide Weight, Apart, IsRoot;
    forall a, b | 0 <= a < n && 0 <= b < n
      ensures CubedDistance(dist.at(a, b, 0, 0), pos, b, a)
    {
      var d := WeightIsCube(root, pos, b, a);
      assert Apart(pos, b, a, d);
    }
  }

  // ----- Pulls

  /** The acceleration by one particle. */
  ghost function Acceleration(root: real -> real, pos: seq<NdArray>, mass: NdArray, p: NdArray, a: int): int -> real
  {
    b => 20000.0 * Pull(root, pos, mass, p, a)(b)
  }

  lemma PullTimesCube(x: real, m: real, w: real)
    requires w != 0.0
    ensures 20000.0 * (Quotient(x, w) * m) * w == 20000.0 * (m * x)
  {
    var q := Quotient(x, w);
    QuotientTimes(x, w);
    assert 20000.0 * (q * m) * w == 20000.0 * (m * (w * q));
  }

  lemma PullAttracts(root: real -> real, pos: seq<NdArray>, mass: NdArray, p: NdArray, a: int, b: int)
    requires IsRoot(root)
    ensures Attracts(Acceleration(root, pos, mass, p, a)(b), pos, mass, p, a, b)
  {
    hide Weight, Apart, Quotient;
    var d := WeightIsCube(root, pos, a, b);
    WeightPositive(root, pos, b, a);
    var g, w := Acceleration(root, pos, mass, p, a)(b), Weight(root, pos, b, a);
    PullTimesCube(Entry(p, b) - Entry(p, a), Entry(mass, b), w);
    assert Pull(root, pos, mass, p, a)(b) == Quotient(Entry(p, b) - Entry(p, a), w) * Entry(mass, b);
    assert g == 20000.0 * (Quotient(Entry(p, b) - Entry(p, a), w) * Entry(mass, b));
    assert g * (d * d * d) == 20000.0 * (Entry(mass, b) * (Entry(p, b) - Entry(p, a)));
  }

  lemma ForceIsSum(root: real -> real, pos: seq<NdArray>, mass: NdArray, p: NdArray, n: nat, a: int)
    ensures Force(root, pos, mass, p, n, a) == Sum(n, Acceleration(root, pos, mass, p, a))
  {
    hide Sum;
    SumScale(n, 20000.0, Pull(root, pos, mass, p, a), Acceleration(root, pos, mass, p, a));
  }

  /** The accelerations of a step are superposed attractions. */
  lemma StepSuperposes(root: real -> real, pos: seq<NdArray>, mass: NdArray, p: NdArray, n: nat,
                       v: NdArray, v': NdArray, dt: real)
    requires IsRoot(root) && Accelerated(root, pos, mass, p, n, v, v', dt)
    ensures Superposed(pos, mass, p, n, v, v', dt)
  {
    hide Sum, Force, Acceleration, Attracts;
    forall a | 0 <= a < n ensures SuperposedAt(pos, mass, p, n, a, Entry(v, a), Entry(v', a), dt) {
      var g := Acceleration(root, pos, mass, p, a);
      ForceIsSum(root, pos, mass, p, n, a);
      forall b | 0 <= b < n ensures Attracts(g(b), pos, mass, p, a, b) {
        PullAttracts(root, pos, mass, p, a, b);
      }
      assert PulledBy(g, pos, mass, p, n, a, Entry(v, a), Entry(v', a), dt);
    }
  }

  /** A particle does not accelerate itself. */
  lemma NoSelfPull(g: real, pos: seq<NdArray>, mass: NdArray, p: NdArray, a: int)
    requires Attracts(g, pos, mass, p, a, a)
    ensures g == 0.0
  {
    forall k | 0 <= k < |pos| ensures SquaredGap(pos, a, a)(k) == 0.0 {
    }
    SumZero(|pos|, SquaredGap(pos, a, a));
    assert Apart(pos, a, a, 3.0);
    assert g * (3.0 * 3.0 * 3.0) == 27.0 * g;
  }

  lemma TwoSuperposedAt(pos: seq<NdArray>, mass: NdArray, p: NdArray, a: int, b: int, v: real, v': real, dt: real,
                        d: real, c: real, x: real)
    requires SuperposedAt(pos, mass, p, 2, a, v, v', dt) && 0 <= a < 2 && b == 1 - a && Apart(pos, a, b, d)
    requires c == d * d * d && x == Entry(mass, b) * (Entry(p, b) - Entry(p, a))
    ensures (v' - v) * c == 20000.0 * dt * x
  {
    hide Apart, Sum, Attracts;
    var g: int -> real :| PulledBy(g, pos, mass, p, 2, a, v, v', dt);
    assert Attracts(g(a), pos, mass, p, a, a) && Attracts(g(b), pos, mass, p, a, b);
    NoSelfPull(g(a), pos, mass, p, a);
    SumOfTwo(g);
    AttractsAt(g(b), pos, mass, p, a, b, d, c, x);
    TimesCube(dt, g(b), c, x);
  }

  lemma AttractsAt(g: real, pos: seq<NdArray>, mass: NdArray, p: NdArray, a: int, b: int, d: real, c: real, x: real)
    requires Attracts(g, pos, mass, p, a, b) && Apart(pos, a, b, d)
    requires c == d * d * d && x == Entry(mass, b) * (Entry(p, b) - Entry(p, a))
    ensures g * c == 20000.0 * x
  {
    hide Apart;
  }

  /** Superposition of two is the law for two bodies. */
  lemma TwoSuperposed(pos: seq<NdArray>, mass: NdArray, p: NdArray, v: NdArray, v': NdArray, dt: real)
    requires Superposed(pos, mass, p, 2, v, v', dt)
    ensures TwoBodies(pos, mass, p, v, v', dt)
  {
    hide Apart, Sum, SuperposedAt;
    forall a, b, d | 0 <= a < 2 && b == 1 - a && Apart(pos, a, b, d)
      ensures (Entry(v', a) - Entry(v, a)) * (d * d * d)
           == 20000.0 * dt * (Entry(mass, b) * (Entry(p, b) - Entry(p, a)))
    {
      TwoSuperposedAt(pos, mass, p, a, b, Entry(v, a), Entry(v', a), dt, d, d * d * d,
                      Entry(mass, b) * (Entry(p, b) - Entry(p, a)));
    }
  }

  lemma SumOfTwo(g: int -> real)
    ensures Sum(2, g) == g(0) + g(1)
  {
  }

  lemma TimesCube(dt: real, g: real, c: real, m: real)
    requires g * c == 20000.0 * m
    ensures dt * g * c == 20000.0 * dt * m
  {
    assert dt * g * c == dt * (g * c);
  }
}
