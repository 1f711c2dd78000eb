/** The nine directions of the lattice with their weights, and the moments of the equilibrium
    distribution they give. */
module LatticeTables {
  import opened Sums

  const EX := [1.0, 1.0, 1.0, 0.0, 0.0, 0.0, -1.0, -1.0, -1.0]
  const EY := [1.0, 0.0, -1.0, 1.0, 0.0, -1.0, 1.0, 0.0, -1.0]
  const WT := [1.0 / 36.0, 4.0 / 36.0, 1.0 / 36.0, 4.0 / 36.0, 16.0 / 36.0, 4.0 / 36.0,
               1.0 / 36.0, 4.0 / 36.0, 1.0 / 36.0]
  const OPPOSITE := [8, 7, 6, 5, 4, 3, 2, 1, 0]

  function Ex(i: int): real
  {
    if 0 <= i < 9 then EX[i] else 0.0
  }

  function Ey(i: int): real
  {
    if 0 <= i < 9 then EY[i] else 0.0
  }

  function Wt(i: int): real
  {
    if 0 <= i < 9 then WT[i] else 0.0
  }

  /** The equilibrium distribution of a cell of density rho and velocity (u, v) along direction i. */
  function Equilibrium(rho: real, u: real, v: real, i: int): real
  {
    var edotu := Ex(i) * u + Ey(i) * v;
    var udotu := u * u + v * v;
    rho * Wt(i) * (edotu * edotu * 4.5 - udotu * 1.5 + edotu * 3.0 + 1.0)
  }

  function EquilibriumOf(rho: real, u: real, v: real): int -> real
  {
    i => Equilibrium(rho, u, v, i)
  }

  function Along(e: int -> real, f: int -> real): int -> real
  {
    i => f(i) * e(i)
  }

  lemma Sum9(f: int -> real)
    ensures Sum(9, f) == f(0) + f(1) + f(2) + f(3) + f(4) + f(5) + f(6) + f(7) + f(8)
  {
    assert Sum(3, f) == f(0) + f(1) + f(2);
    assert Sum(6, f) == Sum(3, f) + f(3) + f(4) + f(5);
  }

  /** The opposite of a direction has opposite offsets and the same weight. */
  lemma Opposites(i: nat)
    requires i < 9
    ensures 0 <= OPPOSITE[i] < 9 && OPPOSITE[OPPOSITE[i]] == i
    ensures Ex(OPPOSITE[i]) == -Ex(i) && Ey(OPPOSITE[i]) == -Ey(i) && Wt(OPPOSITE[i]) == Wt(i)
  {
  }

  /** One term of the equilibrium as a polynomial in the velocity. */
  lemma Expand(rho: real, u: real, v: real, a: real, b: real, w: real)
    ensures rho * w * ((a * u + b * v) * (a * u + b * v) * 4.5 - (u * u + v * v) * 1.5 + (a * u + b * v) * 3.0 + 1.0)
         == w * (rho * (1.0 - 1.5 * (u * u) - 1.5 * (v * v)) + 3.0 * a * (rho * u) + 3.0 * b * (rho * v)
                 + 4.5 * (a * a) * (rho * (u * u)) + 9.0 * (a * b) * (rho * (u * v)) + 4.5 * (b * b) * (rho * (v * v)))
  {
  }

  /** The six products that the equilibrium of a cell is linear in. */
  datatype Products = Products(flat: real, x: real, y: real, xx: real, xy: real, yy: real)

  function ProductsOf(rho: real, u: real, v: real): Products
  {
    Products(rho * (1.0 - 1.5 * (u * u) - 1.5 * (v * v)), rho * u, rho * v, rho * (u * u), rho * (u * v), rho * (v * v))
  }

  function Combined(p: Products, a: real, b: real, w: real): real
  {
    w * (p.flat + 3.0 * a * p.x + 3.0 * b * p.y + 4.5 * (a * a) * p.xx + 9.0 * (a * b) * p.xy + 4.5 * (b * b) * p.yy)
  }

  lemma TermOf(rho: real, u: real, v: real, i: nat)
    requires i < 9
    ensures EquilibriumOf(rho, u, v)(i) == Combined(ProductsOf(rho, u, v), EX[i], EY[i], WT[i])
  {
    Expand(rho, u, v, EX[i], EY[i], WT[i]);
  }

  /** The terms of the equilibrium summed with weights g are summed as combinations of the products. */
  lemma SumTerms(rho: real, u: real, v: real, p: Products, f: int -> real)
    requires p == ProductsOf(rho, u, v)
    requires forall i | 0 <= i < 9 :: f(i) == EquilibriumOf(rho, u, v)(i)
    ensures f(0) == Combined(p, 1.0, 1.0, 1.0 / 36.0) && f(1) == Combined(p, 1.0, 0.0, 4.0 / 36.0)
    ensures f(2) == Combined(p, 1.0, -1.0, 1.0 / 36.0) && f(3) == Combined(p, 0.0, 1.0, 4.0 / 36.0)
    ensures f(4) == Combined(p, 0.0, 0.0, 16.0 / 36.0) && f(5) == Combined(p, 0.0, -1.0, 4.0 / 36.0)
    ensures f(6) == Combined(p, -1.0, 1.0, 1.0 / 36.0) && f(7) == Combined(p, -1.0, 0.0, 4.0 / 36.0)
    ensures f(8) == Combined(p, -1.0, -1.0, 1.0 / 36.0)
  {
    forall i | 0 <= i < 9 ensures f(i) == Combined(p, EX[i], EY[i], WT[i]) {
      TermOf(rho, u, v, i);
    }
    assert f(0) == Combined(p, EX[0], EY[0], WT[0]);
    assert f(1) == Combined(p, EX[1], EY[1], WT[1]);
    assert f(2) == Combined(p, EX[2], EY[2], WT[2]);
    assert f(3) == Combined(p, EX[3], EY[3], WT[3]);
    assert f(4) == Combined(p, EX[4], EY[4], WT[4]);
    assert f(5) == Combined(p, EX[5], EY[5], WT[5]);
    assert f(6) == Combined(p, EX[6], EY[6], WT[6]);
    assert f(7) == Combined(p, EX[7], EY[7], WT[7]);
    assert f(8) == Combined(p, EX[8], EY[8], WT[8]);
  }

  lemma Cancellation(rho: real, u: real, v: real, p: Products)
    requires p == ProductsOf(rho, u, v)
    ensures p.flat + 1.5 * p.xx + 1.5 * p.yy == rho
  {
  }

  /** The equilibrium has the mass of its cell ... */
  lemma EquilibriumMass(rho: real, u: real, v: real)
    ensures Sum(9, EquilibriumOf(rho, u, v)) == rho
  {
    var f, p := EquilibriumOf(rho, u, v), ProductsOf(rho, u, v);
    Sum9(f);
    SumTerms(rho, u, v, p, f);
    Cancellation(rho, u, v, p);
  }

  lemma AlongX(f: int -> real)
    ensures Sum(9, Along(Ex, f)) == f(0) + f(1) + f(2) - f(6) - f(7) - f(8)
  {
    Sum9(Along(Ex, f));
  }

  lemma AlongY(f: int -> real)
    ensures Sum(9, Along(Ey, f)) == f(0) - f(2) + f(3) - f(5) + f(6) - f(8)
  {
    Sum9(Along(Ey, f));
  }

  lemma PairX(p: Products, b: real, w: real)
    ensures Combined(p, 1.0, b, w) - Combined(p, -1.0, b, w) == w * (6.0 * p.x + 18.0 * b * p.xy)
  {
  }

  lemma PairY(p: Products, a: real, w: real)
    ensures Combined(p, a, 1.0, w) - Combined(p, a, -1.0, w) == w * (6.0 * p.y + 18.0 * a * p.xy)
  {
  }

  /** ... and its momentum, in both directions. */
  lemma EquilibriumMomentum(rho: real, u: real, v: real)
    ensures Sum(9, Along(Ex, EquilibriumOf(rho, u, v))) == rho * u
    ensures Sum(9, Along(Ey, EquilibriumOf(rho, u, v))) == rho * v
  {
    var p := ProductsOf(rho, u, v);
    MomentumOf(p, EquilibriumOf(rho, u, v), rho, u, v);
    assert p.x == rho * u && p.y == rho * v;
  }

  lemma MomentumOf(p: Products, f: int -> real, rho: real, u: real, v: real)
    requires p == ProductsOf(rho, u, v) && f == EquilibriumOf(rho, u, v)
    ensures Sum(9, Along(Ex, f)) == p.x
    ensures Sum(9, Along(Ey, f)) == p.y
  {
    SumTerms(rho, u, v, p, f);
    AlongX(f);
    AlongY(f);
    PairX(p, 1.0, 1.0 / 36.0);
    PairX(p, 0.0, 4.0 / 36.0);
    PairX(p, -1.0, 1.0 / 36.0);
    PairY(p, 1.0, 1.0 / 36.0);
    PairY(p, 0.0, 4.0 / 36.0);
    PairY(p, -1.0, 1.0 / 36.0);
  }

  // ----- All nine moments

  /** The product of powers of the two offsets of a direction, up to their squares. */
  function Offsets(m: nat, n: nat): int -> real
  {
    i => Power(Ex(i), m) * Power(Ey(i), n)
  }

  function Power(x: real, m: nat): real
  {
    if m == 0 then 1.0 else if m == 1 then x else x * x
  }

  /** The moment of f of order m along the first dimension and n along the second. */
  function Moment(m: nat, n: nat, f: int -> real): real
  {
    Sum(9, Along(Offsets(m, n), f))
  }

  lemma WeightedSum(e: int -> real, f: int -> real, c: seq<real>)
    requires |c| == 9 && forall i | 0 <= i < 9 :: e(i) == c[i] && (c[i] == 1.0 || c[i] == 0.0 || c[i] == -1.0)
    ensures Sum(9, Along(e, f)) == Signed(f, c, 0) + Signed(f, c, 1) + Signed(f, c, 2) + Signed(f, c, 3)
      + Signed(f, c, 4) + Signed(f, c, 5) + Signed(f, c, 6) + Signed(f, c, 7) + Signed(f, c, 8)
  {
    hide Sum, Along, Signed;
    Sum9(Along(e, f));
    forall i: nat | i < 9 ensures Along(e, f)(i) == Signed(f, c, i) {
      SignedTerm(e, f, c, i);
    }
  }

  lemma SignedTerm(e: int -> real, f: int -> real, c: seq<real>, i: nat)
    requires i < |c| && e(i) == c[i] && (c[i] == 1.0 || c[i] == 0.0 || c[i] == -1.0)
    ensures Along(e, f)(i) == Signed(f, c, i)
  {
  }

  function Signed(f: int -> real, c: seq<real>, i: nat): real
    requires i < |c|
  {
    if c[i] == 1.0 then f(i) else if c[i] == -1.0 then -f(i) else 0.0
  }

  lemma FirstMoments(f: int -> real)
    ensures Moment(0, 0, f) == f(0) + f(1) + f(2) + f(3) + f(4) + f(5) + f(6) + f(7) + f(8)
    ensures Moment(1, 0, f) == f(0) + f(1) + f(2) - f(6) - f(7) - f(8)
    ensures Moment(0, 1, f) == f(0) - f(2) + f(3) - f(5) + f(6) - f(8)
  {
    hide Sum, Along;
    WeightedSum(Offsets(0, 0), f, [1.0, 1.0, 1.0, 1.0, 1.0, 1.0, 1.0, 1.0, 1.0]);
    WeightedSum(Offsets(1, 0), f, [1.0, 1.0, 1.0, 0.0, 0.0, 0.0, -1.0, -1.0, -1.0]);
    WeightedSum(Offsets(0, 1), f, [1.0, 0.0, -1.0, 1.0, 0.0, -1.0, 1.0, 0.0, -1.0]);
  }

  lemma SecondMoments(f: int -> real)
    ensures Moment(2, 0, f) == f(0) + f(1) + f(2) + f(6) + f(7) + f(8)
    ensures Moment(1, 1, f) == f(0) - f(2) - f(6) + f(8)
    ensures Moment(0, 2, f) == f(0) + f(2) + f(3) + f(5) + f(6) + f(8)
  {
    hide Sum, Along;
    WeightedSum(Offsets(2, 0), f, [1.0, 1.0, 1.0, 0.0, 0.0, 0.0, 1.0, 1.0, 1.0]);
    WeightedSum(Offsets(1, 1), f, [1.0, 0.0, -1.0, 0.0, 0.0, 0.0, -1.0, 0.0, 1.0]);
    WeightedSum(Offsets(0, 2), f, [1.0, 0.0, 1.0, 1.0, 0.0, 1.0, 1.0, 0.0, 1.0]);
  }

  lemma HigherMoments(f: int -> real)
    ensures Moment(2, 1, f) == f(0) - f(2) + f(6) - f(8)
    ensures Moment(1, 2, f) == f(0) + f(2) - f(6) - f(8)
    ensures Moment(2, 2, f) == f(0) + f(2) + f(6) + f(8)
  {
    hide Sum, Along;
    WeightedSum(Offsets(2, 1), f, [1.0, 0.0, -1.0, 0.0, 0.0, 0.0, 1.0, 0.0, -1.0]);
    WeightedSum(Offsets(1, 2), f, [1.0, 0.0, 1.0, 0.0, 0.0, 0.0, -1.0, 0.0, -1.0]);
    WeightedSum(Offsets(2, 2), f, [1.0, 0.0, 1.0, 0.0, 0.0, 0.0, 1.0, 0.0, 1.0]);
  }

  /** The moments of the equilibrium up to second order in each dimension: besides mass and momentum the momentum
      flux with its pressure of a third of the density, and the higher ones of an isotropic gas. */
  lemma EquilibriumFlux(rho: real, u: real, v: real)
    ensures var f := EquilibriumOf(rho, u, v);
      && Moment(0, 0, f) == rho && Moment(1, 0, f) == rho * u && Moment(0, 1, f) == rho * v
      && Moment(2, 0, f) == rho / 3.0 + rho * (u * u)
      && Moment(1, 1, f) == rho * (u * v)
      && Moment(0, 2, f) == rho / 3.0 + rho * (v * v)
      && Moment(2, 1, f) == rho * v / 3.0 && Moment(1, 2, f) == rho * u / 3.0
      && Moment(2, 2, f) == rho / 9.0 + (rho * (u * u) + rho * (v * v)) / 3.0
  {
    hide Moment, Combined;
    var f, p := EquilibriumOf(rho, u, v), ProductsOf(rho, u, v);
    FirstMoments(f);
    SecondMoments(f);
    HigherMoments(f);
    SumTerms(rho, u, v, p, f);
    Cancellation(rho, u, v, p);
    FluxOf(p, rho);
  }

  lemma FluxOf(p: Products, rho: real)
    requires p.flat + 1.5 * p.xx + 1.5 * p.yy == rho
    ensures var c0, c1, c2, c3, c4, c5, c6, c7, c8 :=
        Combined(p, 1.0, 1.0, 1.0 / 36.0), Combined(p, 1.0, 0.0, 4.0 / 36.0), Combined(p, 1.0, -1.0, 1.0 / 36.0),
        Combined(p, 0.0, 1.0, 4.0 / 36.0), Combined(p, 0.0, 0.0, 16.0 / 36.0), Combined(p, 0.0, -1.0, 4.0 / 36.0),
        Combined(p, -1.0, 1.0, 1.0 / 36.0), Combined(p, -1.0, 0.0, 4.0 / 36.0), Combined(p, -1.0, -1.0, 1.0 / 36.0);
      && c0 + c1 + c2 + c3 + c4 + c5 + c6 + c7 + c8 == rho
      && c0 + c1 + c2 - c6 - c7 - c8 == p.x && c0 - c2 + c3 - c5 + c6 - c8 == p.y
      && c0 + c1 + c2 + c6 + c7 + c8 == rho / 3.0 + p.xx
      && c0 - c2 - c6 + c8 == p.xy
      && c0 + c2 + c3 + c5 + c6 + c8 == rho / 3.0 + p.yy
      && c0 - c2 + c6 - c8 == p.y / 3.0 && c0 + c2 - c6 - c8 == p.x / 3.0
      && c0 + c2 + c6 + c8 == rho / 9.0 + (p.xx + p.yy) / 3.0
  {
  }

  /** The nine moments determine the nine populations. */
  lemma MomentsDetermine(f: int -> real, g: int -> real, i: nat)
    requires i < 9 && forall m: nat, n: nat | m <= 2 && n <= 2 :: Moment(m, n, f) == Moment(m, n, g)
    ensures f(i) == g(i)
  {
    hide Moment;
    FirstMoments(f);
    SecondMoments(f);
    HigherMoments(f);
    FirstMoments(g);
    SecondMoments(g);
    HigherMoments(g);
    SameMoments(f, g);
  }

  lemma SameMoments(f: int -> real, g: int -> real)
    requires forall m: nat, n: nat | m <= 2 && n <= 2 :: Moment(m, n, f) == Moment(m, n, g)
    ensures Moment(0, 0, f) == Moment(0, 0, g) && Moment(1, 0, f) == Moment(1, 0, g)
    ensures Moment(0, 1, f) == Moment(0, 1, g) && Moment(2, 0, f) == Moment(2, 0, g)
    ensures Moment(1, 1, f) == Moment(1, 1, g) && Moment(0, 2, f) == Moment(0, 2, g)
    ensures Moment(2, 1, f) == Moment(2, 1, g) && Moment(1, 2, f) == Moment(1, 2, g)
    ensures Moment(2, 2, f) == Moment(2, 2, g)
  {
    hide Moment;
  }
}
