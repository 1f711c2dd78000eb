/** What relaxation and streaming conserve: relaxation the mass and momentum of every cell, streaming
    the total of every population, and both together the mass and momentum of the grid. */
module LatticeConservation {
  import opened Reals
  import opened Sums
  import opened NdArrays
  import opened LatticeTables
  import opened LatticeArrays
  import opened LatticeBoltzmann

  function One(i: int): real
  {
    1.0
  }

  /** The total of f weighted by e over the directions, in one cell ... */
  ghost function CellMoment(f: NdArray, e: int -> real, x: int, y: int): real
  {
    Sum(9, Along(e, Cell(f, x, y)))
  }

  ghost function CellMomentOf(f: NdArray, e: int -> real): (int, int) -> real
  {
    (x, y) => CellMoment(f, e, x, y)
  }

  /** ... and over the whole grid. */
  ghost function GridMoment(f: NdArray, e: int -> real): real
  {
    Sum2(f.dims.d0, f.dims.d1, CellMomentOf(f, e))
  }

  // ----- Relaxation

  function Rate(t: real): real
  {
    if t == 0.0 then 0.0 else 1.0 / t
  }

  lemma QuotientIsRate(a: real, t: real)
    ensures Quotient(a, t) == Rate(t) * a
  {
  }

  /** One relaxed population as a mean of itself and its equilibrium. */
  lemma RelaxedTerm(f: real, feq: real, e: real, t: real, c: real)
    requires c == Rate(t)
    ensures (f - Quotient(f - feq, t)) * e == (1.0 - c) * (f * e) + c * (feq * e)
  {
    QuotientIsRate(f - feq, t);
    assert (f - c * (f - feq)) * e == f * e - c * (f * e) + c * (feq * e);
  }

  lemma Mean(s: real, c: real)
    ensures (1.0 - c) * s + c * s == s
  {
  }

  /** Relaxing toward an equilibrium with the same moment leaves the moment unchanged. */
  lemma RelaxationKeepsCell(f: NdArray, feq: NdArray, time: (int, int) -> real, e: int -> real, x: int, y: int)
    requires CellMoment(f, e, x, y) == CellMoment(feq, e, x, y)
    ensures CellMoment(Relaxed(f, feq, time), e, x, y) == CellMoment(f, e, x, y)
  {
    hide Quotient, Rate, Sum;
    var cell, eq, g := Cell(f, x, y), Cell(feq, x, y), Cell(Relaxed(f, feq, time), x, y);
    var c := Rate(time(x, y));
    forall i | 0 <= i < 9 ensures Along(e, g)(i) == (1.0 - c) * Along(e, cell)(i) + c * Along(e, eq)(i) {
      RelaxedTerm(cell(i), eq(i), e(i), time(x, y), c);
    }
    SumLinear(9, 1.0 - c, Along(e, cell), c, Along(e, eq), Along(e, g));
    Mean(Sum(9, Along(e, cell)), c);
  }

  lemma SumOne(f: int -> real)
    ensures Sum(9, Along(One, f)) == Sum(9, f)
  {
    SumExt(9, Along(One, f), f);
  }

  /** Given the moments that hold at the start of a frame, relaxation preserves the mass and the momentum
      of every cell. */
  lemma RelaxationKeepsMoments(f: NdArray, rho: NdArray, ux: NdArray, uy: NdArray, time: (int, int) -> real,
                               x: int, y: int)
    requires CellMoments(f, rho, ux, uy, x, y)
    ensures var g := Relaxed(f, EquilibriumGrid(rho, ux, uy, f.dims), time);
      && CellMoment(g, One, x, y) == CellMoment(f, One, x, y)
      && CellMoment(g, Ex, x, y) == CellMoment(f, Ex, x, y)
      && CellMoment(g, Ey, x, y) == CellMoment(f, Ey, x, y)
  {
    hide Equilibrium;
    var feq := EquilibriumGrid(rho, ux, uy, f.dims);
    GridCell(rho, ux, uy, f.dims, x, y);
    SumOne(Cell(f, x, y));
    SumOne(Cell(feq, x, y));
    RelaxationKeepsCell(f, feq, time, One, x, y);
    RelaxationKeepsCell(f, feq, time, Ex, x, y);
    RelaxationKeepsCell(f, feq, time, Ey, x, y);
  }

  // ----- Streaming

  ghost predicate RotatedBy(n: nat, s: int, f: int -> real, g: int -> real)
  {
    forall i | 0 <= i < n :: g(i) == f(Mod(i - s, n))
  }

  lemma {:induction false} SumShiftedDown(n: nat, f: int -> real, g: int -> real)
    requires forall i | 0 < i <= n :: g(i) == f(i - 1)
    ensures Sum(n + 1, g) == g(0) + Sum(n, f)
  {
    if n > 0 {
      SumShiftedDown(n - 1, f, g);
    }
  }

  lemma SumRotatedUp(n: nat, f: int -> real, g: int -> real)
    requires n > 0 && RotatedBy(n, 1, f, g)
    ensures Sum(n, g) == Sum(n, f)
  {
    hide Sum;
    forall i | 0 < i <= n - 1 ensures g(i) == f(i - 1) {
      assert Mod(i - 1, n) == i - 1;
    }
    SumShiftedDown(n - 1, f, g);
    DivModUnique(-1, n, -1, n - 1);
    assert g(0) == f(n - 1);
    SumLast(n, f);
  }

  lemma SumLast(n: nat, f: int -> real)
    requires n > 0
    ensures Sum(n, f) == Sum(n - 1, f) + f(n - 1)
  {
  }

  lemma ModUpDown(n: nat, i: int)
    requires 0 <= i < n
    ensures 0 <= Mod(i - 1, n) < n && Mod(Mod(i - 1, n) + 1, n) == i
  {
    if i == 0 {
      DivModUnique(-1, n, -1, n - 1);
      DivModUnique(n, n, 1, 0);
    } else {
      DivModUnique(i - 1, n, 0, i - 1);
      DivModUnique(i, n, 0, i);
    }
  }

  lemma InverseRotation(n: nat, f: int -> real, g: int -> real)
    requires RotatedBy(n, -1, f, g)
    ensures RotatedBy(n, 1, g, f)
  {
    hide Mod;
    forall i | 0 <= i < n ensures f(i) == g(Mod(i - 1, n)) {
      ModUpDown(n, i);
      assert g(Mod(i - 1, n)) == f(Mod(Mod(i - 1, n) - -1, n));
    }
  }

  /** A rotation by one place, in either direction, keeps the sum. */
  lemma SumRotated(n: nat, s: int, f: int -> real, g: int -> real)
    requires -1 <= s <= 1 && RotatedBy(n, s, f, g)
    ensures Sum(n, g) == Sum(n, f)
  {
    hide Sum;
    if n == 0 || s == 0 {
      SumExt(n, g, f);
    } else if s == 1 {
      SumRotatedUp(n, f, g);
    } else {
      InverseRotation(n, f, g);
      SumRotatedUp(n, g, f);
    }
  }

  /** Population i over the grid. */
  ghost function PageOf(f: NdArray, i: int): (int, int) -> real
  {
    (x, y) => f.at(x, y, i, 0)
  }

  ghost function PageTotal(f: NdArray, i: int): real
  {
    Sum2(f.dims.d0, f.dims.d1, PageOf(f, i))
  }

  /** Streaming permutes each population over the grid. */
  lemma StreamingKeepsPage(f: NdArray, i: nat)
    requires i < 9
    ensures PageTotal(Streamed(f), i) == PageTotal(f, i)
  {
    var rows, cols := f.dims.d0, f.dims.d1;
    var p, q := PageOf(f, i), PageOf(Streamed(f), i);
    forall x | 0 <= x < rows ensures Inner(cols, q)(x) == Inner(cols, p)(Mod(x - ShiftX(i), rows)) {
      var x' := Mod(x - ShiftX(i), rows);
      assert RotatedBy(cols, ShiftY(i), Row(p, x'), Row(q, x));
      SumRotated(cols, ShiftY(i), Row(p, x'), Row(q, x));
    }
    assert RotatedBy(rows, ShiftX(i), Inner(cols, p), Inner(cols, q));
    SumRotated(rows, ShiftX(i), Inner(cols, p), Inner(cols, q));
  }

  // ----- Totals by cells and totals by populations

  /** The weighted populations of the cells of row x, by column and direction. */
  ghost function RowTerms(f: NdArray, e: int -> real, x: int): (int, int) -> real
  {
    (y, i) => f.at(x, y, i, 0) * e(i)
  }

  /** The total of population i over row x, weighted. */
  ghost function RowTotals(f: NdArray, e: int -> real): (int, int) -> real
  {
    (x, i) => Sum(f.dims.d1, Row(Flip(RowTerms(f, e, x)), i))
  }

  ghost function WeightedPages(f: NdArray, e: int -> real): int -> real
  {
    i => e(i) * PageTotal(f, i)
  }

  lemma RowByDirections(f: NdArray, e: int -> real, x: int)
    ensures Inner(f.dims.d1, CellMomentOf(f, e))(x) == Inner(9, RowTotals(f, e))(x)
  {
    hide Sum;
    var cols := f.dims.d1;
    var terms := RowTerms(f, e, x);
    forall y | 0 <= y < cols ensures Row(CellMomentOf(f, e), x)(y) == Inner(9, terms)(y) {
      SumExt(9, Along(e, Cell(f, x, y)), Row(terms, y));
    }
    SumExt(cols, Row(CellMomentOf(f, e), x), Inner(9, terms));
    SumSwap(cols, 9, terms);
    SumExt(9, Inner(cols, Flip(terms)), Row(RowTotals(f, e), x));
  }

  lemma DirectionByRows(f: NdArray, e: int -> real, i: int)
    ensures Inner(f.dims.d0, Flip(RowTotals(f, e)))(i) == WeightedPages(f, e)(i)
  {
    hide Sum;
    var rows, cols := f.dims.d0, f.dims.d1;
    var byRow := Row(Flip(RowTotals(f, e)), i);
    var page := Inner(cols, PageOf(f, i));
    forall x | 0 <= x < rows ensures byRow(x) == e(i) * page(x) {
      SumScale(cols, e(i), Row(PageOf(f, i), x), Row(Flip(RowTerms(f, e, x)), i));
    }
    SumScale(rows, e(i), page, byRow);
  }

  /** Summing a moment cell by cell is summing it population by population. */
  lemma GridMomentByPages(f: NdArray, e: int -> real)
    ensures GridMoment(f, e) == Sum(9, WeightedPages(f, e))
  {
    hide Sum;
    var rows := f.dims.d0;
    forall x | 0 <= x < rows
      ensures Inner(f.dims.d1, CellMomentOf(f, e))(x) == Inner(9, RowTotals(f, e))(x)
    {
      RowByDirections(f, e, x);
    }
    SumExt(rows, Inner(f.dims.d1, CellMomentOf(f, e)), Inner(9, RowTotals(f, e)));
    SumSwap(rows, 9, RowTotals(f, e));
    forall i | 0 <= i < 9 ensures Inner(rows, Flip(RowTotals(f, e)))(i) == WeightedPages(f, e)(i) {
      DirectionByRows(f, e, i);
    }
    SumExt(9, Inner(rows, Flip(RowTotals(f, e))), WeightedPages(f, e));
  }

  /** Streaming keeps every moment of the grid. */
  lemma StreamingKeepsGrid(f: NdArray, e: int -> real)
    ensures GridMoment(Streamed(f), e) == GridMoment(f, e)
  {
    hide Sum;
    GridMomentByPages(f, e);
    GridMomentByPages(Streamed(f), e);
    forall i | 0 <= i < 9 ensures WeightedPages(Streamed(f), e)(i) == WeightedPages(f, e)(i) {
      StreamingKeepsPage(f, i);
    }
    SumExt(9, WeightedPages(Streamed(f), e), WeightedPages(f, e));
  }

  /** Relaxation and streaming together keep the mass and both components of the momentum of the grid. */
  lemma CollisionAndStreamingConserve(f: NdArray, rho: NdArray, ux: NdArray, uy: NdArray, time: (int, int) -> real)
    requires Moments(f, rho, ux, uy)
    ensures var g := Streamed(Relaxed(f, EquilibriumGrid(rho, ux, uy, f.dims), time));
      && GridMoment(g, One) == GridMoment(f, One)
      && GridMoment(g, Ex) == GridMoment(f, Ex)
      && GridMoment(g, Ey) == GridMoment(f, Ey)
  {
    hide Sum, Equilibrium;
    var g := Relaxed(f, EquilibriumGrid(rho, ux, uy, f.dims), time);
    forall x, y | 0 <= x < f.dims.d0 && 0 <= y < f.dims.d1
      ensures CellMoment(g, One, x, y) == CellMoment(f, One, x, y)
      ensures CellMoment(g, Ex, x, y) == CellMoment(f, Ex, x, y)
      ensures CellMoment(g, Ey, x, y) == CellMoment(f, Ey, x, y)
    {
      assert CellMoments(f, rho, ux, uy, x, y);
      RelaxationKeepsMoments(f, rho, ux, uy, time, x, y);
    }
    Sum2Ext(f.dims.d0, f.dims.d1, CellMomentOf(g, One), CellMomentOf(f, One));
    Sum2Ext(f.dims.d0, f.dims.d1, CellMomentOf(g, Ex), CellMomentOf(f, Ex));
    Sum2Ext(f.dims.d0, f.dims.d1, CellMomentOf(g, Ey), CellMomentOf(f, Ey));
    StreamingKeepsGrid(g, One);
    StreamingKeepsGrid(g, Ex);
    StreamingKeepsGrid(g, Ey);
  }
}
