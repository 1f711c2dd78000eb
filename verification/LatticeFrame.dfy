/** What one frame leaves in every cell, direction by direction, in terms of the populations before it. */
module LatticeFrame {
  import opened Reals
  import opened NdArrays
  import opened LatticeTables
  import opened LatticeArrays
  import opened LatticeBoltzmann

  /** The populations after relaxation, streaming, fixed cells and bounce-back. */
  function NextPopulations(f: NdArray, feq: NdArray, ux: NdArray, uy: NdArray, density: real,
                           time: (int, int) -> real, fixedCell: (int, int) -> bool): NdArray
  {
    Bounced(Masked(Streamed(Relaxed(f, feq, time)), f, fixedCell), ux, uy, density)
  }

  /** The index one step back along an offset, around the edges of a dimension. */
  function Back(x: int, e: real, n: nat): int
  {
    if e == 1.0 then (if x == 0 then n - 1 else x - 1)
    else if e == -1.0 then (if x == n - 1 then 0 else x + 1)
    else x
  }

  /** The value that population i brings to a cell.  A fixed cell keeps its own; to a free one comes that of the
      cell one step back along direction i, whose distance from equilibrium has shrunk by one part in its
      relaxation time. */
  ghost predicate Arrives(value: real, f: NdArray, feq: NdArray, time: (int, int) -> real,
                          fixedCell: (int, int) -> bool, x: int, y: int, i: nat)
    requires i < 9
  {
    if fixedCell(x, y) then value == f.at(x, y, i, 0)
    else
      var x', y' := Back(x, EX[i], f.dims.d0), Back(y, EY[i], f.dims.d1);
      (value - feq.at(x', y', i, 0)) * time(x', y')
      == (f.at(x', y', i, 0) - feq.at(x', y', i, 0)) * (time(x', y') - 1.0)
  }

  datatype Place = Nowhere | Place(x: int, y: int)

  /** The wall cell that direction i leads away from, for a cell next to a wall; where two walls meet, those at the
      ends of the second dimension come first. */
  function WallBehind(d: Dim4, x: int, y: int, i: nat): Place
    requires i < 9
  {
    if y == 1 && EY[i] == 1.0 then Place(x, 0)
    else if y == d.d1 - 2 && EY[i] == -1.0 then Place(x, d.d1 - 1)
    else if x == 1 && EX[i] == 1.0 then Place(0, y)
    else if x == d.d0 - 2 && EX[i] == -1.0 then Place(d.d0 - 1, y)
    else Nowhere
  }

  /** Population k of a cell after a frame.  Away from the walls it is what arrives.  Next to a wall, a population
      toward the wall is the one that arrives from there, turned around: its distance from equilibrium at the
      velocity of the wall and the given density is that of its opposite. */
  ghost predicate Updated(value: real, f: NdArray, feq: NdArray, ux: NdArray, uy: NdArray, density: real,
                          time: (int, int) -> real, fixedCell: (int, int) -> bool, x: int, y: int, k: nat)
    requires k < 9
  {
    match WallBehind(f.dims, x, y, OPPOSITE[k])
    case Nowhere => Arrives(value, f, feq, time, fixedCell, x, y, k)
    case Place(wx, wy) =>
      var u, v := ux.at(wx, wy, 0, 0), uy.at(wx, wy, 0, 0);
      Arrives(value - Equilibrium(density, u, v, k) + Equilibrium(density, u, v, OPPOSITE[k]),
              f, feq, time, fixedCell, x, y, OPPOSITE[k])
  }

  /** The frame as a whole: every population of every cell. */
  ghost predicate FrameUpdated(f': NdArray, f: NdArray, feq: NdArray, ux: NdArray, uy: NdArray, density: real,
                               time: (int, int) -> real, fixedCell: (int, int) -> bool)
  {
    forall x, y, k: nat | 0 <= x < f.dims.d0 && 0 <= y < f.dims.d1 && k < 9 ::
      Updated(f'.at(x, y, k, 0), f, feq, ux, uy, density, time, fixedCell, x, y, k)
  }

  ghost predicate TimesNonzero(d: Dim4, time: (int, int) -> real)
  {
    forall x, y | 0 <= x < d.d0 && 0 <= y < d.d1 :: time(x, y) != 0.0
  }

  lemma BackIsMod(x: int, e: real, n: nat, s: int)
    requires 0 <= x < n && e == s as real && -1 <= s <= 1
    ensures Back(x, e, n) == Mod(x - s, n) && 0 <= Back(x, e, n) < n
  {
    if s == 1 && x == 0 {
      DivModUnique(-1, n, -1, n - 1);
    } else if s == -1 && x == n - 1 {
      DivModUnique(n, n, 1, 0);
    } else {
      DivModUnique(x - s, n, 0, x - s);
    }
  }

  lemma Shifts(i: nat)
    requires i < 9
    ensures ShiftX(i) == (if EX[i] == 1.0 then 1 else if EX[i] == -1.0 then -1 else 0)
    ensures ShiftY(i) == (if EY[i] == 1.0 then 1 else if EY[i] == -1.0 then -1 else 0)
    ensures EX[i] == 1.0 || EX[i] == 0.0 || EX[i] == -1.0
    ensures EY[i] == 1.0 || EY[i] == 0.0 || EY[i] == -1.0
  {
  }

  /** Relaxation, cleared of its quotient. */
  lemma RelaxedValue(f: real, feq: real, t: real)
    requires t != 0.0
    ensures (f - Quotient(f - feq, t) - feq) * t == (f - feq) * (t - 1.0)
  {
    var q := Quotient(f - feq, t);
    QuotientTimes(f - feq, t);
    assert (f - q - feq) * t == (f - feq) * t - t * q;
  }

  lemma StreamedArrives(f: NdArray, feq: NdArray, time: (int, int) -> real, fixedCell: (int, int) -> bool,
                        x: int, y: int, i: nat)
    requires i < 9 && 0 <= x < f.dims.d0 && 0 <= y < f.dims.d1
    requires TimesNonzero(f.dims, time)
    ensures Arrives(Masked(Streamed(Relaxed(f, feq, time)), f, fixedCell).at(x, y, i, 0),
                    f, feq, time, fixedCell, x, y, i)
  {
    hide Quotient, Mod, Back, ShiftX, ShiftY;
    var x', y' := Back(x, EX[i], f.dims.d0), Back(y, EY[i], f.dims.d1);
    Shifts(i);
    BackIsMod(x, EX[i], f.dims.d0, ShiftX(i));
    BackIsMod(y, EY[i], f.dims.d1, ShiftY(i));
    RelaxedValue(f.at(x', y', i, 0), feq.at(x', y', i, 0), time(x', y'));
  }

  /** The equilibria of opposite directions differ by the wall's contribution. */
  lemma OppositeEquilibria(density: real, u: real, v: real, k: nat)
    requires k < 9
    ensures Equilibrium(density, u, v, OPPOSITE[k]) - Equilibrium(density, u, v, k)
         == WallFlux(density, u, v, OPPOSITE[k])
  {
    var i := OPPOSITE[k];
    Opposites(k);
    OppositeTerms(density, Wt(i), Ex(i) * u + Ey(i) * v, u * u + v * v);
    assert Ex(k) * u + Ey(k) * v == -(Ex(i) * u + Ey(i) * v);
    assert u * Ex(i) + v * Ey(i) == Ex(i) * u + Ey(i) * v;
  }

  lemma OppositeTerms(density: real, w: real, e: real, s: real)
    ensures density * w * (e * e * 4.5 - s * 1.5 + e * 3.0 + 1.0)
          - density * w * (-e * -e * 4.5 - s * 1.5 + -e * 3.0 + 1.0)
         == 6.0 * density * w * e
  {
    assert -e * -e == e * e;
    var c, g := density * w, e * e * 4.5 - s * 1.5 + 1.0;
    assert c * (g + e * 3.0) - c * (g - e * 3.0) == 6.0 * c * e;
    assert 6.0 * density * w * e == 6.0 * c * e;
  }

  lemma BouncedAt(g: NdArray, ux: NdArray, uy: NdArray, density: real, x: int, y: int, k: nat)
    requires k < 9
    ensures var w := WallBehind(g.dims, x, y, OPPOSITE[k]);
      Bounced(g, ux, uy, density).at(x, y, k, 0)
      == if w == Nowhere then g.at(x, y, k, 0)
         else g.at(x, y, OPPOSITE[k], 0) - WallTerm(ux, uy, density, w.x, w.y, OPPOSITE[k])
  {
    hide WallTerm, ShiftX, ShiftY;
    Shifts(OPPOSITE[k]);
    assert OPPOSITE[k] == 8 - k;
  }

  lemma PopulationUpdates(f: NdArray, feq: NdArray, ux: NdArray, uy: NdArray, density: real,
                     time: (int, int) -> real, fixedCell: (int, int) -> bool, x: int, y: int, k: nat)
    requires k < 9 && 0 <= x < f.dims.d0 && 0 <= y < f.dims.d1
    requires TimesNonzero(f.dims, time)
    ensures Updated(NextPopulations(f, feq, ux, uy, density, time, fixedCell).at(x, y, k, 0),
                    f, feq, ux, uy, density, time, fixedCell, x, y, k)
  {
    hide Equilibrium, Arrives, WallFlux, Bounced, Masked, Streamed, Relaxed;
    var g := Masked(Streamed(Relaxed(f, feq, time)), f, fixedCell);
    MaskedDims(f, feq, time, fixedCell);
    BouncedAt(g, ux, uy, density, x, y, k);
    match WallBehind(f.dims, x, y, OPPOSITE[k])
    case Nowhere =>
      StreamedArrives(f, feq, time, fixedCell, x, y, k);
    case Place(wx, wy) =>
      StreamedArrives(f, feq, time, fixedCell, x, y, OPPOSITE[k]);
      OppositeEquilibria(density, ux.at(wx, wy, 0, 0), uy.at(wx, wy, 0, 0), k);
  }

  /** Every array that holds the next populations holds what the frame leaves in every cell. */
  lemma FrameUpdates(f': NdArray, f: NdArray, feq: NdArray, ux: NdArray, uy: NdArray, density: real,
                     time: (int, int) -> real, fixedCell: (int, int) -> bool)
    requires f.dims == Grid(f.dims.d0, f.dims.d1, 9) && TimesNonzero(f.dims, time)
    requires Same(f', NextPopulations(f, feq, ux, uy, density, time, fixedCell)) && f'.dims == f.dims
    ensures FrameUpdated(f', f, feq, ux, uy, density, time, fixedCell)
  {
    hide Updated, NextPopulations, TimesNonzero;
    forall x, y, k: nat | 0 <= x < f.dims.d0 && 0 <= y < f.dims.d1 && k < 9
      ensures Updated(f'.at(x, y, k, 0), f, feq, ux, uy, density, time, fixedCell, x, y, k)
    {
      PopulationUpdates(f, feq, ux, uy, density, time, fixedCell, x, y, k);
      assert In(f'.dims, x, y, k, 0);
    }
  }

  lemma MaskedDims(f: NdArray, feq: NdArray, time: (int, int) -> real, fixedCell: (int, int) -> bool)
    ensures Masked(Streamed(Relaxed(f, feq, time)), f, fixedCell).dims == f.dims
  {
  }
}
