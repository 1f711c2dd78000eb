/** One frame of the lattice Boltzmann method on arrays: relaxation, streaming, fixed cells and
    bounce-back, each as a function of the whole grid. */
module LatticeArrays {
  import opened Reals
  import opened NdArrays
  import opened LatticeTables

  function Grid(x: nat, y: nat, n: nat): Dim4
  {
    Dim4(x, y, n, 1)
  }

  /** The nine populations of a cell. */
  function Cell(f: NdArray, x: int, y: int): int -> real
  {
    i => f.at(x, y, i, 0)
  }

  function EquilibriumGrid(rho: NdArray, ux: NdArray, uy: NdArray, d: Dim4): NdArray
  {
    NdArray(d, (x, y, i, l) => Equilibrium(rho.at(x, y, 0, 0), ux.at(x, y, 0, 0), uy.at(x, y, 0, 0), i))
  }

  /** Every population moves toward its equilibrium by one over the relaxation time of its cell. */
  function Relaxed(f: NdArray, feq: NdArray, time: (int, int) -> real): NdArray
  {
    NdArray(f.dims, (x, y, i, l) =>
      f.at(x, y, i, l) - Quotient(f.at(x, y, i, l) - feq.at(x, y, i, l), time(x, y)))
  }

  function ShiftX(i: int): int
  {
    Ex(i).Floor
  }

  function ShiftY(i: int): int
  {
    Ey(i).Floor
  }

  /** Population i of every cell moves one step along direction i, around the edges of the grid. */
  function Streamed(f: NdArray): NdArray
  {
    NdArray(f.dims, (x, y, i, l) => f.at(Mod(x - ShiftX(i), f.dims.d0), Mod(y - ShiftY(i), f.dims.d1), i, l))
  }

  /** Cells with fixed velocity keep their old populations. */
  function Masked(fplus: NdArray, f: NdArray, fixedCell: (int, int) -> bool): NdArray
  {
    NdArray(fplus.dims, (x, y, i, l) => if fixedCell(x, y) then f.at(x, y, i, l) else fplus.at(x, y, i, l))
  }

  /** Six times the density times the weight times the wall velocity along direction i. */
  function WallFlux(density: real, u: real, v: real, i: int): real
  {
    6.0 * density * Wt(i) * (u * Ex(i) + v * Ey(i))
  }

  function WallTerm(ux: NdArray, uy: NdArray, density: real, x: int, y: int, i: int): real
  {
    WallFlux(density, ux.at(x, y, 0, 0), uy.at(x, y, 0, 0), i)
  }

  /** Population k of a cell next to a wall, when it leads to that wall, is the population i that came from
      there, corrected by the velocity of the outer row or column on that side; where two walls meet, the
      walls at the ends of the second dimension win. */
  function Bounced(fplus: NdArray, ux: NdArray, uy: NdArray, density: real): NdArray
  {
    var rows, cols := fplus.dims.d0, fplus.dims.d1;
    NdArray(fplus.dims, (x, y, k, l) =>
      var i := 8 - k;
      if y == 1 && ShiftY(i) == 1 then fplus.at(x, y, i, l) - WallTerm(ux, uy, density, x, 0, i)
      else if y == cols - 2 && ShiftY(i) == -1 then fplus.at(x, y, i, l) - WallTerm(ux, uy, density, x, cols - 1, i)
      else if x == 1 && ShiftX(i) == 1 then fplus.at(x, y, i, l) - WallTerm(ux, uy, density, 0, y, i)
      else if x == rows - 2 && ShiftX(i) == -1 then fplus.at(x, y, i, l) - WallTerm(ux, uy, density, rows - 1, y, i)
      else fplus.at(x, y, k, l))
  }

  // ----- The helper arrays of the walls

  /** tile(a.rows(first, first + 2), (1, 3)).T() reshaped to (columns, 9). */
  function RowsHelper(a: NdArray, first: nat): (h: NdArray)
    requires first + 2 < a.dims.d0 && a.dims.d2 == 1 && a.dims.d3 == 1
    ensures h.dims == Dim4(a.dims.d1, 9, 1, 1)
  {
    ModDims(T(Tile(Rows(a, first, first + 2), Dim4(1, 3, 1, 1))), Dim4(a.dims.d1, 9, 1, 1))
  }

  lemma RowsPosition(cols: nat, j: int, q: int, r: int)
    requires 0 <= j < cols && 0 <= q < 3 && 0 <= r < 3
    ensures j + cols * (3 * q + r) == j + cols * r + 3 * cols * q
    ensures 0 <= j + cols * r < 3 * cols
  {
    if r == 0 {
    } else if r == 1 {
    } else {
      assert r == 2;
    }
  }

  lemma TransposedTileAt(a: NdArray, first: nat, j: int, q: int, r: int)
    requires first + 2 < a.dims.d0 && a.dims.d2 == 1 && a.dims.d3 == 1
    requires 0 <= j < a.dims.d1 && 0 <= q < 3 && 0 <= r < 3
    ensures T(Tile(Rows(a, first, first + 2), Dim4(1, 3, 1, 1))).at(j + a.dims.d1 * r, q, 0, 0)
         == a.at(first + q, j, 0, 0)
  {
    var b := Rows(a, first, first + 2);
    DivModUnique(j + a.dims.d1 * r, a.dims.d1, r, j);
    TileAt(b, Dim4(1, 3, 1, 1), q, j + a.dims.d1 * r, 0, 0);
    assert b.dims.d0 == 3 && b.dims.d2 == 1 && b.dims.d3 == 1;
    assert Mod(q, 3) == q && Mod(0, 1) == 0;
  }

  /** Entry (j, i) of the rows helper is row first + i / 3 of the source at column j. */
  lemma RowsHelperAt(a: NdArray, first: nat, j: int, i: int)
    requires first + 2 < a.dims.d0 && a.dims.d2 == 1 && a.dims.d3 == 1
    requires 0 <= j < a.dims.d1 && 0 <= i < 9
    ensures RowsHelper(a, first).at(j, i, 0, 0) == a.at(first + i / 3, j, 0, 0)
  {
    var cols, q, r := a.dims.d1, i / 3, i % 3;
    RowsPosition(cols, j, q, r);
    ModDimsAt(T(Tile(Rows(a, first, first + 2), Dim4(1, 3, 1, 1))), Dim4(cols, 9, 1, 1),
              j, i, 0, 0, j + cols * r, q, 0, 0);
    TransposedTileAt(a, first, j, q, r);
  }

  /** tile(a.cols(first, first + 2), (1, 3)). */
  function ColsHelper(a: NdArray, first: nat): (h: NdArray)
    requires first + 2 < a.dims.d1 && a.dims.d2 == 1 && a.dims.d3 == 1
    ensures h.dims == Dim4(a.dims.d0, 9, 1, 1)
  {
    Tile(Cols(a, first, first + 2), Dim4(1, 3, 1, 1))
  }

  lemma ColsHelperAt(a: NdArray, first: nat, x: int, i: int)
    requires first + 2 < a.dims.d1 && a.dims.d2 == 1 && a.dims.d3 == 1
    requires 0 <= x < a.dims.d0 && 0 <= i < 9
    ensures ColsHelper(a, first).at(x, i, 0, 0) == a.at(x, first + i % 3, 0, 0)
  {
    var b := Cols(a, first, first + 2);
    assert x % a.dims.d0 == x;
    TileAt(b, Dim4(1, 3, 1, 1), x, i, 0, 0);
    assert b.dims.d1 == 3 && b.dims.d2 == 1 && b.dims.d3 == 1;
    assert Mod(0, 1) == 0;
  }

  /** moddims(a.row(r), (columns, 9)). */
  function RowPage(a: NdArray, r: nat): NdArray
    requires r < a.dims.d0 && a.dims.d2 == 9 && a.dims.d3 == 1
  {
    ModDims(Rows(a, r, r), Dim4(a.dims.d1, 9, 1, 1))
  }

  lemma RowPageAt(a: NdArray, r: nat, j: int, i: int)
    requires r < a.dims.d0 && a.dims.d2 == 9 && a.dims.d3 == 1
    requires 0 <= j < a.dims.d1 && 0 <= i < 9
    ensures RowPage(a, r).at(j, i, 0, 0) == a.at(r, j, i, 0)
  {
    ModDimsAt(Rows(a, r, r), Dim4(a.dims.d1, 9, 1, 1), j, i, 0, 0, 0, j, i, 0);
  }

  /** moddims(a.col(c), (rows, 9)). */
  function ColPage(a: NdArray, c: nat): NdArray
    requires c < a.dims.d1 && a.dims.d2 == 9 && a.dims.d3 == 1
  {
    ModDims(Cols(a, c, c), Dim4(a.dims.d0, 9, 1, 1))
  }

  lemma ColPageAt(a: NdArray, c: nat, x: int, i: int)
    requires c < a.dims.d1 && a.dims.d2 == 9 && a.dims.d3 == 1
    requires 0 <= x < a.dims.d0 && 0 <= i < 9
    ensures ColPage(a, c).at(x, i, 0, 0) == a.at(x, c, i, 0)
  {
    ModDimsAt(Cols(a, c, c), Dim4(a.dims.d0, 9, 1, 1), x, i, 0, 0, x, 0, i, 0);
  }
}
