/** Streaming page by page and bounce-back direction by direction, proved against the grid functions, and
    the moments a frame starts from. */
module LatticeBoltzmann {
  import opened Reals
  import opened Sums
  import opened NdArrays
  import opened LatticeTables
  import opened LatticeArrays

  const CSKY := 0.16

  function RelaxationTime(root: real -> real, sigma: real, tau: real): real
  {
    root(sigma * (CSKY * CSKY * 18.0 * 0.25) + tau * tau * 0.25) - tau * 0.5 + tau
  }

  /** The relaxation time never vanishes: the root is at least half of tau.  It is tau lengthened by the strain: the
      larger root of t^2 - tau t = 0.1152 sigma. */
  lemma RelaxationTimePositive(root: real -> real, sigma: real, tau: real)
    requires IsRoot(root) && sigma >= 0.0 && tau > 0.0
    ensures RelaxationTime(root, sigma, tau) >= tau
    ensures RelaxationTime(root, sigma, tau) * (RelaxationTime(root, sigma, tau) - tau) == 0.1152 * sigma
  {
    var h := tau * 0.5;
    var s := sigma * (CSKY * CSKY * 18.0 * 0.25);
    assert tau * tau * 0.25 == h * h;
    assert h * h >= 0.0;
    var r := root(s + tau * tau * 0.25);
    RootBound(r, h, s);
    assert (r + h) * (r - h) == r * r - h * h;
  }

  /** Density and momentum of a cell are the moments of its populations. */
  ghost predicate CellMoments(f: NdArray, rho: NdArray, ux: NdArray, uy: NdArray, x: int, y: int)
  {
    && rho.at(x, y, 0, 0) == Sum(9, Cell(f, x, y))
    && rho.at(x, y, 0, 0) * ux.at(x, y, 0, 0) == Sum(9, Along(Ex, Cell(f, x, y)))
    && rho.at(x, y, 0, 0) * uy.at(x, y, 0, 0) == Sum(9, Along(Ey, Cell(f, x, y)))
  }

  ghost predicate Moments(f: NdArray, rho: NdArray, ux: NdArray, uy: NdArray)
  {
    forall x, y | 0 <= x < f.dims.d0 && 0 <= y < f.dims.d1 :: CellMoments(f, rho, ux, uy, x, y)
  }

  function Page(a: NdArray, i: nat): NdArray
  {
    NdArray(a.dims.(d2 := 1), (x, y, k, l) => a.at(x, y, i + k, l))
  }

  function AssignPage(a: NdArray, i: nat, b: NdArray): NdArray
  {
    NdArray(a.dims, (x, y, k, l) => if k == i then b.at(x, y, 0, l) else a.at(x, y, k, l))
  }

  /** a(r, span, k) = column i of b. */
  function AssignRow(a: NdArray, r: int, page: int, b: NdArray, i: int): NdArray
  {
    NdArray(a.dims, (x, y, k, l) => if x == r && k == page then b.at(y, i, 0, 0) else a.at(x, y, k, l))
  }

  /** a(span, c, k) = column i of b. */
  function AssignCol(a: NdArray, c: int, page: int, b: NdArray, i: int): NdArray
  {
    NdArray(a.dims, (x, y, k, l) => if y == c && k == page then b.at(x, i, 0, 0) else a.at(x, y, k, l))
  }

  /** The first i pages of fplus have been streamed, the others not. */
  ghost predicate StreamedUpTo(f: NdArray, fplus: NdArray, i: int)
  {
    fplus.dims == f.dims
    && forall x, y, k, l | In(f.dims, x, y, k, l) ::
      fplus.at(x, y, k, l) == (if k < i then Streamed(f) else f).at(x, y, k, l)
  }

  function StreamPage(fplus: NdArray, i: nat): NdArray
  {
    AssignPage(fplus, i, Shift(Page(fplus, i), ShiftX(i), ShiftY(i)))
  }

  lemma StreamStep(f: NdArray, fplus: NdArray, i: nat)
    requires f.dims.d2 == 9 && i < 9 && StreamedUpTo(f, fplus, i)
    ensures StreamedUpTo(f, StreamPage(fplus, i), i + 1)
  {
    var next := StreamPage(fplus, i);
    forall x, y, k, l | In(f.dims, x, y, k, l)
      ensures next.at(x, y, k, l) == (if k < i + 1 then Streamed(f) else f).at(x, y, k, l)
    {
      if k == i {
        var x', y' := Mod(x - ShiftX(i), f.dims.d0), Mod(y - ShiftY(i), f.dims.d1);
        assert In(f.dims, x', y', i, l);
        assert next.at(x, y, k, l) == Page(fplus, i).at(x', y', 0, l) == fplus.at(x', y', i, l);
      }
    }
  }

  /** Streams the nine pages one after the other. */
  method Stream(f: NdArray) returns (fplus: NdArray)
    requires f.dims.d2 == 9
    ensures Same(fplus, Streamed(f))
  {
    fplus := f;
    for i := 0 to 9
      invariant StreamedUpTo(f, fplus, i)
    {
      StreamStep(f, fplus, i);
      fplus := AssignPage(fplus, i, Shift(Page(fplus, i), ShiftX(i), ShiftY(i)));
    }
  }

  /** fnew: the reflected page of the row or column next to a wall, less the wall's contribution. */
  function WallUpdate(page: NdArray, wx: NdArray, wy: NdArray, density: real): NdArray
  {
    NdArray(page.dims, (j, i, k, l) =>
      page.at(j, i, k, l) - WallFlux(density, wx.at(j, i, k, l), wy.at(j, i, k, l), i))
  }

  predicate Shaped(f: NdArray, ux: NdArray, uy: NdArray)
  {
    var x, y := f.dims.d0, f.dims.d1;
    x >= 3 && y >= 3 && f.dims == Grid(x, y, 9) && ux.dims == Grid(x, y, 1) && uy.dims == Grid(x, y, 1)
  }

  /** The four arrays of reflected populations. */
  datatype Walls = Walls(top: NdArray, bot: NdArray, lft: NdArray, rht: NdArray)

  function WallArrays(fplus: NdArray, ux: NdArray, uy: NdArray, density: real): Walls
    requires Shaped(fplus, ux, uy)
  {
    var xcount, ycount := fplus.dims.d0, fplus.dims.d1;
    Walls(WallUpdate(RowPage(fplus, 1), RowsHelper(ux, 0), RowsHelper(uy, 0), density),
          WallUpdate(RowPage(fplus, xcount - 2), RowsHelper(ux, xcount - 3), RowsHelper(uy, xcount - 3), density),
          WallUpdate(ColPage(fplus, 1), ColsHelper(ux, 0), ColsHelper(uy, 0), density),
          WallUpdate(ColPage(fplus, ycount - 2), ColsHelper(ux, ycount - 3), ColsHelper(uy, ycount - 3), density))
  }

  /** Where they are used, the helper arrays hold the velocity of the outer row on their own side ... */
  lemma RowWallAt(fplus: NdArray, ux: NdArray, uy: NdArray, density: real, y: int, i: int)
    requires Shaped(fplus, ux, uy) && 0 <= y < fplus.dims.d1 && 0 <= i < 9
    ensures ShiftX(i) == 1 ==> (WallArrays(fplus, ux, uy, density).top.at(y, i, 0, 0)
      == fplus.at(1, y, i, 0) - WallTerm(ux, uy, density, 0, y, i))
    ensures ShiftX(i) == -1 ==> (WallArrays(fplus, ux, uy, density).bot.at(y, i, 0, 0)
      == fplus.at(fplus.dims.d0 - 2, y, i, 0) - WallTerm(ux, uy, density, fplus.dims.d0 - 1, y, i))
  {
    if ShiftX(i) == 1 {
      assert i / 3 == 0;
      RowUpdateAt(fplus, ux, uy, density, 1, 0, y, i);
    } else if ShiftX(i) == -1 {
      assert i / 3 == 2;
      RowUpdateAt(fplus, ux, uy, density, fplus.dims.d0 - 2, fplus.dims.d0 - 3, y, i);
    }
  }

  lemma RowUpdateAt(fplus: NdArray, ux: NdArray, uy: NdArray, density: real, r: int, first: int, y: int, i: int)
    requires Shaped(fplus, ux, uy) && 0 <= y < fplus.dims.d1 && 0 <= i < 9
    requires 0 <= r < fplus.dims.d0 && 0 <= first < fplus.dims.d0 - 2
    ensures WallUpdate(RowPage(fplus, r), RowsHelper(ux, first), RowsHelper(uy, first), density).at(y, i, 0, 0)
         == fplus.at(r, y, i, 0) - WallTerm(ux, uy, density, first + i / 3, y, i)
  {
    RowPageAt(fplus, r, y, i);
    RowsHelperAt(ux, first, y, i);
    RowsHelperAt(uy, first, y, i);
  }

  /** ... and likewise for the outer columns. */
  lemma ColWallAt(fplus: NdArray, ux: NdArray, uy: NdArray, density: real, x: int, i: int)
    requires Shaped(fplus, ux, uy) && 0 <= x < fplus.dims.d0 && 0 <= i < 9
    ensures ShiftY(i) == 1 ==> (WallArrays(fplus, ux, uy, density).lft.at(x, i, 0, 0)
      == fplus.at(x, 1, i, 0) - WallTerm(ux, uy, density, x, 0, i))
    ensures ShiftY(i) == -1 ==> (WallArrays(fplus, ux, uy, density).rht.at(x, i, 0, 0)
      == fplus.at(x, fplus.dims.d1 - 2, i, 0) - WallTerm(ux, uy, density, x, fplus.dims.d1 - 1, i))
  {
    if ShiftY(i) == 1 {
      assert i % 3 == 0;
      ColUpdateAt(fplus, ux, uy, density, 1, 0, x, i);
    } else if ShiftY(i) == -1 {
      assert i % 3 == 2;
      ColUpdateAt(fplus, ux, uy, density, fplus.dims.d1 - 2, fplus.dims.d1 - 3, x, i);
    }
  }

  lemma ColUpdateAt(fplus: NdArray, ux: NdArray, uy: NdArray, density: real, c: int, first: int, x: int, i: int)
    requires Shaped(fplus, ux, uy) && 0 <= x < fplus.dims.d0 && 0 <= i < 9
    requires 0 <= c < fplus.dims.d1 && 0 <= first < fplus.dims.d1 - 2
    ensures WallUpdate(ColPage(fplus, c), ColsHelper(ux, first), ColsHelper(uy, first), density).at(x, i, 0, 0)
         == fplus.at(x, c, i, 0) - WallTerm(ux, uy, density, x, first + i % 3, i)
  {
    ColPageAt(fplus, c, x, i);
    ColsHelperAt(ux, first, x, i);
    ColsHelperAt(uy, first, x, i);
  }

  /** Directions below i have been written to their opposite pages, the others not. */
  ghost predicate BouncedUpTo(fplus: NdArray, f: NdArray, bounced: NdArray, i: int)
  {
    f.dims == fplus.dims
    && forall x, y, k | In(fplus.dims, x, y, k, 0) ::
      f.at(x, y, k, 0) == (if 8 - k < i then bounced else fplus).at(x, y, k, 0)
  }

  /** The writes of one direction, in program order. */
  function BounceDirection(f: NdArray, w: Walls, i: nat): NdArray
    requires i < 9
  {
    var xcount, ycount := f.dims.d0, f.dims.d1;
    var f1 := if ShiftX(i) == 1 then AssignRow(f, 1, OPPOSITE[i], w.top, i) else f;
    var f2 := if ShiftX(i) == -1 then AssignRow(f1, xcount - 2, OPPOSITE[i], w.bot, i) else f1;
    var f3 := if ShiftY(i) == 1 then AssignCol(f2, 1, OPPOSITE[i], w.lft, i) else f2;
    if ShiftY(i) == -1 then AssignCol(f3, ycount - 2, OPPOSITE[i], w.rht, i) else f3
  }

  lemma BounceDirectionAt(fplus: NdArray, f: NdArray, ux: NdArray, uy: NdArray, density: real, i: nat,
                          x: int, y: int, k: int)
    requires Shaped(fplus, ux, uy) && i < 9 && In(fplus.dims, x, y, k, 0)
    requires BouncedUpTo(fplus, f, Bounced(fplus, ux, uy, density), i)
    ensures BounceDirection(f, WallArrays(fplus, ux, uy, density), i).at(x, y, k, 0)
      == (if 8 - k < i + 1 then Bounced(fplus, ux, uy, density) else fplus).at(x, y, k, 0)
  {
    assert OPPOSITE[i] == 8 - i;
    if 8 - k == i {
      RowWallAt(fplus, ux, uy, density, y, i);
      ColWallAt(fplus, ux, uy, density, x, i);
    }
  }

  /** Writes the reflected populations direction by direction. */
  method Bounce(fplus: NdArray, ux: NdArray, uy: NdArray, density: real) returns (f: NdArray)
    requires Shaped(fplus, ux, uy)
    ensures Same(f, Bounced(fplus, ux, uy, density))
  {
    var xcount, ycount := fplus.dims.d0, fplus.dims.d1;
    var w := WallArrays(fplus, ux, uy, density);
    ghost var bounced := Bounced(fplus, ux, uy, density);
    f := fplus;
    for i := 0 to 9
      invariant BouncedUpTo(fplus, f, bounced, i)
    {
      ghost var before := f;
      forall x, y, k | In(fplus.dims, x, y, k, 0)
        ensures BounceDirection(f, w, i).at(x, y, k, 0) == (if 8 - k < i + 1 then bounced else fplus).at(x, y, k, 0)
      {
        BounceDirectionAt(fplus, f, ux, uy, density, i, x, y, k);
      }
      if ShiftX(i) == 1 {
        f := AssignRow(f, 1, OPPOSITE[i], w.top, i);
      }
      if ShiftX(i) == -1 {
        f := AssignRow(f, xcount - 2, OPPOSITE[i], w.bot, i);
      }
      if ShiftY(i) == 1 {
        f := AssignCol(f, 1, OPPOSITE[i], w.lft, i);
      }
      if ShiftY(i) == -1 {
        f := AssignCol(f, ycount - 2, OPPOSITE[i], w.rht, i);
      }
      assert f == BounceDirection(before, w, i);
    }
  }

  /** The relaxation time of every cell, as a function. */
  function TimeOf(root: real -> real, sigma: NdArray, tau: real): (int, int) -> real
  {
    (x, y) => RelaxationTime(root, sigma.at(x, y, 0, 0), tau)
  }

  lemma AlongExt(e: int -> real, f: int -> real, g: int -> real)
    requires forall i | 0 <= i < 9 :: f(i) == g(i)
    ensures Sum(9, Along(e, f)) == Sum(9, Along(e, g))
  {
    SumExt(9, Along(e, f), Along(e, g));
  }

  lemma CellAtEquilibrium(cell: int -> real, r: real, u: real, v: real)
    requires forall i | 0 <= i < 9 :: cell(i) == EquilibriumOf(r, u, v)(i)
    ensures Sum(9, cell) == r && Sum(9, Along(Ex, cell)) == r * u && Sum(9, Along(Ey, cell)) == r * v
  {
    EquilibriumMass(r, u, v);
    EquilibriumMomentum(r, u, v);
    SumExt(9, cell, EquilibriumOf(r, u, v));
    AlongExt(Ex, cell, EquilibriumOf(r, u, v));
    AlongExt(Ey, cell, EquilibriumOf(r, u, v));
  }

  lemma GridCell(rho: NdArray, ux: NdArray, uy: NdArray, d: Dim4, x: int, y: int)
    ensures CellMoments(EquilibriumGrid(rho, ux, uy, d), rho, ux, uy, x, y)
  {
    hide Equilibrium;
    var r, u, v := rho.at(x, y, 0, 0), ux.at(x, y, 0, 0), uy.at(x, y, 0, 0);
    CellAtEquilibrium(Cell(EquilibriumGrid(rho, ux, uy, d), x, y), r, u, v);
  }

  /** Populations at equilibrium have the moments they were made from. */
  lemma EquilibriumMoments(rho: NdArray, ux: NdArray, uy: NdArray, d: Dim4)
    ensures Moments(EquilibriumGrid(rho, ux, uy, d), rho, ux, uy)
  {
    forall x, y ensures CellMoments(EquilibriumGrid(rho, ux, uy, d), rho, ux, uy, x, y) {
      GridCell(rho, ux, uy, d, x, y);
    }
  }
}
