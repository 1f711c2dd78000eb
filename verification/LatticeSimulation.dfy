/** The simulation object, whose fields are overwritten frame by frame. */
module LatticeSimulation {
  import opened Reals
  import opened Sums
  import opened NdArrays
  import opened LatticeTables
  import opened LatticeArrays
  import opened LatticeBoltzmann
  import opened LatticeFrame
  import opened LatticeConservation
  import opened LatticeUpdate

  class Simulation {
    const gridWidth: nat
    const gridHeight: nat
    const density: real
    const velocity: real
    const reynolds: real
    const fixedCell: (int, int) -> bool

    var ux: NdArray
    var uy: NdArray
    var rho: NdArray
    var sigma: NdArray
    var f: NdArray
    var feq: NdArray

    ghost predicate Valid()
      reads this
    {
      && gridWidth >= 3 && gridHeight >= 3
      && velocity >= 0.0 && reynolds > 0.0
      && ux.dims == uy.dims == rho.dims == sigma.dims == Grid(gridWidth, gridHeight, 1)
      && f.dims == feq.dims == Grid(gridWidth, gridHeight, 9)
      && (forall x, y | 0 <= x < gridWidth && 0 <= y < gridHeight :: sigma.at(x, y, 0, 0) >= 0.0)
      && Moments(f, rho, ux, uy)
    }

    /** Stores the initial velocities and the simulation parameters, and initializes the populations to
        the equilibrium of the constant density. */
    constructor (w: nat, h: nat, density: real, velocity: real, reynolds: real,
                 ux: NdArray, uy: NdArray, fixedCell: (int, int) -> bool)
      requires w >= 3 && h >= 3 && velocity >= 0.0 && reynolds > 0.0
      requires ux.dims == uy.dims == Grid(w, h, 1)
      ensures Valid()
      ensures gridWidth == w && gridHeight == h && this.density == density
      ensures this.ux == ux && this.uy == uy && this.fixedCell == fixedCell
      ensures forall x, y, i | In(f.dims, x, y, i, 0) ::
        f.at(x, y, i, 0) == Equilibrium(density, ux.at(x, y, 0, 0), uy.at(x, y, 0, 0), i)
    {
      gridWidth, gridHeight, this.density, this.velocity, this.reynolds := w, h, density, velocity, reynolds;
      this.ux, this.uy, this.fixedCell := ux, uy, fixedCell;
      rho := Constant(density, Grid(w, h, 1));
      sigma := Constant(0.0, Grid(w, h, 1));
      feq := EquilibriumGrid(Constant(density, Grid(w, h, 1)), ux, uy, Grid(w, h, 9));
      f := EquilibriumGrid(Constant(density, Grid(w, h, 1)), ux, uy, Grid(w, h, 9));
      new;
      EquilibriumMoments(rho, ux, uy, f.dims);
    }

    /** The relaxation time without turbulence. */
    function Tau(root: real -> real): real
      requires reynolds != 0.0
    {
      0.5 + 3.0 * (velocity * root((gridWidth * gridHeight) as real) / reynolds)
    }

    /** One frame of relaxation, streaming and boundary handling.  Up to the streaming, the mass and both momenta
        of the grid are kept.  The relaxation time of a cell is never zero: it is tau lengthened by the strain of
        the cell, with tau from the Reynolds number.  Fixed cells keep their populations; to free ones come those
        of the cells one step back, closer to equilibrium; next to the walls they are turned around. */
    method CollideStream(root: real -> real)
      requires Valid() && IsRoot(root)
      modifies this`f, this`feq
      ensures f.dims == feq.dims == Grid(gridWidth, gridHeight, 9)
      ensures forall x, y | 0 <= x < gridWidth && 0 <= y < gridHeight ::
        TimeOf(root, sigma, Tau(root))(x, y) >= Tau(root) > 0.0
        && TimeOf(root, sigma, Tau(root))(x, y) * (TimeOf(root, sigma, Tau(root))(x, y) - Tau(root))
           == 0.1152 * sigma.at(x, y, 0, 0)
      ensures (Tau(root) - 0.5) * reynolds == 3.0 * (velocity * root((gridWidth * gridHeight) as real))
      ensures Same(feq, EquilibriumGrid(rho, ux, uy, old(f).dims))
      ensures var g := Streamed(Relaxed(old(f), EquilibriumGrid(rho, ux, uy, old(f).dims),
                                        TimeOf(root, sigma, Tau(root))));
        && GridMoment(g, One) == GridMoment(old(f), One)
        && GridMoment(g, Ex) == GridMoment(old(f), Ex)
        && GridMoment(g, Ey) == GridMoment(old(f), Ey)
      ensures Same(f, NextPopulations(old(f), EquilibriumGrid(rho, ux, uy, old(f).dims), ux, uy, density,
                                      TimeOf(root, sigma, Tau(root)), fixedCell))
      ensures FrameUpdated(f, old(f), EquilibriumGrid(rho, ux, uy, old(f).dims), ux, uy, density,
                           TimeOf(root, sigma, Tau(root)), fixedCell)
    {
      hide FrameUpdated, Equilibrium, Bounced, Masked, Streamed, Relaxed, RelaxationTime, Moments, GridMoment;
      TauPositive(root);
      CollisionAndStreamingConserve(f, rho, ux, uy, TimeOf(root, sigma, Tau(root)));
      forall x, y | 0 <= x < gridWidth && 0 <= y < gridHeight
        ensures TimeOf(root, sigma, Tau(root))(x, y) >= Tau(root) > 0.0
        ensures TimeOf(root, sigma, Tau(root))(x, y) * (TimeOf(root, sigma, Tau(root))(x, y) - Tau(root))
             == 0.1152 * sigma.at(x, y, 0, 0)
      {
        RelaxationTimePositive(root, sigma.at(x, y, 0, 0), Tau(root));
      }
      var tau := Tau(root);
      feq := EquilibriumGrid(rho, ux, uy, f.dims);
      var relaxed := Relaxed(f, feq, TimeOf(root, sigma, tau));
      RelaxedDims(f, feq, TimeOf(root, sigma, tau));
      var streamed := Stream(relaxed);
      StreamedDims(relaxed);
      var fplus := Masked(streamed, f, fixedCell);
      MaskedSame(streamed, Streamed(relaxed), f, fixedCell);
      var bounced := Bounce(fplus, ux, uy, density);
      BouncedSame(fplus, Masked(Streamed(relaxed), f, fixedCell), ux, uy, density);
      FrameUpdates(bounced, f, feq, ux, uy, density, TimeOf(root, sigma, tau), fixedCell);
      f := bounced;
    }

    /** Density, velocity and strain of every cell from its populations.  The one-pass array form gives
        the direction sums; a cell of zero mass has no velocity. */
    method Update(root: real -> real)
      requires gridWidth >= 3 && gridHeight >= 3 && velocity >= 0.0 && reynolds > 0.0 && IsRoot(root)
      requires f.dims == feq.dims == Grid(gridWidth, gridHeight, 9)
      requires MassesNonzero(f)
      modifies this`rho, this`ux, this`uy, this`sigma
      ensures Valid()
      ensures forall x, y | 0 <= x < gridWidth && 0 <= y < gridHeight ::
        sigma.at(x, y, 0, 0) == root(SquaredStrain(Cell(Minus(f, feq), x, y)))
    {
      hide Sum, Strain, SquaredStrain, MomentArray;
      var result := MomentArray(f);
      rho := Volume(result, 0);
      result := Divide(result, rho);
      ux := Volume(result, 1);
      uy := Volume(result, 2);
      var product := Minus(f, feq);
      sigma := Strain(root, product);
      UpdatedDims(f, root, product);
      forall x, y | 0 <= x < gridWidth && 0 <= y < gridHeight
        ensures CellMoments(f, rho, ux, uy, x, y)
      {
        UpdatedCell(f, x, y);
      }
      forall x, y | 0 <= x < gridWidth && 0 <= y < gridHeight
        ensures sigma.at(x, y, 0, 0) >= 0.0
        ensures sigma.at(x, y, 0, 0) == root(SquaredStrain(Cell(product, x, y)))
      {
        StrainAt(root, product, x, y);
      }
    }

    /** Runs up to maxFrames frames; at the start of every one of them density and momentum are the moments
        of the populations.  Stops when a cell has no mass left to divide by. */
    method Simulate(root: real -> real, maxFrames: nat) returns (frames: nat)
      requires Valid() && IsRoot(root)
      modifies this
      ensures frames <= maxFrames
      ensures frames == maxFrames ==> Valid()
      ensures frames < maxFrames ==> !MassesNonzero(f)
    {
      frames := 0;
      while frames < maxFrames
        invariant frames <= maxFrames && Valid()
      {
        CollideStream(root);
        if !MassesNonzero(f) {
          return;
        }
        Update(root);
        frames := frames + 1;
      }
    }

    lemma TauPositive(root: real -> real)
      requires velocity >= 0.0 && reynolds > 0.0 && IsRoot(root)
      ensures Tau(root) > 0.0
      ensures (Tau(root) - 0.5) * reynolds == 3.0 * (velocity * root((gridWidth * gridHeight) as real))
    {
      var side := root((gridWidth * gridHeight) as real);
      assert side >= 0.0;
      TimesNonneg(velocity, side);
      QuotientNonneg(Times(velocity, side), reynolds);
    }
  }

  function Mass(f: NdArray, x: int, y: int): real
  {
    Sum(9, Cell(f, x, y))
  }

  predicate MassesNonzero(f: NdArray)
  {
    forall x, y | 0 <= x < f.dims.d0 && 0 <= y < f.dims.d1 :: Mass(f, x, y) != 0.0
  }

  lemma UpdatedDims(f: NdArray, root: real -> real, product: NdArray)
    requires f.dims.d0 >= 3 && f.dims.d1 >= 3 && f.dims == product.dims == Grid(f.dims.d0, f.dims.d1, 9)
    ensures var m := MomentArray(f);
      && Volume(m, 0).dims == Grid(f.dims.d0, f.dims.d1, 1)
      && Volume(Divide(m, Volume(m, 0)), 1).dims == Grid(f.dims.d0, f.dims.d1, 1)
      && Volume(Divide(m, Volume(m, 0)), 2).dims == Grid(f.dims.d0, f.dims.d1, 1)
      && Strain(root, product).dims == Grid(f.dims.d0, f.dims.d1, 1)
  {
  }

  lemma UpdatedCell(f: NdArray, x: int, y: int)
    requires f.dims.d0 >= 3 && f.dims.d1 >= 3 && f.dims == Grid(f.dims.d0, f.dims.d1, 9)
    requires Mass(f, x, y) != 0.0
    ensures var m := MomentArray(f);
      CellMoments(f, Volume(m, 0), Volume(Divide(m, Volume(m, 0)), 1), Volume(Divide(m, Volume(m, 0)), 2), x, y)
  {
    hide Sum, Cell, Along;
    MomentArrayAt(f, x, y);
    var m := MomentArray(f);
    var q := Divide(m, Volume(m, 0));
    assert q.at(x, y, 0, 1) == Quotient(m.at(x, y, 0, 1), m.at(x, y, 0, 0));
    assert q.at(x, y, 0, 2) == Quotient(m.at(x, y, 0, 2), m.at(x, y, 0, 0));
    QuotientTimes(m.at(x, y, 0, 1), m.at(x, y, 0, 0));
    QuotientTimes(m.at(x, y, 0, 2), m.at(x, y, 0, 0));
  }

  lemma QuotientNonneg(a: real, b: real)
    requires a >= 0.0 && b > 0.0
    ensures a / b >= 0.0
  {
  }

  lemma RelaxedDims(f: NdArray, feq: NdArray, time: (int, int) -> real)
    ensures Relaxed(f, feq, time).dims == f.dims
  {
  }

  lemma StreamedDims(f: NdArray)
    ensures Streamed(f).dims == f.dims
  {
  }

  lemma MaskedSame(a: NdArray, b: NdArray, f: NdArray, fixedCell: (int, int) -> bool)
    requires Same(a, b)
    ensures Same(Masked(a, f, fixedCell), Masked(b, f, fixedCell)) && Masked(a, f, fixedCell).dims == a.dims
  {
  }

  lemma BouncedSame(a: NdArray, b: NdArray, ux: NdArray, uy: NdArray, density: real)
    requires Same(a, b) && Shaped(a, ux, uy)
    ensures Same(Bounced(a, ux, uy, density), Bounced(b, ux, uy, density))
    ensures Bounced(a, ux, uy, density).dims == a.dims
  {
    hide WallTerm;
    forall x, y, k, l | In(a.dims, x, y, k, l)
      ensures Bounced(a, ux, uy, density).at(x, y, k, l) == Bounced(b, ux, uy, density).at(x, y, k, l)
    {
      assert In(a.dims, x, y, 8 - k, l);
      assert a.at(x, y, 8 - k, l) == b.at(x, y, 8 - k, l);
    }
  }
}
