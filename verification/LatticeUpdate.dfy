/** Recomputing density, velocity and strain from the populations: one broadcast product with a
    four-dimensional table and one sum, against the direction sums they stand for. */
module LatticeUpdate {
  import opened Reals
  import opened Sums
  import opened NdArrays
  import opened Reductions
  import opened LatticeTables
  import opened LatticeArrays
  import opened LatticeBoltzmann

  function Squared(a: NdArray): NdArray
  {
    NdArray(a.dims, (i, j, k, l) => a.at(i, j, k, l) * a.at(i, j, k, l))
  }

  function RootOf(root: real -> real, a: NdArray): NdArray
  {
    NdArray(a.dims, (i, j, k, l) => root(a.at(i, j, k, l)))
  }

  function Volume(a: NdArray, l: int): NdArray
  {
    NdArray(a.dims.(d3 := 1), (i, j, k, m) => a.at(i, j, k, l))
  }

  /** A (1, 1, 9) array of direction values. */
  function Table(e: int -> real): NdArray
  {
    NdArray(Dim4(1, 1, 9, 1), (i, j, k, l) => e(k))
  }

  function MomentTable(): NdArray
  {
    Join3(Join3(Constant(1.0, Dim4(1, 1, 9, 1)), Table(Ex)), Table(Ey))
  }

  function MomentArray(f: NdArray): NdArray
  {
    SumDim2(Multiply(f, MomentTable()))
  }

  /** The three slices of the sum are the density and the two momenta. */
  lemma MomentArrayAt(f: NdArray, x: int, y: int)
    requires f.dims.d0 > 1 && f.dims.d1 > 1 && f.dims.d2 == 9 && f.dims.d3 == 1
    ensures MomentArray(f).at(x, y, 0, 0) == Sum(9, Cell(f, x, y))
    ensures MomentArray(f).at(x, y, 0, 1) == Sum(9, Along(Ex, Cell(f, x, y)))
    ensures MomentArray(f).at(x, y, 0, 2) == Sum(9, Along(Ey, Cell(f, x, y)))
  {
    hide Sum;
    var product := Multiply(f, MomentTable());
    assert product.dims.d2 == 9;
    SumExt(9, Line2(product, x, y, 0), Cell(f, x, y));
    SumExt(9, Line2(product, x, y, 1), Along(Ex, Cell(f, x, y)));
    SumExt(9, Line2(product, x, y, 2), Along(Ey, Cell(f, x, y)));
  }

  // ----- Strain

  function StrainTable(root2: real): NdArray
  {
    Join3(Join3(Multiply(Table(Ex), Table(Ex)), Scaled(Multiply(Table(Ex), Table(Ey)), root2)),
          Multiply(Table(Ey), Table(Ey)))
  }

  function Strain(root: real -> real, product: NdArray): NdArray
  {
    RootOf(root, SumDim3(Squared(SumDim2(Multiply(product, StrainTable(root(2.0)))))))
  }

  function TimesBoth(d: int -> real, e: int -> real): int -> real
  {
    i => d(i) * e(i)
  }

  /** The squared strain of a cell: xx^2 + 2 xy^2 + yy^2. */
  ghost function SquaredStrain(cell: int -> real): real
  {
    var xx := Sum(9, Along(TimesBoth(Ex, Ex), cell));
    var xy := Sum(9, Along(TimesBoth(Ex, Ey), cell));
    var yy := Sum(9, Along(TimesBoth(Ey, Ey), cell));
    xx * xx + xy * xy * 2.0 + yy * yy
  }

  lemma StrainSliceAt(product: NdArray, root2: real, x: int, y: int)
    requires product.dims.d0 > 1 && product.dims.d1 > 1 && product.dims.d2 == 9 && product.dims.d3 == 1
    ensures var s := SumDim2(Multiply(product, StrainTable(root2)));
      && s.dims.d3 == 3
      && s.at(x, y, 0, 0) == Sum(9, Along(TimesBoth(Ex, Ex), Cell(product, x, y)))
      && s.at(x, y, 0, 1) == root2 * Sum(9, Along(TimesBoth(Ex, Ey), Cell(product, x, y)))
      && s.at(x, y, 0, 2) == Sum(9, Along(TimesBoth(Ey, Ey), Cell(product, x, y)))
  {
    hide Sum, Ex, Ey;
    var m := Multiply(product, StrainTable(root2));
    var cell := Cell(product, x, y);
    assert m.dims.d2 == 9;
    SumExt(9, Line2(m, x, y, 0), Along(TimesBoth(Ex, Ex), cell));
    forall i | 0 <= i < 9 ensures Line2(m, x, y, 1)(i) == root2 * Along(TimesBoth(Ex, Ey), cell)(i) {
      assert Line2(m, x, y, 1)(i) == cell(i) * (Ex(i) * Ey(i) * root2);
    }
    SumScale(9, root2, Along(TimesBoth(Ex, Ey), cell), Line2(m, x, y, 1));
    SumExt(9, Line2(m, x, y, 2), Along(TimesBoth(Ey, Ey), cell));
  }

  lemma Sum3(f: int -> real)
    ensures Sum(3, f) == f(0) + f(1) + f(2)
  {
  }

  lemma RootTwo(root2: real, s: real)
    requires root2 * root2 == 2.0
    ensures (root2 * s) * (root2 * s) == s * s * 2.0
  {
    assert (root2 * s) * (root2 * s) == (root2 * root2) * (s * s);
  }

  /** The strain array computes the root of xx^2 + 2 xy^2 + yy^2 in every cell, which is not negative. */
  lemma StrainAt(root: real -> real, product: NdArray, x: int, y: int)
    requires IsRoot(root)
    requires product.dims.d0 > 1 && product.dims.d1 > 1 && product.dims.d2 == 9 && product.dims.d3 == 1
    ensures Strain(root, product).at(x, y, 0, 0) == root(SquaredStrain(Cell(product, x, y)))
    ensures Strain(root, product).at(x, y, 0, 0) >= 0.0
  {
    hide Sum;
    var s := SumDim2(Multiply(product, StrainTable(root(2.0))));
    StrainSliceAt(product, root(2.0), x, y);
    RootTwo(root(2.0), Sum(9, Along(TimesBoth(Ex, Ey), Cell(product, x, y))));
    Sum3(Line3(Squared(s), x, y, 0));
    assert SumDim3(Squared(s)).at(x, y, 0, 0) == SquaredStrain(Cell(product, x, y));
    SquaresNonneg(s.at(x, y, 0, 0), s.at(x, y, 0, 1), s.at(x, y, 0, 2));
  }

  lemma SquaresNonneg(a: real, b: real, c: real)
    ensures a * a + b * b + c * c >= 0.0
  {
    TimesNonneg(a, a);
    TimesNonneg(b, b);
    TimesNonneg(c, c);
  }
}
