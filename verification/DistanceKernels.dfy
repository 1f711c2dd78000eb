/** Six ways to compute the matrix of summed absolute differences between the columns of two arrays.  Two
    agree always; the others sum without naming a dimension, which goes wrong for columns of length one. */
module DistanceKernels {
  import opened Reals
  import opened Sums
  import opened NdArrays
  import opened Reductions

  function Differences(a: NdArray, b: NdArray, ii: int, jj: int): int -> real
  {
    kk => Abs(a.at(kk, ii, 0, 0) - b.at(kk, jj, 0, 0))
  }

  /** Distance of column ii of a and column jj of b. */
  function Distance(a: NdArray, b: NdArray, ii: int, jj: int): real
  {
    Sum(a.dims.d0, Differences(a, b, ii, jj))
  }

  function DistanceMatrix(a: NdArray, b: NdArray): NdArray
  {
    NdArray(Dim4(a.dims.d1, b.dims.d1, 1, 1), (i, j, k, l) => Distance(a, b, i, j))
  }

  /** Two matrices with columns of the same length. */
  predicate Matching(a: NdArray, b: NdArray)
  {
    && a.dims.d0 > 0 && a.dims.d1 > 0 && b.dims.d1 > 0
    && a.dims == Dim4(a.dims.d0, a.dims.d1, 1, 1)
    && b.dims == Dim4(a.dims.d0, b.dims.d1, 1, 1)
  }

  // ----- Library operations

  function SetCell(m: NdArray, ii: int, jj: int, value: real): NdArray
  {
    NdArray(m.dims, (i, j, k, l) => if i == ii && j == jj then value else m.at(i, j, k, l))
  }

  /** m(span, jj) = the column c, or the single value c in every row. */
  function SetColumn(m: NdArray, jj: int, c: NdArray): NdArray
  {
    NdArray(m.dims, (i, j, k, l) => if j == jj then c.at(Stretch(i, c.dims.d0), 0, k, l) else m.at(i, j, k, l))
  }

  function Column(a: NdArray, ii: nat): NdArray
  {
    NdArray(a.dims.(d1 := 1), (i, j, k, l) => a.at(i, ii + j, k, l))
  }

  lemma AbsMinusAt(a: NdArray, b: NdArray, i: int, j: int, k: int, l: int)
    ensures AbsMinus(a, b).at(i, j, k, l) ==
      Abs(a.at(Stretch(i, a.dims.d0), Stretch(j, a.dims.d1), Stretch(k, a.dims.d2), Stretch(l, a.dims.d3))
          - b.at(Stretch(i, b.dims.d0), Stretch(j, b.dims.d1), Stretch(k, b.dims.d2), Stretch(l, b.dims.d3)))
  {
  }

  /** Indexing columns by the iterator of a parallel loop puts the iterations along the last dimension. */
  function ParallelColumns(a: NdArray): NdArray
  {
    NdArray(Dim4(a.dims.d0, 1, 1, a.dims.d1), (i, j, k, l) => a.at(i, l, 0, 0))
  }

  /** m(ii, jj) = s for all iterations ii at once; a single value goes to every one. */
  function SetParallelColumn(m: NdArray, jj: int, s: NdArray): NdArray
  {
    NdArray(m.dims, (i, j, k, l) => if j == jj then s.at(0, 0, 0, Stretch(i, s.dims.d3)) else m.at(i, j, k, l))
  }

  function SetParallelRow(m: NdArray, ii: int, s: NdArray): NdArray
  {
    NdArray(m.dims, (i, j, k, l) => if i == ii then s.at(0, 0, 0, Stretch(j, s.dims.d3)) else m.at(i, j, k, l))
  }

  // ----- Columns of length one

  function OverA(a: NdArray, b: NdArray, jj: int): int -> real
  {
    ii => Distance(a, b, ii, jj)
  }

  function OverB(a: NdArray, b: NdArray, ii: int): int -> real
  {
    jj => Distance(a, b, ii, jj)
  }

  /** The matrix computed with all columns of a at once: columns of length one leave the columns themselves
      as the first dimension to sum along. */
  function SummedOverA(a: NdArray, b: NdArray): NdArray
  {
    NdArray(Dim4(a.dims.d1, b.dims.d1, 1, 1), (i, j, k, l) =>
      if a.dims.d0 == 1 then Sum(a.dims.d1, OverA(a, b, j)) else Distance(a, b, i, j))
  }

  /** ... and with all columns of b at once. */
  function SummedOverB(a: NdArray, b: NdArray): NdArray
  {
    NdArray(Dim4(a.dims.d1, b.dims.d1, 1, 1), (i, j, k, l) =>
      if a.dims.d0 == 1 then Sum(b.dims.d1, OverB(a, b, i)) else Distance(a, b, i, j))
  }

  /** Both arrays hold one and the same value throughout. */
  ghost predicate Flat(a: NdArray, b: NdArray)
  {
    forall i, j | 0 <= i < a.dims.d1 && 0 <= j < b.dims.d1 :: a.at(0, i, 0, 0) == b.at(0, j, 0, 0)
  }

  lemma OneFeature(a: NdArray, b: NdArray, ii: int, jj: int)
    requires a.dims.d0 == 1
    ensures Distance(a, b, ii, jj) == Abs(a.at(0, ii, 0, 0) - b.at(0, jj, 0, 0))
  {
    assert Sum(0, Differences(a, b, ii, jj)) == 0.0;
  }

  /** A sum equal to each of its two or more terms is zero. */
  lemma SumOfEqualTerms(n: nat, f: int -> real, s: real)
    requires n > 1 && s == Sum(n, f) && forall i | 0 <= i < n :: f(i) == s
    ensures s == 0.0
  {
    SumConst(n, s, f);
    assert (n as real - 1.0) * s == 0.0;
  }

  ghost predicate ZeroDistances(a: NdArray, b: NdArray)
  {
    forall i, j | 0 <= i < a.dims.d1 && 0 <= j < b.dims.d1 :: Distance(a, b, i, j) == 0.0
  }

  lemma FlatIffZero(a: NdArray, b: NdArray)
    requires a.dims.d0 == 1
    ensures Flat(a, b) <==> ZeroDistances(a, b)
  {
    hide Sum, Distance;
    forall i, j | 0 <= i < a.dims.d1 && 0 <= j < b.dims.d1
      ensures Distance(a, b, i, j) == 0.0 <==> a.at(0, i, 0, 0) == b.at(0, j, 0, 0)
    {
      OneFeature(a, b, i, j);
    }
  }

  /** Summing over the columns of a gives the distances exactly for longer columns, for a single column of a,
      and for arrays of one value. */
  lemma OverAIsDistanceIff(a: NdArray, b: NdArray)
    requires Matching(a, b)
    ensures Same(SummedOverA(a, b), DistanceMatrix(a, b)) <==> a.dims.d0 > 1 || a.dims.d1 == 1 || Flat(a, b)
  {
    hide Distance, Sum;
    var m := SummedOverA(a, b);
    if a.dims.d0 == 1 {
      FlatIffZero(a, b);
      if a.dims.d1 == 1 {
        forall j ensures Sum(1, OverA(a, b, j)) == Distance(a, b, 0, j) {
          SumSingle(OverA(a, b, j));
        }
      } else if ZeroDistances(a, b) {
        forall j | 0 <= j < b.dims.d1 ensures Sum(a.dims.d1, OverA(a, b, j)) == 0.0 {
          SumZero(a.dims.d1, OverA(a, b, j));
        }
      } else if Same(m, DistanceMatrix(a, b)) {
        forall i, j | 0 <= i < a.dims.d1 && 0 <= j < b.dims.d1 ensures Distance(a, b, i, j) == 0.0 {
          forall k | 0 <= k < a.dims.d1 ensures OverA(a, b, j)(k) == Sum(a.dims.d1, OverA(a, b, j)) {
            assert m.at(k, j, 0, 0) == DistanceMatrix(a, b).at(k, j, 0, 0);
          }
          SumOfEqualTerms(a.dims.d1, OverA(a, b, j), Sum(a.dims.d1, OverA(a, b, j)));
          assert OverA(a, b, j)(i) == 0.0;
        }
        assert false;
      }
    }
  }

  lemma OverBIsDistanceIff(a: NdArray, b: NdArray)
    requires Matching(a, b)
    ensures Same(SummedOverB(a, b), DistanceMatrix(a, b)) <==> a.dims.d0 > 1 || b.dims.d1 == 1 || Flat(a, b)
  {
    hide Distance, Sum;
    var m := SummedOverB(a, b);
    if a.dims.d0 == 1 {
      FlatIffZero(a, b);
      if b.dims.d1 == 1 {
        forall i ensures Sum(1, OverB(a, b, i)) == Distance(a, b, i, 0) {
          SumSingle(OverB(a, b, i));
        }
      } else if ZeroDistances(a, b) {
        forall i | 0 <= i < a.dims.d1 ensures Sum(b.dims.d1, OverB(a, b, i)) == 0.0 {
          SumZero(b.dims.d1, OverB(a, b, i));
        }
      } else if Same(m, DistanceMatrix(a, b)) {
        forall i, j | 0 <= i < a.dims.d1 && 0 <= j < b.dims.d1 ensures Distance(a, b, i, j) == 0.0 {
          forall k | 0 <= k < b.dims.d1 ensures OverB(a, b, i)(k) == Sum(b.dims.d1, OverB(a, b, i)) {
            assert m.at(i, k, 0, 0) == DistanceMatrix(a, b).at(i, k, 0, 0);
          }
          SumOfEqualTerms(b.dims.d1, OverB(a, b, i), Sum(b.dims.d1, OverB(a, b, i)));
          assert OverB(a, b, i)(j) == 0.0;
        }
        assert false;
      }
    }
  }

  lemma SumSingle(f: int -> real)
    ensures Sum(1, f) == f(0)
  {
    assert Sum(0, f) == 0.0;
  }

  /** The numbers 0 and 1 against the number 0: the distances are 0 and 1, the computed column is 1 and 1. */
  lemma OneFeatureGoesWrong()
    ensures var a := NdArray(Dim4(1, 2, 1, 1), (i, j, k, l) => j as real);
            var b := Constant(0.0, Dim4(1, 1, 1, 1));
            Matching(a, b) && !Same(SummedOverA(a, b), DistanceMatrix(a, b))
  {
    var a := NdArray(Dim4(1, 2, 1, 1), (i, j, k, l) => j as real);
    var b := Constant(0.0, Dim4(1, 1, 1, 1));
    OverAIsDistanceIff(a, b);
    assert a.at(0, 1, 0, 0) != b.at(0, 0, 0, 0);
  }

  // ----- Distances through the library operations

  lemma SumIsDistance(a: NdArray, b: NdArray, d: NdArray, j: int, k: int, l: int, ii: int, jj: int)
    requires d.dims.d0 == a.dims.d0
    requires forall i | 0 <= i < a.dims.d0 :: d.at(i, j, k, l) == Differences(a, b, ii, jj)(i)
    ensures SumDim0(d).at(0, j, k, l) == Distance(a, b, ii, jj)
  {
    hide Sum;
    SumExt(a.dims.d0, Line0(d, j, k, l), Differences(a, b, ii, jj));
  }

  lemma VectorDistance(a: NdArray, b: NdArray, ii: nat, jj: nat)
    requires Matching(a, b)
    ensures SumFirst(AbsMinus(Column(a, ii), Column(b, jj))).at(0, 0, 0, 0) == Distance(a, b, ii, jj)
  {
    var d := AbsMinus(Column(a, ii), Column(b, jj));
    forall i | 0 <= i < a.dims.d0 ensures d.at(i, 0, 0, 0) == Differences(a, b, ii, jj)(i) {
      AbsMinusAt(Column(a, ii), Column(b, jj), i, 0, 0, 0);
    }
    SumIsDistance(a, b, d, 0, 0, 0, ii, jj);
  }

  /** The matrix holds what is wanted in the cells already visited. */
  ghost predicate Filled(m: NdArray, wanted: NdArray, visited: (int, int) -> bool)
  {
    m.dims == wanted.dims
    && forall i, j | 0 <= i < m.dims.d0 && 0 <= j < m.dims.d1 && visited(i, j) ::
         m.at(i, j, 0, 0) == wanted.at(i, j, 0, 0)
  }

  /** The triple loop. */
  method DistNaive(a: NdArray, b: NdArray) returns (distMat: NdArray)
    requires Matching(a, b)
    ensures Same(distMat, DistanceMatrix(a, b))
  {
    distMat := Constant(0.0, Dim4(a.dims.d1, b.dims.d1, 1, 1));
    for ii := 0 to a.dims.d1
      invariant Filled(distMat, DistanceMatrix(a, b), (i, j) => i < ii)
      invariant forall i, j | ii <= i < a.dims.d1 && 0 <= j < b.dims.d1 :: distMat.at(i, j, 0, 0) == 0.0
    {
      for jj := 0 to b.dims.d1
        invariant Filled(distMat, DistanceMatrix(a, b), (i, j) => i < ii || (i == ii && j < jj))
        invariant forall i, j | ii < i < a.dims.d1 && 0 <= j < b.dims.d1 :: distMat.at(i, j, 0, 0) == 0.0
        invariant forall j | jj <= j < b.dims.d1 :: distMat.at(ii, j, 0, 0) == 0.0
      {
        for kk := 0 to a.dims.d0
          invariant Filled(distMat, DistanceMatrix(a, b), (i, j) => i < ii || (i == ii && j < jj))
          invariant forall i, j | ii < i < a.dims.d1 && 0 <= j < b.dims.d1 :: distMat.at(i, j, 0, 0) == 0.0
          invariant forall j | jj < j < b.dims.d1 :: distMat.at(ii, j, 0, 0) == 0.0
          invariant distMat.at(ii, jj, 0, 0) == Sum(kk, Differences(a, b, ii, jj))
        {
          distMat := SetCell(distMat, ii, jj,
                             distMat.at(ii, jj, 0, 0) + Abs(a.at(kk, ii, 0, 0) - b.at(kk, jj, 0, 0)));
        }
      }
    }
  }

  /** One vector sum per pair of columns. */
  method DistVec(a: NdArray, b: NdArray) returns (distMat: NdArray)
    requires Matching(a, b)
    ensures Same(distMat, DistanceMatrix(a, b))
  {
    distMat := Constant(0.0, Dim4(a.dims.d1, b.dims.d1, 1, 1));
    for ii := 0 to a.dims.d1
      invariant Filled(distMat, DistanceMatrix(a, b), (i, j) => i < ii)
    {
      var avec := Column(a, ii);
      for jj := 0 to b.dims.d1
        invariant Filled(distMat, DistanceMatrix(a, b), (i, j) => i < ii || (i == ii && j < jj))
      {
        var bvec := Column(b, jj);
        VectorDistance(a, b, ii, jj);
        distMat := SetCell(distMat, ii, jj, SumFirst(AbsMinus(avec, bvec)).at(0, 0, 0, 0));
      }
    }
  }

  lemma ParallelDistanceA(a: NdArray, b: NdArray, jj: nat, ii: int)
    requires Matching(a, b) && 0 <= ii < a.dims.d1
    ensures var s := SumFirst(AbsMinus(ParallelColumns(a), Column(b, jj)));
      s.at(0, 0, 0, Stretch(ii, s.dims.d3)) == SummedOverA(a, b).at(ii, jj, 0, 0)
  {
    hide Sum, Distance;
    var d := AbsMinus(ParallelColumns(a), Column(b, jj));
    forall i, l | 0 <= i < a.dims.d0 && 0 <= l < a.dims.d1 ensures d.at(i, 0, 0, l) == Differences(a, b, l, jj)(i) {
      AbsMinusAt(ParallelColumns(a), Column(b, jj), i, 0, 0, l);
    }
    if a.dims.d0 > 1 {
      SumIsDistance(a, b, d, 0, 0, ii, ii, jj);
    } else {
      forall l | 0 <= l < a.dims.d1 ensures Line3(d, 0, 0, 0)(l) == OverA(a, b, jj)(l) {
        OneFeature(a, b, l, jj);
      }
      SumExt(a.dims.d1, Line3(d, 0, 0, 0), OverA(a, b, jj));
      SumIsDistance(a, b, d, 0, 0, 0, 0, jj);
      SumSingle(OverA(a, b, jj));
    }
  }

  lemma ParallelDistanceB(a: NdArray, b: NdArray, ii: nat, jj: int)
    requires Matching(a, b) && 0 <= jj < b.dims.d1
    ensures var s := SumFirst(AbsMinus(Column(a, ii), ParallelColumns(b)));
      s.at(0, 0, 0, Stretch(jj, s.dims.d3)) == SummedOverB(a, b).at(ii, jj, 0, 0)
  {
    hide Sum, Distance;
    var d := AbsMinus(Column(a, ii), ParallelColumns(b));
    forall i, l | 0 <= i < a.dims.d0 && 0 <= l < b.dims.d1 ensures d.at(i, 0, 0, l) == Differences(a, b, ii, l)(i) {
      AbsMinusAt(Column(a, ii), ParallelColumns(b), i, 0, 0, l);
    }
    if a.dims.d0 > 1 {
      SumIsDistance(a, b, d, 0, 0, jj, ii, jj);
    } else {
      forall l | 0 <= l < b.dims.d1 ensures Line3(d, 0, 0, 0)(l) == OverB(a, b, ii)(l) {
        OneFeature(a, b, ii, l);
      }
      SumExt(b.dims.d1, Line3(d, 0, 0, 0), OverB(a, b, ii));
      SumIsDistance(a, b, d, 0, 0, 0, ii, 0);
      SumSingle(OverB(a, b, ii));
    }
  }

  /** All columns of a in parallel, the columns of b one after the other. */
  method DistGfor1(a: NdArray, b: NdArray) returns (distMat: NdArray)
    requires Matching(a, b)
    ensures Same(distMat, SummedOverA(a, b))
    ensures Same(distMat, DistanceMatrix(a, b)) <==> a.dims.d0 > 1 || a.dims.d1 == 1 || Flat(a, b)
  {
    hide SumFirst, AbsMinus, Distance;
    distMat := Constant(0.0, Dim4(a.dims.d1, b.dims.d1, 1, 1));
    var avec := ParallelColumns(a);
    for jj := 0 to b.dims.d1
      invariant Filled(distMat, SummedOverA(a, b), (i, j) => j < jj)
    {
      var bvec := Column(b, jj);
      var sad := SumFirst(AbsMinus(avec, bvec));
      forall ii | 0 <= ii < a.dims.d1
        ensures sad.at(0, 0, 0, Stretch(ii, sad.dims.d3)) == SummedOverA(a, b).at(ii, jj, 0, 0)
      {
        ParallelDistanceA(a, b, jj, ii);
      }
      distMat := SetParallelColumn(distMat, jj, sad);
    }
    OverAIsDistanceIff(a, b);
  }

  /** All columns of b in parallel, the columns of a one after the other. */
  method DistGfor2(a: NdArray, b: NdArray) returns (distMat: NdArray)
    requires Matching(a, b)
    ensures Same(distMat, SummedOverB(a, b))
    ensures Same(distMat, DistanceMatrix(a, b)) <==> a.dims.d0 > 1 || b.dims.d1 == 1 || Flat(a, b)
  {
    hide SumFirst, AbsMinus, Distance;
    distMat := Constant(0.0, Dim4(a.dims.d1, b.dims.d1, 1, 1));
    var bvec := ParallelColumns(b);
    for ii := 0 to a.dims.d1
      invariant Filled(distMat, SummedOverB(a, b), (i, j) => i < ii)
    {
      var avec := Column(a, ii);
      var sad := SumFirst(AbsMinus(avec, bvec));
      forall jj | 0 <= jj < b.dims.d1
        ensures sad.at(0, 0, 0, Stretch(jj, sad.dims.d3)) == SummedOverB(a, b).at(ii, jj, 0, 0)
      {
        ParallelDistanceB(a, b, ii, jj);
      }
      distMat := SetParallelRow(distMat, ii, sad);
    }
    OverBIsDistanceIff(a, b);
  }

  lemma AbsSymmetric(x: real, y: real)
    ensures Abs(x - y) == Abs(y - x)
  {
  }

  lemma TiledDifference(a: NdArray, b: NdArray, jj: nat, i: int, ii: int)
    requires Matching(a, b) && 0 <= ii < a.dims.d1 && 0 <= i < a.dims.d0
    ensures var d := AbsMinus(Tile(Column(b, jj), Dim4(1, a.dims.d1, 1, 1)), a);
      d.dims == a.dims && d.at(i, ii, 0, 0) == Differences(a, b, ii, jj)(i)
  {
    var tiled := Tile(Column(b, jj), Dim4(1, a.dims.d1, 1, 1));
    AbsMinusAt(tiled, a, i, ii, 0, 0);
    TileAt(Column(b, jj), Dim4(1, a.dims.d1, 1, 1), i, ii, 0, 0);
    assert Mod(i, a.dims.d0) == i && Mod(ii, 1) == 0 && Mod(0, 1) == 0;
    AbsSymmetric(a.at(i, ii, 0, 0), b.at(i, jj, 0, 0));
  }

  lemma TiledDistance(a: NdArray, b: NdArray, jj: nat, ii: int)
    requires Matching(a, b) && 0 <= ii < a.dims.d1
    ensures var c := T(SumFirst(AbsMinus(Tile(Column(b, jj), Dim4(1, a.dims.d1, 1, 1)), a)));
      c.at(Stretch(ii, c.dims.d0), 0, 0, 0) == SummedOverA(a, b).at(ii, jj, 0, 0)
  {
    hide Sum, Distance, AbsMinus, Tile;
    var d := AbsMinus(Tile(Column(b, jj), Dim4(1, a.dims.d1, 1, 1)), a);
    forall i, l | 0 <= i < a.dims.d0 && 0 <= l < a.dims.d1
      ensures d.dims == a.dims && d.at(i, l, 0, 0) == Differences(a, b, l, jj)(i)
    {
      TiledDifference(a, b, jj, i, l);
    }
    assert d.dims == a.dims by { TiledDifference(a, b, jj, 0, 0); }
    if a.dims.d0 > 1 {
      SumIsDistance(a, b, d, ii, 0, 0, ii, jj);
    } else {
      forall l | 0 <= l < a.dims.d1 ensures Line1(d, 0, 0, 0)(l) == OverA(a, b, jj)(l) {
        OneFeature(a, b, l, jj);
      }
      SumExt(a.dims.d1, Line1(d, 0, 0, 0), OverA(a, b, jj));
      SumIsDistance(a, b, d, 0, 0, 0, 0, jj);
      SumSingle(OverA(a, b, jj));
    }
  }

  /** One column of b at a time, repeated next to all columns of a. */
  method DistTile1(a: NdArray, b: NdArray) returns (distMat: NdArray)
    requires Matching(a, b)
    ensures Same(distMat, SummedOverA(a, b))
    ensures Same(distMat, DistanceMatrix(a, b)) <==> a.dims.d0 > 1 || a.dims.d1 == 1 || Flat(a, b)
  {
    hide SumFirst, AbsMinus, Distance, Tile;
    var alen, blen := a.dims.d1, b.dims.d1;
    distMat := Constant(0.0, Dim4(alen, blen, 1, 1));
    for jj := 0 to blen
      invariant Filled(distMat, SummedOverA(a, b), (i, j) => j < jj)
    {
      var bvec := Column(b, jj);
      var bvecTiled := Tile(bvec, Dim4(1, alen, 1, 1));
      var sad := SumFirst(AbsMinus(bvecTiled, a));
      forall ii | 0 <= ii < alen
        ensures T(sad).at(Stretch(ii, T(sad).dims.d0), 0, 0, 0) == SummedOverA(a, b).at(ii, jj, 0, 0)
      {
        TiledDistance(a, b, jj, ii);
      }
      distMat := SetColumn(distMat, jj, T(sad));
    }
    OverAIsDistanceIff(a, b);
  }

  function ReshapedB(b: NdArray, featLen: nat, blen: nat): (m: NdArray)
    requires b.dims == Dim4(featLen, blen, 1, 1)
    ensures m.dims == Dim4(featLen, 1, blen, 1)
  {
    ModDims(b, Dim4(featLen, 1, blen, 1))
  }

  lemma ReshapedBAt(b: NdArray, featLen: nat, blen: nat, k: int, j: int)
    requires b.dims == Dim4(featLen, blen, 1, 1) && 0 <= k < featLen && 0 <= j < blen
    ensures ReshapedB(b, featLen, blen).at(k, 0, j, 0) == b.at(k, j, 0, 0)
  {
    ModDimsAt(b, Dim4(featLen, 1, blen, 1), k, 0, j, 0, k, j, 0, 0);
  }

  /** The (featLen, alen, blen) array of differences. */
  function Cube(a: NdArray, b: NdArray): (d: NdArray)
    requires Matching(a, b)
    ensures d.dims == Dim4(a.dims.d0, a.dims.d1, b.dims.d1, 1)
  {
    var aTiled := Tile(a, Dim4(1, 1, b.dims.d1, 1));
    var bTiled := Tile(ReshapedB(b, a.dims.d0, b.dims.d1), Dim4(1, a.dims.d1, 1, 1));
    AbsMinus(aTiled, bTiled)
  }

  lemma ATiledAt(a: NdArray, blen: nat, k: int, ii: int, jj: int)
    requires a.dims == Dim4(a.dims.d0, a.dims.d1, 1, 1)
    requires 0 <= k < a.dims.d0 && 0 <= ii < a.dims.d1
    ensures Tile(a, Dim4(1, 1, blen, 1)).at(k, ii, jj, 0) == a.at(k, ii, 0, 0)
  {
    hide Tile, Mod;
    TileAt(a, Dim4(1, 1, blen, 1), k, ii, jj, 0);
    ModBelow(k, a.dims.d0);
    ModBelow(ii, a.dims.d1);
    ModBelow(jj, 1);
    ModBelow(0, 1);
  }

  lemma BTiledAt(b: NdArray, featLen: nat, blen: nat, alen: nat, k: int, ii: int, jj: int)
    requires b.dims == Dim4(featLen, blen, 1, 1) && 0 <= k < featLen && 0 <= jj < blen
    ensures Tile(ReshapedB(b, featLen, blen), Dim4(1, alen, 1, 1)).at(k, ii, jj, 0) == b.at(k, jj, 0, 0)
  {
    hide ReshapedB, Tile, Mod;
    TileAt(ReshapedB(b, featLen, blen), Dim4(1, alen, 1, 1), k, ii, jj, 0);
    ModBelow(k, featLen);
    ModBelow(jj, blen);
    ModBelow(ii, 1);
    ModBelow(0, 1);
    ReshapedBAt(b, featLen, blen, k, jj);
  }

  lemma CubeAt(a: NdArray, b: NdArray, k: int, ii: int, jj: int)
    requires Matching(a, b) && 0 <= k < a.dims.d0 && 0 <= ii < a.dims.d1 && 0 <= jj < b.dims.d1
    ensures Cube(a, b).at(k, ii, jj, 0) == Differences(a, b, ii, jj)(k)
  {
    hide ReshapedB, AbsMinus, Mod;
    var aTiled := Tile(a, Dim4(1, 1, b.dims.d1, 1));
    var bTiled := Tile(ReshapedB(b, a.dims.d0, b.dims.d1), Dim4(1, a.dims.d1, 1, 1));
    AbsMinusAt(aTiled, bTiled, k, ii, jj, 0);
    ATiledAt(a, b.dims.d1, k, ii, jj);
    BTiledAt(b, a.dims.d0, b.dims.d1, a.dims.d1, k, ii, jj);
  }

  lemma CubeSumAt(a: NdArray, b: NdArray, ii: int, jj: int)
    requires Matching(a, b) && 0 <= ii < a.dims.d1 && 0 <= jj < b.dims.d1
    ensures SumDim0(Cube(a, b)).at(0, ii, jj, 0) == Distance(a, b, ii, jj)
  {
    hide Cube;
    forall k | 0 <= k < a.dims.d0 ensures Cube(a, b).at(k, ii, jj, 0) == Differences(a, b, ii, jj)(k) {
      CubeAt(a, b, k, ii, jj);
    }
    SumIsDistance(a, b, Cube(a, b), ii, jj, 0, ii, jj);
  }

  datatype Outcome = Matrix(m: NdArray) | SizeError

  /** Both arrays repeated to three dimensions, one sum, and a change of shape to (alen, blen), which fails
      when the number of elements differs. */
  function DistTile2(a: NdArray, b: NdArray): Outcome
    requires Matching(a, b)
  {
    var distMod := SumFirst(Cube(a, b));
    var d := Dim4(a.dims.d1, b.dims.d1, 1, 1);
    if Size(distMod.dims) == Size(d) then Matrix(ModDims(distMod, d)) else SizeError
  }

  lemma LongerPair(m: nat, n: nat)
    requires m > 1 && n > 0
    ensures m * n > n
  {
  }

  /** Columns of length one leave the wrong number of elements, unless there is a single pair of them ... */
  lemma DistTile2Fails(a: NdArray, b: NdArray)
    requires Matching(a, b)
    ensures DistTile2(a, b).SizeError? <==> a.dims.d0 == 1 && (a.dims.d1 > 1 || b.dims.d1 > 1)
  {
    hide Cube;
    if a.dims.d0 == 1 && a.dims.d1 > 1 {
      assert SumFirst(Cube(a, b)).dims == Dim4(1, 1, b.dims.d1, 1);
      LongerPair(a.dims.d1, b.dims.d1);
    }
  }

  /** ... and otherwise the change of shape from (1, alen, blen) puts the distance of column ii and column jj
      in cell (ii, jj). */
  lemma DistTile2IsDistance(a: NdArray, b: NdArray)
    requires Matching(a, b) && DistTile2(a, b).Matrix?
    ensures Same(DistTile2(a, b).m, DistanceMatrix(a, b))
  {
    hide Distance, ElementAt, Cube;
    DistTile2Fails(a, b);
    forall i, j, k, l | In(DistanceMatrix(a, b).dims, i, j, k, l)
      ensures DistTile2(a, b).m.at(i, j, k, l) == DistanceMatrix(a, b).at(i, j, k, l)
    {
      var sums, d := SumDim0(Cube(a, b)), Dim4(a.dims.d1, b.dims.d1, 1, 1);
      assert DistTile2(a, b) == Matrix(ModDims(sums, d));
      ModDimsAt(sums, d, i, j, 0, 0, 0, i, j, 0);
      CubeSumAt(a, b, i, j);
    }
  }
}
