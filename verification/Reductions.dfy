/** Sums of an array along one dimension.  When no dimension is named, the library sums along the first
    one that is longer than one. */
module Reductions {
  import opened Sums
  import opened NdArrays

  function Line0(a: NdArray, j: int, k: int, l: int): int -> real
  {
    i => a.at(i, j, k, l)
  }

  function Line1(a: NdArray, i: int, k: int, l: int): int -> real
  {
    j => a.at(i, j, k, l)
  }

  function Line2(a: NdArray, i: int, j: int, l: int): int -> real
  {
    k => a.at(i, j, k, l)
  }

  function Line3(a: NdArray, i: int, j: int, k: int): int -> real
  {
    l => a.at(i, j, k, l)
  }

  function SumDim0(a: NdArray): NdArray
  {
    NdArray(a.dims.(d0 := 1), (i, j, k, l) => Sum(a.dims.d0, Line0(a, j, k, l)))
  }

  function SumDim1(a: NdArray): NdArray
  {
    NdArray(a.dims.(d1 := 1), (i, j, k, l) => Sum(a.dims.d1, Line1(a, i, k, l)))
  }

  function SumDim2(a: NdArray): NdArray
  {
    NdArray(a.dims.(d2 := 1), (i, j, k, l) => Sum(a.dims.d2, Line2(a, i, j, l)))
  }

  function SumDim3(a: NdArray): NdArray
  {
    NdArray(a.dims.(d3 := 1), (i, j, k, l) => Sum(a.dims.d3, Line3(a, i, j, k)))
  }

  /** sum(a). */
  function SumFirst(a: NdArray): NdArray
  {
    var d := a.dims;
    if d.d0 > 1 then SumDim0(a)
    else if d.d1 > 1 then SumDim1(a)
    else if d.d2 > 1 then SumDim2(a)
    else if d.d3 > 1 then SumDim3(a)
    else SumDim0(a)
  }
}
