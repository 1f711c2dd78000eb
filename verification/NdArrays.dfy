/** Arrays of up to four dimensions.  An array is its shape and its element function; the storage order
    is column-major, and only a change of shape depends on it. */
module NdArrays {
  import opened Reals

  datatype Dim4 = Dim4(d0: nat, d1: nat, d2: nat, d3: nat)

  datatype NdArray = NdArray(dims: Dim4, at: (int, int, int, int) -> real)

  function Size(d: Dim4): nat
  {
    d.d0 * d.d1 * d.d2 * d.d3
  }

  predicate In(d: Dim4, i: int, j: int, k: int, l: int)
  {
    0 <= i < d.d0 && 0 <= j < d.d1 && 0 <= k < d.d2 && 0 <= l < d.d3
  }

  /** Equal shapes and equal elements. */
  ghost predicate Same(a: NdArray, b: NdArray)
  {
    a.dims == b.dims && forall i, j, k, l | In(a.dims, i, j, k, l) :: a.at(i, j, k, l) == b.at(i, j, k, l)
  }

  function Constant(value: real, d: Dim4): NdArray
  {
    NdArray(d, (i, j, k, l) => value)
  }

  /** Repeats the array along every dimension. */
  function Tile(a: NdArray, n: Dim4): NdArray
  {
    NdArray(Dim4(a.dims.d0 * n.d0, a.dims.d1 * n.d1, a.dims.d2 * n.d2, a.dims.d3 * n.d3),
            (i, j, k, l) => a.at(Mod(i, a.dims.d0), Mod(j, a.dims.d1), Mod(k, a.dims.d2), Mod(l, a.dims.d3)))
  }

  lemma TileAt(a: NdArray, n: Dim4, i: int, j: int, k: int, l: int)
    ensures Tile(a, n).at(i, j, k, l)
         == a.at(Mod(i, a.dims.d0), Mod(j, a.dims.d1), Mod(k, a.dims.d2), Mod(l, a.dims.d3))
  {
  }

  function Mod(i: int, n: nat): int
  {
    if n == 0 then 0 else i % n
  }

  lemma ModBelow(i: int, n: nat)
    ensures 0 <= i < n ==> Mod(i, n) == i
    ensures Mod(i, 1) == 0
  {
  }

  function Div(i: int, n: nat): int
  {
    if n == 0 then 0 else i / n
  }

  /** Exchanges the first two dimensions. */
  function T(a: NdArray): NdArray
  {
    NdArray(Dim4(a.dims.d1, a.dims.d0, a.dims.d2, a.dims.d3), (i, j, k, l) => a.at(j, i, k, l))
  }

  function Rows(a: NdArray, first: nat, last: int): NdArray
    requires first <= last < a.dims.d0
  {
    NdArray(a.dims.(d0 := last - first + 1), (i, j, k, l) => a.at(first + i, j, k, l))
  }

  function Cols(a: NdArray, first: nat, last: int): NdArray
    requires first <= last < a.dims.d1
  {
    NdArray(a.dims.(d1 := last - first + 1), (i, j, k, l) => a.at(i, first + j, k, l))
  }

  /** Position of an element in column-major order. */
  function Linear(d: Dim4, i: int, j: int, k: int, l: int): int
  {
    i + d.d0 * (j + d.d1 * (k + d.d2 * l))
  }

  /** The element at a position of the column-major order. */
  function ElementAt(a: NdArray, p: int): real
  {
    var q := Div(p, a.dims.d0);
    var r := Div(q, a.dims.d1);
    a.at(Mod(p, a.dims.d0), Mod(q, a.dims.d1), Mod(r, a.dims.d2), Div(r, a.dims.d2))
  }

  /** The same elements in the same linear order, under another shape. */
  function ModDims(a: NdArray, d: Dim4): NdArray
    requires Size(a.dims) == Size(d)
  {
    NdArray(d, (i, j, k, l) => ElementAt(a, Linear(d, i, j, k, l)))
  }

  /** Circular shift along the first two dimensions. */
  function Shift(a: NdArray, x: int, y: int): NdArray
  {
    NdArray(a.dims, (i, j, k, l) => a.at(Mod(i - x, a.dims.d0), Mod(j - y, a.dims.d1), k, l))
  }

  // ----- Elementwise operations; an extent of one is repeated to match the other array

  function Stretch(i: int, n: nat): int
  {
    if n == 1 then 0 else i
  }

  function Wide(m: nat, n: nat): nat
  {
    if m == 1 then n else m
  }

  function WideDims(a: Dim4, b: Dim4): Dim4
  {
    Dim4(Wide(a.d0, b.d0), Wide(a.d1, b.d1), Wide(a.d2, b.d2), Wide(a.d3, b.d3))
  }

  function Stretched(a: NdArray, i: int, j: int, k: int, l: int): real
  {
    a.at(Stretch(i, a.dims.d0), Stretch(j, a.dims.d1), Stretch(k, a.dims.d2), Stretch(l, a.dims.d3))
  }

  function Multiply(a: NdArray, b: NdArray): NdArray
  {
    NdArray(WideDims(a.dims, b.dims), (i, j, k, l) => Stretched(a, i, j, k, l) * Stretched(b, i, j, k, l))
  }

  function Divide(a: NdArray, b: NdArray): NdArray
  {
    NdArray(WideDims(a.dims, b.dims), (i, j, k, l) => Quotient(Stretched(a, i, j, k, l), Stretched(b, i, j, k, l)))
  }

  /** abs(a - b). */
  function AbsMinus(a: NdArray, b: NdArray): NdArray
  {
    NdArray(WideDims(a.dims, b.dims), (i, j, k, l) => Abs(Stretched(a, i, j, k, l) - Stretched(b, i, j, k, l)))
  }

  function Minus(a: NdArray, b: NdArray): NdArray
  {
    NdArray(a.dims, (i, j, k, l) => a.at(i, j, k, l) - b.at(i, j, k, l))
  }

  function Plus(a: NdArray, b: NdArray): NdArray
  {
    NdArray(a.dims, (i, j, k, l) => a.at(i, j, k, l) + b.at(i, j, k, l))
  }

  function Scaled(a: NdArray, c: real): NdArray
  {
    NdArray(a.dims, (i, j, k, l) => a.at(i, j, k, l) * c)
  }

  function Flip0(a: NdArray): NdArray
  {
    NdArray(a.dims, (i, j, k, l) => a.at(a.dims.d0 - 1 - i, j, k, l))
  }

  function Flip1(a: NdArray): NdArray
  {
    NdArray(a.dims, (i, j, k, l) => a.at(i, a.dims.d1 - 1 - j, k, l))
  }

  function Join0(a: NdArray, b: NdArray): NdArray
  {
    NdArray(a.dims.(d0 := a.dims.d0 + b.dims.d0),
            (i, j, k, l) => if i < a.dims.d0 then a.at(i, j, k, l) else b.at(i - a.dims.d0, j, k, l))
  }

  function Join1(a: NdArray, b: NdArray): NdArray
  {
    NdArray(a.dims.(d1 := a.dims.d1 + b.dims.d1),
            (i, j, k, l) => if j < a.dims.d1 then a.at(i, j, k, l) else b.at(i, j - a.dims.d1, k, l))
  }

  function Join3(a: NdArray, b: NdArray): NdArray
  {
    NdArray(a.dims.(d3 := a.dims.d3 + b.dims.d3),
            (i, j, k, l) => if l < a.dims.d3 then a.at(i, j, k, l) else b.at(i, j, k, l - a.dims.d3))
  }

  // ----- Positions

  /** The element at the position of an index is the element at that index. */
  lemma ElementAtLinear(a: NdArray, i: int, j: int, k: int, l: int)
    requires In(a.dims, i, j, k, l)
    ensures ElementAt(a, Linear(a.dims, i, j, k, l)) == a.at(i, j, k, l)
  {
    var d := a.dims;
    var r := k + d.d2 * l;
    var q := j + d.d1 * r;
    DivModUnique(i + d.d0 * q, d.d0, q, i);
    DivModUnique(q, d.d1, r, j);
    DivModUnique(r, d.d2, l, k);
  }

  /** A change of shape moves each element to the index with the same position. */
  lemma ModDimsAt(a: NdArray, d: Dim4, i: int, j: int, k: int, l: int, i': int, j': int, k': int, l': int)
    requires Size(a.dims) == Size(d) && In(a.dims, i', j', k', l')
    requires Linear(d, i, j, k, l) == Linear(a.dims, i', j', k', l')
    ensures ModDims(a, d).at(i, j, k, l) == a.at(i', j', k', l')
  {
    ElementAtLinear(a, i', j', k', l');
  }
}
