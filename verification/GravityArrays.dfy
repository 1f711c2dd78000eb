/** The pairwise arrays of the gravity step, and the momenta of a set of particles. */
module GravityArrays {
  import opened Reals
  import opened Sums
  import opened NdArrays

  const MIN_DIST := 3.0
  const GRAVITY := 20000.0

  function Column(n: nat): Dim4
  {
    Dim4(n, 1, 1, 1)
  }

  function Entry(a: NdArray, i: int): real
  {
    a.at(i, 0, 0, 0)
  }

  /** a + b c. */
  function PlusScaled(a: NdArray, b: NdArray, c: real): NdArray
  {
    NdArray(a.dims, (i, j, k, l) => a.at(i, j, k, l) + b.at(i, j, k, l) * c)
  }

  function PlusSquare(a: NdArray, b: NdArray): NdArray
  {
    NdArray(a.dims, (i, j, k, l) => a.at(i, j, k, l) + b.at(i, j, k, l) * b.at(i, j, k, l))
  }

  function AtLeast(x: real, low: real): real
  {
    if x < low then low else x
  }

  function Softened(root: real -> real, a: NdArray): NdArray
  {
    NdArray(a.dims, (i, j, k, l) => AtLeast(root(a.at(i, j, k, l)), MIN_DIST))
  }

  function Cubed(a: NdArray): NdArray
  {
    NdArray(a.dims, (i, j, k, l) => a.at(i, j, k, l) * (a.at(i, j, k, l) * a.at(i, j, k, l)))
  }

  function Over(a: NdArray, b: NdArray): NdArray
  {
    NdArray(a.dims, (i, j, k, l) => Quotient(a.at(i, j, k, l), b.at(i, j, k, l)))
  }

  function Products(a: NdArray, v: NdArray, i: int): int -> real
  {
    b => a.at(i, b, 0, 0) * Entry(v, b)
  }

  /** Matrix times column. */
  function MatMul(a: NdArray, v: NdArray): NdArray
  {
    NdArray(Column(a.dims.d0), (i, j, k, l) => Sum(a.dims.d1, Products(a, v, i)))
  }

  /** Entry (a, b) is the coordinate of a less the coordinate of b. */
  function Differences(p: NdArray): NdArray
  {
    var t := Tile(p, Dim4(1, p.dims.d0, 1, 1));
    Minus(t, T(t))
  }

  lemma DifferencesAt(p: NdArray, a: int, b: int)
    requires p.dims == Column(p.dims.d0) && 0 <= a < p.dims.d0 && 0 <= b < p.dims.d0
    ensures Differences(p).at(a, b, 0, 0) == Entry(p, a) - Entry(p, b)
    ensures Differences(p).dims == Dim4(p.dims.d0, p.dims.d0, 1, 1)
  {
    hide Mod;
    var n := p.dims.d0;
    TileAt(p, Dim4(1, n, 1, 1), a, b, 0, 0);
    TileAt(p, Dim4(1, n, 1, 1), b, a, 0, 0);
    ModBelow(a, n);
    ModBelow(b, n);
    ModBelow(0, 1);
  }

  // ----- What the step computes, particle by particle

  /** Squared distance over the first d coordinates. */
  function Distance2(pos: seq<NdArray>, d: nat, a: int, b: int): real
    requires d <= |pos|
  {
    if d == 0 then 0.0
    else
      var diff := Entry(pos[d - 1], a) - Entry(pos[d - 1], b);
      Distance2(pos, d - 1, a, b) + diff * diff
  }

  /** The cube of the softened distance. */
  function Weight(root: real -> real, pos: seq<NdArray>, a: int, b: int): real
  {
    var s := AtLeast(root(Distance2(pos, |pos|, a, b)), MIN_DIST);
    s * (s * s)
  }

  /** The pull of b on a along coordinate p, per unit of gravity. */
  function Pull(root: real -> real, pos: seq<NdArray>, mass: NdArray, p: NdArray, a: int): int -> real
  {
    b => Quotient(Entry(p, b) - Entry(p, a), Weight(root, pos, b, a)) * Entry(mass, b)
  }

  function Force(root: real -> real, pos: seq<NdArray>, mass: NdArray, p: NdArray, n: nat, a: int): real
  {
    Sum(n, Pull(root, pos, mass, p, a)) * GRAVITY
  }

  lemma {:induction false} Distance2Symmetric(pos: seq<NdArray>, d: nat, a: int, b: int)
    requires d <= |pos|
    ensures Distance2(pos, d, a, b) == Distance2(pos, d, b, a)
  {
    if d > 0 {
      Distance2Symmetric(pos, d - 1, a, b);
    }
  }

  lemma WeightSymmetric(root: real -> real, pos: seq<NdArray>, a: int, b: int)
    ensures Weight(root, pos, a, b) == Weight(root, pos, b, a)
  {
    Distance2Symmetric(pos, |pos|, a, b);
  }

  lemma WeightPositive(root: real -> real, pos: seq<NdArray>, a: int, b: int)
    ensures Weight(root, pos, a, b) > 0.0
  {
    var s := AtLeast(root(Distance2(pos, |pos|, a, b)), MIN_DIST);
    TimesPositive(s, s);
    TimesPositive(s, Times(s, s));
  }
}
