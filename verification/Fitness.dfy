/** The search space of the genetic search, its lookup, and the selection of the fittest. */
module Fitness {
  import opened NdArrays

  /** range along a dimension. */
  function Range(d: Dim4, dim: nat): NdArray
  {
    NdArray(d, (i, j, k, l) => (if dim == 0 then i else j) as real)
  }

  /** A quarter of the space, mirrored along both dimensions. */
  function SearchSpace(n: nat): NdArray
  {
    var d := Dim4(n / 2, n / 2, 1, 1);
    var quarter := Plus(Range(d, 0), Range(d, 1));
    var half := Join0(quarter, Flip0(quarter));
    Join1(half, Flip1(half))
  }

  function Min(x: int, y: int): int
  {
    if y < x then y else x
  }

  /** The objective function. */
  function Objective(n: nat, x: nat, y: nat): int
  {
    Min(x, n - (x + 1)) + Min(y, n - (y + 1))
  }

  function Lookup(space: NdArray, n: nat, x: nat, y: nat): real
  {
    ElementAt(space, y * n + x)
  }

  /** For even n the mirrored space has n rows and n columns and holds the objective function. */
  lemma SpaceIsObjective(n: nat, x: nat, y: nat)
    requires n % 2 == 0 && x < n && y < n
    ensures SearchSpace(n).dims == Dim4(n, n, 1, 1)
    ensures SearchSpace(n).at(x, y, 0, 0) == Objective(n, x, y) as real
  {
  }

  /** Linear indexing finds the value of the objective at the sample. */
  lemma LookupIsObjective(n: nat, x: nat, y: nat)
    requires n % 2 == 0 && x < n && y < n
    ensures Lookup(SearchSpace(n), n, x, y) == Objective(n, x, y) as real
  {
    SpaceIsObjective(n, x, y);
    assert Linear(SearchSpace(n).dims, x, y, 0, 0) == y * n + x;
    ElementAtLinear(SearchSpace(n), x, y, 0, 0);
  }

  // ----- Sorting with indices

  /** The place of a new value among sorted indices, after equal values. */
  function Place(z: seq<real>, sorted: seq<nat>, x: real): (p: nat)
    requires forall i | 0 <= i < |sorted| :: sorted[i] < |z|
    ensures p <= |sorted|
    ensures p > 0 ==> z[sorted[p - 1]] <= x
    ensures forall i | p <= i < |sorted| :: z[sorted[i]] > x
  {
    if sorted == [] then 0
    else if z[sorted[|sorted| - 1]] <= x then |sorted|
    else Place(z, sorted[..|sorted| - 1], x)
  }

  ghost predicate Ascending(z: seq<real>, sorted: seq<nat>)
    requires forall i | 0 <= i < |sorted| :: sorted[i] < |z|
  {
    forall i, j | 0 <= i <= j < |sorted| :: z[sorted[i]] <= z[sorted[j]]
  }

  /** Every index below n once. */
  ghost predicate Permutation(p: seq<nat>, n: nat)
  {
    && |p| == n
    && (forall i | 0 <= i < n :: p[i] < n)
    && (forall i, j | 0 <= i < j < n :: p[i] != p[j])
    && (forall v: nat | v < n :: v in p)
  }

  lemma InsertPermutation(before: seq<nat>, n: nat, p: nat)
    requires n > 0 && Permutation(before, n - 1) && p <= |before|
    ensures Permutation(before[..p] + [n - 1] + before[p..], n)
  {
    var after := before[..p] + [n - 1] + before[p..];
    assert forall i | 0 <= i < n :: after[i] == if i < p then before[i] else if i == p then n - 1 else before[i - 1];
    forall v: nat | v < n ensures v in after {
      if v == n - 1 {
        assert after[p] == v;
      } else {
        assert v in before;
        var i :| 0 <= i < |before| && before[i] == v;
        assert after[if i < p then i else i + 1] == v;
      }
    }
  }

  lemma InsertAscending(z: seq<real>, before: seq<nat>, n: nat, p: nat)
    requires 0 < n <= |z| && Permutation(before, n - 1) && Ascending(z, before)
    requires p <= |before| && (p > 0 ==> z[before[p - 1]] <= z[n - 1])
    requires forall i | p <= i < |before| :: z[before[i]] > z[n - 1]
    ensures var after := before[..p] + [n - 1] + before[p..];
      (forall i | 0 <= i < |after| :: after[i] < |z|) && Ascending(z, after)
  {
    var after := before[..p] + [n - 1] + before[p..];
    forall i | 0 <= i < p ensures z[before[i]] <= z[n - 1] {
      assert z[before[i]] <= z[before[p - 1]];
    }
    forall i, j | 0 <= i <= j < |after| ensures z[after[i]] <= z[after[j]] {
    }
  }

  /** The indices that sort z in ascending order. */
  function SortIndices(z: seq<real>, n: nat): (sorted: seq<nat>)
    requires n <= |z|
    ensures Permutation(sorted, n) && Ascending(z, sorted)
  {
    if n == 0 then []
    else
      var before := SortIndices(z, n - 1);
      var p := Place(z, before, z[n - 1]);
      InsertPermutation(before, n, p);
      InsertAscending(z, before, n, p);
      before[..p] + [n - 1] + before[p..]
  }

  /** The indices of the fitter half. */
  function SelectFittest(z: seq<real>, nSamples: nat): (selection: seq<nat>)
    requires nSamples <= |z|
    ensures |selection| == if |z| > nSamples / 2 then nSamples / 2 else |z|
    ensures forall i | 0 <= i < |selection| :: selection[i] < |z|
  {
    var indices := SortIndices(z, |z|);
    var topFitElem := nSamples / 2;
    if |indices| > topFitElem then indices[|indices| - topFitElem..] else indices
  }

  /** Every selected sample is at least as fit as every other one, and none is selected twice. */
  lemma SelectedDominate(z: seq<real>, nSamples: nat)
    requires nSamples <= |z|
    ensures var s := SelectFittest(z, nSamples);
      && (forall i: nat, j | i < |z| && i !in s && j in s :: z[i] <= z[j])
      && (forall i, j | 0 <= i < j < |s| :: s[i] != s[j])
  {
    hide SortIndices;
    var indices := SortIndices(z, |z|);
    var s := SelectFittest(z, nSamples);
    assert forall b | 0 <= b < |s| :: s[b] == indices[b + |indices| - |s|];
    forall i: nat, j | i < |z| && i !in s && j in s ensures z[i] <= z[j] {
      assert i in indices;
      var a :| 0 <= a < |indices| && indices[a] == i;
      var b :| 0 <= b < |s| && s[b] == j;
      if a >= |indices| - |s| {
        assert false;
      }
    }
  }
}
