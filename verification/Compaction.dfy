/** Selecting the marked entries of parallel arrays, and scattering rows back by their original index. */
module Compaction {

  /** The positions below n that are marked, in increasing order. */
  function Positions(mask: seq<bool>, n: nat): (p: seq<nat>)
    requires n <= |mask|
    ensures |p| <= n
    ensures forall j | 0 <= j < |p| :: p[j] < n && mask[p[j]]
    ensures forall i, j | 0 <= i < j < |p| :: p[i] < p[j]
    ensures forall i | 0 <= i < n && mask[i] :: i in p
  {
    if n == 0 then []
    else if mask[n - 1] then Positions(mask, n - 1) + [n - 1]
    else Positions(mask, n - 1)
  }

  /** a(mask): the marked entries, in order. */
  function Select<T>(mask: seq<bool>, s: seq<T>): (r: seq<T>)
    requires |mask| == |s|
    ensures |r| == |Positions(mask, |mask|)|
    ensures forall j | 0 <= j < |r| :: r[j] == s[Positions(mask, |mask|)[j]]
  {
    var p := Positions(mask, |mask|);
    seq(|p|, j requires 0 <= j < |p| => s[p[j]])
  }

  predicate Increasing(index: seq<nat>)
  {
    forall i, j | 0 <= i < j < |index| :: index[i] < index[j]
  }

  /** Selection keeps an increasing index increasing. */
  lemma SelectIncreasing(mask: seq<bool>, index: seq<nat>)
    requires |mask| == |index| && Increasing(index)
    ensures Increasing(Select(mask, index))
  {
  }

  /** What is not selected was unmarked. */
  lemma Dropped(mask: seq<bool>, index: seq<nat>, i: nat)
    requires |mask| == |index| && i in index && i !in Select(mask, index)
    ensures exists j :: 0 <= j < |index| && index[j] == i && !mask[j]
  {
    var j :| 0 <= j < |index| && index[j] == i;
    if mask[j] {
      assert false;
    }
  }

  /** Exactly the marked entries are selected. */
  lemma SelectedIff(mask: seq<bool>, index: seq<nat>, i: nat)
    requires |mask| == |index|
    ensures i in Select(mask, index) <==> exists j :: 0 <= j < |index| && index[j] == i && mask[j]
  {
    var p, s := Positions(mask, |mask|), Select(mask, index);
    if j :| 0 <= j < |index| && index[j] == i && mask[j] {
      assert j in p;
      var m :| 0 <= m < |p| && p[m] == j;
      assert s[m] == i;
    }
    if i in s {
      var m :| 0 <= m < |s| && s[m] == i;
      assert index[p[m]] == i && mask[p[m]];
    }
  }

  /** base(index) = values. */
  method Scatter<T>(base: seq<T>, index: seq<nat>, values: seq<T>) returns (out: seq<T>)
    requires |index| == |values| && Increasing(index)
    requires forall j | 0 <= j < |index| :: index[j] < |base|
    ensures |out| == |base|
    ensures forall j | 0 <= j < |index| :: out[index[j]] == values[j]
    ensures forall i: nat | i < |base| && i !in index :: out[i] == base[i]
  {
    out := base;
    for j := 0 to |index|
      invariant |out| == |base|
      invariant forall m | 0 <= m < j :: out[index[m]] == values[m]
      invariant forall i: nat | i < |base| && i !in index[..j] :: out[i] == base[i]
    {
      out := out[index[j] := values[j]];
      assert index[..j + 1] == index[..j] + [index[j]];
    }
    assert index[..|index|] == index;
  }

  /** a(index): the entries at the original positions of the rows. */
  function Gather<T>(base: seq<T>, index: seq<nat>): (r: seq<T>)
    requires forall j | 0 <= j < |index| :: index[j] < |base|
    ensures |r| == |index| && forall j | 0 <= j < |index| :: r[j] == base[index[j]]
  {
    seq(|index|, j requires 0 <= j < |index| => base[index[j]])
  }
}
