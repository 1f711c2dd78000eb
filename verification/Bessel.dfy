/** Bessel's inequality, and the dimension bound it gives: at most n nonzero vectors of length n can
    be pairwise orthogonal. */
module Bessel {
  import opened Sums
  import opened Vectors

  ghost predicate OrthogonalFamily(vs: seq<Vec>, n: nat)
  {
    && (forall k | 0 <= k < |vs| :: |vs[k]| == n && Dot(vs[k], vs[k]) > 0.0)
    && (forall j, k | 0 <= j < k < |vs| :: Dot(vs[j], vs[k]) == 0.0)
  }

  /** The component of y along v, as a multiple of v. */
  ghost function Coefficient(y: Vec, v: Vec): real
    requires |y| == |v| && Dot(v, v) > 0.0
  {
    Dot(y, v) / Dot(v, v)
  }

  ghost function Energy(y: Vec, v: Vec): real
    requires |y| == |v|
  {
    if Dot(v, v) > 0.0 then Dot(y, v) * Dot(y, v) / Dot(v, v) else 0.0
  }

  ghost function Energies(y: Vec, vs: seq<Vec>): int -> real
  {
    k => if 0 <= k < |vs| && |vs[k]| == |y| then Energy(y, vs[k]) else 0.0
  }

  /** y with its components along the first m vectors removed. */
  ghost function Remainder(y: Vec, vs: seq<Vec>, m: nat): (z: Vec)
    requires OrthogonalFamily(vs, |y|) && m <= |vs|
    ensures |z| == |y|
  {
    if m == 0 then y else Axpy(Remainder(y, vs, m - 1), -Coefficient(y, vs[m - 1]), vs[m - 1])
  }

  lemma {:induction false} RemainderDot(y: Vec, vs: seq<Vec>, m: nat, j: nat)
    requires OrthogonalFamily(vs, |y|) && m <= j < |vs|
    ensures Dot(Remainder(y, vs, m), vs[j]) == Dot(y, vs[j])
  {
    if m > 0 {
      RemainderDot(y, vs, m - 1, j);
      DotAxpy(Remainder(y, vs, m - 1), -Coefficient(y, vs[m - 1]), vs[m - 1], vs[j]);
    }
  }

  /** Subtracting the component along v takes exactly its energy from the squared length. */
  lemma RemoveComponent(z: Vec, v: Vec, d: real)
    requires |z| == |v| && Dot(v, v) > 0.0 && Dot(z, v) == d
    ensures var w := Axpy(z, -(d / Dot(v, v)), v);
            Dot(w, w) == Dot(z, z) - d * d / Dot(v, v)
  {
    hide Dot;
    var c := d / Dot(v, v);
    var w := Axpy(z, -c, v);
    DotAxpy(z, -c, v, w);
    DotAxpyRight(z, z, -c, v);
    DotAxpyRight(v, z, -c, v);
    DotSym(v, z);
    assert c * Dot(v, v) == d;
    CrossMultiply(c, d, Dot(v, v));
    ComponentAlgebra(c, d, Dot(z, z), Dot(v, v), Dot(z, w), Dot(v, w), Dot(w, w));
  }

  lemma ComponentAlgebra(c: real, d: real, zz: real, vv: real, zw: real, vw: real, ww: real)
    requires c * vv == d && ww == zw + -c * vw && zw == zz + -c * d && vw == d + -c * vv
    ensures ww == zz - c * d
  {
  }

  lemma CrossMultiply(c: real, d: real, vv: real)
    requires vv > 0.0 && c == d / vv
    ensures c * d == d * d / vv
  {
  }

  lemma {:induction false} RemainderLength(y: Vec, vs: seq<Vec>, m: nat)
    requires OrthogonalFamily(vs, |y|) && m <= |vs|
    ensures Dot(Remainder(y, vs, m), Remainder(y, vs, m)) == Dot(y, y) - Sum(m, Energies(y, vs))
  {
    hide Dot;
    if m > 0 {
      RemainderLength(y, vs, m - 1);
      RemainderDot(y, vs, m - 1, m - 1);
      RemoveComponent(Remainder(y, vs, m - 1), vs[m - 1], Dot(y, vs[m - 1]));
    }
  }

  /** Bessel's inequality. */
  lemma BesselInequality(y: Vec, vs: seq<Vec>)
    requires OrthogonalFamily(vs, |y|)
    ensures Sum(|vs|, Energies(y, vs)) <= Dot(y, y)
  {
    RemainderLength(y, vs, |vs|);
    DotSelf(Remainder(y, vs, |vs|));
  }

  ghost function Unit(n: nat, i: nat): (e: Vec)
    requires i < n
    ensures |e| == n
  {
    seq(n, j => if j == i then 1.0 else 0.0)
  }

  lemma {:induction false} SumPick(n: nat, f: int -> real, i: nat)
    requires i < n && forall j | 0 <= j < n && j != i :: f(j) == 0.0
    ensures Sum(n, f) == f(i)
  {
    if i == n - 1 {
      SumZero(n - 1, f);
    } else {
      SumPick(n - 1, f, i);
    }
  }

  lemma DotUnit(v: Vec, i: nat)
    requires i < |v|
    ensures Dot(Unit(|v|, i), v) == v[i] && Dot(Unit(|v|, i), Unit(|v|, i)) == 1.0
  {
    SumPick(|v|, Prod(Unit(|v|, i), v), i);
    SumPick(|v|, Prod(Unit(|v|, i), Unit(|v|, i)), i);
  }

  /** The squared cosine between the i-th unit vector and the k-th member of the family. */
  ghost function Cosines(n: nat, vs: seq<Vec>): (int, int) -> real
  {
    (i, k) => if 0 <= i < n then Energies(Unit(n, i), vs)(k) else 0.0
  }

  lemma CosineOfMember(v: Vec, i: nat)
    requires i < |v| && Dot(v, v) > 0.0
    ensures Energy(Unit(|v|, i), v) == 1.0 / Dot(v, v) * Prod(v, v)(i)
  {
    DotUnit(v, i);
    Rescale(v[i] * v[i], Dot(v, v));
  }

  lemma Rescale(a: real, d: real)
    requires d > 0.0
    ensures a / d == 1.0 / d * a
  {
  }

  lemma CosinesOfMember(n: nat, vs: seq<Vec>, k: nat)
    requires OrthogonalFamily(vs, n) && k < |vs|
    ensures Sum(n, Row(Flip(Cosines(n, vs)), k)) == 1.0
  {
    var v := vs[k];
    var f := Row(Flip(Cosines(n, vs)), k);
    forall i | 0 <= i < n ensures f(i) == 1.0 / Dot(v, v) * Prod(v, v)(i) {
      CosineOfMember(v, i);
      assert f(i) == Cosines(n, vs)(i, k);
      assert Cosines(n, vs)(i, k) == Energies(Unit(n, i), vs)(k);
      assert Energies(Unit(n, i), vs)(k) == Energy(Unit(n, i), v);
    }
    SumScale(n, 1.0 / Dot(v, v), Prod(v, v), f);
    Rescale(Dot(v, v), Dot(v, v));
  }

  /** No more than n nonzero vectors of length n are pairwise orthogonal. */
  lemma DimensionBound(n: nat, vs: seq<Vec>)
    requires OrthogonalFamily(vs, n)
    ensures |vs| <= n
  {
    var f := Cosines(n, vs);
    var m := |vs|;
    forall i | 0 <= i < n ensures Inner(m, f)(i) <= 1.0 {
      BesselInequality(Unit(n, i), vs);
      DotUnit(Unit(n, i), i);
      SumExt(m, Row(f, i), Energies(Unit(n, i), vs));
    }
    SumLe(n, Inner(m, f), j => 1.0);
    SumConst(n, 1.0, j => 1.0);
    SumSwap(n, m, f);
    forall k | 0 <= k < m ensures Inner(n, Flip(f))(k) == 1.0 {
      CosinesOfMember(n, vs, k);
    }
    SumConst(m, 1.0, Inner(n, Flip(f)));
    assert m as real <= n as real;
  }
}
