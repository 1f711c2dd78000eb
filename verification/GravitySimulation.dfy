/** The particle system: a step moves the particles, computes all pairwise pulls, and accelerates. */
module GravitySimulation {
  import opened Reals
  import opened Sums
  import opened NdArrays
  import opened GravityArrays
  import opened GravityConservation
  import opened GravityLaw

  ghost predicate Columns(s: seq<NdArray>, n: nat)
  {
    forall k | 0 <= k < |s| :: s[k].dims == Column(n)
  }

  /** The squared distances over the first d coordinates. */
  ghost predicate HoldsDistances(dist: NdArray, pos: seq<NdArray>, d: nat, n: nat)
    requires d <= |pos|
  {
    dist.dims == Dim4(n, n, 1, 1)
    && forall a, b | 0 <= a < n && 0 <= b < n :: dist.at(a, b, 0, 0) == Distance2(pos, d, a, b)
  }

  ghost predicate HoldsWeights(dist: NdArray, root: real -> real, pos: seq<NdArray>, n: nat)
  {
    dist.dims == Dim4(n, n, 1, 1)
    && forall a, b | 0 <= a < n && 0 <= b < n :: dist.at(a, b, 0, 0) == Weight(root, pos, a, b)
  }

  ghost predicate HoldsForce(force: NdArray, root: real -> real, pos: seq<NdArray>, mass: NdArray, p: NdArray, n: nat)
  {
    force.dims == Column(n) && forall a | 0 <= a < n :: Entry(force, a) == Force(root, pos, mass, p, n, a)
  }

  lemma DistanceStep(dist: NdArray, pos: seq<NdArray>, d: nat, n: nat)
    requires d < |pos| && pos[d].dims == Column(n) && HoldsDistances(dist, pos, d, n)
    ensures HoldsDistances(PlusSquare(dist, Differences(pos[d])), pos, d + 1, n)
  {
    forall a, b | 0 <= a < n && 0 <= b < n
      ensures PlusSquare(dist, Differences(pos[d])).at(a, b, 0, 0) == Distance2(pos, d + 1, a, b)
    {
      DifferencesAt(pos[d], a, b);
    }
  }

  lemma WeightsOfDistances(dist: NdArray, root: real -> real, pos: seq<NdArray>, n: nat)
    requires HoldsDistances(dist, pos, |pos|, n)
    ensures HoldsWeights(Cubed(Softened(root, dist)), root, pos, n)
  {
  }

  /** The matrix form of the forces along one coordinate. */
  function ForceArray(p: NdArray, dist: NdArray, mass: NdArray): NdArray
  {
    Scaled(MatMul(T(Over(Differences(p), dist)), mass), GRAVITY)
  }

  lemma ForceArrayAt(p: NdArray, dist: NdArray, mass: NdArray, root: real -> real, pos: seq<NdArray>, n: nat)
    requires p.dims == Column(n) && HoldsWeights(dist, root, pos, n)
    ensures HoldsForce(ForceArray(p, dist, mass), root, pos, mass, p, n)
  {
    hide Sum, Weight;
    var pulls := T(Over(Differences(p), dist));
    forall a | 0 <= a < n ensures Entry(ForceArray(p, dist, mass), a) == Force(root, pos, mass, p, n, a) {
      forall b | 0 <= b < n ensures Products(pulls, mass, a)(b) == Pull(root, pos, mass, p, a)(b) {
        DifferencesAt(p, b, a);
      }
      SumExt(n, Products(pulls, mass, a), Pull(root, pos, mass, p, a));
    }
  }

  const WIDTH := 768.0
  const HEIGHT := 768.0
  const DEPTH := 768.0

  predicate Outside(x: real, extent: real)
  {
    x > extent - 1.0 || x < 0.0
  }

  function Bound(x: real, extent: real): real
  {
    var y := if x < 0.0 then 0.0 else x;
    if y > extent - 1.0 then extent - 1.0 else y
  }

  /** Velocities of particles outside the screen are turned around ... */
  function Reflected(p: NdArray, v: NdArray, extent: real): NdArray
  {
    NdArray(v.dims, (i, j, k, l) =>
      (-2.0 * (if Outside(p.at(i, j, k, l), extent) then 1.0 else 0.0) + 1.0) * v.at(i, j, k, l))
  }

  /** ... and their positions moved to its border. */
  function Clamped(p: NdArray, extent: real): NdArray
  {
    NdArray(p.dims, (i, j, k, l) => Bound(p.at(i, j, k, l), extent))
  }

  /** x' is the place inside that is nearest to x. */
  ghost predicate NearestInside(x': real, x: real, extent: real)
  {
    0.0 <= x' <= extent - 1.0 && forall y | 0.0 <= y <= extent - 1.0 :: NotFarther(x', y, x)
  }

  predicate NotFarther(x': real, y: real, x: real)
  {
    Abs(x' - x) <= Abs(y - x)
  }

  /** A particle ends at the nearest place inside, keeps its speed along the axis, and is left alone by a second
      pass. */
  lemma CollisionSettles(p: NdArray, v: NdArray, extent: real, a: int)
    requires extent >= 1.0
    ensures NearestInside(Entry(Clamped(p, extent), a), Entry(p, a), extent)
    ensures Entry(Reflected(p, v, extent), a) == if Outside(Entry(p, a), extent) then -Entry(v, a) else Entry(v, a)
    ensures Entry(Reflected(Clamped(p, extent), Reflected(p, v, extent), extent), a)
         == Entry(Reflected(p, v, extent), a)
    ensures Entry(Clamped(Clamped(p, extent), extent), a) == Entry(Clamped(p, extent), a)
  {
    BoundRange(Entry(p, a), extent);
  }

  lemma BoundRange(x: real, extent: real)
    requires extent >= 1.0
    ensures NearestInside(Bound(x, extent), x, extent)
  {
    var x' := Bound(x, extent);
    forall y | 0.0 <= y <= extent - 1.0 ensures NotFarther(x', y, x) {
    }
  }

  class Particles {
    const n: nat
    const mass: NdArray
    var pos: seq<NdArray>
    var vels: seq<NdArray>
    var forces: seq<NdArray>

    ghost predicate Valid()
      reads this
    {
      && |pos| == |vels| == |forces|
      && mass.dims == Column(n)
      && Columns(pos, n) && Columns(vels, n)
    }

    constructor (mass: NdArray, pos: seq<NdArray>, vels: seq<NdArray>)
      requires |pos| == |vels| && mass.dims == Column(mass.dims.d0)
      requires Columns(pos, mass.dims.d0) && Columns(vels, mass.dims.d0)
      ensures Valid() && n == mass.dims.d0
      ensures this.mass == mass && this.pos == pos && this.vels == vels
    {
      n := mass.dims.d0;
      this.mass, this.pos, this.vels := mass, pos, vels;
      forces := seq(|pos|, _ => Constant(0.0, Column(mass.dims.d0)));
    }

    method Move(dt: real)
      requires Valid()
      modifies this`pos
      ensures Valid()
      ensures forall k | 0 <= k < |pos| :: pos[k] == PlusScaled(old(pos)[k], vels[k], dt)
    {
      for i := 0 to |pos|
        invariant |pos| == |old(pos)|
        invariant forall k | 0 <= k < i :: pos[k] == PlusScaled(old(pos)[k], vels[k], dt)
        invariant forall k | i <= k < |pos| :: pos[k] == old(pos)[k]
      {
        pos := pos[i := PlusScaled(pos[i], vels[i], dt)];
      }
    }

    method PairDistances(root: real -> real) returns (diff: seq<NdArray>, dist: NdArray)
      requires Valid()
      ensures |diff| == |pos| && forall k | 0 <= k < |pos| :: diff[k] == Differences(pos[k])
      ensures HoldsWeights(dist, root, pos, n)
      ensures IsRoot(root) ==> HoldsCubes(dist, pos, n)
    {
      hide IsRoot, HoldsCubes;
      diff := [];
      dist := Constant(0.0, Dim4(n, n, 1, 1));
      for i := 0 to |pos|
        invariant |diff| == i && forall k | 0 <= k < i :: diff[k] == Differences(pos[k])
        invariant HoldsDistances(dist, pos, i, n)
      {
        DistanceStep(dist, pos, i, n);
        diff := diff + [Differences(pos[i])];
        dist := PlusSquare(dist, diff[i]);
      }
      WeightsOfDistances(dist, root, pos, n);
      dist := Softened(root, dist);
      dist := Cubed(dist);
      if IsRoot(root) {
        WeightsAreCubes(dist, root, pos, n);
      }
    }

    /** One step of length dt.  Positions move first; velocities then change by the pulls at the new
        positions: those of all particles add up, each with the mass over the squared distance, and for two
        particles alone this is the law of gravity.  Total momentum along every coordinate and angular
        momentum in every plane of two coordinates are exactly what they were. */
    method Simulate(root: real -> real, dt: real)
      requires Valid()
      modifies this
      ensures Valid() && |pos| == |old(pos)|
      ensures forall k | 0 <= k < |pos| :: pos[k] == PlusScaled(old(pos)[k], old(vels)[k], dt)
      ensures forall k | 0 <= k < |pos| :: HoldsForce(forces[k], root, pos, mass, pos[k], n)
      ensures forall k | 0 <= k < |pos| :: Accelerated(root, pos, mass, pos[k], n, old(vels)[k], vels[k], dt)
      ensures IsRoot(root) ==> forall k | 0 <= k < |pos| ::
        Superposed(pos, mass, pos[k], n, old(vels)[k], vels[k], dt)
      ensures IsRoot(root) && n == 2 ==> forall k | 0 <= k < |pos| ::
        TwoBodies(pos, mass, pos[k], old(vels)[k], vels[k], dt)
      ensures forall k | 0 <= k < |pos| :: Momentum(n, mass, vels[k]) == Momentum(n, mass, old(vels)[k])
      ensures forall k, l | 0 <= k < |pos| && 0 <= l < |pos| ::
        AngularMomentum(n, mass, pos[k], pos[l], vels[k], vels[l])
        == AngularMomentum(n, mass, old(pos)[k], old(pos)[l], old(vels)[k], old(vels)[l])
    {
      hide Sum, Force, Weight, ForceArray, PlusScaled, Momentum, AngularMomentum, Superposed, TwoBodies, IsRoot;
      Move(dt);
      var diff, dist := PairDistances(root);
      ghost var moved := pos;
      for i := 0 to |pos|
        invariant pos == moved && Valid()
        invariant forall k | 0 <= k < i :: HoldsForce(forces[k], root, pos, mass, pos[k], n)
        invariant forall k | 0 <= k < i :: Accelerated(root, pos, mass, pos[k], n, old(vels)[k], vels[k], dt)
        invariant forall k | i <= k < |vels| :: vels[k] == old(vels)[k]
      {
        var force := Over(diff[i], dist);
        force := MatMul(T(force), mass);
        force := Scaled(force, GRAVITY);
        ForceArrayAt(pos[i], dist, mass, root, pos, n);
        assert force == ForceArray(pos[i], dist, mass) by { ForceArrayIs(pos[i], dist, mass); }
        forces := forces[i := force];
        AcceleratedBy(vels[i], force, root, pos, mass, pos[i], n, dt);
        vels := vels[i := PlusScaled(vels[i], force, dt)];
      }
      forall k | 0 <= k < |pos|
        ensures IsRoot(root) ==> Superposed(pos, mass, pos[k], n, old(vels)[k], vels[k], dt)
        ensures IsRoot(root) && n == 2 ==> TwoBodies(pos, mass, pos[k], old(vels)[k], vels[k], dt)
      {
        if IsRoot(root) {
          StepSuperposes(root, pos, mass, pos[k], n, old(vels)[k], vels[k], dt);
          if n == 2 {
            TwoSuperposed(pos, mass, pos[k], old(vels)[k], vels[k], dt);
          }
        }
      }
      forall k | 0 <= k < |pos| ensures Momentum(n, mass, vels[k]) == Momentum(n, mass, old(vels)[k]) {
        MomentumConserved(root, pos, mass, pos[k], n, old(vels)[k], vels[k], dt);
      }
      forall k, l | 0 <= k < |pos| && 0 <= l < |pos|
        ensures AngularMomentum(n, mass, pos[k], pos[l], vels[k], vels[l])
             == AngularMomentum(n, mass, old(pos)[k], old(pos)[l], old(vels)[k], old(vels)[l])
      {
        AngularConserved(root, pos, mass, pos[k], pos[l], n, old(vels)[k], old(vels)[l], vels[k], vels[l], dt);
        DriftKeepsAngular(n, mass, old(pos)[k], old(pos)[l], old(vels)[k], old(vels)[l], dt);
      }
    }

    /** Any number of steps of any lengths, between two collisions with the screen border, conserve the
        totals exactly. */
    method SimulateSteps(root: real -> real, dts: seq<real>)
      requires Valid()
      modifies this
      ensures Valid() && |pos| == |old(pos)|
      ensures forall k | 0 <= k < |pos| :: Momentum(n, mass, vels[k]) == Momentum(n, mass, old(vels)[k])
      ensures forall k, l | 0 <= k < |pos| && 0 <= l < |pos| ::
        AngularMomentum(n, mass, pos[k], pos[l], vels[k], vels[l])
        == AngularMomentum(n, mass, old(pos)[k], old(pos)[l], old(vels)[k], old(vels)[l])
    {
      hide Momentum, AngularMomentum, Force;
      for i := 0 to |dts|
        invariant Valid() && |pos| == |old(pos)|
        invariant forall k | 0 <= k < |pos| :: Momentum(n, mass, vels[k]) == Momentum(n, mass, old(vels)[k])
        invariant forall k, l | 0 <= k < |pos| && 0 <= l < |pos| ::
          AngularMomentum(n, mass, pos[k], pos[l], vels[k], vels[l])
          == AngularMomentum(n, mass, old(pos)[k], old(pos)[l], old(vels)[k], old(vels)[l])
      {
        Simulate(root, dts[i]);
      }
    }

    method CollideAxis(axis: nat, extent: real)
      requires Valid() && axis < |pos|
      modifies this`pos, this`vels
      ensures Valid()
      ensures vels == old(vels)[axis := Reflected(old(pos)[axis], old(vels)[axis], extent)]
      ensures pos == old(pos)[axis := Clamped(old(pos)[axis], extent)]
    {
      vels := vels[axis := Reflected(pos[axis], vels[axis], extent)];
      pos := pos[axis := Clamped(pos[axis], extent)];
    }

    /** Keeps the particles on the screen: each coordinate and velocity by its own axis. */
    method Collisions(is3D: bool)
      requires Valid() && |pos| >= (if is3D then 3 else 2)
      modifies this`pos, this`vels
      ensures Valid() && |pos| == |old(pos)|
      ensures vels[0] == Reflected(old(pos)[0], old(vels)[0], WIDTH) && pos[0] == Clamped(old(pos)[0], WIDTH)
      ensures vels[1] == Reflected(old(pos)[1], old(vels)[1], HEIGHT) && pos[1] == Clamped(old(pos)[1], HEIGHT)
      ensures is3D ==> vels[2] == Reflected(old(pos)[2], old(vels)[2], DEPTH) && pos[2] == Clamped(old(pos)[2], DEPTH)
      ensures forall k | (if is3D then 3 else 2) <= k < |pos| :: pos[k] == old(pos)[k] && vels[k] == old(vels)[k]
    {
      CollideAxis(0, WIDTH);
      CollideAxis(1, HEIGHT);
      if is3D {
        CollideAxis(2, DEPTH);
      }
    }
  }

  lemma ForceArrayIs(p: NdArray, dist: NdArray, mass: NdArray)
    ensures ForceArray(p, dist, mass) == Scaled(MatMul(T(Over(Differences(p), dist)), mass), GRAVITY)
  {
  }

  lemma AcceleratedBy(v: NdArray, force: NdArray, root: real -> real, pos: seq<NdArray>, mass: NdArray,
                      p: NdArray, n: nat, dt: real)
    requires HoldsForce(force, root, pos, mass, p, n) && v.dims == Column(n)
    ensures Accelerated(root, pos, mass, p, n, v, PlusScaled(v, force, dt), dt)
    ensures PlusScaled(v, force, dt).dims == Column(n)
  {
    hide Force;
  }
}
