/** Momentum and angular momentum of a step: forces that are antisymmetric in the pair of particles add
    up to nothing, and forces along the line between the particles exert no torque. */
module GravityConservation {
  import opened Reals
  import opened Sums
  import opened NdArrays
  import opened GravityArrays

  function MomentumTerm(mass: NdArray, v: NdArray): int -> real
  {
    a => Entry(mass, a) * Entry(v, a)
  }

  /** Total momentum along one coordinate. */
  function Momentum(n: nat, mass: NdArray, v: NdArray): real
  {
    Sum(n, MomentumTerm(mass, v))
  }

  function AngularTerm(mass: NdArray, x: NdArray, y: NdArray, vx: NdArray, vy: NdArray): int -> real
  {
    a => Entry(mass, a) * (Entry(x, a) * Entry(vy, a) - Entry(y, a) * Entry(vx, a))
  }

  /** Total angular momentum in the plane of two coordinates. */
  function AngularMomentum(n: nat, mass: NdArray, x: NdArray, y: NdArray, vx: NdArray, vy: NdArray): real
  {
    Sum(n, AngularTerm(mass, x, y, vx, vy))
  }

  /** The impulse term of the pair (a, b): mass of a times the pull of b on a. */
  function PairTerm(root: real -> real, pos: seq<NdArray>, mass: NdArray, p: NdArray): (int, int) -> real
  {
    (a, b) => Entry(mass, a) * Pull(root, pos, mass, p, a)(b)
  }

  /** The torque term of the pair (a, b). */
  function TorqueTerm(root: real -> real, pos: seq<NdArray>, mass: NdArray, x: NdArray, y: NdArray): (int, int) -> real
  {
    (a, b) => Entry(mass, a) * (Entry(x, a) * Pull(root, pos, mass, y, a)(b)
                                - Entry(y, a) * Pull(root, pos, mass, x, a)(b))
  }

  lemma PairAlgebra(ma: real, mb: real, d: real, d': real, w: real)
    requires w != 0.0 && d' == -d
    ensures ma * (Quotient(d, w) * mb) == -(mb * (Quotient(d', w) * ma))
  {
    var c := 1.0 / w;
    assert d / w == c * d && d' / w == c * d';
  }

  lemma PairAntisymmetric(root: real -> real, pos: seq<NdArray>, mass: NdArray, p: NdArray, a: int, b: int)
    ensures PairTerm(root, pos, mass, p)(a, b) == -PairTerm(root, pos, mass, p)(b, a)
  {
    hide Weight, Quotient;
    var ma, mb, w := Entry(mass, a), Entry(mass, b), Weight(root, pos, b, a);
    WeightSymmetric(root, pos, a, b);
    WeightPositive(root, pos, b, a);
    assert Pull(root, pos, mass, p, a)(b) == Quotient(Entry(p, b) - Entry(p, a), w) * mb;
    assert Pull(root, pos, mass, p, b)(a) == Quotient(Entry(p, a) - Entry(p, b), w) * ma;
    PairAlgebra(ma, mb, Entry(p, b) - Entry(p, a), Entry(p, a) - Entry(p, b), w);
  }

  lemma TorqueAlgebra(ma: real, mb: real, xa: real, xb: real, ya: real, yb: real, w: real)
    requires w != 0.0
    ensures ma * (xa * (Quotient(yb - ya, w) * mb) - ya * (Quotient(xb - xa, w) * mb))
         == -(mb * (xb * (Quotient(ya - yb, w) * ma) - yb * (Quotient(xa - xb, w) * ma)))
  {
    var c := 1.0 / w;
    var k := ma * mb * c;
    assert (yb - ya) / w == c * (yb - ya) && (xb - xa) / w == c * (xb - xa);
    assert (ya - yb) / w == c * (ya - yb) && (xa - xb) / w == c * (xa - xb);
    assert ma * (xa * (c * (yb - ya) * mb) - ya * (c * (xb - xa) * mb)) == k * (xa * yb - ya * xb);
    assert mb * (xb * (c * (ya - yb) * ma) - yb * (c * (xa - xb) * ma)) == k * (xb * ya - yb * xa);
  }

  lemma TorqueAntisymmetric(root: real -> real, pos: seq<NdArray>, mass: NdArray, x: NdArray, y: NdArray,
                            a: int, b: int)
    ensures TorqueTerm(root, pos, mass, x, y)(a, b) == -TorqueTerm(root, pos, mass, x, y)(b, a)
  {
    hide Weight, Quotient;
    var ma, mb, w := Entry(mass, a), Entry(mass, b), Weight(root, pos, b, a);
    var xa, xb, ya, yb := Entry(x, a), Entry(x, b), Entry(y, a), Entry(y, b);
    WeightSymmetric(root, pos, a, b);
    WeightPositive(root, pos, b, a);
    assert Pull(root, pos, mass, x, a)(b) == Quotient(xb - xa, w) * mb;
    assert Pull(root, pos, mass, y, a)(b) == Quotient(yb - ya, w) * mb;
    assert Pull(root, pos, mass, x, b)(a) == Quotient(xa - xb, w) * ma;
    assert Pull(root, pos, mass, y, b)(a) == Quotient(ya - yb, w) * ma;
    TorqueAlgebra(ma, mb, xa, xb, ya, yb, w);
  }

  /** v' = v + force * dt in one coordinate, for every particle. */
  ghost predicate Accelerated(root: real -> real, pos: seq<NdArray>, mass: NdArray, p: NdArray, n: nat,
                              v: NdArray, v': NdArray, dt: real)
  {
    forall a | 0 <= a < n :: Entry(v', a) == Entry(v, a) + Force(root, pos, mass, p, n, a) * dt
  }

  lemma MomentumOfParticle(root: real -> real, pos: seq<NdArray>, mass: NdArray, p: NdArray, n: nat,
                           v: NdArray, v': NdArray, dt: real, a: int)
    requires Accelerated(root, pos, mass, p, n, v, v', dt) && 0 <= a < n
    ensures MomentumTerm(mass, v')(a)
         == 1.0 * MomentumTerm(mass, v)(a) + GRAVITY * dt * Inner(n, PairTerm(root, pos, mass, p))(a)
  {
    hide Sum, Pull;
    var m := Entry(mass, a);
    SumScale(n, m, Pull(root, pos, mass, p, a), Row(PairTerm(root, pos, mass, p), a));
    Impulse(m, Entry(v, a), Sum(n, Pull(root, pos, mass, p, a)), dt);
  }

  lemma Impulse(m: real, v: real, s: real, dt: real)
    ensures m * (v + s * GRAVITY * dt) == 1.0 * (m * v) + GRAVITY * dt * (m * s)
  {
  }

  /** The velocity update conserves momentum along every coordinate. */
  lemma MomentumConserved(root: real -> real, pos: seq<NdArray>, mass: NdArray, p: NdArray, n: nat,
                          v: NdArray, v': NdArray, dt: real)
    requires Accelerated(root, pos, mass, p, n, v, v', dt)
    ensures Momentum(n, mass, v') == Momentum(n, mass, v)
  {
    hide Sum, Pull, Weight;
    var pairs := PairTerm(root, pos, mass, p);
    forall a, b | 0 <= a < n && 0 <= b < n ensures pairs(a, b) == -pairs(b, a) {
      PairAntisymmetric(root, pos, mass, p, a, b);
    }
    Sum2Antisymmetric(n, pairs);
    forall a | 0 <= a < n
      ensures MomentumTerm(mass, v')(a) == 1.0 * MomentumTerm(mass, v)(a) + GRAVITY * dt * Inner(n, pairs)(a)
    {
      MomentumOfParticle(root, pos, mass, p, n, v, v', dt, a);
    }
    SumLinear(n, 1.0, MomentumTerm(mass, v), GRAVITY * dt, Inner(n, pairs), MomentumTerm(mass, v'));
  }

  lemma Torque(m: real, x: real, y: real, vx: real, vy: real, fx: real, fy: real, dt: real)
    ensures m * (x * (vy + fy * GRAVITY * dt) - y * (vx + fx * GRAVITY * dt))
         == 1.0 * (m * (x * vy - y * vx)) + GRAVITY * dt * (m * (x * fy - y * fx))
  {
  }

  lemma TorqueOnParticle(root: real -> real, pos: seq<NdArray>, mass: NdArray, x: NdArray, y: NdArray, n: nat, a: int)
    ensures Inner(n, TorqueTerm(root, pos, mass, x, y))(a)
         == Entry(mass, a) * (Entry(x, a) * Sum(n, Pull(root, pos, mass, y, a))
                              - Entry(y, a) * Sum(n, Pull(root, pos, mass, x, a)))
  {
    hide Sum, Pull;
    var m := Entry(mass, a);
    var row := Row(TorqueTerm(root, pos, mass, x, y), a);
    var px, py := Pull(root, pos, mass, x, a), Pull(root, pos, mass, y, a);
    forall b | 0 <= b < n ensures row(b) == m * Entry(x, a) * py(b) + -(m * Entry(y, a)) * px(b) {
      Regroup(m, Entry(x, a), Entry(y, a), px(b), py(b));
    }
    SumLinear(n, m * Entry(x, a), py, -(m * Entry(y, a)), px, row);
    Regroup(m, Entry(x, a), Entry(y, a), Sum(n, px), Sum(n, py));
  }

  lemma Regroup(m: real, x: real, y: real, fx: real, fy: real)
    ensures m * (x * fy - y * fx) == m * x * fy + -(m * y) * fx
  {
  }

  lemma AngularOfParticle(root: real -> real, pos: seq<NdArray>, mass: NdArray, x: NdArray, y: NdArray, n: nat,
                          vx: NdArray, vy: NdArray, vx': NdArray, vy': NdArray, dt: real, a: int)
    requires Accelerated(root, pos, mass, x, n, vx, vx', dt) && Accelerated(root, pos, mass, y, n, vy, vy', dt)
    requires 0 <= a < n
    ensures AngularTerm(mass, x, y, vx', vy')(a)
         == 1.0 * AngularTerm(mass, x, y, vx, vy)(a) + GRAVITY * dt * Inner(n, TorqueTerm(root, pos, mass, x, y))(a)
  {
    hide Sum, Pull, TorqueTerm;
    TorqueOnParticle(root, pos, mass, x, y, n, a);
    Torque(Entry(mass, a), Entry(x, a), Entry(y, a), Entry(vx, a), Entry(vy, a),
           Sum(n, Pull(root, pos, mass, x, a)), Sum(n, Pull(root, pos, mass, y, a)), dt);
  }

  /** The velocity update conserves angular momentum about every axis. */
  lemma AngularConserved(root: real -> real, pos: seq<NdArray>, mass: NdArray, x: NdArray, y: NdArray, n: nat,
                         vx: NdArray, vy: NdArray, vx': NdArray, vy': NdArray, dt: real)
    requires Accelerated(root, pos, mass, x, n, vx, vx', dt) && Accelerated(root, pos, mass, y, n, vy, vy', dt)
    ensures AngularMomentum(n, mass, x, y, vx', vy') == AngularMomentum(n, mass, x, y, vx, vy)
  {
    hide Sum, Pull, Weight, AngularTerm;
    var pairs := TorqueTerm(root, pos, mass, x, y);
    forall a, b | 0 <= a < n && 0 <= b < n ensures pairs(a, b) == -pairs(b, a) {
      TorqueAntisymmetric(root, pos, mass, x, y, a, b);
    }
    Sum2Antisymmetric(n, pairs);
    forall a | 0 <= a < n
      ensures AngularTerm(mass, x, y, vx', vy')(a)
           == 1.0 * AngularTerm(mass, x, y, vx, vy)(a) + GRAVITY * dt * Inner(n, pairs)(a)
    {
      AngularOfParticle(root, pos, mass, x, y, n, vx, vy, vx', vy', dt, a);
    }
    SumLinear(n, 1.0, AngularTerm(mass, x, y, vx, vy), GRAVITY * dt, Inner(n, pairs),
              AngularTerm(mass, x, y, vx', vy'));
  }

  /** Moving every particle along its own velocity keeps its angular momentum. */
  lemma DriftKeepsAngular(n: nat, mass: NdArray, x: NdArray, y: NdArray, vx: NdArray, vy: NdArray, dt: real)
    ensures AngularMomentum(n, mass, PlusScaled(x, vx, dt), PlusScaled(y, vy, dt), vx, vy)
         == AngularMomentum(n, mass, x, y, vx, vy)
  {
    hide Sum;
    var x', y' := PlusScaled(x, vx, dt), PlusScaled(y, vy, dt);
    forall a | 0 <= a < n ensures AngularTerm(mass, x', y', vx, vy)(a) == AngularTerm(mass, x, y, vx, vy)(a) {
      Drift(Entry(x, a), Entry(y, a), Entry(vx, a), Entry(vy, a), dt);
    }
    SumExt(n, AngularTerm(mass, x', y', vx, vy), AngularTerm(mass, x, y, vx, vy));
  }

  lemma Drift(x: real, y: real, vx: real, vy: real, dt: real)
    ensures (x + vx * dt) * vy - (y + vy * dt) * vx == x * vy - y * vx
  {
  }
}
