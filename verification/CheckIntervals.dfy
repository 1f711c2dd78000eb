/** Why the check interval matters: removing finished rows keeps the picture for every scene exactly when every
    step is checked. */
module CheckIntervals {
  import opened Reals
  import opened RayStepping
  import opened RayReference
  import opened Compaction
  import opened RayRun
  import opened RayTracer
  import opened Geodesics
  import opened Spaces
  import opened WormholeSteps
  import opened WormholeRays
  import opened WormholeRuns

  // ----- Two rays, one of which ends first

  /** Of two rays the first ends with its first step and the second after n steps, with nothing in their way. */
  ghost predicate Race(sc: Scene, first: Ray, second: Ray, n: nat)
  {
    && !sc.hasHorizon && sc.objects == [] && (forall d :: sc.background(d) == WHITE)
    && OnTime(sc, first) && OnTime(sc, second)
    && n > 1 && RayAt(sc, first, 1).t >= sc.time && EndsAt(sc, second, n)
  }

  /** The first ray stays at its end. */
  lemma FirstEnds(sc: Scene, first: Ray, second: Ray, n: nat, k: nat)
    requires Race(sc, first, second, n) && k > 0
    ensures RayAt(sc, first, k).t >= sc.time
  {
    hide RayAt, EndsAt;
    FinishedRests(sc, first, 1);
    RestForever(sc, first, 1, k);
  }

  lemma SecondAt(sc: Scene, first: Ray, second: Ray, n: nat, k: nat)
    requires Race(sc, first, second, n) && k <= n
    ensures k < n ==> RayAt(sc, second, k).t < sc.time && RayAt(sc, second, k).dt > 0.0
    ensures k == n ==> RayAt(sc, second, k).t >= sc.time
  {
    hide RayAt;
    assert k < n ==> Moving(sc, second, k);
  }

  lemma TwoPositions(mask: seq<bool>)
    requires mask == [false, true]
    ensures Positions(mask, 2) == [1] && Few(mask)
  {
    hide Few;
    assert Positions(mask, 0) == [];
    assert Positions(mask, 1) == [];
    HalfIsFew(mask);
  }

  lemma HalfIsFew(mask: seq<bool>)
    requires |mask| == 2 && |Positions(mask, 2)| == 1
    ensures Few(mask)
  {
    hide Positions;
  }

  lemma OnePosition(mask: seq<bool>)
    requires |mask| == 1
    ensures Positions(mask, 1) == (if mask[0] then [0] else []) && Few(mask) == !mask[0]
  {
    assert Positions(mask, 0) == [];
  }

  lemma NotFallen(sc: Scene, start: Ray)
    requires !sc.hasHorizon
    ensures NeverFalls(sc, start)
  {
    hide RayAt;
  }

  lemma TracedBoth(sc: Scene, first: Ray, second: Ray, n: nat, k: nat)
    requires Race(sc, first, second, n) && 0 < k <= n
    ensures !Tracing(sc, RayAt(sc, first, k))
    ensures Tracing(sc, RayAt(sc, second, k)) <==> k < n
  {
    hide RayAt, EndsAt;
    FirstEnds(sc, first, second, n, k);
    SecondAt(sc, first, second, n, k);
  }

  lemma FirstRows(sc: Scene, first: Ray, second: Ray, n: nat)
    requires Race(sc, first, second, n)
    ensures RowsAt(sc, [first, second], true, 1) == [1]
  {
    hide RayAt, Race, Positions, Few, Tracing, TracingAt;
    var before := RowsAt(sc, [first, second], true, 0);
    assert before == [0, 1];
    RowsStep(sc, [first, second], true, 0);
    Longer(sc, first, second, n);
    TracedBoth(sc, first, second, n, 1);
    var mask := TracingAt(sc, [first, second], before, 1);
    assert mask == [false, true];
    TwoPositions(mask);
  }

  lemma Longer(sc: Scene, first: Ray, second: Ray, n: nat)
    requires Race(sc, first, second, n)
    ensures n > 1 && !sc.hasHorizon && sc.objects == []
  {
  }

  lemma NextRows(sc: Scene, first: Ray, second: Ray, n: nat, k: nat)
    requires Race(sc, first, second, n) && 0 < k < n && RowsAt(sc, [first, second], true, k) == [1]
    ensures RowsAt(sc, [first, second], true, k + 1) == if k + 1 < n then [1] else []
  {
    hide RayAt, Race, Positions, Few, Tracing, TracingAt, RowsAt;
    RowsStep(sc, [first, second], true, k);
    TracedBoth(sc, first, second, n, k + 1);
    var mask := TracingAt(sc, [first, second], [1], k + 1);
    assert mask == [k + 1 < n];
    OnePosition(mask);
  }

  /** With removal, the first ray loses its row at once and the second one keeps it to the end. */
  lemma {:induction false} RowsLeft(sc: Scene, first: Ray, second: Ray, n: nat, k: nat)
    requires Race(sc, first, second, n) && 0 < k <= n
    ensures RowsAt(sc, [first, second], true, k) == if k < n then [1] else []
  {
    hide RowsAt, Race;
    Longer(sc, first, second, n);
    if k == 1 {
      FirstRows(sc, first, second, n);
    } else {
      RowsLeft(sc, first, second, n, k - 1);
      NextRows(sc, first, second, n, k - 1);
    }
  }

  /** The second ray has its row until its last step. */
  lemma SecondKept(sc: Scene, first: Ray, second: Ray, n: nat, removing: bool, k: nat)
    requires Race(sc, first, second, n) && k < n
    ensures 1 in RowsAt(sc, [first, second], removing, k)
  {
    hide RowsAt, Race;
    if !removing {
      AllKept(sc, [first, second], 1, k);
    } else if k == 0 {
      StartRows(sc, [first, second], removing, 1);
    } else {
      RowsLeft(sc, first, second, n, k);
    }
  }

  /** Both runs stop after the last step of the second ray. */
  lemma BothStop(sc: Scene, first: Ray, second: Ray, n: nat, removing: bool)
    requires Race(sc, first, second, n)
    ensures StopsAt(sc, [first, second], removing, n)
  {
    hide RayAt, RowsAt, Race;
    var both := [first, second];
    forall k: nat | k < n ensures GoesOnAt(sc, both, removing, k) {
      var rows := RowsAt(sc, both, removing, k);
      SecondAt(sc, first, second, n, k);
      SecondKept(sc, first, second, n, removing, k);
      var j :| 0 <= j < |rows| && rows[j] == 1;
      assert RayAt(sc, both[rows[j]], k).t < sc.time && RayAt(sc, both[rows[j]], k).dt != 0.0;
    }
    Longer(sc, first, second, n);
    FirstEnds(sc, first, second, n, n);
    SecondAt(sc, first, second, n, n);
    var rows := RowsAt(sc, both, removing, n);
    forall j | 0 <= j < |rows| ensures RayAt(sc, both[rows[j]], n).t >= sc.time {
      assert rows[j] == 0 || rows[j] == 1;
    }
  }

  lemma {:induction false} NoObjects(sc: Scene, start: Ray, checks: nat, c: nat)
    requires sc.objects == []
    ensures ObjectsAfter(sc, start, checks, c) == BLACK
  {
    hide RayAt, PlaceAt, CheckStep, DiskColor;
    if c > 0 {
      NoObjects(sc, start, checks, c - 1);
    }
  }

  lemma WhitePixel(sc: Scene, first: Ray, second: Ray, n: nat, start: Ray, checks: nat, c: nat)
    requires Race(sc, first, second, n)
    ensures PixelAfter(sc, start, checks, c) == if c == 0 then BLACK else WHITE
  {
    hide RayAt, ObjectsAfter, CheckStep, EndsAt;
    NoObjects(sc, start, checks, c);
  }

  /** When not every step is checked and the second ray takes enough steps, the first ray stays black if its row
      is removed, and is white if it is kept. */
  lemma RemovalLosesPixel(sc: Scene, first: Ray, second: Ray, n: nat, checks: nat)
    requires 1 < checks <= n && Race(sc, first, second, n)
    ensures Picture(sc, [first, second], checks, true, n, 0) == BLACK
    ensures Picture(sc, [first, second], checks, false, n, 0) == WHITE
  {
    hide *;
    var both := [first, second];
    Longer(sc, first, second, n);
    NotFallen(sc, first);
    PictureIsPixel(sc, both, checks, true, n, 0);
    PictureIsPixel(sc, both, checks, false, n, 0);
    RemovedFirst(sc, first, second, n, n);
    AllKept(sc, both, 0, n);
    LiveWalked(sc, both, false, 0, n);
    ChecksOf(checks, n);
    WhitePixel(sc, first, second, n, first, checks, 0);
    WhitePixel(sc, first, second, n, first, checks, ChecksIn(checks, n));
  }

  lemma ChecksOf(checks: nat, n: nat)
    requires 1 < checks <= n
    ensures ChecksIn(checks, 1) == 0 && ChecksIn(checks, n) > 0
  {
    DivModUnique(1, checks, 0, 1);
    assert n == n / checks * checks + n % checks;
  }

  lemma {:induction false} RemovedFirst(sc: Scene, first: Ray, second: Ray, n: nat, k: nat)
    requires Race(sc, first, second, n) && 0 < k <= n
    ensures Walked(sc, [first, second], true, 0, k) == 1
  {
    hide RayAt, RowsAt, Race;
    WalkedStep(sc, [first, second], true, 0, k);
    if k == 1 {
      StartRows(sc, [first, second], true, 0);
    } else {
      RowsLeft(sc, first, second, n, k - 1);
      RemovedFirst(sc, first, second, n, k - 1);
    }
  }

  // ----- The scenes of the program

  /** Light rays at time zero, about to take the first step of the tracer, which fits into the time. */
  ghost predicate Launched(sc: Scene, space: Space, sin: real -> real, cos: real -> real, starts: seq<Ray>)
  {
    var defStep := 0.5 * sc.fourthRoot(sc.tol);
    && sc.tol > 0.0 && 0.0 <= defStep <= sc.time
    && forall i | 0 <= i < |starts| ::
         starts[i].t == 0.0 && starts[i].dt == defStep
         && Norm(MetricAt(space, sin, cos, starts[i].pos), starts[i].vel) == 0.0
  }

  /** Finished runs with and without removal leave the same pixel at every ray that never comes under the horizon
      cut. */
  ghost predicate PicturesAgree(sc: Scene, starts: seq<Ray>, checks: nat, m: nat, n: nat)
    requires checks > 0
  {
    StopsAt(sc, starts, true, m) && StopsAt(sc, starts, false, n) ==>
      forall i: nat | i < |starts| && NeverFalls(sc, starts[i]) ::
        Picture(sc, starts, checks, true, m, i) == Picture(sc, starts, checks, false, n, i)
  }

  /** A sine that is not zero on the first three radians. */
  ghost predicate SineLike(sin: real -> real)
  {
    forall x | 0.0 < x < 3.0 :: sin(x) != 0.0
  }

  /** The wormhole of the program without objects in front of a white background. */
  function WormholeScene(n: nat, sin: real -> real, cos: real -> real, place: Vec4 -> Vec3,
                         heading: (Vec4, Vec4) -> Vec3, root: real -> real, fourthRoot: real -> real): Scene
  {
    Scene((pos, vel) => Geodesic(Wormhole(3.0), sin, cos, pos, vel), place, heading, d => WHITE,
          root, fourthRoot, [], Tau(n) / 2.0, Fourth(Tau(n)), false, 0.0)
  }

  /** Near the rays the accelerations of the wormhole are the exact ones. */
  lemma WormholeIsWhite(n: nat, sin: real -> real, cos: real -> real, place: Vec4 -> Vec3,
                        heading: (Vec4, Vec4) -> Vec3, root: real -> real, fourthRoot: real -> real)
    requires SineLike(sin) && IsFourthRoot(fourthRoot)
    ensures WhiteWormhole(WormholeScene(n, sin, cos, place, heading, root, fourthRoot), Tau(n))
  {
    hide Fourth, Tau, Geodesic, Pull, IsFourthRoot;
    var sc := WormholeScene(n, sin, cos, place, heading, root, fourthRoot);
    forall pos: Vec4, vel: Vec4 | pos.r > 0.0 && 0.0 < pos.o < 3.0 && pos.p == 0.0 && vel.p == 0.0
      ensures sc.geodesic(pos, vel) == Pull(pos, vel)
    {
      SpacedNear(pos);
      WormholeAcceleration(3.0, sin, cos, pos, vel);
      PullIs(pos, vel);
    }
  }

  lemma SpacedNear(pos: Vec4)
    requires pos.r > 0.0 && pos.o > 0.0 && pos.p == 0.0
    ensures Spaced(pos)
  {
  }

  lemma PullIs(pos: Vec4, vel: Vec4)
    ensures Pull(pos, vel) == Vec4(0.0, pos.r * (vel.o * vel.o),
                                   Quotient(-2.0 * (pos.r * (vel.r * vel.o)), Area(3.0, pos.r)), 0.0)
  {
    hide RadialPull, AngularPull, Area;
    RadialIs(pos.r, vel.o);
    AngularIs(pos.r, vel.r, vel.o);
  }

  lemma AngularIs(r: real, vr: real, vo: real)
    ensures AngularPull(r, vr, vo) == Quotient(-2.0 * (r * (vr * vo)), Area(3.0, r))
  {
  }

  function TwoRays(n: nat): (rays: seq<Ray>)
    ensures |rays| == 2
  {
    [RadialRay(n), CirclingRay(n)]
  }

  lemma RaysRace(sc: Scene, n: nat) returns (end: nat)
    requires WhiteWormhole(sc, Tau(n)) && 0 < n
    ensures end > n + 1 && Race(sc, RadialRay(n), CirclingRay(n), end)
  {
    hide RayAt, EndsAt, Fourth, Pull, Pace, Tau, IsFourthRoot, Vec4.Scale;
    RadialEnds(sc, n);
    end := CirclingEnds(sc, n);
  }

  lemma RaysLaunched(sc: Scene, n: nat, sin: real -> real, cos: real -> real)
    requires WhiteWormhole(sc, Tau(n))
    ensures Launched(sc, Wormhole(3.0), sin, cos, TwoRays(n))
  {
    hide Pull, Pace, Tau, Vec4.Scale, WhiteWormhole;
    WormholeTime(sc, Tau(n));
    RootOfTolerance(sc, Tau(n));
    LightRays(Pace(n), sin(1.5));
  }

  lemma RootOfTolerance(sc: Scene, tau: real)
    requires WhiteWormhole(sc, tau)
    ensures sc.fourthRoot(sc.tol) == tau > 0.0
  {
    WormholeTime(sc, tau);
    WormholeRace.FourthUnique(sc.fourthRoot(sc.tol), tau);
  }

  lemma LightRays(w: real, s: real)
    ensures Norm(WormholeMetric(3.0, 4.0, s), RADIAL) == 0.0
    ensures Norm(WormholeMetric(3.0, 4.0, s), FIRST_VEL.Scale(w)) == 0.0
  {
  }

  // ----- The exact condition

  /** Over all scenes in the three spaces and all light rays, removal keeps the picture exactly when every step is
      checked. */
  lemma RemovalKeepsPictureIff(checks: nat, sin: real -> real, cos: real -> real, place: Vec4 -> Vec3,
                               heading: (Vec4, Vec4) -> Vec3, root: real -> real, fourthRoot: real -> real)
    requires checks > 0 && SineLike(sin) && IsFourthRoot(fourthRoot)
    ensures (forall sc: Scene, space: Space, starts: seq<Ray>, m: nat, n: nat
               | sc.place == place && sc.heading == heading && sc.root == root && sc.fourthRoot == fourthRoot
                 && InSpace(sc, space, sin, cos) && Launched(sc, space, sin, cos, starts) ::
               PicturesAgree(sc, starts, checks, m, n))
      <==> checks == 1
  {
    hide *;
    if checks == 1 {
      forall sc: Scene, space: Space, starts: seq<Ray>, m: nat, n: nat
        | sc.place == place && sc.heading == heading && sc.root == root && sc.fourthRoot == fourthRoot
          && InSpace(sc, space, sin, cos) && Launched(sc, space, sin, cos, starts)
        ensures PicturesAgree(sc, starts, checks, m, n)
      {
        AgreeWhenChecked(sc, space, sin, cos, starts, m, n);
      }
    } else {
      var sc := WormholeScene(checks, sin, cos, place, heading, root, fourthRoot);
      WormholeIsWhite(checks, sin, cos, place, heading, root, fourthRoot);
      SceneParts(checks, sin, cos, place, heading, root, fourthRoot);
      RaysLaunched(sc, checks, sin, cos);
      var end := PicturesDiffer(sc, checks);
      assert !PicturesAgree(sc, TwoRays(checks), checks, end, end);
    }
  }

  lemma SceneParts(n: nat, sin: real -> real, cos: real -> real, place: Vec4 -> Vec3,
                   heading: (Vec4, Vec4) -> Vec3, root: real -> real, fourthRoot: real -> real)
    ensures var sc := WormholeScene(n, sin, cos, place, heading, root, fourthRoot);
      && sc.place == place && sc.heading == heading && sc.root == root && sc.fourthRoot == fourthRoot
      && InSpace(sc, Wormhole(3.0), sin, cos)
  {
    hide Geodesic, Tau, Fourth;
  }

  lemma AgreeWhenChecked(sc: Scene, space: Space, sin: real -> real, cos: real -> real, starts: seq<Ray>,
                         m: nat, n: nat)
    requires Launched(sc, space, sin, cos, starts)
    ensures PicturesAgree(sc, starts, 1, m, n)
  {
    hide RayAt, Picture, StopsAt, NeverFalls, MetricAt, Norm;
    if StopsAt(sc, starts, true, m) && StopsAt(sc, starts, false, n) {
      forall i: nat | i < |starts| && NeverFalls(sc, starts[i])
        ensures Picture(sc, starts, 1, true, m, i) == Picture(sc, starts, 1, false, n, i)
      {
        RemovalKeepsPixel(sc, starts, m, n, i);
      }
    }
  }

  /** The two rays at the wormhole are an input at which the pictures differ. */
  lemma PicturesDiffer(sc: Scene, checks: nat) returns (end: nat)
    requires checks > 1 && WhiteWormhole(sc, Tau(checks))
    ensures !PicturesAgree(sc, TwoRays(checks), checks, end, end)
  {
    hide *;
    var first, second := RadialRay(checks), CirclingRay(checks);
    end := RaysRace(sc, checks);
    BothStop(sc, first, second, end, true);
    BothStop(sc, first, second, end, false);
    Longer(sc, first, second, end);
    NotFallen(sc, first);
    RemovalLosesPixel(sc, first, second, end, checks);
    assert TwoRays(checks) == [first, second] by { TwoRaysAre(checks); }
    Differ(sc, [first, second], checks, end);
  }

  lemma TwoRaysAre(n: nat)
    ensures TwoRays(n) == [RadialRay(n), CirclingRay(n)]
  {
  }

  lemma Differ(sc: Scene, starts: seq<Ray>, checks: nat, n: nat)
    requires checks > 0 && StopsAt(sc, starts, true, n) && StopsAt(sc, starts, false, n)
    requires |starts| > 0 && NeverFalls(sc, starts[0])
    requires Picture(sc, starts, checks, true, n, 0) == BLACK && Picture(sc, starts, checks, false, n, 0) == WHITE
    ensures !PicturesAgree(sc, starts, checks, n, n)
  {
    hide StopsAt, NeverFalls, Picture;
  }

  // ----- Tracing both ways

  /** Traces the same rays twice, once removing finished rows and once keeping all of them.  With every step
      checked, finished pictures agree at every ray that never comes under the horizon cut. */
  method RenderBothWays(scene: Scene, initialPos: seq<Vec4>, initialVel: seq<Vec4>, defStep: real, checks: nat,
                        maxSteps: nat)
    returns (finished: bool, removing: seq<Color>, keeping: seq<Color>)
    requires |initialPos| == |initialVel| && 0.0 <= defStep <= scene.time && checks > 0
    ensures |removing| == |keeping| == |initialPos|
    ensures finished && checks == 1 ==>
      forall i | 0 <= i < |initialPos| && NeverFalls(scene, Ray(initialPos[i], initialVel[i], 0.0, defStep)) ::
        removing[i] == keeping[i]
  {
    hide Picture, StopsAt, NeverFalls;
    var doneA, m, a := GenerateImage(scene, initialPos, initialVel, defStep, checks, true, maxSteps);
    var doneB, n, b := GenerateImage(scene, initialPos, initialVel, defStep, checks, false, maxSteps);
    finished, removing, keeping := doneA && doneB, a, b;
    ghost var starts := Launch(initialPos, initialVel, defStep);
    if finished && checks == 1 {
      forall i | 0 <= i < |initialPos| && NeverFalls(scene, Ray(initialPos[i], initialVel[i], 0.0, defStep))
        ensures removing[i] == keeping[i]
      {
        RemovalKeepsPixel(scene, starts, m, n, i);
      }
    }
  }

  lemma OneStop(sc: Scene, starts: seq<Ray>, removing: bool, m: nat, n: nat)
    requires StopsAt(sc, starts, removing, m) && StopsAt(sc, starts, removing, n)
    ensures m == n
  {
    hide RowsAt, GoesOn;
  }

  /** Whenever not every step is checked, the two rays at the wormhole come to their ends, and come out
      differently. */
  method RenderTwoRays(checks: nat, sin: real -> real, cos: real -> real, place: Vec4 -> Vec3,
                       heading: (Vec4, Vec4) -> Vec3, root: real -> real, fourthRoot: real -> real, maxSteps: nat)
    returns (finished: bool, removing: seq<Color>, keeping: seq<Color>, ghost end: nat)
    requires checks > 1 && SineLike(sin) && IsFourthRoot(fourthRoot)
    ensures var sc := WormholeScene(checks, sin, cos, place, heading, root, fourthRoot);
      StopsAt(sc, TwoRays(checks), true, end) && StopsAt(sc, TwoRays(checks), false, end)
    ensures maxSteps >= end ==> finished
    ensures finished ==> |removing| == |keeping| == 2 && removing[0] == BLACK && keeping[0] == WHITE
  {
    hide Picture, StopsAt, Tau, Pace, IsFourthRoot, SineLike, Race, WormholeScene;
    var sc := WormholeScene(checks, sin, cos, place, heading, root, fourthRoot);
    var rays := TwoRays(checks);
    var positions, velocities := [rays[0].pos, rays[1].pos], [rays[0].vel, rays[1].vel];
    var step := Tau(checks) / 2.0;
    var doneA, m, doneB, n;
    doneA, m, removing := GenerateImage(sc, positions, velocities, step, checks, true, maxSteps);
    doneB, n, keeping := GenerateImage(sc, positions, velocities, step, checks, false, maxSteps);
    finished := doneA && doneB;
    assert Launch(positions, velocities, step) == rays == [RadialRay(checks), CirclingRay(checks)];
    WormholeIsWhite(checks, sin, cos, place, heading, root, fourthRoot);
    end := RaysRace(sc, checks);
    BothStop(sc, RadialRay(checks), CirclingRay(checks), end, true);
    BothStop(sc, RadialRay(checks), CirclingRay(checks), end, false);
    if finished {
      OneStop(sc, [RadialRay(checks), CirclingRay(checks)], true, m, end);
      OneStop(sc, [RadialRay(checks), CirclingRay(checks)], false, n, end);
      RemovalLosesPixel(sc, RadialRay(checks), CirclingRay(checks), end, checks);
    }
  }
}
