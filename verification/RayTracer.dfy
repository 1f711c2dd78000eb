/** Tracing all rays together: the arrays of live rays, the images indexed by original ray, and the
    removal of finished rows. */
module RayTracer {
  import Reals
  import opened RayStepping
  import opened RayReference
  import opened Compaction
  import opened RayRun

  /** Row j of the live arrays is original ray index[j] after k steps; the index is increasing. */
  ghost predicate RowsMatch(sc: Scene, starts: seq<Ray>, k: nat, index: seq<nat>,
                            pos: seq<Vec4>, vel: seq<Vec4>, t: seq<real>, dt: seq<real>)
  {
    && |pos| == |vel| == |t| == |dt| == |index|
    && Increasing(index)
    && (forall j | 0 <= j < |index| :: index[j] < |starts|)
    && (forall j | 0 <= j < |index| :: Ray(pos[j], vel[j], t[j], dt[j]) == RayAt(sc, starts[index[j]], k))
  }

  lemma RowsLengths(sc: Scene, starts: seq<Ray>, k: nat, index: seq<nat>,
                    pos: seq<Vec4>, vel: seq<Vec4>, t: seq<real>, dt: seq<real>)
    requires RowsMatch(sc, starts, k, index, pos, vel, t, dt)
    ensures |pos| == |vel| == |t| == |dt| == |index|
  {
  }

  /** Selecting the same rows of all the arrays keeps them matched. */
  lemma SelectRows(sc: Scene, starts: seq<Ray>, k: nat, index: seq<nat>,
                   pos: seq<Vec4>, vel: seq<Vec4>, t: seq<real>, dt: seq<real>, mask: seq<bool>)
    requires RowsMatch(sc, starts, k, index, pos, vel, t, dt) && |mask| == |index|
    ensures RowsMatch(sc, starts, k, Select(mask, index), Select(mask, pos), Select(mask, vel),
                      Select(mask, t), Select(mask, dt))
  {
    hide RayAt;
    SelectIncreasing(mask, index);
  }

  /** The rows that are still traced, seen from the live arrays and from the rays. */
  lemma SameMask(sc: Scene, starts: seq<Ray>, k: nat, index: seq<nat>,
                 pos: seq<Vec4>, vel: seq<Vec4>, t: seq<real>, dt: seq<real>, mask: seq<bool>)
    requires RowsMatch(sc, starts, k, index, pos, vel, t, dt) && |mask| == |index|
    requires forall j | 0 <= j < |mask| :: mask[j] == (AboveCut(sc, pos[j]) && t[j] < sc.time)
    ensures mask == TracingAt(sc, starts, index, k)
  {
    hide RayAt, AboveCut;
    forall j | 0 <= j < |index| ensures mask[j] == Tracing(sc, RayAt(sc, starts[index[j]], k)) {
      assert Ray(pos[j], vel[j], t[j], dt[j]) == RayAt(sc, starts[index[j]], k);
    }
  }

  /** The rays as they are launched. */
  function Launch(initialPos: seq<Vec4>, initialVel: seq<Vec4>, defStep: real): (starts: seq<Ray>)
    requires |initialPos| == |initialVel|
    ensures |starts| == |initialPos|
  {
    seq(|initialPos|, i requires 0 <= i < |initialPos| => Ray(initialPos[i], initialVel[i], 0.0, defStep))
  }

  class Tracer {
    const scene: Scene
    const checks: nat
    const compacting: bool
    ghost const starts: seq<Ray>
    ghost var steps: nat

    var pos: seq<Vec4>
    var vel: seq<Vec4>
    var t: seq<real>
    var dt: seq<real>
    var index: seq<nat>
    var result: seq<Color>
    var bgCol: seq<Color>
    var beginPos: seq<Vec3>
    var endPos: seq<Vec3>

    /** Row j belongs to original ray index[j], in increasing order. */
    ghost predicate Rows()
      reads this
    {
      && RowsMatch(scene, starts, steps, index, pos, vel, t, dt)
      && |result| == |bgCol| == |beginPos| == |endPos| == |starts|
    }

    ghost predicate Valid()
      reads this
    {
      checks > 0 && Rows()
    }

    /** The rows are those left after k steps of the run. */
    ghost predicate RowsOf(k: nat)
      reads this
    {
      index == RowsAt(scene, starts, compacting, k)
    }

    /** The images at original ray i are those of the ray followed on its own, as of the last check among the
        steps it takes in k steps of the run. */
    ghost predicate ImageOf(i: nat, k: nat)
      reads this
      requires i < |starts| && checks > 0 && |result| == |bgCol| == |beginPos| == |endPos| == |starts|
    {
      var m := Walked(scene, starts, compacting, i, k);
      var c := ChecksIn(checks, m);
      && result[i] == ObjectsAfter(scene, starts[i], checks, c)
      && bgCol[i] == BackgroundOf(scene, starts[i], checks, m, i in index)
      && beginPos[i] == endPos[i] == PlaceAt(scene, starts[i], CheckStep(checks, c))
    }

    ghost predicate ImagesAt(k: nat)
      reads this
      requires checks > 0 && |result| == |bgCol| == |beginPos| == |endPos| == |starts|
    {
      forall i: nat | i < |starts| :: ImageOf(i, k)
    }

    constructor (scene: Scene, initialPos: seq<Vec4>, initialVel: seq<Vec4>, defStep: real, checks: nat,
                 compacting: bool)
      requires |initialPos| == |initialVel| && checks > 0
      ensures this.scene == scene && this.checks == checks && this.compacting == compacting && steps == 0
      ensures starts == Launch(initialPos, initialVel, defStep)
      ensures Valid() && RowsOf(0) && ImagesAt(0)
    {
      var lines := |initialPos|;
      this.scene, this.checks, this.compacting := scene, checks, compacting;
      starts := Launch(initialPos, initialVel, defStep);
      steps := 0;
      pos, vel := initialPos, initialVel;
      t := seq(lines, _ => 0.0);
      dt := seq(lines, _ => defStep);
      index := seq(lines, i => i);
      result := seq(lines, _ => BLACK);
      bgCol := seq(lines, _ => BLACK);
      beginPos := seq(lines, i requires 0 <= i < lines => scene.place(initialPos[i]));
      endPos := seq(lines, i requires 0 <= i < lines => scene.place(initialPos[i]));
      new;
      forall i: nat | i < lines ensures ImageOf(i, 0) {
        StartRows(scene, starts, compacting, i);
        assert ChecksIn(checks, 0) == 0 && CheckStep(checks, 0) == 0;
      }
    }

    function RowRay(j: nat): Ray
      reads this
      requires j < |pos| && |pos| == |vel| == |t| == |dt|
    {
      Ray(pos[j], vel[j], t[j], dt[j])
    }

    /** Every live row takes the adaptive step its ray takes on its own. */
    method StepRays()
      requires Valid() && RowsOf(steps) && ImagesAt(steps)
      modifies this`pos, this`vel, this`t, this`dt, this`steps
      ensures Valid() && steps == old(steps) + 1 && RowsOf(steps - 1) && ImagesAt(steps - 1)
    {
      hide RayAt, RowsAt, Walked, ChecksIn, CheckStep, ObjectsAfter, BackgroundOf, PlaceAt, RowsMatch;
      StepRows();
      ghost var k := old(steps);
      forall i: nat | i < |starts| ensures ImageOf(i, k) {
        assert old(ImageOf(i, steps));
      }
    }

    method StepRows()
      requires Rows()
      modifies this`pos, this`vel, this`t, this`dt, this`steps
      ensures Rows() && steps == old(steps) + 1
    {
      hide Advance, RayAt;
      var n := |pos|;
      var rays := seq(n, j requires 0 <= j < n reads this requires |pos| == |vel| == |t| == |dt| == n =>
        Advance(scene, RowRay(j)));
      forall j | 0 <= j < n ensures rays[j] == RayAt(scene, starts[index[j]], steps + 1) {
        RayAtNext(scene, starts[index[j]], steps);
      }
      steps := steps + 1;
      pos := seq(n, j requires 0 <= j < n => rays[j].pos);
      vel := seq(n, j requires 0 <= j < n => rays[j].vel);
      t := seq(n, j requires 0 <= j < n => rays[j].t);
      dt := seq(n, j requires 0 <= j < n => rays[j].dt);
    }

    /** Adds the colours of every object, row by row, to the images at the original rays. */
    method AddObjects(sBegin: seq<Vec3>, sEnd: seq<Vec3>)
      requires Rows() && |sBegin| == |sEnd| == |index|
      modifies this`result
      ensures Rows()
      ensures forall j | 0 <= j < |index| ::
        result[index[j]] == SegmentColor(scene, old(result)[index[j]], |scene.objects|, sBegin[j], sEnd[j])
      ensures forall i: nat | i < |starts| && i !in index :: result[i] == old(result)[i]
    {
      hide DiskColor, RayAt;
      for m := 0 to |scene.objects|
        invariant Rows()
        invariant forall j | 0 <= j < |index| ::
          result[index[j]] == SegmentColor(scene, old(result)[index[j]], m, sBegin[j], sEnd[j])
        invariant forall i: nat | i < |starts| && i !in index :: result[i] == old(result)[i]
      {
        var sums := seq(|index|, j
          requires 0 <= j < |index| reads this requires Rows() && |index| == |sBegin| == |sEnd| =>
          result[index[j]].Plus(DiskColor(scene, scene.objects[m], sBegin[j], sEnd[j])));
        result := Scatter(result, index, sums);
      }
    }

    /** The image arrays after a step, at the original rays of the live rows and elsewhere. */
    method UpdateArrays()
      requires Rows()
      modifies this`result, this`bgCol, this`beginPos, this`endPos
      ensures Rows() && beginPos == endPos
      ensures forall j | 0 <= j < |index| :: endPos[index[j]] == scene.place(pos[j])
      ensures forall j | 0 <= j < |index| ::
        result[index[j]]
        == SegmentColor(scene, old(result)[index[j]], |scene.objects|, old(beginPos)[index[j]], scene.place(pos[j]))
      ensures forall j | 0 <= j < |index| :: bgCol[index[j]] == scene.background(scene.heading(pos[j], vel[j]))
      ensures forall i: nat | i < |starts| && i !in index ::
        result[i] == old(result)[i] && bgCol[i] == old(bgCol)[i] && endPos[i] == old(endPos)[i]
    {
      hide SegmentColor, RayAt;
      var n := |index|;
      var places := seq(n, j requires 0 <= j < n reads this requires |pos| == n => scene.place(pos[j]));
      endPos := Scatter(endPos, index, places);
      var sBegin := Gather(beginPos, index);
      var sEnd := Gather(endPos, index);
      AddObjects(sBegin, sEnd);
      var colors := seq(n, j requires 0 <= j < n reads this requires |pos| == |vel| == n =>
        scene.background(scene.heading(pos[j], vel[j])));
      bgCol := Scatter(bgCol, index, colors);
      beginPos := endPos;
    }

    /** At a check: the segments walked since the last one are checked against the objects, and the
        background is looked up along the new directions. */
    method UpdateImage(ghost c: nat)
      requires Valid() && steps > 0 && c > 0 && RowsOf(steps - 1) && ImagesAt(steps - 1)
      requires ChecksIn(checks, steps) == c && ChecksIn(checks, steps - 1) == c - 1 && CheckStep(checks, c) == steps
      modifies this`result, this`bgCol, this`beginPos, this`endPos
      ensures Valid() && ImagesAt(steps)
    {
      hide SegmentColor, RayAt, ObjectsAfter, BackgroundAfter, Increasing, RowsAt, Walked, ChecksIn, CheckStep, PlaceAt;
      UpdateArrays();
      forall i: nat | i < |starts| ensures ImageOf(i, steps) {
        WalkedStep(scene, starts, compacting, i, steps);
        assert old(ImageOf(i, steps - 1));
        if i in index {
          var j :| 0 <= j < |index| && index[j] == i;
          LiveWalked(scene, starts, compacting, i, steps - 1);
          NextImage(scene, starts[i], checks, c);
          PlaceIs(scene, starts[i], steps);
        }
      }
    }

    /** Between two checks the images stay those of the last one. */
    lemma BetweenChecks()
      requires Valid() && steps > 0 && RowsOf(steps - 1) && ImagesAt(steps - 1)
      requires ChecksIn(checks, steps) == ChecksIn(checks, steps - 1)
      ensures ImagesAt(steps)
    {
      hide RayAt, ObjectsAfter, BackgroundAfter, RowsAt, Walked, ChecksIn, CheckStep, PlaceAt;
      forall i: nat | i < |starts| ensures ImageOf(i, steps) {
        WalkedStep(scene, starts, compacting, i, steps);
        assert ImageOf(i, steps - 1);
        if i in index {
          LiveWalked(scene, starts, compacting, i, steps - 1);
        }
      }
    }

    function BhNoHit(): (mask: seq<bool>)
      reads this
      ensures |mask| == |pos| && forall j | 0 <= j < |pos| :: mask[j] == AboveCut(scene, pos[j])
    {
      seq(|pos|, j requires 0 <= j < |pos| reads this => AboveCut(scene, pos[j]))
    }

    /** The rows still being traced. */
    function Selected(): (mask: seq<bool>)
      reads this
      requires |pos| == |t|
      ensures |mask| == |pos|
      ensures forall j | 0 <= j < |pos| :: mask[j] == (AboveCut(scene, pos[j]) && t[j] < scene.time)
    {
      seq(|pos|, j requires 0 <= j < |pos| reads this requires |pos| == |t| =>
        AboveCut(scene, pos[j]) && t[j] < scene.time)
    }

    /** Blackens the background of the live rays under the horizon cut. */
    method BlackenFallen()
      requires Valid()
      modifies this`bgCol
      ensures Valid()
      ensures forall i: nat | i < |starts| ::
        bgCol[i] == if i in index && !AboveCut(scene, RayAt(scene, starts[i], steps).pos) then BLACK else old(bgCol)[i]
    {
      hide Advance, RayAt, Increasing, Select, AboveCut;
      var noHit := BhNoHit();
      var hit := seq(|noHit|, j requires 0 <= j < |noHit| => !noHit[j]);
      var fallen := Select(hit, index);
      SelectIncreasing(hit, index);
      forall i: nat | i < |starts|
        ensures i in fallen <==> i in index && !AboveCut(scene, RayAt(scene, starts[i], steps).pos)
      {
        InFallen(hit, fallen, i);
      }
      bgCol := Scatter(bgCol, fallen, seq(|fallen|, _ => BLACK));
    }

    lemma InFallen(hit: seq<bool>, fallen: seq<nat>, i: nat)
      requires Valid() && i < |starts| && |hit| == |index| && fallen == Select(hit, index)
      requires forall j | 0 <= j < |hit| :: hit[j] == !AboveCut(scene, pos[j])
      ensures i in fallen <==> i in index && !AboveCut(scene, RayAt(scene, starts[i], steps).pos)
    {
      hide RayAt, AboveCut;
      SelectedIff(hit, index, i);
      if i in index {
        var j :| 0 <= j < |index| && index[j] == i;
        assert Ray(pos[j], vel[j], t[j], dt[j]) == RayAt(scene, starts[index[j]], steps);
      }
    }

    /** Keeps the rows still being traced. */
    method KeepSelected(selected: seq<bool>)
      requires Valid() && |selected| == |index|
      modifies this`pos, this`vel, this`t, this`dt, this`index
      ensures Valid()
      ensures index == Select(selected, old(index))
    {
      hide RayAt, RowsMatch, AboveCut, Positions;
      RowsLengths(scene, starts, steps, index, pos, vel, t, dt);
      SelectRows(scene, starts, steps, index, pos, vel, t, dt, selected);
      index, pos, vel, dt, t := Select(selected, index), Select(selected, pos), Select(selected, vel),
                                Select(selected, dt), Select(selected, t);
    }

    /** When fewer than three quarters of the rows are still traced, the others are removed, and the
        background of those under the horizon cut is blackened. */
    method Compact()
      requires Valid() && steps > 0 && |index| > 0 && RowsOf(steps - 1) && ImagesAt(steps)
      modifies this`pos, this`vel, this`t, this`dt, this`index, this`bgCol
      ensures Valid() && RowsOf(steps) && ImagesAt(steps)
    {
      hide RayAt, Select, RowsMatch, Positions, RowsAt, ImagesAt, AboveCut, TracingAt;
      RowsLengths(scene, starts, steps, index, pos, vel, t, dt);
      RowsStep(scene, starts, compacting, steps - 1);
      var selected := Selected();
      SameMask(scene, starts, steps, index, pos, vel, t, dt, selected);
      if compacting && |Positions(selected, |selected|)| as real / |index| as real < 0.75 {
        RemoveRows(selected);
      }
    }

    method RemoveRows(selected: seq<bool>)
      requires Valid() && steps > 0 && RowsOf(steps - 1) && ImagesAt(steps)
      requires selected == TracingAt(scene, starts, index, steps)
      modifies this`pos, this`vel, this`t, this`dt, this`index, this`bgCol
      ensures Valid() && index == Select(selected, old(index)) && ImagesAt(steps)
    {
      hide RayAt, ObjectsAfter, PlaceAt, Select, RowsMatch, RowsAt, Walked, ChecksIn, CheckStep, AboveCut, TracingAt,
           BackgroundOf;
      ghost var rows, images := index, bgCol;
      if scene.hasHorizon {
        BlackenFallen();
      }
      NoHorizon(scene);
      KeepSelected(selected);
      forall i: nat | i < |starts| ensures ImageOf(i, steps) {
        assert old(ImageOf(i, steps));
        RemovedImage(scene, starts, compacting, checks, rows, selected, steps, i);
      }
    }

    /** The loop goes on while some live ray has time left and some live ray moves. */
    predicate Going()
      reads this
    {
      |t| != 0 && (exists j :: 0 <= j < |t| && t[j] < scene.time) && (exists j :: 0 <= j < |dt| && dt[j] != 0.0)
    }

    /** The loop condition, in terms of the rays. */
    lemma GoingIs()
      requires Rows()
      ensures Going() <==> GoesOn(scene, starts, index, steps)
    {
      hide RayAt;
      forall j | 0 <= j < |index|
        ensures RayAt(scene, starts[index[j]], steps).t == t[j] && RayAt(scene, starts[index[j]], steps).dt == dt[j]
      {
        assert Ray(pos[j], vel[j], t[j], dt[j]) == RayAt(scene, starts[index[j]], steps);
      }
      assert forall j | 0 <= j < |t| :: t[j] == RayAt(scene, starts[index[j]], steps).t;
      assert forall j | 0 <= j < |dt| :: dt[j] == RayAt(scene, starts[index[j]], steps).dt;
    }

    /** Every live row has a nonnegative time, and its next step fits into the time left. */
    lemma RowsOnTime(j: nat)
      requires Valid() && AllOnTime(scene, starts) && j < |index|
      ensures 0.0 <= t[j] && 0.0 <= dt[j] && t[j] + dt[j] <= scene.time
    {
      hide RayAt;
      AlwaysOnTime(scene, starts[index[j]], steps);
      assert Ray(pos[j], vel[j], t[j], dt[j]) == RayAt(scene, starts[index[j]], steps);
    }

    /** Traces until the loop stops, or for maxSteps steps. */
    method Run(maxSteps: nat) returns (finished: bool, taken: nat)
      requires Valid() && steps == 0 && RowsOf(0) && ImagesAt(0)
      modifies this
      ensures Valid() && steps == taken <= maxSteps && RowsOf(taken) && ImagesAt(taken)
      ensures finished <==> StopsAt(scene, starts, compacting, taken)
      ensures !finished ==> taken == maxSteps
      ensures forall k: nat | k < taken || (!finished && k == taken) ::
        GoesOnAt(scene, starts, compacting, k)
    {
      hide RayAt, ObjectsAfter, BackgroundAfter, PlaceAt, Increasing, RowsMatch, ImagesAt, RowsAt, GoesOn, ChecksIn,
           CheckStep, Walked;
      var i := 0;
      GoingIs();
      while Going() && i < maxSteps
        invariant i == steps <= maxSteps && Valid() && RowsOf(steps) && ImagesAt(steps)
        invariant Going() <==> GoesOnAt(scene, starts, compacting, steps)
        invariant forall k: nat | k < steps :: GoesOnAt(scene, starts, compacting, k)
      {
        RowsLengths(scene, starts, steps, index, pos, vel, t, dt);
        StepRays();
        NextCheck(i, checks);
        if i % checks == checks - 1 {
          UpdateImage(ChecksIn(checks, steps));
        } else {
          BetweenChecks();
        }
        Compact();
        i := i + 1;
        GoingIs();
      }
      finished := !Going();
      taken := i;
    }
  }

  lemma NextCheck(i: nat, checks: nat)
    requires checks > 0
    ensures i % checks == checks - 1 ==> (
      ChecksIn(checks, i + 1) == ChecksIn(checks, i) + 1 && CheckStep(checks, ChecksIn(checks, i + 1)) == i + 1)
    ensures i % checks != checks - 1 ==> ChecksIn(checks, i + 1) == ChecksIn(checks, i)
  {
    hide *;
    var q, r := i / checks, i % checks;
    DivIs(checks, i);
    if r == checks - 1 {
      CheckOf(checks, q + 1, 0);
    } else {
      CheckOf(checks, q, r + 1);
    }
    CheckOf(checks, q, r);
  }

  lemma DivIs(n: nat, p: nat)
    requires n > 0
    ensures p == n * (p / n) + p % n && 0 <= p % n < n
  {
  }

  lemma CheckOf(checks: nat, c: nat, r: nat)
    requires r < checks
    ensures ChecksIn(checks, checks * c + r) == c && CheckStep(checks, c) == checks * c
    ensures checks * (c + 1) == checks * c + checks
  {
    Reals.DivModUnique(checks * c + r, checks, c, r);
  }

  lemma WalkedStep(sc: Scene, starts: seq<Ray>, removing: bool, i: nat, n: nat)
    requires n > 0
    ensures Walked(sc, starts, removing, i, n)
         == if i in RowsAt(sc, starts, removing, n - 1) then n else Walked(sc, starts, removing, i, n - 1)
  {
    hide RowsAt;
  }

  lemma PlaceIs(sc: Scene, start: Ray, k: nat)
    ensures PlaceAt(sc, start, k) == sc.place(RayAt(sc, start, k).pos)
  {
  }

  lemma NoHorizon(sc: Scene)
    ensures !sc.hasHorizon ==> forall pos: Vec4 :: AboveCut(sc, pos)
  {
  }

  /** How the background of ray i changes when the rows that are no longer traced are removed. */
  lemma RemovedImage(sc: Scene, starts: seq<Ray>, removing: bool, checks: nat, rows: seq<nat>, mask: seq<bool>,
                     k: nat, i: nat)
    requires k > 0 && checks > 0 && i < |starts| && rows == RowsAt(sc, starts, removing, k - 1)
    requires mask == TracingAt(sc, starts, rows, k)
    ensures var m, kept := Walked(sc, starts, removing, i, k), i in Select(mask, rows);
      BackgroundOf(sc, starts[i], checks, m, kept)
      == if i in rows && !AboveCut(sc, RayAt(sc, starts[i], k).pos) then BLACK
         else BackgroundOf(sc, starts[i], checks, m, i in rows)
  {
    hide RayAt, RowsAt, Walked, Select, BackgroundAfter, AboveCut, ChecksIn;
    WalkedStep(sc, starts, removing, i, k);
    SelectedIff(mask, rows, i);
    if i in rows && i in Select(mask, rows) {
      var j :| 0 <= j < |rows| && rows[j] == i && mask[j];
      assert Tracing(sc, RayAt(sc, starts[rows[j]], k));
    }
  }

  lemma NextImage(sc: Scene, start: Ray, checks: nat, c: nat)
    requires c > 0
    ensures ObjectsAfter(sc, start, checks, c)
         == SegmentColor(sc, ObjectsAfter(sc, start, checks, c - 1), |sc.objects|,
                         PlaceAt(sc, start, CheckStep(checks, c - 1)), PlaceAt(sc, start, CheckStep(checks, c)))
    ensures BackgroundAfter(sc, start, checks, c)
         == sc.background(sc.heading(RayAt(sc, start, CheckStep(checks, c)).pos,
                                     RayAt(sc, start, CheckStep(checks, c)).vel))
  {
    hide RayAt, SegmentColor, PlaceAt, CheckStep;
  }

  /** The picture of a run: every pixel is that of its own ray, followed alone through the steps it takes in the
      run.  The loop is cut off after maxSteps steps if it has not stopped by then. */
  method GenerateImage(scene: Scene, initialPos: seq<Vec4>, initialVel: seq<Vec4>, defStep: real, checks: nat,
                       compacting: bool, maxSteps: nat)
    returns (finished: bool, taken: nat, pixels: seq<Color>)
    requires |initialPos| == |initialVel| && checks > 0
    ensures |pixels| == |initialPos| && taken <= maxSteps
    ensures finished <==> StopsAt(scene, Launch(initialPos, initialVel, defStep), compacting, taken)
    ensures !finished ==> (taken == maxSteps
      && !exists n: nat :: n <= maxSteps && StopsAt(scene, Launch(initialPos, initialVel, defStep), compacting, n))
    ensures forall i: nat | i < |pixels| ::
      pixels[i] == Picture(scene, Launch(initialPos, initialVel, defStep), checks, compacting, taken, i)
  {
    hide RayAt, ObjectsAfter, BackgroundAfter, BackgroundOf, RowsAt, Walked, ChecksIn, GoesOn;
    var tracer := new Tracer(scene, initialPos, initialVel, defStep, checks, compacting);
    finished, taken := tracer.Run(maxSteps);
    var n := |initialPos|;
    pixels := seq(n, i requires 0 <= i < n reads tracer requires |tracer.result| == |tracer.bgCol| == n =>
      tracer.result[i].Plus(tracer.bgCol[i]));
    forall i: nat | i < n
      ensures pixels[i] == Picture(scene, tracer.starts, checks, compacting, taken, i)
    {
      assert tracer.ImageOf(i, taken);
      PictureOf(scene, tracer.starts, checks, compacting, taken, i);
    }
  }
}
