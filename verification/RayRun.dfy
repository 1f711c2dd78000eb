/** A whole run as a function of its rays: which rows are left after every step, when the loop stops, and the
    picture it leaves, with and without the removal of finished rows. */
module RayRun {
  import opened RayStepping
  import opened RayReference
  import opened Compaction

  /** A ray that is still traced. */
  predicate Tracing(sc: Scene, ray: Ray)
  {
    AboveCut(sc, ray.pos) && ray.t < sc.time
  }

  predicate Within(rows: seq<nat>, n: nat)
  {
    forall j | 0 <= j < |rows| :: rows[j] < n
  }

  /** Which rows are still traced after k steps. */
  ghost function TracingAt(sc: Scene, starts: seq<Ray>, rows: seq<nat>, k: nat): (mask: seq<bool>)
    requires Within(rows, |starts|)
    ensures |mask| == |rows|
    ensures forall j | 0 <= j < |rows| :: mask[j] == Tracing(sc, RayAt(sc, starts[rows[j]], k))
  {
    seq(|rows|, j requires 0 <= j < |rows| => Tracing(sc, RayAt(sc, starts[rows[j]], k)))
  }

  /** Fewer than three quarters of the rows are marked. */
  predicate Few(mask: seq<bool>)
  {
    mask != [] && |Positions(mask, |mask|)| as real / |mask| as real < 0.75
  }

  function KeepRows(removing: bool, mask: seq<bool>, rows: seq<nat>): seq<nat>
    requires |mask| == |rows|
  {
    if removing && Few(mask) then Select(mask, rows) else rows
  }

  /** The original rays that have a row after k steps. */
  ghost function RowsAt(sc: Scene, starts: seq<Ray>, removing: bool, k: nat): (rows: seq<nat>)
    ensures Within(rows, |starts|)
  {
    if k == 0 then seq(|starts|, i => i)
    else
      var before := RowsAt(sc, starts, removing, k - 1);
      KeepRows(removing, TracingAt(sc, starts, before, k), before)
  }

  /** Some row has time left and some row moves. */
  ghost predicate GoesOn(sc: Scene, starts: seq<Ray>, rows: seq<nat>, k: nat)
    requires Within(rows, |starts|)
  {
    && (exists j :: 0 <= j < |rows| && RayAt(sc, starts[rows[j]], k).t < sc.time)
    && (exists j :: 0 <= j < |rows| && RayAt(sc, starts[rows[j]], k).dt != 0.0)
  }

  ghost predicate GoesOnAt(sc: Scene, starts: seq<Ray>, removing: bool, k: nat)
  {
    GoesOn(sc, starts, RowsAt(sc, starts, removing, k), k)
  }

  /** The loop stops after n steps. */
  ghost predicate StopsAt(sc: Scene, starts: seq<Ray>, removing: bool, n: nat)
  {
    !GoesOnAt(sc, starts, removing, n) && forall k: nat | k < n :: GoesOnAt(sc, starts, removing, k)
  }

  /** The number of steps ray i takes in n steps of the run: all of them, or those up to the removal of its
      row. */
  ghost function Walked(sc: Scene, starts: seq<Ray>, removing: bool, i: nat, n: nat): (m: nat)
    ensures m <= n
  {
    if n == 0 then 0
    else if i in RowsAt(sc, starts, removing, n - 1) then n
    else Walked(sc, starts, removing, i, n - 1)
  }

  /** The number of checks in m steps. */
  ghost function ChecksIn(checks: nat, m: nat): nat
    requires checks > 0
  {
    m / checks
  }

  /** The background at a ray that took m steps: black if its row was removed under the horizon cut. */
  ghost function BackgroundOf(sc: Scene, start: Ray, checks: nat, m: nat, kept: bool): Color
    requires checks > 0
  {
    if !kept && !AboveCut(sc, RayAt(sc, start, m).pos) then BLACK
    else BackgroundAfter(sc, start, checks, ChecksIn(checks, m))
  }

  /** The pixel of ray i after a run of n steps. */
  ghost function Picture(sc: Scene, starts: seq<Ray>, checks: nat, removing: bool, n: nat, i: nat): Color
    requires i < |starts| && checks > 0
  {
    var m := Walked(sc, starts, removing, i, n);
    ObjectsAfter(sc, starts[i], checks, ChecksIn(checks, m))
    .Plus(BackgroundOf(sc, starts[i], checks, m, i in RowsAt(sc, starts, removing, n)))
  }

  // ----- Rows over a run

  lemma RowsStep(sc: Scene, starts: seq<Ray>, removing: bool, k: nat)
    ensures var before := RowsAt(sc, starts, removing, k);
      RowsAt(sc, starts, removing, k + 1) == KeepRows(removing, TracingAt(sc, starts, before, k + 1), before)
  {
  }

  lemma StartRows(sc: Scene, starts: seq<Ray>, removing: bool, i: nat)
    requires i < |starts|
    ensures i in RowsAt(sc, starts, removing, 0)
  {
    assert RowsAt(sc, starts, removing, 0)[i] == i;
  }

  lemma RowsShrink(sc: Scene, starts: seq<Ray>, removing: bool, i: nat, k: nat)
    requires i in RowsAt(sc, starts, removing, k + 1)
    ensures i in RowsAt(sc, starts, removing, k)
  {
    hide RayAt;
    RowsStep(sc, starts, removing, k);
  }

  /** A ray with a row takes every step. */
  lemma LiveWalked(sc: Scene, starts: seq<Ray>, removing: bool, i: nat, n: nat)
    requires i in RowsAt(sc, starts, removing, n)
    ensures Walked(sc, starts, removing, i, n) == n
  {
    hide RowsAt;
    if n > 0 {
      RowsShrink(sc, starts, removing, i, n - 1);
    }
  }

  /** Without removal every ray keeps its row. */
  lemma {:induction false} AllKept(sc: Scene, starts: seq<Ray>, i: nat, n: nat)
    requires i < |starts|
    ensures i in RowsAt(sc, starts, false, n)
  {
    hide RayAt;
    if n == 0 {
      StartRows(sc, starts, false, i);
    } else {
      AllKept(sc, starts, i, n - 1);
      RowsStep(sc, starts, false, n - 1);
    }
  }

  /** A ray whose row was removed was then no longer traced. */
  lemma {:induction false} RemovedIsDone(sc: Scene, starts: seq<Ray>, removing: bool, i: nat, n: nat)
    requires i < |starts| && i !in RowsAt(sc, starts, removing, n)
    ensures var m := Walked(sc, starts, removing, i, n);
      0 < m && !Tracing(sc, RayAt(sc, starts[i], m))
  {
    hide RayAt, Tracing;
    if n == 0 {
      StartRows(sc, starts, removing, i);
    } else if i in RowsAt(sc, starts, removing, n - 1) {
      RowsStep(sc, starts, removing, n - 1);
      var before := RowsAt(sc, starts, removing, n - 1);
      Dropped(TracingAt(sc, starts, before, n), before, i);
    } else {
      RemovedIsDone(sc, starts, removing, i, n - 1);
    }
  }

  // ----- With a check after every step

  ghost predicate AboveAt(sc: Scene, start: Ray, k: nat)
  {
    AboveCut(sc, RayAt(sc, start, k).pos)
  }

  ghost predicate NeverFalls(sc: Scene, start: Ray)
  {
    forall k: nat :: AboveAt(sc, start, k)
  }

  ghost predicate AllOnTime(sc: Scene, starts: seq<Ray>)
  {
    forall i | 0 <= i < |starts| :: OnTime(sc, starts[i])
  }

  /** When the loop has stopped, every ray that never falls rests after its last step. */
  lemma StoppedRests(sc: Scene, starts: seq<Ray>, removing: bool, n: nat, i: nat)
    requires AllOnTime(sc, starts) && StopsAt(sc, starts, removing, n)
    requires i < |starts| && NeverFalls(sc, starts[i])
    ensures Resting(sc, RayAt(sc, starts[i], Walked(sc, starts, removing, i, n)))
  {
    hide RayAt, RowsAt, OnTime;
    var rows := RowsAt(sc, starts, removing, n);
    if i in rows {
      LiveWalked(sc, starts, removing, i, n);
      var j :| 0 <= j < |rows| && rows[j] == i;
      LiveRests(sc, starts, rows, n, j);
    } else {
      RemovedIsDone(sc, starts, removing, i, n);
      assert AboveAt(sc, starts[i], Walked(sc, starts, removing, i, n));
      FinishedRests(sc, starts[i], Walked(sc, starts, removing, i, n));
    }
  }

  lemma LiveRests(sc: Scene, starts: seq<Ray>, rows: seq<nat>, n: nat, j: nat)
    requires AllOnTime(sc, starts) && Within(rows, |starts|) && j < |rows| && !GoesOn(sc, starts, rows, n)
    ensures Resting(sc, RayAt(sc, starts[rows[j]], n))
  {
    hide RayAt;
    var start := starts[rows[j]];
    AlwaysOnTime(sc, start, n);
  }

  lemma SameRows(sc: Scene, starts: seq<Ray>)
    ensures RowsAt(sc, starts, true, 0) == RowsAt(sc, starts, false, 0)
  {
  }

  lemma SameStart(sc: Scene, starts: seq<Ray>, m: nat, n: nat)
    requires StopsAt(sc, starts, true, m) && StopsAt(sc, starts, false, n)
    ensures m == 0 <==> n == 0
  {
    hide RayAt, GoesOn, RowsAt;
    SameRows(sc, starts);
    assert GoesOnAt(sc, starts, true, 0) == GoesOnAt(sc, starts, false, 0);
  }

  lemma WalkedSome(sc: Scene, starts: seq<Ray>, removing: bool, n: nat, i: nat)
    requires i < |starts| && n > 0
    ensures Walked(sc, starts, removing, i, n) > 0
  {
    hide RayAt;
    if i in RowsAt(sc, starts, removing, n) {
      LiveWalked(sc, starts, removing, i, n);
    } else {
      RemovedIsDone(sc, starts, removing, i, n);
    }
  }

  lemma PictureIsPixel(sc: Scene, starts: seq<Ray>, checks: nat, removing: bool, n: nat, i: nat)
    requires i < |starts| && checks > 0 && NeverFalls(sc, starts[i])
    ensures Picture(sc, starts, checks, removing, n, i)
         == PixelAfter(sc, starts[i], checks, ChecksIn(checks, Walked(sc, starts, removing, i, n)))
  {
    hide *;
    var m := Walked(sc, starts, removing, i, n);
    NotBlackened(sc, starts[i], checks, m, i in RowsAt(sc, starts, removing, n));
    PictureOf(sc, starts, checks, removing, n, i);
    PixelOf(sc, starts[i], checks, ChecksIn(checks, m));
  }

  lemma NotBlackened(sc: Scene, start: Ray, checks: nat, m: nat, kept: bool)
    requires checks > 0 && NeverFalls(sc, start)
    ensures BackgroundOf(sc, start, checks, m, kept) == BackgroundAfter(sc, start, checks, ChecksIn(checks, m))
  {
    hide RayAt, BackgroundAfter, ChecksIn;
    assert AboveAt(sc, start, m);
  }

  lemma PictureOf(sc: Scene, starts: seq<Ray>, checks: nat, removing: bool, n: nat, i: nat)
    requires i < |starts| && checks > 0
    ensures var m := Walked(sc, starts, removing, i, n);
      Picture(sc, starts, checks, removing, n, i)
      == ObjectsAfter(sc, starts[i], checks, ChecksIn(checks, m))
         .Plus(BackgroundOf(sc, starts[i], checks, m, i in RowsAt(sc, starts, removing, n)))
  {
    hide RayAt, ObjectsAfter, BackgroundOf, ChecksIn, RowsAt, Walked;
  }

  lemma PixelOf(sc: Scene, start: Ray, checks: nat, c: nat)
    ensures PixelAfter(sc, start, checks, c)
         == ObjectsAfter(sc, start, checks, c).Plus(BackgroundAfter(sc, start, checks, c))
  {
    hide RayAt, ObjectsAfter, BackgroundAfter;
  }

  /** With a check after every step, removing rows does not change the picture of a finished run at any ray that
      never comes under the horizon cut. */
  lemma RemovalKeepsPixel(sc: Scene, starts: seq<Ray>, m: nat, n: nat, i: nat)
    requires AllOnTime(sc, starts) && StopsAt(sc, starts, true, m) && StopsAt(sc, starts, false, n)
    requires i < |starts| && NeverFalls(sc, starts[i])
    ensures Picture(sc, starts, 1, true, m, i) == Picture(sc, starts, 1, false, n, i)
  {
    hide *;
    SameStart(sc, starts, m, n);
    PictureIsPixel(sc, starts, 1, true, m, i);
    PictureIsPixel(sc, starts, 1, false, n, i);
    var c, d := Walked(sc, starts, true, i, m), Walked(sc, starts, false, i, n);
    if m > 0 {
      StoppedRests(sc, starts, true, m, i);
      StoppedRests(sc, starts, false, n, i);
      WalkedSome(sc, starts, true, m, i);
      WalkedSome(sc, starts, false, n, i);
      EveryStep(c);
      EveryStep(d);
      if c <= d {
        PixelIsFinal(sc, starts[i], 1, c, d);
      } else {
        PixelIsFinal(sc, starts[i], 1, d, c);
      }
    }
  }

  lemma EveryStep(c: nat)
    ensures CheckStep(1, c) == c && ChecksIn(1, c) == c
  {
  }
}
