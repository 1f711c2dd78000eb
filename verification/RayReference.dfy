/** A single ray followed on its own: its state, its colours, and when it is done. */
module RayReference {
  import opened RayStepping

  /** A ray after k steps. */
  ghost function RayAt(sc: Scene, start: Ray, k: nat): Ray
  {
    if k == 0 then start else Advance(sc, RayAt(sc, start, k - 1))
  }

  lemma RayAtNext(sc: Scene, start: Ray, k: nat)
    ensures RayAt(sc, start, k + 1) == Advance(sc, RayAt(sc, start, k)) && RayAt(sc, start, 0) == start
  {
    hide Advance;
  }

  ghost function PlaceAt(sc: Scene, start: Ray, k: nat): Vec3
  {
    sc.place(RayAt(sc, start, k).pos)
  }

  /** The step of check c, when there is a check every `checks` steps. */
  ghost function CheckStep(checks: nat, c: nat): nat
  {
    checks * c
  }

  /** The colours collected from the objects in c checks. */
  ghost function ObjectsAfter(sc: Scene, start: Ray, checks: nat, c: nat): Color
  {
    if c == 0 then BLACK
    else SegmentColor(sc, ObjectsAfter(sc, start, checks, c - 1), |sc.objects|,
                      PlaceAt(sc, start, CheckStep(checks, c - 1)), PlaceAt(sc, start, CheckStep(checks, c)))
  }

  /** The background in the direction the ray had at the last check. */
  ghost function BackgroundAfter(sc: Scene, start: Ray, checks: nat, c: nat): Color
  {
    if c == 0 then BLACK
    else sc.background(sc.heading(RayAt(sc, start, CheckStep(checks, c)).pos,
                                  RayAt(sc, start, CheckStep(checks, c)).vel))
  }

  ghost function PixelAfter(sc: Scene, start: Ray, checks: nat, c: nat): Color
  {
    ObjectsAfter(sc, start, checks, c).Plus(BackgroundAfter(sc, start, checks, c))
  }

  predicate AboveCut(sc: Scene, pos: Vec4)
  {
    !sc.hasHorizon || pos.r > sc.cut
  }

  /** In one of its first k steps the ray came under the horizon cut. */
  ghost predicate Fell(sc: Scene, start: Ray, k: nat)
  {
    k > 0 && (!AboveCut(sc, RayAt(sc, start, k).pos) || Fell(sc, start, k - 1))
  }

  ghost predicate Resting(sc: Scene, ray: Ray)
  {
    ray.dt == 0.0 && ray.t <= sc.time
  }

  lemma {:induction false} AlwaysOnTime(sc: Scene, start: Ray, k: nat)
    requires OnTime(sc, start)
    ensures OnTime(sc, RayAt(sc, start, k))
  {
    hide Advance;
    if k > 0 {
      AlwaysOnTime(sc, start, k - 1);
      AdvanceOnTime(sc, RayAt(sc, start, k - 1));
    }
  }

  /** A ray at its end time rests. */
  lemma FinishedRests(sc: Scene, start: Ray, k: nat)
    requires OnTime(sc, start) && RayAt(sc, start, k).t >= sc.time
    ensures Resting(sc, RayAt(sc, start, k))
  {
    AlwaysOnTime(sc, start, k);
  }

  /** A resting ray stays where it is for any number of steps. */
  lemma {:induction false} RestForever(sc: Scene, start: Ray, k: nat, n: nat)
    requires k <= n && Resting(sc, RayAt(sc, start, k))
    ensures RayAt(sc, start, n) == RayAt(sc, start, k)
  {
    hide Advance;
    if k < n {
      RestForever(sc, start, k, n - 1);
      RestingRay(sc, RayAt(sc, start, n - 1));
    }
  }

  /** A ray that is not under the cut when it comes to rest never falls. */
  lemma {:induction false} RestNeverFalls(sc: Scene, start: Ray, k: nat, n: nat)
    requires 0 < k <= n && Resting(sc, RayAt(sc, start, k)) && Fell(sc, start, n)
    ensures Fell(sc, start, k)
  {
    hide Advance, RayAt;
    if k < n {
      RestForever(sc, start, k, n);
      if !Fell(sc, start, n - 1) {
        assert !AboveCut(sc, RayAt(sc, start, k).pos);
      } else {
        RestNeverFalls(sc, start, k, n - 1);
      }
    }
  }

  lemma LaterCheck(checks: nat, c: nat, d: nat)
    requires c <= d
    ensures CheckStep(checks, c) <= CheckStep(checks, d)
  {
  }

  /** Once a ray rests at a check, further checks add nothing to its pixel. */
  lemma {:induction false} PixelIsFinal(sc: Scene, start: Ray, checks: nat, c: nat, d: nat)
    requires 0 < c <= d && Resting(sc, RayAt(sc, start, CheckStep(checks, c)))
    ensures PixelAfter(sc, start, checks, d) == PixelAfter(sc, start, checks, c)
    ensures ObjectsAfter(sc, start, checks, d) == ObjectsAfter(sc, start, checks, c)
    ensures BackgroundAfter(sc, start, checks, d) == BackgroundAfter(sc, start, checks, c)
  {
    hide Advance, SegmentColor, RayAt, CheckStep;
    if c < d {
      PixelIsFinal(sc, start, checks, c, d - 1);
      LaterCheck(checks, c, d - 1);
      LaterCheck(checks, c, d);
      RestForever(sc, start, CheckStep(checks, c), CheckStep(checks, d - 1));
      RestForever(sc, start, CheckStep(checks, c), CheckStep(checks, d));
      EmptySegment(sc, ObjectsAfter(sc, start, checks, d - 1), |sc.objects|, PlaceAt(sc, start, CheckStep(checks, d)));
    }
  }

  lemma {:induction false} FellStays(sc: Scene, start: Ray, k: nat, n: nat)
    requires k <= n && Fell(sc, start, k)
    ensures Fell(sc, start, n)
  {
    hide Advance, RayAt;
    if k < n {
      FellStays(sc, start, k, n - 1);
    }
  }
}
