/** The distances that are reported while a vehicle moves along one segment of a prepared route. */
module Progress {
  import opened Common
  import opened Route
  import opened Upcoming
  import opened RouteReports

  // ----- one segment -----

  /**
   * What is left to the stop from a point of a segment, `start` metres from its
   * start and `end` from its end: f whole metres of the segment are stored, and
   * d behind it.
   */
  function Left(d: nat, f: nat, start: real, end: real): u32 {
    ToU32(if start < end then (d + f) as real - start else d as real + end)
  }

  /** A length that fits, and its whole metres. */
  predicate Metres(length: real, d: nat) {
    length >= 0.0 && d + length.Floor < 0x8000_0000
  }

  lemma LeftIs(d: nat, length: real, start: real)
    requires Metres(length, d) && 0.0 <= start <= length
    ensures var x := if start < length - start then length.Floor as real - start else length - start;
            Left(d, length.Floor, start, length - start) == Max(0, d + x.Floor)
  {
    var x := if start < length - start then length.Floor as real - start else length - start;
    assert (d as real + x).Floor == d + x.Floor;
  }

  /** What is reported lies between what is stored at the segment's two ends, but for a metre on a short segment. */
  lemma LeftIsBetween(d: nat, length: real, start: real)
    requires Metres(length, d) && 0.0 <= start <= length
    ensures var left := Left(d, length.Floor, start, length - start);
            left <= d + length.Floor && left >= if length.Floor > 0 then d else d - 1
  {
    LeftIs(d, length, start);
  }

  /** Moving on from `a` to `b` makes the reported distance grow. */
  predicate Grows(d: nat, length: real, a: real, b: real) {
    0.0 <= a <= b <= length && Left(d, length.Floor, b, length - b) > Left(d, length.Floor, a, length - a)
  }

  /** It never grows by more than a metre. */
  lemma GrowsByOne(d: nat, length: real, a: real, b: real)
    requires Metres(length, d) && Grows(d, length, a, b)
    ensures Left(d, length.Floor, b, length - b) == Left(d, length.Floor, a, length - a) + 1
  {
    LeftIs(d, length, a);
    LeftIs(d, length, b);
  }

  /** Nothing is lost in the middle of the segment. */
  predicate Smooth(d: nat, length: real) {
    length == length.Floor as real || length.Floor % 2 == 1 || (length.Floor == 0 && d == 0)
  }

  lemma FloorKeepsOrder(x: real, y: real)
    requires x <= y
    ensures x.Floor <= y.Floor
  {
  }

  lemma OddMiddle(f: int, h: int, length: real, a: real, b: real)
    requires f == 2 * h + 1 && f as real <= length < f as real + 1.0
    requires a < length - a && b >= length - b
    ensures (length - b).Floor <= h <= (f as real - a).Floor
  {
    assert f as real == 2.0 * h as real + 1.0;
    assert length - b < h as real + 1.0;
    assert f as real - a >= h as real;
    FloorKeepsOrder(h as real, f as real - a);
  }

  /** Before the middle no fewer whole metres are left than after it. */
  lemma SmoothMiddle(length: real, a: real, b: real)
    requires length >= 0.0 && (length == length.Floor as real || length.Floor % 2 == 1)
    requires a < length - a && b >= length - b
    ensures (length.Floor as real - a).Floor >= (length - b).Floor
  {
    var f := length.Floor;
    if length == f as real {
      FloorKeepsOrder(length - b, f as real - a);
    } else {
      OddMiddle(f, f / 2, length, a, b);
    }
  }

  lemma SmoothNeverGrows(d: nat, length: real, a: real, b: real)
    requires Metres(length, d) && Smooth(d, length)
    ensures !Grows(d, length, a, b)
  {
    if 0.0 <= a <= b <= length {
      LeftIs(d, length, a);
      LeftIs(d, length, b);
      if length.Floor == 0 && d == 0 {
        assert (length.Floor as real - a).Floor <= 0 && (length - b).Floor <= 0;
      } else if a < length - a && b >= length - b {
        SmoothMiddle(length, a, b);
      }
    }
  }

  lemma RoughGrows(d: nat, length: real)
    requires Metres(length, d) && !Smooth(d, length)
    ensures var h := length.Floor / 2;
            Grows(d, length, h as real + (length - length.Floor as real) / 4.0, length / 2.0)
  {
    var h := length.Floor / 2;
    var part := length - length.Floor as real;
    var a := h as real + part / 4.0;
    assert length.Floor as real == 2.0 * h as real;
    LeftIs(d, length, a);
    LeftIs(d, length, length / 2.0);
    assert (length.Floor as real - a).Floor == h - 1;
    assert (length / 2.0).Floor == h;
  }

  /** On a segment of 10.8 metres that ends at the stop, 4 metres are left after 5.2 metres, and 5 after 5.4. */
  lemma MiddleJump()
    ensures Left(0, 10, 5.2, 10.8 - 5.2) == 4 && Left(0, 10, 5.4, 10.8 - 5.4) == 5 && (10.8 as real).Floor == 10
  {
  }

  // ----- on a prepared route -----

  /** A segment on the way to a stop ahead, with no stop at its start. */
  predicate OnTheLeg(ws: seq<Waypoint>, k: nat) {
    k + 1 < |ws| && !IsStop(ws[k], IntermediateStop) && NextStop(ws, k) < |ws|
  }

  function Length(ws: seq<Waypoint>, k: nat, world: World): real
    requires k + 1 < |ws|
  {
    world.distance(ws[k].point, ws[k + 1].point)
  }

  /** The projection lies on segment k. */
  predicate LiesOn(p: Projection, ws: seq<Waypoint>, k: nat, world: World)
    requires k + 1 < |ws|
  {
    p.segment == k && p.toStart >= 0.0 && p.toEnd >= 0.0 && p.toStart + p.toEnd == Length(ws, k, world)
  }

  /** The projection at the given way from the start of segment k. */
  function At(ws: seq<Waypoint>, k: nat, start: real, world: World): Projection
    requires k + 1 < |ws|
  {
    Projection(k, 0.0, start, Length(ws, k, world) - start)
  }

  /** What the two ends of such a segment carry: the same stop, and distances one segment apart. */
  lemma SegmentEnds(ws: seq<Waypoint>, vs: seq<Waypoint>, k: nat, world: World)
    requires |vs| == |ws| && Fits(ws, world) && FinishedFrom(ws, vs, 0, world) && OnTheLeg(ws, k)
    ensures var route, f, u := Infos(vs, |vs|), Segment(ws, k, world), NextStop(ws, k);
            k + 1 < |route| && route[k].stop.idx == route[k + 1].stop.idx == ws[u].stop.value.idx &&
            route[k].stop.distanceTo == route[k + 1].stop.distanceTo + f < 0x8000_0000 &&
            route[k + 1].stop.distanceFromPrevious == route[k].stop.distanceFromPrevious + f < 0x8000_0000 &&
            route[k].stop.distanceFromPrevious + route[k].stop.distanceTo == LegLength(ws, u, world) < 0x8000_0000
  {
    PlacesKept(ws, vs, k, world);
    PlacesKept(ws, vs, k + 1, world);
    assert Finished(ws, k, vs[k], world) && Finished(ws, k + 1, vs[k + 1], world);
    StopAhead(ws, k, world);
    LegIsConserved(ws, k, vs[k], world);
    LegIsConserved(ws, k + 1, vs[k + 1], world);
  }

  lemma WholeMetres(length: real)
    requires length >= 0.0 && ToU32(length) < 0x8000_0000
    ensures ToU32(length) == length.Floor
  {
  }

  /** What is left from a projection on the segment. */
  lemma LeftFrom(ws: seq<Waypoint>, vs: seq<Waypoint>, k: nat, p: Projection, world: World)
    requires |vs| == |ws| && Fits(ws, world) && FinishedFrom(ws, vs, 0, world) && OnTheLeg(ws, k)
    requires LiesOn(p, ws, k, world)
    ensures var route, length := Infos(vs, |vs|), Length(ws, k, world);
            k + 1 < |route| && Metres(length, route[k + 1].stop.distanceTo) &&
            Segment(ws, k, world) == length.Floor &&
            DistanceLeft(route, p) == Left(route[k + 1].stop.distanceTo, length.Floor, p.toStart, length - p.toStart)
  {
    SegmentEnds(ws, vs, k, world);
    WholeMetres(Length(ws, k, world));
  }

  /**
   * On a prepared route the distance from a projection lies between those that
   * are stored at the two ends of its segment; on a segment shorter than a metre
   * it can be a metre less.
   */
  lemma ProjectedBetween(ws: seq<Waypoint>, vs: seq<Waypoint>, k: nat, p: Projection, world: World)
    requires |vs| == |ws| && Fits(ws, world) && FinishedFrom(ws, vs, 0, world) && OnTheLeg(ws, k)
    requires LiesOn(p, ws, k, world)
    ensures var route := Infos(vs, |vs|);
            k + 1 < |route| && DistanceLeft(route, p) <= route[k].stop.distanceTo &&
            DistanceLeft(route, p) >= route[k + 1].stop.distanceTo - if Length(ws, k, world) < 1.0 then 1 else 0
  {
    SegmentEnds(ws, vs, k, world);
    LeftFrom(ws, vs, k, p, world);
    LeftIsBetween(Infos(vs, |vs|)[k + 1].stop.distanceTo, Length(ws, k, world), p.toStart);
  }

  /** The distance ahead and the distance behind make up the leg, but for one metre that truncation may take. */
  lemma ProjectedLeg(ws: seq<Waypoint>, vs: seq<Waypoint>, k: nat, p: Projection, world: World)
    requires |vs| == |ws| && Fits(ws, world) && FinishedFrom(ws, vs, 0, world) && OnTheLeg(ws, k)
    requires LiesOn(p, ws, k, world)
    ensures var route, leg := Infos(vs, |vs|), LegLength(ws, NextStop(ws, k), world);
            k + 1 < |route| && leg - 1 <= DistanceLeft(route, p) + DistanceDone(route, p) <= leg
  {
    SegmentEnds(ws, vs, k, world);
    LeftFrom(ws, vs, k, p, world);
    var route := Infos(vs, |vs|);
    TwoTruncations(route[k].stop.distanceTo, route[k].stop.distanceFromPrevious, p.toStart);
    TwoTruncations(route[k + 1].stop.distanceFromPrevious, route[k + 1].stop.distanceTo, p.toEnd);
  }

  /** Moving a length from one whole number to another loses at most one. */
  lemma TwoTruncations(a: nat, b: nat, x: real)
    requires a + b < 0x8000_0000 && 0.0 <= x && x < a as real + 1.0
    ensures a + b - 1 <= ToU32(a as real - x) + ToU32(b as real + x) <= a + b
  {
  }

  /** A vehicle that moves on within segment k is never told a greater distance. */
  ghost predicate NeverGrows(route: seq<Info>, ws: seq<Waypoint>, k: nat, world: World)
    requires k + 1 < |ws| && k + 1 < |route|
  {
    forall a: real, b: real :: 0.0 <= a <= b <= Length(ws, k, world) ==>
      DistanceLeft(route, At(ws, k, b, world)) <= DistanceLeft(route, At(ws, k, a, world))
  }

  lemma AllLeftFrom(ws: seq<Waypoint>, vs: seq<Waypoint>, k: nat, world: World)
    requires |vs| == |ws| && Fits(ws, world) && FinishedFrom(ws, vs, 0, world) && OnTheLeg(ws, k)
    requires Length(ws, k, world) >= 0.0
    ensures var route, length := Infos(vs, |vs|), Length(ws, k, world);
            k + 1 < |route| && Metres(length, route[k + 1].stop.distanceTo) &&
            forall a: real :: 0.0 <= a <= length ==>
              DistanceLeft(route, At(ws, k, a, world)) ==
                Left(route[k + 1].stop.distanceTo, length.Floor, a, length - a)
  {
    var route, length := Infos(vs, |vs|), Length(ws, k, world);
    LeftFrom(ws, vs, k, At(ws, k, 0.0, world), world);
    forall a: real | 0.0 <= a <= length
      ensures DistanceLeft(route, At(ws, k, a, world)) ==
                Left(route[k + 1].stop.distanceTo, length.Floor, a, length - a)
    {
      LeftFrom(ws, vs, k, At(ws, k, a, world), world);
    }
  }

  /** It never grows exactly on smooth segments. */
  lemma NeverGrowsIffSmooth(route: seq<Info>, ws: seq<Waypoint>, k: nat, d: nat, length: real, world: World)
    requires k + 1 < |ws| && k + 1 < |route| && length == Length(ws, k, world) && Metres(length, d)
    requires forall a: real :: 0.0 <= a <= length ==>
               DistanceLeft(route, At(ws, k, a, world)) == Left(d, length.Floor, a, length - a)
    ensures NeverGrows(route, ws, k, world) <==> Smooth(d, length)
  {
    if Smooth(d, length) {
      forall a: real, b: real | 0.0 <= a <= b <= length
        ensures DistanceLeft(route, At(ws, k, b, world)) <= DistanceLeft(route, At(ws, k, a, world))
      {
        SmoothNeverGrows(d, length, a, b);
      }
    } else {
      RoughGrows(d, length);
      var a, b := (length.Floor / 2) as real + (length - length.Floor as real) / 4.0, length / 2.0;
      assert DistanceLeft(route, At(ws, k, b, world)) > DistanceLeft(route, At(ws, k, a, world));
    }
  }

  /**
   * On a prepared route the distance never grows within a segment exactly when
   * the segment's length is a whole number of metres, or has an odd number of
   * whole metres, or is shorter than a metre and ends at the stop. Otherwise it
   * jumps up in the middle, where the truncated length of the segment is
   * replaced by the exact one.
   */
  lemma NeverGrowsIff(ws: seq<Waypoint>, vs: seq<Waypoint>, k: nat, world: World)
    requires |vs| == |ws| && Fits(ws, world) && FinishedFrom(ws, vs, 0, world) && OnTheLeg(ws, k)
    requires Length(ws, k, world) >= 0.0
    ensures var route, length := Infos(vs, |vs|), Length(ws, k, world);
            k + 1 < |route| &&
            (NeverGrows(route, ws, k, world) <==>
             length == length.Floor as real || length.Floor % 2 == 1 ||
             (length < 1.0 && route[k + 1].stop.distanceTo == 0))
  {
    var route, length := Infos(vs, |vs|), Length(ws, k, world);
    AllLeftFrom(ws, vs, k, world);
    NeverGrowsIffSmooth(route, ws, k, route[k + 1].stop.distanceTo, length, world);
    assert Length(ws, k, world) < 1.0 <==> Length(ws, k, world).Floor == 0;
  }

  /** Where it does grow, it is by one metre. */
  lemma GrowsByOneMetre(ws: seq<Waypoint>, vs: seq<Waypoint>, k: nat, a: real, b: real, world: World)
    requires |vs| == |ws| && Fits(ws, world) && FinishedFrom(ws, vs, 0, world) && OnTheLeg(ws, k)
    requires 0.0 <= a <= b <= Length(ws, k, world)
    ensures var route := Infos(vs, |vs|);
            k + 1 < |route| &&
            DistanceLeft(route, At(ws, k, b, world)) <= DistanceLeft(route, At(ws, k, a, world)) + 1
  {
    LeftFrom(ws, vs, k, At(ws, k, a, world), world);
    LeftFrom(ws, vs, k, At(ws, k, b, world), world);
    var d, length := Infos(vs, |vs|)[k + 1].stop.distanceTo, Length(ws, k, world);
    if Grows(d, length, a, b) {
      GrowsByOne(d, length, a, b);
    }
  }

  /** In the first half of the segment after a stop, this stop is still the upcoming one, no metres away. */
  lemma PassedStopIsUpcoming(ws: seq<Waypoint>, vs: seq<Waypoint>, k: nat, p: Projection, world: World)
    requires |vs| == |ws| && FinishedFrom(ws, vs, 0, world) && k + 1 < |ws| && IsStop(ws[k], IntermediateStop)
    requires k + 1 < |Infos(vs, |vs|)| && p.segment == k && 0.0 <= p.toStart < p.toEnd
    ensures var route := Infos(vs, |vs|);
            route[k].stop.idx == ws[k].stop.value.idx && DistanceLeft(route, p) == 0
  {
    PlacesKept(ws, vs, k, world);
    assert Finished(ws, k, vs[k], world);
  }
}
