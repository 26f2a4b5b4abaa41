/** Route preprocessing: the distance and duration table that a route's waypoints carry. */
module Route {
  import opened Arithmetic
  import opened Common
  import opened Means

  datatype StopType = IntermediateStop | RouteCorrectionStop | UpcomingStop

  /** A stop as waypoints carry it; its name travels with its code. */
  datatype Stop = Stop(
    code: nat,
    coordinate: Point,
    distanceTo: u32,
    durationTo: u32,
    distanceFromPrevious: u32,
    kind: StopType,
    idx: nat)

  datatype Waypoint = Waypoint(point: Point, stop: Option<Stop>)

  /** What geometry and the outside world contribute: distances, and the travel time into the stop at a waypoint. */
  datatype World = World(distance: (Point, Point) -> real, travelTime: nat -> u32)

  /** A float-to-u32 cast truncates and saturates. */
  function ToU32(x: real): u32 {
    if x <= 0.0 then 0 else if x >= 4294967295.0 then 0xFFFF_FFFF else x.Floor
  }

  predicate IsStop(w: Waypoint, kind: StopType) {
    w.stop.Some? && w.stop.value.kind == kind
  }

  // ----- what the table ought to hold -----

  /** The truncated length of the segment that starts at waypoint j. */
  function Segment(ws: seq<Waypoint>, j: nat, world: World): nat
    requires j < |ws|
  {
    if j + 1 < |ws| then ToU32(world.distance(ws[j].point, ws[j + 1].point)) else 0
  }

  /** The length of the way from waypoint i to waypoint u. */
  function Way(ws: seq<Waypoint>, i: nat, u: nat, world: World): nat
    requires i <= u <= |ws|
    decreases u - i
  {
    if i == u then 0 else Segment(ws, i, world) + Way(ws, i + 1, u, world)
  }

  /** The first intermediate stop at or after waypoint i; |ws| if there is none. */
  function NextStop(ws: seq<Waypoint>, i: nat): (u: nat)
    requires i <= |ws|
    ensures i <= u <= |ws|
    ensures u < |ws| ==> IsStop(ws[u], IntermediateStop)
    ensures forall j :: i <= j < u ==> !IsStop(ws[j], IntermediateStop)
    decreases |ws| - i
  {
    if i == |ws| || IsStop(ws[i], IntermediateStop) then i else NextStop(ws, i + 1)
  }

  /** Where the leg into waypoint u begins: at the previous intermediate stop, or else at the first waypoint. */
  function LegStart(ws: seq<Waypoint>, u: nat): (p: nat)
    requires u <= |ws|
    ensures p <= u
    ensures forall j :: p < j < u ==> !IsStop(ws[j], IntermediateStop)
  {
    if u == 0 then 0 else if IsStop(ws[u - 1], IntermediateStop) then u - 1 else LegStart(ws, u - 1)
  }

  function LegLength(ws: seq<Waypoint>, u: nat, world: World): nat
    requires u <= |ws|
  {
    Way(ws, LegStart(ws, u), u, world)
  }

  function Share(part: nat, time: nat, whole: nat): nat
    requires whole > 0
  {
    part * time / whole
  }

  /** The share of the leg's travel time that falls on the segment at j, rounded down. */
  function SegmentTime(ws: seq<Waypoint>, j: nat, u: nat, world: World): nat
    requires j < u < |ws|
  {
    Share(Segment(ws, j, world), world.travelTime(u), Max(1, LegLength(ws, u, world)))
  }

  function Time(ws: seq<Waypoint>, i: nat, u: nat, world: World): nat
    requires i <= u < |ws|
    decreases u - i
  {
    if i == u then 0 else SegmentTime(ws, i, u, world) + Time(ws, i + 1, u, world)
  }

  /** No distance leaves the i32 range and no product leaves the u32 range. */
  ghost predicate Fits(ws: seq<Waypoint>, world: World) {
    Way(ws, 0, |ws|, world) < 0x8000_0000 &&
    forall u :: 0 <= u < |ws| ==> LegLength(ws, u, world) * world.travelTime(u) <= 0xFFFF_FFFF
  }

  // ----- facts about ways and times -----

  lemma {:induction false} WaySplits(ws: seq<Waypoint>, i: nat, j: nat, u: nat, world: World)
    requires i <= j <= u <= |ws|
    ensures Way(ws, i, u, world) == Way(ws, i, j, world) + Way(ws, j, u, world)
    decreases j - i
  {
    if i < j {
      WaySplits(ws, i + 1, j, u, world);
    }
  }

  lemma {:induction false} SameLegStart(ws: seq<Waypoint>, i: nat)
    requires i <= |ws|
    ensures LegStart(ws, NextStop(ws, i)) <= i || (i < |ws| && NextStop(ws, i) == i)
    ensures i < NextStop(ws, i) ==> LegStart(ws, NextStop(ws, i)) <= i
  {
    LegStartReaches(ws, i, NextStop(ws, i));
  }

  lemma {:induction false} LegStartReaches(ws: seq<Waypoint>, i: nat, u: nat)
    requires i <= u <= |ws| && forall j :: i <= j < u ==> !IsStop(ws[j], IntermediateStop)
    ensures i < u ==> LegStart(ws, u) <= i
    decreases u
  {
    if i + 1 < u {
      LegStartReaches(ws, i, u - 1);
    }
  }

  /** The share of a part is at most the part of the whole. */
  lemma FloorsAdd(a: nat, b: nat, c: nat, d: nat, t: nat)
    requires t > 0 && c * t <= b * d
    ensures (Share(a, d, t) + c) * t <= (a + b) * d
  {
    assert Share(a, d, t) * t <= a * d;
    assert (Share(a, d, t) + c) * t == Share(a, d, t) * t + c * t;
    assert (a + b) * d == a * d + b * d;
  }

  /** Rounded-down shares never add up to more than the exact share of the way. */
  lemma {:induction false} TimeIsShare(ws: seq<Waypoint>, i: nat, u: nat, world: World)
    requires i <= u < |ws|
    ensures Time(ws, i, u, world) * Max(1, LegLength(ws, u, world)) <= Way(ws, i, u, world) * world.travelTime(u)
    decreases u - i
  {
    if i < u {
      TimeIsShare(ws, i + 1, u, world);
      FloorsAdd(Segment(ws, i, world), Way(ws, i + 1, u, world), Time(ws, i + 1, u, world),
                world.travelTime(u), Max(1, LegLength(ws, u, world)));
    }
  }

  lemma ShareBound(x: nat, d: nat, t: nat, l: nat)
    requires l <= t && t > 0 && x * t <= l * d
    ensures x <= d
  {
    assert l * d <= t * d;
    SmallerFactor(x, d, t);
  }

  lemma SmallerFactor(x: nat, d: nat, t: nat)
    requires t > 0 && x * t <= d * t
    ensures x <= d
  {
  }

  /** The duration to the upcoming stop never exceeds the leg's travel time, and grows going back within the leg. */
  lemma DurationBound(ws: seq<Waypoint>, i: nat, u: nat, world: World)
    requires u < |ws| && LegStart(ws, u) <= i <= u
    ensures Time(ws, i, u, world) <= world.travelTime(u)
    ensures forall j :: i <= j <= u ==> Time(ws, j, u, world) <= Time(ws, i, u, world)
  {
    TimeIsShare(ws, i, u, world);
    WaySplits(ws, LegStart(ws, u), i, u, world);
    ShareBound(Time(ws, i, u, world), world.travelTime(u), Max(1, LegLength(ws, u, world)), Way(ws, i, u, world));
    TimeShrinks(ws, i, u, world);
  }

  lemma {:induction false} TimeShrinks(ws: seq<Waypoint>, i: nat, u: nat, world: World)
    requires i <= u < |ws|
    ensures forall j :: i <= j <= u ==> Time(ws, j, u, world) <= Time(ws, i, u, world)
    decreases u - i
  {
    if i < u {
      TimeShrinks(ws, i + 1, u, world);
    }
  }

  // ----- the backwards fold -----

  /** The distance part of the fold over the waypoints before j, latest first, up to the previous intermediate stop. */
  function FoldDistance(ws: seq<Waypoint>, j: nat, acc: nat, from: Point, reached: bool, world: World): nat
    requires j <= |ws|
  {
    if j == 0 then acc
    else if reached then FoldDistance(ws, j - 1, acc, from, reached, world)
    else
      FoldDistance(ws, j - 1, acc + ToU32(world.distance(ws[j - 1].point, from)), ws[j - 1].point,
                   IsStop(ws[j - 1], IntermediateStop), world)
  }

  lemma {:induction false} FoldStops(ws: seq<Waypoint>, j: nat, acc: nat, from: Point, world: World)
    requires j <= |ws|
    ensures FoldDistance(ws, j, acc, from, true, world) == acc
  {
    if j > 0 {
      FoldStops(ws, j - 1, acc, from, world);
    }
  }

  /** The fold finds the length of the leg. */
  lemma {:induction false} FoldIsLeg(ws: seq<Waypoint>, j: nat, acc: nat, world: World)
    requires j < |ws|
    ensures FoldDistance(ws, j, acc, ws[j].point, false, world) == acc + LegLength(ws, j, world)
  {
    if j > 0 {
      assert Way(ws, j - 1, j, world) == Segment(ws, j - 1, world);
      if IsStop(ws[j - 1], IntermediateStop) {
        FoldStops(ws, j - 1, acc + Segment(ws, j - 1, world), ws[j - 1].point, world);
      } else {
        FoldIsLeg(ws, j - 1, acc + Segment(ws, j - 1, world), world);
        WaySplits(ws, LegStart(ws, j - 1), j - 1, j, world);
      }
    }
  }

  /** The fold only looks at the waypoints before j. */
  lemma {:induction false} FoldSame(ws: seq<Waypoint>, vs: seq<Waypoint>, j: nat, acc: nat, from: Point, reached: bool,
                                    world: World)
    requires j <= |ws| == |vs| && forall i :: 0 <= i < j ==> ws[i] == vs[i]
    ensures FoldDistance(ws, j, acc, from, reached, world) == FoldDistance(vs, j, acc, from, reached, world)
  {
    if j > 0 {
      if reached {
        FoldSame(ws, vs, j - 1, acc, from, reached, world);
      } else {
        FoldSame(ws, vs, j - 1, acc + ToU32(world.distance(ws[j - 1].point, from)), ws[j - 1].point,
                 IsStop(ws[j - 1], IntermediateStop), world);
      }
    }
  }

  // ----- the reverse pass -----

  /** Stops come from the map as intermediate stops or as corrections of the route. */
  ghost predicate FromMap(ws: seq<Waypoint>) {
    forall i :: 0 <= i < |ws| && ws[i].stop.Some? ==> ws[i].stop.value.kind != UpcomingStop
  }

  /** What s tells at waypoint i about the upcoming intermediate stop u. */
  ghost predicate Describes(ws: seq<Waypoint>, i: nat, u: nat, s: Stop, world: World)
    requires u < |ws| && LegStart(ws, u) <= i <= u && IsStop(ws[u], IntermediateStop)
  {
    s.code == ws[u].stop.value.code && s.coordinate == ws[u].stop.value.coordinate && s.idx == ws[u].stop.value.idx &&
    s.distanceTo == Way(ws, i, u, world) &&
    s.durationTo == Time(ws, i, u, world) &&
    s.distanceFromPrevious == Way(ws, LegStart(ws, u), i, world)
  }

  /** The finished entry of waypoint i. */
  ghost predicate Finished(ws: seq<Waypoint>, i: nat, w: Waypoint, world: World)
    requires i < |ws|
  {
    var u := NextStop(ws, i);
    w.point == ws[i].point &&
    if u == |ws| then w.stop == ws[i].stop
    else
      SameLegStart(ws, i);
      w.stop.Some? && Describes(ws, i, u, w.stop.value, world) &&
      w.stop.value.kind == if ws[i].stop.Some? then ws[i].stop.value.kind else UpcomingStop
  }

  /** Along a leg, the way ahead and the way behind always make up the whole leg, and the time ahead fits into it. */
  lemma LegIsConserved(ws: seq<Waypoint>, i: nat, w: Waypoint, world: World)
    requires i < |ws| && NextStop(ws, i) < |ws| && Finished(ws, i, w, world)
    ensures var u := NextStop(ws, i);
            w.stop.value.distanceTo + w.stop.value.distanceFromPrevious == LegLength(ws, u, world) &&
            w.stop.value.durationTo <= world.travelTime(u)
  {
    var u := NextStop(ws, i);
    SameLegStart(ws, i);
    WaySplits(ws, LegStart(ws, u), i, u, world);
    DurationBound(ws, i, u, world);
  }

  lemma WaysFit(ws: seq<Waypoint>, i: nat, u: nat, world: World)
    requires Fits(ws, world) && i <= u <= |ws|
    ensures Way(ws, i, u, world) < 0x8000_0000
  {
    WaySplits(ws, 0, i, |ws|, world);
    WaySplits(ws, i, u, |ws|, world);
  }

  lemma ProductFits(ws: seq<Waypoint>, j: nat, u: nat, world: World)
    requires Fits(ws, world) && u < |ws| && LegStart(ws, u) <= j < u
    ensures Segment(ws, j, world) <= LegLength(ws, u, world)
    ensures Segment(ws, j, world) * world.travelTime(u) <= 0xFFFF_FFFF
  {
    WaySplits(ws, LegStart(ws, u), j, u, world);
    WaySplits(ws, j, j + 1, u, world);
    assert Way(ws, j, j + 1, world) == Segment(ws, j, world);
    assert LegLength(ws, u, world) * world.travelTime(u) <= 0xFFFF_FFFF;
    MulMonotone(Segment(ws, j, world), LegLength(ws, u, world), world.travelTime(u));
  }

  /** The length and the travel-time share of the segment at i, given the leg's totals. */
  method SegmentDistanceDuration(a: array<Waypoint>, i: nat, total: (u32, u32), world: World)
    returns (distance: u32, duration: u32)
    requires i + 1 < a.Length
    requires ToU32(world.distance(a[i].point, a[i + 1].point)) * total.1 <= 0xFFFF_FFFF
    ensures distance == ToU32(world.distance(a[i].point, a[i + 1].point))
    ensures duration == Share(distance, total.1, Max(1, total.0))
  {
    distance := ToU32(world.distance(a[i].point, a[i + 1].point));
    var product: u32 := distance * total.1;
    ShareShrinks(distance, total.1, Max(1, total.0));
    duration := product / Max(1, total.0);
  }

  lemma ShareShrinks(a: nat, d: nat, t: nat)
    requires t > 0
    ensures Share(a, d, t) <= a * d
  {
    QuotientShrinks(a * d, t);
  }

  lemma QuotientShrinks(n: nat, t: nat)
    requires t > 0
    ensures n / t <= n
  {
    var x := n / t;
    assert x * t <= n;
    MulMonotone(1, t, x);
  }

  /** The running state of the pass: the leg totals and the stop ahead, as seen from waypoint i. */
  ghost predicate Ahead(ws: seq<Waypoint>, i: nat, total: Option<(u32, u32)>, upcoming: Option<Stop>, world: World)
    requires i <= |ws|
  {
    var u := NextStop(ws, i);
    if u == |ws| then total == None && upcoming == None
    else
      total == Some((LegLength(ws, u, world), world.travelTime(u))) && upcoming.Some? &&
      upcoming.value.kind == IntermediateStop && upcoming.value.code == ws[u].stop.value.code &&
      upcoming.value.coordinate == ws[u].stop.value.coordinate && upcoming.value.idx == ws[u].stop.value.idx &&
      upcoming.value.distanceTo == Way(ws, i, u, world) && upcoming.value.durationTo == Time(ws, i, u, world)
  }

  lemma StopAhead(ws: seq<Waypoint>, i: nat, world: World)
    requires Fits(ws, world) && i < |ws| && i < NextStop(ws, i) < |ws|
    ensures var u := NextStop(ws, i);
            u == NextStop(ws, i + 1) && LegStart(ws, u) <= i &&
            Way(ws, i, u, world) == Segment(ws, i, world) + Way(ws, i + 1, u, world) < 0x8000_0000 &&
            Way(ws, LegStart(ws, u), i, world) == LegLength(ws, u, world) - Way(ws, i, u, world) &&
            Time(ws, i, u, world) == SegmentTime(ws, i, u, world) + Time(ws, i + 1, u, world) <= world.travelTime(u) &&
            Segment(ws, i, world) * world.travelTime(u) <= 0xFFFF_FFFF && LegLength(ws, u, world) < 0x8000_0000
  {
    var u := NextStop(ws, i);
    SameLegStart(ws, i);
    WaySplits(ws, LegStart(ws, u), i, u, world);
    WaysFit(ws, i, u, world);
    WaysFit(ws, LegStart(ws, u), u, world);
    DurationBound(ws, i, u, world);
    ProductFits(ws, i, u, world);
  }

  /** The entry of an intermediate stop, with the totals of the leg that ends there. */
  method AtIntermediateStop(a: array<Waypoint>, i: nat, world: World, ghost ws: seq<Waypoint>)
    returns (total: (u32, u32), stop: Stop)
    requires i < a.Length == |ws| && Fits(ws, world) && IsStop(ws[i], IntermediateStop)
    requires forall j :: 0 <= j <= i ==> a[j] == ws[j]
    ensures Ahead(ws, i, Some(total), Some(stop), world)
    ensures Finished(ws, i, Waypoint(ws[i].point, Some(stop)), world)
  {
    FoldSame(a[..], ws, i, 0, ws[i].point, false, world);
    FoldIsLeg(ws, i, 0, world);
    WaysFit(ws, LegStart(ws, i), i, world);
    var distance: u32 := FoldDistance(a[..], i, 0, a[i].point, false, world);
    total := (distance, world.travelTime(i));
    stop := a[i].stop.value.(distanceTo := 0, durationTo := 0, distanceFromPrevious := distance);
  }

  /** The entry of a waypoint on the way to a stop ahead, one segment further back. */
  method OnTheWay(a: array<Waypoint>, i: nat, total: (u32, u32), ahead: Stop, world: World, ghost ws: seq<Waypoint>)
    returns (stop: Stop)
    requires i < a.Length == |ws| && Fits(ws, world) && FromMap(ws) && !IsStop(ws[i], IntermediateStop)
    requires a[i] == ws[i] && (i + 1 < a.Length ==> a[i + 1].point == ws[i + 1].point)
    requires Ahead(ws, i + 1, Some(total), Some(ahead), world)
    ensures Ahead(ws, i, Some(total), Some(stop), world)
    ensures Finished(ws, i, Waypoint(ws[i].point, Some(stop.(kind :=
              if ws[i].stop.Some? then RouteCorrectionStop else UpcomingStop))), world)
  {
    StopAhead(ws, i, world);
    var segment, duration := SegmentDistanceDuration(a, i, total, world);
    var distanceTo: u32 := ahead.distanceTo + segment;
    var durationTo: u32 := ahead.durationTo + duration;
    var fromPrevious: u32;
    if a[i].stop.Some? {
      fromPrevious := total.0 - distanceTo;
    } else {
      fromPrevious := Max(0, total.0 - distanceTo);
    }
    stop := ahead.(distanceTo := distanceTo, durationTo := durationTo, distanceFromPrevious := fromPrevious);
  }

  /** Behind the last intermediate stop a waypoint stays as it is. */
  lemma NothingAhead(ws: seq<Waypoint>, i: nat, world: World)
    requires i < |ws| && !IsStop(ws[i], IntermediateStop) && Ahead(ws, i + 1, None, None, world)
    ensures Ahead(ws, i, None, None, world) && Finished(ws, i, ws[i], world)
  {
  }

  /** The entries from i on are finished. */
  ghost predicate FinishedFrom(ws: seq<Waypoint>, vs: seq<Waypoint>, i: nat, world: World)
    requires |vs| == |ws|
  {
    forall j :: i <= j < |ws| ==> Finished(ws, j, vs[j], world)
  }

  lemma FinishOne(ws: seq<Waypoint>, vs: seq<Waypoint>, vs': seq<Waypoint>, i: nat, world: World)
    requires |vs| == |vs'| == |ws| && i < |ws| && FinishedFrom(ws, vs, i + 1, world)
    requires vs' == vs[i := vs'[i]] && Finished(ws, i, vs'[i], world)
    ensures FinishedFrom(ws, vs', i, world)
  {
  }

  /**
   * The reverse loop. Every waypoint that has an intermediate stop ahead ends
   * up with the true lengths of the way to it and of the way from the previous
   * one; the subtractions never go below zero and nothing overflows.
   */
  method UpdateWaypoints(a: array<Waypoint>, world: World)
    requires FromMap(a[..]) && Fits(a[..], world)
    modifies a
    ensures FinishedFrom(old(a[..]), a[..], 0, world)
  {
    ghost var ws := a[..];
    var total: Option<(u32, u32)> := None;
    var upcoming: Option<Stop> := None;
    for i := a.Length downto 0
      invariant forall j :: 0 <= j < i ==> a[j] == ws[j]
      invariant FinishedFrom(ws, a[..], i, world)
      invariant Ahead(ws, i, total, upcoming, world)
    {
      var w := a[i];
      ghost var before := a[..];
      if w.stop.Some? && w.stop.value.kind == IntermediateStop {
        var leg, stop := AtIntermediateStop(a, i, world, ws);
        total, upcoming := Some(leg), Some(stop);
        a[i] := Waypoint(w.point, Some(stop));
      } else if upcoming.Some? {
        assert i + 1 < a.Length ==> Finished(ws, i + 1, a[..][i + 1], world);
        var stop := OnTheWay(a, i, total.value, upcoming.value, world, ws);
        upcoming := Some(stop);
        a[i] := Waypoint(w.point, Some(stop.(kind := if w.stop.Some? then RouteCorrectionStop else UpcomingStop)));
      } else {
        NothingAhead(ws, i, world);
      }
      FinishOne(ws, before, a[..], i, world);
    }
  }
}
