/** The stops still ahead of a position on a preprocessed route, and their arrival times. */
module Upcoming {
  import opened Common
  import opened Means
  import opened Route

  /** The nearest point of the route: its segment, and the distances to the segment's two ends. */
  datatype Projection = Projection(segment: nat, distance: real, toStart: real, toEnd: real)

  /** Projects a point onto the segment between two others. */
  type Projector = (Point, Point, Point) -> Point

  // ----- the closest segment -----

  function ProjectionOn(p: Point, coords: seq<Point>, i: nat, project: Projector, distance: (Point, Point) -> real)
    : Projection
    requires i + 1 < |coords|
  {
    var q := project(p, coords[i], coords[i + 1]);
    Projection(i, distance(q, p), distance(q, coords[i]), distance(q, coords[i + 1]))
  }

  /** A segment without length: nothing projects onto it, and the comparison with its undefined distance fails. */
  predicate IsPoint(coords: seq<Point>, i: nat)
    requires i + 1 < |coords|
  {
    coords[i] == coords[i + 1]
  }

  /** Segment k is the first of the closest among the first n segments that have a length. */
  ghost predicate FirstClosest(p: Point, coords: seq<Point>, n: nat, k: nat, project: Projector,
                               distance: (Point, Point) -> real)
    requires n < |coords|
  {
    k < n && !IsPoint(coords, k) &&
    var closest := ProjectionOn(p, coords, k, project, distance).distance;
    forall i :: 0 <= i < n && !IsPoint(coords, i) ==>
      var here := ProjectionOn(p, coords, i, project, distance).distance;
      closest <= here && (i < k ==> closest < here)
  }

  /** The first of the segments whose projection lies closest; none when no segment has a length. */
  method FindClosestPointOnRoute(p: Point, coords: seq<Point>, project: Projector, distance: (Point, Point) -> real)
    returns (r: Option<Projection>)
    requires coords != []
    ensures r == None <==> forall i :: 0 <= i < |coords| - 1 ==> IsPoint(coords, i)
    ensures r.Some? ==>
      var k := r.value.segment;
      FirstClosest(p, coords, |coords| - 1, k, project, distance) &&
      r.value == ProjectionOn(p, coords, k, project, distance)
  {
    r := None;
    for i := 0 to |coords| - 1
      invariant r == None <==> forall j :: 0 <= j < i ==> IsPoint(coords, j)
      invariant r.Some? ==>
        FirstClosest(p, coords, i, r.value.segment, project, distance) &&
        r.value == ProjectionOn(p, coords, r.value.segment, project, distance)
    {
      if !IsPoint(coords, i) {
        var here := ProjectionOn(p, coords, i, project, distance);
        if r.None? || here.distance < r.value.distance {
          r := Some(here);
        }
      }
    }
  }

  // ----- the stops ahead -----

  datatype Info = Info(point: Point, stop: Stop)

  datatype Status = Reached | Upcoming

  /** An upcoming stop with its arrival time; times are in milliseconds, deltas in seconds. */
  datatype Arrival = Arrival(stop: Stop, eta: int, delta: real, status: Status)

  predicate Intermediate(w: Info) {
    w.stop.kind == IntermediateStop
  }

  function FindByIdx(stops: seq<Arrival>, idx: nat): Option<Stop> {
    if stops == [] then None
    else if stops[0].stop.idx == idx then Some(stops[0].stop)
    else FindByIdx(stops[1..], idx)
  }

  /** The projected waypoint's stop, its distances corrected by how far on the projection is. */
  function Corrected(nearest: Stop, delta: real): Stop {
    nearest.(distanceTo := ToU32(nearest.distanceTo as real + delta),
             distanceFromPrevious := ToU32(nearest.distanceFromPrevious as real - delta))
  }

  /** The first upcoming stop: the remembered one while it is closer and really the same, else the projected one. */
  function FirstUpcoming(prev: Option<seq<Arrival>>, nearest: Stop, delta: real, distance: (Point, Point) -> real)
    : (s: Stop)
    ensures s.idx == nearest.idx && s.distanceTo <= Corrected(nearest, delta).distanceTo
    ensures s == Corrected(nearest, delta) ||
            (prev.Some? && FindByIdx(prev.value, nearest.idx) == Some(s) &&
             distance(s.coordinate, nearest.coordinate) < 50.0)
    ensures prev.Some? && FindByIdx(prev.value, nearest.idx).Some? ==>
              var known := FindByIdx(prev.value, nearest.idx).value;
              distance(known.coordinate, nearest.coordinate) < 50.0 ==>
                s.distanceTo == Min(known.distanceTo, Corrected(nearest, delta).distanceTo)
  {
    var remaining := ToU32(nearest.distanceTo as real + delta);
    var known := if prev.Some? then FindByIdx(prev.value, nearest.idx) else None;
    FoundHasIdx(if prev.Some? then prev.value else [], nearest.idx);
    if known.Some? && known.value.distanceTo < remaining && distance(known.value.coordinate, nearest.coordinate) < 50.0
    then known.value
    else nearest.(distanceTo := remaining, distanceFromPrevious := ToU32(nearest.distanceFromPrevious as real - delta))
  }

  /** What is found is the first entry with the number. */
  lemma {:induction false} FoundHasIdx(stops: seq<Arrival>, idx: nat)
    ensures FindByIdx(stops, idx).Some? ==> FindByIdx(stops, idx).value.idx == idx
    ensures var found := FindByIdx(stops, idx);
            if found.None? then forall i :: 0 <= i < |stops| ==> stops[i].stop.idx != idx
            else exists i :: 0 <= i < |stops| && stops[i].stop == found.value &&
                             forall j :: 0 <= j < i ==> stops[j].stop.idx != idx
  {
    if stops != [] && stops[0].stop.idx == idx {
      assert stops[0].stop == FindByIdx(stops, idx).value;
    } else if stops != [] {
      FoundHasIdx(stops[1..], idx);
      assert forall i :: 1 <= i < |stops| ==> stops[i] == stops[1..][i - 1];
      if FindByIdx(stops, idx).Some? {
        var i :| 0 <= i < |stops[1..]| && stops[1..][i].stop == FindByIdx(stops, idx).value &&
                 forall j :: 0 <= j < i ==> stops[1..][j].stop.idx != idx;
        assert stops[i + 1].stop == FindByIdx(stops, idx).value;
      }
    }
  }

  /** The places of the intermediate stops among the first n waypoints whose index is at least `from`. */
  function Places(route: seq<Info>, from: nat, n: nat): (ks: seq<nat>)
    requires n <= |route|
    ensures forall i :: 0 <= i < |ks| ==> ks[i] < n && Intermediate(route[ks[i]]) && route[ks[i]].stop.idx >= from
  {
    if n == 0 then []
    else
      var w := route[n - 1];
      if Intermediate(w) && w.stop.idx >= from then Places(route, from, n - 1) + [n - 1] else Places(route, from, n - 1)
  }

  /** Intermediate stops are numbered in the order in which the route meets them. */
  ghost predicate Numbered(route: seq<Info>) {
    forall i, j :: 0 <= i < j < |route| && Intermediate(route[i]) && Intermediate(route[j]) ==>
                     route[i].stop.idx < route[j].stop.idx
  }

  /** The stop at place k as it is reported, with the distance and duration stored just after place `before`. */
  function Reported(route: seq<Info>, before: nat, k: nat): Stop
    requires before + 1 < |route| && k < |route|
  {
    route[k].stop.(distanceTo := route[before + 1].stop.distanceTo, durationTo := route[before + 1].stop.durationTo)
  }

  /** Stop i-1 of the result is the one at place i. */
  ghost predicate ReportedAt(route: seq<Info>, ks: seq<nat>, stops: seq<Stop>, i: nat)
    requires 0 < i < |ks| == |stops| + 1
  {
    ks[i - 1] + 1 < |route| && ks[i] < |route| && stops[i - 1] == Reported(route, ks[i - 1], ks[i])
  }

  /** After the first, every place is reported with what is stored just after the place before it. */
  ghost predicate ReportedInOrder(route: seq<Info>, ks: seq<nat>, stops: seq<Stop>) {
    if ks == [] then stops == []
    else |stops| + 1 == |ks| && forall i :: 0 < i < |ks| ==> ReportedAt(route, ks, stops, i)
  }

  ghost predicate Increasing(ks: seq<nat>) {
    forall i, j :: 0 <= i < j < |ks| ==> ks[i] < ks[j]
  }

  lemma {:induction false} PlacesIncrease(route: seq<Info>, from: nat, n: nat)
    requires n <= |route|
    ensures Increasing(Places(route, from, n))
  {
    if n > 0 {
      PlacesIncrease(route, from, n - 1);
      AppendIncreasing(Places(route, from, n - 1), n - 1);
    }
  }

  lemma {:induction false} PlaceListed(route: seq<Info>, from: nat, n: nat, k: nat)
    requires k < n <= |route| && Intermediate(route[k]) && route[k].stop.idx >= from
    ensures k in Places(route, from, n)
  {
    if k < n - 1 {
      PlaceListed(route, from, n - 1, k);
    }
  }

  lemma PlacesGrow(route: seq<Info>, from: nat, n: nat)
    requires n <= |route|
    ensures Increasing(Places(route, from, n))
    ensures forall k :: 0 <= k < n && Intermediate(route[k]) && route[k].stop.idx >= from ==>
                          k in Places(route, from, n)
  {
    PlacesIncrease(route, from, n);
    forall k | 0 <= k < n && Intermediate(route[k]) && route[k].stop.idx >= from
      ensures k in Places(route, from, n)
    {
      PlaceListed(route, from, n, k);
    }
  }

  lemma AppendIncreasing(ks: seq<nat>, n: nat)
    requires Increasing(ks) && forall i :: 0 <= i < |ks| ==> ks[i] < n
    ensures Increasing(ks + [n])
  {
  }

  /** The route names the stop numbered `first`, and numbers its stops in order. */
  ghost predicate Names(route: seq<Info>, first: nat) {
    Numbered(route) && exists k :: 0 <= k < |route| && Intermediate(route[k]) && route[k].stop.idx == first
  }

  /** With numbered stops, the stop numbered `first` is the first place, and all later ones have higher numbers. */
  lemma FirstPlace(route: seq<Info>, first: nat, n: nat)
    requires Names(route, first) && n <= |route|
    ensures var ks := Places(route, first, n);
            forall i :: 0 <= i < |ks| ==> (route[ks[i]].stop.idx == first <==> i == 0)
  {
    PlacesGrow(route, first, n);
    var ks := Places(route, first, n);
    var k :| 0 <= k < |route| && Intermediate(route[k]) && route[k].stop.idx == first;
    assert forall i :: 0 <= i < |ks| ==> k <= ks[i];
    forall i | 0 <= i < |ks| ensures route[ks[i]].stop.idx == first <==> i == 0 {
      FirstPlaceAt(route, first, n, k, i);
    }
  }

  lemma FirstPlaceAt(route: seq<Info>, first: nat, n: nat, k: nat, i: nat)
    requires n <= |route| && Numbered(route)
    requires k < |route| && Intermediate(route[k]) && route[k].stop.idx == first
    requires var ks := Places(route, first, n); i < |ks| && forall j :: 0 <= j < |ks| ==> k <= ks[j]
    ensures route[Places(route, first, n)[i]].stop.idx == first <==> i == 0
  {
    PlacesGrow(route, first, n);
    var ks := Places(route, first, n);
    assert k <= ks[0] < n;
    assert k in ks;
    var at :| 0 <= at < |ks| && ks[at] == k;
    if 0 < at {
      assert ks[0] < ks[at];
    }
    if 0 < i {
      assert ks[0] < ks[i];
    }
  }

  lemma ReportOneMore(route: seq<Info>, ks: seq<nat>, stops: seq<Stop>, n: nat)
    requires ReportedInOrder(route, ks, stops) && n < |route|
    requires ks != [] ==> ks[|ks| - 1] + 1 < |route|
    ensures ReportedInOrder(route, ks + [n], if ks == [] then [] else stops + [Reported(route, ks[|ks| - 1], n)])
  {
    if ks != [] {
      var longer := stops + [Reported(route, ks[|ks| - 1], n)];
      forall i | 0 < i < |ks + [n]| ensures ReportedAt(route, ks + [n], longer, i) {
        if i < |ks| {
          assert ReportedAt(route, ks, stops, i);
        }
      }
    }
  }

  /** The two running values are those stored just after the last place met. */
  ghost predicate Remembers(route: seq<Info>, ks: seq<nat>, n: nat, distance: Option<u32>, duration: Option<u32>)
    requires n <= |route| && forall k :: k in ks ==> k < n
  {
    if ks == [] then distance == None && duration == None
    else if ks[|ks| - 1] + 1 < |route| then
      var after := route[ks[|ks| - 1] + 1].stop;
      distance == Some(after.distanceTo) && duration == Some(after.durationTo)
    else n == |route|
  }

  /** One more intermediate stop at place n. */
  lemma CollectOneMore(route: seq<Info>, first: nat, n: nat, stops: seq<Stop>, distance: Option<u32>,
                       duration: Option<u32>)
    requires Names(route, first) && n < |route| && Intermediate(route[n]) && route[n].stop.idx >= first
    requires ReportedInOrder(route, Places(route, first, n), stops)
    requires Remembers(route, Places(route, first, n), n, distance, duration)
    ensures route[n].stop.idx > first && distance.Some? ==> duration.Some?
    ensures ReportedInOrder(route, Places(route, first, n + 1),
              if route[n].stop.idx > first && distance.Some?
              then stops + [route[n].stop.(distanceTo := distance.value, durationTo := duration.value)] else stops)
  {
    var ks := Places(route, first, n);
    FirstPlace(route, first, n + 1);
    assert (ks + [n])[|ks|] == n;
    ReportOneMore(route, ks, stops, n);
  }

  lemma RemembersNext(route: seq<Info>, first: nat, n: nat, distance: Option<u32>, duration: Option<u32>,
                      distance': Option<u32>, duration': Option<u32>)
    requires n < |route| && Remembers(route, Places(route, first, n), n, distance, duration)
    requires if Intermediate(route[n]) && route[n].stop.idx >= first && n + 1 < |route|
             then distance' == Some(route[n + 1].stop.distanceTo) && duration' == Some(route[n + 1].stop.durationTo)
             else distance' == distance && duration' == duration
    ensures Remembers(route, Places(route, first, n + 1), n + 1, distance', duration')
  {
  }

  /** The walk over the route that collects the stops after `first`. */
  method CollectUpcoming(route: seq<Info>, first: nat) returns (stops: seq<Stop>)
    ensures Names(route, first) ==> ReportedInOrder(route, Places(route, first, |route|), stops)
  {
    stops := [];
    var distance: Option<u32>, duration: Option<u32> := None, None;
    ghost var good := Names(route, first);
    for n := 0 to |route|
      invariant good ==> ReportedInOrder(route, Places(route, first, n), stops)
      invariant Remembers(route, Places(route, first, n), n, distance, duration)
    {
      if good && Intermediate(route[n]) && route[n].stop.idx >= first {
        CollectOneMore(route, first, n, stops, distance, duration);
      }
      ghost var was := (distance, duration);
      var stop := route[n].stop;
      if stop.kind == IntermediateStop && stop.idx > first {
        if distance.Some? && duration.Some? {
          stops := stops + [stop.(distanceTo := distance.value, durationTo := duration.value)];
        }
      }
      if stop.kind == IntermediateStop && stop.idx >= first {
        if n + 1 < |route| {
          distance, duration := Some(route[n + 1].stop.distanceTo), Some(route[n + 1].stop.durationTo);
        }
      }
      RemembersNext(route, first, n, was.0, was.1, distance, duration);
    }
  }

  /** The distance that is left from the projection: that of the nearer end, less or plus the way to this end. */
  function DistanceLeft(route: seq<Info>, p: Projection): u32
    requires p.segment + 1 < |route|
  {
    ToU32(if p.toStart < p.toEnd then route[p.segment].stop.distanceTo as real - p.toStart
          else route[p.segment + 1].stop.distanceTo as real + p.toEnd)
  }

  /** The distance that lies behind, to the previous stop. */
  function DistanceDone(route: seq<Info>, p: Projection): u32
    requires p.segment + 1 < |route|
  {
    ToU32(if p.toStart < p.toEnd then route[p.segment].stop.distanceFromPrevious as real + p.toStart
          else route[p.segment + 1].stop.distanceFromPrevious as real - p.toEnd)
  }

  /**
   * The first upcoming stop, then every later intermediate stop in route order.
   * The first one is the stop of the segment's nearer end, with the distances
   * from the projection; a remembered stop of its number stands in if it is
   * nearer than that and less than 50 m away from it.
   */
  method GetUpcomingStops(prev: Option<seq<Arrival>>, route: seq<Info>, projection: Option<Projection>,
                          distance: (Point, Point) -> real) returns (r: Option<seq<Stop>>)
    requires projection.Some? ==> projection.value.segment + 1 < |route|
    ensures r.Some? <==> projection.Some?
    ensures r.Some? ==>
      var p := projection.value;
      var end := route[if p.toStart < p.toEnd then p.segment else p.segment + 1].stop;
      var known := if prev.Some? then FindByIdx(prev.value, end.idx) else None;
      r.value != [] &&
      r.value[0] == (if known.Some? && known.value.distanceTo < DistanceLeft(route, p) &&
                        distance(known.value.coordinate, end.coordinate) < 50.0
                     then known.value
                     else end.(distanceTo := DistanceLeft(route, p), distanceFromPrevious := DistanceDone(route, p))) &&
      (Names(route, end.idx) ==> ReportedInOrder(route, Places(route, end.idx, |route|), r.value[1..]))
  {
    if projection.None? {
      return None;
    }
    var p := projection.value;
    var nearest, delta := route[p.segment + 1].stop, p.toEnd;
    if p.toStart < p.toEnd {
      nearest, delta := route[p.segment].stop, -p.toStart;
    }
    var first := FirstUpcoming(prev, nearest, delta, distance);
    var later := CollectUpcoming(route, first.idx);
    return Some([first] + later);
  }

  lemma ReportedIdx(route: seq<Info>, first: nat, stops: seq<Stop>, i: nat)
    requires Names(route, first) && ReportedInOrder(route, Places(route, first, |route|), stops) && i < |stops|
    ensures var ks := Places(route, first, |route|);
            i + 1 < |ks| && stops[i].idx == route[ks[i + 1]].stop.idx > first
  {
    var ks := Places(route, first, |route|);
    assert ReportedAt(route, ks, stops, i + 1);
    FirstPlace(route, first, |route|);
  }

  /** The numbers of the later stops go up, from above the first. */
  lemma UpcomingIsOrdered(route: seq<Info>, first: nat, stops: seq<Stop>)
    requires Names(route, first) && ReportedInOrder(route, Places(route, first, |route|), stops)
    ensures forall i :: 0 <= i < |stops| ==> first < stops[i].idx
    ensures forall i, j :: 0 <= i < j < |stops| ==> stops[i].idx < stops[j].idx
  {
    forall i | 0 <= i < |stops| ensures first < stops[i].idx {
      ReportedIdx(route, first, stops, i);
    }
    forall i, j | 0 <= i < j < |stops| ensures stops[i].idx < stops[j].idx {
      ReportedBefore(route, first, stops, i, j);
    }
  }

  lemma ReportedBefore(route: seq<Info>, first: nat, stops: seq<Stop>, i: nat, j: nat)
    requires Names(route, first) && ReportedInOrder(route, Places(route, first, |route|), stops) && i < j < |stops|
    ensures stops[i].idx < stops[j].idx
  {
    PlacesGrow(route, first, |route|);
    var ks := Places(route, first, |route|);
    ReportedIdx(route, first, stops, i);
    ReportedIdx(route, first, stops, j);
    assert ks[i + 1] < ks[j + 1];
    assert Numbered(route) && Intermediate(route[ks[i + 1]]) && Intermediate(route[ks[j + 1]]);
  }

  /** The place in the result of a stop that is still ahead. */
  lemma PlaceAhead(route: seq<Info>, first: nat, stops: seq<Stop>, k: nat) returns (i: nat)
    requires Names(route, first) && ReportedInOrder(route, Places(route, first, |route|), stops)
    requires k < |route| && Intermediate(route[k]) && route[k].stop.idx > first
    ensures i < |stops| && stops[i].idx == route[k].stop.idx
  {
    var ks := Places(route, first, |route|);
    PlacesGrow(route, first, |route|);
    var at :| 0 <= at < |ks| && ks[at] == k;
    FirstPlace(route, first, |route|);
    i := at - 1;
    ReportedIdx(route, first, stops, i);
  }

  /** A stop of the route is reported after the first one exactly when its number is higher. */
  lemma UpcomingIsComplete(route: seq<Info>, first: nat, stops: seq<Stop>, k: nat)
    requires Names(route, first) && ReportedInOrder(route, Places(route, first, |route|), stops)
    requires k < |route| && Intermediate(route[k])
    ensures route[k].stop.idx > first <==> exists i :: 0 <= i < |stops| && stops[i].idx == route[k].stop.idx
  {
    if route[k].stop.idx > first {
      var i := PlaceAhead(route, first, stops, k);
    } else {
      forall i | 0 <= i < |stops| ensures stops[i].idx != route[k].stop.idx {
        ReportedIdx(route, first, stops, i);
      }
    }
  }

  // ----- arrival times -----

  function FindStop(stops: seq<Stop>, idx: nat): Option<Stop> {
    if stops == [] then None
    else if stops[0].idx == idx then Some(stops[0])
    else FindStop(stops[1..], idx)
  }

  lemma {:induction false} FoundStop(stops: seq<Stop>, idx: nat)
    ensures FindStop(stops, idx).Some? ==> FindStop(stops, idx).value.idx == idx && FindStop(stops, idx).value in stops
    ensures FindStop(stops, idx).None? ==> forall s :: s in stops ==> s.idx != idx
  {
    if stops != [] {
      FoundStop(stops[1..], idx);
    }
  }

  /** A float-to-u64 cast: whole seconds, nothing below zero. */
  function WholeSeconds(millis: int): nat {
    if millis <= 0 then 0 else millis / 1000
  }

  function Seconds(millis: int): real {
    millis as real / 1000.0
  }

  function TotalDuration(stops: seq<Stop>, n: nat): nat
    requires n <= |stops|
  {
    if n == 0 then 0 else TotalDuration(stops, n - 1) + stops[n - 1].durationTo
  }

  /** The refreshed entry a keeps the stop number of p, and is upcoming exactly when that stop still is. */
  ghost predicate Matches(p: Arrival, stops: seq<Stop>, a: Arrival) {
    var found := FindStop(stops, p.stop.idx);
    a.stop.idx == p.stop.idx &&
    if found.Some? then a.status == Upcoming && a.stop == found.value
    else a.status == Reached && a.stop == p.stop && a.eta == p.eta
  }

  /** The refreshed list matches the previous one entry by entry. */
  ghost predicate SameShape(prev: seq<Arrival>, stops: seq<Stop>, out: seq<Arrival>, n: nat)
    requires n <= |prev|
  {
    |out| == n && forall i :: 0 <= i < n ==> Matches(prev[i], stops, out[i])
  }

  /** The stop of the entry has been passed since the previous list. */
  predicate JustReached(p: Arrival, stops: seq<Stop>) {
    FindStop(stops, p.stop.idx).None? && p.status == Upcoming
  }

  /** The delay at the last of the first n entries that was just reached. */
  function LatestDelay(prev: seq<Arrival>, stops: seq<Stop>, now: int, n: nat): Option<real>
    requires n <= |prev|
  {
    if n == 0 then None
    else if JustReached(prev[n - 1], stops) then Some(Seconds(now - prev[n - 1].eta))
    else LatestDelay(prev, stops, now, n - 1)
  }

  /** The arrival at the last upcoming one of the first n entries: a delay is added, earliness is not. */
  function ArrivalAfter(prev: seq<Arrival>, stops: seq<Stop>, now: int, n: nat): int
    requires n <= |prev|
  {
    if n == 0 then now
    else
      var before, found := ArrivalAfter(prev, stops, now, n - 1), FindStop(stops, prev[n - 1].stop.idx);
      if found.None? then before
      else before + 1000 * (WholeSeconds(before - prev[n - 1].eta) + found.value.durationTo)
  }

  /** What the entry shows: an own delay where just reached, the latest delay before it where upcoming. */
  ghost predicate Shows(prev: seq<Arrival>, stops: seq<Stop>, now: int, i: nat, a: Arrival)
    requires i < |prev|
  {
    if FindStop(stops, prev[i].stop.idx).Some? then
      a.eta == ArrivalAfter(prev, stops, now, i + 1) &&
      a.delta == var d := LatestDelay(prev, stops, now, i); if d.Some? then d.value else prev[i].delta
    else if prev[i].status == Upcoming then a.delta == Seconds(now - prev[i].eta)
    else a == prev[i]
  }

  /** The entry is reached no earlier than travelling from `start` on allows. */
  predicate EtaFrom(a: Arrival, start: int) {
    a.eta >= start + 1000 * a.stop.durationTo
  }

  /** Upcoming entries are reached no earlier than travelling allows, from `now` on. */
  ghost predicate InTravelOrder(out: seq<Arrival>, now: int) {
    (forall j :: 0 <= j < |out| && out[j].status == Upcoming ==> EtaFrom(out[j], now)) &&
    (forall i, j :: 0 <= i < j < |out| && out[i].status == Upcoming && out[j].status == Upcoming ==>
       EtaFrom(out[j], out[i].eta))
  }

  /** The entry after the first n, from the delay and the arrival that these lead to. */
  method RefreshEntry(prev: seq<Arrival>, stops: seq<Stop>, now: int, n: nat, prevDelta: Option<real>, etaTime: int)
    returns (a: Arrival, nextDelta: Option<real>, nextTime: int)
    requires n < |prev| && prevDelta == LatestDelay(prev, stops, now, n) && etaTime == ArrivalAfter(prev, stops, now, n)
    ensures Matches(prev[n], stops, a) && Shows(prev, stops, now, n, a)
    ensures nextDelta == LatestDelay(prev, stops, now, n + 1) && nextTime == ArrivalAfter(prev, stops, now, n + 1)
  {
    nextDelta, nextTime := prevDelta, etaTime;
    var p := prev[n];
    var found := FindStop(stops, p.stop.idx);
    FoundStop(stops, p.stop.idx);
    if found.Some? {
      var diff := etaTime - p.eta;
      var neutral := if diff < 0 then etaTime - 1000 * WholeSeconds(diff) else etaTime + 1000 * WholeSeconds(diff);
      nextTime := neutral + 1000 * found.value.durationTo;
      a := Arrival(found.value, nextTime, if prevDelta.Some? then prevDelta.value else p.delta, Upcoming);
    } else if p.status == Upcoming {
      var delta := Seconds(now - p.eta);
      nextDelta := Some(delta);
      a := Arrival(p.stop, p.eta, delta, Reached);
    } else {
      a := p;
    }
  }

  /** The list `out` is the refreshed one. */
  ghost predicate Refreshed(prev: seq<Arrival>, stops: seq<Stop>, out: seq<Arrival>, now: int) {
    SameShape(prev, stops, out, |prev|) && forall i :: 0 <= i < |prev| ==> Shows(prev, stops, now, i, out[i])
  }

  method RefreshEta(prev: seq<Arrival>, stops: seq<Stop>, now: int) returns (out: seq<Arrival>)
    ensures Refreshed(prev, stops, out, now)
    ensures InTravelOrder(out, now)
  {
    out := [];
    var prevDelta: Option<real> := None;
    var etaTime := now;
    for n := 0 to |prev|
      invariant SameShape(prev, stops, out, n)
      invariant forall i :: 0 <= i < n ==> Shows(prev, stops, now, i, out[i])
      invariant prevDelta == LatestDelay(prev, stops, now, n) && etaTime == ArrivalAfter(prev, stops, now, n)
    {
      var a: Arrival;
      a, prevDelta, etaTime := RefreshEntry(prev, stops, now, n, prevDelta, etaTime);
      out := out + [a];
    }
    ShowsInOrder(prev, stops, out, now);
  }

  lemma {:induction false} ArrivalGrows(prev: seq<Arrival>, stops: seq<Stop>, now: int, i: nat, j: nat)
    requires i <= j <= |prev|
    ensures now <= ArrivalAfter(prev, stops, now, i) <= ArrivalAfter(prev, stops, now, j)
    decreases j
  {
    if i < j {
      ArrivalGrows(prev, stops, now, i, j - 1);
    } else if j > 0 {
      ArrivalGrows(prev, stops, now, j - 1, j - 1);
    }
  }

  lemma EntryEta(prev: seq<Arrival>, stops: seq<Stop>, now: int, i: nat, a: Arrival)
    requires i < |prev| && Matches(prev[i], stops, a) && Shows(prev, stops, now, i, a) && a.status == Upcoming
    ensures a.eta == ArrivalAfter(prev, stops, now, i + 1)
    ensures a.eta >= ArrivalAfter(prev, stops, now, i) + 1000 * a.stop.durationTo
  {
  }

  lemma EtasApart(prev: seq<Arrival>, stops: seq<Stop>, now: int, i: nat, j: nat, a: Arrival, b: Arrival)
    requires i < j < |prev| && a.status == b.status == Upcoming
    requires Matches(prev[i], stops, a) && Shows(prev, stops, now, i, a)
    requires Matches(prev[j], stops, b) && Shows(prev, stops, now, j, b)
    ensures b.eta >= a.eta + 1000 * b.stop.durationTo
  {
    EntryEta(prev, stops, now, i, a);
    EntryEta(prev, stops, now, j, b);
    ArrivalGrows(prev, stops, now, i + 1, j);
  }

  lemma ShowsInOrder(prev: seq<Arrival>, stops: seq<Stop>, out: seq<Arrival>, now: int)
    requires SameShape(prev, stops, out, |prev|)
    requires forall i :: 0 <= i < |prev| ==> Shows(prev, stops, now, i, out[i])
    ensures InTravelOrder(out, now)
  {
    forall j | 0 <= j < |out| && out[j].status == Upcoming ensures EtaFrom(out[j], now) {
      EntryEta(prev, stops, now, j, out[j]);
      ArrivalGrows(prev, stops, now, j, j);
    }
    forall i, j | 0 <= i < j < |out| && out[i].status == Upcoming && out[j].status == Upcoming
      ensures EtaFrom(out[j], out[i].eta)
    {
      EtasApart(prev, stops, now, i, j, out[i], out[j]);
    }
  }

  // ----- the refreshed list, read off its own entries -----

  /** Entry i is upcoming, or there is none yet, and so is j; those between them are not. */
  predicate NextUpcoming(out: seq<Arrival>, i: int, j: nat) {
    -1 <= i < j < |out| && (0 <= i ==> out[i].status == Upcoming) && out[j].status == Upcoming &&
    forall k :: i < k < j ==> out[k].status == Reached
  }

  lemma {:induction false} ArrivalStands(prev: seq<Arrival>, stops: seq<Stop>, now: int, i: nat, j: nat)
    requires i <= j <= |prev| && forall k :: i <= k < j ==> FindStop(stops, prev[k].stop.idx).None?
    ensures ArrivalAfter(prev, stops, now, j) == ArrivalAfter(prev, stops, now, i)
    decreases j
  {
    if i < j {
      ArrivalStands(prev, stops, now, i, j - 1);
    }
  }

  /**
   * From one upcoming stop to the next: the arrival moves on by the travel
   * duration, and by the whole seconds that the start lies behind the time at
   * which the next stop was planned. The first one counts from now.
   */
  lemma ArrivalsFollow(prev: seq<Arrival>, stops: seq<Stop>, out: seq<Arrival>, now: int, i: int, j: nat)
    requires Refreshed(prev, stops, out, now) && NextUpcoming(out, i, j)
    ensures var start := if i == -1 then now else out[i].eta;
            var late := if start > prev[j].eta then (start - prev[j].eta) / 1000 else 0;
            out[j].eta == start + 1000 * (late + out[j].stop.durationTo)
  {
    forall k | 0 <= k <= j ensures Matches(prev[k], stops, out[k]) && Shows(prev, stops, now, k, out[k]) {
    }
    ArrivalStands(prev, stops, now, i + 1, j);
  }

  /** The stop was upcoming before, and has been reached. */
  predicate ReachedSince(prev: seq<Arrival>, out: seq<Arrival>, i: nat)
    requires i < |prev| && i < |out|
  {
    prev[i].status == Upcoming && out[i].status == Reached
  }

  lemma {:induction false} DelayStands(prev: seq<Arrival>, stops: seq<Stop>, now: int, i: nat, j: nat)
    requires i <= j <= |prev| && forall k :: i <= k < j ==> !JustReached(prev[k], stops)
    ensures LatestDelay(prev, stops, now, j) == LatestDelay(prev, stops, now, i)
    decreases j
  {
    if i < j {
      DelayStands(prev, stops, now, i, j - 1);
    }
  }

  /**
   * An upcoming stop shows the delay of the last stop before it that has been
   * reached since, and what it showed before if there is none; a stop that has
   * been reached since shows how long after the planned time that was.
   */
  lemma DelaysFollow(prev: seq<Arrival>, stops: seq<Stop>, out: seq<Arrival>, now: int, i: int, j: nat)
    requires Refreshed(prev, stops, out, now) && -1 <= i < j < |out| && out[j].status == Upcoming
    requires (0 <= i ==> ReachedSince(prev, out, i)) && forall k :: i < k < j ==> !ReachedSince(prev, out, k)
    ensures out[j].delta == if i == -1 then prev[j].delta else out[i].delta
    ensures 0 <= i ==> out[i].delta == (now - prev[i].eta) as real / 1000.0
  {
    forall k | 0 <= k <= j
      ensures Matches(prev[k], stops, out[k]) && Shows(prev, stops, now, k, out[k])
      ensures ReachedSince(prev, out, k) <==> JustReached(prev[k], stops)
    {
      assert Matches(prev[k], stops, out[k]);
    }
    DelayStands(prev, stops, now, i + 1, j);
  }

  ghost predicate Scheduled(stops: seq<Stop>, out: seq<Arrival>, n: nat, now: int)
    requires n <= |stops|
  {
    |out| == n &&
    forall i :: 0 <= i < n ==> ScheduledAt(stops, out[i], i, now)
  }

  ghost predicate ScheduledAt(stops: seq<Stop>, a: Arrival, i: nat, now: int)
    requires i < |stops|
  {
    a == Arrival(stops[i], now + 1000 * TotalDuration(stops, i + 1), 0.0, Upcoming)
  }

  /** A first schedule: every stop after the travel times of all stops up to it. */
  method FirstEta(stops: seq<Stop>, now: int) returns (out: seq<Arrival>)
    ensures Scheduled(stops, out, |stops|, now)
  {
    out := [];
    var durations := 0;
    for n := 0 to |stops|
      invariant durations == TotalDuration(stops, n)
      invariant Scheduled(stops, out, n, now)
    {
      durations := durations + stops[n].durationTo;
      out := out + [Arrival(stops[n], now + 1000 * durations, 0.0, Upcoming)];
    }
  }

  method EstimatedUpcomingStopsEta(prev: Option<seq<Arrival>>, stops: seq<Stop>, now: int)
    returns (r: Option<seq<Arrival>>)
    ensures r == None <==> stops == [] && prev == None
    ensures prev.Some? && |prev.value| >= |stops| ==> Refreshed(prev.value, stops, r.value, now)
    ensures !(prev.Some? && |prev.value| >= |stops|) && stops != [] ==> Scheduled(stops, r.value, |stops|, now)
    ensures r.Some? ==> InTravelOrder(r.value, now)
  {
    if prev.Some? && |prev.value| >= |stops| {
      var out := RefreshEta(prev.value, stops, now);
      return Some(out);
    }
    if stops == [] {
      return None;
    }
    var out := FirstEta(stops, now);
    FirstInOrder(stops, out, now);
    return Some(out);
  }

  lemma {:induction false} DurationsGrow(stops: seq<Stop>, i: nat, j: nat)
    requires i <= j <= |stops|
    ensures TotalDuration(stops, i) <= TotalDuration(stops, j)
    decreases j
  {
    if i < j {
      DurationsGrow(stops, i, j - 1);
    }
  }

  lemma FirstInOrder(stops: seq<Stop>, out: seq<Arrival>, now: int)
    requires Scheduled(stops, out, |stops|, now)
    ensures InTravelOrder(out, now)
  {
    forall j | 0 <= j < |out| ensures EtaFrom(out[j], now) {
      assert ScheduledAt(stops, out[j], j, now);
    }
    forall i, j | 0 <= i < j < |out| ensures EtaFrom(out[j], out[i].eta) {
      assert ScheduledAt(stops, out[i], i, now) && ScheduledAt(stops, out[j], j, now);
      DurationsGrow(stops, i + 1, j);
    }
  }

  // ----- approaching one stop -----

  /** One report: the stop the projection finds ahead, how much further on that is, the list then stored, the answer. */
  datatype Report = Report(nearest: Stop, delta: real, list: Option<seq<Arrival>>, stop: Stop)

  /** The stop that a list remembers under a number. */
  function Remembered(list: Option<seq<Arrival>>, idx: nat): Option<Stop> {
    if list.Some? then FindByIdx(list.value, idx) else None
  }

  /**
   * Reports of the stop with this number at this place, one after the other: the
   * first list does not know the stop, every later one lists it as last reported.
   */
  predicate Approaches(rs: seq<Report>, idx: nat, place: Point, distance: (Point, Point) -> real) {
    rs == [] ||
    var p, r := rs[..|rs| - 1], rs[|rs| - 1];
    Approaches(p, idx, place, distance) && r.nearest.idx == idx && r.nearest.coordinate == place &&
    r.stop == FirstUpcoming(r.list, r.nearest, r.delta, distance) &&
    Remembered(r.list, idx) == if p == [] then None else Some(p[|p| - 1].stop)
  }

  /** The least distance that any of the projections gives. */
  function LeastDistance(rs: seq<Report>): nat
    requires rs != []
  {
    var r := rs[|rs| - 1];
    var here := Corrected(r.nearest, r.delta).distanceTo;
    if |rs| == 1 then here else Min(LeastDistance(rs[..|rs| - 1]), here)
  }

  /** One report, from what the list remembers. */
  lemma OneReport(r: Report, place: Point, distance: (Point, Point) -> real)
    requires r.nearest.coordinate == place && distance(place, place) < 50.0
    requires var known := Remembered(r.list, r.nearest.idx); known.Some? ==> known.value.coordinate == place
    ensures var s, known := FirstUpcoming(r.list, r.nearest, r.delta, distance), Remembered(r.list, r.nearest.idx);
            var here := Corrected(r.nearest, r.delta).distanceTo;
            s.idx == r.nearest.idx && s.coordinate == place &&
            s.distanceTo == if known.Some? then Min(known.value.distanceTo, here) else here
  {
  }

  /**
   * While the vehicle approaches one stop, the reported distance is the least
   * that any projection so far has given: it never goes up again.
   */
  lemma {:induction false} NeverRecedes(rs: seq<Report>, idx: nat, place: Point, distance: (Point, Point) -> real)
    requires rs != [] && Approaches(rs, idx, place, distance) && distance(place, place) < 50.0
    ensures var last := rs[|rs| - 1].stop;
            last.idx == idx && last.coordinate == place && last.distanceTo == LeastDistance(rs)
  {
    var p := rs[..|rs| - 1];
    if p != [] {
      NeverRecedes(p, idx, place, distance);
    }
    OneReport(rs[|rs| - 1], place, distance);
  }

  /** A refreshed list remembers a reported stop that the list before knew by its number. */
  lemma {:induction false} RefreshRemembers(prev: seq<Arrival>, stops: seq<Stop>, out: seq<Arrival>, idx: nat)
    requires SameShape(prev, stops, out, |prev|)
    requires FindByIdx(prev, idx).Some? && FindStop(stops, idx).Some?
    ensures FindByIdx(out, idx) == FindStop(stops, idx)
    decreases |prev|
  {
    assert Matches(prev[0], stops, out[0]);
    if prev[0].stop.idx != idx {
      assert SameShape(prev[1..], stops, out[1..], |prev| - 1);
      RefreshRemembers(prev[1..], stops, out[1..], idx);
    }
  }

  /** A first schedule remembers its first stop. */
  lemma ScheduleRemembers(stops: seq<Stop>, out: seq<Arrival>, now: int)
    requires stops != [] && Scheduled(stops, out, |stops|, now)
    ensures FindByIdx(out, stops[0].idx) == Some(stops[0])
  {
    assert ScheduledAt(stops, out[0], 0, now);
  }
}
