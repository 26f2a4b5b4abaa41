/** What the upcoming-stop walk reports on a route that the reverse pass has prepared. */
module RouteReports {
  import opened Common
  import opened Means
  import opened Route
  import opened Upcoming

  /** The waypoints among the first n that carry a stop. */
  function Infos(vs: seq<Waypoint>, n: nat): seq<Info>
    requires n <= |vs|
  {
    if n == 0 then []
    else if vs[n - 1].stop.Some? then Infos(vs, n - 1) + [Info(vs[n - 1].point, vs[n - 1].stop.value)]
    else Infos(vs, n - 1)
  }

  lemma {:induction false} InfosExtend(vs: seq<Waypoint>, m: nat, n: nat)
    requires m <= n <= |vs|
    ensures Infos(vs, m) <= Infos(vs, n)
    decreases n
  {
    if m < n {
      InfosExtend(vs, m, n - 1);
    }
  }

  lemma {:induction false} InfosKeepAll(vs: seq<Waypoint>, n: nat)
    requires n <= |vs| && forall i :: 0 <= i < n ==> vs[i].stop.Some?
    ensures |Infos(vs, n)| == n
    ensures forall i :: 0 <= i < n ==> Infos(vs, n)[i] == Info(vs[i].point, vs[i].stop.value)
  {
    if n > 0 {
      InfosKeepAll(vs, n - 1);
    }
  }

  lemma {:induction false} StopsAheadOf(ws: seq<Waypoint>, i: nat, u: nat)
    requires i <= u < |ws| && IsStop(ws[u], IntermediateStop)
    ensures NextStop(ws, i) <= u
    decreases u - i
  {
    if i < u {
      StopsAheadOf(ws, i + 1, u);
    }
  }

  /**
   * For two neighbouring intermediate stops p and u: the entry that the walk
   * reads for u, just after p, misses exactly the first segment of the leg,
   * in distance and in time.
   */
  lemma ReportMissesFirstSegment(ws: seq<Waypoint>, vs: seq<Waypoint>, p: nat, u: nat, world: World)
    requires |vs| == |ws| && FinishedFrom(ws, vs, 0, world)
    requires p < u < |ws| && LegStart(ws, u) == p
    requires IsStop(ws[p], IntermediateStop) && IsStop(ws[u], IntermediateStop)
    ensures var infos := Infos(vs, |vs|);
            u < |infos| && Intermediate(infos[p]) && Intermediate(infos[u]) &&
            infos[u].stop.idx == ws[u].stop.value.idx &&
            Reported(infos, p, u).distanceTo + Segment(ws, p, world) == LegLength(ws, u, world) &&
            Reported(infos, p, u).durationTo + SegmentTime(ws, p, u, world) == Time(ws, p, u, world)
  {
    forall i | 0 <= i <= u ensures vs[i].stop.Some? {
      StopsAheadOf(ws, i, u);
      assert Finished(ws, i, vs[i], world);
    }
    InfosKeepAll(vs, u + 1);
    InfosExtend(vs, u + 1, |vs|);
    assert Finished(ws, p, vs[p], world) && Finished(ws, u, vs[u], world) && Finished(ws, p + 1, vs[p + 1], world);
    StopsAheadOf(ws, p + 1, u);
    assert NextStop(ws, p + 1) == u;
  }

  // ----- the list that is returned -----

  /** Every listed waypoint comes from its place among those that carry a stop. */
  lemma {:induction false} InfoSource(vs: seq<Waypoint>, n: nat, k: nat) returns (j: nat)
    requires n <= |vs| && k < |Infos(vs, n)|
    ensures j < n && vs[j].stop.Some? && |Infos(vs, j)| == k
    ensures Infos(vs, n)[k] == Info(vs[j].point, vs[j].stop.value)
  {
    if vs[n - 1].stop.Some? && k == |Infos(vs, n - 1)| {
      j := n - 1;
    } else {
      j := InfoSource(vs, n - 1, k);
    }
  }

  /** All waypoints up to an intermediate stop carry a stop, so they keep their places. */
  lemma PlacesKept(ws: seq<Waypoint>, vs: seq<Waypoint>, u: nat, world: World)
    requires |vs| == |ws| && FinishedFrom(ws, vs, 0, world) && u < |ws| && NextStop(ws, u) < |ws|
    ensures |Infos(vs, u)| == u < |Infos(vs, |vs|)| && vs[u].stop.Some?
    ensures Infos(vs, |vs|)[u] == Info(vs[u].point, vs[u].stop.value)
  {
    forall i | 0 <= i <= u ensures vs[i].stop.Some? {
      StopsAheadOf(ws, i, NextStop(ws, u));
      assert Finished(ws, i, vs[i], world);
    }
    InfosKeepAll(vs, u);
    InfosKeepAll(vs, u + 1);
    InfosExtend(vs, u + 1, |vs|);
  }

  /** The intermediate stops of the list are those of the route, in the same places. */
  lemma IntermediatePlace(ws: seq<Waypoint>, vs: seq<Waypoint>, k: nat, world: World)
    requires |vs| == |ws| && FinishedFrom(ws, vs, 0, world)
    requires k < |Infos(vs, |vs|)| && Intermediate(Infos(vs, |vs|)[k])
    ensures k < |ws| && IsStop(ws[k], IntermediateStop) && ws[k].stop.value.idx == Infos(vs, |vs|)[k].stop.idx
  {
    var j := InfoSource(vs, |vs|, k);
    assert Finished(ws, j, vs[j], world);
    PlacesKept(ws, vs, j, world);
  }

  lemma PlaceOfStop(ws: seq<Waypoint>, vs: seq<Waypoint>, u: nat, world: World)
    requires |vs| == |ws| && FinishedFrom(ws, vs, 0, world) && u < |ws| && IsStop(ws[u], IntermediateStop)
    ensures u < |Infos(vs, |vs|)| && Intermediate(Infos(vs, |vs|)[u])
  {
    assert Finished(ws, u, vs[u], world);
    PlacesKept(ws, vs, u, world);
  }

  lemma {:induction false} LegStartIs(ws: seq<Waypoint>, p: nat, u: nat)
    requires p < u <= |ws| && IsStop(ws[p], IntermediateStop)
    requires forall j :: p < j < u ==> !IsStop(ws[j], IntermediateStop)
    ensures LegStart(ws, u) == p
  {
    if p < u - 1 {
      LegStartIs(ws, p, u - 1);
    }
  }

  /** Neighbouring places of the list are the two ends of a leg. */
  lemma NeighboursEndLeg(ws: seq<Waypoint>, vs: seq<Waypoint>, world: World, first: nat, i: nat)
    requires |vs| == |ws| && FinishedFrom(ws, vs, 0, world) && Names(Infos(vs, |vs|), first)
    requires i + 1 < |Places(Infos(vs, |vs|), first, |Infos(vs, |vs|)|)|
    ensures var ks := Places(Infos(vs, |vs|), first, |Infos(vs, |vs|)|);
            var p, u := ks[i], ks[i + 1];
            p < u < |ws| && IsStop(ws[p], IntermediateStop) && IsStop(ws[u], IntermediateStop) && LegStart(ws, u) == p
  {
    var route := Infos(vs, |vs|);
    var ks := Places(route, first, |route|);
    var p, u := ks[i], ks[i + 1];
    PlacesGrow(route, first, |route|);
    IntermediatePlace(ws, vs, p, world);
    IntermediatePlace(ws, vs, u, world);
    forall j | p < j < u ensures !IsStop(ws[j], IntermediateStop) {
      if IsStop(ws[j], IntermediateStop) {
        PlaceOfStop(ws, vs, j, world);
        NextPlace(route, first, ks, i, j);
      }
    }
    LegStartIs(ws, p, u);
  }

  /** A stop behind place i of the list is not before place i + 1. */
  lemma NextPlace(route: seq<Info>, first: nat, ks: seq<nat>, i: nat, j: nat)
    requires ks == Places(route, first, |route|) && Numbered(route) && i + 1 < |ks|
    requires ks[i] < j < |route| && Intermediate(route[j])
    ensures ks[i + 1] <= j
  {
    PlacesGrow(route, first, |route|);
    assert route[ks[i]].stop.idx < route[j].stop.idx;
    var at :| 0 <= at < |ks| && ks[at] == j;
    assert i < at;
    if i + 1 < at {
      assert ks[i + 1] < ks[at];
    }
  }

  /**
   * End to end: on a route that the reverse pass has prepared and whose stops
   * are numbered in order, every stop that the walk returns after the first
   * carries its leg without the leg's first segment, in distance and in time.
   */
  lemma ReturnedStopsMissFirstSegment(ws: seq<Waypoint>, vs: seq<Waypoint>, world: World, first: nat, stops: seq<Stop>,
                                      i: nat)
    requires |vs| == |ws| && FinishedFrom(ws, vs, 0, world) && Names(Infos(vs, |vs|), first)
    requires ReportedInOrder(Infos(vs, |vs|), Places(Infos(vs, |vs|), first, |Infos(vs, |vs|)|), stops)
    requires i < |stops|
    ensures var ks := Places(Infos(vs, |vs|), first, |Infos(vs, |vs|)|);
            i + 1 < |ks| &&
            var p, u := ks[i], ks[i + 1];
            p < u < |ws| && IsStop(ws[u], IntermediateStop) && LegStart(ws, u) == p &&
            stops[i].idx == ws[u].stop.value.idx &&
            stops[i].distanceTo + Segment(ws, p, world) == LegLength(ws, u, world) &&
            stops[i].durationTo + SegmentTime(ws, p, u, world) == Time(ws, p, u, world)
  {
    var route := Infos(vs, |vs|);
    var ks := Places(route, first, |route|);
    NeighboursEndLeg(ws, vs, world, first, i);
    assert ReportedAt(route, ks, stops, i + 1);
    ReportMissesFirstSegment(ws, vs, ks[i], ks[i + 1], world);
  }

  // ----- a route on which it shows -----

  function StopNo(idx: nat): Stop {
    Stop(idx, Point(0.0, 0.0), 0, 0, 0, IntermediateStop, idx)
  }

  /** Two stops with one waypoint between them, ten metres apart each, a minute's travel in all. */
  const TWO_SEGMENTS := [Waypoint(Point(0.0, 0.0), Some(StopNo(1))), Waypoint(Point(1.0, 0.0), None),
                         Waypoint(Point(2.0, 0.0), Some(StopNo(2)))]

  const EVEN := World((_, _) => 10.0, _ => 60)

  lemma EvenLeg()
    ensures LegStart(TWO_SEGMENTS, 2) == 0 && Segment(TWO_SEGMENTS, 0, EVEN) == 10
    ensures LegLength(TWO_SEGMENTS, 2, EVEN) == 20
    ensures SegmentTime(TWO_SEGMENTS, 0, 2, EVEN) == 30 && Time(TWO_SEGMENTS, 0, 2, EVEN) == 60
  {
    var ws := TWO_SEGMENTS;
    assert LegStart(ws, 1) == 0;
    assert Segment(ws, 0, EVEN) == Segment(ws, 1, EVEN) == 10;
    assert Way(ws, 1, 2, EVEN) == 10;
    assert Way(ws, 0, 2, EVEN) == 20;
    assert Time(ws, 1, 2, EVEN) == SegmentTime(ws, 1, 2, EVEN) == 30;
  }

  /** A route the pass accepts: it makes the second stop 20 m and 60 s away, and 10 m and 30 s are reported. */
  lemma HalfTheLegIsReported(vs: seq<Waypoint>)
    requires |vs| == 3 && FinishedFrom(TWO_SEGMENTS, vs, 0, EVEN)
    ensures LegLength(TWO_SEGMENTS, 2, EVEN) == 20 && EVEN.travelTime(2) == 60
    ensures |Infos(vs, 3)| == 3 &&
            Reported(Infos(vs, 3), 0, 2).distanceTo == 10 && Reported(Infos(vs, 3), 0, 2).durationTo == 30
  {
    EvenLeg();
    ReportMissesFirstSegment(TWO_SEGMENTS, vs, 0, 2, EVEN);
    PlacesKept(TWO_SEGMENTS, vs, 2, EVEN);
  }

  lemma TwoSegmentsAreAccepted()
    ensures FromMap(TWO_SEGMENTS) && Fits(TWO_SEGMENTS, EVEN)
  {
    var ws := TWO_SEGMENTS;
    EvenLeg();
    WaySplits(ws, 0, 2, 3, EVEN);
    assert Way(ws, 2, 3, EVEN) == Segment(ws, 2, EVEN) + Way(ws, 3, 3, EVEN) == 0;
    forall u | 0 <= u < |ws| ensures LegLength(ws, u, EVEN) * EVEN.travelTime(u) <= 0xFFFF_FFFF {
      if u == 1 {
        assert Way(ws, 0, 1, EVEN) == 10;
      }
    }
  }
}
