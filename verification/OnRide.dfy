/** The positions collected during a ride: a bounded Redis list, bulk payloads, and the rest at ride end. */
module OnRide {
  import opened Common
  import opened Means

  datatype Location = Location(point: Point, accuracy: Option<real>, timestamp: int)

  datatype LocationType = Unfiltered | Filtered

  /** What one update is judged by. */
  datatype FilterConfig = FilterConfig(minAccuracy: real, buffer: real, distance: (Point, Point) -> real)

  // ----- which positions count -----

  predicate Same(a: Location, b: Location) {
    a.point == b.point
  }

  /** Without the positions that repeat the one kept before them. */
  function Dedup(ls: seq<Location>): (r: seq<Location>)
    ensures ls == [] <==> r == []
  {
    if ls == [] then []
    else
      var kept := Dedup(ls[..|ls| - 1]);
      var last := ls[|ls| - 1];
      if kept != [] && Same(kept[|kept| - 1], last) then kept else kept + [last]
  }

  /** Accurate enough, and away from the last known position. */
  predicate Counts(l: Location, last: Option<Point>, cfg: FilterConfig) {
    (if l.accuracy.Some? then l.accuracy.value else 0.0) <= cfg.minAccuracy &&
    (last.Some? ==> cfg.distance(last.value, l.point) > cfg.buffer)
  }

  function CountedPoints(ls: seq<Location>, last: Option<Point>, cfg: FilterConfig): seq<Location> {
    if ls == [] then []
    else
      var l := ls[|ls| - 1];
      if Counts(l, last, cfg) then CountedPoints(ls[..|ls| - 1], last, cfg) + [l]
      else CountedPoints(ls[..|ls| - 1], last, cfg)
  }

  /** The unfiltered positions of one update, in order. */
  function Kept(ls: seq<Location>, last: Option<Point>, cfg: FilterConfig): seq<Location> {
    CountedPoints(Dedup(ls), last, cfg)
  }

  method DedupConsecutive(ls: seq<Location>) returns (deduped: seq<Location>)
    ensures deduped == Dedup(ls)
  {
    deduped := [];
    for i := 0 to |ls|
      invariant deduped == Dedup(ls[..i])
    {
      assert ls[..i + 1][..i] == ls[..i];
      if deduped == [] || !Same(deduped[|deduped| - 1], ls[i]) {
        deduped := deduped + [ls[i]];
      }
    }
    assert ls[..|ls|] == ls;
  }

  method GetFilteredDriverLocations(ls: seq<Location>, last: Option<Point>, cfg: FilterConfig)
    returns (marked: seq<(Location, LocationType)>, anyUnfiltered: bool)
    ensures UnfilteredOf(marked) == Kept(ls, last, cfg)
    ensures anyUnfiltered <==> Kept(ls, last, cfg) != []
    ensures |marked| == |Dedup(ls)| && forall i :: 0 <= i < |marked| ==> marked[i].0 == Dedup(ls)[i]
    ensures forall i :: 0 <= i < |marked| ==>
      (marked[i].1 == Unfiltered <==>
       (if marked[i].0.accuracy.None? then 0.0 <= cfg.minAccuracy
        else marked[i].0.accuracy.value <= cfg.minAccuracy) &&
       (last.None? || cfg.distance(last.value, marked[i].0.point) > cfg.buffer))
  {
    var deduped := DedupConsecutive(ls);
    marked, anyUnfiltered := MarkAll(deduped, last, cfg);
    MarkedCounts(marked, deduped, last, cfg);
    forall i | 0 <= i < |marked| ensures marked[i].1 == Unfiltered <==> Counts(marked[i].0, last, cfg) {
    }
  }

  /** The fold over the deduplicated positions. */
  method MarkAll(ls: seq<Location>, last: Option<Point>, cfg: FilterConfig)
    returns (marked: seq<(Location, LocationType)>, anyUnfiltered: bool)
    ensures Marked(marked, ls, last, cfg)
    ensures anyUnfiltered <==> CountedPoints(ls, last, cfg) != []
  {
    marked, anyUnfiltered := [], false;
    for i := 0 to |ls|
      invariant Marked(marked, ls[..i], last, cfg)
      invariant anyUnfiltered <==> CountedPoints(ls[..i], last, cfg) != []
    {
      assert ls[..i + 1][..i] == ls[..i];
      var kind := if Counts(ls[i], last, cfg) then Unfiltered else Filtered;
      anyUnfiltered := anyUnfiltered || kind == Unfiltered;
      marked := marked + [(ls[i], kind)];
    }
    assert ls[..|ls|] == ls;
  }

  /** Every position is marked by whether it counts. */
  ghost predicate Marked(marked: seq<(Location, LocationType)>, ls: seq<Location>, last: Option<Point>,
                         cfg: FilterConfig)
  {
    |marked| == |ls| &&
    forall j :: 0 <= j < |ls| ==>
      marked[j].0 == ls[j] && (marked[j].1 == Unfiltered <==> Counts(ls[j], last, cfg))
  }

  lemma {:induction false} MarkedCounts(marked: seq<(Location, LocationType)>, ls: seq<Location>, last: Option<Point>,
                                        cfg: FilterConfig)
    requires Marked(marked, ls, last, cfg)
    ensures UnfilteredOf(marked) == CountedPoints(ls, last, cfg)
  {
    if ls != [] {
      MarkedCounts(marked[..|ls| - 1], ls[..|ls| - 1], last, cfg);
    }
  }

  function UnfilteredOf(marked: seq<(Location, LocationType)>): seq<Location> {
    if marked == [] then []
    else
      var last := marked[|marked| - 1];
      UnfilteredOf(marked[..|marked| - 1]) + if last.1 == Unfiltered then [last.0] else []
  }

  /** Deduplication keeps the first position of every stretch at one place, wherever the stretch lies. */
  lemma {:induction false} DedupKeepsFirsts(ls: seq<Location>)
    requires ls != []
    ensures var n := |ls| - 1;
            Dedup(ls) == Dedup(ls[..n]) + if n == 0 || ls[n - 1].point != ls[n].point then [ls[n]] else []
    ensures Dedup(ls)[|Dedup(ls)| - 1].point == ls[|ls| - 1].point
  {
    if |ls| > 1 {
      DedupKeepsFirsts(ls[..|ls| - 1]);
    }
  }

  // ----- the stored list -----

  /** The list after adding the points, and the bulk payload if the batch size would be passed. */
  function Add(list: seq<Location>, points: seq<Location>, batchSize: nat): (seq<Location>, seq<seq<Location>>) {
    if points == [] then (list, [])
    else if |list| + |points| > batchSize then ([], [list + points])
    else (list + points, [])
  }

  class OnRideList {
    var points: seq<Location>

    constructor ()
      ensures points == []
    {
      points := [];
    }

    /** LPOP with a count. */
    method LPop(n: nat) returns (r: seq<Location>)
      modifies this
      ensures r == old(points)[..Min(n, |old(points)|)] && points == old(points)[Min(n, |old(points)|)..]
    {
      var k := Min(n, |points|);
      r, points := points[..k], points[k..];
    }

    /** LRANGE from 0 to stop, which is included. */
    method LRange(stop: nat) returns (r: seq<Location>)
      ensures r == points[..Min(stop + 1, |points|)]
    {
      r := points[..Min(stop + 1, |points|)];
    }

    /** One location update during a ride; `payload` is what goes to the bulk callback. */
    method ProcessDriverLocations(ls: seq<Location>, last: Option<Point>, cfg: FilterConfig, batchSize: nat)
      returns (payload: seq<seq<Location>>)
      modifies this
      ensures (points, payload) == Add(old(points), Kept(ls, last, cfg), batchSize)
    {
      payload := [];
      var marked, anyUnfiltered := GetFilteredDriverLocations(ls, last, cfg);
      if anyUnfiltered {
        var geo := UnfilteredOf(marked);
        var count := |points|;
        if count + |geo| > batchSize {
          var stored := LPop(count);
          assert old(points)[..count] == old(points);
          payload := [stored + geo];
        } else {
          points := points + geo;
        }
      }
    }

    /** The ride's remaining points with the end point appended; the list is deleted. */
    method RideEnd(end: Location, batchSize: nat) returns (r: seq<Location>)
      modifies this
      ensures r == old(points)[..Min(batchSize + 1, |old(points)|)] + [end] && points == []
    {
      r := LRange(batchSize);
      r := r + [end];
      points := [];
    }
  }

  // ----- whole rides -----

  /** One update: the positions sent, and the last known position they are judged against. */
  datatype Update = Update(locations: seq<Location>, last: Option<Point>)

  /** The stored list and all payloads after a sequence of updates. */
  function Ride(updates: seq<Update>, cfg: FilterConfig, batchSize: nat): (seq<Location>, seq<seq<Location>>) {
    if updates == [] then ([], [])
    else
      var (list, sent) := Ride(updates[..|updates| - 1], cfg, batchSize);
      var u := updates[|updates| - 1];
      var (list', more) := Add(list, Kept(u.locations, u.last, cfg), batchSize);
      (list', sent + more)
  }

  function AllKept(updates: seq<Update>, cfg: FilterConfig): seq<Location> {
    if updates == [] then []
    else
      var u := updates[|updates| - 1];
      AllKept(updates[..|updates| - 1], cfg) + Kept(u.locations, u.last, cfg)
  }

  function Concat(parts: seq<seq<Location>>): seq<Location> {
    if parts == [] then [] else Concat(parts[..|parts| - 1]) + parts[|parts| - 1]
  }

  /** What `RideEnd` answers for the list of a ride. */
  function EndAnswer(list: seq<Location>, end: Location, batchSize: nat): seq<Location> {
    list[..Min(batchSize + 1, |list|)] + [end]
  }

  lemma {:induction false} RideInvariant(updates: seq<Update>, cfg: FilterConfig, batchSize: nat)
    ensures var (list, sent) := Ride(updates, cfg, batchSize);
            |list| <= batchSize && Concat(sent) + list == AllKept(updates, cfg)
  {
    if updates != [] {
      var p, u := updates[..|updates| - 1], updates[|updates| - 1];
      RideInvariant(p, cfg, batchSize);
      var (list, sent) := Ride(p, cfg, batchSize);
      AddConserves(list, sent, Kept(u.locations, u.last, cfg), batchSize);
    }
  }

  /** One update moves points between the list and the payloads, and loses none. */
  lemma AddConserves(list: seq<Location>, sent: seq<seq<Location>>, points: seq<Location>, batchSize: nat)
    requires |list| <= batchSize
    ensures var (list', more) := Add(list, points, batchSize);
            |list'| <= batchSize && Concat(sent + more) + list' == (Concat(sent) + list) + points
  {
    var (list', more) := Add(list, points, batchSize);
    if more == [] {
      assert sent + more == sent;
    } else {
      assert (sent + more)[..|sent|] == sent;
    }
  }

  /**
   * Every unfiltered position of a ride is delivered exactly once and in order:
   * the bulk payloads, then the answer at ride end without its end point, are
   * all of them.
   */
  lemma PointsAreConserved(updates: seq<Update>, end: Location, cfg: FilterConfig, batchSize: nat)
    ensures var (list, sent) := Ride(updates, cfg, batchSize);
            var answer := EndAnswer(list, end, batchSize);
            answer[|answer| - 1] == end && Concat(sent) + answer[..|answer| - 1] == AllKept(updates, cfg)
  {
    RideInvariant(updates, cfg, batchSize);
    var (list, sent) := Ride(updates, cfg, batchSize);
    assert list[..|list|] == list;
    assert EndAnswer(list, end, batchSize)[..|list|] == list;
  }

  /**
   * An update brings a payload exactly when the unfiltered positions that no
   * payload has carried yet, its own included, are more than the batch size; the
   * payload is then all of them.
   */
  lemma PayloadIffFull(updates: seq<Update>, u: Update, cfg: FilterConfig, batchSize: nat)
    ensures var sent, sent' := Ride(updates, cfg, batchSize).1, Ride(updates + [u], cfg, batchSize).1;
            var all := AllKept(updates + [u], cfg);
            |Concat(sent)| <= |all| &&
            var waiting := all[|Concat(sent)|..];
            sent' == sent + if |waiting| > batchSize then [waiting] else []
  {
    var longer := updates + [u];
    assert longer[..|updates|] == updates;
    RideInvariant(updates, cfg, batchSize);
    var (list, sent) := Ride(updates, cfg, batchSize);
    var points := Kept(u.locations, u.last, cfg);
    var all := AllKept(longer, cfg);
    assert all == Concat(sent) + (list + points);
    assert all[|Concat(sent)|..] == list + points;
    assert points == [] ==> list + points == list;
  }
}
