/** The index of nearby drivers: one geo set per time bucket, each with its own expiry. */
module Nearby {
  import opened Arithmetic
  import opened Common
  import opened Means

  type Driver = nat

  datatype Bucket = Bucket(members: map<Driver, Point>, deadline: int)

  /** One position: when the drainer stored it, whose it is, when it was taken, and where. */
  datatype Ping = Ping(drained: nat, driver: Driver, stamp: nat, point: Point)

  /** The bucket size in seconds and the number of buckets that a query scans. */
  datatype IndexConfig = IndexConfig(size: nat, threshold: nat)
  {
    predicate Valid() {
      size > 0
    }

    function BucketOf(t: nat): nat
      requires Valid()
    {
      t / size
    }
  }

  function Expire(buckets: map<nat, Bucket>, now: int): map<nat, Bucket> {
    map b | b in buckets && now < buckets[b].deadline :: buckets[b]
  }

  function MembersOf(buckets: map<nat, Bucket>, b: nat): map<Driver, Point> {
    if b in buckets then buckets[b].members else map[]
  }

  /** GEOADD to the ping's bucket, and EXPIRE of that bucket. */
  function Store(buckets: map<nat, Bucket>, p: Ping, cfg: IndexConfig): map<nat, Bucket>
    requires cfg.Valid()
  {
    var live := Expire(buckets, p.drained);
    var b := cfg.BucketOf(p.stamp);
    live[b := Bucket(MembersOf(live, b)[p.driver := p.point], p.drained + cfg.size * cfg.threshold)]
  }

  /** The driver is found in one of the buckets that a query at q scans. */
  ghost predicate Found(buckets: map<nat, Bucket>, d: Driver, q: nat, cfg: IndexConfig)
    requires cfg.Valid()
  {
    exists b :: Scanned(b, q, cfg) && d in MembersOf(Expire(buckets, q), b)
  }

  /** The query at q looks at bucket b. */
  predicate Scanned(b: nat, q: nat, cfg: IndexConfig)
    requires cfg.Valid()
  {
    cfg.BucketOf(q) - cfg.threshold < b <= cfg.BucketOf(q)
  }

  class LocationIndex {
    var buckets: map<nat, Bucket>

    constructor ()
      ensures buckets == map[]
    {
      buckets := map[];
    }

    method Push(p: Ping, cfg: IndexConfig)
      requires cfg.Valid()
      modifies this
      ensures buckets == Store(old(buckets), p, cfg)
    {
      var expiry := cfg.size * cfg.threshold;
      var b := cfg.BucketOf(p.stamp);
      buckets := Expire(buckets, p.drained);
      var members := if b in buckets then buckets[b].members else map[];
      buckets := buckets[b := Bucket(members[p.driver := p.point], p.drained + expiry)];
    }

    /** The entries of one bucket inside the radius, in some order. */
    method GeoSearch(members: map<Driver, Point>, near: Point -> bool) returns (r: seq<(Driver, Point)>)
      ensures forall e :: e in r ==> e.0 in members && members[e.0] == e.1 && near(e.1)
      ensures forall d :: d in members && near(members[d]) ==> (d, members[d]) in r
    {
      r := [];
      var todo := members.Keys;
      while todo != {}
        invariant todo <= members.Keys
        invariant forall e :: e in r ==> e.0 in members && members[e.0] == e.1 && near(e.1)
        invariant forall d :: d in members && d !in todo && near(members[d]) ==> (d, members[d]) in r
        decreases todo
      {
        var d :| d in todo;
        todo := todo - {d};
        if near(members[d]) {
          r := r + [(d, members[d])];
        }
      }
    }

    /** All entries of the scanned buckets inside the radius, newest bucket first; `from` tells the buckets. */
    method SearchBuckets(q: nat, near: Point -> bool, cfg: IndexConfig)
      returns (r: seq<(Driver, Point)>, ghost from: seq<nat>)
      requires cfg.Valid() && cfg.threshold <= cfg.BucketOf(q) + 1
      ensures FromBuckets(Expire(buckets, q), r, from, near)
      ensures forall i :: 0 <= i < |from| ==> Scanned(from[i], q, cfg)
      ensures forall b, d :: Scanned(b, q, cfg) && Inside(Expire(buckets, q), b, d, near) ==> ListsFrom(r, from, d, b)
    {
      r, from := [], [];
      var live := Expire(buckets, q);
      var newest := cfg.BucketOf(q);
      for idx := 0 to cfg.threshold
        invariant FromBuckets(live, r, from, near)
        invariant forall i :: 0 <= i < |from| ==> newest - idx < from[i] <= newest
        invariant forall b, d :: newest - idx < b <= newest && Inside(live, b, d, near) ==> ListsFrom(r, from, d, b)
      {
        var b := newest - idx;
        var found := GeoSearch(MembersOf(live, b), near);
        OneMoreBucket(live, r, from, b, found, near);
        r, from := r + found, from + seq(|found|, _ => b);
      }
    }

    /** The search result without the later occurrences of a driver: its position in its newest bucket stays. */
    method GetDriversWithinRadius(q: nat, near: Point -> bool, cfg: IndexConfig) returns (resp: seq<(Driver, Point)>)
      requires cfg.Valid() && cfg.threshold <= cfg.BucketOf(q) + 1
      ensures Answers(resp, buckets, q, near, cfg)
    {
      ghost var from;
      var nearby;
      nearby, from := SearchBuckets(q, near, cfg);
      var seen: set<Driver> := {};
      resp := [];
      for k := 0 to |nearby|
        invariant Collected(nearby, k, resp, seen)
      {
        var e := nearby[k];
        if e.0 !in seen {
          CollectNew(nearby, k, resp, seen);
          seen := seen + {e.0};
          resp := resp + [e];
        } else {
          CollectOld(nearby, k, resp, seen);
        }
      }
      CollectedAreNewest(buckets, nearby, from, resp, seen, q, near, cfg);
    }
  }

  /** The entry is the first of its driver. */
  ghost predicate First(nearby: seq<(Driver, Point)>, e: (Driver, Point)) {
    exists k :: 0 <= k < |nearby| && nearby[k] == e && forall i :: 0 <= i < k ==> nearby[i].0 != e.0
  }

  /** The drivers among the first k entries are those seen, and each has its first entry in resp. */
  ghost predicate Collected(nearby: seq<(Driver, Point)>, k: nat, resp: seq<(Driver, Point)>, seen: set<Driver>)
    requires k <= |nearby|
  {
    (forall i, j :: 0 <= i < j < |resp| ==> resp[i].0 != resp[j].0) &&
    (forall i :: 0 <= i < |resp| ==> First(nearby, resp[i]) && resp[i].0 in seen) &&
    (forall d :: d in seen ==> Lists(resp, d)) &&
    (forall i :: 0 <= i < k ==> nearby[i].0 in seen)
  }

  lemma CollectNew(nearby: seq<(Driver, Point)>, k: nat, resp: seq<(Driver, Point)>, seen: set<Driver>)
    requires k < |nearby| && Collected(nearby, k, resp, seen) && nearby[k].0 !in seen
    ensures Collected(nearby, k + 1, resp + [nearby[k]], seen + {nearby[k].0})
  {
    assert First(nearby, nearby[k]);
    ListsOneMore(resp, nearby[k]);
  }

  lemma CollectOld(nearby: seq<(Driver, Point)>, k: nat, resp: seq<(Driver, Point)>, seen: set<Driver>)
    requires k < |nearby| && Collected(nearby, k, resp, seen) && nearby[k].0 in seen
    ensures Collected(nearby, k + 1, resp, seen)
  {
  }

  lemma CollectedAreNewest(buckets: map<nat, Bucket>, nearby: seq<(Driver, Point)>, from: seq<nat>,
                           resp: seq<(Driver, Point)>, seen: set<Driver>, q: nat, near: Point -> bool, cfg: IndexConfig)
    requires cfg.Valid() && FromBuckets(Expire(buckets, q), nearby, from, near)
    requires forall i :: 0 <= i < |from| ==> Scanned(from[i], q, cfg)
    requires forall b, d :: Scanned(b, q, cfg) && Inside(Expire(buckets, q), b, d, near) ==>
                              ListsFrom(nearby, from, d, b)
    requires Collected(nearby, |nearby|, resp, seen)
    ensures forall i :: 0 <= i < |resp| ==> NewestPosition(buckets, resp[i], q, near, cfg)
    ensures forall b, d :: Scanned(b, q, cfg) && Inside(Expire(buckets, q), b, d, near) ==> Lists(resp, d)
  {
    forall i | 0 <= i < |resp| ensures NewestPosition(buckets, resp[i], q, near, cfg) {
      assert First(nearby, resp[i]);
      var k :| 0 <= k < |nearby| && nearby[k] == resp[i] && forall j :: 0 <= j < k ==> nearby[j].0 != resp[i].0;
      FirstIsNewest(buckets, nearby, from, k, q, near, cfg);
    }
    AllInside(buckets, nearby, from, resp, q, near, cfg);
  }

  /** Entry i lies in bucket from[i], inside the radius; buckets come newest first. */
  ghost predicate FromBuckets(live: map<nat, Bucket>, r: seq<(Driver, Point)>, from: seq<nat>, near: Point -> bool) {
    |from| == |r| &&
    (forall i :: 0 <= i < |r| ==> Inside(live, from[i], r[i].0, near) && MembersOf(live, from[i])[r[i].0] == r[i].1) &&
    (forall i, j :: 0 <= i < j < |r| ==> from[j] <= from[i])
  }

  predicate ListsFrom(r: seq<(Driver, Point)>, from: seq<nat>, d: Driver, b: nat) {
    exists i :: 0 <= i < |r| && i < |from| && r[i].0 == d && from[i] == b
  }

  ghost predicate Lists(r: seq<(Driver, Point)>, d: Driver) {
    exists i :: 0 <= i < |r| && r[i].0 == d
  }

  predicate Inside(buckets: map<nat, Bucket>, b: nat, d: Driver, near: Point -> bool) {
    d in MembersOf(buckets, b) && near(MembersOf(buckets, b)[d])
  }

  /** The entry is the driver's position in the newest scanned bucket in which it lies inside the radius. */
  ghost predicate NewestPosition(buckets: map<nat, Bucket>, e: (Driver, Point), q: nat, near: Point -> bool,
                                 cfg: IndexConfig)
    requires cfg.Valid()
  {
    var live := Expire(buckets, q);
    exists b :: Scanned(b, q, cfg) && Inside(live, b, e.0, near) && MembersOf(live, b)[e.0] == e.1 &&
      forall c :: b < c && Scanned(c, q, cfg) ==> !Inside(live, c, e.0, near)
  }

  /** What the query at q answers, from what the index holds. */
  ghost predicate Answers(resp: seq<(Driver, Point)>, buckets: map<nat, Bucket>, q: nat, near: Point -> bool,
                          cfg: IndexConfig)
    requires cfg.Valid()
  {
    (forall i, j :: 0 <= i < j < |resp| ==> resp[i].0 != resp[j].0) &&
    (forall i :: 0 <= i < |resp| ==> NewestPosition(buckets, resp[i], q, near, cfg)) &&
    (forall b, d :: Scanned(b, q, cfg) && Inside(Expire(buckets, q), b, d, near) ==> Lists(resp, d))
  }

  lemma OneMoreBucket(live: map<nat, Bucket>, r: seq<(Driver, Point)>, from: seq<nat>, b: nat,
                      found: seq<(Driver, Point)>, near: Point -> bool)
    requires FromBuckets(live, r, from, near) && forall i :: 0 <= i < |from| ==> b < from[i]
    requires forall e :: e in found ==> Inside(live, b, e.0, near) && MembersOf(live, b)[e.0] == e.1
    requires forall d :: Inside(live, b, d, near) ==> (d, MembersOf(live, b)[d]) in found
    ensures var r', from' := r + found, from + seq(|found|, _ => b);
            FromBuckets(live, r', from', near) &&
            (forall d, c :: ListsFrom(r, from, d, c) ==> ListsFrom(r', from', d, c)) &&
            (forall d :: Inside(live, b, d, near) ==> ListsFrom(r', from', d, b))
  {
    var r', from' := r + found, from + seq(|found|, _ => b);
    forall i | 0 <= i < |r'|
      ensures Inside(live, from'[i], r'[i].0, near) && MembersOf(live, from'[i])[r'[i].0] == r'[i].1
    {
      if i >= |r| {
        assert r'[i] == found[i - |r|];
        assert found[i - |r|] in found;
      }
    }
    forall d, c | ListsFrom(r, from, d, c) ensures ListsFrom(r', from', d, c) {
      var i :| 0 <= i < |r| && r[i].0 == d && from[i] == c;
      assert r'[i].0 == d && from'[i] == c;
    }
    forall d | Inside(live, b, d, near) ensures ListsFrom(r', from', d, b) {
      var k :| 0 <= k < |found| && found[k] == (d, MembersOf(live, b)[d]);
      assert r'[|r| + k].0 == d && from'[|r| + k] == b;
    }
  }

  /** The first entry of a driver is its newest position. */
  lemma FirstIsNewest(buckets: map<nat, Bucket>, nearby: seq<(Driver, Point)>, from: seq<nat>, k: nat, q: nat,
                      near: Point -> bool, cfg: IndexConfig)
    requires cfg.Valid() && k < |nearby| && FromBuckets(Expire(buckets, q), nearby, from, near)
    requires forall i :: 0 <= i < |from| ==> Scanned(from[i], q, cfg)
    requires forall b, d :: Scanned(b, q, cfg) && Inside(Expire(buckets, q), b, d, near) ==>
                              ListsFrom(nearby, from, d, b)
    requires forall i :: 0 <= i < k ==> nearby[i].0 != nearby[k].0
    ensures NewestPosition(buckets, nearby[k], q, near, cfg)
  {
    var live, b, d := Expire(buckets, q), from[k], nearby[k].0;
    forall c | Scanned(c, q, cfg) && Inside(live, c, d, near) ensures c <= b {
      assert ListsFrom(nearby, from, d, c);
      var j :| 0 <= j < |nearby| && nearby[j].0 == d && from[j] == c;
      assert k <= j;
    }
  }

  lemma AllInside(buckets: map<nat, Bucket>, nearby: seq<(Driver, Point)>, from: seq<nat>, resp: seq<(Driver, Point)>,
                  q: nat, near: Point -> bool, cfg: IndexConfig)
    requires cfg.Valid() && forall i :: 0 <= i < |nearby| ==> Lists(resp, nearby[i].0)
    requires forall b, d :: Scanned(b, q, cfg) && Inside(Expire(buckets, q), b, d, near) ==>
                              ListsFrom(nearby, from, d, b)
    ensures forall b, d :: Scanned(b, q, cfg) && Inside(Expire(buckets, q), b, d, near) ==> Lists(resp, d)
  {
    forall b, d | Scanned(b, q, cfg) && Inside(Expire(buckets, q), b, d, near) ensures Lists(resp, d) {
      assert ListsFrom(nearby, from, d, b);
    }
  }

  lemma ListsOneMore(r: seq<(Driver, Point)>, e: (Driver, Point))
    ensures forall d :: Lists(r + [e], d) <==> Lists(r, d) || d == e.0
  {
    forall d ensures Lists(r + [e], d) <==> Lists(r, d) || d == e.0 {
      if Lists(r, d) {
        var i :| 0 <= i < |r| && r[i].0 == d;
        assert (r + [e])[i].0 == d;
      }
      assert (r + [e])[|r|].0 == e.0;
    }
  }

  // ----- which drivers a query finds -----

  /** The index after the pings, stored one after the other. */
  function Index(pings: seq<Ping>, cfg: IndexConfig): map<nat, Bucket>
    requires cfg.Valid()
  {
    if pings == [] then map[] else Store(Index(pings[..|pings| - 1], cfg), pings[|pings| - 1], cfg)
  }

  /** Each position is stored no earlier than it was taken and no later than time q, in whatever order of the drains. */
  ghost predicate StoredBy(pings: seq<Ping>, q: nat) {
    forall i :: 0 <= i < |pings| ==> pings[i].stamp <= pings[i].drained <= q
  }

  predicate Pinged(pings: seq<Ping>, d: Driver, b: nat, cfg: IndexConfig)
    requires cfg.Valid()
  {
    exists i :: 0 <= i < |pings| && pings[i].driver == d && cfg.BucketOf(pings[i].stamp) == b
  }

  lemma PingedSplit(pings: seq<Ping>, d: Driver, b: nat, cfg: IndexConfig)
    requires cfg.Valid() && pings != []
    ensures var last := pings[|pings| - 1];
            Pinged(pings, d, b, cfg) <==>
              (Pinged(pings[..|pings| - 1], d, b, cfg) || (last.driver == d && cfg.BucketOf(last.stamp) == b))
  {
    var p := pings[..|pings| - 1];
    assert forall i :: 0 <= i < |p| ==> p[i] == pings[i];
  }

  /** A bucket that is still scanned at q cannot have expired by then. */
  lemma DeadlineOutlivesScan(stamp: nat, drained: nat, q: nat, cfg: IndexConfig)
    requires cfg.Valid() && stamp <= drained && Scanned(cfg.BucketOf(stamp), q, cfg)
    ensures q < drained + cfg.size * cfg.threshold
  {
    var b, c := stamp / cfg.size, q / cfg.size;
    Quotient(stamp, cfg.size);
    Quotient(q, cfg.size);
    BucketsApart(b, c, cfg.threshold, cfg.size);
    assert cfg.size * cfg.threshold == cfg.threshold * cfg.size;
  }

  /** A bucket that q scans holds exactly the drivers that pinged in it, and is alive. */
  lemma {:induction false} ScannedBucket(pings: seq<Ping>, b: nat, q: nat, cfg: IndexConfig)
    requires cfg.Valid() && StoredBy(pings, q) && Scanned(b, q, cfg)
    ensures var index := Index(pings, cfg);
            (b in index ==> q < index[b].deadline) &&
            forall d :: d in MembersOf(index, b) <==> Pinged(pings, d, b, cfg)
  {
    if pings != [] {
      var p, last := pings[..|pings| - 1], pings[|pings| - 1];
      ScannedBucket(p, b, q, cfg);
      if cfg.BucketOf(last.stamp) == b {
        DeadlineOutlivesScan(last.stamp, last.drained, q, cfg);
      }
      forall d ensures d in MembersOf(Index(pings, cfg), b) <==> Pinged(pings, d, b, cfg) {
        PingedSplit(pings, d, b, cfg);
      }
    }
  }

  /** A query at q finds a driver exactly when one of its pings lies in a scanned bucket. */
  lemma FoundIffPinged(pings: seq<Ping>, d: Driver, q: nat, cfg: IndexConfig)
    requires cfg.Valid() && StoredBy(pings, q)
    ensures Found(Index(pings, cfg), d, q, cfg) <==>
            exists i :: 0 <= i < |pings| && pings[i].driver == d && Scanned(cfg.BucketOf(pings[i].stamp), q, cfg)
  {
    var index := Index(pings, cfg);
    forall b | Scanned(b, q, cfg) ensures d in MembersOf(Expire(index, q), b) <==> Pinged(pings, d, b, cfg) {
      ScannedBucket(pings, b, q, cfg);
    }
    if i :| 0 <= i < |pings| && pings[i].driver == d && Scanned(cfg.BucketOf(pings[i].stamp), q, cfg) {
      assert Pinged(pings, d, cfg.BucketOf(pings[i].stamp), cfg);
    }
  }

  // ----- which position a query finds -----

  /** The latest ping of the driver that was stored into bucket b. */
  function LatestPing(pings: seq<Ping>, d: Driver, b: nat, cfg: IndexConfig): (p: Option<Ping>)
    requires cfg.Valid()
    ensures p.None? <==> !Pinged(pings, d, b, cfg)
    ensures p.Some? ==> p.value.driver == d && p.value.stamp / cfg.size == b
  {
    if pings == [] then None
    else
      PingedSplit(pings, d, b, cfg);
      var last := pings[|pings| - 1];
      if last.driver == d && last.stamp / cfg.size == b then Some(last)
      else LatestPing(pings[..|pings| - 1], d, b, cfg)
  }

  /** The driver's latest ping into the bucket lies inside the radius. */
  predicate LastInside(pings: seq<Ping>, d: Driver, b: nat, near: Point -> bool, cfg: IndexConfig)
    requires cfg.Valid()
  {
    var p := LatestPing(pings, d, b, cfg);
    p.Some? && near(p.value.point)
  }

  /** In a scanned bucket every driver stands where its latest ping into that bucket was taken. */
  lemma {:induction false} StoredPosition(pings: seq<Ping>, d: Driver, b: nat, q: nat, cfg: IndexConfig)
    requires cfg.Valid() && StoredBy(pings, q) && Scanned(b, q, cfg)
    ensures var p, members := LatestPing(pings, d, b, cfg), MembersOf(Expire(Index(pings, cfg), q), b);
            if p.Some? then d in members && members[d] == p.value.point else d !in members
  {
    if pings != [] {
      var p, last := pings[..|pings| - 1], pings[|pings| - 1];
      ScannedBucket(p, b, q, cfg);
      ScannedBucket(pings, b, q, cfg);
      StoredPosition(p, d, b, q, cfg);
    }
  }

  lemma InsideIffLast(pings: seq<Ping>, d: Driver, b: nat, q: nat, near: Point -> bool, cfg: IndexConfig)
    requires cfg.Valid() && StoredBy(pings, q) && Scanned(b, q, cfg)
    ensures Inside(Expire(Index(pings, cfg), q), b, d, near) <==> LastInside(pings, d, b, near, cfg)
  {
    StoredPosition(pings, d, b, q, cfg);
  }

  /**
   * From the pings to the answer: a driver is listed exactly when its latest
   * ping into some scanned bucket lies inside the radius.
   */
  lemma ListedIffInside(pings: seq<Ping>, resp: seq<(Driver, Point)>, d: Driver, q: nat, near: Point -> bool,
                        cfg: IndexConfig)
    requires cfg.Valid() && StoredBy(pings, q) && Answers(resp, Index(pings, cfg), q, near, cfg)
    ensures Lists(resp, d) <==> exists b: nat :: Scanned(b, q, cfg) && LastInside(pings, d, b, near, cfg)
  {
    var index := Index(pings, cfg);
    if Lists(resp, d) {
      var i :| 0 <= i < |resp| && resp[i].0 == d;
      assert NewestPosition(index, resp[i], q, near, cfg);
      var b: nat :| Scanned(b, q, cfg) && Inside(Expire(index, q), b, d, near);
      InsideIffLast(pings, d, b, q, near, cfg);
    }
    if b: nat :| Scanned(b, q, cfg) && LastInside(pings, d, b, near, cfg) {
      InsideIffLast(pings, d, b, q, near, cfg);
    }
  }

  /** The listed position is that of the latest ping into the newest such bucket. */
  lemma ListedPosition(pings: seq<Ping>, resp: seq<(Driver, Point)>, i: nat, q: nat, near: Point -> bool,
                       cfg: IndexConfig)
    requires cfg.Valid() && StoredBy(pings, q) && Answers(resp, Index(pings, cfg), q, near, cfg) && i < |resp|
    ensures exists b: nat ::
              Scanned(b, q, cfg) && LastInside(pings, resp[i].0, b, near, cfg) &&
              resp[i].1 == LatestPing(pings, resp[i].0, b, cfg).value.point &&
              forall c: nat :: b < c && Scanned(c, q, cfg) ==> !LastInside(pings, resp[i].0, c, near, cfg)
  {
    var index, d := Index(pings, cfg), resp[i].0;
    assert NewestPosition(index, resp[i], q, near, cfg);
    var b: nat :| Scanned(b, q, cfg) && Inside(Expire(index, q), b, d, near) &&
             MembersOf(Expire(index, q), b)[d] == resp[i].1 &&
             forall c :: b < c && Scanned(c, q, cfg) ==> !Inside(Expire(index, q), c, d, near);
    StoredPosition(pings, d, b, q, cfg);
    forall c: nat | b < c && Scanned(c, q, cfg) ensures !LastInside(pings, d, c, near, cfg) {
      InsideIffLast(pings, d, c, q, near, cfg);
    }
  }

  /** The latest ping of any driver into bucket b. */
  function LatestInto(pings: seq<Ping>, b: nat, cfg: IndexConfig): Option<Ping>
    requires cfg.Valid()
  {
    if pings == [] then None
    else if pings[|pings| - 1].stamp / cfg.size == b then Some(pings[|pings| - 1])
    else LatestInto(pings[..|pings| - 1], b, cfg)
  }

  /** A bucket that is still there expires the scanned span after the latest ping was stored into it. */
  lemma {:induction false} BucketDeadline(pings: seq<Ping>, b: nat, cfg: IndexConfig)
    requires cfg.Valid()
    ensures b in Index(pings, cfg) ==>
              LatestInto(pings, b, cfg).Some? &&
              Index(pings, cfg)[b].deadline == LatestInto(pings, b, cfg).value.drained + cfg.size * cfg.threshold
  {
    if pings != [] {
      BucketDeadline(pings[..|pings| - 1], b, cfg);
    }
  }

  // ----- how old a scanned ping can be -----

  /** A ping at most threshold - 1 bucket sizes old is in a scanned bucket. */
  lemma RecentIsScanned(stamp: nat, q: nat, cfg: IndexConfig)
    requires cfg.Valid() && cfg.threshold > 0 && stamp <= q <= stamp + (cfg.threshold - 1) * cfg.size
    ensures Scanned(cfg.BucketOf(stamp), q, cfg)
  {
    Quotient(stamp, cfg.size);
    Quotient(q, cfg.size);
    NearBuckets(stamp, q, cfg.size, cfg.threshold, stamp / cfg.size, q / cfg.size);
  }

  lemma NearBuckets(stamp: nat, q: nat, size: nat, k: nat, b: nat, c: nat)
    requires k > 0 && stamp <= q <= stamp + (k - 1) * size
    requires b * size <= stamp < b * size + size && c * size <= q < c * size + size
    ensures c - k < b <= c
  {
    BucketsApart(b, c, k, size);
    Expand(k - 1, 1, size);
  }

  /** A ping threshold bucket sizes old or older is in none. */
  lemma OldIsNotScanned(stamp: nat, q: nat, cfg: IndexConfig)
    requires cfg.Valid() && q >= stamp + cfg.threshold * cfg.size
    ensures !Scanned(cfg.BucketOf(stamp), q, cfg)
  {
    Quotient(stamp, cfg.size);
    Quotient(q, cfg.size);
    BucketsApart(stamp / cfg.size, q / cfg.size, cfg.threshold, cfg.size);
  }

  lemma Quotient(n: nat, size: nat)
    requires size > 0
    ensures (n / size) * size <= n < (n / size) * size + size
  {
  }

  lemma Expand(x: nat, y: nat, z: nat)
    ensures (x + y) * z == x * z + y * z
  {
  }

  /** Buckets that lie k apart start k bucket sizes apart; nearer ones start nearer. */
  lemma BucketsApart(b: nat, c: nat, k: nat, size: nat)
    ensures b + k <= c ==> b * size + k * size <= c * size
    ensures c < b + k ==> c * size + size <= b * size + k * size
    ensures b <= c || c * size + size <= b * size
  {
    Expand(b, k, size);
    Expand(c, 1, size);
    if b + k <= c {
      MulMonotone(b + k, c, size);
    } else {
      MulMonotone(c + 1, b + k, size);
    }
    if c < b {
      MulMonotone(c + 1, b, size);
    }
  }
}
