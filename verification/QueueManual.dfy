/** The handlers outside the drainer that change or read the queues. */
module QueueManual {
  import opened Common
  import opened QueueStore
  import opened QueueDrainer
  import opened SortedSet

  // ----- the driver went OFFLINE -----

  function OfflineCleanup(s: Store, d: Driver): Store {
    if d in s.tracking then s.ZRem((s.tracking[d].queue, d)).DelTracking(d) else s
  }

  method HandleDriverOfflineQueueCleanup(store: QueueRedis, d: Driver, now: int)
    modifies store
    ensures store.View() == OfflineCleanup(old(store.View()).Purge(now), d)
  {
    store.ExpireKeys(now);
    var tracking := store.View().GetTracking(d);
    if tracking.None? {
      return;
    }
    store.ZRem((tracking.value.queue, d));
    store.DelTracking(d);
  }

  // ----- manual removal -----

  function ManualRemove(s: Store, q: Queue, d: Driver): Store {
    s.ZRem((q, d)).DelTracking(d).DelLastTs((q, d))
  }

  method ManualQueueRemove(store: QueueRedis, q: Queue, d: Driver, now: int)
    modifies store
    ensures store.View() == ManualRemove(old(store.View()).Purge(now), q, d)
  {
    store.ExpireKeys(now);
    store.ZRem((q, d));
    store.DelTracking(d);
    store.DelLastTs((q, d));
  }

  // ----- manual insertion at a 1-indexed position -----

  /** The (score, member) pairs of one queue. */
  function ScoredOf(s: Store, q: Queue): set<Scored> {
    set k | k in s.scores && k.0 == q :: (s.scores[k], k.1)
  }

  function TargetRank(position: nat, size: nat): nat {
    if position == 0 then 0 else Min(position - 1, size)
  }

  function InsertScore(l: seq<Scored>, position: nat, wallClock: real): real {
    var target := TargetRank(position, |l|);
    if |l| == 0 then wallClock
    else if target == 0 then l[0].0 - 1.0
    else if target >= |l| then l[|l| - 1].0 + 1.0
    else (l[target - 1].0 + l[target].0) / 2.0
  }

  /** The store once the driver has been taken out of its tracked queue and of the target queue. */
  function TakenOut(s: Store, q: Queue, d: Driver): Store {
    (if d in s.tracking && s.tracking[d].queue != q then s.ZRem((s.tracking[d].queue, d)) else s).ZRem((q, d))
  }

  function ManualAdd(s: Store, q: Queue, d: Driver, position: nat, wallClock: real, now: int, cfg: QueueConfig): Store {
    var out := TakenOut(s, q, d);
    out.ZAdd((q, d), InsertScore(Listing(ScoredOf(out, q)), position, wallClock))
    .ExpireQueue(q, now + cfg.queueExpiry)
    .SetTracking(d, Tracking(q, 0, None))
  }

  /** ZRANGE start end WITHSCORES, for ranks in range. */
  method ScoresAtRange(store: QueueRedis, q: Queue, start: nat, end: nat) returns (r: seq<Scored>)
    requires start <= end < |ScoredOf(store.View(), q)|
    ensures |Listing(ScoredOf(store.View(), q))| == |ScoredOf(store.View(), q)|
    ensures r == Listing(ScoredOf(store.View(), q))[start..end + 1]
  {
    ListingSorts(ScoredOf(store.View(), q));
    r := Listing(ScoredOf(store.View(), q))[start..end + 1];
  }

  /** The score for the desired position, from the size and the neighbouring scores. */
  method ChooseScore(store: QueueRedis, q: Queue, position: nat, wallClock: real) returns (score: real)
    ensures score == InsertScore(Listing(ScoredOf(store.View(), q)), position, wallClock)
  {
    var size := |ScoredOf(store.View(), q)|;
    ListingSorts(ScoredOf(store.View(), q));
    var target := if position == 0 then 0 else Min(position - 1, size);
    if size == 0 {
      score := wallClock;
    } else if target == 0 {
      var scores := ScoresAtRange(store, q, 0, 0);
      score := scores[0].0 - 1.0;
    } else if target >= size {
      var scores := ScoresAtRange(store, q, size - 1, size - 1);
      score := scores[0].0 + 1.0;
    } else {
      var scores := ScoresAtRange(store, q, target - 1, target);
      score := (scores[0].0 + scores[1].0) / 2.0;
    }
  }

  method ManualQueueAdd(store: QueueRedis, q: Queue, d: Driver, position: nat, wallClock: real,
                        now: int, cfg: QueueConfig)
    modifies store
    ensures store.View() == ManualAdd(old(store.View()).Purge(now), q, d, position, wallClock, now, cfg)
  {
    store.ExpireKeys(now);
    var existing := store.View().GetTracking(d);
    if existing.Some? && existing.value.queue != q {
      store.ZRem((existing.value.queue, d));
    }
    store.ZRem((q, d));
    var score := ChooseScore(store, q, position, wallClock);
    store.ZAdd((q, d), score);
    store.ExpireQueue(q, now + cfg.queueExpiry);
    store.SetTracking(d, Tracking(q, 0, None));
  }

  // ----- where the driver lands -----

  /** ZRANK counts the pairs of the queue below the driver's own. */
  lemma RankCountsBelow(s: Store, k: (Queue, Driver))
    requires k in s.scores
    ensures s.Rank(k) == Some(|Below(ScoredOf(s, k.0), (s.scores[k], k.1))|)
  {
    SameSize(s, k.0, s.scores[k], k.1, s.Ahead(k.0, s.scores[k], k.1));
    var ahead := s.Ahead(k.0, s.scores[k], k.1);
    assert Below(ScoredOf(s, k.0), (s.scores[k], k.1)) == set a | a in ahead :: (s.scores[a], a.1);
  }

  lemma {:induction false} SameSize(s: Store, q: Queue, score: real, d: Driver, ahead: set<(Queue, Driver)>)
    requires ahead <= s.Ahead(q, score, d)
    ensures |set a | a in ahead :: (s.scores[a], a.1)| == |ahead|
    decreases ahead
  {
    var image := set a | a in ahead :: (s.scores[a], a.1);
    if ahead == {} {
      assert image == {};
    } else {
      var x :| x in ahead;
      SameSize(s, q, score, d, ahead - {x});
      var rest := set a | a in ahead - {x} :: (s.scores[a], a.1);
      assert image == rest + {(s.scores[x], x.1)};
      assert (s.scores[x], x.1) !in rest;
    }
  }

  /** The neighbours at the insertion point leave room for the new member. */
  ghost predicate Room(l: seq<Scored>, target: nat, d: Driver)
    requires target <= |l|
  {
    target == 0 || target == |l| || l[target - 1].0 < l[target].0 || l[target - 1].1 < d < l[target].1
  }

  lemma InsertedPairs(s: Store, q: Queue, d: Driver, position: nat, wallClock: real, now: int, cfg: QueueConfig)
    ensures var out := TakenOut(s, q, d);
            var score := InsertScore(Listing(ScoredOf(out, q)), position, wallClock);
            var s' := ManualAdd(s, q, d, position, wallClock, now, cfg);
            (q, d) in s'.scores && s'.scores[(q, d)] == score && ScoredOf(s', q) == ScoredOf(out, q) + {(score, d)}
  {
    var out := TakenOut(s, q, d);
    var score := InsertScore(Listing(ScoredOf(out, q)), position, wallClock);
    var s' := ManualAdd(s, q, d, position, wallClock, now, cfg);
    assert s'.scores == out.scores[(q, d) := score];
    assert forall k :: k in out.scores ==> k in s'.scores && s'.scores[k] == out.scores[k];
    assert (q, d) in s'.scores;
  }

  /** Where the chosen score stands in the listing it was chosen from. */
  lemma ScoreFallsAt(es: set<Scored>, d: Driver, position: nat, wallClock: real)
    requires forall e | e in es :: e.1 != d
    ensures var l := Listing(es);
            var target := Min(Max(position, 1) - 1, |l|);
            |Below(es, (InsertScore(l, position, wallClock), d))| == target <==> Room(l, target, d)
  {
    ListingSorts(es);
    var l := Listing(es);
    var target := TargetRank(position, |l|);
    var x := (InsertScore(l, position, wallClock), d);
    BelowCounts(es, x, target);
    assert forall i :: 0 <= i < |l| ==> l[i] in es;
    if 0 < target < |l| {
      assert Less(l[target - 1], l[target]);
    }
  }

  /** The driver's new rank is the one asked for exactly when the neighbours leave room. */
  lemma ManualAddLands(s: Store, q: Queue, d: Driver, position: nat, wallClock: real, now: int, cfg: QueueConfig)
    ensures var l := Listing(ScoredOf(TakenOut(s, q, d), q));
            var target := Min(Max(position, 1) - 1, |l|);
            ManualAdd(s, q, d, position, wallClock, now, cfg).Rank((q, d)) == Some(target) <==> Room(l, target, d)
  {
    var es := ScoredOf(TakenOut(s, q, d), q);
    var s' := ManualAdd(s, q, d, position, wallClock, now, cfg);
    InsertedPairs(s, q, d, position, wallClock, now, cfg);
    var x := (s'.scores[(q, d)], d);
    RankCountsBelow(s', (q, d));
    assert Below(ScoredOf(s', q), x) == Below(es, x);
    ScoreFallsAt(es, d, position, wallClock);
  }

  /** A driver put in at a place with room keeps the listing sorted. */
  lemma PutIn(l: seq<Scored>, target: nat, x: Scored)
    requires StrictlySorted(l) && target <= |l|
    requires (target > 0 ==> Less(l[target - 1], x)) && (target < |l| ==> Less(x, l[target]))
    ensures StrictlySorted(l[..target] + [x] + l[target..])
  {
    forall i | 0 <= i < target ensures Less(l[i], x) {
      assert i < target - 1 ==> Less(l[i], l[target - 1]);
    }
    forall i | target <= i < |l| ensures Less(x, l[i]) {
      assert target < i ==> Less(l[target], l[i]);
    }
  }

  lemma PutInListing(es: set<Scored>, target: nat, x: Scored)
    requires var l := Listing(es);
             target <= |l| && (target > 0 ==> Less(l[target - 1], x)) && (target < |l| ==> Less(x, l[target]))
    ensures Listing(es + {x}) == Listing(es)[..target] + [x] + Listing(es)[target..]
  {
    var l := Listing(es);
    ListingSorts(es);
    ListingSorts(es + {x});
    PutIn(l, target, x);
    var longer := l[..target] + [x] + l[target..];
    assert l == l[..target] + l[target..];
    assert forall e :: e in longer <==> e in l || e == x;
    ListingIsUnique(longer, Listing(es + {x}));
  }

  /** The score is the wall clock on an empty listing, one off at the ends, and halfway between the neighbours. */
  predicate ScoreAt(l: seq<Scored>, target: nat, score: real, wallClock: real)
    requires target <= |l|
  {
    if l == [] then score == wallClock
    else if target == 0 then score + 1.0 == l[0].0
    else if target == |l| then score - 1.0 == l[target - 1].0
    else score - l[target - 1].0 == l[target].0 - score
  }

  lemma ScoreFits(l: seq<Scored>, d: Driver, position: nat, wallClock: real)
    requires StrictlySorted(l) && Room(l, Min(Max(position, 1) - 1, |l|), d)
    ensures var target, score := Min(Max(position, 1) - 1, |l|), InsertScore(l, position, wallClock);
            ScoreAt(l, target, score, wallClock) &&
            (target > 0 ==> Less(l[target - 1], (score, d))) && (target < |l| ==> Less((score, d), l[target]))
  {
    var target := Min(Max(position, 1) - 1, |l|);
    if 0 < target < |l| {
      assert Less(l[target - 1], l[target]);
    }
  }

  /**
   * Where the neighbours leave room, the new listing is the one of the others
   * with the driver put in at the place asked for.
   */
  lemma ManualAddListing(s: Store, q: Queue, d: Driver, position: nat, wallClock: real, now: int, cfg: QueueConfig)
    requires var l := Listing(ScoredOf(TakenOut(s, q, d), q)); Room(l, Min(Max(position, 1) - 1, |l|), d)
    ensures var (l, s') := (Listing(ScoredOf(TakenOut(s, q, d), q)), ManualAdd(s, q, d, position, wallClock, now, cfg));
            var target := Min(Max(position, 1) - 1, |l|);
            s'.InQueue(q, d) && ScoreAt(l, target, s'.scores[(q, d)], wallClock) &&
            Listing(ScoredOf(s', q)) == l[..target] + [(s'.scores[(q, d)], d)] + l[target..]
  {
    var es := ScoredOf(TakenOut(s, q, d), q);
    var target := Min(Max(position, 1) - 1, |Listing(es)|);
    InsertedPairs(s, q, d, position, wallClock, now, cfg);
    ListingSorts(es);
    ScoreFits(Listing(es), d, position, wallClock);
    PutInListing(es, target, (InsertScore(Listing(es), position, wallClock), d));
  }

  /** Every other membership, and every other score, is as it was. */
  lemma ManualAddKeepsOthers(s: Store, q: Queue, d: Driver, position: nat, wallClock: real, now: int,
                             cfg: QueueConfig, k: (Queue, Driver))
    requires k.1 != d
    ensures var s' := ManualAdd(s, q, d, position, wallClock, now, cfg);
            (k in s'.scores <==> k in s.scores) && (k in s.scores ==> s'.scores[k] == s.scores[k])
  {
  }

  // ----- the two read-only views of a queue -----

  /** The 1-indexed positions that `driver_queue_position` shows for a rank. */
  function PositionRange(rank: nat, size: nat, offset: nat): (nat, nat) {
    var pos := rank + 1;
    (if pos <= offset then 1 else pos - offset, Min(pos + offset, size))
  }

  /** The driver listed in place i by `get_queue_drivers` has rank i. */
  lemma ListedInRankOrder(s: Store, q: Queue, i: nat)
    requires i < |Listing(ScoredOf(s, q))|
    ensures s.Rank((q, Listing(ScoredOf(s, q))[i].1)) == Some(i)
  {
    var es := ScoredOf(s, q);
    ListingSorts(es);
    var e := Listing(es)[i];
    assert e in es;
    RankCountsBelow(s, (q, e.1));
    BelowCounts(es, e, i);
    if 0 < i {
      assert Less(Listing(es)[i - 1], e);
    }
  }

  /**
   * The range shown to a queued driver contains its listed position, and of all
   * positions in the queue exactly those that lie within the offset of it.
   */
  lemma RangeIsAroundListedPosition(s: Store, q: Queue, d: Driver, offset: nat, p: int)
    requires s.InQueue(q, d)
    ensures var l := Listing(ScoredOf(s, q));
            var rank := s.Rank((q, d)).value;
            rank < |l| && l[rank] == (s.scores[(q, d)], d) &&
            var (low, high) := PositionRange(rank, |l|, offset);
            low <= rank + 1 <= high &&
            (low <= p <= high <==> 1 <= p <= |l| && p - offset <= rank + 1 <= p + offset)
  {
    var es := ScoredOf(s, q);
    ListingSorts(es);
    assert (s.scores[(q, d)], d) in es;
    var i :| 0 <= i < |Listing(es)| && Listing(es)[i] == (s.scores[(q, d)], d);
    ListedInRankOrder(s, q, i);
  }

  // ----- an insertion that misses its place -----

  /** Two drivers with one score. */
  function TiedStore(q: Queue): Store {
    EMPTY.ZAdd((q, 1), 5.0).ZAdd((q, 2), 5.0)
  }

  lemma TiedListing(q: Queue)
    ensures Listing(ScoredOf(TiedStore(q), q)) == [(5.0, 1), (5.0, 2)]
  {
    var es := ScoredOf(TiedStore(q), q);
    assert es == {(5.0, 1), (5.0, 2)} by {
      assert (q, 1) in TiedStore(q).scores && (q, 2) in TiedStore(q).scores;
    }
    ListingSorts(es);
    var l := Listing(es);
    assert l[0] in es && l[1] in es && Less(l[0], l[1]);
  }

  /** Driver 3, asked for at position 2 between two drivers of equal score, comes last instead. */
  lemma TieIsMissed(q: Queue, wallClock: real, now: int, cfg: QueueConfig)
    ensures var s := ManualAdd(TiedStore(q), q, 3, 2, wallClock, now, cfg);
            (q, 3) in s.scores && s.Rank((q, 3)) != Some(1) && s.Ahead(q, s.scores[(q, 3)], 3) == {(q, 1), (q, 2)}
  {
    assert TakenOut(TiedStore(q), q, 3).scores == TiedStore(q).scores;
    assert ScoredOf(TakenOut(TiedStore(q), q, 3), q) == ScoredOf(TiedStore(q), q);
    TiedListing(q);
    ManualAddLands(TiedStore(q), q, 3, 2, wallClock, now, cfg);
    InsertedPairs(TiedStore(q), q, 3, 2, wallClock, now, cfg);
    var s := ManualAdd(TiedStore(q), q, 3, 2, wallClock, now, cfg);
    assert s.scores == map[(q, 1) := 5.0, (q, 2) := 5.0, (q, 3) := 5.0];
  }
}
