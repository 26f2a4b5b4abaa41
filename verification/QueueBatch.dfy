/** Replaying a batch from one snapshot, against processing its actions one at a time on the live store. */
module QueueBatch {
  import opened Common
  import opened QueueStore
  import opened QueueDrainer
  import opened QueueMembership

  /** The store without the remembered ranks, which only decide what goes into the rank history. */
  function Erase(s: Store): Store {
    s.(tracking := map d | d in s.tracking :: s.tracking[d].(lastRank := None))
  }

  /** Each action drained on its own, in order, each reading what the earlier ones wrote. */
  function Serial(s: Store, acts: seq<QueueAction>, now: int, cfg: QueueConfig): Store {
    if acts == [] then s
    else Drain(Serial(s, acts[..|acts| - 1], now, cfg), [acts[|acts| - 1]], now, cfg)
  }

  ghost predicate Faithful(s: Store, acts: seq<QueueAction>, now: int, cfg: QueueConfig) {
    Erase(Drain(s, acts, now, cfg)) == Erase(Serial(s, acts, now, cfg))
  }

  /** A replay leaves alone what it does not act on. */
  lemma {:induction false} ReplayUntouched(s: Store, acts: seq<QueueAction>, now: int, cfg: QueueConfig, d: Driver)
    requires forall i :: 0 <= i < |acts| ==> acts[i].driver != d
    ensures var r := Replay(s, acts, now, cfg);
            r.GetTracking(d) == s.GetTracking(d) && forall q :: r.GetLastTs((q, d)) == s.GetLastTs((q, d))
  {
    if acts != [] {
      var p := acts[..|acts| - 1];
      ReplayUntouched(s, p, now, cfg, d);
      var r, a := Replay(s, p, now, cfg), acts[|acts| - 1];
      ApplyTracking(r, s, a, now, cfg, d);
      forall q ensures Apply(r, s, a, now, cfg).GetLastTs((q, d)) == r.GetLastTs((q, d)) {
        ApplyElsewhere(r, s, a, now, cfg, (q, d));
      }
    }
  }

  /** Every entry's driver is tracked where it entered, with a counter of zero. */
  ghost predicate Fresh(s: Store, es: seq<Entry>) {
    forall e :: e in es ==>
      e.driver in s.tracking && s.tracking[e.driver].queue == e.queue && s.tracking[e.driver].exitPings == 0
  }

  lemma {:induction false} ReplayFresh(s: Store, acts: seq<QueueAction>, now: int, cfg: QueueConfig)
    requires NoRepeats(acts)
    ensures Fresh(Replay(s, acts, now, cfg), EntriesOf(s, acts))
    ensures forall e :: e in EntriesOf(s, acts) ==> exists i :: 0 <= i < |acts| && acts[i].driver == e.driver
  {
    if acts != [] {
      var p := acts[..|acts| - 1];
      ReplayFresh(s, p, now, cfg);
      forall e | e in EntriesOf(s, p)
        ensures e.driver != acts[|acts| - 1].driver && exists i :: 0 <= i < |acts| && acts[i].driver == e.driver
      {
        var i :| 0 <= i < |p| && p[i].driver == e.driver;
        assert acts[i] == p[i];
      }
      assert acts[|acts| - 1].driver == acts[|acts| - 1].driver;
    }
  }

  lemma {:induction false} RanksAreErased(s: Store, es: seq<Entry>)
    requires Fresh(s, es)
    ensures Erase(RecordRanks(s, es)) == Erase(s)
  {
    if es != [] {
      var p := es[..|es| - 1];
      assert forall e :: e in p ==> e in es;
      RanksAreErased(s, p);
      var e := es[|es| - 1];
      assert e in es;
      var r := RecordRanks(s, p);
      assert Erase(r).tracking[e.driver] == Erase(s).tracking[e.driver];
    }
  }

  lemma DrainErased(s: Store, acts: seq<QueueAction>, now: int, cfg: QueueConfig)
    requires NoRepeats(acts)
    ensures Erase(Drain(s, acts, now, cfg)) == Erase(Replay(s, acts, now, cfg))
  {
    ReplayFresh(s, acts, now, cfg);
    RanksAreErased(Replay(s, acts, now, cfg), EntriesOf(s, acts));
  }

  // ----- the remembered ranks -----

  lemma {:induction false} RefreshElsewhere(s: Store, es: seq<Entry>, d: Driver)
    requires forall e :: e in es ==> e.driver != d
    ensures RecordRanks(s, es).GetTracking(d) == s.GetTracking(d)
  {
    if es != [] {
      assert forall e :: e in es[..|es| - 1] ==> e in es;
      RefreshElsewhere(s, es[..|es| - 1], d);
      assert es[|es| - 1] in es;
    }
  }

  /** The refresh of the driver's only entry leaves it with its current rank. */
  lemma {:induction false} RefreshedRank(s: Store, es: seq<Entry>, e: Entry)
    requires e in es && (forall f :: f in es && f.driver == e.driver ==> f == e)
    requires s.InQueue(e.queue, e.driver) && s.GetTracking(e.driver) == Some(Tracking(e.queue, 0, e.prevRank))
    ensures RecordRanks(s, es).GetTracking(e.driver) ==
            Some(Tracking(e.queue, 0, s.Rank((e.queue, e.driver))))
  {
    var p, last := es[..|es| - 1], es[|es| - 1];
    assert forall f :: f in p ==> f in es;
    assert last in es;
    RefreshBounds(s, p, e.driver);
    assert RecordRanks(s, p).Rank((e.queue, e.driver)) == s.Rank((e.queue, e.driver));
    if e in p {
      RefreshedRank(s, p, e);
    } else {
      assert e == last;
      RefreshElsewhere(s, p, e.driver);
    }
  }

  lemma {:induction false} EntryOf(snap: Store, acts: seq<QueueAction>, i: nat)
    requires NoRepeats(acts) && i < |acts| && acts[i].Enter?
    ensures var a := acts[i];
            var e := Entry(a.driver, a.queue, PrevRank(a.queue, snap.GetTracking(a.driver)));
            e in EntriesOf(snap, acts) && forall f :: f in EntriesOf(snap, acts) && f.driver == e.driver ==> f == e
  {
    var p, now, cfg := acts[..|acts| - 1], 0, QueueConfig(0, 0, 0);
    ReplayFresh(snap, p, now, cfg);
    if i < |p| {
      EntryOf(snap, p, i);
    }
  }

  lemma {:induction false} EnteredTracking(s: Store, acts: seq<QueueAction>, i: nat, now: int, cfg: QueueConfig)
    requires NoRepeats(acts) && i < |acts| && acts[i].Enter?
    ensures var a, r := acts[i], Replay(s, acts, now, cfg);
            r.GetTracking(a.driver) == Some(Tracking(a.queue, 0, PrevRank(a.queue, s.GetTracking(a.driver)))) &&
            r.InQueue(a.queue, a.driver)
  {
    var p := acts[..|acts| - 1];
    var r := Replay(s, p, now, cfg);
    if i < |p| {
      EnteredTracking(s, p, i, now, cfg);
    }
    ApplyTracking(r, s, acts[|acts| - 1], now, cfg, acts[i].driver);
    ApplyMembership(r, s, acts[|acts| - 1], now, cfg, acts[i].driver, acts[i].queue);
  }

  /**
   * After a drain without repeated drivers every driver that entered is tracked
   * in its queue with a counter of zero and with the rank it then has there.
   */
  lemma RankIsRemembered(s: Store, acts: seq<QueueAction>, i: nat, now: int, cfg: QueueConfig)
    requires NoRepeats(acts) && i < |acts| && acts[i].Enter?
    ensures var a, end := acts[i], Drain(s, acts, now, cfg);
            end.InQueue(a.queue, a.driver) &&
            end.GetTracking(a.driver) == Some(Tracking(a.queue, 0, end.Rank((a.queue, a.driver))))
  {
    var a, r := acts[i], Replay(s, acts, now, cfg);
    var e := Entry(a.driver, a.queue, PrevRank(a.queue, s.GetTracking(a.driver)));
    EntryOf(s, acts, i);
    EnteredTracking(s, acts, i, now, cfg);
    RefreshedRank(r, EntriesOf(s, acts), e);
    RefreshBounds(r, EntriesOf(s, acts), a.driver);
    assert Drain(s, acts, now, cfg).Rank((a.queue, a.driver)) == r.Rank((a.queue, a.driver));
  }

  // ----- erasing the ranks -----

  /** Ranks never influence what an action writes elsewhere. */
  lemma ApplyErased(s1: Store, snap1: Store, s2: Store, snap2: Store, a: QueueAction, now: int, cfg: QueueConfig)
    requires Erase(s1) == Erase(s2)
    requires Erase(snap1).GetTracking(a.driver) == Erase(snap2).GetTracking(a.driver)
    requires forall q :: snap1.GetLastTs((q, a.driver)) == snap2.GetLastTs((q, a.driver))
    ensures Erase(Apply(s1, snap1, a, now, cfg)) == Erase(Apply(s2, snap2, a, now, cfg))
  {
    var r1, r2 := Apply(s1, snap1, a, now, cfg), Apply(s2, snap2, a, now, cfg);
    ApplyErasedKeys(s1, snap1, s2, snap2, a, now, cfg);
    forall d ensures Erase(r1).GetTracking(d) == Erase(r2).GetTracking(d) {
      ApplyTracking(s1, snap1, a, now, cfg, d);
      ApplyTracking(s2, snap2, a, now, cfg, d);
      assert Erase(s1).GetTracking(d) == Erase(s2).GetTracking(d);
    }
    SameTracking(Erase(r1), Erase(r2));
  }

  lemma ApplyErasedKeys(s1: Store, snap1: Store, s2: Store, snap2: Store, a: QueueAction, now: int, cfg: QueueConfig)
    requires Erase(s1) == Erase(s2)
    requires Erase(snap1).GetTracking(a.driver) == Erase(snap2).GetTracking(a.driver)
    requires forall q :: snap1.GetLastTs((q, a.driver)) == snap2.GetLastTs((q, a.driver))
    ensures var r1, r2 := Apply(s1, snap1, a, now, cfg), Apply(s2, snap2, a, now, cfg);
            SameSets(r1, r2)
  {
    SameKeys(s1, s2);
    var d := a.driver;
    assert d in snap1.tracking <==> d in snap2.tracking;
    match a
    case Enter(_, q, t) =>
      assert snap1.GetLastTs((q, d)) == snap2.GetLastTs((q, d));
      EnterErased(s1, s2, d, q, t, snap1.GetTracking(d), snap2.GetTracking(d), snap1.GetLastTs((q, d)), now, cfg);
    case PossibleExit(_, _) =>
      ExitErased(s1, s2, d, snap1.GetTracking(d), snap2.GetTracking(d), now, cfg);
  }

  ghost predicate SameSets(s1: Store, s2: Store) {
    s1.scores == s2.scores && s1.lastTs == s2.lastTs && s1.queueDeadline == s2.queueDeadline
  }

  ghost predicate SameButRank(t1: Option<Tracking>, t2: Option<Tracking>) {
    t1.Some? == t2.Some? &&
    (t1.Some? ==> t1.value.queue == t2.value.queue && t1.value.exitPings == t2.value.exitPings)
  }

  lemma EnterErased(s1: Store, s2: Store, d: Driver, q: Queue, t: real, t1: Option<Tracking>, t2: Option<Tracking>,
                    stored: Option<real>, now: int, cfg: QueueConfig)
    requires SameSets(s1, s2) && SameButRank(t1, t2)
    ensures SameSets(ApplyEnter(s1, d, q, t, t1, stored, now, cfg), ApplyEnter(s2, d, q, t, t2, stored, now, cfg))
  {
    assert SameSets(LeaveOldQueue(s1, d, q, t1), LeaveOldQueue(s2, d, q, t2));
  }

  lemma ExitErased(s1: Store, s2: Store, d: Driver, t1: Option<Tracking>, t2: Option<Tracking>,
                   now: int, cfg: QueueConfig)
    requires SameSets(s1, s2) && SameButRank(t1, t2)
    ensures SameSets(ApplyExit(s1, d, t1, now, cfg), ApplyExit(s2, d, t2, now, cfg))
  {
  }

  lemma SameKeys(s1: Store, s2: Store)
    requires Erase(s1) == Erase(s2)
    ensures SameSets(s1, s2)
    ensures s1.tracking.Keys == s2.tracking.Keys
  {
    assert s1.tracking.Keys == Erase(s1).tracking.Keys;
    assert s2.tracking.Keys == Erase(s2).tracking.Keys;
  }

  lemma SameTracking(s1: Store, s2: Store)
    requires forall d :: s1.GetTracking(d) == s2.GetTracking(d)
    ensures s1.tracking == s2.tracking
  {
    forall d ensures d in s1.tracking <==> d in s2.tracking {
      assert s1.GetTracking(d) == s2.GetTracking(d);
    }
    forall d | d in s1.tracking ensures s1.tracking[d] == s2.tracking[d] {
      assert s1.GetTracking(d) == s2.GetTracking(d);
    }
  }

  lemma DrainOne(s: Store, a: QueueAction, now: int, cfg: QueueConfig)
    ensures Erase(Drain(s, [a], now, cfg)) == Erase(Apply(s, s, a, now, cfg))
  {
    DrainErased(s, [a], now, cfg);
    assert [a][..0] == [];
    assert Replay(s, [], now, cfg) == s;
  }

  /** With no repeated driver, one snapshot and one pipeline do what one-at-a-time processing does. */
  lemma {:induction false} BatchRefinesSerial(s: Store, acts: seq<QueueAction>, now: int, cfg: QueueConfig)
    requires NoRepeats(acts)
    ensures Faithful(s, acts, now, cfg)
  {
    DrainErased(s, acts, now, cfg);
    if acts != [] {
      var p := acts[..|acts| - 1];
      var a := acts[|acts| - 1];
      BatchRefinesSerial(s, p, now, cfg);
      DrainErased(s, p, now, cfg);
      ReplayUntouched(s, p, now, cfg, a.driver);
      var r, live := Replay(s, p, now, cfg), Serial(s, p, now, cfg);
      SameKeys(r, live);
      assert Erase(s).GetTracking(a.driver) == Erase(r).GetTracking(a.driver);
      forall q ensures s.GetLastTs((q, a.driver)) == live.GetLastTs((q, a.driver)) {
        assert r.GetLastTs((q, a.driver)) == live.GetLastTs((q, a.driver));
      }
      ApplyErased(r, s, live, live, a, now, cfg);
      DrainOne(live, a, now, cfg);
    }
  }

  // ----- and only then -----

  lemma {:induction false} SerialSingleMembership(s: Store, acts: seq<QueueAction>, now: int, cfg: QueueConfig)
    requires SingleMembership(s)
    ensures SingleMembership(Serial(s, acts, now, cfg))
  {
    if acts != [] {
      var p := acts[..|acts| - 1];
      var one := [acts[|acts| - 1]];
      SerialSingleMembership(s, p, now, cfg);
      var live := Serial(s, p, now, cfg);
      forall d ensures BatchSafe(live, one, d, cfg) {
        NoRepeatsIsSafe(live, one, cfg, d);
      }
      DrainSingleMembership(live, one, now, cfg);
    }
  }

  /** Entering a new queue at every place of the batch. */
  function Tour(ids: seq<Driver>): seq<QueueAction> {
    seq(|ids|, i requires 0 <= i < |ids| => Enter(ids[i], Queue(i, 0), 0.0))
  }

  /** The driver that occurs twice ends up in two queues at once, which serial processing never lets happen. */
  lemma RepeatBreaksBatch(ids: seq<Driver>, i: nat, j: nat, now: int, cfg: QueueConfig)
    requires i < j < |ids| && ids[i] == ids[j]
    ensures !Faithful(EMPTY, Tour(ids), now, cfg)
  {
    var acts, d := Tour(ids), ids[i];
    var end := Drain(EMPTY, acts, now, cfg);
    forall k | k == i || k == j ensures end.InQueue(Queue(k, 0), d) {
      assert acts[k] == Enter(d, Queue(k, 0), 0.0);
      ReplayForeign(EMPTY, acts, now, cfg, d, Queue(k, 0));
      RefreshBounds(Replay(EMPTY, acts, now, cfg), EntriesOf(EMPTY, acts), d);
    }
    var live := Serial(EMPTY, acts, now, cfg);
    SerialSingleMembership(EMPTY, acts, now, cfg);
    assert Single(live, d);
    if Faithful(EMPTY, acts, now, cfg) {
      SameKeys(end, live);
      assert live.InQueue(Queue(i, 0), d) && live.InQueue(Queue(j, 0), d);
    }
  }

  ghost predicate HasIds(acts: seq<QueueAction>, ids: seq<Driver>) {
    |acts| == |ids| && forall i :: 0 <= i < |ids| ==> acts[i].driver == ids[i]
  }

  ghost predicate AllFaithful(ids: seq<Driver>, now: int, cfg: QueueConfig) {
    forall s: Store, acts :: HasIds(acts, ids) ==> Faithful(s, acts, now, cfg)
  }

  /** A sequence of driver ids is safe to batch, whatever the actions and the store, exactly when no id repeats. */
  lemma BatchableIffNoRepeats(ids: seq<Driver>, now: int, cfg: QueueConfig)
    ensures AllFaithful(ids, now, cfg) <==> forall i, j :: 0 <= i < j < |ids| ==> ids[i] != ids[j]
  {
    if forall i, j :: 0 <= i < j < |ids| ==> ids[i] != ids[j] {
      forall s: Store, acts | HasIds(acts, ids) ensures Faithful(s, acts, now, cfg) {
        BatchRefinesSerial(s, acts, now, cfg);
      }
    } else {
      var i, j :| 0 <= i < j < |ids| && ids[i] == ids[j];
      RepeatBreaksBatch(ids, i, j, now, cfg);
      assert HasIds(Tour(ids), ids);
    }
  }
}
