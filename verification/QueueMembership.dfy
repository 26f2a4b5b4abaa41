/** Single membership: a driver waits in at most one queue, and its tracking names that queue. */
module QueueMembership {
  import opened Common
  import opened QueueStore
  import opened QueueDrainer
  import opened QueueManual

  ghost predicate Single(s: Store, d: Driver) {
    forall q :: s.InQueue(q, d) ==> s.TrackedIn(q, d)
  }

  ghost predicate SingleMembership(s: Store) {
    forall d :: Single(s, d)
  }

  // ----- reading a batch -----

  function LastEnter(acts: seq<QueueAction>, d: Driver): Option<Queue> {
    if acts == [] then None
    else
      var a := acts[|acts| - 1];
      if a.Enter? && a.driver == d then Some(a.queue) else LastEnter(acts[..|acts| - 1], d)
  }

  /** The driver's last action in the batch is a PossibleExit. */
  predicate EndsInExit(acts: seq<QueueAction>, d: Driver) {
    acts != [] &&
    var a := acts[|acts| - 1];
    if a.driver == d then a.PossibleExit? else EndsInExit(acts[..|acts| - 1], d)
  }

  predicate Enters(acts: seq<QueueAction>, d: Driver, q: Queue) {
    exists i :: 0 <= i < |acts| && acts[i].Enter? && acts[i].driver == d && acts[i].queue == q
  }

  /** The batch ends by evicting the driver from the queue that the snapshot tracked. */
  predicate EndsEvicted(s: Store, acts: seq<QueueAction>, d: Driver, cfg: QueueConfig) {
    EndsInExit(acts, d) && d in s.tracking && Evicts(s.tracking[d], cfg)
  }

  /**
   * What a batch must satisfy for driver d: if it enters a queue that the
   * snapshot does not track, then its last Enter is into that queue and no
   * evicting exit follows.
   */
  ghost predicate BatchSafe(s: Store, acts: seq<QueueAction>, d: Driver, cfg: QueueConfig) {
    forall q :: Enters(acts, d, q) && !s.TrackedIn(q, d) ==>
                  LastEnter(acts, d) == Some(q) && !EndsEvicted(s, acts, d, cfg)
  }

  // ----- what the pipeline leaves behind -----

  lemma EntersSplit(acts: seq<QueueAction>, d: Driver, q: Queue)
    requires acts != []
    ensures var last := acts[|acts| - 1];
            Enters(acts, d, q) <==>
              (Enters(acts[..|acts| - 1], d, q) || (last.Enter? && last.driver == d && last.queue == q))
  {
    var p := acts[..|acts| - 1];
    assert forall i :: 0 <= i < |p| ==> p[i] == acts[i];
  }

  lemma {:induction false} LastEnterEnters(acts: seq<QueueAction>, d: Driver)
    ensures LastEnter(acts, d).Some? ==> Enters(acts, d, LastEnter(acts, d).value)
    ensures LastEnter(acts, d).None? ==> forall q :: !Enters(acts, d, q)
  {
    if acts != [] {
      LastEnterEnters(acts[..|acts| - 1], d);
      if LastEnter(acts, d).Some? {
        EntersSplit(acts, d, LastEnter(acts, d).value);
      } else {
        forall q ensures !Enters(acts, d, q) {
          EntersSplit(acts, d, q);
        }
      }
    }
  }

  /** One action's effect on one membership. */
  lemma ApplyMembership(s: Store, snap: Store, a: QueueAction, now: int, cfg: QueueConfig, d: Driver, q: Queue)
    ensures Apply(s, snap, a, now, cfg).InQueue(q, d) <==>
            if a.driver != d then s.InQueue(q, d)
            else if a.Enter? then a.queue == q || (s.InQueue(q, d) && !snap.TrackedIn(q, d))
            else s.InQueue(q, d) && !(snap.TrackedIn(q, d) && Evicts(snap.tracking[d], cfg))
  {
  }

  /** Queues other than the tracked one are only ever entered by a replay. */
  lemma {:induction false} ReplayForeign(s: Store, acts: seq<QueueAction>, now: int, cfg: QueueConfig, d: Driver,
                                         q: Queue)
    requires Single(s, d) && !s.TrackedIn(q, d)
    ensures Replay(s, acts, now, cfg).InQueue(q, d) <==> Enters(acts, d, q)
  {
    if acts != [] {
      var p := acts[..|acts| - 1];
      ReplayForeign(s, p, now, cfg, d, q);
      ApplyMembership(Replay(s, p, now, cfg), s, acts[|acts| - 1], now, cfg, d, q);
      EntersSplit(acts, d, q);
    }
  }

  /** Membership of the tracked queue follows the driver's last actions. */
  lemma {:induction false} ReplayHome(s: Store, acts: seq<QueueAction>, now: int, cfg: QueueConfig, d: Driver)
    requires d in s.tracking
    ensures var home := s.tracking[d].queue;
            var r := Replay(s, acts, now, cfg);
            (LastEnter(acts, d).Some? && LastEnter(acts, d) != Some(home) ==> !r.InQueue(home, d)) &&
            (EndsEvicted(s, acts, d, cfg) ==> !r.InQueue(home, d)) &&
            (LastEnter(acts, d) == Some(home) && !EndsEvicted(s, acts, d, cfg) ==> r.InQueue(home, d))
  {
    if acts != [] {
      var p := acts[..|acts| - 1];
      ReplayHome(s, p, now, cfg, d);
      ApplyMembership(Replay(s, p, now, cfg), s, acts[|acts| - 1], now, cfg, d, s.tracking[d].queue);
    }
  }

  /** The queue that the tracking entry of d names after the pipeline. */
  function TrackedAfter(s: Store, acts: seq<QueueAction>, d: Driver, cfg: QueueConfig): Option<Queue> {
    if EndsEvicted(s, acts, d, cfg) then None
    else if LastEnter(acts, d).Some? && !(EndsInExit(acts, d) && d in s.tracking) then LastEnter(acts, d)
    else if d in s.tracking then Some(s.tracking[d].queue) else None
  }

  function QueueOf(s: Store, d: Driver): Option<Queue> {
    if d in s.tracking then Some(s.tracking[d].queue) else None
  }

  lemma {:induction false} ReplayTracking(s: Store, acts: seq<QueueAction>, now: int, cfg: QueueConfig, d: Driver)
    ensures QueueOf(Replay(s, acts, now, cfg), d) == TrackedAfter(s, acts, d, cfg)
  {
    if acts != [] {
      var p := acts[..|acts| - 1];
      ReplayTracking(s, p, now, cfg, d);
      ApplyTracking(Replay(s, p, now, cfg), s, acts[|acts| - 1], now, cfg, d);
      var r := Replay(s, acts, now, cfg);
      assert QueueOf(r, d) == if r.GetTracking(d).Some? then Some(r.GetTracking(d).value.queue) else None;
    }
  }

  // ----- what the rank refresh adds -----

  /** Some entry refreshes the tracking of d with queue q. */
  ghost predicate Refreshes(s: Store, es: seq<Entry>, d: Driver, q: Queue) {
    exists e :: e in es && e.driver == d && e.queue == q && s.InQueue(q, d)
  }

  /** The refresh keeps the sets and the tracked drivers, and only ever names a queue that an entry joined. */
  lemma {:induction false} RefreshBounds(s: Store, es: seq<Entry>, d: Driver)
    ensures var r := RecordRanks(s, es);
            r.scores == s.scores && r.lastTs == s.lastTs && r.queueDeadline == s.queueDeadline &&
            (d in r.tracking <==> d in s.tracking) &&
            (d in s.tracking ==> QueueOf(r, d) == QueueOf(s, d) || Refreshes(s, es, d, r.tracking[d].queue))
  {
    if es != [] {
      var p := es[..|es| - 1];
      RefreshBounds(s, p, d);
      assert forall e :: e in p ==> e in es;
      assert es[|es| - 1] in es;
    }
  }

  /** Entries into one joined queue, refreshed without a remembered rank, leave the tracking at that queue. */
  lemma {:induction false} RefreshSettles(s: Store, es: seq<Entry>, d: Driver, q: Queue)
    requires d in s.tracking && s.InQueue(q, d)
    requires forall e :: e in es && e.driver == d && e.queue == q ==> e.prevRank == None
    requires forall p :: p != q ==> !Refreshes(s, es, d, p)
    ensures (exists e :: e in es && e.driver == d && e.queue == q) ==> QueueOf(RecordRanks(s, es), d) == Some(q)
  {
    if es != [] {
      var p := es[..|es| - 1];
      var last := es[|es| - 1];
      assert forall e :: e in es <==> e in p || e == last;
      forall o | o != q ensures !Refreshes(s, p, d, o) {
        assert !Refreshes(s, es, d, o);
      }
      RefreshSettles(s, p, d, q);
      RefreshBounds(s, p, d);
      if last.driver == d && last.queue != q && s.InQueue(last.queue, d) {
        assert Refreshes(s, es, d, last.queue);
      }
    }
  }

  lemma {:induction false} EntriesAreEnters(s: Store, acts: seq<QueueAction>, d: Driver, q: Queue)
    ensures (exists e :: e in EntriesOf(s, acts) && e.driver == d && e.queue == q) <==> Enters(acts, d, q)
    ensures forall e :: e in EntriesOf(s, acts) ==> e.prevRank == PrevRank(e.queue, s.GetTracking(e.driver))
  {
    if acts != [] {
      var p := acts[..|acts| - 1];
      EntriesAreEnters(s, p, d, q);
      EntersSplit(acts, d, q);
      var a := acts[|acts| - 1];
      if a.Enter? {
        var last := Entry(a.driver, a.queue, PrevRank(a.queue, s.GetTracking(a.driver)));
        assert forall e :: e in EntriesOf(s, acts) <==> e in EntriesOf(s, p) || e == last;
      } else {
        assert EntriesOf(s, acts) == EntriesOf(s, p);
      }
    }
  }

  // ----- the drain -----

  lemma DrainKeepsSingle(s: Store, acts: seq<QueueAction>, now: int, cfg: QueueConfig, d: Driver)
    requires Single(s, d) && BatchSafe(s, acts, d, cfg)
    ensures Single(Drain(s, acts, now, cfg), d)
  {
    var r := Replay(s, acts, now, cfg);
    var es := EntriesOf(s, acts);
    var end := Drain(s, acts, now, cfg);
    RefreshBounds(r, es, d);
    ReplayTracking(s, acts, now, cfg, d);
    LastEnterEnters(acts, d);
    forall q ensures end.InQueue(q, d) ==> end.TrackedIn(q, d) {
      if end.InQueue(q, d) {
        if s.TrackedIn(q, d) {
          ReplayHome(s, acts, now, cfg, d);
          forall p ensures !(Enters(acts, d, p) && p != q) {
            assert Enters(acts, d, p) && !s.TrackedIn(p, d) ==> LastEnter(acts, d) == Some(p);
          }
          forall p ensures Refreshes(r, es, d, p) ==> p == q {
            EntriesAreEnters(s, acts, d, p);
          }
        } else {
          ReplayForeign(s, acts, now, cfg, d, q);
          EntriesAreEnters(s, acts, d, q);
          forall p | p != q ensures !Refreshes(r, es, d, p) {
            EntriesAreEnters(s, acts, d, p);
            if s.TrackedIn(p, d) {
              ReplayHome(s, acts, now, cfg, d);
            } else {
              assert Enters(acts, d, p) ==> LastEnter(acts, d) == Some(p);
            }
          }
          RefreshSettles(r, es, d, q);
        }
      }
    }
  }

  lemma DrainBreaksSingle(s: Store, acts: seq<QueueAction>, now: int, cfg: QueueConfig, d: Driver)
    requires Single(s, d) && Single(Drain(s, acts, now, cfg), d)
    ensures BatchSafe(s, acts, d, cfg)
  {
    var r := Replay(s, acts, now, cfg);
    var end := Drain(s, acts, now, cfg);
    RefreshBounds(r, EntriesOf(s, acts), d);
    ReplayTracking(s, acts, now, cfg, d);
    LastEnterEnters(acts, d);
    forall q | Enters(acts, d, q) && !s.TrackedIn(q, d)
      ensures LastEnter(acts, d) == Some(q) && !EndsEvicted(s, acts, d, cfg)
    {
      ReplayForeign(s, acts, now, cfg, d, q);
      assert end.InQueue(q, d);
      var last := LastEnter(acts, d).value;
      if s.TrackedIn(last, d) {
        ReplayHome(s, acts, now, cfg, d);
        assert end.InQueue(last, d);
      } else {
        ReplayForeign(s, acts, now, cfg, d, last);
        assert end.InQueue(last, d);
      }
    }
  }

  /**
   * A drain of any batch, repeated drivers included, keeps single membership
   * exactly when the batch is safe for every driver.
   */
  lemma DrainSingleMembership(s: Store, acts: seq<QueueAction>, now: int, cfg: QueueConfig)
    requires SingleMembership(s)
    ensures SingleMembership(Drain(s, acts, now, cfg)) <==> forall d :: BatchSafe(s, acts, d, cfg)
  {
    if SingleMembership(Drain(s, acts, now, cfg)) {
      forall d ensures BatchSafe(s, acts, d, cfg) {
        DrainBreaksSingle(s, acts, now, cfg, d);
      }
    }
    if forall d :: BatchSafe(s, acts, d, cfg) {
      forall d ensures Single(Drain(s, acts, now, cfg), d) {
        DrainKeepsSingle(s, acts, now, cfg, d);
      }
    }
  }

  ghost predicate NoRepeats(acts: seq<QueueAction>) {
    forall i, j :: 0 <= i < j < |acts| ==> acts[i].driver != acts[j].driver
  }

  /** A batch in which no driver repeats is safe for everyone. */
  lemma {:induction false} NoRepeatsIsSafe(s: Store, acts: seq<QueueAction>, cfg: QueueConfig, d: Driver)
    requires NoRepeats(acts)
    ensures BatchSafe(s, acts, d, cfg)
  {
    forall q | Enters(acts, d, q) ensures LastEnter(acts, d) == Some(q) && !EndsInExit(acts, d) {
      OnlyEnter(acts, d, q);
    }
  }

  lemma {:induction false} OnlyEnter(acts: seq<QueueAction>, d: Driver, q: Queue)
    requires NoRepeats(acts) && Enters(acts, d, q)
    ensures LastEnter(acts, d) == Some(q) && !EndsInExit(acts, d)
  {
    var p := acts[..|acts| - 1];
    var i :| 0 <= i < |acts| && acts[i].Enter? && acts[i].driver == d && acts[i].queue == q;
    if i < |acts| - 1 {
      assert p[i] == acts[i];
      OnlyEnter(p, d, q);
    }  else {
      Silent(p, d);
    }
  }

  /** A driver without actions leaves no trace. */
  lemma {:induction false} Silent(acts: seq<QueueAction>, d: Driver)
    requires forall i :: 0 <= i < |acts| ==> acts[i].driver != d
    ensures LastEnter(acts, d) == None && !EndsInExit(acts, d)
  {
    if acts != [] {
      Silent(acts[..|acts| - 1], d);
    }
  }

  // ----- the other handlers -----

  lemma OfflineSingleMembership(s: Store, d: Driver)
    requires SingleMembership(s)
    ensures SingleMembership(OfflineCleanup(s, d))
  {
    var s' := OfflineCleanup(s, d);
    forall e, q ensures s'.InQueue(q, e) ==> s'.TrackedIn(q, e) {
      assert Single(s, e);
      assert s.InQueue(q, e) ==> s.TrackedIn(q, e);
    }
  }

  lemma ManualAddSingleMembership(s: Store, q: Queue, d: Driver, position: nat, wallClock: real, now: int,
                                  cfg: QueueConfig)
    requires SingleMembership(s)
    ensures SingleMembership(ManualAdd(s, q, d, position, wallClock, now, cfg))
  {
    var s' := ManualAdd(s, q, d, position, wallClock, now, cfg);
    forall e, p ensures s'.InQueue(p, e) ==> s'.TrackedIn(p, e) {
      assert Single(s, e);
      assert s.InQueue(p, e) ==> s.TrackedIn(p, e);
    }
  }

  /** A manual removal keeps single membership exactly when the driver waits in no other queue than the one named. */
  lemma ManualRemoveSingleMembership(s: Store, q: Queue, d: Driver)
    requires SingleMembership(s)
    ensures SingleMembership(ManualRemove(s, q, d)) <==> forall p :: s.InQueue(p, d) ==> p == q
  {
    var s' := ManualRemove(s, q, d);
    if forall p :: s.InQueue(p, d) ==> p == q {
      forall e, p ensures s'.InQueue(p, e) ==> s'.TrackedIn(p, e) {
        assert Single(s, e);
        assert s.InQueue(p, e) ==> s.TrackedIn(p, e);
      }
    }
    if SingleMembership(s') {
      assert Single(s', d);
      forall p ensures s.InQueue(p, d) ==> p == q {
        assert s'.InQueue(p, d) ==> s'.TrackedIn(p, d);
      }
    }
  }

  lemma PurgeSingleMembership(s: Store, now: int)
    requires SingleMembership(s)
    ensures SingleMembership(s.Purge(now))
  {
    var s' := s.Purge(now);
    forall d, q ensures s'.InQueue(q, d) ==> s'.TrackedIn(q, d) {
      assert Single(s, d);
      assert s.InQueue(q, d) ==> s.TrackedIn(q, d);
    }
  }

  // ----- inputs on which single membership fails -----

  const HERE := Queue(0, 0)
  const THERE := Queue(1, 0)

  /** One driver enters two queues in one batch, untracked before: it ends up in both. */
  lemma TwoEntersInOneBatch(now: int, cfg: QueueConfig)
    ensures var s := Drain(EMPTY, [Enter(0, HERE, 1.0), Enter(0, THERE, 1.0)], now, cfg);
            s.InQueue(HERE, 0) && s.InQueue(THERE, 0) && !SingleMembership(s)
  {
    var acts := [Enter(0, HERE, 1.0), Enter(0, THERE, 1.0)];
    var s := Drain(EMPTY, acts, now, cfg);
    RefreshBounds(Replay(EMPTY, acts, now, cfg), EntriesOf(EMPTY, acts), 0);
    assert acts[0].queue == HERE && acts[1].queue == THERE;
    assert Enters(acts, 0, HERE) && Enters(acts, 0, THERE);
    ReplayForeign(EMPTY, acts, now, cfg, 0, HERE);
    ReplayForeign(EMPTY, acts, now, cfg, 0, THERE);
    assert !(s.TrackedIn(HERE, 0) && s.TrackedIn(THERE, 0));
    assert !Single(s, 0);
  }

  /** One driver enters a queue and is removed by hand from another: it still waits, tracked nowhere. */
  lemma RemovedFromTheWrongQueue(now: int, cfg: QueueConfig)
    ensures var s := Drain(EMPTY, [Enter(0, HERE, 1.0)], now, cfg);
            SingleMembership(s) && ManualRemove(s, THERE, 0).InQueue(HERE, 0) &&
            !SingleMembership(ManualRemove(s, THERE, 0))
  {
    var acts := [Enter(0, HERE, 1.0)];
    var s := Drain(EMPTY, acts, now, cfg);
    forall d ensures BatchSafe(EMPTY, acts, d, cfg) {
      NoRepeatsIsSafe(EMPTY, acts, cfg, d);
    }
    DrainSingleMembership(EMPTY, acts, now, cfg);
    RefreshBounds(Replay(EMPTY, acts, now, cfg), EntriesOf(EMPTY, acts), 0);
    assert acts[0].queue == HERE;
    assert Enters(acts, 0, HERE);
    ReplayForeign(EMPTY, acts, now, cfg, 0, HERE);
    ManualRemoveSingleMembership(s, THERE, 0);
    assert s.InQueue(HERE, 0) && HERE != THERE;
  }
}
