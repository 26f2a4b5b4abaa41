/** How long a queue lives, and exactly how long a driver waits in it. */
module QueueLifetime {
  import opened Common
  import opened QueueStore
  import opened QueueDrainer
  import opened QueueMembership
  import opened QueueRuns
  import opened QueueHysteresis

  // ----- the deadline of a queue -----

  /** Somebody enters the queue, or is inserted by hand. */
  predicate Renews(e: Event, q: Queue) {
    match e
    case Batch(acts) => exists i :: 0 <= i < |acts| && acts[i].Enter? && acts[i].queue == q
    case Added(to, _, _, _) => to == q
    case _ => false
  }

  /** The latest event that renewed the queue, -1 if there is none. */
  function LastRenewal(run: seq<Timed>, q: Queue): (k: int)
    ensures -1 <= k < |run|
    ensures 0 <= k ==> Renews(run[k].event, q)
    ensures forall i :: k < i < |run| ==> !Renews(run[i].event, q)
  {
    if run == [] then -1
    else if Renews(run[|run| - 1].event, q) then |run| - 1
    else LastRenewal(run[..|run| - 1], q)
  }

  /** A handler at time `now` after the run still finds the queue's key. */
  predicate Alive(run: seq<Timed>, q: Queue, now: int, cfg: QueueConfig) {
    var k := LastRenewal(run, q);
    k >= 0 && now < run[k].now + cfg.queueExpiry
  }

  function Deadline(s: Store, q: Queue): Option<int> {
    if q in s.queueDeadline then Some(s.queueDeadline[q]) else None
  }

  lemma {:induction false} ReplayDeadline(s: Store, acts: seq<QueueAction>, now: int, cfg: QueueConfig, q: Queue)
    ensures Deadline(Replay(s, acts, now, cfg), q) ==
            if Renews(Batch(acts), q) then Some(now + cfg.queueExpiry) else Deadline(s, q)
  {
    if acts != [] {
      var p, a := acts[..|acts| - 1], acts[|acts| - 1];
      ReplayDeadline(s, p, now, cfg, q);
      assert Renews(Batch(acts), q) <==> Renews(Batch(p), q) || (a.Enter? && a.queue == q) by {
        assert forall i :: 0 <= i < |p| ==> p[i] == acts[i];
      }
    }
  }

  lemma StepDeadline(s: Store, t: Timed, cfg: QueueConfig, q: Queue)
    ensures var before := Deadline(s, q);
            Deadline(Step(s, t, cfg), q) ==
              if Renews(t.event, q) then Some(t.now + cfg.queueExpiry)
              else if before.Some? && t.now < before.value then before else None
  {
    var live := s.Purge(t.now);
    match t.event
    case Batch(acts) =>
      ReplayDeadline(live, acts, t.now, cfg, q);
      RefreshBounds(Replay(live, acts, t.now, cfg), EntriesOf(live, acts), 0);
    case _ =>
  }

  /** Since the k-th event every handler came in time for what that event stored. */
  predicate InTimeSince(run: seq<Timed>, k: nat, cfg: QueueConfig)
    requires k < |run|
  {
    forall j :: k < j < |run| ==> run[j].now < run[k].now + cfg.queueExpiry
  }

  /**
   * From the empty store: the key of a queue is there exactly when it was ever
   * renewed and every handler since came less than the queue expiry after the
   * latest renewal; it then expires that long after it.
   */
  lemma {:induction false} DeadlineIsExact(run: seq<Timed>, cfg: QueueConfig, q: Queue)
    ensures var k := LastRenewal(run, q);
            Deadline(Run(EMPTY, run, cfg), q) ==
              if k >= 0 && InTimeSince(run, k, cfg) then Some(run[k].now + cfg.queueExpiry) else None
  {
    if run != [] {
      var p := run[..|run| - 1];
      DeadlineIsExact(p, cfg, q);
      StepDeadline(Run(EMPTY, p, cfg), run[|run| - 1], cfg, q);
      if 0 <= LastRenewal(run, q) < |p| {
        InTimeStep(run, LastRenewal(run, q), cfg);
      }
    }
  }

  lemma InTimeStep(run: seq<Timed>, k: nat, cfg: QueueConfig)
    requires k + 1 < |run|
    ensures var n := |run| - 1;
            InTimeSince(run, k, cfg) <==> InTimeSince(run[..n], k, cfg) && run[n].now < run[k].now + cfg.queueExpiry
  {
    var p := run[..|run| - 1];
    assert forall j :: k < j < |p| ==> p[j] == run[j];
  }

  // ----- one driver's stay -----

  /** The event puts the driver into the queue. */
  predicate Puts(e: Event, q: Queue, d: Driver) {
    var m := MoveOf(e, d);
    m.Some? && (m.value.Enters? || m.value.Placed?) && m.value.queue == q
  }

  /**
   * After these moves of the driver, the event takes it out of the queue: a
   * removal that names the queue; or, while tracked there, a move to another
   * queue, going OFFLINE, or the last exit ping that the threshold asks for.
   */
  predicate TakesOut(moves: seq<Move>, e: Event, q: Queue, d: Driver, cfg: QueueConfig) {
    var home := TrackedBy(moves, cfg);
    var here := home.Some? && home.value.0 == q;
    if e.Removed? then e.driver == d && e.queue == q
    else
      match MoveOf(e, d)
      case None => false
      case Some(Exits) => here && home.value.1 + 1 >= Max(cfg.exitThreshold, 1)
      case Some(Leaves) => here
      case Some(m) => here && m.queue != q
  }

  /** The j-th event finds the driver's queue alive and leaves the driver in it. */
  predicate StaysAt(run: seq<Timed>, j: nat, q: Queue, d: Driver, cfg: QueueConfig)
    requires j < |run|
  {
    Alive(run[..j], q, run[j].now, cfg) && !TakesOut(Moves(run[..j], d), run[j].event, q, d, cfg)
  }

  /** The k-th event put the driver into the queue, and it stayed at all events since. */
  ghost predicate WaitsSince(run: seq<Timed>, k: nat, q: Queue, d: Driver, cfg: QueueConfig) {
    k < |run| && Puts(run[k].event, q, d) && forall j :: k < j < |run| ==> StaysAt(run, j, q, d, cfg)
  }

  ghost predicate Waits(run: seq<Timed>, q: Queue, d: Driver, cfg: QueueConfig) {
    exists k: nat :: WaitsSince(run, k, q, d, cfg)
  }

  lemma WaitsStep(run: seq<Timed>, q: Queue, d: Driver, cfg: QueueConfig)
    requires run != []
    ensures var n := |run| - 1;
            Waits(run, q, d, cfg) <==>
              Puts(run[n].event, q, d) || (Waits(run[..n], q, d, cfg) && StaysAt(run, n, q, d, cfg))
  {
    var n := |run| - 1;
    forall k: nat | k < n
      ensures WaitsSince(run, k, q, d, cfg) <==> WaitsSince(run[..n], k, q, d, cfg) && StaysAt(run, n, q, d, cfg)
    {
      WaitsBefore(run, k, q, d, cfg);
    }
    assert WaitsSince(run, n, q, d, cfg) <==> Puts(run[n].event, q, d);
  }

  lemma WaitsBefore(run: seq<Timed>, k: nat, q: Queue, d: Driver, cfg: QueueConfig)
    requires k + 1 < |run|
    ensures var n := |run| - 1;
            WaitsSince(run, k, q, d, cfg) <==> WaitsSince(run[..n], k, q, d, cfg) && StaysAt(run, n, q, d, cfg)
  {
    var n := |run| - 1;
    forall j | k < j < n ensures StaysAt(run[..n], j, q, d, cfg) <==> StaysAt(run, j, q, d, cfg) {
      assert run[..n][..j] == run[..j];
    }
  }

  lemma {:induction false} OwnActionIsThere(acts: seq<QueueAction>, d: Driver)
    ensures ActionOf(acts, d).Some? ==> ActionOf(acts, d).value in acts
  {
    if acts != [] {
      OwnActionIsThere(acts[..|acts| - 1], d);
    }
  }

  lemma PutsRenews(e: Event, q: Queue, d: Driver)
    requires Puts(e, q, d)
    ensures Renews(e, q)
  {
    if e.Batch? {
      OwnActionIsThere(e.acts, d);
      var i :| 0 <= i < |e.acts| && e.acts[i] == ActionOf(e.acts, d).value;
    }
  }

  /** One event, from the counter of the driver just before it. */
  lemma StepMember(s: Store, moves: seq<Move>, t: Timed, cfg: QueueConfig, q: Queue, d: Driver)
    requires OncePerBatch(t.event) && Counter(s, d) == TrackedBy(moves, cfg)
    requires TrackedBy(moves, cfg).Some? ==> TrackedBy(moves, cfg).value.1 < Max(cfg.exitThreshold, 1)
    ensures Step(s, t, cfg).InQueue(q, d) <==>
            Puts(t.event, q, d) || (s.Purge(t.now).InQueue(q, d) && !TakesOut(moves, t.event, q, d, cfg))
  {
    var live := s.Purge(t.now);
    PurgeSlice(s, t.now, q, d);
    HandleSlice(live, t.event, t.now, cfg, q, d);
    assert SliceOf(live, q, d).tracking == SliceOf(s, q, d).tracking;
    assert SliceOf(live, q, d).score.Some? <==> live.InQueue(q, d);
    assert SliceOf(Step(s, t, cfg), q, d).score.Some? <==> Step(s, t, cfg).InQueue(q, d);
  }

  /**
   * From the empty store, over every run: a driver is in the queue exactly when
   * some event put it there, no event since took it out, and every handler since
   * came less than the queue expiry after the latest Enter or insertion before
   * it, by whomever.
   */
  lemma {:induction false} QueuedIff(run: seq<Timed>, cfg: QueueConfig, q: Queue, d: Driver)
    requires OncePerBatches(run)
    ensures Run(EMPTY, run, cfg).InQueue(q, d) <==> Waits(run, q, d, cfg)
    ensures Run(EMPTY, run, cfg).InQueue(q, d) ==> Deadline(Run(EMPTY, run, cfg), q).Some?
  {
    if run != [] {
      var p, t := run[..|run| - 1], run[|run| - 1];
      var s := Run(EMPTY, p, cfg);
      QueuedIff(p, cfg, q, d);
      CounterIsHistory(p, cfg, d);
      StepMember(s, Moves(p, d), t, cfg, q, d);
      WaitsStep(run, q, d, cfg);
      DeadlineIsExact(p, cfg, q);
      StepDeadline(s, t, cfg, q);
      if Puts(t.event, q, d) {
        PutsRenews(t.event, q, d);
      }
    }
  }
}
