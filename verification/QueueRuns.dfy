/** Whole histories of the queues: drains, offline cleanups, manual operations and the passage of time. */
module QueueRuns {
  import opened Common
  import opened QueueStore
  import opened QueueDrainer
  import opened QueueManual
  import opened QueueMembership
  import opened QueueBatch
  import opened SortedSet

  datatype Event =
    | Batch(acts: seq<QueueAction>)
    | Offline(driver: Driver)
    | Added(queue: Queue, driver: Driver, position: nat, wallClock: real)
    | Removed(queue: Queue, driver: Driver)

  /** An event together with the time at which its handler runs. */
  datatype Timed = At(now: int, event: Event)

  function Handle(s: Store, e: Event, now: int, cfg: QueueConfig): Store {
    match e
    case Batch(acts) => Drain(s, acts, now, cfg)
    case Offline(d) => OfflineCleanup(s, d)
    case Added(q, d, position, wallClock) => ManualAdd(s, q, d, position, wallClock, now, cfg)
    case Removed(q, d) => ManualRemove(s, q, d)
  }

  function Step(s: Store, t: Timed, cfg: QueueConfig): Store {
    Handle(s.Purge(t.now), t.event, t.now, cfg)
  }

  function Run(s: Store, run: seq<Timed>, cfg: QueueConfig): Store {
    if run == [] then s else Step(Run(s, run[..|run| - 1], cfg), run[|run| - 1], cfg)
  }

  // ----- single membership over all runs -----

  /** What the store must satisfy when the event arrives; checkable before the handler runs. */
  ghost predicate StepSafe(s: Store, e: Event, cfg: QueueConfig) {
    match e
    case Batch(acts) => forall d :: BatchSafe(s, acts, d, cfg)
    case Removed(q, d) => forall p :: s.InQueue(p, d) ==> p == q
    case _ => true
  }

  ghost predicate RunSafe(s: Store, run: seq<Timed>, cfg: QueueConfig) {
    run != [] ==>
      RunSafe(s, run[..|run| - 1], cfg) &&
      StepSafe(Run(s, run[..|run| - 1], cfg).Purge(run[|run| - 1].now), run[|run| - 1].event, cfg)
  }

  /** Single membership holds at every moment of the run. */
  ghost predicate AlwaysSingle(s: Store, run: seq<Timed>, cfg: QueueConfig) {
    SingleMembership(Run(s, run, cfg)) && (run != [] ==> AlwaysSingle(s, run[..|run| - 1], cfg))
  }

  lemma StepSingleMembership(s: Store, t: Timed, cfg: QueueConfig)
    requires SingleMembership(s)
    ensures SingleMembership(Step(s, t, cfg)) <==> StepSafe(s.Purge(t.now), t.event, cfg)
  {
    PurgeSingleMembership(s, t.now);
    var live := s.Purge(t.now);
    match t.event
    case Batch(acts) => DrainSingleMembership(live, acts, t.now, cfg);
    case Offline(d) => OfflineSingleMembership(live, d);
    case Added(q, d, position, wallClock) => ManualAddSingleMembership(live, q, d, position, wallClock, t.now, cfg);
    case Removed(q, d) => ManualRemoveSingleMembership(live, q, d);
  }

  /** A run keeps single membership throughout exactly when each of its events is safe where it happens. */
  lemma {:induction false} RunSingleMembership(s: Store, run: seq<Timed>, cfg: QueueConfig)
    requires SingleMembership(s)
    ensures AlwaysSingle(s, run, cfg) <==> RunSafe(s, run, cfg)
  {
    if run != [] {
      var p := run[..|run| - 1];
      RunSingleMembership(s, p, cfg);
      if AlwaysSingle(s, p, cfg) {
        StepSingleMembership(Run(s, p, cfg), run[|run| - 1], cfg);
      }
    }
  }

  // ----- one driver's part of a run -----

  /** What the store knows about one driver and one queue, ranks aside. */
  datatype Slice = Slice(tracking: Option<(Queue, u32)>, score: Option<real>, stamp: Option<Stamp>)

  function SliceOf(s: Store, q: Queue, d: Driver): Slice {
    Slice(if d in s.tracking then Some((s.tracking[d].queue, s.tracking[d].exitPings)) else None,
          if (q, d) in s.scores then Some(s.scores[(q, d)]) else None,
          if (q, d) in s.lastTs then Some(s.lastTs[(q, d)]) else None)
  }

  /** The driver's last action in a batch. */
  function ActionOf(acts: seq<QueueAction>, d: Driver): Option<QueueAction> {
    if acts == [] then None
    else if acts[|acts| - 1].driver == d then Some(acts[|acts| - 1])
    else ActionOf(acts[..|acts| - 1], d)
  }

  /** What one event means for driver d. */
  datatype Move =
    | Enters(queue: Queue, timestamp: real)
    | Exits
    | Placed(queue: Queue)
    | Leaves

  function MoveOf(e: Event, d: Driver): Option<Move> {
    match e
    case Batch(acts) =>
      var a := ActionOf(acts, d);
      if a.None? then None
      else if a.value.Enter? then Some(Enters(a.value.queue, a.value.timestamp)) else Some(Exits)
    case Offline(o) => if o == d then Some(Leaves) else None
    case Added(q, o, _, _) => if o == d then Some(Placed(q)) else None
    case Removed(_, o) => if o == d then Some(Leaves) else None
  }

  function Moves(run: seq<Timed>, d: Driver): seq<Move> {
    if run == [] then []
    else
      var m := MoveOf(run[|run| - 1].event, d);
      Moves(run[..|run| - 1], d) + if m.Some? then [m.value] else []
  }

  ghost predicate OncePerBatch(e: Event) {
    e.Batch? ==> NoRepeats(e.acts)
  }

  ghost predicate OncePerBatches(run: seq<Timed>) {
    forall i :: 0 <= i < |run| ==> OncePerBatch(run[i].event)
  }

  /** How an Enter of the driver itself changes its slice for queue q. */
  function EnterSlice(x: Slice, q: Queue, to: Queue, t: real, now: int, cfg: QueueConfig): Slice {
    if to == q then
      var stored := if x.stamp.Some? then Some(x.stamp.value.value) else None;
      Slice(Some((q, 0)), Some(ScoreAfterEnter(x.score, t, stored)),
            Some(Stamp(EffectiveScore(t, stored), now + cfg.lastTsTtl)))
    else if x.tracking.Some? && x.tracking.value.0 == q then Slice(Some((to, 0)), None, None)
    else Slice(Some((to, 0)), x.score, x.stamp)
  }

  function ExitSlice(x: Slice, q: Queue, now: int, cfg: QueueConfig): Slice {
    if x.tracking.None? then x
    else
      var (home, count) := x.tracking.value;
      if SaturatingInc(count) < cfg.Threshold() then Slice(Some((home, SaturatingInc(count))), x.score, x.stamp)
      else if home == q then
        Slice(None, None, if x.stamp.Some? then Some(Stamp(x.stamp.value.value, now + cfg.lastTsTtl)) else None)
      else Slice(None, x.score, x.stamp)
  }

  function MoveSlice(x: Slice, q: Queue, a: Option<QueueAction>, now: int, cfg: QueueConfig): Slice {
    match a
    case None => x
    case Some(Enter(_, to, t)) => EnterSlice(x, q, to, t, now, cfg)
    case Some(PossibleExit(_, _)) => ExitSlice(x, q, now, cfg)
  }

  lemma OwnEnter(s: Store, d: Driver, to: Queue, t: real, tr: Option<Tracking>, stored: Option<real>,
                 now: int, cfg: QueueConfig, q: Queue)
    requires tr == s.GetTracking(d) && stored == s.GetLastTs((to, d))
    ensures SliceOf(ApplyEnter(s, d, to, t, tr, stored, now, cfg), q, d) ==
            EnterSlice(SliceOf(s, q, d), q, to, t, now, cfg)
  {
    var r := ApplyEnter(s, d, to, t, tr, stored, now, cfg);
    var x := EnterSlice(SliceOf(s, q, d), q, to, t, now, cfg);
    assert SliceOf(r, q, d).tracking == x.tracking;
    assert SliceOf(r, q, d).score == x.score;
    assert SliceOf(r, q, d).stamp == x.stamp;
  }

  lemma OwnExit(s: Store, d: Driver, tr: Option<Tracking>, now: int, cfg: QueueConfig, q: Queue)
    requires tr == s.GetTracking(d)
    ensures SliceOf(ApplyExit(s, d, tr, now, cfg), q, d) == ExitSlice(SliceOf(s, q, d), q, now, cfg)
  {
  }

  lemma OwnAction(s: Store, snap: Store, a: QueueAction, now: int, cfg: QueueConfig, q: Queue)
    requires snap.GetTracking(a.driver) == s.GetTracking(a.driver)
    requires forall o :: snap.GetLastTs((o, a.driver)) == s.GetLastTs((o, a.driver))
    ensures SliceOf(Apply(s, snap, a, now, cfg), q, a.driver) ==
            MoveSlice(SliceOf(s, q, a.driver), q, Some(a), now, cfg)
  {
    match a
    case Enter(d, to, t) =>
      assert snap.GetLastTs((to, d)) == s.GetLastTs((to, d));
      OwnEnter(s, d, to, t, snap.GetTracking(d), snap.GetLastTs((to, d)), now, cfg, q);
    case PossibleExit(d, _) =>
      OwnExit(s, d, snap.GetTracking(d), now, cfg, q);
  }

  /** In a batch without repeats a driver's slice is what its own action makes of it. */
  lemma {:induction false} ReplaySlice(s: Store, acts: seq<QueueAction>, now: int, cfg: QueueConfig, q: Queue,
                                       d: Driver)
    requires NoRepeats(acts)
    ensures SliceOf(Replay(s, acts, now, cfg), q, d) == MoveSlice(SliceOf(s, q, d), q, ActionOf(acts, d), now, cfg)
  {
    if acts != [] {
      var p, a := acts[..|acts| - 1], acts[|acts| - 1];
      var r := Replay(s, p, now, cfg);
      ReplaySlice(s, p, now, cfg, q, d);
      if a.driver == d {
        NoActionOf(p, d);
        ReplayUntouched(s, p, now, cfg, d);
        OwnAction(r, s, a, now, cfg, q);
      } else {
        ApplyElsewhere(r, s, a, now, cfg, (q, d));
        ApplyTracking(r, s, a, now, cfg, d);
        SliceFromReads(Apply(r, s, a, now, cfg), r, q, d);
      }
    }
  }

  lemma SliceFromReads(s1: Store, s2: Store, q: Queue, d: Driver)
    requires s1.GetTracking(d) == s2.GetTracking(d)
    requires (q, d) in s1.scores <==> (q, d) in s2.scores
    requires (q, d) in s1.scores ==> s1.scores[(q, d)] == s2.scores[(q, d)]
    requires (q, d) in s1.lastTs <==> (q, d) in s2.lastTs
    requires (q, d) in s1.lastTs ==> s1.lastTs[(q, d)] == s2.lastTs[(q, d)]
    ensures SliceOf(s1, q, d) == SliceOf(s2, q, d)
  {
  }

  lemma {:induction false} NoActionOf(acts: seq<QueueAction>, d: Driver)
    requires forall i :: 0 <= i < |acts| ==> acts[i].driver != d
    ensures ActionOf(acts, d) == None
  {
    if acts != [] {
      NoActionOf(acts[..|acts| - 1], d);
    }
  }

  lemma ErasedSlice(s1: Store, s2: Store, q: Queue, d: Driver)
    requires Erase(s1) == Erase(s2)
    ensures SliceOf(s1, q, d) == SliceOf(s2, q, d)
  {
    SameKeys(s1, s2);
    if d in s1.tracking {
      assert Erase(s1).tracking[d] == Erase(s2).tracking[d];
    }
  }

  /** The score of an insertion, from what the others of the queue have. */
  function ScoreAmong(s: Store, q: Queue, d: Driver, position: nat, wallClock: real): real {
    InsertScore(Listing(ScoredOf(TakenOut(s, q, d), q)), position, wallClock)
  }

  function PlacedSlice(x: Slice, q: Queue, to: Queue, score: real): Slice {
    Slice(Some((to, 0)),
          if to == q then Some(score) else if x.tracking.Some? && x.tracking.value.0 == q then None else x.score,
          x.stamp)
  }

  /** Leaving: a manual removal names the queue, going OFFLINE means the tracked one and spares the timestamp. */
  function LeaveSlice(x: Slice, q: Queue, named: Option<Queue>): Slice {
    var gone := if named.Some? then named.value == q else x.tracking.Some? && x.tracking.value.0 == q;
    Slice(None, if gone then None else x.score, if named == Some(q) then None else x.stamp)
  }

  /** One event on one slice, in terms of the driver's own move; only an inserted score depends on the others. */
  lemma HandleSlice(s: Store, e: Event, now: int, cfg: QueueConfig, q: Queue, d: Driver)
    requires OncePerBatch(e)
    ensures var x, y := SliceOf(s, q, d), SliceOf(Handle(s, e, now, cfg), q, d);
            match MoveOf(e, d)
            case None => y == x
            case Some(Enters(to, t)) => y == EnterSlice(x, q, to, t, now, cfg)
            case Some(Exits) => y == ExitSlice(x, q, now, cfg)
            case Some(Placed(to)) =>
              e.Added? && y == PlacedSlice(x, q, to, ScoreAmong(s, to, d, e.position, e.wallClock))
            case Some(Leaves) => y == LeaveSlice(x, q, if e.Removed? then Some(e.queue) else None)
  {
    match e {
      case Batch(acts) => BatchSlice(s, acts, now, cfg, q, d);
      case Offline(o) => OfflineSlice(s, o, q, d);
      case Added(to, o, position, wallClock) => AddedSlice(s, to, o, position, wallClock, now, cfg, q, d);
      case Removed(from, o) => RemovedSlice(s, from, o, q, d);
    }
  }

  lemma BatchSlice(s: Store, acts: seq<QueueAction>, now: int, cfg: QueueConfig, q: Queue, d: Driver)
    requires NoRepeats(acts)
    ensures var a := ActionOf(acts, d);
            SliceOf(Drain(s, acts, now, cfg), q, d) == MoveSlice(SliceOf(s, q, d), q, a, now, cfg) &&
            (a.Some? ==> a.value.driver == d)
  {
    DrainErased(s, acts, now, cfg);
    ErasedSlice(Drain(s, acts, now, cfg), Replay(s, acts, now, cfg), q, d);
    ReplaySlice(s, acts, now, cfg, q, d);
    LastActionIsOwn(acts, d);
  }

  lemma OfflineSlice(s: Store, o: Driver, q: Queue, d: Driver)
    ensures SliceOf(OfflineCleanup(s, o), q, d) ==
            if o == d then LeaveSlice(SliceOf(s, q, d), q, None) else SliceOf(s, q, d)
  {
  }

  lemma AddedSlice(s: Store, to: Queue, o: Driver, position: nat, wallClock: real, now: int, cfg: QueueConfig,
                   q: Queue, d: Driver)
    ensures SliceOf(ManualAdd(s, to, o, position, wallClock, now, cfg), q, d) ==
            if o == d then PlacedSlice(SliceOf(s, q, d), q, to, ScoreAmong(s, to, d, position, wallClock))
            else SliceOf(s, q, d)
  {
  }

  lemma RemovedSlice(s: Store, from: Queue, o: Driver, q: Queue, d: Driver)
    ensures SliceOf(ManualRemove(s, from, o), q, d) ==
            if o == d then LeaveSlice(SliceOf(s, q, d), q, Some(from)) else SliceOf(s, q, d)
  {
  }

  lemma {:induction false} LastActionIsOwn(acts: seq<QueueAction>, d: Driver)
    ensures ActionOf(acts, d).Some? ==> ActionOf(acts, d).value.driver == d
  {
    if acts != [] {
      LastActionIsOwn(acts[..|acts| - 1], d);
    }
  }

  /** Time can take a driver out of a queue and its last timestamp away, never its tracking. */
  lemma PurgeSlice(s: Store, now: int, q: Queue, d: Driver)
    ensures var x, y := SliceOf(s, q, d), SliceOf(s.Purge(now), q, d);
            y.tracking == x.tracking && (y.score == None || y.score == x.score) &&
            y.stamp == if x.stamp.Some? && now < x.stamp.value.deadline then x.stamp else None
  {
  }
}
