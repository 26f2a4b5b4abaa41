/** The exit counter and the tracking entry, explained by the driver's history alone. */
module QueueHysteresis {
  import opened Common
  import opened QueueStore
  import opened QueueDrainer
  import opened QueueRuns

  /** The place of the last Enter or manual insertion, -1 if there is none. */
  function LastPlacement(moves: seq<Move>): (k: int)
    ensures -1 <= k < |moves|
    ensures 0 <= k ==> moves[k].Enters? || moves[k].Placed?
    ensures forall i :: k < i < |moves| ==> moves[i].Exits? || moves[i].Leaves?
  {
    if moves == [] then -1
    else if moves[|moves| - 1].Enters? || moves[|moves| - 1].Placed? then |moves| - 1
    else LastPlacement(moves[..|moves| - 1])
  }

  /**
   * Where a driver is tracked, and with which counter, read off its whole
   * history: the queue of its last placement, provided that since then it has
   * only sent exit pings and fewer of them than the threshold.
   */
  function TrackedBy(moves: seq<Move>, cfg: QueueConfig): Option<(Queue, nat)> {
    var k := LastPlacement(moves);
    if k == -1 then None
    else if Leaves in moves[k + 1..] || |moves| - 1 - k >= Max(cfg.exitThreshold, 1) then None
    else Some((moves[k].queue, |moves| - 1 - k))
  }

  function Counter(s: Store, d: Driver): Option<(Queue, nat)> {
    if d in s.tracking then Some((s.tracking[d].queue, s.tracking[d].exitPings)) else None
  }

  lemma TrackedByStep(moves: seq<Move>, m: Move, cfg: QueueConfig)
    ensures var before, after := TrackedBy(moves, cfg), TrackedBy(moves + [m], cfg);
            after == CounterStep(before, Some(m), cfg)
  {
    var longer := moves + [m];
    assert longer[..|longer| - 1] == moves;
    var k := LastPlacement(moves);
    if !m.Enters? && !m.Placed? && k != -1 {
      assert longer[k + 1..] == moves[k + 1..] + [m];
    }
  }

  function CounterStep(before: Option<(Queue, nat)>, m: Option<Move>, cfg: QueueConfig): Option<(Queue, nat)> {
    match m
    case None => before
    case Some(Enters(q, _)) => Some((q, 0))
    case Some(Placed(q)) => Some((q, 0))
    case Some(Leaves) => None
    case Some(Exits) =>
      if before.Some? && before.value.1 + 1 < Max(cfg.exitThreshold, 1)
      then Some((before.value.0, before.value.1 + 1)) else None
  }

  /** The tracking of one slice after one event. */
  lemma HandleTracking(s: Store, e: Event, now: int, cfg: QueueConfig, q: Queue, d: Driver)
    requires OncePerBatch(e)
    ensures var x, y := SliceOf(s, q, d).tracking, SliceOf(Handle(s, e, now, cfg), q, d).tracking;
            match MoveOf(e, d)
            case None => y == x
            case Some(Enters(to, _)) => y == Some((to, 0))
            case Some(Placed(to)) => y == Some((to, 0))
            case Some(Leaves) => y == None
            case Some(Exits) =>
              y == if x.Some? && SaturatingInc(x.value.1) < Max(cfg.exitThreshold, 1)
                   then Some((x.value.0, SaturatingInc(x.value.1))) else None
  {
    HandleSlice(s, e, now, cfg, q, d);
  }

  /** One event changes a driver's counter by the driver's own move alone. */
  lemma StepCounter(s: Store, t: Timed, cfg: QueueConfig, d: Driver)
    requires OncePerBatch(t.event)
    ensures Counter(Step(s, t, cfg), d) == CounterStep(Counter(s, d), MoveOf(t.event, d), cfg)
  {
    var q := Queue(0, 0);
    PurgeSlice(s, t.now, q, d);
    HandleTracking(s.Purge(t.now), t.event, t.now, cfg, q, d);
    CounterOfSlice(s, q, d);
    CounterOfSlice(Step(s, t, cfg), q, d);
  }

  lemma CounterOfSlice(s: Store, q: Queue, d: Driver)
    ensures Counter(s, d) == var t := SliceOf(s, q, d).tracking; if t.Some? then Some((t.value.0, t.value.1)) else None
  {
  }

  /**
   * From the empty store, for every run with at most one action per driver per
   * batch, the tracking entry of every driver is the one its history gives.
   */
  lemma {:induction false} CounterIsHistory(run: seq<Timed>, cfg: QueueConfig, d: Driver)
    requires OncePerBatches(run)
    ensures Counter(Run(EMPTY, run, cfg), d) == TrackedBy(Moves(run, d), cfg)
    ensures TrackedBy(Moves(run, d), cfg).Some? ==> TrackedBy(Moves(run, d), cfg).value.1 < Max(cfg.exitThreshold, 1)
  {
    if run != [] {
      var p, t := run[..|run| - 1], run[|run| - 1];
      CounterIsHistory(p, cfg, d);
      StepCounter(Run(EMPTY, p, cfg), t, cfg, d);
      var m := MoveOf(t.event, d);
      if m.Some? {
        TrackedByStep(Moves(p, d), m.value, cfg);
      } else {
        assert Moves(run, d) == Moves(p, d);
      }
    }
  }

  /** The exit pings since the driver's last placement. */
  function ExitsInARow(moves: seq<Move>): nat {
    |moves| - 1 - LastPlacement(moves)
  }

  /**
   * A tracked driver's exit ping evicts it exactly when it is the
   * consecutive one that the threshold asks for, and the first if it asks for none.
   */
  lemma EvictionIsExact(run: seq<Timed>, t: Timed, cfg: QueueConfig, d: Driver)
    requires OncePerBatches(run + [t]) && MoveOf(t.event, d) == Some(Exits)
    requires d in Run(EMPTY, run, cfg).tracking
    ensures d !in Run(EMPTY, run + [t], cfg).tracking <==> ExitsInARow(Moves(run + [t], d)) == Max(cfg.exitThreshold, 1)
  {
    var longer := run + [t];
    assert longer[..|run|] == run;
    assert OncePerBatches(run) by {
      forall i | 0 <= i < |run| ensures OncePerBatch(run[i].event) {
        assert longer[i] == run[i];
      }
    }
    CounterIsHistory(run, cfg, d);
    CounterIsHistory(longer, cfg, d);
    TrackedByStep(Moves(run, d), Exits, cfg);
    assert Moves(longer, d)[..|Moves(run, d)|] == Moves(run, d);
  }
}
