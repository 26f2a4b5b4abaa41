/** Order in the queues: arrival scores, recovery after an eviction, and no overtaking. */
module QueueFairness {
  import opened Common
  import opened QueueStore
  import opened QueueDrainer
  import opened QueueManual
  import opened QueueRuns

  // ----- no overtaking -----

  /** The driver's latest Enter timestamp, `floor` before the first. */
  function LatestEnter(moves: seq<Move>, floor: real): real {
    if moves == [] then floor
    else if moves[|moves| - 1].Enters? then moves[|moves| - 1].timestamp
    else LatestEnter(moves[..|moves| - 1], floor)
  }

  /** Enter timestamps from `floor` on never decrease, and nobody inserts the driver by hand. */
  predicate Orderly(moves: seq<Move>, floor: real) {
    moves == [] ||
    var p, m := moves[..|moves| - 1], moves[|moves| - 1];
    Orderly(p, floor) && !m.Placed? && (m.Enters? ==> LatestEnter(p, floor) <= m.timestamp)
  }

  /** The driver is in the queue at every moment of the run, also just before each handler. */
  predicate StaysQueued(s: Store, run: seq<Timed>, cfg: QueueConfig, q: Queue, d: Driver) {
    Run(s, run, cfg).InQueue(q, d) &&
    (run != [] ==>
       StaysQueued(s, run[..|run| - 1], cfg, q, d) &&
       Run(s, run[..|run| - 1], cfg).Purge(run[|run| - 1].now).InQueue(q, d))
  }

  ghost predicate StampsBelow(s: Store, d: Driver, bound: real) {
    forall q :: (q, d) in s.lastTs ==> s.lastTs[(q, d)].value <= bound
  }

  lemma StampsStayBelow(s: Store, t: Timed, cfg: QueueConfig, d: Driver, moves: seq<Move>, floor: real)
    requires OncePerBatch(t.event) && StampsBelow(s, d, LatestEnter(moves, floor))
    requires MoveOf(t.event, d).Some? ==> Orderly(moves + [MoveOf(t.event, d).value], floor)
    ensures var m := MoveOf(t.event, d);
            StampsBelow(Step(s, t, cfg), d, LatestEnter(if m.Some? then moves + [m.value] else moves, floor))
  {
    var m := MoveOf(t.event, d);
    if m.Some? {
      assert (moves + [m.value])[..|moves|] == moves;
    }
    var live, end := s.Purge(t.now), Step(s, t, cfg);
    var bound := LatestEnter(if m.Some? then moves + [m.value] else moves, floor);
    forall q | (q, d) in end.lastTs ensures end.lastTs[(q, d)].value <= bound {
      HandleSlice(live, t.event, t.now, cfg, q, d);
      PurgeSlice(s, t.now, q, d);
      assert SliceOf(end, q, d).stamp == Some(end.lastTs[(q, d)]);
    }
  }

  /** One event leaves the score of a driver that stays queued, if it enters no earlier than it did before. */
  lemma ScoreStays(s: Store, t: Timed, cfg: QueueConfig, q: Queue, d: Driver, bound: real)
    requires OncePerBatch(t.event) && StampsBelow(s, d, bound)
    requires s.Purge(t.now).InQueue(q, d) && Step(s, t, cfg).InQueue(q, d)
    requires var m := MoveOf(t.event, d);
             m.Some? ==> !m.value.Placed? && (m.value.Enters? ==> bound <= m.value.timestamp)
    ensures s.InQueue(q, d) && Step(s, t, cfg).scores[(q, d)] == s.scores[(q, d)]
  {
    PurgeSlice(s, t.now, q, d);
    HandleSlice(s.Purge(t.now), t.event, t.now, cfg, q, d);
    assert SliceOf(Step(s, t, cfg), q, d).score.Some?;
    assert SliceOf(s.Purge(t.now), q, d).score == Some(s.scores[(q, d)]);
  }

  /** While a driver stays queued, its score stays what it was. */
  lemma {:induction false} ScoreIsKept(s: Store, run: seq<Timed>, cfg: QueueConfig, q: Queue, d: Driver, floor: real)
    requires OncePerBatches(run) && StampsBelow(s, d, floor)
    requires Orderly(Moves(run, d), floor) && StaysQueued(s, run, cfg, q, d)
    ensures s.InQueue(q, d) && Run(s, run, cfg).scores[(q, d)] == s.scores[(q, d)]
    ensures StampsBelow(Run(s, run, cfg), d, LatestEnter(Moves(run, d), floor))
  {
    if run != [] {
      var p, t := run[..|run| - 1], run[|run| - 1];
      var m := MoveOf(t.event, d);
      assert m.Some? ==> Moves(run, d)[..|Moves(run, d)| - 1] == Moves(p, d);
      assert m.None? ==> Moves(run, d) == Moves(p, d);
      ScoreIsKept(s, p, cfg, q, d, floor);
      var before := Run(s, p, cfg);
      StampsStayBelow(before, t, cfg, d, Moves(p, d), floor);
      ScoreStays(before, t, cfg, q, d, LatestEnter(Moves(p, d), floor));
    }
  }

  /** Two drivers that both stay queued never swap ranks, whatever anybody else does. */
  lemma NoOvertaking(s: Store, run: seq<Timed>, cfg: QueueConfig, q: Queue, d: Driver, e: Driver, floor: real)
    requires OncePerBatches(run) && StampsBelow(s, d, floor) && StampsBelow(s, e, floor)
    requires Orderly(Moves(run, d), floor) && StaysQueued(s, run, cfg, q, d)
    requires Orderly(Moves(run, e), floor) && StaysQueued(s, run, cfg, q, e)
    ensures var end := Run(s, run, cfg);
            s.InQueue(q, d) && s.InQueue(q, e) && end.InQueue(q, d) && end.InQueue(q, e) &&
            (Before(end.scores[(q, d)], d, end.scores[(q, e)], e) <==> Before(s.scores[(q, d)], d, s.scores[(q, e)], e))
  {
    ScoreIsKept(s, run, cfg, q, d, floor);
    ScoreIsKept(s, run, cfg, q, e, floor);
  }

  // ----- the arrival score -----

  function EnterTimes(moves: seq<Move>): seq<real> {
    if moves == [] then []
    else if moves[|moves| - 1].Enters? then EnterTimes(moves[..|moves| - 1]) + [moves[|moves| - 1].timestamp]
    else EnterTimes(moves[..|moves| - 1])
  }

  function Least(ts: seq<real>): (m: real)
    requires ts != []
    ensures m in ts && forall t :: t in ts ==> m <= t
  {
    var last := ts[|ts| - 1];
    if |ts| == 1 then last
    else
      var rest := Least(ts[..|ts| - 1]);
      assert forall t :: t in ts ==> t in ts[..|ts| - 1] || t == last;
      if rest <= last then rest else last
  }

  /** The driver only enters queue q, sends exit pings, or goes offline. */
  predicate OnlyQueue(moves: seq<Move>, q: Queue) {
    forall m :: m in moves ==> (m.Enters? && m.queue == q) || m.Exits? || m.Leaves?
  }

  /** No manual removal names the driver and the queue. */
  predicate NotRemoved(run: seq<Timed>, q: Queue, d: Driver) {
    forall i :: 0 <= i < |run| ==> run[i].event != Removed(q, d)
  }

  // ----- how long a last timestamp lives -----

  /** Where the driver is tracked, with how many exits, and when its last timestamp for one queue expires. */
  datatype Clock = Clock(count: Option<(Queue, u32)>, deadline: Option<int>)

  /**
   * The clock of queue q after one move: an Enter into q, and an eviction from
   * it while the timestamp lives, give the full recovery window; nothing else does.
   */
  function ClockStep(c: Clock, q: Queue, m: Option<Move>, now: int, cfg: QueueConfig): Clock {
    var live := if c.deadline.Some? && now < c.deadline.value then c.deadline else None;
    var here := c.count.Some? && c.count.value.0 == q;
    match m
    case None => Clock(c.count, live)
    case Some(Enters(to, _)) =>
      Clock(Some((to, 0)), if to == q then Some(now + cfg.lastTsTtl) else if here then None else live)
    case Some(Placed(to)) => Clock(Some((to, 0)), live)
    case Some(Leaves) => Clock(None, live)
    case Some(Exits) =>
      if c.count.None? then Clock(None, live)
      else
        var exits := SaturatingInc(c.count.value.1);
        if exits < cfg.Threshold() then Clock(Some((c.count.value.0, exits)), live)
        else Clock(None, if here && live.Some? then Some(now + cfg.lastTsTtl) else live)
  }

  /** The clock after a run, from the driver's own moves and their times. */
  function ClockAfter(c: Clock, run: seq<Timed>, q: Queue, d: Driver, cfg: QueueConfig): Clock {
    if run == [] then c
    else
      var t := run[|run| - 1];
      ClockStep(ClockAfter(c, run[..|run| - 1], q, d, cfg), q, MoveOf(t.event, d), t.now, cfg)
  }

  function ClockOf(s: Store, q: Queue, d: Driver): Clock {
    var x := SliceOf(s, q, d);
    Clock(x.tracking, if x.stamp.Some? then Some(x.stamp.value.deadline) else None)
  }

  lemma ClockStepIs(s: Store, t: Timed, cfg: QueueConfig, q: Queue, d: Driver)
    requires OncePerBatch(t.event) && t.event != Removed(q, d)
    ensures ClockOf(Step(s, t, cfg), q, d) == ClockStep(ClockOf(s, q, d), q, MoveOf(t.event, d), t.now, cfg)
  {
    PurgeSlice(s, t.now, q, d);
    HandleSlice(s.Purge(t.now), t.event, t.now, cfg, q, d);
  }

  /** The store's tracking entry and the expiry of the last timestamp are those of the clock. */
  lemma {:induction false} ClockIsExact(s: Store, run: seq<Timed>, cfg: QueueConfig, q: Queue, d: Driver)
    requires OncePerBatches(run) && NotRemoved(run, q, d)
    ensures ClockOf(Run(s, run, cfg), q, d) == ClockAfter(ClockOf(s, q, d), run, q, d, cfg)
  {
    if run != [] {
      var p := run[..|run| - 1];
      ClockIsExact(s, p, cfg, q, d);
      ClockStepIs(Run(s, p, cfg), run[|run| - 1], cfg, q, d);
    }
  }

  /** By the driver's own moves, every Enter but the first comes while the last timestamp lives. */
  predicate InTime(c: Clock, run: seq<Timed>, q: Queue, d: Driver, cfg: QueueConfig) {
    run == [] ||
    var p, t := run[..|run| - 1], run[|run| - 1];
    InTime(c, p, q, d, cfg) &&
    (MoveOf(t.event, d).Some? && MoveOf(t.event, d).value.Enters? && EnterTimes(Moves(p, d)) != [] ==>
       var deadline := ClockAfter(c, p, q, d, cfg).deadline; deadline.Some? && t.now < deadline.value)
  }

  // ----- the score -----

  /** Queue q knows neither a score nor a last timestamp of the driver. */
  predicate Unknown(s: Store, q: Queue, d: Driver) {
    (q, d) !in s.scores && (q, d) !in s.lastTs
  }

  ghost predicate Arrived(x: Slice, ts: seq<real>) {
    if ts == [] then x.score == None && x.stamp == None
    else (x.stamp.Some? ==> x.stamp.value.value == Least(ts)) && (x.score.Some? ==> x.score.value == Least(ts))
  }

  lemma ArrivedEnter(x: Slice, t: real, now: int, cfg: QueueConfig, q: Queue, ts: seq<real>)
    requires Arrived(x, ts) && (ts != [] ==> x.stamp.Some?)
    ensures Arrived(EnterSlice(x, q, q, t, now, cfg), ts + [t])
  {
    var longer := ts + [t];
    assert longer[..|ts|] == ts;
    assert Least(longer) == if ts != [] && Least(ts) <= t then Least(ts) else t;
  }

  lemma ArrivedExit(x: Slice, now: int, cfg: QueueConfig, q: Queue, ts: seq<real>)
    requires Arrived(x, ts)
    ensures Arrived(ExitSlice(x, q, now, cfg), ts)
  {
  }

  /**
   * However Enters into one queue, evictions and the pings of others interleave,
   * the stored timestamp and the score of the driver are its earliest Enter.
   */
  lemma {:induction false} ArrivalScore(s: Store, run: seq<Timed>, cfg: QueueConfig, q: Queue, d: Driver)
    requires Unknown(s, q, d) && OncePerBatches(run)
    requires OnlyQueue(Moves(run, d), q) && NotRemoved(run, q, d) && InTime(ClockOf(s, q, d), run, q, d, cfg)
    ensures Arrived(SliceOf(Run(s, run, cfg), q, d), EnterTimes(Moves(run, d)))
  {
    if run != [] {
      var p, t := run[..|run| - 1], run[|run| - 1];
      var m := MoveOf(t.event, d);
      assert m.Some? ==> Moves(run, d)[..|Moves(run, d)| - 1] == Moves(p, d) && m.value in Moves(run, d);
      assert m.None? ==> Moves(run, d) == Moves(p, d);
      assert forall o :: o in Moves(p, d) ==> o in Moves(run, d);
      ArrivalScore(s, p, cfg, q, d);
      ClockIsExact(s, p, cfg, q, d);
      var live := Run(s, p, cfg).Purge(t.now);
      var ts := EnterTimes(Moves(p, d));
      PurgeSlice(Run(s, p, cfg), t.now, q, d);
      assert Arrived(SliceOf(live, q, d), ts);
      HandleSlice(live, t.event, t.now, cfg, q, d);
      match m {
        case Some(Enters(_, at)) => ArrivedEnter(SliceOf(live, q, d), at, t.now, cfg, q, ts);
        case Some(Exits) => ArrivedExit(SliceOf(live, q, d), t.now, cfg, q, ts);
        case _ =>
      }
    }
  }

  // ----- pinging often enough keeps the last timestamp alive -----

  /** When the driver's latest Enter was handled. */
  function EnterAt(run: seq<Timed>, d: Driver): Option<int> {
    if run == [] then None
    else
      var t := run[|run| - 1];
      var m := MoveOf(t.event, d);
      if m.Some? && m.value.Enters? then Some(t.now) else EnterAt(run[..|run| - 1], d)
  }

  /** Handlers run in order of time, and each Enter of the driver follows the one before within the recovery window. */
  predicate Steady(run: seq<Timed>, d: Driver, cfg: QueueConfig) {
    run == [] ||
    var p, t := run[..|run| - 1], run[|run| - 1];
    Steady(p, d, cfg) && (p != [] ==> p[|p| - 1].now <= t.now) &&
    (MoveOf(t.event, d).Some? && MoveOf(t.event, d).value.Enters? && EnterAt(p, d).Some? ==>
       t.now < EnterAt(p, d).value + cfg.lastTsTtl)
  }

  /** The clock runs at least until the recovery window after the latest Enter closes. */
  predicate Lasts(c: Clock, enter: Option<int>, time: int, cfg: QueueConfig) {
    enter.Some? ==>
      enter.value <= time &&
      ((c.deadline.Some? && c.deadline.value >= enter.value + cfg.lastTsTtl) || time >= enter.value + cfg.lastTsTtl)
  }

  lemma LastsStep(c: Clock, q: Queue, m: Option<Move>, now: int, cfg: QueueConfig, enter: Option<int>, time: int)
    requires time <= now && Lasts(c, enter, time, cfg)
    requires m.Some? ==> (m.value.Enters? && m.value.queue == q) || m.value.Exits? || m.value.Leaves?
    ensures Lasts(ClockStep(c, q, m, now, cfg), if m.Some? && m.value.Enters? then Some(now) else enter, now, cfg)
  {
  }

  lemma {:induction false} EnterAtEnters(run: seq<Timed>, d: Driver)
    ensures EnterAt(run, d).Some? <==> EnterTimes(Moves(run, d)) != []
  {
    if run != [] {
      var p, m := run[..|run| - 1], MoveOf(run[|run| - 1].event, d);
      EnterAtEnters(p, d);
      assert m.Some? ==> Moves(run, d)[..|Moves(run, d)| - 1] == Moves(p, d);
      assert m.None? ==> Moves(run, d) == Moves(p, d);
    }
  }

  /** A driver that keeps pinging within the recovery window is always in time. */
  lemma {:induction false} SteadyPingsKeepStamp(c: Clock, run: seq<Timed>, cfg: QueueConfig, q: Queue, d: Driver)
    requires OnlyQueue(Moves(run, d), q) && Steady(run, d, cfg)
    ensures InTime(c, run, q, d, cfg)
    ensures run != [] ==> Lasts(ClockAfter(c, run, q, d, cfg), EnterAt(run, d), run[|run| - 1].now, cfg)
  {
    if run != [] {
      var p, t := run[..|run| - 1], run[|run| - 1];
      var m := MoveOf(t.event, d);
      assert m.Some? ==> Moves(run, d)[..|Moves(run, d)| - 1] == Moves(p, d) && m.value in Moves(run, d);
      assert m.None? ==> Moves(run, d) == Moves(p, d);
      assert forall o :: o in Moves(p, d) ==> o in Moves(run, d);
      SteadyPingsKeepStamp(c, p, cfg, q, d);
      EnterAtEnters(p, d);
      var time := if p == [] then t.now else p[|p| - 1].now;
      LastsStep(ClockAfter(c, p, q, d, cfg), q, m, t.now, cfg, EnterAt(p, d), time);
    }
  }

  /** Two runs whose Enters carry the same timestamps, in any order, leave a queued driver at the same score. */
  lemma ArrivalOrderIsIrrelevant(s1: Store, run1: seq<Timed>, s2: Store, run2: seq<Timed>, cfg: QueueConfig,
                                 q: Queue, d: Driver)
    requires Unknown(s1, q, d) && OncePerBatches(run1)
    requires OnlyQueue(Moves(run1, d), q) && NotRemoved(run1, q, d) && InTime(ClockOf(s1, q, d), run1, q, d, cfg)
    requires Unknown(s2, q, d) && OncePerBatches(run2)
    requires OnlyQueue(Moves(run2, d), q) && NotRemoved(run2, q, d) && InTime(ClockOf(s2, q, d), run2, q, d, cfg)
    requires multiset(EnterTimes(Moves(run1, d))) == multiset(EnterTimes(Moves(run2, d)))
    requires Run(s1, run1, cfg).InQueue(q, d) && Run(s2, run2, cfg).InQueue(q, d)
    ensures Run(s1, run1, cfg).scores[(q, d)] == Run(s2, run2, cfg).scores[(q, d)]
  {
    ArrivalScore(s1, run1, cfg, q, d);
    ArrivalScore(s2, run2, cfg, q, d);
    var ts1, ts2 := EnterTimes(Moves(run1, d)), EnterTimes(Moves(run2, d));
    assert forall t :: t in ts1 <==> t in multiset(ts1);
    assert forall t :: t in ts2 <==> t in multiset(ts2);
  }

  // ----- grace re-entry -----

  /** The driver does not come back to queue q, by itself or by hand, and is not removed from it. */
  predicate Elsewhere(e: Event, q: Queue, d: Driver) {
    var m := MoveOf(e, d);
    e != Removed(q, d) && (m.Some? && (m.value.Enters? || m.value.Placed?) ==> m.value.queue != q)
  }

  predicate AllElsewhere(run: seq<Timed>, q: Queue, d: Driver) {
    forall i :: 0 <= i < |run| ==> Elsewhere(run[i].event, q, d)
  }

  predicate AllBefore(run: seq<Timed>, deadline: int) {
    run == [] || (AllBefore(run[..|run| - 1], deadline) && run[|run| - 1].now < deadline)
  }

  lemma {:induction false} BoundedRun(run: seq<Timed>, last: int, deadline: int)
    requires (forall i :: 0 <= i < |run| ==> run[i].now <= last) && last < deadline
    ensures AllBefore(run, deadline)
  {
    if run != [] {
      BoundedRun(run[..|run| - 1], last, deadline);
    }
  }

  /** The driver has left queue q, and the queue remembers at most a last timestamp. */
  predicate Gone(x: Slice, q: Queue, stamp: Option<Stamp>) {
    !(x.tracking.Some? && x.tracking.value.0 == q) && x.score == None && x.stamp == stamp
  }

  lemma GoneStep(s: Store, t: Timed, cfg: QueueConfig, q: Queue, d: Driver, stamp: Option<Stamp>)
    requires OncePerBatch(t.event) && Elsewhere(t.event, q, d) && Gone(SliceOf(s, q, d), q, stamp)
    ensures Gone(SliceOf(Step(s, t, cfg), q, d), q,
                 if stamp.Some? && t.now < stamp.value.deadline then stamp else None)
  {
    PurgeSlice(s, t.now, q, d);
    HandleSlice(s.Purge(t.now), t.event, t.now, cfg, q, d);
  }

  /** While it stays away, whatever it does elsewhere, its last timestamp for q is touched by expiry alone. */
  lemma {:induction false} AwayRun(s: Store, run: seq<Timed>, cfg: QueueConfig, q: Queue, d: Driver,
                                   stamp: Option<Stamp>)
    requires OncePerBatches(run) && AllElsewhere(run, q, d) && Gone(SliceOf(s, q, d), q, stamp)
    ensures Gone(SliceOf(Run(s, run, cfg), q, d), q,
                 if stamp.Some? && AllBefore(run, stamp.value.deadline) then stamp else None)
  {
    if run != [] {
      var p := run[..|run| - 1];
      AwayRun(s, p, cfg, q, d, stamp);
      GoneStep(Run(s, p, cfg), run[|run| - 1], cfg, q, d,
               if stamp.Some? && AllBefore(p, stamp.value.deadline) then stamp else None);
    }
  }

  /** The last timestamp of the driver for queue q, if it is alive at time `now`. */
  function LiveStamp(s: Store, q: Queue, d: Driver, now: int): Option<Stamp> {
    if (q, d) in s.lastTs && now < s.lastTs[(q, d)].deadline then Some(s.lastTs[(q, d)]) else None
  }

  lemma EvictedSlice(s: Store, evict: Timed, cfg: QueueConfig, q: Queue, d: Driver)
    requires OncePerBatch(evict.event) && MoveOf(evict.event, d) == Some(Exits)
    requires s.TrackedIn(q, d) && Evicts(s.tracking[d], cfg)
    ensures var stamp := LiveStamp(s, q, d, evict.now);
            Gone(SliceOf(Step(s, evict, cfg), q, d), q,
                 if stamp.Some? then Some(Stamp(stamp.value.value, evict.now + cfg.lastTsTtl)) else None)
  {
    PurgeSlice(s, evict.now, q, d);
    HandleSlice(s.Purge(evict.now), evict.event, evict.now, cfg, q, d);
  }

  lemma OfflineSliceGone(s: Store, off: Timed, cfg: QueueConfig, q: Queue, d: Driver)
    requires s.TrackedIn(q, d) && off.event == Offline(d)
    ensures Gone(SliceOf(Step(s, off, cfg), q, d), q, LiveStamp(s, q, d, off.now))
  {
    PurgeSlice(s, off.now, q, d);
    HandleSlice(s.Purge(off.now), off.event, off.now, cfg, q, d);
  }

  lemma ReenteredSlice(s: Store, t: Timed, cfg: QueueConfig, q: Queue, d: Driver, ts: real)
    requires OncePerBatch(t.event) && MoveOf(t.event, d) == Some(Enters(q, ts))
    requires SliceOf(s, q, d).score == None
    ensures var stamp := SliceOf(s, q, d).stamp;
            SliceOf(Step(s, t, cfg), q, d).score ==
            Some(EffectiveScore(ts, if stamp.Some? && t.now < stamp.value.deadline
                                    then Some(stamp.value.value) else None))
  {
    PurgeSlice(s, t.now, q, d);
    HandleSlice(s.Purge(t.now), t.event, t.now, cfg, q, d);
  }

  /** The score at which a driver returns to a queue that it has left. */
  lemma ReturnScore(gone: Store, run: seq<Timed>, t: Timed, cfg: QueueConfig, q: Queue, d: Driver, ts: real,
                    stamp: Option<Stamp>)
    requires OncePerBatches(run) && OncePerBatch(t.event) && Gone(SliceOf(gone, q, d), q, stamp)
    requires AllElsewhere(run, q, d) && MoveOf(t.event, d) == Some(Enters(q, ts))
    requires forall i :: 0 <= i < |run| ==> run[i].now <= t.now
    ensures var end := Step(Run(gone, run, cfg), t, cfg);
            end.InQueue(q, d) &&
            end.scores[(q, d)] ==
              if stamp.Some? && t.now < stamp.value.deadline && stamp.value.value <= ts then stamp.value.value else ts
  {
    AwayRun(gone, run, cfg, q, d, stamp);
    if stamp.Some? && t.now < stamp.value.deadline {
      BoundedRun(run, t.now, stamp.value.deadline);
    }
    ReenteredSlice(Run(gone, run, cfg), t, cfg, q, d, ts);
    ScoreOfSlice(Step(Run(gone, run, cfg), t, cfg), q, d);
  }

  /**
   * A driver that a batch evicts by hysteresis, whatever it pings or does
   * elsewhere meanwhile, and that next enters the same queue at time t.now, gets
   * its stored arrival back exactly when that was alive at the eviction and the
   * driver returns within the recovery window; otherwise it starts afresh.
   */
  lemma GraceReentry(s: Store, evict: Timed, run: seq<Timed>, t: Timed, cfg: QueueConfig, q: Queue, d: Driver, ts: real)
    requires OncePerBatch(evict.event) && OncePerBatches(run) && OncePerBatch(t.event)
    requires s.TrackedIn(q, d) && Evicts(s.tracking[d], cfg) && MoveOf(evict.event, d) == Some(Exits)
    requires AllElsewhere(run, q, d) && MoveOf(t.event, d) == Some(Enters(q, ts))
    requires forall i :: 0 <= i < |run| ==> run[i].now <= t.now
    ensures var end := Step(Run(Step(s, evict, cfg), run, cfg), t, cfg);
            var stamp := LiveStamp(s, q, d, evict.now);
            end.InQueue(q, d) &&
            end.scores[(q, d)] ==
              if stamp.Some? && t.now < evict.now + cfg.lastTsTtl && stamp.value.value <= ts
              then stamp.value.value else ts
  {
    var stamp := LiveStamp(s, q, d, evict.now);
    EvictedSlice(s, evict, cfg, q, d);
    ReturnScore(Step(s, evict, cfg), run, t, cfg, q, d, ts,
                if stamp.Some? then Some(Stamp(stamp.value.value, evict.now + cfg.lastTsTtl)) else None);
  }

  /**
   * A driver that went OFFLINE, however often and whatever it does elsewhere
   * meanwhile, and that next enters the same queue gets its stored arrival back
   * exactly while the last timestamp of its time in the queue lives.
   */
  lemma OfflineReentry(s: Store, off: Timed, run: seq<Timed>, t: Timed, cfg: QueueConfig, q: Queue, d: Driver, ts: real)
    requires OncePerBatches(run) && OncePerBatch(t.event)
    requires s.TrackedIn(q, d) && off.event == Offline(d)
    requires AllElsewhere(run, q, d) && MoveOf(t.event, d) == Some(Enters(q, ts))
    requires forall i :: 0 <= i < |run| ==> run[i].now <= t.now
    ensures var end := Step(Run(Step(s, off, cfg), run, cfg), t, cfg);
            var stamp := LiveStamp(s, q, d, off.now);
            end.InQueue(q, d) &&
            end.scores[(q, d)] ==
              if stamp.Some? && t.now < stamp.value.deadline && stamp.value.value <= ts then stamp.value.value else ts
  {
    OfflineSliceGone(s, off, cfg, q, d);
    ReturnScore(Step(s, off, cfg), run, t, cfg, q, d, ts, LiveStamp(s, q, d, off.now));
  }

  /** The driver has been removed from queue q by hand, and nothing remembers it there. */
  lemma RemovedSliceGone(s: Store, out: Timed, cfg: QueueConfig, q: Queue, d: Driver)
    requires out.event == Removed(q, d)
    ensures Gone(SliceOf(Step(s, out, cfg), q, d), q, None)
  {
    HandleSlice(s.Purge(out.now), out.event, out.now, cfg, q, d);
  }

  /** A driver that was removed from a queue by hand starts afresh when it next enters, however soon. */
  lemma RemovalForgets(s: Store, out: Timed, run: seq<Timed>, t: Timed, cfg: QueueConfig, q: Queue, d: Driver, ts: real)
    requires OncePerBatches(run) && OncePerBatch(t.event) && out.event == Removed(q, d)
    requires AllElsewhere(run, q, d) && MoveOf(t.event, d) == Some(Enters(q, ts))
    requires forall i :: 0 <= i < |run| ==> run[i].now <= t.now
    ensures var end := Step(Run(Step(s, out, cfg), run, cfg), t, cfg);
            end.InQueue(q, d) && end.scores[(q, d)] == ts
  {
    RemovedSliceGone(s, out, cfg, q, d);
    ReturnScore(Step(s, out, cfg), run, t, cfg, q, d, ts, None);
  }

  // ----- an insertion into an empty queue -----

  /** Nobody but the driver itself is in the queue. */
  ghost predicate NobodyElse(s: Store, q: Queue, d: Driver) {
    forall e :: e != d ==> !s.InQueue(q, e)
  }

  lemma InsertedAlone(s: Store, q: Queue, d: Driver, position: nat, wallClock: real, now: int, cfg: QueueConfig)
    requires NobodyElse(s, q, d)
    ensures SliceOf(ManualAdd(s, q, d, position, wallClock, now, cfg), q, d).score == Some(wallClock)
  {
    var out := TakenOut(s, q, d);
    assert forall k :: k in out.scores && k.0 == q ==> k.1 != d && s.InQueue(q, k.1);
    assert ScoredOf(out, q) == {};
  }

  /**
   * A driver inserted into an empty queue stands as if it had entered at the
   * wall clock's time: whoever enters next comes ahead of it exactly with an
   * earlier timestamp, or an equal one and a lower id.
   */
  lemma InsertedThenEnters(s: Store, added: Timed, t: Timed, cfg: QueueConfig, q: Queue, d: Driver, e: Driver, ts: real)
    requires added.event.Added? && added.event.queue == q && added.event.driver == d && d != e
    requires NobodyElse(s.Purge(added.now), q, d) && LiveStamp(s, q, e, added.now) == None
    requires t.event == Batch([Enter(e, q, ts)]) && t.now < added.now + cfg.queueExpiry
    ensures var end := Step(Step(s, added, cfg), t, cfg);
            end.InQueue(q, d) && end.InQueue(q, e) &&
            (Before(end.scores[(q, e)], e, end.scores[(q, d)], d) <==>
             Before(ts, e, added.event.wallClock, d))
  {
    var live, one := s.Purge(added.now), Step(s, added, cfg);
    InsertedAlone(live, q, d, added.event.position, added.event.wallClock, added.now, cfg);
    ScoreOfSlice(one, q, d);
    PurgeSlice(s, added.now, q, e);
    HandleSlice(live, added.event, added.now, cfg, q, e);
    assert !live.InQueue(q, e) && SliceOf(live, q, e).score == None;
    assert SliceOf(one, q, e) == SliceOf(live, q, e);
    EnterKeepsOther(one, t, cfg, q, d, e, ts);
  }

  lemma EnterKeepsOther(one: Store, t: Timed, cfg: QueueConfig, q: Queue, d: Driver, e: Driver, ts: real)
    requires t.event == Batch([Enter(e, q, ts)]) && d != e && one.InQueue(q, d) && !one.InQueue(q, e)
    requires q in one.queueDeadline && t.now < one.queueDeadline[q] && (q, e) !in one.lastTs
    ensures var end := Step(one, t, cfg);
            end.InQueue(q, d) && end.scores[(q, d)] == one.scores[(q, d)] &&
            end.InQueue(q, e) && end.scores[(q, e)] == ts
  {
    var live := one.Purge(t.now);
    assert OncePerBatch(t.event) && ActionOf([Enter(e, q, ts)], e) == Some(Enter(e, q, ts));
    assert ActionOf([Enter(e, q, ts)], d) == ActionOf([], d);
    HandleSlice(live, t.event, t.now, cfg, q, d);
    HandleSlice(live, t.event, t.now, cfg, q, e);
    ScoreOfSlice(live, q, d);
    ScoreOfSlice(Step(one, t, cfg), q, d);
    ScoreOfSlice(Step(one, t, cfg), q, e);
  }

  lemma ScoreOfSlice(s: Store, q: Queue, d: Driver)
    ensures SliceOf(s, q, d).score.Some? ==> s.InQueue(q, d) && SliceOf(s, q, d).score.value == s.scores[(q, d)]
  {
  }
}
