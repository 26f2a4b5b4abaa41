/** The violation detectors and the alert decision, as one location ping runs them. */
module Detection {
  import opened Arithmetic
  import opened Common
  import opened Window
  import opened Means

  /**
   * What the detectors see of the route: how far a point lies from it, unless
   * no two neighbouring waypoints differ, and how many stops are still ahead.
   */
  datatype RouteView = RouteView(deviation: Option<Point -> real>, upcomingStops: Option<nat>)

  datatype Context = Context(location: Point, speed: Option<real>, bus: bool, route: Option<RouteView>)

  type Distance = (Point, Point) -> real

  datatype Config =
    | Overspeeding(sampleSize: nat, batchCount: nat, speedLimit: real)
    | RouteDeviation(sampleSize: nat, batchCount: nat, threshold: nat)
    | Stopped(sampleSize: nat, batchCount: nat, maxDistance: nat)
    | SafetyCheck(sampleSize: nat, batchCount: nat, maxDistance: nat)
    | OppositeDirection
  {
    /** The batch count is a divisor. */
    predicate Valid() {
      OppositeDirection? || batchCount > 0
    }

    function BatchSize(): nat
      requires Valid() && !OppositeDirection?
    {
      DivCeil(sampleSize, batchCount)
    }
  }

  datatype State =
    | OverspeedingState(speeds: Window<real>)
    | RouteDeviationState(points: Window<Point>, deviation: real)
    | StopState(points: Window<Point>)
    | SafetyState(points: Window<Point>)
    | OppositeState(total: nat, expected: nat)

  type Outcome = Option<(State, Option<bool>)>

  // ----- one check, as a function -----

  /** The anti-violation side asks the complementary question about the same average. */
  predicate SpeedVerdict(average: real, limit: real, anti: bool) {
    if anti then average <= limit else average > limit
  }

  function CheckSpeed(cfg: Config, ctx: Context, state: Option<State>, anti: bool): Outcome
    requires cfg.Overspeeding? && cfg.Valid()
  {
    if state.Some? && state.value.OverspeedingState? then
      if state.value.speeds.record == [] || ctx.speed.None? then None
      else
        var (w, due) := Step(Some(state.value.speeds), ctx.speed.value, cfg.sampleSize, cfg.BatchSize(),
                             MergeReal, false);
        Some((OverspeedingState(w),
              if due && w.record != [] then Some(SpeedVerdict(MeanOfMeans(w.record), cfg.speedLimit, anti)) else None))
    else if ctx.speed.Some? then Some((OverspeedingState(Window(1, [(ctx.speed.value, 1)])), None))
    else None
  }

  /** A bus on a known route can be off it. */
  predicate OnRoute(ctx: Context) {
    ctx.bus && ctx.route.Some? && ctx.route.value.deviation.Some?
  }

  /** How far the centre of the window lies from the route. */
  function Deviation(ctx: Context, record: seq<(Point, nat)>): Option<real> {
    if OnRoute(ctx) && record != [] then Some(ctx.route.value.deviation.value(Centroid(Centers(record)))) else None
  }

  /** The window has nothing to build on: no state, no record, or a single batch that just fell out. */
  predicate Restarts<T>(w: Option<Window<T>>, s: nat) {
    w.None? || w.value.record == [] || (w.value.total >= s && |w.value.record| == 1)
  }

  function CheckRoute(cfg: Config, ctx: Context, state: Option<State>, anti: bool): Outcome
    requires cfg.RouteDeviation? && cfg.Valid()
  {
    var own := state.Some? && state.value.RouteDeviationState?;
    var prior := if own then Some(state.value.points) else None;
    var (w, due) := Step(prior, ctx.location, cfg.sampleSize, cfg.BatchSize(), MergePoint, true);
    var carried := if own && !Restarts(prior, cfg.sampleSize) then state.value.deviation else 0.0;
    var measured := if due then Deviation(ctx, w.record) else None;
    if measured.Some? then
      Some((RouteDeviationState(w, measured.value), Some((measured.value > cfg.threshold as real) != anti)))
    else
      Some((RouteDeviationState(w, carried), None))
  }

  function CheckStop(cfg: Config, ctx: Context, state: Option<State>, anti: bool, distance: Distance): Outcome
    requires (cfg.Stopped? || cfg.SafetyCheck?) && cfg.Valid()
  {
    var own := state.Some? && (state.value.StopState? || state.value.SafetyState?);
    var prior := if own then Some(state.value.points) else None;
    var (w, due) := Step(prior, ctx.location, cfg.sampleSize, cfg.BatchSize(), MergePoint, true);
    Some((if cfg.SafetyCheck? then SafetyState(w) else StopState(w),
          if due && w.record != []
          then Some((distance(w.record[0].0, w.record[|w.record| - 1].0) <= cfg.maxDistance as real) != anti)
          else None))
  }

  const EXPECTED_AT_START: nat := 1_000_000

  function CheckDirection(ctx: Context, state: Option<State>, anti: bool): Outcome {
    if state.Some? && state.value.OppositeState? && ctx.bus && ctx.route.Some? then
      var total := state.value.total + 1;
      var count := ctx.route.value.upcomingStops;
      if count.None? then Some((OppositeState(total, state.value.expected), None))
      else if count.value <= state.value.expected then Some((OppositeState(total, count.value), Some(anti)))
      else Some((OppositeState(total, state.value.expected), Some(!anti)))
    else
      Some((OppositeState(0, EXPECTED_AT_START), None))
  }

  function CheckOne(cfg: Config, ctx: Context, state: Option<State>, anti: bool, distance: Distance): Outcome
    requires cfg.Valid()
  {
    match cfg
    case Overspeeding(_, _, _) => CheckSpeed(cfg, ctx, state, anti)
    case RouteDeviation(_, _, _) => CheckRoute(cfg, ctx, state, anti)
    case OppositeDirection => CheckDirection(ctx, state, anti)
    case _ => CheckStop(cfg, ctx, state, anti, distance)
  }

  // ----- one check, as the code runs it -----

  /** The speed window: here the pop is kept before the merge. */
  method SpeedStep(w: Window<real>, speed: real, sampleSize: nat, maxBatch: nat) returns (r: Window<real>, due: bool)
    requires maxBatch <= sampleSize && w.record != []
    ensures (r, due) == Step(Some(w), speed, sampleSize, maxBatch, MergeReal, false)
  {
    var total, record := w.total, w.record;
    var last := record[|record| - 1];
    if total < sampleSize {
      if last.1 < maxBatch {
        var copy := record[..|record| - 1];
        copy := copy + [(MergeReal(last.0, last.1, speed), last.1 + 1)];
        total := total + 1;
        return Window(total, copy), total == sampleSize;
      }
      return Window(total + 1, record + [(speed, 1)]), false;
    }
    var popped := record[1..];
    total := total - maxBatch;
    if popped == [] {
      return Window(1, [(speed, 1)]), false;
    }
    var prev := popped[|popped| - 1];
    if prev.1 < maxBatch {
      popped := popped[..|popped| - 1] + [(MergeReal(prev.0, prev.1, speed), last.1 + 1)];
      total := total + 1;
      return Window(total, popped), total == sampleSize;
    }
    return Window(total + 1, popped + [(speed, 1)]), false;
  }

  method SpeedCheck(cfg: Config, ctx: Context, state: Option<State>, anti: bool) returns (r: Outcome)
    requires cfg.Overspeeding? && cfg.Valid()
    ensures r == CheckSpeed(cfg, ctx, state, anti)
  {
    if state.Some? && state.value.OverspeedingState? {
      if state.value.speeds.record != [] && ctx.speed.Some? {
        var next, due := SpeedStep(state.value.speeds, ctx.speed.value, cfg.sampleSize,
                                   DivCeil(cfg.sampleSize, cfg.batchCount));
        if due {
          var average := MeanOfMeans(next.record);
          return Some((OverspeedingState(next),
                       Some(if anti then average <= cfg.speedLimit else average > cfg.speedLimit)));
        }
        return Some((OverspeedingState(next), None));
      }
    } else if ctx.speed.Some? {
      return Some((OverspeedingState(Window(1, [(ctx.speed.value, 1)])), None));
    }
    return None;
  }

  /**
   * The position window shared by route deviation and the stop checks. In the
   * merging branch after a pop the code starts again from the record it had
   * before the pop.
   */
  method PointStep(w: Window<Point>, p: Point, sampleSize: nat, maxBatch: nat) returns (r: Window<Point>, due: bool)
    requires maxBatch <= sampleSize
    ensures (r, due) == Step(Some(w), p, sampleSize, maxBatch, MergePoint, true)
  {
    var total, record := w.total, w.record;
    if record == [] {
      return Window(1, [(p, 1)]), false;
    }
    var last := record[|record| - 1];
    if total < sampleSize {
      if last.1 < maxBatch {
        var copy := record[..|record| - 1];
        copy := copy + [(MergePoint(last.0, last.1, p), last.1 + 1)];
        total := total + 1;
        return Window(total, copy), total == sampleSize;
      }
      return Window(total + 1, record + [(p, 1)]), false;
    }
    var popped := record[1..];
    total := total - maxBatch;
    if popped == [] {
      return Window(1, [(p, 1)]), false;
    }
    last := popped[|popped| - 1];
    if last.1 < maxBatch {
      var copy := record[..|record| - 1];
      copy := copy + [(MergePoint(last.0, last.1, p), last.1 + 1)];
      total := total + 1;
      return Window(total, copy), total == sampleSize;
    }
    return Window(total + 1, popped + [(p, 1)]), false;
  }

  method RouteCheck(cfg: Config, ctx: Context, state: Option<State>, anti: bool) returns (r: Outcome)
    requires cfg.RouteDeviation? && cfg.Valid()
    ensures r == CheckRoute(cfg, ctx, state, anti)
  {
    if state.Some? && state.value.RouteDeviationState? {
      var w := state.value.points;
      if w.record != [] && (w.total < cfg.sampleSize || |w.record| > 1) {
        var next, due := PointStep(w, ctx.location, cfg.sampleSize, DivCeil(cfg.sampleSize, cfg.batchCount));
        if due && ctx.bus && ctx.route.Some? {
          var deviation := ctx.route.value.deviation;
          if deviation.Some? {
            var measured := deviation.value(Centroid(Centers(next.record)));
            return Some((RouteDeviationState(next, measured), Some((measured > cfg.threshold as real) != anti)));
          }
        }
        return Some((RouteDeviationState(next, state.value.deviation), None));
      }
    }
    return Some((RouteDeviationState(Window(1, [(ctx.location, 1)]), 0.0), None));
  }

  method StopCheck(cfg: Config, ctx: Context, state: Option<State>, anti: bool, distance: Distance) returns (r: Outcome)
    requires (cfg.Stopped? || cfg.SafetyCheck?) && cfg.Valid()
    ensures r == CheckStop(cfg, ctx, state, anti, distance)
  {
    var next, due := Window(1, [(ctx.location, 1)]), false;
    if state.Some? && (state.value.StopState? || state.value.SafetyState?) {
      next, due := PointStep(state.value.points, ctx.location, cfg.sampleSize,
                             DivCeil(cfg.sampleSize, cfg.batchCount));
    }
    var after := if cfg.SafetyCheck? then SafetyState(next) else StopState(next);
    if due {
      var stopped := distance(next.record[0].0, next.record[|next.record| - 1].0) <= cfg.maxDistance as real;
      return Some((after, Some(stopped != anti)));
    }
    return Some((after, None));
  }

  // ----- from verdicts to alerts -----

  datatype Status = ContinuedViolation | ContinuedAntiViolation | Violated | AntiViolated

  datatype Request = Request(isViolated: bool, location: Point, detail: Option<real>)

  function DecisionTree(prev: Option<Status>, violation: Option<bool>, anti: Option<bool>): Option<Status> {
    match (prev, violation, anti)
    case (None, _, _) => Some(ContinuedAntiViolation)
    case (Some(Violated), None, None) => Some(ContinuedViolation)
    case (Some(AntiViolated), None, None) => Some(ContinuedAntiViolation)
    case (p, None, None) => p
    case (Some(Violated), _, Some(a)) => Some(if a then AntiViolated else ContinuedViolation)
    case (Some(AntiViolated), Some(v), _) => Some(if v then Violated else ContinuedAntiViolation)
    case (Some(ContinuedAntiViolation), Some(v), _) => Some(if v then Violated else ContinuedAntiViolation)
    case (Some(ContinuedViolation), _, Some(a)) => Some(if a then AntiViolated else ContinuedViolation)
    case (_, _, _) => None
  }

  /** What an alert reports besides the position: the average speed, or the distance from the route. */
  function Detail(s: State): Option<real> {
    match s
    case OverspeedingState(w) => if w.record != [] then Some(MeanOfMeans(w.record)) else None
    case RouteDeviationState(_, deviation) => Some(deviation)
    case _ => None
  }

  function AlertFor(violation: Option<State>, anti: Option<State>, status: Option<Status>, ctx: Context)
    : Option<Request>
  {
    match status
    case Some(Violated) =>
      if violation.Some? then Some(Request(true, ctx.location, Detail(violation.value))) else None
    case Some(AntiViolated) =>
      if anti.Some? then Some(Request(false, ctx.location, Detail(anti.value))) else None
    case _ => None
  }

  function StateOf(o: Outcome): Option<State> {
    if o.Some? then Some(o.value.0) else None
  }

  function VerdictOf(o: Outcome): Option<bool> {
    if o.Some? then o.value.1 else None
  }

  /** What is stored for a driver and one detector. */
  datatype Track = Track(violation: Option<State>, anti: Option<State>, status: Option<Status>)

  const UNTRACKED := Track(None, None, None)

  /** One check: both machines, the decision and the request it leads to. */
  function Check(cfg: Config, antiCfg: Config, ctx: Context, t: Track, distance: Distance): (Track, Option<Request>)
    requires cfg.Valid() && antiCfg.Valid()
  {
    var v := CheckOne(cfg, ctx, t.violation, false, distance);
    var a := CheckOne(antiCfg, ctx, t.anti, true, distance);
    var status := DecisionTree(t.status, VerdictOf(v), VerdictOf(a));
    (Track(StateOf(v), StateOf(a), status), AlertFor(StateOf(v), StateOf(a), status, ctx))
  }

  /** The result is stored, and its request sent, only when both machines produced a state. */
  function Commit(cfg: Config, antiCfg: Config, ctx: Context, t: Track, distance: Distance): (Track, seq<Request>)
    requires cfg.Valid() && antiCfg.Valid()
  {
    var (next, request) := Check(cfg, antiCfg, ctx, t, distance);
    if next.violation.Some? && next.anti.Some? then (next, if request.Some? then [request.value] else [])
    else (t, [])
  }

  /** The stored track and all requests after a sequence of pings, from a fresh state. */
  function Pings(cfg: Config, antiCfg: Config, pings: seq<Context>, distance: Distance): (Track, seq<Request>)
    requires cfg.Valid() && antiCfg.Valid()
  {
    if pings == [] then (UNTRACKED, [])
    else
      var (t, sent) := Pings(cfg, antiCfg, pings[..|pings| - 1], distance);
      var (t', more) := Commit(cfg, antiCfg, pings[|pings| - 1], t, distance);
      (t', sent + more)
  }
}
