/** The positional checks (stops, safety, route deviation) as functions of all positions so far. */
module PointHistory {
  import opened Arithmetic
  import opened Common
  import opened Window
  import opened Means
  import opened Detection
  import opened Alerts
  import opened SpeedHistory

  function Locations(pings: seq<Context>): seq<Point> {
    seq(|pings|, i requires 0 <= i < |pings| => pings[i].location)
  }

  predicate Positional(cfg: Config) {
    cfg.RouteDeviation? || cfg.Stopped? || cfg.SafetyCheck?
  }

  function PointsOf(s: State): Option<Window<Point>> {
    match s
    case RouteDeviationState(w, _) => Some(w)
    case StopState(w) => Some(w)
    case SafetyState(w) => Some(w)
    case _ => None
  }

  /** The state belongs to the detector and holds the window over the positions h. */
  ghost predicate HoldsPoints(cfg: Config, state: Option<State>, h: seq<Point>)
    requires Positional(cfg) && cfg.Valid()
  {
    if h == [] then state == None
    else
      state.Some? &&
      (cfg.RouteDeviation? <==> state.value.RouteDeviationState?) && (cfg.Stopped? <==> state.value.StopState?) &&
      PointsOf(state.value) == Run(h, cfg.sampleSize, cfg.BatchSize(), MergePoint, true)
  }

  // ----- what a verdict is about -----

  /** The positions that a verdict looks at: the latest s, but all of them where nothing is ever dropped. */
  function JudgedPoints(h: seq<Point>, s: nat, m: nat): seq<Point>
    requires VerdictTime(|h|, s, m)
  {
    if s % m != 0 then h else Suffix(h, s)
  }

  /** The size of the newest batch at a verdict. */
  function Newest(s: nat, m: nat): (r: nat)
    requires Sized(s, m)
    ensures 0 < r <= m
  {
    if s % m == 0 then m else s % m
  }

  /** Whether the centres of the first m and of the newest positions lie close together. */
  predicate EndsMeet(w: seq<Point>, s: nat, m: nat, limit: nat, distance: Distance)
    requires Sized(s, m) && m <= |w|
  {
    distance(Centroid(w[..m]), Centroid(Suffix(w, Newest(s, m)))) <= limit as real
  }

  /** The position whose deviation a verdict measures: the centre of the batch centres. */
  function JudgedCentre(h: seq<Point>, s: nat, m: nat): Point
    requires VerdictTime(|h|, s, m)
  {
    BatchesNonempty(JudgedPoints(h, s, m), m, MergePoint);
    Centroid(Centers(Batches(JudgedPoints(h, s, m), m, MergePoint)))
  }

  /** The verdict on a history of positions, with the vehicle and the route of the last ping. */
  function PointVerdictOn(cfg: Config, ctx: Context, h: seq<Point>, anti: bool, distance: Distance): Option<bool>
    requires Positional(cfg) && cfg.Valid()
  {
    var s, m := cfg.sampleSize, cfg.BatchSize();
    if !VerdictTime(|h|, s, m) then None
    else if !cfg.RouteDeviation? then Some(EndsMeet(JudgedPoints(h, s, m), s, m, cfg.maxDistance, distance) != anti)
    else if ctx.bus && ctx.route.Some? && ctx.route.value.deviation.Some? then
      Some((ctx.route.value.deviation.value(JudgedCentre(h, s, m)) > cfg.threshold as real) != anti)
    else None
  }

  /** What the code judges, on the window as it is stored. */
  function RecordVerdict(cfg: Config, ctx: Context, step: (Window<Point>, bool), anti: bool, distance: Distance)
    : Option<bool>
    requires Positional(cfg) && step.0.record != []
  {
    var record := step.0.record;
    if !step.1 then None
    else if !cfg.RouteDeviation? then
      Some((distance(record[0].0, record[|record| - 1].0) <= cfg.maxDistance as real) != anti)
    else
      var d := Deviation(ctx, record);
      if d.Some? then Some((d.value > cfg.threshold as real) != anti) else None
  }

  lemma {:induction false} LastBatchIsTail<T>(w: seq<T>, m: nat, r: nat, merge: Merge<T>)
    requires 0 < r <= m <= |w| && r == if Rest(|w|, m) == 0 then m else Rest(|w|, m)
    ensures var b := Batches(w, m, merge);
            b != [] && b[|b| - 1].0 == Fold(Suffix(w, r), merge) && b[0].0 == Fold(w[..m], merge)
    decreases |w|
  {
    if |w| == m {
      assert w[0..] == w && w[..m] == w;
    } else if |w| < 2 * m {
      var tail := w[m..];
      assert tail == Suffix(w, r);
      assert Batches(tail, m, merge) == [(Fold(tail, merge), r)];
    } else {
      LastBatchIsTail(w[m..], m, r, merge);
      assert Suffix(w[m..], r) == Suffix(w, r);
    }
  }

  /** The centres of the first m and of the last r positions. */
  ghost predicate HasEnds(record: seq<(Point, nat)>, w: seq<Point>, m: nat, r: nat)
    requires 0 < r <= m <= |w|
  {
    record != [] && record[0].0 == Centroid(w[..m]) && record[|record| - 1].0 == Centroid(Suffix(w, r))
  }

  lemma BatchEnds(w: seq<Point>, m: nat, r: nat)
    requires 0 < r <= m <= |w| && r == if Rest(|w|, m) == 0 then m else Rest(|w|, m)
    ensures HasEnds(Batches(w, m, MergePoint), w, m, r)
  {
    var first, last := w[..m], Suffix(w, r);
    LastBatchIsTail(w, m, r, MergePoint);
    FoldIsCentroid(first);
    FoldIsCentroid(last);
  }

  lemma JudgedSize(h: seq<Point>, s: nat, m: nat)
    requires VerdictTime(|h|, s, m)
    ensures var w := JudgedPoints(h, s, m);
            |w| >= m && Newest(s, m) == if Rest(|w|, m) == 0 then m else Rest(|w|, m)
  {
    VerdictCovers(|h|, s, m);
    RestIsMod(s, m);
  }

  lemma JudgedRecord(h: seq<Point>, s: nat, m: nat)
    requires VerdictTime(|h|, s, m)
    ensures var record, w := Run(h, s, m, MergePoint, true).value.record, JudgedPoints(h, s, m);
            |w| >= m && record == Batches(w, m, MergePoint) && HasEnds(record, w, m, Newest(s, m))
  {
    JudgedSize(h, s, m);
    VerdictRecord(h, s, m, MergePoint, true);
    BatchEnds(JudgedPoints(h, s, m), m, Newest(s, m));
  }

  /** What the code judges is the verdict on the history. */
  lemma RecordVerdictIs(cfg: Config, ctx: Context, h: seq<Point>, anti: bool, distance: Distance)
    requires Positional(cfg) && cfg.Valid() && h != []
    ensures var s, m := cfg.sampleSize, cfg.BatchSize();
            var w := Run(h, s, m, MergePoint, true).value;
            w.record != [] &&
            RecordVerdict(cfg, ctx, (w, Due(h, s, m, MergePoint, true)), anti, distance) ==
              PointVerdictOn(cfg, ctx, h, anti, distance)
  {
    var s, m := cfg.sampleSize, cfg.BatchSize();
    RunIsNonempty(h, s, m, MergePoint, true);
    VerdictTimes(h, s, m, MergePoint, true);
    if VerdictTime(|h|, s, m) {
      JudgedRecord(h, s, m);
    }
  }

  // ----- every run -----

  /** What one check returns: the next window in a state of its own kind, and the verdict on it. */
  ghost predicate CheckedPoints(cfg: Config, ctx: Context, c: Outcome, step: (Window<Point>, bool), anti: bool,
                                distance: Distance)
    requires Positional(cfg)
  {
    c.Some? && step.0.record != [] && PointsOf(c.value.0) == Some(step.0) &&
    (cfg.RouteDeviation? <==> c.value.0.RouteDeviationState?) && (cfg.Stopped? <==> c.value.0.StopState?) &&
    c.value.1 == RecordVerdict(cfg, ctx, step, anti, distance)
  }

  lemma StepHasReadings<T>(w: Option<Window<T>>, v: T, s: nat, m: nat, merge: Merge<T>, reclone: bool)
    requires m <= s
    ensures Step(w, v, s, m, merge, reclone).0.record != []
  {
  }

  lemma CheckStopWindow(cfg: Config, ctx: Context, state: Option<State>, w: Option<Window<Point>>, anti: bool,
                        distance: Distance)
    requires (cfg.Stopped? || cfg.SafetyCheck?) && cfg.Valid()
    requires if state.None? then w == None
             else (state.value.StopState? || state.value.SafetyState?) && w == Some(state.value.points)
    ensures var step := Step(w, ctx.location, cfg.sampleSize, cfg.BatchSize(), MergePoint, true);
            CheckedPoints(cfg, ctx, CheckStop(cfg, ctx, state, anti, distance), step, anti, distance)
  {
    StepHasReadings(w, ctx.location, cfg.sampleSize, cfg.BatchSize(), MergePoint, true);
  }

  lemma CheckStopStep(cfg: Config, ctx: Context, state: Option<State>, h: seq<Point>, anti: bool, distance: Distance)
    requires (cfg.Stopped? || cfg.SafetyCheck?) && cfg.Valid() && HoldsPoints(cfg, state, h)
    ensures var s, m := cfg.sampleSize, cfg.BatchSize();
            var step := Step(Run(h, s, m, MergePoint, true), ctx.location, s, m, MergePoint, true);
            CheckedPoints(cfg, ctx, CheckStop(cfg, ctx, state, anti, distance), step, anti, distance)
  {
    CheckStopWindow(cfg, ctx, state, Run(h, cfg.sampleSize, cfg.BatchSize(), MergePoint, true), anti, distance);
  }

  lemma CheckRouteStep(cfg: Config, ctx: Context, state: Option<State>, h: seq<Point>, anti: bool, distance: Distance)
    requires cfg.RouteDeviation? && cfg.Valid() && HoldsPoints(cfg, state, h)
    ensures var s, m := cfg.sampleSize, cfg.BatchSize();
            var step := Step(Run(h, s, m, MergePoint, true), ctx.location, s, m, MergePoint, true);
            CheckedPoints(cfg, ctx, CheckRoute(cfg, ctx, state, anti), step, anti, distance)
  {
  }

  lemma CheckPointsStep(cfg: Config, ctx: Context, state: Option<State>, h: seq<Point>, anti: bool, distance: Distance)
    requires Positional(cfg) && cfg.Valid() && HoldsPoints(cfg, state, h)
    ensures var s, m := cfg.sampleSize, cfg.BatchSize();
            var step := Step(Run(h, s, m, MergePoint, true), ctx.location, s, m, MergePoint, true);
            CheckedPoints(cfg, ctx, CheckOne(cfg, ctx, state, anti, distance), step, anti, distance)
  {
    if cfg.RouteDeviation? {
      CheckRouteStep(cfg, ctx, state, h, anti, distance);
    } else {
      CheckStopStep(cfg, ctx, state, h, anti, distance);
    }
  }

  /** One check on a history of positions extends the history, and judges it. */
  lemma CheckPointsOn(cfg: Config, ctx: Context, state: Option<State>, h: seq<Point>, anti: bool, distance: Distance)
    requires Positional(cfg) && cfg.Valid() && HoldsPoints(cfg, state, h)
    ensures var c := CheckOne(cfg, ctx, state, anti, distance);
            c.Some? && HoldsPoints(cfg, Some(c.value.0), h + [ctx.location]) &&
            c.value.1 == PointVerdictOn(cfg, ctx, h + [ctx.location], anti, distance)
  {
    CheckPointsStep(cfg, ctx, state, h, anti, distance);
    RunStep(h, ctx.location, cfg.sampleSize, cfg.BatchSize(), MergePoint, true);
    RecordVerdictIs(cfg, ctx, h + [ctx.location], anti, distance);
  }

  lemma {:induction false} LocationsGrow(pings: seq<Context>)
    requires pings != []
    ensures Locations(pings) == Locations(pings[..|pings| - 1]) + [pings[|pings| - 1].location]
  {
  }

  lemma {:induction false} PointSide(cfg: Config, pings: seq<Context>, anti: bool, distance: Distance)
    requires Positional(cfg) && cfg.Valid()
    ensures HoldsPoints(cfg, Side(cfg, pings, anti, distance), Locations(pings))
  {
    if pings != [] {
      var p, ctx := pings[..|pings| - 1], pings[|pings| - 1];
      PointSide(cfg, p, anti, distance);
      LocationsGrow(pings);
      CheckPointsOn(cfg, ctx, Side(cfg, p, anti, distance), Locations(p), anti, distance);
    }
  }

  /** Whatever the two configurations, each stored window is the window over all positions so far. */
  lemma {:induction false} PointState(cfg: Config, antiCfg: Config, pings: seq<Context>, distance: Distance)
    requires Positional(cfg) && SameDetector(cfg, antiCfg)
    ensures var t := Pings(cfg, antiCfg, pings, distance).0;
            HoldsPoints(cfg, t.violation, Locations(pings)) && HoldsPoints(antiCfg, t.anti, Locations(pings))
  {
    SidesAreIndependent(cfg, antiCfg, pings, distance);
    PointSide(cfg, pings, false, distance);
    PointSide(antiCfg, pings, true, distance);
  }

  /** The verdict of a ping, on either side. */
  lemma {:induction false} PointVerdictNow(cfg: Config, pings: seq<Context>, anti: bool, distance: Distance)
    requires Positional(cfg) && cfg.Valid() && pings != []
    ensures Verdict(cfg, pings, anti, distance) ==
            PointVerdictOn(cfg, pings[|pings| - 1], Locations(pings), anti, distance)
  {
    var p, ctx := pings[..|pings| - 1], pings[|pings| - 1];
    PointSide(cfg, p, anti, distance);
    LocationsGrow(pings);
    CheckPointsOn(cfg, ctx, Side(cfg, p, anti, distance), Locations(p), anti, distance);
  }

  // ----- the judged positions and the latest ones -----

  /** When the batch size divides the sample size, the measured position is the centre of the latest s positions. */
  lemma TrueCentre(h: seq<Point>, s: nat, m: nat)
    requires VerdictTime(|h|, s, m) && s % m == 0
    ensures JudgedCentre(h, s, m) == Centroid(Suffix(h, s))
  {
    RestIsMod(s, m);
    CentroidOfCenters(Suffix(h, s), m);
  }

  /** A verdict on h comes out as it would for the ends of the latest s positions. */
  ghost predicate EndsJudgedRightly(h: seq<Point>, s: nat, m: nat, limit: nat, distance: Distance) {
    VerdictTime(|h|, s, m) ==>
      (EndsMeet(JudgedPoints(h, s, m), s, m, limit, distance) <==> EndsMeet(Suffix(h, s), s, m, limit, distance))
  }

  /** A deviation verdict on h comes out as it would for the centre of the latest s positions. */
  ghost predicate CentreJudgedRightly(h: seq<Point>, s: nat, m: nat, threshold: nat, deviation: Point -> real) {
    VerdictTime(|h|, s, m) ==>
      (deviation(JudgedCentre(h, s, m)) > threshold as real <==> deviation(Centroid(Suffix(h, s))) > threshold as real)
  }

  /** m positions in one place, and then s in another. */
  function MovedOnce(s: nat, m: nat, a: Point, b: Point): seq<Point> {
    Levels(m, a, s, b)
  }

  lemma MovedOnceEnds(s: nat, m: nat, a: Point, b: Point, r: nat)
    requires 0 < r <= m <= s
    ensures var h := MovedOnce(s, m, a, b);
            Centroid(h[..m]) == a && Centroid(Suffix(h, r)) == b &&
            Centroid(Suffix(h, s)[..m]) == b && Centroid(Suffix(Suffix(h, s), r)) == b
  {
    var h := MovedOnce(s, m, a, b);
    assert h[..m] == Same(m, a) && Suffix(h, s) == Same(s, b) && Suffix(h, r) == Same(r, b);
    assert Same(s, b)[..m] == Same(m, b) && Suffix(Same(s, b), r) == Same(r, b);
    CentroidSame(m, a);
    CentroidSame(m, b);
    CentroidSame(r, b);
  }

  lemma LaterVerdict(s: nat, m: nat)
    requires Sized(s, m) && s % m != 1 % m
    ensures VerdictTime(s + m, s, m)
  {
    ModUnique(m, 1, 0, m);
  }

  /** One batch after the first full window, the code still compares with the first m positions of all. */
  lemma ForgottenStart(s: nat, m: nat, distance: Distance, a: Point, b: Point)
    requires Sized(s, m) && s % m > 1 && distance(b, b) <= 0.0 < distance(a, b)
    ensures !EndsJudgedRightly(MovedOnce(s, m, a, b), s, m, 0, distance)
  {
    RestIsMod(1, m);
    LaterVerdict(s, m);
    MovedOnceEnds(s, m, a, b, Newest(s, m));
  }

  /**
   * For any distance that tells two places apart: stop and safety verdicts are
   * all about the latest s positions exactly for sample sizes that leave at most one.
   */
  lemma StopVerdictIff(s: nat, m: nat, distance: Distance, a: Point, b: Point)
    requires Sized(s, m) && distance(b, b) <= 0.0 < distance(a, b)
    ensures (forall h, limit :: EndsJudgedRightly(h, s, m, limit, distance)) <==> s % m <= 1
  {
    if s % m > 1 {
      ForgottenStart(s, m, distance, a, b);
    } else {
      RestIsMod(1, m);
      RestIsMod(s, m);
    }
  }

  function Zip(lats: seq<real>, lons: seq<real>): (r: seq<Point>)
    requires |lats| == |lons|
    ensures |r| == |lats| && Lats(r) == lats && Lons(r) == lons
  {
    seq(|lats|, i requires 0 <= i < |lats| => Point(lats[i], lons[i]))
  }

  /** Without even batches any a can be the centre of a full window, and any b the measured position. */
  lemma SkewedCentre(s: nat, m: nat, a: Point, b: Point) returns (h: seq<Point>)
    requires VerdictTime(s, s, m) && s % m > 1
    ensures |h| == s && JudgedCentre(h, s, m) == b && Centroid(Suffix(h, s)) == a
  {
    RestIsMod(s, m);
    var lats := Skewed(s, m, a.lat, b.lat);
    var lons := Skewed(s, m, a.lon, b.lon);
    h := Zip(lats, lons);
    assert Suffix(h, s) == h;
    PointBatches(h, m);
  }

  /**
   * For any route that one place is on and another is off: deviation verdicts
   * are all about the centre of the latest s positions exactly for sample sizes
   * that leave at most one.
   */
  lemma RouteVerdictIff(s: nat, m: nat, deviation: Point -> real, a: Point, b: Point)
    requires Sized(s, m) && deviation(a) <= 0.0 < deviation(b)
    ensures (forall h, threshold :: CentreJudgedRightly(h, s, m, threshold, deviation)) <==> s % m <= 1
  {
    RestIsMod(1, m);
    RestIsMod(s, m);
    if s % m > 1 {
      FirstVerdict(s, m);
      var h := SkewedCentre(s, m, a, b);
      assert !CentreJudgedRightly(h, s, m, 0, deviation);
    } else {
      forall h, threshold ensures CentreJudgedRightly(h, s, m, threshold, deviation) {
        if VerdictTime(|h|, s, m) {
          TrueCentre(h, s, m);
        }
      }
    }
  }

  // ----- standing still -----

  /** Judging one and the same position is about that position. */
  lemma SteadyPosition(n: nat, p: Point, s: nat, m: nat)
    requires VerdictTime(n, s, m)
    ensures var w := JudgedPoints(Same(n, p), s, m);
            |w| >= m && Centroid(w[..m]) == p && Centroid(Suffix(w, Newest(s, m))) == p
    ensures JudgedCentre(Same(n, p), s, m) == p
  {
    SameSuffix(n, p, s);
    var k := if s % m != 0 then n else s;
    SteadyEnds(k, p, m, Newest(s, m));
    SameCentre(k, p, m);
  }

  lemma SteadyEnds(n: nat, p: Point, m: nat, r: nat)
    requires 0 < r <= m <= n
    ensures Centroid(Same(n, p)[..m]) == p && Centroid(Suffix(Same(n, p), r)) == p
  {
    assert Same(n, p)[..m] == Same(m, p);
    SameSuffix(n, p, r);
    CentroidSame(m, p);
    CentroidSame(r, p);
  }
}
