/** What the requests tell, detector by detector. */
module Requests {
  import opened Common
  import opened Window
  import opened Means
  import opened Detection
  import opened Alerts
  import opened SpeedHistory
  import opened PointHistory
  import opened TwoSides
  import opened Alarms

  /** What one ping adds to the requests. */
  ghost predicate Sends(cfg: Config, antiCfg: Config, pings: seq<Context>, distance: Distance, more: seq<Request>)
    requires cfg.Valid() && antiCfg.Valid() && pings != []
  {
    Pings(cfg, antiCfg, pings, distance).1 == Pings(cfg, antiCfg, pings[..|pings| - 1], distance).1 + more
  }

  /** The alarm goes on, or off, with the last ping. */
  predicate GoesOn(cfg: Config, antiCfg: Config, pings: seq<Context>, distance: Distance)
    requires cfg.Valid() && antiCfg.Valid() && pings != []
  {
    !Alarm(Pings(cfg, antiCfg, pings[..|pings| - 1], distance).0.status) &&
    Alarm(Pings(cfg, antiCfg, pings, distance).0.status)
  }

  predicate GoesOff(cfg: Config, antiCfg: Config, pings: seq<Context>, distance: Distance)
    requires cfg.Valid() && antiCfg.Valid() && pings != []
  {
    Alarm(Pings(cfg, antiCfg, pings[..|pings| - 1], distance).0.status) &&
    !Alarm(Pings(cfg, antiCfg, pings, distance).0.status)
  }

  // ----- overspeeding -----

  /** After a verdict the stored window shows the judged average. */
  lemma {:induction false} JudgedDetail(cfg: Config, pings: seq<Context>, anti: bool, distance: Distance)
    requires cfg.Overspeeding? && cfg.Valid() && pings != [] && Verdict(cfg, pings, anti, distance) == Some(true)
    ensures var h, s, m := Speeds(pings), cfg.sampleSize, cfg.BatchSize();
            VerdictTime(|h|, s, m) && (JudgedSpeed(h, s, m) > cfg.speedLimit) == !anti &&
            Side(cfg, pings, anti, distance).Some? &&
            Detail(Side(cfg, pings, anti, distance).value) == Some(JudgedSpeed(h, s, m))
  {
    var h, s, m := Speeds(pings), cfg.sampleSize, cfg.BatchSize();
    SpeedVerdictNow(cfg, pings, anti, distance);
    SpeedSide(cfg, pings, anti, distance);
    RunIsNonempty(h, s, m, MergeReal, false);
    VerdictRecord(h, s, m, MergeReal, false);
  }

  /**
   * Any two overspeeding configurations, and a ping that does not lose an alarm:
   * a request goes out when the alarm changes, from where the vehicle is, with
   * the average that was judged: one above the limit when the alarm goes on, and
   * one not above the limit of the way back when it goes off.
   */
  lemma {:induction false} OverspeedingRequest(cfg: Config, antiCfg: Config, pings: seq<Context>, distance: Distance)
    requires cfg.Overspeeding? && SameDetector(cfg, antiCfg) && pings != [] && !Loses(cfg, antiCfg, pings, distance)
    ensures var (h, place) := (Speeds(pings), pings[|pings| - 1].location);
            if GoesOn(cfg, antiCfg, pings, distance) then
              JudgesAt(cfg, |h|) &&
              var average := JudgedSpeed(h, cfg.sampleSize, cfg.BatchSize());
              average > cfg.speedLimit && Sends(cfg, antiCfg, pings, distance, [Request(true, place, Some(average))])
            else if GoesOff(cfg, antiCfg, pings, distance) then
              JudgesAt(antiCfg, |h|) &&
              var average := JudgedSpeed(h, antiCfg.sampleSize, antiCfg.BatchSize());
              average <= antiCfg.speedLimit &&
              Sends(cfg, antiCfg, pings, distance, [Request(false, place, Some(average))])
            else Sends(cfg, antiCfg, pings, distance, [])
  {
    PingSends(cfg, antiCfg, pings, distance);
    SidesAreIndependent(cfg, antiCfg, pings, distance);
    if GoesOn(cfg, antiCfg, pings, distance) {
      JudgedDetail(cfg, pings, false, distance);
    } else if GoesOff(cfg, antiCfg, pings, distance) {
      JudgedDetail(antiCfg, pings, true, distance);
    }
  }

  // ----- route deviation -----

  lemma ManyBatches(w: seq<Point>, m: nat)
    requires 0 < m < |w|
    ensures |Batches(w, m, MergePoint)| > 1
  {
    BatchesNonempty(w[m..], m, MergePoint);
  }

  /** A full window of several batches is never left with a single one. */
  lemma NeverRestarts(h: seq<Point>, s: nat, m: nat)
    requires 0 < m < s && h != []
    ensures !Restarts(Run(h, s, m, MergePoint, true), s)
  {
    RunRefines(h, s, m, MergePoint, true);
    HeldBounds(|h|, s, m, true);
    var held := HeldReadings(h, s, m, true);
    HeldSize(h, s, m, true);
    BatchesNonempty(held, m, MergePoint);
    if |held| > m {
      ManyBatches(held, m);
    }
  }

  /** A window of one batch starts again after each judgement. */
  lemma OneBatchRestarts(h: seq<Point>, s: nat)
    requires VerdictTime(|h|, s, s)
    ensures Restarts(Run(h, s, s, MergePoint, true), s)
  {
    RunRefines(h, s, s, MergePoint, true);
    VerdictCovers(|h|, s, s);
    VerdictRecord(h, s, s, MergePoint, true);
  }

  /** The deviation measured on a history of positions, with the vehicle and the route of the last ping. */
  function Measured(cfg: Config, ctx: Context, h: seq<Point>): Option<real>
    requires cfg.RouteDeviation? && cfg.Valid()
  {
    if VerdictTime(|h|, cfg.sampleSize, cfg.BatchSize()) && ctx.bus && ctx.route.Some? &&
       ctx.route.value.deviation.Some?
    then Some(ctx.route.value.deviation.value(JudgedCentre(h, cfg.sampleSize, cfg.BatchSize()))) else None
  }

  /** One check stores what it measured, and otherwise what was stored, unless the window starts again. */
  lemma MeasuredState(cfg: Config, ctx: Context, state: Option<State>, h: seq<Point>, anti: bool)
    requires cfg.RouteDeviation? && cfg.Valid() && HoldsPoints(cfg, state, h)
    ensures var c, d, prior := CheckRoute(cfg, ctx, state, anti), Measured(cfg, ctx, h + [ctx.location]),
                               Run(h, cfg.sampleSize, cfg.BatchSize(), MergePoint, true);
            c.Some? && c.value.0.RouteDeviationState? &&
            c.value.0.deviation ==
              if d.Some? then d.value
              else if h == [] || Restarts(prior, cfg.sampleSize) then 0.0 else state.value.deviation
  {
    var s, m := cfg.sampleSize, cfg.BatchSize();
    var longer := h + [ctx.location];
    RunStep(h, ctx.location, s, m, MergePoint, true);
    RunIsNonempty(longer, s, m, MergePoint, true);
    VerdictTimes(longer, s, m, MergePoint, true);
    if VerdictTime(|longer|, s, m) {
      JudgedRecord(longer, s, m);
    }
  }

  /** The latest measurement; a window of a single batch forgets it with the next ping. */
  function LatestDeviation(cfg: Config, pings: seq<Context>): real
    requires cfg.RouteDeviation? && cfg.Valid()
  {
    if pings == [] then 0.0
    else if DeviationNow(cfg, pings).Some? then DeviationNow(cfg, pings).value
    else if cfg.BatchSize() < cfg.sampleSize then LatestDeviation(cfg, pings[..|pings| - 1]) else 0.0
  }

  /** On either side the stored deviation is the latest measurement. */
  lemma {:induction false} StoredDeviation(cfg: Config, pings: seq<Context>, anti: bool, distance: Distance)
    requires cfg.RouteDeviation? && cfg.Valid() && pings != []
    ensures var state := Side(cfg, pings, anti, distance);
            state.Some? && state.value.RouteDeviationState? && state.value.deviation == LatestDeviation(cfg, pings)
  {
    var p, ctx := pings[..|pings| - 1], pings[|pings| - 1];
    var s, m := cfg.sampleSize, cfg.BatchSize();
    PointSide(cfg, p, anti, distance);
    LocationsGrow(pings);
    MeasuredState(cfg, ctx, Side(cfg, p, anti, distance), Locations(p), anti);
    assert Measured(cfg, ctx, Locations(pings)) == DeviationNow(cfg, pings);
    if p != [] {
      StoredDeviation(cfg, p, anti, distance);
      if 0 < m < s {
        NeverRestarts(Locations(p), s, m);
      } else if VerdictTime(|p|, s, m) {
        OneBatchRestarts(Locations(p), s);
      }
      assert m == s && DeviationNow(cfg, p).None? ==> LatestDeviation(cfg, p) == 0.0;
    }
  }

  /** After a verdict the stored state shows the measured deviation. */
  lemma {:induction false} MeasuredDetail(cfg: Config, pings: seq<Context>, anti: bool, distance: Distance)
    requires cfg.RouteDeviation? && cfg.Valid() && pings != [] && Verdict(cfg, pings, anti, distance) == Some(true)
    ensures var d := DeviationNow(cfg, pings);
            d.Some? && (d.value > cfg.threshold as real) == !anti &&
            Side(cfg, pings, anti, distance).Some? && Detail(Side(cfg, pings, anti, distance).value) == d
  {
    PointVerdictNow(cfg, pings, anti, distance);
    StoredDeviation(cfg, pings, anti, distance);
  }

  /** Likewise for deviation: the request tells how far off the route the measured position lies. */
  lemma {:induction false} RouteRequest(cfg: Config, antiCfg: Config, pings: seq<Context>, distance: Distance)
    requires cfg.RouteDeviation? && SameDetector(cfg, antiCfg) && pings != [] && !Loses(cfg, antiCfg, pings, distance)
    ensures var place := pings[|pings| - 1].location;
            if GoesOn(cfg, antiCfg, pings, distance) then
              var d := DeviationNow(cfg, pings);
              d.Some? && d.value > cfg.threshold as real &&
              Sends(cfg, antiCfg, pings, distance, [Request(true, place, d)])
            else if GoesOff(cfg, antiCfg, pings, distance) then
              var d := DeviationNow(antiCfg, pings);
              d.Some? && d.value <= antiCfg.threshold as real &&
              Sends(cfg, antiCfg, pings, distance, [Request(false, place, d)])
            else Sends(cfg, antiCfg, pings, distance, [])
  {
    PingSends(cfg, antiCfg, pings, distance);
    SidesAreIndependent(cfg, antiCfg, pings, distance);
    if GoesOn(cfg, antiCfg, pings, distance) {
      MeasuredDetail(cfg, pings, false, distance);
    } else if GoesOff(cfg, antiCfg, pings, distance) {
      MeasuredDetail(antiCfg, pings, true, distance);
    }
  }

  // ----- stops, safety and direction -----

  lemma PlainDetail(cfg: Config, ctx: Context, state: Option<State>, anti: bool, distance: Distance)
    requires cfg.Valid() && !cfg.Overspeeding? && !cfg.RouteDeviation?
    ensures var c := CheckOne(cfg, ctx, state, anti, distance); c.Some? && Detail(c.value.0) == None
  {
  }

  /** The other detectors' requests tell the position alone. */
  lemma {:induction false} PlainRequest(cfg: Config, antiCfg: Config, pings: seq<Context>, distance: Distance)
    requires SameDetector(cfg, antiCfg) && !cfg.Overspeeding? && !cfg.RouteDeviation?
    requires pings != [] && !Loses(cfg, antiCfg, pings, distance)
    ensures var place := pings[|pings| - 1].location;
            Sends(cfg, antiCfg, pings, distance,
                  if GoesOn(cfg, antiCfg, pings, distance) then [Request(true, place, None)]
                  else if GoesOff(cfg, antiCfg, pings, distance) then [Request(false, place, None)]
                  else [])
  {
    var p, ctx := pings[..|pings| - 1], pings[|pings| - 1];
    PingSends(cfg, antiCfg, pings, distance);
    SidesAreIndependent(cfg, antiCfg, pings, distance);
    PlainDetail(cfg, ctx, Side(cfg, p, false, distance), false, distance);
    PlainDetail(antiCfg, ctx, Side(antiCfg, p, true, distance), true, distance);
  }
}
