/**
 * Sequences of pings on which the judgements of a detector come out as wanted:
 * a vehicle that stands in one place, or goes to and fro between two. The
 * distance and the route are given; only the pings are chosen.
 */
module Scenes {
  import opened Arithmetic
  import opened Common
  import opened Window
  import opened Means
  import opened Detection
  import opened Alerts
  import opened SpeedHistory
  import opened PointHistory
  import opened TwoSides

  /** A distance, a route as the detectors see it, and two places. */
  datatype Scene = Scene(distance: Distance, view: RouteView, here: Point, there: Point)

  /** No ping of the run is on another route. */
  ghost predicate OnScene(pings: seq<Context>, scene: Scene) {
    forall i :: 0 <= i < |pings| && pings[i].route.Some? ==> pings[i].route.value.deviation == scene.view.deviation
  }

  /**
   * The thresholds of both sides lie between the two places: the first is on the
   * route and the second is not; the first is at no distance from itself, and
   * the two are far apart.
   */
  predicate Separates(scene: Scene, cfg: Config, antiCfg: Config)
    requires SameDetector(cfg, antiCfg)
  {
    match cfg
    case RouteDeviation(_, _, threshold) =>
      scene.view.deviation.Some? && scene.view.deviation.value(scene.here) <= 0.0 &&
      scene.view.deviation.value(scene.there) > Max(threshold, antiCfg.threshold) as real
    case Stopped(_, _, limit) => FarApart(scene, Max(limit, antiCfg.maxDistance))
    case SafetyCheck(_, _, limit) => FarApart(scene, Max(limit, antiCfg.maxDistance))
    case _ => true
  }

  predicate FarApart(scene: Scene, limit: nat) {
    scene.distance(scene.here, scene.here) <= 0.0 && scene.distance(scene.here, scene.there) > limit as real &&
    scene.distance(scene.there, scene.here) > limit as real
  }

  // ----- what one side says -----

  /** At the k-th ping the detector judges, and can. */
  predicate Heard(cfg: Config, pings: seq<Context>, k: nat)
    requires cfg.Valid() && !cfg.OppositeDirection?
  {
    0 < k <= |pings| && JudgesAt(cfg, k) && (cfg.RouteDeviation? ==> OnRoute(pings[k - 1]))
  }

  /** The detector looks at every ping, and whenever it judges it says `yes`. */
  ghost predicate Says(cfg: Config, pings: seq<Context>, anti: bool, distance: Distance, yes: bool)
    requires cfg.Valid() && !cfg.OppositeDirection?
  {
    pings != [] ==>
      Says(cfg, pings[..|pings| - 1], anti, distance, yes) && !Skips(cfg, pings[|pings| - 1]) &&
      Verdict(cfg, pings, anti, distance) == if Heard(cfg, pings, |pings|) then Some(yes) else None
  }

  lemma {:induction false} SaysReadings(cfg: Config, pings: seq<Context>, anti: bool, distance: Distance, yes: bool)
    requires cfg.Valid() && !cfg.OppositeDirection? && Says(cfg, pings, anti, distance, yes)
    ensures Readings(cfg, pings) == |pings|
  {
    if pings != [] {
      SaysReadings(cfg, pings[..|pings| - 1], anti, distance, yes);
    }
  }

  lemma {:induction false} SaysBefore(cfg: Config, pings: seq<Context>, k: nat, anti: bool, distance: Distance,
                                      yes: bool)
    requires cfg.Valid() && !cfg.OppositeDirection? && Says(cfg, pings, anti, distance, yes) && k <= |pings|
    ensures Says(cfg, pings[..k], anti, distance, yes)
  {
    if k == |pings| {
      assert pings[..k] == pings;
    } else {
      SaysBefore(cfg, pings[..|pings| - 1], k, anti, distance, yes);
      assert pings[..|pings| - 1][..k] == pings[..k];
    }
  }

  // ----- standing -----

  /** One context over and over, with or without its bus. */
  function Standing(ctx: Context, buses: seq<bool>): (r: seq<Context>)
    ensures |r| == |buses|
  {
    seq(|buses|, i requires 0 <= i < |buses| => ctx.(bus := buses[i]))
  }

  lemma StandingBefore(ctx: Context, buses: seq<bool>, k: nat)
    requires k <= |buses|
    ensures Standing(ctx, buses)[..k] == Standing(ctx, buses[..k])
  {
  }

  lemma StandingLocations(ctx: Context, buses: seq<bool>)
    ensures Locations(Standing(ctx, buses)) == Same(|buses|, ctx.location)
  {
  }

  lemma {:induction false} StandingSpeeds(ctx: Context, buses: seq<bool>)
    requires ctx.speed.Some?
    ensures Speeds(Standing(ctx, buses)) == Same(|buses|, ctx.speed.value)
  {
    if buses != [] {
      StandingSpeeds(ctx, buses[..|buses| - 1]);
      StandingBefore(ctx, buses, |buses| - 1);
    }
  }

  /** On pings like this one every judgement of the detector comes out as `loud`. */
  ghost predicate Decides(cfg: Config, ctx: Context, distance: Distance, loud: bool) {
    match cfg
    case Overspeeding(_, _, limit) => ctx.speed.Some? && (ctx.speed.value > limit <==> loud)
    case RouteDeviation(_, _, threshold) =>
      ctx.route.Some? && ctx.route.value.deviation.Some? &&
      (ctx.route.value.deviation.value(ctx.location) > threshold as real <==> loud)
    case OppositeDirection => false
    case _ => distance(ctx.location, ctx.location) <= cfg.maxDistance as real <==> loud
  }

  lemma StandingSpeedVerdict(cfg: Config, ctx: Context, buses: seq<bool>, anti: bool, distance: Distance, loud: bool)
    requires cfg.Overspeeding? && cfg.Valid() && buses != [] && Decides(cfg, ctx, distance, loud)
    ensures Verdict(cfg, Standing(ctx, buses), anti, distance) ==
            if JudgesAt(cfg, |buses|) then Some(loud != anti) else None
  {
    SpeedVerdictNow(cfg, Standing(ctx, buses), anti, distance);
    StandingSpeeds(ctx, buses);
    if JudgesAt(cfg, |buses|) {
      SteadySpeed(|buses|, ctx.speed.value, cfg.sampleSize, cfg.BatchSize());
    }
  }

  lemma StandingStopVerdict(cfg: Config, ctx: Context, n: nat, anti: bool, distance: Distance, loud: bool)
    requires (cfg.Stopped? || cfg.SafetyCheck?) && cfg.Valid() && Decides(cfg, ctx, distance, loud)
    ensures PointVerdictOn(cfg, ctx, Same(n, ctx.location), anti, distance) ==
            if JudgesAt(cfg, n) then Some(loud != anti) else None
  {
    if JudgesAt(cfg, n) {
      SteadyPosition(n, ctx.location, cfg.sampleSize, cfg.BatchSize());
    }
  }

  lemma StandingRouteVerdict(cfg: Config, ctx: Context, n: nat, anti: bool, distance: Distance, loud: bool)
    requires cfg.RouteDeviation? && cfg.Valid() && Decides(cfg, ctx, distance, loud)
    ensures PointVerdictOn(cfg, ctx, Same(n, ctx.location), anti, distance) ==
            if JudgesAt(cfg, n) && OnRoute(ctx) then Some(loud != anti) else None
  {
    if JudgesAt(cfg, n) {
      SteadyPosition(n, ctx.location, cfg.sampleSize, cfg.BatchSize());
    }
  }

  lemma StandingVerdict(cfg: Config, ctx: Context, buses: seq<bool>, anti: bool, distance: Distance, loud: bool)
    requires cfg.Valid() && buses != [] && Decides(cfg, ctx, distance, loud)
    ensures var pings := Standing(ctx, buses);
            Verdict(cfg, pings, anti, distance) == if Heard(cfg, pings, |pings|) then Some(loud != anti) else None
  {
    if cfg.Overspeeding? {
      StandingSpeedVerdict(cfg, ctx, buses, anti, distance, loud);
    } else {
      PointVerdictNow(cfg, Standing(ctx, buses), anti, distance);
      StandingLocations(ctx, buses);
      if cfg.RouteDeviation? {
        StandingRouteVerdict(cfg, ctx.(bus := buses[|buses| - 1]), |buses|, anti, distance, loud);
      } else {
        StandingStopVerdict(cfg, ctx.(bus := buses[|buses| - 1]), |buses|, anti, distance, loud);
      }
    }
  }

  lemma {:induction false} StandingSays(cfg: Config, ctx: Context, buses: seq<bool>, anti: bool, distance: Distance,
                                        loud: bool)
    requires cfg.Valid() && Decides(cfg, ctx, distance, loud)
    ensures Says(cfg, Standing(ctx, buses), anti, distance, loud != anti)
  {
    if buses != [] {
      StandingSays(cfg, ctx, buses[..|buses| - 1], anti, distance, loud);
      StandingBefore(ctx, buses, |buses| - 1);
      StandingVerdict(cfg, ctx, buses, anti, distance, loud);
    }
  }

  function HigherReal(a: real, b: real): real {
    if a >= b then a else b
  }

  /** A ping on the scene on which both sides' judgements come out as asked. */
  function SceneContext(scene: Scene, cfg: Config, antiCfg: Config, loud: bool): Context {
    var speed :=
      if !cfg.Overspeeding? || !antiCfg.Overspeeding? then 0.0
      else if loud then HigherReal(cfg.speedLimit, antiCfg.speedLimit) + 1.0
      else -HigherReal(-cfg.speedLimit, -antiCfg.speedLimit);
    Context(if cfg.RouteDeviation? && loud then scene.there else scene.here, Some(speed), true, Some(scene.view))
  }

  lemma SceneDecides(scene: Scene, cfg: Config, antiCfg: Config, loud: bool)
    requires SameDetector(cfg, antiCfg) && !cfg.OppositeDirection? && Separates(scene, cfg, antiCfg)
    requires loud || cfg.Overspeeding? || cfg.RouteDeviation?
    ensures var ctx := SceneContext(scene, cfg, antiCfg, loud);
            Decides(cfg, ctx, scene.distance, loud) && Decides(antiCfg, ctx, scene.distance, loud)
  {
  }

  // ----- going to and fro -----

  /** In turn l times here and l times there. */
  predicate Across(i: nat, l: nat)
    requires l > 0
  {
    i >= l && !Across(i - l, l)
  }

  /**
   * Where to be at the i-th ping so that the oldest and the newest batch of every
   * judged window are in different places.
   */
  predicate Away(i: nat, s: nat, m: nat)
    requires 0 < m < s
  {
    if Rest(s, m) != 0 then i >= m else Across(i, s - m)
  }

  lemma {:induction false} RestMinus(i: nat, l: nat, m: nat)
    requires m > 0 && l <= i && Rest(l, m) == 0
    ensures Rest(i - l, m) == Rest(i, m)
    decreases l
  {
    if l >= m {
      RestMinus(i - m, l - m, m);
    }
  }

  lemma {:induction false} RestGap(i: nat, l: nat, m: nat)
    requires m > 0 && i < l && Rest(i, m) == 0 && Rest(l, m) == 0
    ensures i + m <= l
    decreases l
  {
    if i >= m {
      RestGap(i - m, l - m, m);
    }
  }

  /** A batch is all in one place. */
  lemma {:induction false} AcrossConstant(i: nat, t: nat, l: nat, m: nat)
    requires m > 0 && l > 0 && t < m && Rest(i, m) == 0 && Rest(l, m) == 0
    ensures Across(i + t, l) == Across(i, l)
    decreases i
  {
    if i < l {
      RestGap(i, l, m);
    } else {
      RestMinus(i, l, m);
      AcrossConstant(i - l, t, l, m);
    }
  }

  function Path(n: nat, s: nat, m: nat, a: Point, b: Point): (r: seq<Point>)
    requires 0 < m < s
    ensures |r| == n
  {
    seq(n, i => if i >= 0 && Away(i, s, m) then b else a)
  }

  /** Where the batches do not come out even, the code looks at all positions. */
  lemma UnevenEnds(k: nat, s: nat, m: nat, a: Point, b: Point)
    requires VerdictTime(k, s, m) && m < s && Rest(s, m) != 0
    ensures var h, r := Path(k, s, m, a, b), Rest(s, m); h[..m] == Same(m, a) && Suffix(h, r) == Same(r, b)
  {
    RestBelow(s, m);
  }

  lemma {:induction false} RestBelow(s: nat, m: nat)
    requires 0 < m <= s
    ensures Rest(s, m) + m <= s
  {
    if s >= 2 * m {
      RestBelow(s - m, m);
    }
  }

  lemma EvenEnds(k: nat, s: nat, m: nat, a: Point, b: Point)
    requires VerdictTime(k, s, m) && m < s && Rest(s, m) == 0
    ensures var w := Suffix(Path(k, s, m, a, b), s);
            var (x, y) := if Across(k - s, s - m) then (b, a) else (a, b);
            w[..m] == Same(m, x) && Suffix(w, m) == Same(m, y)
  {
    var w := Suffix(Path(k, s, m, a, b), s);
    var (x, y) := if Across(k - s, s - m) then (b, a) else (a, b);
    RestIsMod(k - s, m);
    RestMinus(s, m, m);
    var first, last := w[..m], Suffix(w, m);
    forall t | 0 <= t < m ensures first[t] == x && last[t] == y {
      SuffixAcross(k - s, t, s, m);
    }
  }

  lemma SuffixAcross(i: nat, t: nat, s: nat, m: nat)
    requires 0 < m < s && t < m && Rest(i, m) == 0 && Rest(s - m, m) == 0
    ensures Across(i + t, s - m) == Across(i, s - m) && Across(i + (s - m) + t, s - m) == !Across(i, s - m)
  {
    AcrossConstant(i, t, s - m, m);
    assert i + (s - m) + t - (s - m) == i + t;
  }

  /** The two ends of every judged window are the two places, in one order or the other. */
  lemma PathEnds(k: nat, s: nat, m: nat, a: Point, b: Point)
    requires VerdictTime(k, s, m) && m < s
    ensures var w := JudgedPoints(Path(k, s, m, a, b), s, m);
            |w| >= m &&
            var (x, y) := (Centroid(w[..m]), Centroid(Suffix(w, Newest(s, m))));
            (x == a && y == b) || (x == b && y == a)
  {
    RestIsMod(s, m);
    CentroidSame(m, a);
    CentroidSame(m, b);
    CentroidSame(Newest(s, m), a);
    CentroidSame(Newest(s, m), b);
    if Rest(s, m) != 0 {
      UnevenEnds(k, s, m, a, b);
    } else {
      EvenEnds(k, s, m, a, b);
    }
  }

  function Moving(scene: Scene, s: nat, m: nat, n: nat): (r: seq<Context>)
    requires 0 < m < s
    ensures |r| == n
  {
    var path := Path(n, s, m, scene.here, scene.there);
    seq(n, i requires 0 <= i < n => Context(path[i], Some(0.0), true, Some(scene.view)))
  }

  lemma MovingBefore(scene: Scene, s: nat, m: nat, n: nat)
    requires 0 < m < s && n > 0
    ensures Moving(scene, s, m, n)[..n - 1] == Moving(scene, s, m, n - 1)
  {
  }

  lemma MovingLocations(scene: Scene, s: nat, m: nat, n: nat)
    requires 0 < m < s
    ensures Locations(Moving(scene, s, m, n)) == Path(n, s, m, scene.here, scene.there)
  {
  }

  /** Both ways from one place to the other are within the limit, or neither is. */
  predicate Within(scene: Scene, limit: nat, within: bool) {
    (scene.distance(scene.here, scene.there) <= limit as real <==> within) &&
    (scene.distance(scene.there, scene.here) <= limit as real <==> within)
  }

  lemma MovingVerdict(cfg: Config, ctx: Context, scene: Scene, n: nat, anti: bool, within: bool)
    requires (cfg.Stopped? || cfg.SafetyCheck?) && cfg.Valid() && 0 < cfg.BatchSize() < cfg.sampleSize
    requires Within(scene, cfg.maxDistance, within)
    ensures PointVerdictOn(cfg, ctx, Path(n, cfg.sampleSize, cfg.BatchSize(), scene.here, scene.there), anti,
                           scene.distance) ==
            if JudgesAt(cfg, n) then Some(within != anti) else None
  {
    if JudgesAt(cfg, n) {
      PathEnds(n, cfg.sampleSize, cfg.BatchSize(), scene.here, scene.there);
    }
  }

  lemma {:induction false} MovingSays(cfg: Config, scene: Scene, n: nat, anti: bool, within: bool)
    requires (cfg.Stopped? || cfg.SafetyCheck?) && cfg.Valid() && 0 < cfg.BatchSize() < cfg.sampleSize
    requires Within(scene, cfg.maxDistance, within)
    ensures Says(cfg, Moving(scene, cfg.sampleSize, cfg.BatchSize(), n), anti, scene.distance, within != anti)
  {
    if n > 0 {
      var pings := Moving(scene, cfg.sampleSize, cfg.BatchSize(), n);
      MovingSays(cfg, scene, n - 1, anti, within);
      MovingBefore(scene, cfg.sampleSize, cfg.BatchSize(), n);
      PointVerdictNow(cfg, pings, anti, scene.distance);
      MovingLocations(scene, cfg.sampleSize, cfg.BatchSize(), n);
      MovingVerdict(cfg, pings[n - 1], scene, n, anti, within);
    }
  }

  /** A side that does not judge so far says anything. */
  lemma {:induction false} NothingSaid(cfg: Config, pings: seq<Context>, anti: bool, distance: Distance, yes: bool)
    requires cfg.Valid() && !cfg.OppositeDirection? && forall k :: 0 < k <= |pings| ==> !JudgesAt(cfg, k)
    requires forall i :: 0 <= i < |pings| ==> !Skips(cfg, pings[i])
    ensures Says(cfg, pings, anti, distance, yes)
  {
    if pings != [] {
      NothingSaid(cfg, pings[..|pings| - 1], anti, distance, yes);
      SaysReadings(cfg, pings[..|pings| - 1], anti, distance, yes);
      VerdictGiven(cfg, pings, anti, distance);
    }
  }
}
