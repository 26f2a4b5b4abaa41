/** When the alarm is on, in terms of everything that a vehicle has reported. */
module Alarms {
  import opened Arithmetic
  import opened Common
  import opened Window
  import opened Means
  import opened Detection
  import opened Alerts
  import opened SpeedHistory
  import opened PointHistory
  import opened TwoSides
  import opened Scenes
  import opened Decisions

  // ----- found and kept -----

  /** Something was found at some moment, and not lost since. */
  ghost predicate Since(found: seq<bool>, lost: seq<bool>) {
    exists k :: 0 <= k < |found| && found[k] && forall j :: k < j < |lost| ==> !lost[j]
  }

  lemma SinceStep(found: seq<bool>, lost: seq<bool>, f: bool, l: bool)
    requires |found| == |lost|
    ensures Since(found + [f], lost + [l]) <==> f || (Since(found, lost) && !l)
  {
    var n := |found|;
    if f {
      assert (found + [f])[n];
    } else if Since(found, lost) && !l {
      var k :| 0 <= k < n && found[k] && forall j :: k < j < n ==> !lost[j];
      assert (found + [f])[k];
    }
    if Since(found + [f], lost + [l]) && !f {
      var k :| 0 <= k <= n && (found + [f])[k] && forall j :: k < j <= n ==> !(lost + [l])[j];
      assert found[k] && !(lost + [l])[n];
      assert forall j :: k < j < n ==> lost[j] == (lost + [l])[j];
    }
  }

  // ----- the alarm and the verdicts -----

  /** Equal windows, and the threshold of the way back is not harder to meet than that of the violation. */
  predicate Ordered(cfg: Config, antiCfg: Config) {
    SameWindow(cfg, antiCfg) &&
    match cfg
    case Overspeeding(_, _, limit) => antiCfg.speedLimit <= limit
    case RouteDeviation(_, _, threshold) => antiCfg.threshold <= threshold
    case OppositeDirection => true
    case _ => cfg.maxDistance <= antiCfg.maxDistance
  }

  /** Then the same readings never are a violation and a way back at once. */
  lemma {:induction false} NotBoth(cfg: Config, antiCfg: Config, pings: seq<Context>, distance: Distance)
    requires Ordered(cfg, antiCfg) && pings != []
    ensures !(Verdict(cfg, pings, false, distance) == Verdict(antiCfg, pings, true, distance) == Some(true))
  {
    var p := pings[..|pings| - 1];
    SidesAgree(cfg, antiCfg, p, distance);
    NotBothChecks(cfg, antiCfg, pings[|pings| - 1], Side(cfg, p, false, distance), distance);
  }

  lemma NotBothChecks(cfg: Config, antiCfg: Config, ctx: Context, state: Option<State>, distance: Distance)
    requires Ordered(cfg, antiCfg)
    ensures !(VerdictOf(CheckOne(cfg, ctx, state, false, distance)) == Some(true) &&
              VerdictOf(CheckOne(antiCfg, ctx, state, true, distance)) == Some(true))
  {
  }

  lemma NoVerdictAtFirst(cfg: Config, ctx: Context, anti: bool, distance: Distance)
    requires cfg.Valid()
    ensures VerdictOf(CheckOne(cfg, ctx, None, anti, distance)) == None
  {
  }

  /** One ping: the alarm goes on with the violation verdict and off with the anti-violation verdict. */
  lemma {:induction false} AlarmStep(cfg: Config, antiCfg: Config, pings: seq<Context>, distance: Distance)
    requires Compatible(cfg, antiCfg) && pings != []
    ensures var was := Alarm(Pings(cfg, antiCfg, pings[..|pings| - 1], distance).0.status);
            Alarm(Pings(cfg, antiCfg, pings, distance).0.status) ==
              if was then Verdict(antiCfg, pings, true, distance) != Some(true)
              else Verdict(cfg, pings, false, distance) == Some(true)
  {
    var p := pings[..|pings| - 1];
    CompatibleKeepsPace(cfg, antiCfg);
    if cfg.OppositeDirection? {
      OppositeKeepsAlarms(cfg, antiCfg, pings, distance);
    } else {
      PaceKeepsAlarms(cfg, antiCfg, pings, distance);
    }
    NoSurprise(cfg, antiCfg, p, distance);
    PingSends(cfg, antiCfg, pings, distance);
    SidesAreIndependent(cfg, antiCfg, p, distance);
    if Side(cfg, p, false, distance).None? {
      NoVerdictAtFirst(cfg, pings[|pings| - 1], false, distance);
    }
  }

  /** For every ping, whether it brought this side's verdict "yes". */
  function Yeses(cfg: Config, pings: seq<Context>, anti: bool, distance: Distance): (r: seq<bool>)
    requires cfg.Valid()
    ensures |r| == |pings|
  {
    if pings == [] then []
    else Yeses(cfg, pings[..|pings| - 1], anti, distance) + [Verdict(cfg, pings, anti, distance) == Some(true)]
  }

  lemma {:induction false} YesAt(cfg: Config, pings: seq<Context>, k: nat, anti: bool, distance: Distance)
    requires cfg.Valid() && k < |pings|
    ensures Yeses(cfg, pings, anti, distance)[k] <==> Verdict(cfg, pings[..k + 1], anti, distance) == Some(true)
  {
    if k == |pings| - 1 {
      assert pings[..k + 1] == pings;
    } else {
      YesAt(cfg, pings[..|pings| - 1], k, anti, distance);
      assert pings[..|pings| - 1][..k + 1] == pings[..k + 1];
    }
  }

  /** A violation was found at some ping, and no way back since. */
  ghost predicate FoundAndKept(cfg: Config, antiCfg: Config, pings: seq<Context>, distance: Distance)
    requires cfg.Valid() && antiCfg.Valid()
  {
    Since(Yeses(cfg, pings, false, distance), Yeses(antiCfg, pings, true, distance))
  }

  lemma {:induction false} FoundAndKeptStep(cfg: Config, antiCfg: Config, pings: seq<Context>, distance: Distance)
    requires cfg.Valid() && antiCfg.Valid() && pings != []
    ensures FoundAndKept(cfg, antiCfg, pings, distance) <==>
            Verdict(cfg, pings, false, distance) == Some(true) ||
            (FoundAndKept(cfg, antiCfg, pings[..|pings| - 1], distance) &&
             Verdict(antiCfg, pings, true, distance) != Some(true))
  {
    var p := pings[..|pings| - 1];
    var v, a := Verdict(cfg, pings, false, distance), Verdict(antiCfg, pings, true, distance);
    SinceStep(Yeses(cfg, p, false, distance), Yeses(antiCfg, p, true, distance), v == Some(true), a == Some(true));
  }

  /**
   * For every detector, over equal windows with ordered thresholds: after any
   * pings the alarm is on exactly when a violation was found and no way back since.
   */
  lemma {:induction false} AlarmIsFoundAndKept(cfg: Config, antiCfg: Config, pings: seq<Context>, distance: Distance)
    requires Ordered(cfg, antiCfg)
    ensures Alarm(Pings(cfg, antiCfg, pings, distance).0.status) <==> FoundAndKept(cfg, antiCfg, pings, distance)
  {
    if pings != [] {
      SameWindowIsCompatible(cfg, antiCfg);
      AlarmIsFoundAndKept(cfg, antiCfg, pings[..|pings| - 1], distance);
      AlarmStep(cfg, antiCfg, pings, distance);
      FoundAndKeptStep(cfg, antiCfg, pings, distance);
      NotBoth(cfg, antiCfg, pings, distance);
    }
  }

  function LatestVerdict(cfg: Config, pings: seq<Context>, distance: Distance): Option<bool>
    requires cfg.Valid()
  {
    if pings == [] then None
    else if Verdict(cfg, pings, false, distance).Some? then Verdict(cfg, pings, false, distance)
    else LatestVerdict(cfg, pings[..|pings| - 1], distance)
  }

  /** With equal thresholds as well, the alarm is on exactly when the latest verdict found a violation. */
  lemma {:induction false} AlarmIsLatestVerdict(cfg: Config, pings: seq<Context>, distance: Distance)
    requires cfg.Valid()
    ensures Alarm(Pings(cfg, cfg, pings, distance).0.status) <==> LatestVerdict(cfg, pings, distance) == Some(true)
  {
    if pings != [] {
      AlarmIsLatestVerdict(cfg, pings[..|pings| - 1], distance);
      AlarmStep(cfg, cfg, pings, distance);
      LockstepRun(cfg, cfg, pings, distance);
    }
  }

  // ----- thresholds the other way round -----

  /** Some place, or some two places, lie between the thresholds: beyond that of the violation, within the other. */
  predicate Between(scene: Scene, cfg: Config, antiCfg: Config)
    requires SameDetector(cfg, antiCfg)
  {
    match cfg
    case RouteDeviation(_, _, threshold) =>
      scene.view.deviation.Some? &&
      threshold as real < scene.view.deviation.value(scene.there) <= antiCfg.threshold as real
    case Stopped(_, _, limit) => Within(scene, limit, true) && Within(scene, antiCfg.maxDistance, false)
    case SafetyCheck(_, _, limit) => Within(scene, limit, true) && Within(scene, antiCfg.maxDistance, false)
    case _ => true
  }

  /** At every judgement both a violation and a way back are found. */
  ghost predicate Torn(cfg: Config, antiCfg: Config, pings: seq<Context>, distance: Distance) {
    SameWindow(cfg, antiCfg) && !cfg.OppositeDirection? &&
    Says(cfg, pings, false, distance, true) && Says(antiCfg, pings, true, distance, true)
  }

  /** Pings between the two thresholds. */
  lemma TornPings(scene: Scene, cfg: Config, antiCfg: Config, n: nat) returns (pings: seq<Context>)
    requires SameWindow(cfg, antiCfg) && !cfg.OppositeDirection? && !Ordered(cfg, antiCfg)
    requires Between(scene, cfg, antiCfg) && Judges(cfg) && !OneBatch(cfg)
    ensures |pings| == n && OnScene(pings, scene) && Torn(cfg, antiCfg, pings, scene.distance)
    ensures forall k :: 0 < k <= n && JudgesAt(cfg, k) ==> Heard(cfg, pings, k)
  {
    if cfg.Overspeeding? || cfg.RouteDeviation? {
      var speed := if cfg.Overspeeding? then antiCfg.speedLimit else 0.0;
      var ctx := Context(scene.there, Some(speed), true, Some(scene.view));
      StandingSays(cfg, ctx, Same(n, true), false, scene.distance, true);
      StandingSays(antiCfg, ctx, Same(n, true), true, scene.distance, false);
      pings := Standing(ctx, Same(n, true));
    } else {
      FirstJudgement(cfg);
      MovingSays(cfg, scene, n, false, true);
      MovingSays(antiCfg, scene, n, true, false);
      pings := Moving(scene, cfg.sampleSize, cfg.BatchSize(), n);
    }
  }

  /** What is heard on such pings. */
  lemma {:induction false} TornVerdicts(cfg: Config, antiCfg: Config, pings: seq<Context>, distance: Distance)
    requires Torn(cfg, antiCfg, pings, distance) && pings != []
    ensures Torn(cfg, antiCfg, pings[..|pings| - 1], distance)
    ensures (Verdict(cfg, pings, false, distance), Verdict(antiCfg, pings, true, distance)) ==
            if Heard(cfg, pings, |pings|) then TORN else NOTHING
  {
  }

  lemma {:induction false} TornQuiet(cfg: Config, antiCfg: Config, pings: seq<Context>, i: nat, distance: Distance)
    requires Torn(cfg, antiCfg, pings, distance)
    requires forall k :: i < k <= |pings| ==> !Heard(cfg, pings, k)
    ensures NothingAfter(Verdicts(cfg, antiCfg, pings, distance), i)
  {
    if |pings| > i {
      var p, vs := pings[..|pings| - 1], Verdicts(cfg, antiCfg, pings, distance);
      TornVerdicts(cfg, antiCfg, pings, distance);
      forall k | i < k <= |p| ensures !Heard(cfg, p, k) {
        assert Heard(cfg, p, k) == Heard(cfg, pings, k);
      }
      TornQuiet(cfg, antiCfg, p, i, distance);
      assert vs[..|vs| - 1] == Verdicts(cfg, antiCfg, p, distance);
    }
  }

  lemma {:induction false} TornBefore(cfg: Config, antiCfg: Config, pings: seq<Context>, k: nat, distance: Distance)
    requires Torn(cfg, antiCfg, pings, distance) && k <= |pings|
    ensures Torn(cfg, antiCfg, pings[..k], distance)
  {
    SaysBefore(cfg, pings, k, false, distance, true);
    SaysBefore(antiCfg, pings, k, true, distance, true);
  }

  lemma {:induction false} TornQuietPrefix(cfg: Config, antiCfg: Config, pings: seq<Context>, i: nat, k: nat,
                                           distance: Distance)
    requires Torn(cfg, antiCfg, pings, distance) && k <= |pings|
    requires forall j :: i < j <= k ==> !Heard(cfg, pings, j)
    ensures NothingAfter(Verdicts(cfg, antiCfg, pings, distance)[..k], i)
  {
    var p := pings[..k];
    TornBefore(cfg, antiCfg, pings, k, distance);
    VerdictsBefore(cfg, antiCfg, pings, k, distance);
    forall j | i < j <= k ensures !Heard(cfg, p, j) {
      assert Heard(cfg, p, j) == Heard(cfg, pings, j);
    }
    TornQuiet(cfg, antiCfg, p, i, distance);
  }

  lemma {:induction false} TornAt(cfg: Config, antiCfg: Config, pings: seq<Context>, k: nat, distance: Distance)
    requires Torn(cfg, antiCfg, pings, distance) && 0 < k <= |pings| && Heard(cfg, pings, k)
    ensures Verdicts(cfg, antiCfg, pings, distance)[k - 1] == TORN
  {
    TornBefore(cfg, antiCfg, pings, k, distance);
    assert Heard(cfg, pings[..k], k) == Heard(cfg, pings, k);
    TornVerdicts(cfg, antiCfg, pings[..k], distance);
    VerdictsAt(cfg, antiCfg, pings, k, distance);
  }

  lemma NoneBetween(s: nat, m: nat, k: nat)
    requires Sized(s, m) && s < k < s + m
    ensures !VerdictTime(k, s, m)
  {
    ModUnique(k - s, 0, k - s, m);
  }

  /** The first two judgements of a torn run turn the alarm on and off. */
  lemma {:induction false} TornTwice(cfg: Config, antiCfg: Config, pings: seq<Context>, s: nat, distance: Distance)
    requires Torn(cfg, antiCfg, pings, distance) && 1 < s < |pings|
    requires Heard(cfg, pings, s) && Heard(cfg, pings, |pings|)
    requires forall k :: 0 < k < |pings| && k != s ==> !Heard(cfg, pings, k)
    ensures !Alarm(Decided(Verdicts(cfg, antiCfg, pings, distance)))
  {
    var vs := Verdicts(cfg, antiCfg, pings, distance);
    TornAt(cfg, antiCfg, pings, s, distance);
    TornAt(cfg, antiCfg, pings, |pings|, distance);
    TornQuietPrefix(cfg, antiCfg, pings, 0, s - 1, distance);
    TornQuietPrefix(cfg, antiCfg, pings, s, |pings| - 1, distance);
    TornDecided(vs, s);
  }

  lemma {:induction false} TornIsKept(cfg: Config, antiCfg: Config, pings: seq<Context>, distance: Distance)
    requires Torn(cfg, antiCfg, pings, distance) && pings != [] && Heard(cfg, pings, |pings|)
    ensures FoundAndKept(cfg, antiCfg, pings, distance)
  {
    FoundAndKeptStep(cfg, antiCfg, pings, distance);
  }

  /** The detector's first two judgements, and no other up to then. */
  lemma FirstTwo(cfg: Config, k: nat)
    requires cfg.Valid() && !cfg.OppositeDirection? && Judges(cfg)
    requires 0 < k < cfg.sampleSize + cfg.BatchSize() && k != cfg.sampleSize
    ensures !JudgesAt(cfg, k)
  {
    if k > cfg.sampleSize {
      NoneBetween(cfg.sampleSize, cfg.BatchSize(), k);
    }
  }

  /** Between the thresholds the first verdict raises the alarm and the second drops it, though nothing has changed. */
  lemma Flickers(scene: Scene, cfg: Config, antiCfg: Config)
    requires SameWindow(cfg, antiCfg) && !cfg.OppositeDirection? && !Ordered(cfg, antiCfg)
    requires Between(scene, cfg, antiCfg) && Judges(cfg) && !OneBatch(cfg)
    ensures !KeptOnScene(cfg, antiCfg, scene)
  {
    var s, n := cfg.sampleSize, cfg.sampleSize + cfg.BatchSize();
    FirstJudgement(cfg);
    var pings := TornPings(scene, cfg, antiCfg, n);
    forall k | 0 < k < n && k != s ensures !Heard(cfg, pings, k) {
      FirstTwo(cfg, k);
    }
    TornTwice(cfg, antiCfg, pings, s, scene.distance);
    TornIsKept(cfg, antiCfg, pings, scene.distance);
    SaysReadings(cfg, pings, false, scene.distance, true);
    StoredIsDecided(cfg, antiCfg, pings, scene.distance);
  }

  ghost predicate KeptOnScene(cfg: Config, antiCfg: Config, scene: Scene)
    requires cfg.Valid() && antiCfg.Valid()
  {
    forall pings :: OnScene(pings, scene) ==>
      (Alarm(Pings(cfg, antiCfg, pings, scene.distance).0.status) <==>
       FoundAndKept(cfg, antiCfg, pings, scene.distance))
  }

  /**
   * For any distance and route with something between crossed thresholds: over
   * equal windows the alarm means "found and kept" on all pings exactly for
   * ordered thresholds, or when nothing is ever judged, or for a stop or safety
   * window of one batch, where the vehicle always stands.
   */
  lemma KeptIffOrdered(cfg: Config, antiCfg: Config, scene: Scene)
    requires SameWindow(cfg, antiCfg) && !cfg.OppositeDirection? && forall p :: scene.distance(p, p) <= 0.0
    requires !Ordered(cfg, antiCfg) ==> Between(scene, cfg, antiCfg)
    ensures KeptOnScene(cfg, antiCfg, scene) <==> Ordered(cfg, antiCfg) || !Judges(cfg) || OneBatch(cfg)
  {
    if Ordered(cfg, antiCfg) || !Judges(cfg) || OneBatch(cfg) {
      forall pings | OnScene(pings, scene)
        ensures Alarm(Pings(cfg, antiCfg, pings, scene.distance).0.status) <==>
                FoundAndKept(cfg, antiCfg, pings, scene.distance)
      {
        NeverBothKept(cfg, antiCfg, pings, scene.distance);
      }
    } else {
      Flickers(scene, cfg, antiCfg);
    }
  }

  /** No ping finds both a violation and a way back. */
  lemma {:induction false} NeverBoth(cfg: Config, antiCfg: Config, pings: seq<Context>, distance: Distance)
    requires SameWindow(cfg, antiCfg) && !cfg.OppositeDirection? && pings != []
    requires Ordered(cfg, antiCfg) || !Judges(cfg) || (OneBatch(cfg) && forall p :: distance(p, p) <= 0.0)
    ensures !(Verdict(cfg, pings, false, distance) == Verdict(antiCfg, pings, true, distance) == Some(true))
  {
    if Ordered(cfg, antiCfg) {
      NotBoth(cfg, antiCfg, pings, distance);
    } else if !Judges(cfg) {
      NeverJudges(cfg, Readings(cfg, pings));
      VerdictGiven(cfg, pings, false, distance);
    } else {
      PointVerdictNow(antiCfg, pings, true, distance);
      AllReadings(antiCfg, pings);
      OneBatchStands(antiCfg, pings[|pings| - 1], Locations(pings), distance);
    }
  }

  /** A window of one batch never finds the way back. */
  lemma OneBatchStands(antiCfg: Config, ctx: Context, h: seq<Point>, distance: Distance)
    requires (antiCfg.Stopped? || antiCfg.SafetyCheck?) && antiCfg.Valid() && antiCfg.sampleSize == antiCfg.BatchSize()
    requires forall p :: distance(p, p) <= 0.0
    ensures PointVerdictOn(antiCfg, ctx, h, true, distance) != Some(true)
  {
    var s := antiCfg.sampleSize;
    if JudgesAt(antiCfg, |h|) {
      ModUnique(s, 1, 0, s);
      assert Suffix(Suffix(h, s), s) == Suffix(h, s)[..s];
    }
  }

  lemma {:induction false} NeverBothKept(cfg: Config, antiCfg: Config, pings: seq<Context>, distance: Distance)
    requires SameWindow(cfg, antiCfg) && !cfg.OppositeDirection?
    requires Ordered(cfg, antiCfg) || !Judges(cfg) || (OneBatch(cfg) && forall p :: distance(p, p) <= 0.0)
    ensures Alarm(Pings(cfg, antiCfg, pings, distance).0.status) <==> FoundAndKept(cfg, antiCfg, pings, distance)
  {
    if pings != [] {
      SameWindowIsCompatible(cfg, antiCfg);
      NeverBothKept(cfg, antiCfg, pings[..|pings| - 1], distance);
      AlarmStep(cfg, antiCfg, pings, distance);
      FoundAndKeptStep(cfg, antiCfg, pings, distance);
      NeverBoth(cfg, antiCfg, pings, distance);
    }
  }

  // ----- overspeeding -----

  /** The latest speed is judged, and the average lies above the limit (or not above it). */
  predicate Above(cfg: Config, h: seq<real>, limit: real, above: bool)
    requires cfg.Overspeeding? && cfg.Valid()
  {
    JudgesAt(cfg, |h|) && (JudgedSpeed(h, cfg.sampleSize, cfg.BatchSize()) > limit) == above
  }

  /** For every speed, whether it is judged with an average above the limit (or not above it). */
  function AllAbove(cfg: Config, h: seq<real>, limit: real, above: bool): (r: seq<bool>)
    requires cfg.Overspeeding? && cfg.Valid()
    ensures |r| == |h|
  {
    if h == [] then [] else AllAbove(cfg, h[..|h| - 1], limit, above) + [Above(cfg, h, limit, above)]
  }

  /** Some judged average lay above the limit, and all judged since above the limit of the way back. */
  ghost predicate Overspeeds(cfg: Config, h: seq<real>, antiLimit: real)
    requires cfg.Overspeeding? && cfg.Valid()
  {
    Since(AllAbove(cfg, h, cfg.speedLimit, true), AllAbove(cfg, h, antiLimit, false))
  }

  lemma OverspeedsStep(cfg: Config, h: seq<real>, antiLimit: real)
    requires cfg.Overspeeding? && cfg.Valid() && h != []
    ensures Overspeeds(cfg, h, antiLimit) <==>
            Above(cfg, h, cfg.speedLimit, true) ||
            (Overspeeds(cfg, h[..|h| - 1], antiLimit) && !Above(cfg, h, antiLimit, false))
  {
    var p := h[..|h| - 1];
    SinceStep(AllAbove(cfg, p, cfg.speedLimit, true), AllAbove(cfg, p, antiLimit, false),
              Above(cfg, h, cfg.speedLimit, true), Above(cfg, h, antiLimit, false));
  }

  /** The verdicts of a ping that brings a speed. */
  lemma {:induction false} SpeedVerdictsAt(cfg: Config, antiCfg: Config, pings: seq<Context>, distance: Distance)
    requires cfg.Overspeeding? && SameWindow(cfg, antiCfg) && pings != [] && pings[|pings| - 1].speed.Some?
    ensures var h := Speeds(pings);
            (Verdict(cfg, pings, false, distance) == Some(true) <==> Above(cfg, h, cfg.speedLimit, true)) &&
            (Verdict(antiCfg, pings, true, distance) == Some(true) <==> Above(cfg, h, antiCfg.speedLimit, false))
  {
    SpeedVerdictNow(cfg, pings, false, distance);
    SpeedVerdictNow(antiCfg, pings, true, distance);
  }

  /** What a ping adds, with or without a speed. */
  lemma {:induction false} OverspeedsPing(cfg: Config, antiCfg: Config, pings: seq<Context>, distance: Distance)
    requires cfg.Overspeeding? && SameWindow(cfg, antiCfg) && pings != []
    ensures Overspeeds(cfg, Speeds(pings), antiCfg.speedLimit) <==>
            Verdict(cfg, pings, false, distance) == Some(true) ||
            (Overspeeds(cfg, Speeds(pings[..|pings| - 1]), antiCfg.speedLimit) &&
             Verdict(antiCfg, pings, true, distance) != Some(true))
  {
    if pings[|pings| - 1].speed.Some? {
      OverspeedsSpeedPing(cfg, antiCfg, pings, distance);
    } else {
      SpeedVerdictNow(cfg, pings, false, distance);
      SpeedVerdictNow(antiCfg, pings, true, distance);
    }
  }

  lemma {:induction false} OverspeedsSpeedPing(cfg: Config, antiCfg: Config, pings: seq<Context>, distance: Distance)
    requires cfg.Overspeeding? && SameWindow(cfg, antiCfg) && pings != [] && pings[|pings| - 1].speed.Some?
    ensures Overspeeds(cfg, Speeds(pings), antiCfg.speedLimit) <==>
            Verdict(cfg, pings, false, distance) == Some(true) ||
            (Overspeeds(cfg, Speeds(pings[..|pings| - 1]), antiCfg.speedLimit) &&
             Verdict(antiCfg, pings, true, distance) != Some(true))
  {
    var h := Speeds(pings);
    SpeedVerdictsAt(cfg, antiCfg, pings, distance);
    OverspeedsStep(cfg, h, antiCfg.speedLimit);
    assert h[..|h| - 1] == Speeds(pings[..|pings| - 1]);
  }

  /**
   * After any pings, over equal windows with ordered limits: the overspeeding
   * alarm is on exactly when some judged average lay above the limit and all
   * judged since lie above the limit of the way back. The last one outside the
   * band between the two limits decides.
   */
  lemma {:induction false} OverspeedingAlarm(cfg: Config, antiCfg: Config, pings: seq<Context>, distance: Distance)
    requires cfg.Overspeeding? && Ordered(cfg, antiCfg)
    ensures Alarm(Pings(cfg, antiCfg, pings, distance).0.status) <==>
            Overspeeds(cfg, Speeds(pings), antiCfg.speedLimit)
  {
    if pings != [] {
      OverspeedingAlarm(cfg, antiCfg, pings[..|pings| - 1], distance);
      SameWindowIsCompatible(cfg, antiCfg);
      AlarmStep(cfg, antiCfg, pings, distance);
      NotBoth(cfg, antiCfg, pings, distance);
      OverspeedsPing(cfg, antiCfg, pings, distance);
    }
  }

  /** When the batch size divides s, what is judged at the k-th speed is the mean of the s speeds up to it. */
  lemma JudgedIsMean(h: seq<real>, k: nat, s: nat, m: nat)
    requires k <= |h| && VerdictTime(k, s, m) && s % m == 0
    ensures JudgedSpeed(h[..k], s, m) == Mean(h[k - s..k])
  {
    TrueMeanVerdict(h[..k], s, m);
    assert Suffix(h[..k], s) == h[k - s..k];
  }

  /** The latest verdict among the first n readings came at reading n - (n - s) % m. */
  lemma LatestTime(n: nat, s: nat, m: nat)
    requires Sized(s, m) && s <= n && s % m != 1 % m
    ensures var k := n - (n - s) % m;
            s <= k <= n && VerdictTime(k, s, m) && forall j :: k < j <= n ==> !VerdictTime(j, s, m)
  {
    var q, r := (n - s) / m, (n - s) % m;
    var k := n - r;
    assert k - s == q * m;
    ModUnique(k - s, q, 0, m);
    forall j | k < j <= n ensures !VerdictTime(j, s, m) {
      ModUnique(j - s, q, j - k, m);
    }
  }

  /** With one limit for both sides the latest judged average alone decides; LatestTime says which that is. */
  lemma {:induction false} OneLimitAlarm(cfg: Config, pings: seq<Context>, distance: Distance, k: nat)
    requires cfg.Overspeeding? && cfg.Valid() && 0 < k <= |Speeds(pings)| && JudgesAt(cfg, k)
    requires forall j :: k < j <= |Speeds(pings)| ==> !JudgesAt(cfg, j)
    ensures Alarm(Pings(cfg, cfg, pings, distance).0.status) <==>
            JudgedSpeed(Speeds(pings)[..k], cfg.sampleSize, cfg.BatchSize()) > cfg.speedLimit
  {
    OverspeedingAlarm(cfg, cfg, pings, distance);
    LatestDecides(cfg, Speeds(pings), k);
  }

  lemma {:induction false} LatestDecides(cfg: Config, h: seq<real>, k: nat)
    requires cfg.Overspeeding? && cfg.Valid() && 0 < k <= |h| && JudgesAt(cfg, k)
    requires forall j :: k < j <= |h| ==> !JudgesAt(cfg, j)
    ensures Overspeeds(cfg, h, cfg.speedLimit) <==>
            JudgedSpeed(h[..k], cfg.sampleSize, cfg.BatchSize()) > cfg.speedLimit
  {
    OverspeedsStep(cfg, h, cfg.speedLimit);
    if k == |h| {
      assert h[..k] == h;
    } else {
      LatestDecides(cfg, h[..|h| - 1], k);
      assert h[..|h| - 1][..k] == h[..k];
    }
  }

  /**
   * With one limit, and batches that come out even: the alarm is on exactly when
   * the mean of the s speeds up to the latest verdict time lies above the limit.
   */
  lemma {:induction false} TrueMeanAlarm(cfg: Config, pings: seq<Context>, distance: Distance)
    requires cfg.Overspeeding? && cfg.Valid() && Judges(cfg) && cfg.sampleSize % cfg.BatchSize() == 0
    ensures var (h, s) := (Speeds(pings), cfg.sampleSize);
            var alarm := Alarm(Pings(cfg, cfg, pings, distance).0.status);
            if |h| < s then !alarm
            else
              var k := |h| - (|h| - s) % cfg.BatchSize();
              s <= k <= |h| && (alarm <==> Mean(h[k - s..k]) > cfg.speedLimit)
  {
    var (h, s, m) := (Speeds(pings), cfg.sampleSize, cfg.BatchSize());
    if |h| < s {
      SameWindowIsCompatible(cfg, cfg);
      CompatibleKeepsPace(cfg, cfg);
      PaceKeepsAlarms(cfg, cfg, pings, distance);
      SpeedReadings(cfg, pings);
    } else {
      LatestTime(|h|, s, m);
      var k := |h| - (|h| - s) % m;
      OneLimitAlarm(cfg, pings, distance, k);
      JudgedIsMean(h, k, s, m);
    }
  }

  // ----- stops and deviations -----

  /** The latest position is judged, and the centres of oldest and newest batch lie within the limit (or do not). */
  predicate StandsStill(cfg: Config, h: seq<Point>, limit: nat, distance: Distance, standing: bool)
    requires Positional(cfg) && cfg.Valid()
  {
    var s, m := cfg.sampleSize, cfg.BatchSize();
    JudgesAt(cfg, |h|) && (JudgedSize(h, s, m); EndsMeet(JudgedPoints(h, s, m), s, m, limit, distance)) == standing
  }

  /** For every position, whether it is judged with the vehicle standing (or not). */
  function AllStanding(cfg: Config, h: seq<Point>, limit: nat, distance: Distance, standing: bool): (r: seq<bool>)
    requires Positional(cfg) && cfg.Valid()
    ensures |r| == |h|
  {
    if h == [] then []
    else
      AllStanding(cfg, h[..|h| - 1], limit, distance, standing) + [StandsStill(cfg, h, limit, distance, standing)]
  }

  /** The vehicle stood still at some judgement, and at all since by the measure of the way back. */
  ghost predicate Stands(cfg: Config, h: seq<Point>, antiLimit: nat, distance: Distance)
    requires (cfg.Stopped? || cfg.SafetyCheck?) && cfg.Valid()
  {
    Since(AllStanding(cfg, h, cfg.maxDistance, distance, true), AllStanding(cfg, h, antiLimit, distance, false))
  }

  lemma {:induction false} StopVerdictNow(cfg: Config, pings: seq<Context>, anti: bool, distance: Distance)
    requires (cfg.Stopped? || cfg.SafetyCheck?) && cfg.Valid() && pings != []
    ensures Verdict(cfg, pings, anti, distance) == Some(true) <==>
            StandsStill(cfg, Locations(pings), cfg.maxDistance, distance, !anti)
  {
    PointVerdictNow(cfg, pings, anti, distance);
  }

  lemma {:induction false} StopVerdicts(cfg: Config, pings: seq<Context>, anti: bool, distance: Distance)
    requires (cfg.Stopped? || cfg.SafetyCheck?) && cfg.Valid()
    ensures Yeses(cfg, pings, anti, distance) ==
            AllStanding(cfg, Locations(pings), cfg.maxDistance, distance, !anti)
  {
    if pings != [] {
      StopVerdicts(cfg, pings[..|pings| - 1], anti, distance);
      StopVerdictNow(cfg, pings, anti, distance);
      LocationsGrow(pings);
    }
  }

  /** Over equal windows it does not matter whose window is judged. */
  lemma {:induction false} SameStanding(cfg: Config, antiCfg: Config, h: seq<Point>, limit: nat, distance: Distance,
                                        standing: bool)
    requires Positional(cfg) && SameWindow(cfg, antiCfg)
    ensures AllStanding(antiCfg, h, limit, distance, standing) == AllStanding(cfg, h, limit, distance, standing)
  {
    if h != [] {
      SameStanding(cfg, antiCfg, h[..|h| - 1], limit, distance, standing);
    }
  }

  /**
   * After any pings, over equal windows with ordered distances: the stop (or
   * safety) alarm is on exactly when the two end centres of some judged window
   * lay within the distance, and those of all judged since lie within the
   * distance of the way back.
   */
  lemma {:induction false} StopAlarm(cfg: Config, antiCfg: Config, pings: seq<Context>, distance: Distance)
    requires (cfg.Stopped? || cfg.SafetyCheck?) && Ordered(cfg, antiCfg)
    ensures Alarm(Pings(cfg, antiCfg, pings, distance).0.status) <==>
            Stands(cfg, Locations(pings), antiCfg.maxDistance, distance)
  {
    AlarmIsFoundAndKept(cfg, antiCfg, pings, distance);
    StopVerdicts(cfg, pings, false, distance);
    StopVerdicts(antiCfg, pings, true, distance);
    SameStanding(cfg, antiCfg, Locations(pings), antiCfg.maxDistance, distance, false);
  }

  /** How far off the route the position measured at the latest ping was. */
  function DeviationNow(cfg: Config, pings: seq<Context>): Option<real>
    requires cfg.RouteDeviation? && cfg.Valid() && pings != []
  {
    var ctx := pings[|pings| - 1];
    if JudgesAt(cfg, |pings|) && ctx.bus && ctx.route.Some? && ctx.route.value.deviation.Some? then
      var centre := JudgedCentre(Locations(pings), cfg.sampleSize, cfg.BatchSize());
      Some(ctx.route.value.deviation.value(centre))
    else None
  }

  /** A deviation was measured at the latest ping, and lies beyond the threshold (or does not). */
  predicate Off(cfg: Config, pings: seq<Context>, threshold: nat, off: bool)
    requires cfg.RouteDeviation? && cfg.Valid() && pings != []
  {
    var d := DeviationNow(cfg, pings);
    d.Some? && (d.value > threshold as real) == off
  }

  /** For every ping, whether it is judged with the vehicle off its route (or not). */
  function AllOff(cfg: Config, pings: seq<Context>, threshold: nat, off: bool): (r: seq<bool>)
    requires cfg.RouteDeviation? && cfg.Valid()
    ensures |r| == |pings|
  {
    if pings == [] then []
    else AllOff(cfg, pings[..|pings| - 1], threshold, off) + [Off(cfg, pings, threshold, off)]
  }

  /** The vehicle was off its route at some judgement, and at all since by the measure of the way back. */
  ghost predicate Deviates(cfg: Config, pings: seq<Context>, antiThreshold: nat)
    requires cfg.RouteDeviation? && cfg.Valid()
  {
    Since(AllOff(cfg, pings, cfg.threshold, true), AllOff(cfg, pings, antiThreshold, false))
  }

  lemma {:induction false} RouteVerdictNow(cfg: Config, pings: seq<Context>, anti: bool, distance: Distance)
    requires cfg.RouteDeviation? && cfg.Valid() && pings != []
    ensures Verdict(cfg, pings, anti, distance) == Some(true) <==> Off(cfg, pings, cfg.threshold, !anti)
  {
    PointVerdictNow(cfg, pings, anti, distance);
  }

  lemma {:induction false} RouteVerdicts(cfg: Config, pings: seq<Context>, anti: bool, distance: Distance)
    requires cfg.RouteDeviation? && cfg.Valid()
    ensures Yeses(cfg, pings, anti, distance) == AllOff(cfg, pings, cfg.threshold, !anti)
  {
    if pings != [] {
      RouteVerdicts(cfg, pings[..|pings| - 1], anti, distance);
      RouteVerdictNow(cfg, pings, anti, distance);
    }
  }

  lemma {:induction false} SameOff(cfg: Config, antiCfg: Config, pings: seq<Context>, threshold: nat, off: bool)
    requires cfg.RouteDeviation? && SameWindow(cfg, antiCfg)
    ensures AllOff(antiCfg, pings, threshold, off) == AllOff(cfg, pings, threshold, off)
  {
    if pings != [] {
      SameOff(cfg, antiCfg, pings[..|pings| - 1], threshold, off);
    }
  }

  /**
   * After any pings, over equal windows with ordered thresholds: the deviation
   * alarm is on exactly when the measured position was beyond the threshold at
   * some judgement, and beyond that of the way back at all since.
   */
  lemma {:induction false} RouteAlarm(cfg: Config, antiCfg: Config, pings: seq<Context>, distance: Distance)
    requires cfg.RouteDeviation? && Ordered(cfg, antiCfg)
    ensures Alarm(Pings(cfg, antiCfg, pings, distance).0.status) <==> Deviates(cfg, pings, antiCfg.threshold)
  {
    AlarmIsFoundAndKept(cfg, antiCfg, pings, distance);
    RouteVerdicts(cfg, pings, false, distance);
    RouteVerdicts(antiCfg, pings, true, distance);
    SameOff(cfg, antiCfg, pings, antiCfg.threshold, false);
  }

  // ----- the configurations in use -----

  /** A pair of configurations that every result above speaks about, with windows of whole batches. */
  predicate WellChosen(cfg: Config, antiCfg: Config) {
    Ordered(cfg, antiCfg) && !cfg.OppositeDirection? && Judges(cfg) && cfg.sampleSize % cfg.BatchSize() == 0
  }

  /** The pairs of the development configuration, with their windows and thresholds, are such. */
  lemma ConfiguredAreWellChosen()
    ensures WellChosen(Overspeeding(6, 3, 60.0), Overspeeding(6, 3, 50.0))
    ensures WellChosen(RouteDeviation(60, 6, 500), RouteDeviation(60, 6, 300))
    ensures WellChosen(Stopped(300, 10, 25), Stopped(300, 10, 50))
  {
    DivCeilIs(6, 3);
    DivCeilIs(60, 6);
    DivCeilIs(300, 10);
  }
}
