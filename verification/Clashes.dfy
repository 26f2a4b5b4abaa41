/**
 * What goes wrong when the way back does not keep pace with the violation: on a
 * given distance and route, pings that lose an alarm, that reach the decision's
 * unexpected branch, or that never raise an alarm at all.
 */
module Clashes {
  import opened Arithmetic
  import opened Common
  import opened Window
  import opened Detection
  import opened Alerts
  import opened TwoSides
  import opened Scenes

  // ----- what a run asks for -----

  /** Which way each request reports. */
  function Directions(sent: seq<Request>): (r: seq<bool>)
    ensures |r| == |sent|
  {
    seq(|sent|, i requires 0 <= i < |sent| => sent[i].isViolated)
  }

  function Direction(status: Option<Status>): seq<bool> {
    if status == Some(Violated) then [true] else if status == Some(AntiViolated) then [false] else []
  }

  lemma DirectionOf(violation: State, anti: State, status: Option<Status>, ctx: Context)
    ensures var request := AlertFor(Some(violation), Some(anti), status, ctx);
            Directions(if request.Some? then [request.value] else []) == Direction(status)
  {
  }

  lemma DirectionsAppend(sent: seq<Request>, more: seq<Request>)
    ensures Directions(sent + more) == Directions(sent) + Directions(more)
  {
  }

  lemma {:induction false} PingDirections(cfg: Config, antiCfg: Config, pings: seq<Context>, distance: Distance)
    requires SameDetector(cfg, antiCfg) && pings != [] && !Skips(cfg, pings[|pings| - 1])
    ensures var sent := Pings(cfg, antiCfg, pings[..|pings| - 1], distance).1;
            var (t', sent') := Pings(cfg, antiCfg, pings, distance);
            t'.violation.Some? && Directions(sent') == Directions(sent) + Direction(t'.status)
  {
    var ctx, t' := pings[|pings| - 1], Pings(cfg, antiCfg, pings, distance).0;
    PingStep(cfg, antiCfg, pings, distance);
    DirectionOf(t'.violation.value, t'.anti.value, t'.status, ctx);
    var request := AlertFor(t'.violation, t'.anti, t'.status, ctx);
    DirectionsAppend(Pings(cfg, antiCfg, pings[..|pings| - 1], distance).1,
                     if request.Some? then [request.value] else []);
  }

  /** An alarm that was not on before has just been reported. */
  lemma RaisedIsReported(prev: Option<Status>, v: Option<bool>, a: Option<bool>)
    ensures var next := DecisionTree(prev, v, a); Alarm(next) ==> Alarm(prev) || Direction(next) == [true]
  {
  }

  /** No alarm without a request, whatever the configurations. */
  lemma {:induction false} AlarmWasSent(cfg: Config, antiCfg: Config, pings: seq<Context>, distance: Distance)
    requires SameDetector(cfg, antiCfg)
    ensures var (t, sent) := Pings(cfg, antiCfg, pings, distance); Alarm(t.status) ==> Directions(sent) != []
  {
    if pings != [] {
      var p := pings[..|pings| - 1];
      AlarmWasSent(cfg, antiCfg, p, distance);
      PingStep(cfg, antiCfg, pings, distance);
      if !Skips(cfg, pings[|pings| - 1]) {
        PingDirections(cfg, antiCfg, pings, distance);
        RaisedIsReported(Pings(cfg, antiCfg, p, distance).0.status,
                         Verdict(cfg, pings, false, distance), Verdict(antiCfg, pings, true, distance));
      }
    }
  }

  // ----- loud and quiet runs -----

  /** At every judgement the violation side finds a violation and the other side no way back. */
  ghost predicate Loud(cfg: Config, antiCfg: Config, pings: seq<Context>, distance: Distance) {
    SameDetector(cfg, antiCfg) && !cfg.OppositeDirection? &&
    Says(cfg, pings, false, distance, true) && Says(antiCfg, pings, true, distance, false)
  }

  lemma {:induction false} LoudBefore(cfg: Config, antiCfg: Config, pings: seq<Context>, k: nat, distance: Distance)
    requires Loud(cfg, antiCfg, pings, distance) && k <= |pings|
    ensures Loud(cfg, antiCfg, pings[..k], distance)
  {
    SaysBefore(cfg, pings, k, false, distance, true);
    SaysBefore(antiCfg, pings, k, true, distance, false);
  }

  /** What one loud ping makes of the status. */
  ghost predicate LoudNext(prev: Option<Status>, next: Option<Status>, heard: bool, answered: bool) {
    (Direction(next) == [] || Direction(next) == [true]) &&
    (!heard && !answered ==> next.Some?) &&
    (heard && prev.Some? && !Alarm(prev) ==> Alarm(next)) &&
    (Alarm(prev) ==> if heard && !answered then next.None? else Alarm(next)) &&
    (prev.Some? && !Alarm(prev) && answered && !heard ==> next.None?)
  }

  lemma LoudDecision(prev: Option<Status>, heard: bool, answered: bool)
    ensures var v := if heard then Some(true) else None;
            var a := if answered then Some(false) else None;
            LoudNext(prev, DecisionTree(prev, v, a), heard, answered)
  {
  }

  /** What one loud ping does. */
  lemma {:induction false} LoudStep(cfg: Config, antiCfg: Config, pings: seq<Context>, distance: Distance)
    requires Loud(cfg, antiCfg, pings, distance) && pings != []
    ensures var (t, sent) := Pings(cfg, antiCfg, pings[..|pings| - 1], distance);
            var (t', sent') := Pings(cfg, antiCfg, pings, distance);
            t'.violation.Some? && Directions(sent') == Directions(sent) + Direction(t'.status) &&
            LoudNext(t.status, t'.status, Heard(cfg, pings, |pings|), Heard(antiCfg, pings, |pings|))
  {
    PingStep(cfg, antiCfg, pings, distance);
    PingDirections(cfg, antiCfg, pings, distance);
    LoudDecision(Pings(cfg, antiCfg, pings[..|pings| - 1], distance).0.status,
                 Heard(cfg, pings, |pings|), Heard(antiCfg, pings, |pings|));
  }

  predicate AllTrue(ds: seq<bool>) {
    forall i :: 0 <= i < |ds| ==> ds[i]
  }

  lemma AllTrueGrows(ds: seq<bool>, more: seq<bool>)
    requires AllTrue(ds) && (more == [] || more == [true])
    ensures AllTrue(ds + more)
  {
  }

  lemma {:induction false} LoudDirections(cfg: Config, antiCfg: Config, pings: seq<Context>, distance: Distance)
    requires Loud(cfg, antiCfg, pings, distance)
    ensures AllTrue(Directions(Pings(cfg, antiCfg, pings, distance).1))
  {
    if pings != [] {
      var p := pings[..|pings| - 1];
      LoudDirections(cfg, antiCfg, p, distance);
      LoudStep(cfg, antiCfg, pings, distance);
      AllTrueGrows(Directions(Pings(cfg, antiCfg, p, distance).1),
                   Direction(Pings(cfg, antiCfg, pings, distance).0.status));
    }
  }

  /** A loud judgement after a ping without any raises the alarm, if it is not on already. */
  lemma {:induction false} LoudRaise(cfg: Config, antiCfg: Config, pings: seq<Context>, distance: Distance)
    requires Loud(cfg, antiCfg, pings, distance) && |pings| > 1
    requires Heard(cfg, pings, |pings|) && !Heard(cfg, pings, |pings| - 1) && !Heard(antiCfg, pings, |pings| - 1)
    ensures Alarm(Pings(cfg, antiCfg, pings[..|pings| - 1], distance).0.status) ||
            Alarm(Pings(cfg, antiCfg, pings, distance).0.status)
  {
    var p := pings[..|pings| - 1];
    assert Heard(cfg, p, |p|) == Heard(cfg, pings, |p|) && Heard(antiCfg, p, |p|) == Heard(antiCfg, pings, |p|);
    LoudStep(cfg, antiCfg, pings, distance);
    LoudStep(cfg, antiCfg, p, distance);
  }

  // ----- requests that stop telling the truth -----

  ghost predicate AlwaysTruthful(cfg: Config, antiCfg: Config, pings: seq<Context>, distance: Distance)
    requires cfg.Valid() && antiCfg.Valid()
  {
    Truthful(cfg, antiCfg, pings, distance) &&
    (pings != [] ==> AlwaysTruthful(cfg, antiCfg, pings[..|pings| - 1], distance))
  }

  lemma SecondIsRelief(sent: seq<Request>)
    requires Alternates(sent) && |sent| > 1
    ensures !AllTrue(Directions(sent))
  {
    assert Directions(sent)[1] == sent[1].isViolated;
  }

  lemma OnlyOneViolation(sent: seq<Request>)
    requires Alternates(sent) && AllTrue(Directions(sent))
    ensures |sent| <= 1
  {
    if |sent| > 1 {
      SecondIsRelief(sent);
    }
  }

  /** Once a loud run has raised the alarm, truthful requests mean that it stays on. */
  lemma {:induction false} LoudTruth(cfg: Config, antiCfg: Config, pings: seq<Context>, e: nat, distance: Distance)
    requires Loud(cfg, antiCfg, pings, distance) && AlwaysTruthful(cfg, antiCfg, pings, distance)
    requires e <= |pings| && Alarm(Pings(cfg, antiCfg, pings[..e], distance).0.status)
    ensures var (t, sent) := Pings(cfg, antiCfg, pings, distance); Alarm(t.status) && |sent| == 1
  {
    LoudDirections(cfg, antiCfg, pings, distance);
    OnlyOneViolation(Pings(cfg, antiCfg, pings, distance).1);
    NoneReported(Pings(cfg, antiCfg, pings, distance).1);
    if e == |pings| {
      assert pings[..e] == pings;
      AlarmWasSent(cfg, antiCfg, pings, distance);
    } else {
      var p := pings[..|pings| - 1];
      assert p[..e] == pings[..e];
      LoudTruth(cfg, antiCfg, p, e, distance);
      NoneReported(Pings(cfg, antiCfg, p, distance).1);
      LoudStep(cfg, antiCfg, pings, distance);
    }
  }

  lemma {:induction false} LoudDrop(cfg: Config, antiCfg: Config, pings: seq<Context>, distance: Distance)
    requires Loud(cfg, antiCfg, pings, distance) && pings != []
    requires Heard(cfg, pings, |pings|) && !Heard(antiCfg, pings, |pings|)
    requires Alarm(Pings(cfg, antiCfg, pings[..|pings| - 1], distance).0.status)
    ensures Pings(cfg, antiCfg, pings, distance).0.status == None
  {
    LoudStep(cfg, antiCfg, pings, distance);
  }

  /** So the way back must have been judged whenever the violation is judged again. */
  lemma {:induction false} LoudLoss(cfg: Config, antiCfg: Config, pings: seq<Context>, e: nat, distance: Distance)
    requires Loud(cfg, antiCfg, pings, distance) && e < |pings|
    requires Alarm(Pings(cfg, antiCfg, pings[..e], distance).0.status)
    requires Heard(cfg, pings, |pings|) && !Heard(antiCfg, pings, |pings|)
    ensures !AlwaysTruthful(cfg, antiCfg, pings, distance)
  {
    var p := pings[..|pings| - 1];
    LoudBefore(cfg, antiCfg, pings, |p|, distance);
    assert p[..e] == pings[..e];
    if AlwaysTruthful(cfg, antiCfg, pings, distance) {
      LoudTruth(cfg, antiCfg, pings, e, distance);
      LoudTruth(cfg, antiCfg, p, e, distance);
      LoudDrop(cfg, antiCfg, pings, distance);
    }
  }

  lemma {:induction false} FirstUntruth(cfg: Config, antiCfg: Config, pings: seq<Context>, distance: Distance)
    returns (k: nat)
    requires cfg.Valid() && antiCfg.Valid() && !AlwaysTruthful(cfg, antiCfg, pings, distance)
    ensures k <= |pings| && !Truthful(cfg, antiCfg, pings[..k], distance)
  {
    if !Truthful(cfg, antiCfg, pings, distance) {
      k := |pings|;
      assert pings[..k] == pings;
    } else {
      k := FirstUntruth(cfg, antiCfg, pings[..|pings| - 1], distance);
      assert pings[..|pings| - 1][..k] == pings[..k];
    }
  }

  // ----- when alarms can be raised, and lost -----

  /** Right before each of its judgements the other side has judged, so that no alarm is ever raised. */
  predicate Muted(cfg: Config, antiCfg: Config) {
    SameDetector(cfg, antiCfg) && !cfg.OppositeDirection? && !cfg.RouteDeviation? && MutedTimes(cfg, antiCfg)
  }

  predicate MutedTimes(cfg: Config, antiCfg: Config)
    requires cfg.Valid() && antiCfg.Valid() && !cfg.OppositeDirection? && !antiCfg.OppositeDirection?
  {
    Judges(cfg) && JudgesAt(antiCfg, cfg.sampleSize - 1) && cfg.BatchSize() % antiCfg.BatchSize() == 0
  }

  /** Two judgements of one side are at least a batch apart. */
  lemma TimesApart(j: nat, k: nat, s: nat, m: nat)
    requires VerdictTime(j, s, m) && VerdictTime(k, s, m) && j < k
    ensures k - j >= m
  {
    DividesSum(j - s, k - j, m);
    if k - j < m {
      ModUnique(k - j, 0, k - j, m);
    }
  }

  lemma NotTwice(cfg: Config, n: nat)
    requires cfg.Valid() && !cfg.OppositeDirection? && n > 0 && JudgesAt(cfg, n)
    ensures !JudgesAt(cfg, n - 1) && !JudgesAt(cfg, n + 1)
  {
    var s, m := cfg.sampleSize, cfg.BatchSize();
    VerdictCovers(n, s, m);
    if JudgesAt(cfg, n - 1) {
      TimesApart(n - 1, n, s, m);
    }
    if JudgesAt(cfg, n + 1) {
      TimesApart(n, n + 1, s, m);
    }
  }

  /** A side that judges at two times a step apart has batches that divide the step. */
  lemma StepDivides(n: nat, step: nat, s: nat, m: nat)
    requires VerdictTime(n, s, m)
    ensures VerdictTime(n + step, s, m) <==> step % m == 0
  {
    DividesSum(n - s, step, m);
  }

  /** A ping at which a loud run raises the alarm, in spite of the other side. */
  predicate RaisesAt(cfg: Config, antiCfg: Config, e: nat)
    requires cfg.Valid() && antiCfg.Valid() && !cfg.OppositeDirection? && !antiCfg.OppositeDirection?
  {
    e > 1 && JudgesAt(cfg, e) && !JudgesAt(cfg, e - 1) && !JudgesAt(antiCfg, e - 1)
  }

  lemma RaiseTime(cfg: Config, antiCfg: Config) returns (e: nat)
    requires SameDetector(cfg, antiCfg) && !cfg.OppositeDirection? && Judges(cfg) && !MutedTimes(cfg, antiCfg)
    ensures RaisesAt(cfg, antiCfg, e)
    ensures e == if JudgesAt(antiCfg, cfg.sampleSize - 1) then cfg.sampleSize + cfg.BatchSize() else cfg.sampleSize
  {
    var s, m := cfg.sampleSize, cfg.BatchSize();
    FirstJudgement(cfg);
    NotTwice(cfg, s);
    NotTwice(cfg, s + m);
    if JudgesAt(antiCfg, s - 1) {
      e := s + m;
      StepDivides(s - 1, m, antiCfg.sampleSize, antiCfg.BatchSize());
    } else {
      e := s;
    }
  }

  lemma LossTime(cfg: Config, antiCfg: Config, e: nat) returns (n: nat)
    requires SameDetector(cfg, antiCfg) && !cfg.OppositeDirection? && Judges(cfg)
    requires !KeepsPace(cfg, antiCfg) && !MutedTimes(cfg, antiCfg)
    requires e == if JudgesAt(antiCfg, cfg.sampleSize - 1) then cfg.sampleSize + cfg.BatchSize() else cfg.sampleSize
    ensures e < n && JudgesAt(cfg, n) && !JudgesAt(antiCfg, n)
  {
    var s, m := cfg.sampleSize, cfg.BatchSize();
    FirstJudgement(cfg);
    ModUnique(m, 1, 0, m);
    StepDivides(s + m, m, s, m);
    StepDivides(s + 2 * m, m, s, m);
    if e == s && !JudgesAt(antiCfg, s + m) {
      n := s + m;
    } else if !JudgesAt(antiCfg, s + 2 * m) {
      n := s + 2 * m;
    } else {
      n := s + 3 * m;
      StepDivides(s + 2 * m, m, antiCfg.sampleSize, antiCfg.BatchSize());
      if e == s {
        StepDivides(s + m, m, antiCfg.sampleSize, antiCfg.BatchSize());
      }
    }
  }

  /** All pings with their bus, but for the k-th. */
  function But(n: nat, k: nat): (r: seq<bool>)
    ensures |r| == n
  {
    seq(n, i => i + 1 != k)
  }

  function LoudPings(scene: Scene, cfg: Config, antiCfg: Config, n: nat, silent: nat): (r: seq<Context>)
    ensures |r| == n
  {
    Standing(SceneContext(scene, cfg, antiCfg, true), But(n, silent))
  }

  /** A loud run on the scene, in which a deviation is not measured at the ping `silent`. */
  lemma LoudScene(scene: Scene, cfg: Config, antiCfg: Config, n: nat, silent: nat)
    requires SameDetector(cfg, antiCfg) && !cfg.OppositeDirection? && Separates(scene, cfg, antiCfg)
    ensures var pings := LoudPings(scene, cfg, antiCfg, n, silent);
            Loud(cfg, antiCfg, pings, scene.distance) && OnScene(pings, scene) &&
            forall k :: 0 < k <= n ==>
              (Heard(cfg, pings, k) <==> JudgesAt(cfg, k) && (cfg.RouteDeviation? ==> k != silent)) &&
              (Heard(antiCfg, pings, k) <==> JudgesAt(antiCfg, k) && (cfg.RouteDeviation? ==> k != silent))
  {
    var ctx := SceneContext(scene, cfg, antiCfg, true);
    SceneDecides(scene, cfg, antiCfg, true);
    StandingSays(cfg, ctx, But(n, silent), false, scene.distance, true);
    StandingSays(antiCfg, ctx, But(n, silent), true, scene.distance, true);
  }

  lemma {:induction false} HeardBefore(cfg: Config, pings: seq<Context>, n: nat, k: nat)
    requires cfg.Valid() && !cfg.OppositeDirection? && k <= n <= |pings|
    ensures Heard(cfg, pings[..n], k) == Heard(cfg, pings, k)
  {
  }

  /** A ping e at which the loud pings raise the alarm: nothing is heard right before it. */
  predicate Breaks(cfg: Config, antiCfg: Config, e: nat, silent: nat)
    requires cfg.Valid() && antiCfg.Valid() && !cfg.OppositeDirection? && !antiCfg.OppositeDirection?
  {
    e > 1 && JudgesAt(cfg, e) &&
    ((cfg.RouteDeviation? && silent == e - 1) || (silent == 0 && RaisesAt(cfg, antiCfg, e)))
  }

  lemma BreaksThrough(scene: Scene, cfg: Config, antiCfg: Config, n: nat, silent: nat, e: nat)
    requires SameDetector(cfg, antiCfg) && !cfg.OppositeDirection? && Separates(scene, cfg, antiCfg)
    requires e <= n && Breaks(cfg, antiCfg, e, silent)
    ensures var pings := LoudPings(scene, cfg, antiCfg, n, silent);
            Heard(cfg, pings, e) && !Heard(cfg, pings, e - 1) && !Heard(antiCfg, pings, e - 1)
  {
    LoudScene(scene, cfg, antiCfg, n, silent);
  }

  /** The alarm of a loud run is on right before or at such a ping. */
  lemma {:induction false} RaisedBy(cfg: Config, antiCfg: Config, pings: seq<Context>, e: nat, distance: Distance)
    returns (k: nat)
    requires Loud(cfg, antiCfg, pings, distance) && 1 < e <= |pings|
    requires Heard(cfg, pings, e) && !Heard(cfg, pings, e - 1) && !Heard(antiCfg, pings, e - 1)
    ensures k <= e && Alarm(Pings(cfg, antiCfg, pings[..k], distance).0.status)
  {
    var p := pings[..e];
    LoudBefore(cfg, antiCfg, pings, e, distance);
    HeardBefore(cfg, pings, e, e);
    HeardBefore(cfg, pings, e, e - 1);
    HeardBefore(antiCfg, pings, e, e - 1);
    assert p[..e - 1] == pings[..e - 1];
    LoudRaise(cfg, antiCfg, p, distance);
    k := if Alarm(Pings(cfg, antiCfg, p, distance).0.status) then e else e - 1;
  }

  lemma OnSceneBefore(pings: seq<Context>, k: nat, scene: Scene)
    requires OnScene(pings, scene) && k <= |pings|
    ensures OnScene(pings[..k], scene)
  {
  }

  /** Loud pings that raise the alarm at e and find no way back judged at n tell an untruth on the way. */
  lemma SceneLoss(scene: Scene, cfg: Config, antiCfg: Config, silent: nat, e: nat, n: nat)
    requires SameDetector(cfg, antiCfg) && !cfg.OppositeDirection? && Separates(scene, cfg, antiCfg)
    requires Breaks(cfg, antiCfg, e, silent) && silent < e < n && JudgesAt(cfg, n) && !JudgesAt(antiCfg, n)
    ensures exists pings :: OnScene(pings, scene) && !Truthful(cfg, antiCfg, pings, scene.distance)
  {
    var pings := LoudPings(scene, cfg, antiCfg, n, silent);
    LoudScene(scene, cfg, antiCfg, n, silent);
    BreaksThrough(scene, cfg, antiCfg, n, silent, e);
    var raised := RaisedBy(cfg, antiCfg, pings, e, scene.distance);
    LoudLoss(cfg, antiCfg, pings, raised, scene.distance);
    var k := FirstUntruth(cfg, antiCfg, pings, scene.distance);
    OnSceneBefore(pings, k, scene);
  }

  // ----- exactly when the requests tell the truth -----

  ghost predicate TruthfulOnScene(cfg: Config, antiCfg: Config, scene: Scene)
    requires cfg.Valid() && antiCfg.Valid()
  {
    forall pings :: OnScene(pings, scene) ==> Truthful(cfg, antiCfg, pings, scene.distance)
  }

  /**
   * For any distance and route on which the thresholds can be told apart: on all
   * pings the requests alternate, violation first, and the alarm is what the
   * last one said, exactly when the way back keeps pace or no alarm is ever raised.
   */
  lemma TruthfulIff(cfg: Config, antiCfg: Config, scene: Scene)
    requires SameDetector(cfg, antiCfg) && Separates(scene, cfg, antiCfg)
    ensures TruthfulOnScene(cfg, antiCfg, scene) <==> KeepsPace(cfg, antiCfg) || Muted(cfg, antiCfg)
  {
    if KeepsPace(cfg, antiCfg) {
      forall pings | OnScene(pings, scene) ensures Truthful(cfg, antiCfg, pings, scene.distance) {
        AlertsAlternate(cfg, antiCfg, pings, scene.distance);
      }
    } else if Muted(cfg, antiCfg) {
      forall pings | OnScene(pings, scene) ensures Truthful(cfg, antiCfg, pings, scene.distance) {
        MutedIsSilent(cfg, antiCfg, pings, scene.distance);
      }
    } else if MutedTimes(cfg, antiCfg) {
      UnmeasuredLoss(cfg, antiCfg, scene);
    } else {
      var e := RaiseTime(cfg, antiCfg);
      var n := LossTime(cfg, antiCfg, e);
      SceneLoss(scene, cfg, antiCfg, 0, e, n);
    }
  }

  /** Deviation is not muted: a ping off the route right before the judgement lets the alarm through. */
  lemma UnmeasuredLoss(cfg: Config, antiCfg: Config, scene: Scene)
    requires SameDetector(cfg, antiCfg) && Separates(scene, cfg, antiCfg)
    requires cfg.RouteDeviation? && MutedTimes(cfg, antiCfg)
    ensures exists pings :: OnScene(pings, scene) && !Truthful(cfg, antiCfg, pings, scene.distance)
  {
    var s, m := cfg.sampleSize, cfg.BatchSize();
    FirstJudgement(cfg);
    StepDivides(s - 1, m, antiCfg.sampleSize, antiCfg.BatchSize());
    NotTwice(antiCfg, s + m - 1);
    SceneLoss(scene, cfg, antiCfg, s - 1, s, s + m);
  }

  /** What a muted detector stores after n readings: no status right after the other side judged, and never an alarm. */
  function MutedStatus(antiCfg: Config, n: nat): Option<Status>
    requires antiCfg.Valid() && !antiCfg.OppositeDirection?
  {
    if n == 0 || JudgesAt(antiCfg, n) then None else Some(ContinuedAntiViolation)
  }

  lemma MutedDecision(cfg: Config, antiCfg: Config, n: nat, v: Option<bool>, a: Option<bool>)
    requires Muted(cfg, antiCfg) && n > 0 && (v.Some? <==> JudgesAt(cfg, n)) && (a.Some? <==> JudgesAt(antiCfg, n))
    ensures DecisionTree(MutedStatus(antiCfg, n - 1), v, a) == MutedStatus(antiCfg, n)
  {
    MutedTime(cfg, antiCfg, n);
  }

  lemma {:induction false} MutedPing(cfg: Config, antiCfg: Config, pings: seq<Context>, distance: Distance)
    requires Muted(cfg, antiCfg) && pings != [] && !Skips(cfg, pings[|pings| - 1])
    ensures DecisionTree(MutedStatus(antiCfg, Readings(cfg, pings[..|pings| - 1])),
                         Verdict(cfg, pings, false, distance), Verdict(antiCfg, pings, true, distance)) ==
            MutedStatus(antiCfg, Readings(cfg, pings))
  {
    VerdictGiven(cfg, pings, false, distance);
    VerdictGiven(antiCfg, pings, true, distance);
    SameReadings(cfg, antiCfg, pings);
    MutedDecision(cfg, antiCfg, Readings(cfg, pings),
                  Verdict(cfg, pings, false, distance), Verdict(antiCfg, pings, true, distance));
  }

  lemma MutedNotReported(antiCfg: Config, n: nat)
    requires antiCfg.Valid() && !antiCfg.OppositeDirection?
    ensures Direction(MutedStatus(antiCfg, n)) == [] && !Alarm(MutedStatus(antiCfg, n))
  {
  }

  lemma {:induction false} MutedRun(cfg: Config, antiCfg: Config, pings: seq<Context>, distance: Distance)
    requires Muted(cfg, antiCfg)
    ensures var (t, sent) := Pings(cfg, antiCfg, pings, distance);
            Directions(sent) == [] && t.status == MutedStatus(antiCfg, Readings(cfg, pings))
  {
    if pings != [] {
      MutedRun(cfg, antiCfg, pings[..|pings| - 1], distance);
      PingStep(cfg, antiCfg, pings, distance);
      if !Skips(cfg, pings[|pings| - 1]) {
        PingDirections(cfg, antiCfg, pings, distance);
        MutedPing(cfg, antiCfg, pings, distance);
        MutedNotReported(antiCfg, Readings(cfg, pings));
      }
    }
  }

  lemma {:induction false} MutedIsSilent(cfg: Config, antiCfg: Config, pings: seq<Context>, distance: Distance)
    requires Muted(cfg, antiCfg)
    ensures Pings(cfg, antiCfg, pings, distance).1 == [] && Truthful(cfg, antiCfg, pings, distance)
  {
    MutedRun(cfg, antiCfg, pings, distance);
    MutedNotReported(antiCfg, Readings(cfg, pings));
    assert |Directions(Pings(cfg, antiCfg, pings, distance).1)| == |Pings(cfg, antiCfg, pings, distance).1|;
  }

  lemma MutedTime(cfg: Config, antiCfg: Config, n: nat)
    requires Muted(cfg, antiCfg) && n > 0
    ensures JudgesAt(cfg, n) ==> n > 1 && JudgesAt(antiCfg, n - 1) && !JudgesAt(antiCfg, n)
    ensures JudgesAt(antiCfg, n) ==> n > 1 && !JudgesAt(antiCfg, n - 1)
  {
    var s, m := cfg.sampleSize, cfg.BatchSize();
    if JudgesAt(antiCfg, n) {
      NotTwice(antiCfg, n);
      VerdictCovers(n, antiCfg.sampleSize, antiCfg.BatchSize());
    }
    if JudgesAt(cfg, n) {
      VerdictCovers(n, s, m);
      PaceKept(n - 1, s - 1, m, antiCfg.sampleSize, antiCfg.BatchSize());
      NotTwice(antiCfg, n - 1);
    }
  }

  // ----- exactly when nothing is ever sent -----

  /** A violation side that never judges never sends a request, whatever the other side does. */
  lemma {:induction false} NoVerdictNoRequest(cfg: Config, antiCfg: Config, pings: seq<Context>, distance: Distance)
    requires SameDetector(cfg, antiCfg) && !cfg.OppositeDirection? && !Judges(cfg)
    ensures var (t, sent) := Pings(cfg, antiCfg, pings, distance);
            sent == [] && (t.status == None || t.status == Some(ContinuedAntiViolation))
  {
    if pings != [] {
      NoVerdictNoRequest(cfg, antiCfg, pings[..|pings| - 1], distance);
      PingStep(cfg, antiCfg, pings, distance);
      VerdictGiven(cfg, pings, false, distance);
      NeverJudges(cfg, Readings(cfg, pings));
    }
  }

  ghost predicate SilentOnScene(cfg: Config, antiCfg: Config, scene: Scene)
    requires cfg.Valid() && antiCfg.Valid()
  {
    forall pings :: OnScene(pings, scene) ==> Pings(cfg, antiCfg, pings, scene.distance).1 == []
  }

  lemma SceneAlerts(scene: Scene, cfg: Config, antiCfg: Config, silent: nat, e: nat)
    requires SameDetector(cfg, antiCfg) && !cfg.OppositeDirection? && Separates(scene, cfg, antiCfg)
    requires Breaks(cfg, antiCfg, e, silent)
    ensures !SilentOnScene(cfg, antiCfg, scene)
  {
    var pings := LoudPings(scene, cfg, antiCfg, e, silent);
    LoudScene(scene, cfg, antiCfg, e, silent);
    BreaksThrough(scene, cfg, antiCfg, e, silent, e);
    var k := RaisedBy(cfg, antiCfg, pings, e, scene.distance);
    OnSceneBefore(pings, k, scene);
    AlarmWasSent(cfg, antiCfg, pings[..k], scene.distance);
    NoneReported(Pings(cfg, antiCfg, pings[..k], scene.distance).1);
  }

  lemma NoneReported(sent: seq<Request>)
    ensures sent == [] <==> Directions(sent) == []
  {
    assert |Directions(sent)| == |sent|;
  }

  /**
   * For any two configurations of a batched detector, and any distance and route
   * on which their thresholds can be told apart: no request is ever sent exactly
   * when the violation side never judges (its sample size is zero or leaves 1
   * modulo its batch size) or is muted.
   */
  lemma NeverAlertsIff(cfg: Config, antiCfg: Config, scene: Scene)
    requires SameDetector(cfg, antiCfg) && !cfg.OppositeDirection? && Separates(scene, cfg, antiCfg)
    ensures SilentOnScene(cfg, antiCfg, scene) <==> !Judges(cfg) || Muted(cfg, antiCfg)
  {
    if !Judges(cfg) {
      forall pings | OnScene(pings, scene) ensures Pings(cfg, antiCfg, pings, scene.distance).1 == [] {
        NoVerdictNoRequest(cfg, antiCfg, pings, scene.distance);
      }
    } else if Muted(cfg, antiCfg) {
      forall pings | OnScene(pings, scene) ensures Pings(cfg, antiCfg, pings, scene.distance).1 == [] {
        MutedIsSilent(cfg, antiCfg, pings, scene.distance);
      }
    } else if MutedTimes(cfg, antiCfg) {
      FirstJudgement(cfg);
      SceneAlerts(scene, cfg, antiCfg, cfg.sampleSize - 1, cfg.sampleSize);
    } else {
      var e := RaiseTime(cfg, antiCfg);
      SceneAlerts(scene, cfg, antiCfg, 0, e);
    }
  }
}
