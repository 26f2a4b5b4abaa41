/** Exactly which pairs of configurations can meet the decision's unexpected branch, on a given distance and route. */
module Surprises {
  import opened Arithmetic
  import opened Common
  import opened Window
  import opened Means
  import opened Detection
  import opened Alerts
  import opened PointHistory
  import opened TwoSides
  import opened Scenes
  import opened Decisions
  import opened Clashes

  /** No moment of the run ended in the unexpected branch. */
  predicate AsExpected(cfg: Config, antiCfg: Config, pings: seq<Context>, distance: Distance)
    requires cfg.Valid() && antiCfg.Valid()
  {
    !Unexpected(Pings(cfg, antiCfg, pings, distance).0) &&
    (pings != [] ==> AsExpected(cfg, antiCfg, pings[..|pings| - 1], distance))
  }

  lemma {:induction false} AsExpectedBefore(cfg: Config, antiCfg: Config, pings: seq<Context>, k: nat,
                                            distance: Distance)
    requires cfg.Valid() && antiCfg.Valid() && AsExpected(cfg, antiCfg, pings, distance) && k <= |pings|
    ensures AsExpected(cfg, antiCfg, pings[..k], distance)
  {
    if k == |pings| {
      assert pings[..k] == pings;
    } else {
      AsExpectedBefore(cfg, antiCfg, pings[..|pings| - 1], k, distance);
      assert pings[..|pings| - 1][..k] == pings[..k];
    }
  }

  lemma {:induction false} FirstSurprise(cfg: Config, antiCfg: Config, pings: seq<Context>, distance: Distance)
    returns (k: nat)
    requires cfg.Valid() && antiCfg.Valid() && !AsExpected(cfg, antiCfg, pings, distance)
    ensures k <= |pings| && Unexpected(Pings(cfg, antiCfg, pings[..k], distance).0)
  {
    if Unexpected(Pings(cfg, antiCfg, pings, distance).0) {
      k := |pings|;
      assert pings[..k] == pings;
    } else {
      k := FirstSurprise(cfg, antiCfg, pings[..|pings| - 1], distance);
      assert pings[..|pings| - 1][..k] == pings[..k];
    }
  }

  ghost predicate ExpectedOnScene(cfg: Config, antiCfg: Config, scene: Scene)
    requires cfg.Valid() && antiCfg.Valid()
  {
    forall pings :: OnScene(pings, scene) ==> !Unexpected(Pings(cfg, antiCfg, pings, scene.distance).0)
  }

  lemma {:induction false} SurpriseOnScene(cfg: Config, antiCfg: Config, pings: seq<Context>, scene: Scene)
    requires cfg.Valid() && antiCfg.Valid() && OnScene(pings, scene)
    requires !AsExpected(cfg, antiCfg, pings, scene.distance)
    ensures !ExpectedOnScene(cfg, antiCfg, scene)
  {
    var k := FirstSurprise(cfg, antiCfg, pings, scene.distance);
    OnSceneBefore(pings, k, scene);
  }

  // ----- a loud run keeps its alarm -----

  /** Without a surprise an alarm of a loud run stays on. */
  lemma {:induction false} LoudStays(cfg: Config, antiCfg: Config, pings: seq<Context>, e: nat, distance: Distance)
    requires Loud(cfg, antiCfg, pings, distance) && AsExpected(cfg, antiCfg, pings, distance)
    requires e <= |pings| && Alarm(Pings(cfg, antiCfg, pings[..e], distance).0.status)
    ensures Alarm(Pings(cfg, antiCfg, pings, distance).0.status)
  {
    if e == |pings| {
      assert pings[..e] == pings;
    } else {
      assert pings[..|pings| - 1][..e] == pings[..e];
      LoudStays(cfg, antiCfg, pings[..|pings| - 1], e, distance);
      LoudStep(cfg, antiCfg, pings, distance);
    }
  }

  /** Without a surprise a loud run raises its alarm at its first judgement. */
  lemma {:induction false} LoudStarts(cfg: Config, antiCfg: Config, pings: seq<Context>, distance: Distance)
    requires Loud(cfg, antiCfg, pings, distance) && AsExpected(cfg, antiCfg, pings, distance)
    requires |pings| > 1 && Heard(cfg, pings, |pings|)
    ensures Alarm(Pings(cfg, antiCfg, pings, distance).0.status)
  {
    var p := pings[..|pings| - 1];
    LoudStep(cfg, antiCfg, pings, distance);
    LoudStep(cfg, antiCfg, p, distance);
    assert AsExpected(cfg, antiCfg, p, distance);
  }

  /** A loud judgement without the way back, when the alarm is on, ends in the unexpected branch. */
  lemma {:induction false} LoudSurprise(cfg: Config, antiCfg: Config, pings: seq<Context>, s: nat, distance: Distance)
    requires Loud(cfg, antiCfg, pings, distance) && 1 < s < |pings| && Heard(cfg, pings, s)
    requires Heard(cfg, pings, |pings|) && !Heard(antiCfg, pings, |pings|)
    requires AsExpected(cfg, antiCfg, pings[..|pings| - 1], distance)
    ensures Unexpected(Pings(cfg, antiCfg, pings, distance).0)
  {
    LoudUntil(cfg, antiCfg, pings, s, distance);
    LoudDrop(cfg, antiCfg, pings, distance);
    LoudStep(cfg, antiCfg, pings, distance);
  }

  /** The violation is judged again at n, and the way back is not: loud pings end in the unexpected branch. */
  lemma LoudClash(cfg: Config, antiCfg: Config, scene: Scene, n: nat)
    requires SameDetector(cfg, antiCfg) && !cfg.OppositeDirection? && Separates(scene, cfg, antiCfg)
    requires JudgesAt(cfg, n) && !JudgesAt(antiCfg, n) && n > cfg.sampleSize
    ensures !ExpectedOnScene(cfg, antiCfg, scene)
  {
    var pings := LoudPings(scene, cfg, antiCfg, n, 0);
    FirstJudgement(cfg);
    LoudScene(scene, cfg, antiCfg, n, 0);
    if AsExpected(cfg, antiCfg, pings, scene.distance) {
      LoudSurprise(cfg, antiCfg, pings, cfg.sampleSize, scene.distance);
    }
    SurpriseOnScene(cfg, antiCfg, pings, scene);
  }

  lemma {:induction false} LoudUntil(cfg: Config, antiCfg: Config, pings: seq<Context>, s: nat, distance: Distance)
    requires Loud(cfg, antiCfg, pings, distance) && 1 < s < |pings| && Heard(cfg, pings, s)
    requires AsExpected(cfg, antiCfg, pings[..|pings| - 1], distance)
    ensures Alarm(Pings(cfg, antiCfg, pings[..|pings| - 1], distance).0.status)
  {
    var p := pings[..|pings| - 1];
    LoudBefore(cfg, antiCfg, pings, |p|, distance);
    LoudBefore(cfg, antiCfg, p, s, distance);
    AsExpectedBefore(cfg, antiCfg, p, s, distance);
    HeardBefore(cfg, pings, |p|, s);
    HeardBefore(cfg, p, s, s);
    LoudStarts(cfg, antiCfg, p[..s], distance);
    LoudStays(cfg, antiCfg, p, s, distance);
  }

  // ----- a quiet run never raises one -----

  /** Whenever it judges, the violation side finds nothing. */
  ghost predicate Quiet(cfg: Config, antiCfg: Config, pings: seq<Context>, distance: Distance) {
    SameDetector(cfg, antiCfg) && !cfg.OppositeDirection? && Says(cfg, pings, false, distance, false)
  }

  lemma QuietDecision(prev: Option<Status>, v: Option<bool>, a: Option<bool>)
    requires v != Some(true) && !Alarm(prev)
    ensures !Alarm(DecisionTree(prev, v, a))
    ensures prev.Some? && v.None? && a.Some? ==> DecisionTree(prev, v, a) == None
  {
  }

  lemma {:induction false} QuietStays(cfg: Config, antiCfg: Config, pings: seq<Context>, distance: Distance)
    requires Quiet(cfg, antiCfg, pings, distance)
    ensures !Alarm(Pings(cfg, antiCfg, pings, distance).0.status)
    ensures pings != [] ==> Pings(cfg, antiCfg, pings, distance).0.violation.Some?
  {
    if pings != [] {
      var p := pings[..|pings| - 1];
      QuietStays(cfg, antiCfg, p, distance);
      PingStep(cfg, antiCfg, pings, distance);
      QuietDecision(Pings(cfg, antiCfg, p, distance).0.status,
                    Verdict(cfg, pings, false, distance), Verdict(antiCfg, pings, true, distance));
    }
  }

  /** A way back without a violation verdict, when the alarm is off, ends in the unexpected branch. */
  lemma {:induction false} OffDrop(cfg: Config, antiCfg: Config, pings: seq<Context>, distance: Distance)
    requires SameDetector(cfg, antiCfg) && pings != []
    requires Verdict(cfg, pings, false, distance).None? && Verdict(antiCfg, pings, true, distance).Some?
    requires var t := Pings(cfg, antiCfg, pings[..|pings| - 1], distance).0; t.status.Some? && !Alarm(t.status)
    ensures Unexpected(Pings(cfg, antiCfg, pings, distance).0)
  {
    PingStep(cfg, antiCfg, pings, distance);
    QuietDecision(Pings(cfg, antiCfg, pings[..|pings| - 1], distance).0.status,
                  Verdict(cfg, pings, false, distance), Verdict(antiCfg, pings, true, distance));
  }

  /** The way back is judged after the quiet pings and the violation is not. */
  lemma {:induction false} QuietClash(cfg: Config, antiCfg: Config, scene: Scene, pings: seq<Context>)
    requires Quiet(cfg, antiCfg, pings, scene.distance) && OnScene(pings, scene)
    requires JudgesAt(antiCfg, |pings|) && !JudgesAt(cfg, |pings|)
    requires pings != [] && cfg.RouteDeviation? ==> OnRoute(pings[|pings| - 1])
    ensures !ExpectedOnScene(cfg, antiCfg, scene)
  {
    VerdictCovers(|pings|, antiCfg.sampleSize, antiCfg.BatchSize());
    SaysReadings(cfg, pings, false, scene.distance, false);
    SameReadings(cfg, antiCfg, pings);
    VerdictGiven(antiCfg, pings, true, scene.distance);
    if AsExpected(cfg, antiCfg, pings, scene.distance) {
      QuietStays(cfg, antiCfg, pings[..|pings| - 1], scene.distance);
      assert AsExpected(cfg, antiCfg, pings[..|pings| - 1], scene.distance);
      OffDrop(cfg, antiCfg, pings, scene.distance);
    }
    SurpriseOnScene(cfg, antiCfg, pings, scene);
  }

  /** Quiet pings of any length, but for a window of one batch once it is judged. */
  lemma QuietPings(cfg: Config, antiCfg: Config, scene: Scene, n: nat) returns (pings: seq<Context>)
    requires SameDetector(cfg, antiCfg) && !cfg.OppositeDirection? && Separates(scene, cfg, antiCfg)
    requires OneBatch(cfg) && Judges(cfg) ==> n < cfg.sampleSize
    ensures |pings| == n && Quiet(cfg, antiCfg, pings, scene.distance) && OnScene(pings, scene)
    ensures n > 0 && cfg.RouteDeviation? ==> OnRoute(pings[n - 1])
  {
    if cfg.Overspeeding? || cfg.RouteDeviation? {
      var ctx := SceneContext(scene, cfg, antiCfg, false);
      SceneDecides(scene, cfg, antiCfg, false);
      StandingSays(cfg, ctx, But(n, 0), false, scene.distance, false);
      pings := Standing(ctx, But(n, 0));
    } else if Judges(cfg) && !OneBatch(cfg) {
      FirstJudgement(cfg);
      MovingSays(cfg, scene, n, false, false);
      pings := Moving(scene, cfg.sampleSize, cfg.BatchSize(), n);
    } else {
      pings := LoudPings(scene, cfg, antiCfg, n, 0);
      NothingSaid(cfg, pings, false, scene.distance, false);
    }
  }

  // ----- a window of one batch -----

  /** Loud for i pings, and the way back found after f. */
  predicate LoudHalf(vs: seq<Both>, s: nat, i: nat, f: nat) {
    1 < s <= i <= f < |vs| && vs[s - 1].0 == Some(true) && AllLoud(vs[..i]) && vs[f].1 == Some(true)
  }

  /** Nothing otherwise, until the other side is judged alone at the end. */
  predicate QuietHalf(vs: seq<Both>, i: nat, f: nat) {
    f + 1 < |vs| && NothingAfter(vs[..f], i) && NothingAfter(vs[..|vs| - 1], f + 1) &&
    vs[|vs| - 1].0.None? && vs[|vs| - 1].1.Some?
  }

  /** The alarm is on until the way back is found and off after it, so that the last decision falls through. */
  lemma SwitchFallsThrough(vs: seq<Both>, s: nat, i: nat, f: nat)
    requires LoudHalf(vs, s, i, f) && QuietHalf(vs, i, f) && AllDecided(vs[..|vs| - 1])
    ensures Decided(vs) == None
  {
    var p, t := vs[..|vs| - 1], f + 1;
    assert p[..i] == vs[..i] && p[..t] == vs[..t];
    AllDecidedBefore(p, i);
    LoudDecided(vs[..i], s);
    StillDecided(vs[..f], i);
    assert vs[..f][..i] == vs[..i];
    AllDecidedBefore(p, t);
    assert vs[..t][..f] == vs[..f];
    SwitchedOff(vs[..t]);
    StillDecided(p, t);
    FallsThrough(vs);
  }

  lemma SwitchUndecided(vs: seq<Both>, s: nat, i: nat, f: nat)
    requires LoudHalf(vs, s, i, f) && QuietHalf(vs, i, f)
    ensures !AllDecided(vs)
  {
    if AllDecided(vs[..|vs| - 1]) {
      SwitchFallsThrough(vs, s, i, f);
    }
  }

  lemma SwitchedOff(vs: seq<Both>)
    requires vs != [] && AllDecided(vs) && Alarm(Decided(vs[..|vs| - 1])) && vs[|vs| - 1].1 == Some(true)
    ensures !Alarm(Decided(vs))
  {
  }

  lemma FallsThrough(vs: seq<Both>)
    requires |vs| > 1 && AllDecided(vs[..|vs| - 1]) && !Alarm(Decided(vs[..|vs| - 1]))
    requires vs[|vs| - 1].0.None? && vs[|vs| - 1].1.Some?
    ensures Decided(vs) == None
  {
  }

  /** Without a surprise every moment has a status. */
  lemma {:induction false} ExpectedIsDecided(cfg: Config, antiCfg: Config, pings: seq<Context>, distance: Distance)
    requires SameDetector(cfg, antiCfg) && !cfg.Overspeeding? && AsExpected(cfg, antiCfg, pings, distance)
    ensures AllDecided(Verdicts(cfg, antiCfg, pings, distance))
  {
    if pings != [] {
      var p := pings[..|pings| - 1];
      ExpectedIsDecided(cfg, antiCfg, p, distance);
      AllReadings(cfg, pings);
      StoredIsDecided(cfg, antiCfg, pings, distance);
      var vs := Verdicts(cfg, antiCfg, pings, distance);
      assert vs[..|vs| - 1] == Verdicts(cfg, antiCfg, p, distance);
    }
  }

  /** First here and then, from ping i + 1 on, there. */
  function Switching(scene: Scene, ctx: Context, i: nat, n: nat): (r: seq<Context>)
    requires i <= n
    ensures |r| == n
  {
    Standing(ctx, Same(i, true)) + Standing(ctx.(location := scene.there), Same(n - i, true))
  }

  lemma SwitchingLocations(scene: Scene, ctx: Context, i: nat, k: nat, n: nat)
    requires i <= k <= n && ctx.location == scene.here
    ensures Locations(Switching(scene, ctx, i, n)[..k]) == Levels(i, scene.here, k - i, scene.there)
  {
  }

  /** m' divides the whole window: its ends are in the two places right after a batch there. */
  lemma SwitchedEnds(s: nat, m: nat, i: nat, a: Point, b: Point)
    requires 0 < m && 2 * m <= s <= i + m && s % m == 0
    ensures var w := Suffix(Levels(i, a, m, b), s); Centroid(w[..m]) == a && Centroid(Suffix(w, m)) == b
  {
    var w := Suffix(Levels(i, a, m, b), s);
    assert w[..m] == Same(m, a) && Suffix(w, m) == Same(m, b);
    CentroidSame(m, a);
    CentroidSame(m, b);
  }

  /** A window of one batch, and a way back over at least as many readings with smaller batches that keep pace. */
  predicate Switchable(cfg: Config, antiCfg: Config) {
    SameDetector(cfg, antiCfg) && !cfg.OppositeDirection? && OneBatch(cfg) && Judges(cfg) &&
    KeepsPace(cfg, antiCfg) && cfg.sampleSize <= antiCfg.sampleSize && antiCfg.BatchSize() < cfg.BatchSize()
  }

  /** The way back has several batches in its window, and is found at the second judgement of the violation. */
  lemma SwitchSizes(cfg: Config, antiCfg: Config)
    requires Switchable(cfg, antiCfg)
    ensures var (s', m, m') := (antiCfg.sampleSize, cfg.BatchSize(), antiCfg.BatchSize());
            cfg.sampleSize == m && 1 < m' && 2 * m' <= m <= s' <= 2 * m && s' % m' == 0 &&
            JudgesAt(cfg, 2 * m) && JudgesAt(antiCfg, 2 * m)
  {
    var (s', m, m') := (antiCfg.sampleSize, cfg.BatchSize(), antiCfg.BatchSize());
    FirstJudgement(cfg);
    VerdictCovers(2 * m, s', m');
    DividesMultiple(2, m, m');
    DividesSum(2 * m - s', s', m');
    TwiceAtLeast(m, m');
  }

  /** Between the last ping here and the next judgement of the way back, only ping 2m is judged. */
  lemma SwitchTimeAt(cfg: Config, antiCfg: Config, j: nat)
    requires Switchable(cfg, antiCfg)
    requires 2 * cfg.BatchSize() - antiCfg.BatchSize() < j < 2 * cfg.BatchSize() + antiCfg.BatchSize()
    requires j != 2 * cfg.BatchSize()
    ensures !JudgesAt(cfg, j) && !JudgesAt(antiCfg, j)
  {
    var t := 2 * cfg.BatchSize();
    SwitchSizes(cfg, antiCfg);
    if j < t {
      NotBetween(cfg, j, t);
      NotBetween(antiCfg, j, t);
    } else {
      NotBetween(cfg, t, j);
      NotBetween(antiCfg, t, j);
    }
  }

  lemma SwitchLast(cfg: Config, antiCfg: Config)
    requires Switchable(cfg, antiCfg)
    ensures var n := 2 * cfg.BatchSize() + antiCfg.BatchSize(); JudgesAt(antiCfg, n) && !JudgesAt(cfg, n)
  {
    var t, m' := 2 * cfg.BatchSize(), antiCfg.BatchSize();
    SwitchSizes(cfg, antiCfg);
    ModUnique(m', 1, 0, m');
    StepDivides(t, m', antiCfg.sampleSize, m');
    NotBetween(cfg, t, t + m');
  }

  lemma TwiceAtLeast(d: nat, m: nat)
    requires 0 < m < d && d % m == 0
    ensures d >= 2 * m
  {
    if d < 2 * m {
      ModUnique(d, 1, d - m, m);
    }
  }

  /** Of two times less than a batch apart at most one is judged. */
  lemma NotBetween(cfg: Config, j: nat, k: nat)
    requires cfg.Valid() && !cfg.OppositeDirection? && j < k < j + cfg.BatchSize()
    ensures !(JudgesAt(cfg, j) && JudgesAt(cfg, k))
  {
    if JudgesAt(cfg, j) && JudgesAt(cfg, k) {
      TimesApart(j, k, cfg.sampleSize, cfg.BatchSize());
    }
  }

  /** Ends further apart than the limit are a way back. */
  lemma FarEnds(antiCfg: Config, ctx: Context, h: seq<Point>, distance: Distance)
    requires (antiCfg.Stopped? || antiCfg.SafetyCheck?) && antiCfg.Valid() && JudgesAt(antiCfg, |h|)
    requires var (s, m) := (antiCfg.sampleSize, antiCfg.BatchSize());
             s % m == 0 &&
             distance(Centroid(Suffix(h, s)[..m]), Centroid(Suffix(Suffix(h, s), m))) > antiCfg.maxDistance as real
    ensures PointVerdictOn(antiCfg, ctx, h, true, distance) == Some(true)
  {
  }

  lemma {:induction false} FoundThere(antiCfg: Config, scene: Scene, pings: seq<Context>, i: nat, m: nat)
    requires (antiCfg.Stopped? || antiCfg.SafetyCheck?) && antiCfg.Valid() && 0 < m == antiCfg.BatchSize()
    requires scene.distance(scene.here, scene.there) > antiCfg.maxDistance as real
    requires 2 * m <= antiCfg.sampleSize <= i + m && JudgesAt(antiCfg, i + m) && antiCfg.sampleSize % m == 0
    requires pings != [] && Locations(pings) == Levels(i, scene.here, m, scene.there)
    ensures Verdict(antiCfg, pings, true, scene.distance) == Some(true)
  {
    var h := Levels(i, scene.here, m, scene.there);
    SwitchedEnds(antiCfg.sampleSize, m, i, scene.here, scene.there);
    FarEnds(antiCfg, pings[|pings| - 1], h, scene.distance);
    PointVerdictNow(antiCfg, pings, true, scene.distance);
  }

  // ----- what is heard -----

  /** What both sides say at the k-th ping. */
  function VerdictsAfter(cfg: Config, antiCfg: Config, pings: seq<Context>, k: nat, distance: Distance): Both
    requires cfg.Valid() && antiCfg.Valid() && 0 < k <= |pings|
  {
    (Verdict(cfg, pings[..k], false, distance), Verdict(antiCfg, pings[..k], true, distance))
  }

  /** The sequence vs is what both sides say, ping by ping. */
  ghost predicate Hears(vs: seq<Both>, cfg: Config, antiCfg: Config, pings: seq<Context>, distance: Distance)
    requires cfg.Valid() && antiCfg.Valid()
  {
    |vs| == |pings| &&
    forall k {:trigger VerdictsAfter(cfg, antiCfg, pings, k, distance)} :: 0 < k <= |pings| ==>
      vs[k - 1] == VerdictsAfter(cfg, antiCfg, pings, k, distance)
  }

  lemma {:induction false} HearsAll(cfg: Config, antiCfg: Config, pings: seq<Context>, distance: Distance)
    returns (vs: seq<Both>)
    requires cfg.Valid() && antiCfg.Valid()
    ensures Hears(vs, cfg, antiCfg, pings, distance)
  {
    vs := Verdicts(cfg, antiCfg, pings, distance);
    forall k | 0 < k <= |pings| ensures vs[k - 1] == VerdictsAfter(cfg, antiCfg, pings, k, distance) {
      VerdictsAt(cfg, antiCfg, pings, k, distance);
    }
  }

  lemma {:induction false} HearsIs(vs: seq<Both>, cfg: Config, antiCfg: Config, pings: seq<Context>, distance: Distance)
    requires cfg.Valid() && antiCfg.Valid() && Hears(vs, cfg, antiCfg, pings, distance)
    ensures vs == Verdicts(cfg, antiCfg, pings, distance)
  {
    var us := Verdicts(cfg, antiCfg, pings, distance);
    forall j | 0 <= j < |pings| ensures us[j] == vs[j] {
      VerdictsAt(cfg, antiCfg, pings, j + 1, distance);
      assert vs[j] == VerdictsAfter(cfg, antiCfg, pings, j + 1, distance);
    }
  }

  lemma {:induction false} HearsDecided(vs: seq<Both>, cfg: Config, antiCfg: Config, pings: seq<Context>,
                                        distance: Distance)
    requires SameDetector(cfg, antiCfg) && !cfg.Overspeeding? && Hears(vs, cfg, antiCfg, pings, distance)
    requires !AllDecided(vs)
    ensures !AsExpected(cfg, antiCfg, pings, distance)
  {
    HearsIs(vs, cfg, antiCfg, pings, distance);
    if AsExpected(cfg, antiCfg, pings, distance) {
      ExpectedIsDecided(cfg, antiCfg, pings, distance);
    }
  }

  /** While the vehicle stands, a violation is found wherever one is judged, and never a way back. */
  lemma {:induction false} LoudHeard(vs: seq<Both>, cfg: Config, antiCfg: Config, scene: Scene, pings: seq<Context>,
                                     k: nat)
    requires SameDetector(cfg, antiCfg) && (cfg.Stopped? || cfg.SafetyCheck?) && Separates(scene, cfg, antiCfg)
    requires 0 < k <= |pings| && pings[..k] == Standing(SceneContext(scene, cfg, antiCfg, true), Same(k, true))
    requires Hears(vs, cfg, antiCfg, pings, scene.distance)
    ensures vs[k - 1].0 != Some(false) && vs[k - 1].1 != Some(true)
    ensures JudgesAt(cfg, k) ==> vs[k - 1].0 == Some(true)
  {
    var ctx, buses := SceneContext(scene, cfg, antiCfg, true), Same(k, true);
    assert vs[k - 1] == VerdictsAfter(cfg, antiCfg, pings, k, scene.distance);
    SceneDecides(scene, cfg, antiCfg, true);
    StandingVerdict(cfg, ctx, buses, false, scene.distance, true);
    StandingVerdict(antiCfg, ctx, buses, true, scene.distance, true);
  }

  lemma {:induction false} AllLoudFrom(vs: seq<Both>)
    requires forall k :: 0 <= k < |vs| ==> vs[k].0 != Some(false) && vs[k].1 != Some(true)
    ensures AllLoud(vs)
  {
    if vs != [] {
      AllLoudFrom(vs[..|vs| - 1]);
    }
  }

  lemma {:induction false} NothingFrom(vs: seq<Both>, i: nat)
    requires forall k :: i <= k < |vs| ==> vs[k] == NOTHING
    ensures NothingAfter(vs, i)
  {
    if |vs| > i {
      NothingFrom(vs[..|vs| - 1], i);
    }
  }

  lemma {:induction false} LoudHears(vs: seq<Both>, cfg: Config, antiCfg: Config, scene: Scene, pings: seq<Context>,
                                     i: nat)
    requires SameDetector(cfg, antiCfg) && (cfg.Stopped? || cfg.SafetyCheck?) && Separates(scene, cfg, antiCfg)
    requires i <= |pings| && pings[..i] == Standing(SceneContext(scene, cfg, antiCfg, true), Same(i, true))
    requires Hears(vs, cfg, antiCfg, pings, scene.distance)
    ensures AllLoud(vs[..i]) && forall k :: 0 < k <= i && JudgesAt(cfg, k) ==> vs[k - 1].0 == Some(true)
  {
    var ctx, us := SceneContext(scene, cfg, antiCfg, true), vs[..i];
    forall k | 0 <= k < i
      ensures us[k].0 != Some(false) && us[k].1 != Some(true) && (JudgesAt(cfg, k + 1) ==> us[k].0 == Some(true))
    {
      StandingBefore(ctx, Same(i, true), k + 1);
      assert Same(i, true)[..k + 1] == Same(k + 1, true) && pings[..i][..k + 1] == pings[..k + 1];
      LoudHeard(vs, cfg, antiCfg, scene, pings, k + 1);
    }
    AllLoudFrom(us);
    forall k | 0 < k <= i && JudgesAt(cfg, k) ensures vs[k - 1].0 == Some(true) {
      assert us[k - 1] == vs[k - 1] && JudgesAt(cfg, (k - 1) + 1);
    }
  }

  /** The way back is found right after a batch there. */
  lemma {:induction false} FoundHeard(vs: seq<Both>, cfg: Config, antiCfg: Config, scene: Scene, pings: seq<Context>,
                                      i: nat, m: nat)
    requires (antiCfg.Stopped? || antiCfg.SafetyCheck?) && cfg.Valid() && antiCfg.Valid()
    requires scene.distance(scene.here, scene.there) > antiCfg.maxDistance as real
    requires 0 < m == antiCfg.BatchSize() && antiCfg.sampleSize % m == 0
    requires 2 * m <= antiCfg.sampleSize <= i + m <= |pings| && JudgesAt(antiCfg, i + m)
    requires Locations(pings[..i + m]) == Levels(i, scene.here, m, scene.there)
    requires Hears(vs, cfg, antiCfg, pings, scene.distance)
    ensures vs[i + m - 1].1 == Some(true)
  {
    FoundThere(antiCfg, scene, pings[..i + m], i, m);
    assert vs[i + m - 1] == VerdictsAfter(cfg, antiCfg, pings, i + m, scene.distance);
  }

  /** Where neither side judges, nothing is heard. */
  lemma {:induction false} NothingHeard(vs: seq<Both>, cfg: Config, antiCfg: Config, pings: seq<Context>, k: nat,
                                        distance: Distance)
    requires SameDetector(cfg, antiCfg) && (cfg.Stopped? || cfg.SafetyCheck?) && 0 < k <= |pings|
    requires !JudgesAt(cfg, k) && !JudgesAt(antiCfg, k) && Hears(vs, cfg, antiCfg, pings, distance)
    ensures vs[k - 1] == NOTHING
  {
    assert vs[k - 1] == VerdictsAfter(cfg, antiCfg, pings, k, distance);
    AllReadings(cfg, pings[..k]);
    AllReadings(antiCfg, pings[..k]);
    VerdictGiven(cfg, pings[..k], false, distance);
    VerdictGiven(antiCfg, pings[..k], true, distance);
  }

  /** At a ping at which only the way back is judged, only that is heard. */
  lemma {:induction false} OwnHeard(vs: seq<Both>, cfg: Config, antiCfg: Config, pings: seq<Context>, k: nat,
                                    distance: Distance)
    requires SameDetector(cfg, antiCfg) && (cfg.Stopped? || cfg.SafetyCheck?) && 0 < k <= |pings|
    requires JudgesAt(antiCfg, k) && !JudgesAt(cfg, k) && Hears(vs, cfg, antiCfg, pings, distance)
    ensures vs[k - 1].0.None? && vs[k - 1].1.Some?
  {
    assert vs[k - 1] == VerdictsAfter(cfg, antiCfg, pings, k, distance);
    AllReadings(cfg, pings[..k]);
    AllReadings(antiCfg, pings[..k]);
    VerdictGiven(cfg, pings[..k], false, distance);
    VerdictGiven(antiCfg, pings[..k], true, distance);
  }

  /** From the end of the standing until the way back is found, and from there until the last ping, nothing is heard. */
  lemma {:induction false} SwitchQuiet(vs: seq<Both>, cfg: Config, antiCfg: Config, pings: seq<Context>, i: nat, f: nat,
                                       m: nat, distance: Distance)
    requires Switchable(cfg, antiCfg) && m == antiCfg.BatchSize() && f + 1 == i + m == 2 * cfg.BatchSize()
    requires |pings| == f + 1 + m && Hears(vs, cfg, antiCfg, pings, distance)
    ensures NothingAfter(vs[..f], i) && NothingAfter(vs[..f + m], f + 1)
  {
    forall k | i <= k < f + m && k != f ensures vs[k] == NOTHING {
      SwitchTimeAt(cfg, antiCfg, k + 1);
      NothingHeard(vs, cfg, antiCfg, pings, k + 1, distance);
    }
    NothingFrom(vs[..f], i);
    NothingFrom(vs[..f + m], f + 1);
  }

  lemma {:induction false} SwitchIsQuietHalf(vs: seq<Both>, cfg: Config, antiCfg: Config, pings: seq<Context>, i: nat,
                                             f: nat, m: nat, distance: Distance)
    requires Switchable(cfg, antiCfg) && m == antiCfg.BatchSize() && f + 1 == i + m == 2 * cfg.BatchSize()
    requires 0 < m && |pings| == f + 1 + m && Hears(vs, cfg, antiCfg, pings, distance)
    ensures QuietHalf(vs, i, f)
  {
    SwitchQuiet(vs, cfg, antiCfg, pings, i, f, m, distance);
    SwitchLast(cfg, antiCfg);
    OwnHeard(vs, cfg, antiCfg, pings, |pings|, distance);
  }

  /** Pings on the scene: i of them here, and then there. */
  lemma SwitchOnScene(cfg: Config, antiCfg: Config, scene: Scene, i: nat, k: nat, n: nat) returns (pings: seq<Context>)
    requires i <= k <= n && !cfg.RouteDeviation?
    ensures |pings| == n && OnScene(pings, scene)
    ensures pings[..i] == Standing(SceneContext(scene, cfg, antiCfg, true), Same(i, true))
    ensures Locations(pings[..k]) == Levels(i, scene.here, k - i, scene.there)
  {
    var ctx := SceneContext(scene, cfg, antiCfg, true);
    pings := Switching(scene, ctx, i, n);
    SwitchingLocations(scene, ctx, i, k, n);
  }

  /** What is heard on them, as far as they are loud. */
  lemma SwitchLoudly(cfg: Config, antiCfg: Config, scene: Scene, i: nat, f: nat, m: nat, n: nat)
    returns (pings: seq<Context>, vs: seq<Both>)
    requires Switchable(cfg, antiCfg) && Separates(scene, cfg, antiCfg) && m == antiCfg.BatchSize()
    requires f + 1 == i + m == 2 * cfg.BatchSize() <= n
    ensures 0 < m && |pings| == n && OnScene(pings, scene) && Hears(vs, cfg, antiCfg, pings, scene.distance)
    ensures LoudHalf(vs, cfg.sampleSize, i, f)
  {
    pings := SwitchOnScene(cfg, antiCfg, scene, i, i + m, n);
    vs := HearsAll(cfg, antiCfg, pings, scene.distance);
    FirstJudgement(cfg);
    SwitchSizes(cfg, antiCfg);
    LoudHears(vs, cfg, antiCfg, scene, pings, i);
    FoundHeard(vs, cfg, antiCfg, scene, pings, i, m);
  }

  /** With a window of one batch the vehicle always stands; the way back with smaller batches is judged too often. */
  lemma SwitchClash(cfg: Config, antiCfg: Config, scene: Scene, i: nat, f: nat, m: nat)
    requires Switchable(cfg, antiCfg) && Separates(scene, cfg, antiCfg) && m == antiCfg.BatchSize()
    requires f + 1 == i + m == 2 * cfg.BatchSize()
    ensures !ExpectedOnScene(cfg, antiCfg, scene)
  {
    var pings, vs := SwitchLoudly(cfg, antiCfg, scene, i, f, m, f + 1 + m);
    SwitchIsQuietHalf(vs, cfg, antiCfg, pings, i, f, m, scene.distance);
    SwitchUndecided(vs, cfg.sampleSize, i, f);
    HearsDecided(vs, cfg, antiCfg, pings, scene.distance);
    SurpriseOnScene(cfg, antiCfg, pings, scene);
  }

  // ----- the pairs -----

  /** A way back that keeps pace but is not compatible is judged at a time of its own. */
  lemma QuietTime(cfg: Config, antiCfg: Config) returns (n: nat)
    requires KeepsPace(cfg, antiCfg) && !cfg.OppositeDirection? && Judges(cfg) && !Compatible(cfg, antiCfg)
    ensures JudgesAt(antiCfg, n) && !JudgesAt(cfg, n)
    ensures antiCfg.sampleSize < cfg.sampleSize ==> n == antiCfg.sampleSize
  {
    var (s, m, s', m') := (cfg.sampleSize, cfg.BatchSize(), antiCfg.sampleSize, antiCfg.BatchSize());
    FirstJudgement(cfg);
    FirstJudgement(antiCfg);
    if !JudgesAt(cfg, s') {
      n := s';
    } else {
      n := s' + m';
      if JudgesAt(cfg, n) {
        StepDivides(s', m', s, m);
        EachDivides(m, m');
        EitherEnd(s' - s, m);
      }
    }
  }

  lemma EachDivides(m: nat, m': nat)
    requires m > 0 && m' > 0 && m % m' == 0 && m' % m == 0
    ensures m == m'
  {
    if m < m' {
      ModUnique(m, 0, m, m');
    } else if m' < m {
      ModUnique(m', 0, m', m);
    }
  }

  lemma EitherEnd(d: nat, m: nat)
    requires m > 0 && d <= m && d % m == 0
    ensures d == 0 || d == m
  {
    if 0 < d < m {
      ModUnique(d, 0, d, m);
    }
  }

  /** A time at which a way back that does not keep pace is missing. */
  lemma LoudTime(cfg: Config, antiCfg: Config) returns (n: nat)
    requires SameDetector(cfg, antiCfg) && !cfg.OppositeDirection? && Judges(cfg) && !KeepsPace(cfg, antiCfg)
    ensures JudgesAt(cfg, n) && !JudgesAt(antiCfg, n) && n > cfg.sampleSize
  {
    var s, m := cfg.sampleSize, cfg.BatchSize();
    FirstJudgement(cfg);
    ModUnique(m, 1, 0, m);
    StepDivides(s + m, m, s, m);
    if JudgesAt(antiCfg, s + m) {
      n := s + 2 * m;
      StepDivides(s + m, m, antiCfg.sampleSize, antiCfg.BatchSize());
    } else {
      n := s + m;
    }
  }

  lemma IncompatibleSurprises(cfg: Config, antiCfg: Config, scene: Scene)
    requires SameDetector(cfg, antiCfg) && Separates(scene, cfg, antiCfg) && !Compatible(cfg, antiCfg)
    ensures !ExpectedOnScene(cfg, antiCfg, scene)
  {
    if !Judges(cfg) {
      FirstJudgement(antiCfg);
      NeverJudges(cfg, antiCfg.sampleSize);
      var pings := QuietPings(cfg, antiCfg, scene, antiCfg.sampleSize);
      QuietClash(cfg, antiCfg, scene, pings);
    } else if !KeepsPace(cfg, antiCfg) {
      var n := LoudTime(cfg, antiCfg);
      LoudClash(cfg, antiCfg, scene, n);
    } else {
      var n := QuietTime(cfg, antiCfg);
      if OneBatch(cfg) && cfg.sampleSize <= antiCfg.sampleSize {
        SmallerBatches(cfg, antiCfg);
        var t, m' := 2 * cfg.BatchSize(), antiCfg.BatchSize();
        SwitchClash(cfg, antiCfg, scene, t - m', t - 1, m');
      } else {
        var pings := QuietPings(cfg, antiCfg, scene, n);
        QuietClash(cfg, antiCfg, scene, pings);
      }
    }
  }

  lemma SmallerBatches(cfg: Config, antiCfg: Config)
    requires KeepsPace(cfg, antiCfg) && !cfg.OppositeDirection? && Judges(cfg) && !Compatible(cfg, antiCfg)
    requires OneBatch(cfg) && cfg.sampleSize <= antiCfg.sampleSize
    ensures antiCfg.BatchSize() < cfg.BatchSize()
  {
    var (m, s', m') := (cfg.BatchSize(), antiCfg.sampleSize, antiCfg.BatchSize());
    FirstJudgement(cfg);
    if m < m' {
      ModUnique(m, 0, m, m');
    } else if m == m' {
      EitherEnd(2 * m - s', m);
    }
  }

  /**
   * For any distance and route on which the thresholds can be told apart: the
   * unexpected branch is out of reach on all pings exactly for compatible
   * configurations.
   */
  lemma NeverUnexpectedIff(cfg: Config, antiCfg: Config, scene: Scene)
    requires SameDetector(cfg, antiCfg) && Separates(scene, cfg, antiCfg)
    ensures ExpectedOnScene(cfg, antiCfg, scene) <==> Compatible(cfg, antiCfg)
  {
    if Compatible(cfg, antiCfg) {
      forall pings | OnScene(pings, scene) ensures !Unexpected(Pings(cfg, antiCfg, pings, scene.distance).0) {
        NoSurprise(cfg, antiCfg, pings, scene.distance);
      }
    } else {
      IncompatibleSurprises(cfg, antiCfg, scene);
    }
  }

  // ----- a failing pair of windows -----

  const SHORT := Overspeeding(2, 1, 10.0)
  const LONG := Overspeeding(4, 1, 10.0)
  const FAST := Context(Point(0.0, 0.0), Some(20.0), true, None)

  /** Two batches against four: the alarm of ping 2 is lost at ping 6, and raised again at ping 8. */
  function StatusAt(n: nat): Option<Status> {
    if n == 0 || n == 6 then None
    else if n == 1 || n == 7 then Some(ContinuedAntiViolation)
    else if n == 2 || n == 8 then Some(Violated)
    else Some(ContinuedViolation)
  }

  lemma FastTimes(n: nat)
    requires 0 < n <= 8
    ensures SHORT.Valid() && LONG.Valid()
    ensures (JudgesAt(SHORT, n) <==> n % 2 == 0) && (JudgesAt(LONG, n) <==> n % 4 == 0)
  {
    assert SHORT.BatchSize() == 2;
    assert LONG.BatchSize() == DivCeil(4, 1) == 1 + DivCeil(3, 1) == 4;
  }

  /** What ping n asks for, given the status before it. */
  lemma FastDecision(n: nat)
    requires 0 < n <= 8
    ensures var v: Option<bool> := if n % 2 == 0 then Some(true) else None;
            var a: Option<bool> := if n % 4 == 0 then Some(false) else None;
            DecisionTree(StatusAt(n - 1), v, a) == StatusAt(n)
  {
  }

  function Fast(n: nat): (r: seq<Context>)
    ensures |r| == n
  {
    Standing(FAST, Same(n, true))
  }

  lemma FastVerdicts(n: nat, distance: Distance)
    requires 0 < n <= 8 && SHORT.Valid() && LONG.Valid()
    ensures Verdict(SHORT, Fast(n), false, distance) == if n % 2 == 0 then Some(true) else None
    ensures Verdict(LONG, Fast(n), true, distance) == if n % 4 == 0 then Some(false) else None
  {
    FastTimes(n);
    StandingVerdict(SHORT, FAST, Same(n, true), false, distance, true);
    StandingVerdict(LONG, FAST, Same(n, true), true, distance, true);
  }

  lemma {:induction false} FastStatus(n: nat, distance: Distance)
    requires n <= 8 && SHORT.Valid() && LONG.Valid()
    ensures Decided(Verdicts(SHORT, LONG, Fast(n), distance)) == StatusAt(n)
  {
    if n > 0 {
      var vs := Verdicts(SHORT, LONG, Fast(n), distance);
      FastStatus(n - 1, distance);
      assert Fast(n)[..n - 1] == Fast(n - 1);
      assert vs[..n - 1] == Verdicts(SHORT, LONG, Fast(n - 1), distance);
      FastVerdicts(n, distance);
      FastDecision(n);
    }
  }

  lemma FastStored(n: nat, distance: Distance)
    requires n <= 8 && SHORT.Valid() && LONG.Valid()
    ensures var t := Pings(SHORT, LONG, Fast(n), distance).0;
            t.status == StatusAt(n) && (n > 0 ==> t.violation.Some?)
  {
    FastStatus(n, distance);
    StandingSays(SHORT, FAST, Same(n, true), false, distance, true);
    SaysReadings(SHORT, Fast(n), false, distance, true);
    StoredIsDecided(SHORT, LONG, Fast(n), distance);
  }

  lemma FastReports(n: nat, distance: Distance)
    requires 0 < n <= 8 && SHORT.Valid() && LONG.Valid()
    requires Pings(SHORT, LONG, Fast(n), distance).0.status == StatusAt(n)
    ensures Directions(Pings(SHORT, LONG, Fast(n), distance).1) ==
            Directions(Pings(SHORT, LONG, Fast(n - 1), distance).1) + Direction(StatusAt(n))
  {
    assert Fast(n)[..n - 1] == Fast(n - 1);
    PingDirections(SHORT, LONG, Fast(n), distance);
  }

  lemma {:induction false} FastRun(n: nat, distance: Distance)
    requires n <= 8 && SHORT.Valid() && LONG.Valid()
    ensures var (t, sent) := Pings(SHORT, LONG, Fast(n), distance);
            t.status == StatusAt(n) && (n > 0 ==> t.violation.Some?) &&
            Directions(sent) == if n < 2 then [] else if n < 8 then [true] else [true, true]
  {
    FastStored(n, distance);
    if n > 0 {
      FastRun(n - 1, distance);
      FastReports(n, distance);
    }
  }

  /** Windows of two and of four readings: six fast pings reach the unexpected branch, eight report violation twice. */
  lemma DifferentWindowsFail(distance: Distance)
    ensures SHORT.Valid() && LONG.Valid()
    ensures Unexpected(Pings(SHORT, LONG, Fast(6), distance).0)
    ensures !Alternates(Pings(SHORT, LONG, Fast(8), distance).1)
  {
    FastRun(6, distance);
    FastRun(8, distance);
    var sent := Pings(SHORT, LONG, Fast(8), distance).1;
    assert Directions(sent)[1] == sent[1].isViolated;
  }
}
