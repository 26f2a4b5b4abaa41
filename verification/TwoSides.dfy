/**
 * Two configurations of one detector, for violations and for the way back:
 * when they work together, and when the decision can end in its unexpected branch.
 */
module TwoSides {
  import opened Arithmetic
  import opened Window
  import opened Detection
  import opened Alerts
  import opened SpeedHistory
  import opened PointHistory

  // ----- when verdicts come -----

  /** The number of pings that the detector has looked at. */
  function Readings(cfg: Config, pings: seq<Context>): nat {
    if pings == [] then 0
    else Readings(cfg, pings[..|pings| - 1]) + if Skips(cfg, pings[|pings| - 1]) then 0 else 1
  }

  /** The detector judges at its n-th reading. */
  predicate JudgesAt(cfg: Config, n: nat)
    requires cfg.Valid() && !cfg.OppositeDirection?
  {
    VerdictTime(n, cfg.sampleSize, cfg.BatchSize())
  }

  /** The detector ever judges. */
  predicate Judges(cfg: Config)
    requires cfg.Valid() && !cfg.OppositeDirection?
  {
    cfg.sampleSize > 0 && cfg.sampleSize % cfg.BatchSize() != 1 % cfg.BatchSize()
  }

  lemma {:induction false} SpeedReadings(cfg: Config, pings: seq<Context>)
    requires cfg.Overspeeding?
    ensures Readings(cfg, pings) == |Speeds(pings)|
  {
    if pings != [] {
      SpeedReadings(cfg, pings[..|pings| - 1]);
    }
  }

  lemma {:induction false} AllReadings(cfg: Config, pings: seq<Context>)
    requires !cfg.Overspeeding?
    ensures Readings(cfg, pings) == |pings|
  {
    if pings != [] {
      AllReadings(cfg, pings[..|pings| - 1]);
    }
  }

  /** On either side a ping brings a verdict exactly when it is a reading at which the detector judges, and can. */
  lemma {:induction false} VerdictGiven(cfg: Config, pings: seq<Context>, anti: bool, distance: Distance)
    requires cfg.Valid() && !cfg.OppositeDirection? && pings != []
    ensures var ctx := pings[|pings| - 1];
            Verdict(cfg, pings, anti, distance).Some? <==>
            (cfg.Overspeeding? ==> ctx.speed.Some?) && JudgesAt(cfg, Readings(cfg, pings)) &&
            (cfg.RouteDeviation? ==> ctx.bus && ctx.route.Some? && ctx.route.value.deviation.Some?)
  {
    if cfg.Overspeeding? {
      SpeedVerdictNow(cfg, pings, anti, distance);
      SpeedReadings(cfg, pings);
    } else {
      PointVerdictNow(cfg, pings, anti, distance);
      AllReadings(cfg, pings);
    }
  }

  lemma {:induction false} SameReadings(cfg: Config, antiCfg: Config, pings: seq<Context>)
    requires SameDetector(cfg, antiCfg)
    ensures Readings(cfg, pings) == Readings(antiCfg, pings)
  {
    if pings != [] {
      SameReadings(cfg, antiCfg, pings[..|pings| - 1]);
    }
  }

  /** The first judgement is at reading sampleSize, which is not the first reading, and the next one batch later. */
  lemma FirstJudgement(cfg: Config)
    requires cfg.Valid() && !cfg.OppositeDirection?
    ensures Judges(cfg) <==> JudgesAt(cfg, cfg.sampleSize)
    ensures Judges(cfg) ==> cfg.sampleSize > 1 && cfg.BatchSize() > 1 && JudgesAt(cfg, cfg.sampleSize + cfg.BatchSize())
  {
    if Judges(cfg) {
      FirstVerdict(cfg.sampleSize, cfg.BatchSize());
      LaterVerdict(cfg.sampleSize, cfg.BatchSize());
      VerdictCovers(cfg.sampleSize, cfg.sampleSize, cfg.BatchSize());
    }
  }

  lemma NeverJudges(cfg: Config, n: nat)
    requires cfg.Valid() && !cfg.OppositeDirection? && !Judges(cfg)
    ensures !JudgesAt(cfg, n)
  {
  }

  /** Batches that cover the whole window: the centre is compared with itself, and the vehicle always stands. */
  predicate OneBatch(cfg: Config)
    requires cfg.Valid() && !cfg.OppositeDirection?
  {
    !cfg.Overspeeding? && !cfg.RouteDeviation? && cfg.sampleSize == cfg.BatchSize()
  }

  // ----- the way back keeps pace -----

  /**
   * Whenever the violation side judges again after its first time, the way back
   * is judged as well: its next judgement is one, and a batch is made up of
   * whole batches of the other side.
   */
  predicate KeepsPace(cfg: Config, antiCfg: Config) {
    SameDetector(cfg, antiCfg) &&
    (cfg.OppositeDirection? ||
     (Judges(cfg) ==>
        JudgesAt(antiCfg, cfg.sampleSize + cfg.BatchSize()) && cfg.BatchSize() % antiCfg.BatchSize() == 0))
  }

  lemma DividesSum(a: nat, b: nat, m: nat)
    requires m > 0 && a % m == 0
    ensures (a + b) % m == 0 <==> b % m == 0
  {
    var p := a / m;
    assert a == p * m;
    if b % m == 0 {
      var q := b / m;
      assert a + b == (p + q) * m;
      ModUnique(a + b, p + q, 0, m);
    } else if (a + b) % m == 0 {
      var q := (a + b) / m;
      assert b == (q - p) * m;
      ModUnique(b, q - p, 0, m);
    }
  }

  lemma {:induction false} DividesMultiple(k: nat, a: nat, m: nat)
    requires m > 0 && a % m == 0
    ensures (k * a) % m == 0
  {
    if k > 0 {
      DividesMultiple(k - 1, a, m);
      assert k * a == a + (k - 1) * a;
      DividesSum(a, (k - 1) * a, m);
    } else {
      ModUnique(0, 0, 0, m);
    }
  }

  /** A judgement of one side, a multiple of the other side's batch after one of that side's, is one of that side's. */
  lemma PaceKept(n: nat, first: nat, step: nat, s: nat, m: nat)
    requires VerdictTime(first, s, m) && n >= first && step > 0 && (n - first) % step == 0 && step % m == 0
    ensures VerdictTime(n, s, m)
  {
    var k := (n - first) / step;
    assert n - first == k * step;
    DividesMultiple(k, step, m);
    DividesSum(first - s, n - first, m);
  }

  lemma StepsOn(n: nat, s: nat, m: nat)
    requires VerdictTime(n, s, m) && n != s
    ensures n >= s + m && (n - (s + m)) % m == 0
  {
    if n < s + m {
      ModUnique(n - s, 0, n - s, m);
    }
    ModUnique(m, 1, 0, m);
    DividesSum(m, n - s - m, m);
  }

  lemma PaceTimes(cfg: Config, antiCfg: Config, n: nat)
    requires KeepsPace(cfg, antiCfg) && !cfg.OppositeDirection? && JudgesAt(cfg, n) && n != cfg.sampleSize
    ensures JudgesAt(antiCfg, n)
  {
    var s, m := cfg.sampleSize, cfg.BatchSize();
    StepsOn(n, s, m);
    PaceKept(n, s + m, m, antiCfg.sampleSize, antiCfg.BatchSize());
  }

  /** The decision of one ping does not miss the way back while the alarm is on. */
  lemma {:induction false} NoLossStep(cfg: Config, antiCfg: Config, pings: seq<Context>, distance: Distance)
    requires KeepsPace(cfg, antiCfg) && !cfg.OppositeDirection? && pings != []
    requires Alarm(Pings(cfg, antiCfg, pings[..|pings| - 1], distance).0.status) ==>
               Readings(cfg, pings[..|pings| - 1]) >= cfg.sampleSize
    ensures !Loses(cfg, antiCfg, pings, distance)
  {
    var t := Pings(cfg, antiCfg, pings[..|pings| - 1], distance).0;
    var v, a := Verdict(cfg, pings, false, distance), Verdict(antiCfg, pings, true, distance);
    PingStep(cfg, antiCfg, pings, distance);
    VerdictGiven(cfg, pings, false, distance);
    VerdictGiven(antiCfg, pings, true, distance);
    SameReadings(cfg, antiCfg, pings);
    if JudgesAt(cfg, Readings(cfg, pings)) && Readings(cfg, pings) != cfg.sampleSize {
      PaceTimes(cfg, antiCfg, Readings(cfg, pings));
    }
    TreeFallsThroughIff(t.status, v, a);
  }

  /** While the way back keeps pace, no alarm comes before the first full window, and none is lost. */
  lemma {:induction false} PaceKeepsAlarms(cfg: Config, antiCfg: Config, pings: seq<Context>, distance: Distance)
    requires KeepsPace(cfg, antiCfg) && !cfg.OppositeDirection?
    ensures KeepsAlarms(cfg, antiCfg, pings, distance)
    ensures Alarm(Pings(cfg, antiCfg, pings, distance).0.status) ==> Readings(cfg, pings) >= cfg.sampleSize
  {
    if pings != [] {
      PaceKeepsAlarms(cfg, antiCfg, pings[..|pings| - 1], distance);
      NoLossStep(cfg, antiCfg, pings, distance);
      PingSends(cfg, antiCfg, pings, distance);
      VerdictGiven(cfg, pings, false, distance);
    }
  }

  /** Neither is one in opposite direction. */
  lemma {:induction false} OppositeKeepsAlarms(cfg: Config, antiCfg: Config, pings: seq<Context>, distance: Distance)
    requires KeepsPace(cfg, antiCfg) && cfg.OppositeDirection?
    ensures KeepsAlarms(cfg, antiCfg, pings, distance) && !Unexpected(Pings(cfg, antiCfg, pings, distance).0)
  {
    if pings != [] {
      OppositeKeepsAlarms(cfg, antiCfg, pings[..|pings| - 1], distance);
      LockstepRun(cfg, antiCfg, pings, distance);
      PingStep(cfg, antiCfg, pings, distance);
      TreeFallsThroughIff(Pings(cfg, antiCfg, pings[..|pings| - 1], distance).0.status,
                          Verdict(cfg, pings, false, distance), Verdict(antiCfg, pings, true, distance));
    }
  }

  /**
   * For every detector whose way back keeps pace, with any thresholds, and every
   * sequence of pings: the requests alternate, beginning with a violation, and
   * the alarm is on after an odd number of them.
   */
  lemma {:induction false} AlertsAlternate(cfg: Config, antiCfg: Config, pings: seq<Context>, distance: Distance)
    requires KeepsPace(cfg, antiCfg)
    ensures var (t, sent) := Pings(cfg, antiCfg, pings, distance);
            Alternates(sent) && (Alarm(t.status) <==> |sent| % 2 == 1)
  {
    if cfg.OppositeDirection? {
      OppositeKeepsAlarms(cfg, antiCfg, pings, distance);
    } else {
      PaceKeepsAlarms(cfg, antiCfg, pings, distance);
    }
    KeptAlarmsAlternate(cfg, antiCfg, pings, distance);
  }

  // ----- windows that never meet the unexpected branch -----

  /**
   * Both sides never judge, or their batches are equal and the way back is
   * judged over the same sample size or one batch more.
   */
  predicate Compatible(cfg: Config, antiCfg: Config) {
    SameDetector(cfg, antiCfg) &&
    (cfg.OppositeDirection? ||
     (!Judges(cfg) && !Judges(antiCfg)) ||
     (cfg.BatchSize() == antiCfg.BatchSize() &&
      (antiCfg.sampleSize == cfg.sampleSize || antiCfg.sampleSize == cfg.sampleSize + cfg.BatchSize())))
  }

  lemma SameWindowIsCompatible(cfg: Config, antiCfg: Config)
    requires SameWindow(cfg, antiCfg)
    ensures Compatible(cfg, antiCfg)
  {
  }

  lemma ModLess(n: nat, m: nat)
    requires m > 0
    ensures (n + m) % m == n % m
  {
    RestIsMod(n + m, m);
    RestIsMod(n, m);
  }

  /** One more batch in the sample only takes away the first verdict. */
  lemma OneBatchMore(n: nat, s: nat, m: nat)
    requires 0 < m <= s
    ensures VerdictTime(n, s + m, m) <==> VerdictTime(n, s, m) && n != s
  {
    ModLess(s, m);
    if n >= s + m {
      ModLess(n - s - m, m);
    } else if n > s {
      ModUnique(n - s, 0, n - s, m);
    }
  }

  lemma CompatibleTimes(cfg: Config, antiCfg: Config, n: nat)
    requires Compatible(cfg, antiCfg) && !cfg.OppositeDirection?
    ensures JudgesAt(antiCfg, n) ==> JudgesAt(cfg, n)
    ensures JudgesAt(cfg, n) && n != cfg.sampleSize ==> JudgesAt(antiCfg, n)
  {
    if antiCfg.sampleSize != cfg.sampleSize && cfg.sampleSize > 0 && cfg.BatchSize() == antiCfg.BatchSize() &&
       antiCfg.sampleSize == cfg.sampleSize + cfg.BatchSize() {
      OneBatchMore(n, cfg.sampleSize, cfg.BatchSize());
    }
  }

  lemma CompatibleKeepsPace(cfg: Config, antiCfg: Config)
    requires Compatible(cfg, antiCfg)
    ensures KeepsPace(cfg, antiCfg)
  {
    if !cfg.OppositeDirection? && Judges(cfg) {
      FirstJudgement(cfg);
      CompatibleTimes(cfg, antiCfg, cfg.sampleSize + cfg.BatchSize());
      ModUnique(cfg.BatchSize(), 1, 0, cfg.BatchSize());
    }
  }

  /** The decision of one ping has what it needs. */
  lemma {:induction false} NoSurpriseStep(cfg: Config, antiCfg: Config, pings: seq<Context>, distance: Distance)
    requires Compatible(cfg, antiCfg) && !cfg.OppositeDirection? && pings != []
    requires var t := Pings(cfg, antiCfg, pings[..|pings| - 1], distance).0;
             Alarm(t.status) ==> Readings(cfg, pings[..|pings| - 1]) >= cfg.sampleSize
    ensures var t := Pings(cfg, antiCfg, pings[..|pings| - 1], distance).0;
            var v, a := Verdict(cfg, pings, false, distance), Verdict(antiCfg, pings, true, distance);
            DecisionTree(t.status, v, a).Some? || Skips(cfg, pings[|pings| - 1])
  {
    var t := Pings(cfg, antiCfg, pings[..|pings| - 1], distance).0;
    var v, a := Verdict(cfg, pings, false, distance), Verdict(antiCfg, pings, true, distance);
    VerdictGiven(cfg, pings, false, distance);
    VerdictGiven(antiCfg, pings, true, distance);
    SameReadings(cfg, antiCfg, pings);
    CompatibleTimes(cfg, antiCfg, Readings(cfg, pings));
    TreeFallsThroughIff(t.status, v, a);
  }

  /** Compatible configurations never reach the unexpected branch. */
  lemma {:induction false} NoSurprise(cfg: Config, antiCfg: Config, pings: seq<Context>, distance: Distance)
    requires Compatible(cfg, antiCfg)
    ensures !Unexpected(Pings(cfg, antiCfg, pings, distance).0)
  {
    CompatibleKeepsPace(cfg, antiCfg);
    if cfg.OppositeDirection? {
      OppositeKeepsAlarms(cfg, antiCfg, pings, distance);
    } else if pings != [] {
      var p := pings[..|pings| - 1];
      NoSurprise(cfg, antiCfg, p, distance);
      PaceKeepsAlarms(cfg, antiCfg, p, distance);
      NoSurpriseStep(cfg, antiCfg, pings, distance);
      PingStep(cfg, antiCfg, pings, distance);
    }
  }
}
