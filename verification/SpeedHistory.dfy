/** The overspeeding check as a function of all the speeds that a vehicle has reported. */
module SpeedHistory {
  import opened Arithmetic
  import opened Common
  import opened Window
  import opened Means
  import opened Detection
  import opened Alerts

  function Speeds(pings: seq<Context>): seq<real> {
    if pings == [] then []
    else
      var last := pings[|pings| - 1];
      if last.speed.Some? then Speeds(pings[..|pings| - 1]) + [last.speed.value] else Speeds(pings[..|pings| - 1])
  }

  /** The state that a history of speeds stands for. */
  function SpeedStateOn(cfg: Config, h: seq<real>): Option<State>
    requires cfg.Overspeeding? && cfg.Valid()
  {
    if h == [] then None
    else Some(OverspeedingState(Run(h, cfg.sampleSize, cfg.BatchSize(), MergeReal, false).value))
  }

  /** The average that a verdict on the history h is about: the mean of the batch means of the latest s speeds. */
  function JudgedSpeed(h: seq<real>, s: nat, m: nat): real
    requires VerdictTime(|h|, s, m)
  {
    BatchesNonempty(Suffix(h, s), m, MergeReal);
    MeanOfMeans(Batches(Suffix(h, s), m, MergeReal))
  }

  /** The verdict on a history of speeds. */
  function SpeedVerdictOn(cfg: Config, h: seq<real>, anti: bool): Option<bool>
    requires cfg.Overspeeding? && cfg.Valid()
  {
    if VerdictTime(|h|, cfg.sampleSize, cfg.BatchSize())
    then Some(SpeedVerdict(JudgedSpeed(h, cfg.sampleSize, cfg.BatchSize()), cfg.speedLimit, anti))
    else None
  }

  lemma RunIsNonempty<T>(h: seq<T>, s: nat, m: nat, merge: Merge<T>, reclone: bool)
    requires m <= s && h != []
    ensures Run(h, s, m, merge, reclone).value.record != []
  {
  }

  /** The outcome that a window and a due flag lead to. */
  function SpeedOutcome(cfg: Config, step: (Window<real>, bool), anti: bool): (State, Option<bool>)
    requires cfg.Overspeeding? && step.0.record != []
  {
    (OverspeedingState(step.0),
     if step.1 then Some(SpeedVerdict(MeanOfMeans(step.0.record), cfg.speedLimit, anti)) else None)
  }

  lemma CheckSpeedStep(cfg: Config, ctx: Context, w: Option<Window<real>>, speed: real, anti: bool)
    requires cfg.Overspeeding? && cfg.Valid() && ctx.speed == Some(speed) && (w.Some? ==> w.value.record != [])
    ensures var step := Step(w, speed, cfg.sampleSize, cfg.BatchSize(), MergeReal, false);
            step.0.record != [] &&
            CheckSpeed(cfg, ctx, if w.Some? then Some(OverspeedingState(w.value)) else None, anti) ==
              Some(SpeedOutcome(cfg, step, anti))
  {
  }

  lemma SpeedOutcomeOn(cfg: Config, h: seq<real>, anti: bool)
    requires cfg.Overspeeding? && cfg.Valid() && h != []
    ensures var w := Run(h, cfg.sampleSize, cfg.BatchSize(), MergeReal, false).value;
            w.record != [] &&
            SpeedOutcome(cfg, (w, Due(h, cfg.sampleSize, cfg.BatchSize(), MergeReal, false)), anti) ==
              (SpeedStateOn(cfg, h).value, SpeedVerdictOn(cfg, h, anti))
  {
    var s, m := cfg.sampleSize, cfg.BatchSize();
    RunIsNonempty(h, s, m, MergeReal, false);
    VerdictTimes(h, s, m, MergeReal, false);
    if VerdictTime(|h|, s, m) {
      VerdictRecord(h, s, m, MergeReal, false);
    }
  }

  /** One check on a history of speeds extends the history, and judges it. */
  lemma CheckSpeedOn(cfg: Config, ctx: Context, h: seq<real>, anti: bool)
    requires cfg.Overspeeding? && cfg.Valid()
    ensures CheckSpeed(cfg, ctx, SpeedStateOn(cfg, h), anti) ==
            if ctx.speed.None? then None
            else
              var longer := h + [ctx.speed.value];
              Some((SpeedStateOn(cfg, longer).value, SpeedVerdictOn(cfg, longer, anti)))
  {
    var s, m := cfg.sampleSize, cfg.BatchSize();
    if h != [] {
      RunIsNonempty(h, s, m, MergeReal, false);
    }
    if ctx.speed.Some? {
      RunStep(h, ctx.speed.value, s, m, MergeReal, false);
      CheckSpeedStep(cfg, ctx, Run(h, s, m, MergeReal, false), ctx.speed.value, anti);
      SpeedOutcomeOn(cfg, h + [ctx.speed.value], anti);
    }
  }

  /** On either side the stored window is the window over all speeds so far; a ping without a speed changes nothing. */
  lemma {:induction false} SpeedSide(cfg: Config, pings: seq<Context>, anti: bool, distance: Distance)
    requires cfg.Overspeeding? && cfg.Valid()
    ensures Side(cfg, pings, anti, distance) == SpeedStateOn(cfg, Speeds(pings))
  {
    if pings != [] {
      SpeedSide(cfg, pings[..|pings| - 1], anti, distance);
      CheckSpeedOn(cfg, pings[|pings| - 1], Speeds(pings[..|pings| - 1]), anti);
    }
  }

  /** Whatever the two configurations, each stored window is the window over all speeds so far. */
  lemma {:induction false} SpeedState(cfg: Config, antiCfg: Config, pings: seq<Context>, distance: Distance)
    requires cfg.Overspeeding? && antiCfg.Overspeeding? && cfg.Valid() && antiCfg.Valid()
    ensures var t := Pings(cfg, antiCfg, pings, distance).0;
            t.violation == SpeedStateOn(cfg, Speeds(pings)) && t.anti == SpeedStateOn(antiCfg, Speeds(pings))
  {
    SidesAreIndependent(cfg, antiCfg, pings, distance);
    SpeedSide(cfg, pings, false, distance);
    SpeedSide(antiCfg, pings, true, distance);
  }

  /** The verdict of a ping, on either side. */
  lemma {:induction false} SpeedVerdictNow(cfg: Config, pings: seq<Context>, anti: bool, distance: Distance)
    requires cfg.Overspeeding? && cfg.Valid() && pings != []
    ensures Verdict(cfg, pings, anti, distance) ==
            if pings[|pings| - 1].speed.Some? then SpeedVerdictOn(cfg, Speeds(pings), anti) else None
  {
    SpeedSide(cfg, pings[..|pings| - 1], anti, distance);
    CheckSpeedOn(cfg, pings[|pings| - 1], Speeds(pings[..|pings| - 1]), anti);
  }

  // ----- the judged average and the true mean -----

  /** When the batch size divides the sample size, the judged average is the true mean of the latest s speeds. */
  lemma TrueMeanVerdict(h: seq<real>, s: nat, m: nat)
    requires VerdictTime(|h|, s, m) && s % m == 0
    ensures JudgedSpeed(h, s, m) == Mean(Suffix(h, s))
  {
    RestIsMod(s, m);
    MeanOfMeansIsMean(Suffix(h, s), m);
  }

  /** Judging h against the limit comes out as it would for the true mean of the latest s speeds. */
  ghost predicate JudgedRightly(h: seq<real>, limit: real, s: nat, m: nat) {
    VerdictTime(|h|, s, m) ==> (JudgedSpeed(h, s, m) > limit <==> Mean(Suffix(h, s)) > limit)
  }

  /** A history whose mean is the limit is judged to lie above it. */
  lemma SkewedVerdict(s: nat, m: nat)
    requires VerdictTime(s, s, m) && Rest(s, m) > 0
    ensures exists h :: !JudgedRightly(h, 0.0, s, m)
  {
    var h := Skewed(s, m, 0.0, 1.0);
    assert Suffix(h, s) == h;
    assert !JudgedRightly(h, 0.0, s, m);
  }

  lemma FirstVerdict(s: nat, m: nat)
    requires Sized(s, m) && s % m != 1 % m
    ensures VerdictTime(s, s, m)
  {
    ModUnique(0, 0, 0, m);
  }

  /** Verdicts on all histories and limits are about the true mean exactly for sample sizes that leave at most one. */
  lemma TrueMeanIff(s: nat, m: nat)
    requires Sized(s, m)
    ensures (forall h, limit :: JudgedRightly(h, limit, s, m)) <==> s % m <= 1
  {
    if s % m > 1 {
      RestIsMod(s, m);
      RestIsMod(1, m);
      FirstVerdict(s, m);
      SkewedVerdict(s, m);
    } else {
      forall h, limit ensures JudgedRightly(h, limit, s, m) {
        if VerdictTime(|h|, s, m) {
          RestIsMod(s, m);
          RestIsMod(1, m);
          TrueMeanVerdict(h, s, m);
        }
      }
    }
  }

  // ----- steady speeds -----

  /** Judging one and the same speed is about that speed. */
  lemma SteadySpeed(n: nat, v: real, s: nat, m: nat)
    requires VerdictTime(n, s, m)
    ensures JudgedSpeed(Same(n, v), s, m) == v
  {
    SameSuffix(n, v, s);
    SameJudged(s, v, m);
  }

  lemma SameSuffix<T>(n: nat, v: T, s: nat)
    requires s <= n
    ensures Suffix(Same(n, v), s) == Same(s, v)
  {
  }
}
