/** How the two sides of a check and the decision play together over every sequence of pings. */
module Alerts {
  import opened Common
  import opened Detection

  // ----- the decision -----

  predicate Alarm(s: Option<Status>) {
    s == Some(Violated) || s == Some(ContinuedViolation)
  }

  /** Requests report violation and relief in turn, beginning with a violation. */
  ghost predicate Alternates(sent: seq<Request>) {
    forall i :: 0 <= i < |sent| ==> (sent[i].isViolated <==> i % 2 == 0)
  }

  /** The latest decision ended in the unexpected branch: there is a state, but no status. */
  predicate Unexpected(t: Track) {
    t.violation.Some? && t.status.None?
  }

  /** The tree falls through exactly when the verdict it needs is missing and the other one is there. */
  lemma TreeFallsThroughIff(prev: Option<Status>, v: Option<bool>, a: Option<bool>)
    ensures DecisionTree(prev, v, a) == None <==>
            prev.Some? && (if Alarm(prev) then v.Some? && a.None? else v.None? && a.Some?)
  {
  }

  /**
   * Otherwise an alarm ends with the anti-violation verdict and begins with the
   * violation verdict, and exactly these two moments ask for a request.
   */
  lemma DecisionSends(prev: Option<Status>, v: Option<bool>, a: Option<bool>)
    requires DecisionTree(prev, v, a).Some?
    ensures var next := DecisionTree(prev, v, a);
            Alarm(next) == (prev.Some? && if Alarm(prev) then a != Some(true) else v == Some(true)) &&
            (next == Some(Violated) <==> !Alarm(prev) && Alarm(next)) &&
            (next == Some(AntiViolated) <==> Alarm(prev) && !Alarm(next))
  {
  }

  lemma DecisionRequests(prev: Option<Status>, v: Option<bool>, a: Option<bool>, violation: State, anti: State,
                         ctx: Context)
    requires DecisionTree(prev, v, a).Some?
    ensures var next := DecisionTree(prev, v, a);
            AlertFor(Some(violation), Some(anti), next, ctx) ==
            if Alarm(next) == Alarm(prev) then None
            else Some(Request(Alarm(next), ctx.location, Detail(if Alarm(next) then violation else anti)))
  {
    DecisionSends(prev, v, a);
  }

  // ----- each side on its own -----

  predicate SameDetector(cfg: Config, antiCfg: Config) {
    cfg.Valid() && antiCfg.Valid() &&
    (cfg.Overspeeding? <==> antiCfg.Overspeeding?) && (cfg.RouteDeviation? <==> antiCfg.RouteDeviation?) &&
    (cfg.Stopped? <==> antiCfg.Stopped?) && (cfg.SafetyCheck? <==> antiCfg.SafetyCheck?)
  }

  /** The same detector over the same window; thresholds may differ. */
  predicate SameWindow(cfg: Config, antiCfg: Config) {
    SameDetector(cfg, antiCfg) &&
    (cfg.OppositeDirection? || (cfg.sampleSize == antiCfg.sampleSize && cfg.BatchSize() == antiCfg.BatchSize()))
  }

  /** A ping that the detector does not look at. */
  predicate Skips(cfg: Config, ctx: Context) {
    cfg.Overspeeding? && ctx.speed.None?
  }

  /** The state of one side after a sequence of pings, as if it ran alone. */
  function Side(cfg: Config, pings: seq<Context>, anti: bool, distance: Distance): Option<State>
    requires cfg.Valid()
  {
    if pings == [] then None
    else
      var before := Side(cfg, pings[..|pings| - 1], anti, distance);
      var c := CheckOne(cfg, pings[|pings| - 1], before, anti, distance);
      if c.Some? then Some(c.value.0) else before
  }

  /** The verdict that the last ping brings on one side. */
  function Verdict(cfg: Config, pings: seq<Context>, anti: bool, distance: Distance): Option<bool>
    requires cfg.Valid() && pings != []
  {
    var before := Side(cfg, pings[..|pings| - 1], anti, distance);
    VerdictOf(CheckOne(cfg, pings[|pings| - 1], before, anti, distance))
  }

  predicate HasReadings(state: Option<State>) {
    state.Some? && state.value.OverspeedingState? ==> state.value.speeds.record != []
  }

  lemma CheckOneSkips(cfg: Config, ctx: Context, state: Option<State>, anti: bool, distance: Distance)
    requires cfg.Valid() && HasReadings(state)
    ensures var c := CheckOne(cfg, ctx, state, anti, distance);
            (c.None? <==> Skips(cfg, ctx)) && HasReadings(StateOf(c))
  {
  }

  lemma {:induction false} SideHasReadings(cfg: Config, pings: seq<Context>, anti: bool, distance: Distance)
    requires cfg.Valid()
    ensures HasReadings(Side(cfg, pings, anti, distance))
  {
    if pings != [] {
      var p := pings[..|pings| - 1];
      SideHasReadings(cfg, p, anti, distance);
      CheckOneSkips(cfg, pings[|pings| - 1], Side(cfg, p, anti, distance), anti, distance);
    }
  }

  lemma {:induction false} SideSkips(cfg: Config, pings: seq<Context>, anti: bool, distance: Distance)
    requires cfg.Valid() && pings != []
    ensures var p, ctx := pings[..|pings| - 1], pings[|pings| - 1];
            CheckOne(cfg, ctx, Side(cfg, p, anti, distance), anti, distance).None? <==> Skips(cfg, ctx)
  {
    var p := pings[..|pings| - 1];
    SideHasReadings(cfg, p, anti, distance);
    CheckOneSkips(cfg, pings[|pings| - 1], Side(cfg, p, anti, distance), anti, distance);
  }

  /** The stored states are those of the two sides alone: neither disturbs the other. */
  lemma {:induction false} SidesAreIndependent(cfg: Config, antiCfg: Config, pings: seq<Context>, distance: Distance)
    requires SameDetector(cfg, antiCfg)
    ensures var t := Pings(cfg, antiCfg, pings, distance).0;
            t.violation == Side(cfg, pings, false, distance) && t.anti == Side(antiCfg, pings, true, distance)
  {
    if pings != [] {
      SidesAreIndependent(cfg, antiCfg, pings[..|pings| - 1], distance);
      SideSkips(cfg, pings, false, distance);
      SideSkips(antiCfg, pings, true, distance);
    }
  }

  /** What one ping adds to the stored track and to the requests. */
  lemma {:induction false} PingStep(cfg: Config, antiCfg: Config, pings: seq<Context>, distance: Distance)
    requires SameDetector(cfg, antiCfg) && pings != []
    ensures var p, ctx := pings[..|pings| - 1], pings[|pings| - 1];
            var (t, sent) := Pings(cfg, antiCfg, p, distance);
            var (t', sent') := Pings(cfg, antiCfg, pings, distance);
            var v, a := Verdict(cfg, pings, false, distance), Verdict(antiCfg, pings, true, distance);
            if Skips(cfg, ctx) then t' == t && sent' == sent && v.None? && a.None?
            else
              t'.violation.Some? && t'.anti.Some? && t'.status == DecisionTree(t.status, v, a) &&
              var request := AlertFor(t'.violation, t'.anti, t'.status, ctx);
              sent' == sent + if request.Some? then [request.value] else []
  {
    SidesAreIndependent(cfg, antiCfg, pings[..|pings| - 1], distance);
    SideSkips(cfg, pings, false, distance);
    SideSkips(antiCfg, pings, true, distance);
  }

  /** The last ping of the run lost an alarm: the way back had no verdict when one was needed. */
  predicate Loses(cfg: Config, antiCfg: Config, pings: seq<Context>, distance: Distance)
    requires cfg.Valid() && antiCfg.Valid() && pings != []
  {
    Alarm(Pings(cfg, antiCfg, pings[..|pings| - 1], distance).0.status) &&
    Pings(cfg, antiCfg, pings, distance).0.status.None?
  }

  /**
   * A ping that does not lose an alarm: the alarm goes on with the violation
   * verdict and off with the anti-violation verdict, and a request is sent
   * exactly when it changes, and says which.
   */
  lemma {:induction false} PingSends(cfg: Config, antiCfg: Config, pings: seq<Context>, distance: Distance)
    requires SameDetector(cfg, antiCfg) && pings != [] && !Loses(cfg, antiCfg, pings, distance)
    ensures var ctx := pings[|pings| - 1];
            var (t, sent) := Pings(cfg, antiCfg, pings[..|pings| - 1], distance);
            var (t', sent') := Pings(cfg, antiCfg, pings, distance);
            var v, a := Verdict(cfg, pings, false, distance), Verdict(antiCfg, pings, true, distance);
            Alarm(t'.status) == (if Alarm(t.status) then a != Some(true) else t.status.Some? && v == Some(true)) &&
            (Alarm(t'.status) != Alarm(t.status) ==> t'.violation.Some? && t'.anti.Some?) &&
            sent' == sent +
              if Alarm(t'.status) == Alarm(t.status) then []
              else
                var at := if Alarm(t'.status) then t'.violation.value else t'.anti.value;
                [Request(Alarm(t'.status), ctx.location, Detail(at))]
  {
    PingStep(cfg, antiCfg, pings, distance);
    var ctx := pings[|pings| - 1];
    if !Skips(cfg, ctx) {
      var prev := Pings(cfg, antiCfg, pings[..|pings| - 1], distance).0.status;
      var t' := Pings(cfg, antiCfg, pings, distance).0;
      var v, a := Verdict(cfg, pings, false, distance), Verdict(antiCfg, pings, true, distance);
      if t'.status.Some? {
        DecisionSends(prev, v, a);
        DecisionRequests(prev, v, a, t'.violation.value, t'.anti.value, ctx);
      } else {
        TreeFallsThroughIff(prev, v, a);
      }
    }
  }

  // ----- alternation -----

  /** No ping of the run lost an alarm. */
  predicate KeepsAlarms(cfg: Config, antiCfg: Config, pings: seq<Context>, distance: Distance)
    requires cfg.Valid() && antiCfg.Valid()
  {
    pings != [] ==>
      KeepsAlarms(cfg, antiCfg, pings[..|pings| - 1], distance) && !Loses(cfg, antiCfg, pings, distance)
  }

  lemma AlternatesGrow(sent: seq<Request>, r: Request)
    requires Alternates(sent) && (r.isViolated <==> |sent| % 2 == 0)
    ensures Alternates(sent + [r]) && (|sent + [r]| % 2 == 1 <==> |sent| % 2 == 0)
  {
  }

  /** The requests tell the truth: they alternate, violation first, and the alarm is what the last one said. */
  ghost predicate Truthful(cfg: Config, antiCfg: Config, pings: seq<Context>, distance: Distance)
    requires cfg.Valid() && antiCfg.Valid()
  {
    var (t, sent) := Pings(cfg, antiCfg, pings, distance);
    Alternates(sent) && (Alarm(t.status) <==> |sent| % 2 == 1)
  }

  /** Whatever the two configurations: as long as no alarm is lost, the requests tell the truth. */
  lemma {:induction false} KeptAlarmsAlternate(cfg: Config, antiCfg: Config, pings: seq<Context>, distance: Distance)
    requires SameDetector(cfg, antiCfg) && KeepsAlarms(cfg, antiCfg, pings, distance)
    ensures Truthful(cfg, antiCfg, pings, distance)
  {
    if pings != [] {
      var p := pings[..|pings| - 1];
      KeptAlarmsAlternate(cfg, antiCfg, p, distance);
      PingSends(cfg, antiCfg, pings, distance);
      var (t, sent) := Pings(cfg, antiCfg, p, distance);
      var (t', sent') := Pings(cfg, antiCfg, pings, distance);
      if Alarm(t'.status) != Alarm(t.status) {
        AlternatesGrow(sent, sent'[|sent|]);
      }
    }
  }

  // ----- equal windows -----

  predicate Opposite(v: Option<bool>, a: Option<bool>) {
    if v.Some? then a == Some(!v.value) else a == None
  }

  /** Over equal windows both checks make the same step; with equal thresholds they contradict each other's verdict. */
  lemma LockstepStep(cfg: Config, antiCfg: Config, ctx: Context, state: Option<State>, distance: Distance)
    requires SameWindow(cfg, antiCfg)
    ensures var v, a := CheckOne(cfg, ctx, state, false, distance), CheckOne(antiCfg, ctx, state, true, distance);
            StateOf(v) == StateOf(a) && (VerdictOf(v).Some? <==> VerdictOf(a).Some?) &&
            (cfg == antiCfg ==> Opposite(VerdictOf(v), VerdictOf(a)))
  {
  }

  lemma {:induction false} SidesAgree(cfg: Config, antiCfg: Config, pings: seq<Context>, distance: Distance)
    requires SameWindow(cfg, antiCfg)
    ensures Side(cfg, pings, false, distance) == Side(antiCfg, pings, true, distance)
  {
    if pings != [] {
      var p := pings[..|pings| - 1];
      SidesAgree(cfg, antiCfg, p, distance);
      LockstepStep(cfg, antiCfg, pings[|pings| - 1], Side(cfg, p, false, distance), distance);
    }
  }

  /**
   * Over equal windows, whatever the thresholds: after any pings the two stored
   * states are equal, and the last ping brought both verdicts or none. With
   * equal thresholds the verdicts are opposite.
   */
  lemma {:induction false} LockstepRun(cfg: Config, antiCfg: Config, pings: seq<Context>, distance: Distance)
    requires SameWindow(cfg, antiCfg)
    ensures var t := Pings(cfg, antiCfg, pings, distance).0; t.violation == t.anti
    ensures pings != [] ==>
      var v, a := Verdict(cfg, pings, false, distance), Verdict(antiCfg, pings, true, distance);
      (v.Some? <==> a.Some?) && (cfg == antiCfg ==> Opposite(v, a))
  {
    SidesAreIndependent(cfg, antiCfg, pings, distance);
    SidesAgree(cfg, antiCfg, pings, distance);
    if pings != [] {
      var p := pings[..|pings| - 1];
      SidesAgree(cfg, antiCfg, p, distance);
      LockstepStep(cfg, antiCfg, pings[|pings| - 1], Side(cfg, p, false, distance), distance);
    }
  }
}
