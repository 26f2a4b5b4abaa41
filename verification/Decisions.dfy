/** The decision as a function of the verdicts of both sides, ping by ping. */
module Decisions {
  import opened Common
  import opened Detection
  import opened Alerts
  import opened TwoSides

  /** The verdicts of both sides at one ping. */
  type Both = (Option<bool>, Option<bool>)

  const NOTHING: Both := (None, None)

  /** The status after a sequence of verdicts. */
  function Decided(vs: seq<Both>): Option<Status> {
    if vs == [] then None
    else DecisionTree(Decided(vs[..|vs| - 1]), vs[|vs| - 1].0, vs[|vs| - 1].1)
  }

  function Verdicts(cfg: Config, antiCfg: Config, pings: seq<Context>, distance: Distance): (r: seq<Both>)
    requires cfg.Valid() && antiCfg.Valid()
    ensures |r| == |pings|
  {
    if pings == [] then []
    else
      Verdicts(cfg, antiCfg, pings[..|pings| - 1], distance) +
      [(Verdict(cfg, pings, false, distance), Verdict(antiCfg, pings, true, distance))]
  }

  lemma {:induction false} FewReadings(cfg: Config, pings: seq<Context>)
    ensures Readings(cfg, pings) <= |pings|
  {
    if pings != [] {
      FewReadings(cfg, pings[..|pings| - 1]);
    }
  }

  /** When the detector looks at every ping, the stored status is decided by the verdicts alone. */
  lemma {:induction false} StoredIsDecided(cfg: Config, antiCfg: Config, pings: seq<Context>, distance: Distance)
    requires SameDetector(cfg, antiCfg) && Readings(cfg, pings) == |pings|
    ensures var t := Pings(cfg, antiCfg, pings, distance).0;
            t.status == Decided(Verdicts(cfg, antiCfg, pings, distance)) && (pings != [] ==> t.violation.Some?)
  {
    if pings != [] {
      FewReadings(cfg, pings[..|pings| - 1]);
      StoredIsDecided(cfg, antiCfg, pings[..|pings| - 1], distance);
      PingStep(cfg, antiCfg, pings, distance);
    }
  }

  lemma {:induction false} VerdictsBefore(cfg: Config, antiCfg: Config, pings: seq<Context>, k: nat, distance: Distance)
    requires cfg.Valid() && antiCfg.Valid() && k <= |pings|
    ensures Verdicts(cfg, antiCfg, pings[..k], distance) == Verdicts(cfg, antiCfg, pings, distance)[..k]
  {
    if k == |pings| {
      assert pings[..k] == pings;
    } else {
      VerdictsBefore(cfg, antiCfg, pings[..|pings| - 1], k, distance);
      assert pings[..|pings| - 1][..k] == pings[..k];
    }
  }

  lemma {:induction false} VerdictsAt(cfg: Config, antiCfg: Config, pings: seq<Context>, k: nat, distance: Distance)
    requires cfg.Valid() && antiCfg.Valid() && 0 < k <= |pings|
    ensures Verdicts(cfg, antiCfg, pings, distance)[k - 1] ==
            (Verdict(cfg, pings[..k], false, distance), Verdict(antiCfg, pings[..k], true, distance))
  {
    if k == |pings| {
      assert pings[..k] == pings;
    } else {
      VerdictsAt(cfg, antiCfg, pings[..|pings| - 1], k, distance);
      assert pings[..|pings| - 1][..k] == pings[..k];
    }
  }

  /** Every moment has a status. */
  predicate AllDecided(vs: seq<Both>) {
    vs == [] || (AllDecided(vs[..|vs| - 1]) && Decided(vs).Some?)
  }

  /** A violation wherever one is judged, and never a way back. */
  predicate AllLoud(vs: seq<Both>) {
    vs == [] || (AllLoud(vs[..|vs| - 1]) && vs[|vs| - 1].0 != Some(false) && vs[|vs| - 1].1 != Some(true))
  }

  /** With a violation verdict at s and no way back found, the alarm is on from then on. */
  lemma {:induction false} LoudDecided(vs: seq<Both>, s: nat)
    requires AllDecided(vs) && AllLoud(vs) && 1 < s <= |vs| && vs[s - 1].0 == Some(true)
    ensures Alarm(Decided(vs))
  {
    var p := vs[..|vs| - 1];
    assert Decided(p).Some?;
    if s < |vs| {
      LoudDecided(p, s);
    }
  }

  /** No verdicts after the first i pings. */
  predicate NothingAfter(vs: seq<Both>, i: nat) {
    |vs| > i ==> NothingAfter(vs[..|vs| - 1], i) && vs[|vs| - 1] == NOTHING
  }

  /** Without verdicts the alarm stays as it is. */
  lemma {:induction false} StillDecided(vs: seq<Both>, i: nat)
    requires i <= |vs| && NothingAfter(vs, i)
    ensures Alarm(Decided(vs)) == Alarm(Decided(vs[..i]))
  {
    if i == |vs| {
      assert vs[..i] == vs;
    } else {
      StillDecided(vs[..|vs| - 1], i);
      assert vs[..|vs| - 1][..i] == vs[..i];
    }
  }

  lemma {:induction false} AllDecidedBefore(vs: seq<Both>, k: nat)
    requires AllDecided(vs) && k <= |vs|
    ensures AllDecided(vs[..k])
  {
    if k == |vs| {
      assert vs[..k] == vs;
    } else {
      AllDecidedBefore(vs[..|vs| - 1], k);
      assert vs[..|vs| - 1][..k] == vs[..k];
    }
  }

  const TORN: Both := (Some(true), Some(true))

  /** Verdicts for both at s and at the end, and none before and between: the alarm goes on and off. */
  lemma TornDecided(vs: seq<Both>, s: nat)
    requires 1 < s < |vs| && vs[s - 1] == TORN && vs[|vs| - 1] == TORN
    requires NothingAfter(vs[..s - 1], 0) && NothingAfter(vs[..|vs| - 1], s)
    ensures !Alarm(Decided(vs))
  {
    var n := |vs|;
    assert vs[..s - 1][..0] == [];
    StillDecided(vs[..s - 1], 0);
    QuietHasStatus(vs[..s - 1]);
    assert vs[..s][..s - 1] == vs[..s - 1];
    assert Alarm(Decided(vs[..s]));
    StillDecided(vs[..n - 1], s);
    assert vs[..n - 1][..s] == vs[..s];
  }

  lemma QuietHasStatus(vs: seq<Both>)
    requires vs != [] && vs[|vs| - 1] == NOTHING
    ensures Decided(vs).Some?
  {
  }
}
