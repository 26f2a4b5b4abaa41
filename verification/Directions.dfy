/** The opposite-direction detector: it compares the stops ahead with the fewest seen so far. */
module Directions {
  import opened Common
  import opened Detection
  import opened Alerts
  import opened TwoSides
  import opened Alarms

  // ----- what has been seen -----

  /** A bus on a route; any other ping makes the detector start again. */
  predicate Drives(ctx: Context) {
    ctx.bus && ctx.route.Some?
  }

  /** The latest ping at which the detector started: the first one, or the latest that no bus on a route sent. */
  function LastStart(pings: seq<Context>): (k: nat)
    requires pings != []
    ensures k < |pings| && (k == 0 || !Drives(pings[k]))
    ensures forall i :: k < i < |pings| ==> Drives(pings[i])
  {
    var n := |pings| - 1;
    if n == 0 || !Drives(pings[n]) then n else LastStart(pings[..n])
  }

  /** The numbers of stops ahead that pings i, i + 1, ... told, where the route told one. */
  function StopCounts(pings: seq<Context>, i: nat): seq<nat>
    requires i <= |pings|
  {
    if i == |pings| then []
    else
      var ctx := pings[|pings| - 1];
      StopCounts(pings[..|pings| - 1], i) +
      if ctx.route.Some? && ctx.route.value.upcomingStops.Some? then [ctx.route.value.upcomingStops.value] else []
  }

  function Least(ns: seq<nat>): (m: nat)
    requires ns != []
    ensures m in ns && forall n :: n in ns ==> m <= n
  {
    var last := ns[|ns| - 1];
    if |ns| == 1 then last
    else
      var rest := Least(ns[..|ns| - 1]);
      assert forall n :: n in ns ==> n in ns[..|ns| - 1] || n == last;
      if rest <= last then rest else last
  }

  /** The fewest stops ahead since the detector last started, a million before any. */
  function FewestStops(pings: seq<Context>): nat
    requires pings != []
  {
    Least([1_000_000] + StopCounts(pings, LastStart(pings) + 1))
  }

  lemma LeastAppend(ns: seq<nat>, n: nat)
    requires ns != []
    ensures Least(ns + [n]) == Min(Least(ns), n)
  {
    assert (ns + [n])[..|ns|] == ns;
  }

  /** What one more ping of a bus on a route does to the fewest stops. */
  lemma {:induction false} FewestStep(pings: seq<Context>)
    requires |pings| > 1 && Drives(pings[|pings| - 1])
    ensures var p, count := pings[..|pings| - 1], pings[|pings| - 1].route.value.upcomingStops;
            LastStart(pings) == LastStart(p) &&
            FewestStops(pings) == if count.Some? then Min(FewestStops(p), count.value) else FewestStops(p)
  {
    var p, count := pings[..|pings| - 1], pings[|pings| - 1].route.value.upcomingStops;
    var before := [1_000_000] + StopCounts(p, LastStart(p) + 1);
    if count.Some? {
      LeastAppend(before, count.value);
      assert [1_000_000] + StopCounts(pings, LastStart(pings) + 1) == before + [count.value];
    } else {
      assert [1_000_000] + StopCounts(pings, LastStart(pings) + 1) == before;
    }
  }

  lemma {:induction false} FewestAtStart(pings: seq<Context>)
    requires pings != [] && LastStart(pings) == |pings| - 1
    ensures FewestStops(pings) == 1_000_000
  {
    assert [1_000_000] + StopCounts(pings, |pings|) == [1_000_000];
  }

  // ----- the stored state -----

  lemma {:induction false} DirectionSide(pings: seq<Context>, anti: bool, distance: Distance)
    requires pings != []
    ensures Side(OppositeDirection, pings, anti, distance) ==
            Some(OppositeState(|pings| - 1 - LastStart(pings), FewestStops(pings)))
  {
    var n := |pings| - 1;
    if n > 0 && Drives(pings[n]) {
      DirectionSide(pings[..n], anti, distance);
      FewestStep(pings);
    } else {
      FewestAtStart(pings);
    }
  }

  /**
   * After any pings both sides have counted the pings since the detector last
   * started, and expect the fewest stops told since then, or a million.
   */
  lemma {:induction false} DirectionState(pings: seq<Context>, distance: Distance)
    requires pings != []
    ensures var t := Pings(OppositeDirection, OppositeDirection, pings, distance).0;
            t.violation == t.anti == Some(OppositeState(|pings| - 1 - LastStart(pings), FewestStops(pings)))
  {
    SidesAreIndependent(OppositeDirection, OppositeDirection, pings, distance);
    DirectionSide(pings, false, distance);
    DirectionSide(pings, true, distance);
  }

  // ----- the verdicts -----

  /** Ping k is judged: there is a state, and a bus on a route whose stops ahead are known. */
  predicate Compared(pings: seq<Context>, k: nat)
    requires k < |pings|
  {
    k > 0 && pings[k].bus && pings[k].route.Some? && pings[k].route.value.upcomingStops.Some?
  }

  /** More stops lie ahead of ping k than of some ping before it since the detector last started. */
  predicate WrongWay(pings: seq<Context>, k: nat)
    requires k < |pings| && Compared(pings, k)
  {
    pings[k].route.value.upcomingStops.value > FewestStops(pings[..k])
  }

  /** A ping brings a verdict exactly when it is judged: a violation the wrong way, the way back the right way. */
  lemma {:induction false} DirectionVerdict(pings: seq<Context>, anti: bool, distance: Distance)
    requires pings != []
    ensures var n := |pings| - 1;
            Verdict(OppositeDirection, pings, anti, distance) ==
              if !Compared(pings, n) then None
              else if anti then Some(!WrongWay(pings, n)) else Some(WrongWay(pings, n))
  {
    var n := |pings| - 1;
    if n > 0 {
      DirectionSide(pings[..n], anti, distance);
    }
  }

  /** Ping k went the wrong way, and none after it is judged. */
  ghost predicate WrongLast(pings: seq<Context>, k: nat) {
    k < |pings| && Compared(pings, k) && WrongWay(pings, k) && forall j :: k < j < |pings| ==> !Compared(pings, j)
  }

  /** The latest judged ping went the wrong way. */
  ghost predicate LatestIsWrong(pings: seq<Context>) {
    exists k: nat :: WrongLast(pings, k)
  }

  lemma ComparedBefore(pings: seq<Context>, n: nat, k: nat)
    requires k < n <= |pings|
    ensures Compared(pings[..n], k) <==> Compared(pings, k)
    ensures Compared(pings, k) ==> (WrongWay(pings[..n], k) <==> WrongWay(pings, k))
  {
    assert pings[..n][..k] == pings[..k];
  }

  lemma WrongLastBefore(pings: seq<Context>, k: nat)
    requires k + 1 < |pings| && !Compared(pings, |pings| - 1)
    ensures WrongLast(pings, k) <==> WrongLast(pings[..|pings| - 1], k)
  {
    var n := |pings| - 1;
    ComparedBefore(pings, n, k);
    forall j | k < j < n ensures Compared(pings[..n], j) <==> Compared(pings, j) {
      ComparedBefore(pings, n, j);
    }
  }

  lemma LatestStep(pings: seq<Context>)
    requires pings != []
    ensures var n := |pings| - 1;
            LatestIsWrong(pings) <==>
            if Compared(pings, n) then WrongWay(pings, n) else LatestIsWrong(pings[..n])
  {
    var n := |pings| - 1;
    if Compared(pings, n) {
      assert WrongLast(pings, n) <==> WrongWay(pings, n);
    } else {
      forall k: nat | k < n ensures WrongLast(pings, k) <==> WrongLast(pings[..n], k) {
        WrongLastBefore(pings, k);
      }
    }
  }

  /**
   * After any pings the alarm is on exactly when the latest judged ping had more
   * stops ahead than the fewest before it since the detector last started.
   */
  lemma {:induction false} DirectionAlarm(pings: seq<Context>, distance: Distance)
    ensures Alarm(Pings(OppositeDirection, OppositeDirection, pings, distance).0.status) <==> LatestIsWrong(pings)
  {
    if pings != [] {
      DirectionAlarm(pings[..|pings| - 1], distance);
      LatestStep(pings);
      DirectionVerdict(pings, false, distance);
      DirectionVerdict(pings, true, distance);
      AlarmStep(OppositeDirection, OppositeDirection, pings, distance);
    }
  }

  /** Every judged ping had at most the fewest stops ahead. */
  ghost predicate RightWay(pings: seq<Context>) {
    forall k :: 0 <= k < |pings| && Compared(pings, k) ==> !WrongWay(pings, k)
  }

  lemma RightWayStep(pings: seq<Context>)
    requires pings != []
    ensures var n := |pings| - 1;
            RightWay(pings) <==> RightWay(pings[..n]) && (Compared(pings, n) ==> !WrongWay(pings, n))
  {
    var n := |pings| - 1;
    forall k | 0 <= k < n
      ensures Compared(pings[..n], k) <==> Compared(pings, k)
      ensures Compared(pings, k) ==> (WrongWay(pings[..n], k) <==> WrongWay(pings, k))
    {
      ComparedBefore(pings, n, k);
    }
  }

  /** Requests grow with a change of the alarm, and with nothing else. */
  lemma {:induction false} SilentStep(pings: seq<Context>, distance: Distance)
    requires pings != []
    ensures var (t, sent) := Pings(OppositeDirection, OppositeDirection, pings[..|pings| - 1], distance);
            var (t', sent') := Pings(OppositeDirection, OppositeDirection, pings, distance);
            sent' == [] <==> sent == [] && !Alarm(t'.status)
  {
    OppositeKeepsAlarms(OppositeDirection, OppositeDirection, pings, distance);
    PingSends(OppositeDirection, OppositeDirection, pings, distance);
    AlertsAlternate(OppositeDirection, OppositeDirection, pings[..|pings| - 1], distance);
  }

  /** No request is sent exactly while no judged ping went the wrong way. */
  lemma {:induction false} SilentIffRightWay(pings: seq<Context>, distance: Distance)
    ensures Pings(OppositeDirection, OppositeDirection, pings, distance).1 == [] <==> RightWay(pings)
  {
    if pings != [] {
      var p := pings[..|pings| - 1];
      SilentIffRightWay(p, distance);
      SilentStep(pings, distance);
      DirectionAlarm(pings, distance);
      LatestStep(pings);
      RightWayStep(pings);
      assert LatestIsWrong(p) ==> !RightWay(p);
    }
  }
}
