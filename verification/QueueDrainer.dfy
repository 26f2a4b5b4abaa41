/** The queue half of the drainer: one MGET snapshot, one write pipeline, one rank refresh. */
module QueueDrainer {
  import opened Common
  import opened QueueStore

  datatype QueueAction =
    | Enter(driver: Driver, queue: Queue, timestamp: real)
    | PossibleExit(driver: Driver, timestamp: real)

  datatype QueueConfig = QueueConfig(queueExpiry: nat, exitThreshold: u32, lastTsTtl: nat)
  {
    function Threshold(): int {
      Max(exitThreshold, 1)
    }
  }

  /** What `record_rank_history` needs to know about one successful Enter. */
  datatype Entry = Entry(driver: Driver, queue: Queue, prevRank: Option<nat>)

  function PrevRank(q: Queue, tr: Option<Tracking>): Option<nat> {
    if tr.Some? && tr.value.queue == q then tr.value.lastRank else None
  }

  // ----- what the write commands of one action do -----

  /** A driver that was tracked in another queue leaves it, and loses that queue's last timestamp. */
  function LeaveOldQueue(s: Store, d: Driver, q: Queue, tr: Option<Tracking>): Store {
    if tr.Some? && tr.value.queue != q
    then s.(scores := s.scores - {(tr.value.queue, d)}, lastTs := s.lastTs - {(tr.value.queue, d)})
    else s
  }

  /** The earliest known arrival: the stored last timestamp, unless this ping is earlier. */
  function EffectiveScore(t: real, stored: Option<real>): real {
    if stored.Some? && stored.value <= t then stored.value else t
  }

  /** The score of a member that was present changes only when the ping lowers the stored timestamp. */
  function ScoreAfterEnter(held: Option<real>, t: real, stored: Option<real>): real {
    if held.Some? && !(stored.Some? && t < stored.value) then held.value else EffectiveScore(t, stored)
  }

  function ApplyEnter(s: Store, d: Driver, q: Queue, t: real, tr: Option<Tracking>, stored: Option<real>,
                      now: int, cfg: QueueConfig): Store
  {
    var left := LeaveOldQueue(s, d, q, tr);
    var k := (q, d);
    var held := if k in left.scores then Some(left.scores[k]) else None;
    Store(left.scores[k := ScoreAfterEnter(held, t, stored)],
          left.queueDeadline[q := now + cfg.queueExpiry],
          left.tracking[d := Tracking(q, 0, PrevRank(q, tr))],
          left.lastTs[k := Stamp(EffectiveScore(t, stored), now + cfg.lastTsTtl)])
  }

  /** Whether a PossibleExit read against this tracking entry removes the driver. */
  predicate Evicts(t: Tracking, cfg: QueueConfig) {
    SaturatingInc(t.exitPings) >= cfg.Threshold()
  }

  function ApplyExit(s: Store, d: Driver, tr: Option<Tracking>, now: int, cfg: QueueConfig): Store {
    if tr.None? then s
    else if Evicts(tr.value, cfg) then
      var k := (tr.value.queue, d);
      Store(s.scores - {k}, s.queueDeadline, s.tracking - {d},
            if k in s.lastTs then s.lastTs[k := Stamp(s.lastTs[k].value, now + cfg.lastTsTtl)] else s.lastTs)
    else
      s.SetTracking(d, tr.value.(exitPings := SaturatingInc(tr.value.exitPings)))
  }

  /** One action, replayed on s with the values that were read from `snap`. */
  function Apply(s: Store, snap: Store, a: QueueAction, now: int, cfg: QueueConfig): Store {
    match a
    case Enter(d, q, t) => ApplyEnter(s, d, q, t, snap.GetTracking(d), snap.GetLastTs((q, d)), now, cfg)
    case PossibleExit(d, _) => ApplyExit(s, d, snap.GetTracking(d), now, cfg)
  }

  /** The tracking entry that one action leaves, whoever's it is. */
  lemma ApplyTracking(s: Store, snap: Store, a: QueueAction, now: int, cfg: QueueConfig, d: Driver)
    ensures Apply(s, snap, a, now, cfg).GetTracking(d) ==
            if a.driver != d then s.GetTracking(d)
            else if a.Enter? then Some(Tracking(a.queue, 0, PrevRank(a.queue, snap.GetTracking(d))))
            else if d !in snap.tracking then s.GetTracking(d)
            else if Evicts(snap.tracking[d], cfg) then None
            else Some(snap.tracking[d].(exitPings := SaturatingInc(snap.tracking[d].exitPings)))
  {
  }

  /** One action never touches another driver's timestamps or memberships. */
  lemma ApplyElsewhere(s: Store, snap: Store, a: QueueAction, now: int, cfg: QueueConfig, k: (Queue, Driver))
    requires k.1 != a.driver
    ensures var r := Apply(s, snap, a, now, cfg);
            (k in r.lastTs <==> k in s.lastTs) && (k in s.lastTs ==> r.lastTs[k] == s.lastTs[k]) &&
            (k in r.scores <==> k in s.scores) && (k in s.scores ==> r.scores[k] == s.scores[k])
  {
  }

  /** The write pipeline: every action reads `snap`, the writes pile up in order. */
  function Replay(snap: Store, acts: seq<QueueAction>, now: int, cfg: QueueConfig): Store {
    if acts == [] then snap
    else Apply(Replay(snap, acts[..|acts| - 1], now, cfg), snap, acts[|acts| - 1], now, cfg)
  }

  function EntriesOf(snap: Store, acts: seq<QueueAction>): seq<Entry> {
    if acts == [] then []
    else
      var a := acts[|acts| - 1];
      EntriesOf(snap, acts[..|acts| - 1]) +
      if a.Enter? then [Entry(a.driver, a.queue, PrevRank(a.queue, snap.GetTracking(a.driver)))] else []
  }

  /** The rank refresh of one entry: SET XX when ZRANK found the driver at a new rank. */
  function RefreshRank(s: Store, e: Entry): Store {
    var rank := s.Rank((e.queue, e.driver));
    if rank.None? || rank == e.prevRank then s
    else s.SetTrackingXx(e.driver, Tracking(e.queue, 0, rank))
  }

  function RecordRanks(s: Store, entries: seq<Entry>): Store {
    if entries == [] then s
    else RefreshRank(RecordRanks(s, entries[..|entries| - 1]), entries[|entries| - 1])
  }

  /** A whole drain of a batch against a store without expired keys. */
  function Drain(s: Store, acts: seq<QueueAction>, now: int, cfg: QueueConfig): Store {
    RecordRanks(Replay(s, acts, now, cfg), EntriesOf(s, acts))
  }

  // ----- the code itself -----

  /** Sparse MGET: empty slots are skipped in the request and stay empty in the answer. */
  method BatchGetLastTs(store: QueueRedis, slots: seq<Option<(Queue, Driver)>>) returns (out: seq<Option<real>>)
    ensures |out| == |slots|
    ensures forall i :: 0 <= i < |slots| ==>
      out[i] == if slots[i].Some? then store.View().GetLastTs(slots[i].value) else None
  {
    var keys: seq<(Queue, Driver)>, positions: seq<nat> := [], [];
    for i := 0 to |slots|
      invariant |keys| == |positions|
      invariant forall j :: 0 <= j < |keys| ==> positions[j] < i && slots[positions[j]] == Some(keys[j])
      invariant forall n :: 0 <= n < i && slots[n].Some? ==> exists j :: 0 <= j < |positions| && positions[j] == n
    {
      if slots[i].Some? {
        ghost var before := positions;
        keys, positions := keys + [slots[i].value], positions + [i];
        assert positions[|positions| - 1] == i;
        assert forall j :: 0 <= j < |before| ==> positions[j] == before[j];
      }
    }
    out := seq(|slots|, _ => None);
    for j := 0 to |keys|
      invariant |out| == |slots|
      invariant forall n :: 0 <= n < |slots| ==>
        out[n] == None || (slots[n].Some? && out[n] == store.View().GetLastTs(slots[n].value))
      invariant forall i :: 0 <= i < j ==> out[positions[i]] == store.View().GetLastTs(keys[i])
    {
      out := out[positions[j] := store.View().GetLastTs(keys[j])];
    }
  }

  /** ZREM and ZADD to lower a score, ZADD NX otherwise. */
  method PlaceDriver(store: QueueRedis, k: (Queue, Driver), t: real, stored: Option<real>) returns (score: real)
    modifies store`scores
    ensures score == EffectiveScore(t, stored)
    ensures store.scores == old(store.scores)[k := ScoreAfterEnter(
              if k in old(store.scores) then Some(old(store.scores)[k]) else None, t, stored)]
  {
    if stored.Some? && t < stored.value {
      store.ZRem(k);
      store.ZAdd(k, t);
      score := t;
    } else if stored.Some? {
      store.ZAddNx(k, stored.value);
      score := stored.value;
    } else {
      store.ZAddNx(k, t);
      score := t;
    }
  }

  /** The commands that one Enter puts on the pipeline. */
  method WriteEnter(store: QueueRedis, d: Driver, q: Queue, t: real, oldTracking: Option<Tracking>,
                    stored: Option<real>, now: int, cfg: QueueConfig)
    modifies store
    ensures store.View() == ApplyEnter(old(store.View()), d, q, t, oldTracking, stored, now, cfg)
  {
    var sameQueue := oldTracking.Some? && oldTracking.value.queue == q;
    var prevRank := if sameQueue then oldTracking.value.lastRank else None;
    if oldTracking.Some? && !sameQueue {
      store.ZRem((oldTracking.value.queue, d));
      store.DelLastTs((oldTracking.value.queue, d));
    }
    ghost var left := store.View();
    var score := PlaceDriver(store, (q, d), t, stored);
    store.ExpireQueue(q, now + cfg.queueExpiry);
    store.SetLastTs((q, d), score, now + cfg.lastTsTtl);
    store.SetTracking(d, Tracking(q, 0, prevRank));
  }

  /** The commands that one PossibleExit puts on the pipeline. */
  method WriteExit(store: QueueRedis, d: Driver, oldTracking: Option<Tracking>, now: int, cfg: QueueConfig)
    modifies store
    ensures store.View() == ApplyExit(old(store.View()), d, oldTracking, now, cfg)
  {
    if oldTracking.Some? {
      var t := oldTracking.value;
      var next := SaturatingInc(t.exitPings);
      if next >= Max(cfg.exitThreshold, 1) {
        store.ZRem((t.queue, d));
        store.DelTracking(d);
        store.ExpireLastTs((t.queue, d), now + cfg.lastTsTtl);
      } else {
        store.SetTracking(d, t.(exitPings := next));
      }
    }
  }

  method RecordRankHistory(store: QueueRedis, entries: seq<Entry>)
    modifies store
    ensures store.View() == RecordRanks(old(store.View()), entries)
  {
    for i := 0 to |entries|
      invariant store.View() == RecordRanks(old(store.View()), entries[..i])
    {
      assert entries[..i + 1][..i] == entries[..i];
      var e := entries[i];
      var rank := store.View().Rank((e.queue, e.driver));
      if rank.Some? && rank != e.prevRank {
        store.SetTrackingXx(e.driver, Tracking(e.queue, 0, rank));
      }
    }
    assert entries[..|entries|] == entries;
  }

  /** Step 1: one tracking read and one last-timestamp read, aligned with the actions. */
  method ReadSnapshot(store: QueueRedis, actions: seq<QueueAction>)
    returns (trackings: seq<Option<Tracking>>, lastTs: seq<Option<real>>)
    ensures |trackings| == |lastTs| == |actions|
    ensures forall i :: 0 <= i < |actions| ==> trackings[i] == store.View().GetTracking(actions[i].driver)
    ensures forall i :: 0 <= i < |actions| && actions[i].Enter? ==>
      lastTs[i] == store.View().GetLastTs((actions[i].queue, actions[i].driver))
  {
    trackings := [];
    var slots: seq<Option<(Queue, Driver)>> := [];
    for i := 0 to |actions|
      invariant |trackings| == |slots| == i
      invariant forall j :: 0 <= j < i ==> trackings[j] == store.View().GetTracking(actions[j].driver)
      invariant forall j :: 0 <= j < i ==>
        slots[j] == if actions[j].Enter? then Some((actions[j].queue, actions[j].driver)) else None
    {
      var a := actions[i];
      trackings := trackings + [store.View().GetTracking(a.driver)];
      slots := slots + [if a.Enter? then Some((a.queue, a.driver)) else None];
    }
    lastTs := BatchGetLastTs(store, slots);
  }

  /** Step 2: one pass over the actions that writes with the values read before. */
  method WritePipeline(store: QueueRedis, actions: seq<QueueAction>, trackings: seq<Option<Tracking>>,
                       lastTs: seq<Option<real>>, now: int, cfg: QueueConfig) returns (entered: seq<Entry>)
    requires |trackings| == |lastTs| == |actions|
    requires forall i :: 0 <= i < |actions| ==> trackings[i] == store.View().GetTracking(actions[i].driver)
    requires forall i :: 0 <= i < |actions| && actions[i].Enter? ==>
      lastTs[i] == store.View().GetLastTs((actions[i].queue, actions[i].driver))
    modifies store
    ensures store.View() == Replay(old(store.View()), actions, now, cfg)
    ensures entered == EntriesOf(old(store.View()), actions)
  {
    ghost var snap := store.View();
    entered := [];
    for i := 0 to |actions|
      invariant store.View() == Replay(snap, actions[..i], now, cfg)
      invariant entered == EntriesOf(snap, actions[..i])
    {
      assert actions[..i + 1][..i] == actions[..i];
      assert trackings[i] == snap.GetTracking(actions[i].driver);
      match actions[i] {
        case Enter(d, q, t) =>
          WriteEnter(store, d, q, t, trackings[i], lastTs[i], now, cfg);
          entered := entered + [Entry(d, q, PrevRank(q, trackings[i]))];
        case PossibleExit(d, _) =>
          WriteExit(store, d, trackings[i], now, cfg);
      }
    }
    assert actions[..|actions|] == actions;
  }

  method DrainQueueActions(store: QueueRedis, actions: seq<QueueAction>, now: int, cfg: QueueConfig)
    modifies store
    ensures store.View() == Drain(old(store.View()).Purge(now), actions, now, cfg)
  {
    store.ExpireKeys(now);
    var trackings, lastTs := ReadSnapshot(store, actions);
    var entered := WritePipeline(store, actions, trackings, lastTs, now, cfg);
    if entered != [] {
      RecordRankHistory(store, entered);
    }
  }
}
