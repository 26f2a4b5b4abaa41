/**
 * The part of Redis that the special-location queues live in: one sorted set
 * per queue, one tracking entry per driver, one last-timestamp entry per
 * (queue, driver), and the deadlines of the keys that carry a TTL.
 *
 * A driver id is a number that gives the byte order of its sorted-set member;
 * location and vehicle ids are numbers because only their equality matters.
 */
module QueueStore {
  import opened Common

  type Driver = nat

  datatype Queue = Queue(location: nat, vehicle: nat)

  datatype Tracking = Tracking(queue: Queue, exitPings: u32, lastRank: Option<nat>)

  datatype Stamp = Stamp(value: real, deadline: int)

  /** The order of a sorted set: by score, ties by member. */
  predicate Before(x: real, d: Driver, y: real, e: Driver) {
    x < y || (x == y && d < e)
  }

  /**
   * An abstract store. The deadline of a queue whose last member was removed is
   * kept but means nothing: `Purge` then removes no member, and every ZADD of
   * the service is followed by an EXPIRE that overwrites it.
   */
  datatype Store = Store(
    scores: map<(Queue, Driver), real>,
    queueDeadline: map<Queue, int>,
    tracking: map<Driver, Tracking>,
    lastTs: map<(Queue, Driver), Stamp>)
  {
    /** Drops every key whose deadline has passed. */
    function Purge(now: int): Store {
      this.(scores := map k | k in scores && !(k.0 in queueDeadline && queueDeadline[k.0] <= now) :: scores[k],
            queueDeadline := map q | q in queueDeadline && now < queueDeadline[q] :: queueDeadline[q],
            lastTs := map k | k in lastTs && now < lastTs[k].deadline :: lastTs[k])
    }

    function ZAdd(k: (Queue, Driver), score: real): Store {
      this.(scores := scores[k := score])
    }

    function ZAddNx(k: (Queue, Driver), score: real): Store {
      if k in scores then this else ZAdd(k, score)
    }

    function ZRem(k: (Queue, Driver)): Store {
      this.(scores := scores - {k})
    }

    function ExpireQueue(q: Queue, deadline: int): Store {
      this.(queueDeadline := queueDeadline[q := deadline])
    }

    function SetLastTs(k: (Queue, Driver), value: real, deadline: int): Store {
      this.(lastTs := lastTs[k := Stamp(value, deadline)])
    }

    /** EXPIRE on a missing key does nothing. */
    function ExpireLastTs(k: (Queue, Driver), deadline: int): Store {
      if k in lastTs then this.(lastTs := lastTs[k := Stamp(lastTs[k].value, deadline)]) else this
    }

    function DelLastTs(k: (Queue, Driver)): Store {
      this.(lastTs := lastTs - {k})
    }

    function SetTracking(d: Driver, t: Tracking): Store {
      this.(tracking := tracking[d := t])
    }

    /** SET XX: only an entry that already exists is overwritten. */
    function SetTrackingXx(d: Driver, t: Tracking): Store {
      if d in tracking then SetTracking(d, t) else this
    }

    function DelTracking(d: Driver): Store {
      this.(tracking := tracking - {d})
    }

    function GetTracking(d: Driver): Option<Tracking> {
      if d in tracking then Some(tracking[d]) else None
    }

    function GetLastTs(k: (Queue, Driver)): Option<real> {
      if k in lastTs then Some(lastTs[k].value) else None
    }

    /** The drivers of queue q that come before position (score, d). */
    function Ahead(q: Queue, score: real, d: Driver): set<(Queue, Driver)> {
      set k | k in scores && k.0 == q && Before(scores[k], k.1, score, d)
    }

    /** ZRANK. */
    function Rank(k: (Queue, Driver)): Option<nat> {
      if k in scores then Some(|Ahead(k.0, scores[k], k.1)|) else None
    }

    predicate InQueue(q: Queue, d: Driver) {
      (q, d) in scores
    }

    predicate TrackedIn(q: Queue, d: Driver) {
      d in tracking && tracking[d].queue == q
    }
  }

  const EMPTY := Store(map[], map[], map[], map[])

  /** The live store that the handlers update command by command. */
  class QueueRedis {
    var scores: map<(Queue, Driver), real>
    var queueDeadline: map<Queue, int>
    var tracking: map<Driver, Tracking>
    var lastTs: map<(Queue, Driver), Stamp>

    function View(): Store
      reads this
    {
      Store(scores, queueDeadline, tracking, lastTs)
    }

    constructor ()
      ensures View() == EMPTY
    {
      scores, queueDeadline, tracking, lastTs := map[], map[], map[], map[];
    }

    /** The passive expiry that Redis performs before it serves a command at time `now`. */
    method ExpireKeys(now: int)
      modifies this
      ensures View() == old(View()).Purge(now)
    {
      scores := map k | k in scores && !(k.0 in queueDeadline && queueDeadline[k.0] <= now) :: scores[k];
      queueDeadline := map q | q in queueDeadline && now < queueDeadline[q] :: queueDeadline[q];
      lastTs := map k | k in lastTs && now < lastTs[k].deadline :: lastTs[k];
    }

    method ZAdd(k: (Queue, Driver), score: real)
      modifies this`scores
      ensures View() == old(View()).ZAdd(k, score)
    {
      scores := scores[k := score];
    }

    method ZAddNx(k: (Queue, Driver), score: real)
      modifies this`scores
      ensures View() == old(View()).ZAddNx(k, score)
    {
      if k !in scores {
        scores := scores[k := score];
      }
    }

    method ZRem(k: (Queue, Driver))
      modifies this`scores
      ensures View() == old(View()).ZRem(k)
    {
      scores := scores - {k};
    }

    method ExpireQueue(q: Queue, deadline: int)
      modifies this`queueDeadline
      ensures View() == old(View()).ExpireQueue(q, deadline)
    {
      queueDeadline := queueDeadline[q := deadline];
    }

    method SetLastTs(k: (Queue, Driver), value: real, deadline: int)
      modifies this`lastTs
      ensures View() == old(View()).SetLastTs(k, value, deadline)
    {
      lastTs := lastTs[k := Stamp(value, deadline)];
    }

    method ExpireLastTs(k: (Queue, Driver), deadline: int)
      modifies this`lastTs
      ensures View() == old(View()).ExpireLastTs(k, deadline)
    {
      if k in lastTs {
        lastTs := lastTs[k := Stamp(lastTs[k].value, deadline)];
      }
    }

    method DelLastTs(k: (Queue, Driver))
      modifies this`lastTs
      ensures View() == old(View()).DelLastTs(k)
    {
      lastTs := lastTs - {k};
    }

    method SetTracking(d: Driver, t: Tracking)
      modifies this`tracking
      ensures View() == old(View()).SetTracking(d, t)
    {
      tracking := tracking[d := t];
    }

    method SetTrackingXx(d: Driver, t: Tracking)
      modifies this`tracking
      ensures View() == old(View()).SetTrackingXx(d, t)
    {
      if d in tracking {
        tracking := tracking[d := t];
      }
    }

    method DelTracking(d: Driver)
      modifies this`tracking
      ensures View() == old(View()).DelTracking(d)
    {
      tracking := tracking - {d};
    }
  }
}
