/** The sliding-window rate limiter: hits of the current frame plus a share of the previous one. */
module RateLimiter {
  import opened Common

  /** The stored hits, each the number of its frame, and the moment at which Redis drops them (in milliseconds). */
  datatype Hits = Hits(frames: seq<int>, deadline: int)

  function FrameOf(now: nat, len: nat): nat
    requires len > 0
  {
    (now / 1000) / len
  }

  /** The seconds since the frame began. */
  function Phase(now: nat, len: nat): nat
    requires len > 0
  {
    (now / 1000) % len
  }

  function Recent(frames: seq<int>, frame: int): seq<int> {
    if frames == [] then []
    else
      var last := frames[|frames| - 1];
      if last == frame - 1 || last == frame then Recent(frames[..|frames| - 1], frame) + [last]
      else Recent(frames[..|frames| - 1], frame)
  }

  function Count(frames: seq<int>, frame: int): nat {
    if frames == [] then 0
    else Count(frames[..|frames| - 1], frame) + if frames[|frames| - 1] == frame then 1 else 0
  }

  /** The previous frame's hits weighted by the part of that frame still in view, truncated. */
  function Weighted(prev: nat, phase: nat, len: nat): int
    requires len > 0
  {
    (prev as real * (1.0 - phase as real / len as real)).Floor
  }

  function Visible(stored: Option<Hits>, now: nat): seq<int> {
    if stored.Some? && now < stored.value.deadline then stored.value.frames else []
  }

  /** One call at `now`: what is stored afterwards, and whether the hit was accepted. */
  function Call(stored: Option<Hits>, now: nat, limit: nat, len: nat): (Option<Hits>, bool)
    requires len > 0
  {
    var frame := FrameOf(now, len);
    var recent := Recent(Visible(stored, now), frame);
    if Weighted(Count(recent, frame - 1), Phase(now, len), len) + Count(recent, frame) < limit
    then (Some(Hits([frame] + recent, now + 1000 * len)), true)
    else (stored, false)
  }

  class RateStore {
    var stored: Option<Hits>

    constructor ()
      ensures stored == None
    {
      stored := None;
    }

    method CountFrame(frames: seq<int>, frame: int) returns (n: nat)
      ensures n == Count(frames, frame)
    {
      n := 0;
      for i := 0 to |frames|
        invariant n == Count(frames[..i], frame)
      {
        assert frames[..i + 1][..i] == frames[..i];
        if frames[i] == frame {
          n := n + 1;
        }
      }
      assert frames[..|frames|] == frames;
    }

    method RecentHits(hits: seq<int>, frame: int) returns (recent: seq<int>)
      ensures recent == Recent(hits, frame)
    {
      recent := [];
      for i := 0 to |hits|
        invariant recent == Recent(hits[..i], frame)
      {
        assert hits[..i + 1][..i] == hits[..i];
        if hits[i] == frame - 1 || hits[i] == frame {
          recent := recent + [hits[i]];
        }
      }
      assert hits[..|hits|] == hits;
    }

    method SlidingWindowLimiter(now: nat, limit: nat, len: nat) returns (accepted: bool)
      requires len > 0
      modifies this
      ensures (stored, accepted) == Call(old(stored), now, limit, len)
    {
      var frame: int := FrameOf(now, len);
      var recent := RecentHits(Visible(stored, now), frame);
      var current := CountFrame(recent, frame);
      var previous := CountFrame(recent, frame - 1);
      if Weighted(previous, Phase(now, len), len) + current < limit {
        stored := Some(Hits([frame] + recent, now + 1000 * len));
        return true;
      }
      return false;
    }
  }

  // ----- runs of calls -----

  /** What is stored, and the times of the accepted hits, after a run of calls. */
  function Calls(times: seq<nat>, limit: nat, len: nat): (Option<Hits>, seq<nat>)
    requires len > 0
  {
    if times == [] then (None, [])
    else
      var now := times[|times| - 1];
      var (stored, accepted) := Calls(times[..|times| - 1], limit, len);
      var (stored', ok) := Call(stored, now, limit, len);
      (stored', if ok then accepted + [now] else accepted)
  }

  function InFrame(hits: seq<nat>, frame: int, len: nat): nat
    requires len > 0
  {
    if hits == [] then 0
    else InFrame(hits[..|hits| - 1], frame, len) + if hits[|hits| - 1] / 1000 / len == frame then 1 else 0
  }

  /** The accepted hits in the window of one frame length that ends at `end`. */
  function InWindow(hits: seq<nat>, end: int, len: nat): nat {
    if hits == [] then 0
    else
      var last := hits[|hits| - 1];
      InWindow(hits[..|hits| - 1], end, len) + if end - 1000 * len < last <= end then 1 else 0
  }

  function Ceil(x: real): int {
    -((-x).Floor)
  }

  ghost predicate Ordered(times: seq<nat>) {
    forall i, j :: 0 <= i < j < |times| ==> times[i] <= times[j]
  }

  // ----- counting -----

  lemma {:induction false} RecentCounts(frames: seq<int>, frame: int, f: int)
    ensures Count(Recent(frames, frame), f) == if f == frame - 1 || f == frame then Count(frames, f) else 0
  {
    if frames != [] {
      RecentCounts(frames[..|frames| - 1], frame, f);
    }
  }

  lemma {:induction false} CountCons(x: int, frames: seq<int>, f: int)
    ensures Count([x] + frames, f) == Count(frames, f) + if x == f then 1 else 0
  {
    if frames == [] {
      assert [x] + frames == [x] && [x][..0] == [];
    } else {
      CountCons(x, frames[..|frames| - 1], f);
      assert ([x] + frames)[..|frames|] == [x] + frames[..|frames| - 1];
    }
  }

  lemma FrameSplit(now: nat, len: nat)
    requires len > 0
    ensures now / 1000 == FrameOf(now, len) * len + Phase(now, len) && Phase(now, len) < len
  {
  }

  lemma LaterFrame(f: nat, g: nat, len: nat)
    requires f < g
    ensures f * len + len <= g * len
  {
    if f + 1 < g {
      LaterFrame(f, g - 1, len);
    }
  }

  lemma FrameMonotone(a: nat, b: nat, len: nat)
    requires len > 0 && a <= b
    ensures FrameOf(a, len) <= FrameOf(b, len)
    ensures FrameOf(a, len) == FrameOf(b, len) ==> Phase(a, len) <= Phase(b, len)
  {
    FrameSplit(a, len);
    FrameSplit(b, len);
    if FrameOf(b, len) < FrameOf(a, len) {
      LaterFrame(FrameOf(b, len), FrameOf(a, len), len);
    }
  }

  /** A hit inside the window belongs to the current or the previous frame. */
  lemma WindowFrames(hit: nat, end: nat, len: nat)
    requires len > 0 && end - 1000 * len < hit <= end
    ensures FrameOf(hit, len) == FrameOf(end, len) || FrameOf(hit, len) == FrameOf(end, len) - 1
  {
    FrameMonotone(hit, end, len);
    FrameSplit(hit, len);
    FrameSplit(end, len);
    var f, g := FrameOf(hit, len), FrameOf(end, len);
    LaterFrame(f, f + 1, len);
    if f + 1 < g {
      LaterFrame(f + 1, g, len);
    }
  }

  lemma {:induction false} WindowBound(hits: seq<nat>, end: nat, len: nat)
    requires len > 0
    ensures InWindow(hits, end, len) <=
            InFrame(hits, FrameOf(end, len), len) + InFrame(hits, FrameOf(end, len) - 1, len)
  {
    if hits != [] {
      WindowBound(hits[..|hits| - 1], end, len);
      var last := hits[|hits| - 1];
      if end - 1000 * len < last <= end {
        WindowFrames(last, end, len);
      }
    }
  }

  /** When every hit of the previous frame has left the window, the window holds hits of the current frame only. */
  lemma {:induction false} WindowCurrent(hits: seq<nat>, end: nat, len: nat)
    requires len > 0
    requires forall i :: 0 <= i < |hits| && FrameOf(hits[i], len) == FrameOf(end, len) - 1 ==>
                           hits[i] <= end - 1000 * len
    ensures InWindow(hits, end, len) <= InFrame(hits, FrameOf(end, len), len)
  {
    if hits != [] {
      WindowCurrent(hits[..|hits| - 1], end, len);
      var last := hits[|hits| - 1];
      if end - 1000 * len < last <= end {
        WindowFrames(last, end, len);
      }
    }
  }

  lemma {:induction false} NoneInFrame(hits: seq<nat>, frame: int, len: nat)
    requires len > 0 && forall i :: 0 <= i < |hits| ==> FrameOf(hits[i], len) != frame
    ensures InFrame(hits, frame, len) == 0
  {
    if hits != [] {
      NoneInFrame(hits[..|hits| - 1], frame, len);
    }
  }

  // ----- the weighted share -----

  function Portion(p: nat, phase: nat, len: nat): real
    requires len > 0
  {
    p as real * phase as real / len as real
  }

  /** The excess over the limit that the weighting of p hits can let through at the given phase. */
  function Excess(p: nat, phase: nat, len: nat): int
    requires len > 0
  {
    Ceil(Portion(p, phase, len))
  }

  lemma FloorSplits(p: int, y: real)
    requires 0.0 <= y <= p as real
    ensures 0 <= (p as real - y).Floor <= p && p - (p as real - y).Floor == Ceil(y)
  {
  }

  lemma Ratio(p: real, a: real, len: real) returns (y: real)
    requires p >= 0.0 && 0.0 <= a <= len && len > 0.0
    ensures y == p * a / len && p * (1.0 - a / len) == p - y && 0.0 <= y <= p
  {
    var part := a / len;
    assert part * len == a;
    assert 0.0 <= part <= 1.0;
    y := p * part;
    assert y * len == p * a;
    ScaleDown(p, part);
  }

  lemma ScaleDown(p: real, part: real)
    requires 0.0 <= p && 0.0 <= part <= 1.0
    ensures 0.0 <= p * part <= p
  {
  }

  /** What the weighting writes off is the excess. */
  lemma WeightedBounds(p: nat, phase: nat, len: nat)
    requires phase < len
    ensures 0 <= Weighted(p, phase, len) <= p
    ensures Weighted(p, phase, len) + Excess(p, phase, len) == p
  {
    var y := Ratio(p as real, phase as real, len as real);
    FloorSplits(p, y);
    assert Weighted(p, phase, len) == (p as real - y).Floor;
    assert Portion(p, phase, len) == y;
  }

  lemma CeilMonotone(p: nat, a: nat, b: nat, len: nat)
    requires a <= b <= len && len > 0
    ensures 0 <= Excess(p, a, len) <= Excess(p, b, len)
  {
    var x, y := p as real * a as real, p as real * b as real;
    assert 0.0 <= x <= y;
    Divide(x, y, len as real);
  }

  lemma Divide(x: real, y: real, len: real)
    requires 0.0 <= x <= y && len > 0.0
    ensures 0.0 <= x / len <= y / len
  {
  }

  // ----- the invariant of a run -----

  /** The hits of frame g all came at `bound` or before. */
  ghost predicate GoneBy(hits: seq<nat>, g: int, bound: int, len: nat)
    requires len > 0
  {
    forall i :: 0 <= i < |hits| && FrameOf(hits[i], len) == g ==> hits[i] <= bound
  }

  /**
   * As of `now`, the frames count the current frame's hits exactly; those of
   * the frame before are counted exactly too, or they have left the window and
   * are forgotten. No other frame is counted.
   */
  ghost predicate Sees(frames: seq<int>, hits: seq<nat>, now: nat, len: nat)
    requires len > 0
  {
    var f: int := FrameOf(now, len);
    Count(frames, f) == InFrame(hits, f, len) &&
    (Count(frames, f - 1) == InFrame(hits, f - 1, len) ||
     (Count(frames, f - 1) == 0 && GoneBy(hits, f - 1, now - 1000 * len, len))) &&
    forall g: int :: g != f && g != f - 1 ==> Count(frames, g) == 0
  }

  ghost predicate UpTo(hits: seq<nat>, now: nat) {
    forall i :: 0 <= i < |hits| ==> hits[i] <= now
  }

  ghost predicate UnderLimit(hits: seq<nat>, limit: nat, len: nat)
    requires len > 0
  {
    forall f: int :: InFrame(hits, f, len) <= limit
  }

  /** The store as the latest accepted hit left it. */
  ghost predicate Accurate(stored: Option<Hits>, hits: seq<nat>, limit: nat, len: nat)
    requires len > 0
  {
    if hits == [] then stored == None
    else
      var a := hits[|hits| - 1];
      var f: int := FrameOf(a, len);
      stored.Some? && stored.value.deadline == a + 1000 * len && UpTo(hits, a) &&
      Sees(stored.value.frames, hits, a, len) &&
      Weighted(Count(stored.value.frames, f - 1), Phase(a, len), len) + InFrame(hits, f, len) <= limit
  }

  lemma EarlierFrames(hits: seq<nat>, a: nat, len: nat)
    requires len > 0 && UpTo(hits, a)
    ensures forall i :: 0 <= i < |hits| ==> FrameOf(hits[i], len) <= FrameOf(a, len)
    ensures forall g: int :: g > FrameOf(a, len) ==> InFrame(hits, g, len) == 0
  {
    forall i | 0 <= i < |hits| ensures FrameOf(hits[i], len) <= FrameOf(a, len) {
      FrameMonotone(hits[i], a, len);
    }
    forall g: int | g > FrameOf(a, len) ensures InFrame(hits, g, len) == 0 {
      NoneInFrame(hits, g, len);
    }
  }

  /** Later on, the visible recent hits still tell the truth about the frames that matter. */
  lemma SeenLater(stored: Hits, hits: seq<nat>, a: nat, now: nat, len: nat)
    requires len > 0 && a <= now && UpTo(hits, a)
    requires stored.deadline == a + 1000 * len && Sees(stored.frames, hits, a, len)
    ensures Sees(Recent(Visible(Some(stored), now), FrameOf(now, len)), hits, now, len)
  {
    var e: int, f: int := FrameOf(a, len), FrameOf(now, len);
    var visible := Visible(Some(stored), now);
    forall g: int ensures Count(Recent(visible, f), g) == if g == f - 1 || g == f then Count(visible, g) else 0 {
      RecentCounts(visible, f, g);
    }
    FrameMonotone(a, now, len);
    EarlierFrames(hits, a, len);
    if now >= a + 1000 * len {
      OutOfFrame(a, now, len);
      assert GoneBy(hits, f - 1, now - 1000 * len, len);
    } else if GoneBy(hits, e - 1, a - 1000 * len, len) {
      assert GoneBy(hits, e - 1, now - 1000 * len, len);
    }
  }

  lemma SeenNow(stored: Option<Hits>, hits: seq<nat>, now: nat, limit: nat, len: nat)
    requires len > 0 && Accurate(stored, hits, limit, len) && UpTo(hits, now)
    ensures Sees(Recent(Visible(stored, now), FrameOf(now, len)), hits, now, len)
  {
    if hits != [] {
      SeenLater(stored.value, hits, hits[|hits| - 1], now, len);
    }
  }

  /** A key that has expired held hits of earlier frames only. */
  lemma OutOfFrame(a: nat, now: nat, len: nat)
    requires len > 0 && now >= a + 1000 * len
    ensures FrameOf(a, len) < FrameOf(now, len)
  {
    FrameSplit(a, len);
    FrameSplit(now, len);
    FrameMonotone(a, now, len);
    assert now / 1000 >= a / 1000 + len;
  }

  lemma AcceptSees(frames: seq<int>, hits: seq<nat>, now: nat, len: nat)
    requires len > 0 && Sees(frames, hits, now, len)
    ensures Sees([FrameOf(now, len)] + frames, hits + [now], now, len)
  {
    var f: int := FrameOf(now, len);
    var more := hits + [now];
    assert more[..|hits|] == hits;
    forall g: int ensures Count([f] + frames, g) == Count(frames, g) + if g == f then 1 else 0 {
      CountCons(f, frames, g);
    }
    assert GoneBy(hits, f - 1, now - 1000 * len, len) ==> GoneBy(more, f - 1, now - 1000 * len, len);
  }

  lemma AcceptUnderLimit(hits: seq<nat>, now: nat, limit: nat, len: nat)
    requires len > 0 && UnderLimit(hits, limit, len) && InFrame(hits, FrameOf(now, len), len) + 1 <= limit
    ensures UnderLimit(hits + [now], limit, len)
  {
    var more := hits + [now];
    assert more[..|hits|] == hits;
    forall f: int ensures InFrame(more, f, len) <= limit {
      assert InFrame(hits, f, len) <= limit;
    }
  }

  /** An accepted call keeps its own frame under the limit, weighted share included. */
  lemma AcceptedFits(recent: seq<int>, hits: seq<nat>, now: nat, limit: nat, len: nat)
    requires len > 0 && Sees(recent, hits, now, len)
    requires var f: int := FrameOf(now, len);
             Weighted(Count(recent, f - 1), Phase(now, len), len) + Count(recent, f) < limit
    ensures var f: int := FrameOf(now, len);
            InFrame(hits, f, len) + 1 <= limit &&
            Weighted(Count([f] + recent, f - 1), Phase(now, len), len) + InFrame(hits + [now], f, len) <= limit
  {
    var f: int := FrameOf(now, len);
    WeightedBounds(Count(recent, f - 1), Phase(now, len), len);
    CountCons(f, recent, f - 1);
    assert (hits + [now])[..|hits|] == hits;
  }

  lemma CallKeepsAccurate(stored: Option<Hits>, hits: seq<nat>, now: nat, limit: nat, len: nat)
    requires len > 0 && Accurate(stored, hits, limit, len) && UpTo(hits, now) && UnderLimit(hits, limit, len)
    ensures var (stored', ok) := Call(stored, now, limit, len);
            var hits' := if ok then hits + [now] else hits;
            Accurate(stored', hits', limit, len) && UnderLimit(hits', limit, len)
  {
    var (stored', ok) := Call(stored, now, limit, len);
    if ok {
      var recent := Recent(Visible(stored, now), FrameOf(now, len));
      SeenNow(stored, hits, now, limit, len);
      AcceptSees(recent, hits, now, len);
      AcceptedFits(recent, hits, now, limit, len);
      AcceptUnderLimit(hits, now, limit, len);
    }
  }

  lemma {:induction false} RunIsAccurate(times: seq<nat>, limit: nat, len: nat)
    requires len > 0 && Ordered(times)
    ensures var (stored, hits) := Calls(times, limit, len);
            Accurate(stored, hits, limit, len) && UnderLimit(hits, limit, len) &&
            (times == [] ==> hits == []) && (times != [] ==> UpTo(hits, times[|times| - 1]))
  {
    if times != [] {
      var p, now := times[..|times| - 1], times[|times| - 1];
      RunIsAccurate(p, limit, len);
      var (stored, hits) := Calls(p, limit, len);
      assert UpTo(hits, now);
      CallKeepsAccurate(stored, hits, now, limit, len);
    }
  }

  /** However calls and expiry interleave, no frame ever accepts more than the limit. */
  lemma FrameLimit(times: seq<nat>, limit: nat, len: nat, frame: int)
    requires len > 0 && Ordered(times)
    ensures InFrame(Calls(times, limit, len).1, frame, len) <= limit
  {
    RunIsAccurate(times, limit, len);
  }

  lemma WindowOf(stored: Option<Hits>, hits: seq<nat>, limit: nat, len: nat, end: nat)
    requires len > 0 && hits != [] && Accurate(stored, hits, limit, len) && UnderLimit(hits, limit, len)
    requires hits[|hits| - 1] <= end
    ensures InWindow(hits, end, len) <= limit + Excess(InFrame(hits, FrameOf(end, len) - 1, len), Phase(end, len), len)
  {
    var a := hits[|hits| - 1];
    var f: int := FrameOf(end, len);
    var p := InFrame(hits, f - 1, len);
    FrameSplit(end, len);
    CeilMonotone(p, 0, Phase(end, len), len);
    WindowBound(hits, end, len);
    FrameMonotone(a, end, len);
    EarlierFrames(hits, a, len);
    if FrameOf(a, len) < f {
      assert InFrame(hits, f - 1, len) <= limit;
    } else if Count(stored.value.frames, f - 1) == p {
      FrameSplit(a, len);
      WeightedBounds(p, Phase(a, len), len);
      CeilMonotone(p, Phase(a, len), Phase(end, len), len);
    } else {
      WindowCurrent(hits, end, len);
      assert InFrame(hits, f, len) <= limit;
    }
  }

  /**
   * Seen from any moment after the calls, the hits accepted within one frame
   * length exceed the limit by no more than the part of the previous frame's
   * hits that the weighting had already written off.
   */
  lemma WindowLimit(times: seq<nat>, limit: nat, len: nat, end: nat)
    requires len > 0 && Ordered(times) && (forall i :: 0 <= i < |times| ==> times[i] <= end)
    ensures var hits := Calls(times, limit, len).1;
            InWindow(hits, end, len) <= limit + Excess(InFrame(hits, FrameOf(end, len) - 1, len), Phase(end, len), len)
  {
    RunIsAccurate(times, limit, len);
    var (stored, hits) := Calls(times, limit, len);
    if hits == [] {
      FrameSplit(end, len);
      CeilMonotone(InFrame(hits, FrameOf(end, len) - 1, len), 0, Phase(end, len), len);
    } else {
      WindowOf(stored, hits, limit, len, end);
    }
  }

  // ----- exactly which calls are accepted -----

  /** The accepted hits that no frame length of silence separates from `now`: those that the key still holds. */
  function Unbroken(hits: seq<nat>, now: nat, len: nat): seq<nat> {
    if hits == [] || now >= hits[|hits| - 1] + 1000 * len then []
    else Unbroken(hits[..|hits| - 1], hits[|hits| - 1], len) + [hits[|hits| - 1]]
  }

  /** The frames count the hits that the key holds, as of `now`. */
  ghost predicate Holds(frames: seq<int>, hits: seq<nat>, now: nat, len: nat)
    requires len > 0
  {
    forall g: int :: g >= FrameOf(now, len) - 1 ==> Count(frames, g) == InFrame(Unbroken(hits, now, len), g, len)
  }

  /** The store as the latest accepted hit left it, gaps included. */
  ghost predicate Keeps(stored: Option<Hits>, hits: seq<nat>, len: nat)
    requires len > 0
  {
    if hits == [] then stored == None
    else
      var a := hits[|hits| - 1];
      stored.Some? && stored.value.deadline == a + 1000 * len && UpTo(hits, a) &&
      Holds(stored.value.frames, hits, a, len)
  }

  lemma {:induction false} UnbrokenUpTo(hits: seq<nat>, now: nat, bound: nat, len: nat)
    requires UpTo(hits, bound)
    ensures UpTo(Unbroken(hits, now, len), bound)
  {
    if hits != [] {
      UnbrokenUpTo(hits[..|hits| - 1], hits[|hits| - 1], bound, len);
    }
  }

  /** What a call sees of the stored hits. */
  lemma RecentHolds(stored: Option<Hits>, hits: seq<nat>, now: nat, len: nat)
    requires len > 0 && Keeps(stored, hits, len) && UpTo(hits, now)
    ensures Holds(Recent(Visible(stored, now), FrameOf(now, len)), hits, now, len)
  {
    var f: int := FrameOf(now, len);
    var visible := Visible(stored, now);
    UnbrokenUpTo(hits, now, now, len);
    EarlierFrames(Unbroken(hits, now, len), now, len);
    if hits != [] {
      FrameMonotone(hits[|hits| - 1], now, len);
    }
    forall g: int | g >= f - 1 ensures Count(Recent(visible, f), g) == InFrame(Unbroken(hits, now, len), g, len) {
      RecentCounts(visible, f, g);
      if hits != [] && now < hits[|hits| - 1] + 1000 * len {
        assert Unbroken(hits, now, len) == Unbroken(hits, hits[|hits| - 1], len);
      }
    }
  }

  lemma AcceptHolds(recent: seq<int>, hits: seq<nat>, now: nat, len: nat)
    requires len > 0 && Holds(recent, hits, now, len)
    ensures Holds([FrameOf(now, len)] + recent, hits + [now], now, len)
  {
    var more := hits + [now];
    assert more[..|hits|] == hits;
    var kept := Unbroken(hits, now, len);
    assert Unbroken(more, now, len) == kept + [now];
    assert (kept + [now])[..|kept|] == kept;
    forall g: int | g >= FrameOf(now, len) - 1
      ensures Count([FrameOf(now, len)] + recent, g) == InFrame(Unbroken(more, now, len), g, len)
    {
      CountCons(FrameOf(now, len), recent, g);
    }
  }

  lemma CallKeeps(stored: Option<Hits>, hits: seq<nat>, now: nat, limit: nat, len: nat)
    requires len > 0 && Keeps(stored, hits, len) && UpTo(hits, now)
    ensures var (stored', ok) := Call(stored, now, limit, len);
            Keeps(stored', if ok then hits + [now] else hits, len)
  {
    RecentHolds(stored, hits, now, len);
    AcceptHolds(Recent(Visible(stored, now), FrameOf(now, len)), hits, now, len);
  }

  lemma {:induction false} RunKeeps(times: seq<nat>, limit: nat, len: nat)
    requires len > 0 && Ordered(times)
    ensures var (stored, hits) := Calls(times, limit, len);
            Keeps(stored, hits, len) && Ordered(hits) &&
            (times == [] ==> hits == []) && (times != [] ==> UpTo(hits, times[|times| - 1]))
  {
    if times != [] {
      var p, now := times[..|times| - 1], times[|times| - 1];
      RunKeeps(p, limit, len);
      var (stored, hits) := Calls(p, limit, len);
      assert UpTo(hits, now);
      CallKeeps(stored, hits, now, limit, len);
    }
  }

  /** No hit of the current frame is ever cut off. */
  lemma {:induction false} CurrentIsUnbroken(hits: seq<nat>, now: nat, len: nat)
    requires len > 0 && Ordered(hits) && UpTo(hits, now)
    ensures var f: int := FrameOf(now, len); InFrame(Unbroken(hits, now, len), f, len) == InFrame(hits, f, len)
  {
    if hits != [] {
      var p, a := hits[..|hits| - 1], hits[|hits| - 1];
      FrameMonotone(a, now, len);
      if FrameOf(a, len) < FrameOf(now, len) {
        UnbrokenUpTo(hits, now, a, len);
        EarlierFrames(Unbroken(hits, now, len), a, len);
        EarlierFrames(hits, a, len);
      } else {
        if now >= a + 1000 * len {
          OutOfFrame(a, now, len);
          assert false;
        }
        CurrentIsUnbroken(p, a, len);
        var kept := Unbroken(p, a, len);
        assert (kept + [a])[..|kept|] == kept;
      }
    }
  }

  /** The last hit of the previous frame and the next one, or this call, lie less than a frame length apart. */
  ghost predicate Bridged(hits: seq<nat>, now: nat, len: nat)
    requires len > 0
  {
    exists i :: 0 <= i < |hits| && BridgedAt(hits, i, now, len)
  }

  predicate BridgedAt(hits: seq<nat>, i: nat, now: nat, len: nat)
    requires len > 0 && i < |hits|
  {
    var next := if i + 1 < |hits| then hits[i + 1] else now;
    hits[i] / 1000 / len == now / 1000 / len - 1 && next / 1000 / len == now / 1000 / len &&
    next < hits[i] + 1000 * len
  }

  /** Within the current frame, whether the previous frame is bridged was settled by its first hit. */
  lemma BridgedBefore(hits: seq<nat>, now: nat, len: nat)
    requires len > 0 && hits != []
    requires FrameOf(hits[|hits| - 1], len) == FrameOf(now, len)
    ensures Bridged(hits, now, len) <==> Bridged(hits[..|hits| - 1], hits[|hits| - 1], len)
  {
    var p, a := hits[..|hits| - 1], hits[|hits| - 1];
    forall i | 0 <= i < |p| ensures BridgedAt(hits, i, now, len) <==> BridgedAt(p, i, a, len) {
    }
    assert !BridgedAt(hits, |p|, now, len);
  }

  /** Of the previous frame the key holds all hits or none. */
  lemma {:induction false} PreviousIsUnbroken(hits: seq<nat>, now: nat, len: nat)
    requires len > 0 && Ordered(hits) && UpTo(hits, now)
    ensures var f: int := FrameOf(now, len);
            InFrame(Unbroken(hits, now, len), f - 1, len) ==
              if Bridged(hits, now, len) then InFrame(hits, f - 1, len) else 0
  {
    if hits != [] {
      var p, a := hits[..|hits| - 1], hits[|hits| - 1];
      FrameMonotone(a, now, len);
      if FrameOf(a, len) == FrameOf(now, len) {
        if now >= a + 1000 * len {
          OutOfFrame(a, now, len);
          assert false;
        }
        PreviousIsUnbroken(p, a, len);
        BridgedBefore(hits, now, len);
        var kept := Unbroken(p, a, len);
        assert (kept + [a])[..|kept|] == kept;
      } else {
        PreviousAtEnd(hits, now, len);
      }
    }
  }

  /** No hit of the current frame yet. */
  lemma PreviousAtEnd(hits: seq<nat>, now: nat, len: nat)
    requires len > 0 && Ordered(hits) && UpTo(hits, now) && hits != []
    requires FrameOf(hits[|hits| - 1], len) < FrameOf(now, len)
    ensures var f: int := FrameOf(now, len);
            InFrame(Unbroken(hits, now, len), f - 1, len) ==
              if Bridged(hits, now, len) then InFrame(hits, f - 1, len) else 0
  {
    var a := hits[|hits| - 1];
    EarlierFrames(hits, a, len);
    assert forall i :: 0 <= i < |hits| - 1 ==> !BridgedAt(hits, i, now, len);
    assert Bridged(hits, now, len) <==> BridgedAt(hits, |hits| - 1, now, len);
    if now < a + 1000 * len {
      WindowFrames(a, now, len);
      CurrentIsUnbroken(hits, a, len);
      assert Unbroken(hits, now, len) == Unbroken(hits, a, len);
    }
  }

  /** The weighted share in whole numbers. */
  lemma WeightedIs(p: nat, phase: nat, len: nat)
    requires phase < len
    ensures Weighted(p, phase, len) == p * (len - phase) / len
  {
    var y := Ratio(p as real, phase as real, len as real);
    var n, q := Weighted(p, phase, len), p * (len - phase) / len;
    assert n == (p as real - y).Floor;
    assert y * len as real == p as real * phase as real;
    FloorOfQuotient(p as real - y, p * (len - phase), len);
  }

  lemma FloorOfQuotient(x: real, n: nat, len: nat)
    requires len > 0 && x * len as real == n as real
    ensures x.Floor == n / len
  {
    var q, r := n / len, n % len;
    assert n == q * len + r;
    assert (x - q as real) * len as real == r as real;
    Between(x - q as real, r as real, len as real);
  }

  lemma Between(z: real, r: real, len: real)
    requires 0.0 <= r < len && z * len == r
    ensures 0.0 <= z < 1.0
  {
  }

  /** The hits of the previous frame that count at `now`. */
  ghost function Previous(hits: seq<nat>, now: nat, len: nat): nat
    requires len > 0
  {
    if Bridged(hits, now, len) then InFrame(hits, now / 1000 / len - 1, len) else 0
  }

  lemma CallDecides(stored: Option<Hits>, hits: seq<nat>, now: nat, limit: nat, len: nat)
    requires len > 0 && Keeps(stored, hits, len) && Ordered(hits) && UpTo(hits, now)
    ensures var p, c := Previous(hits, now, len), InFrame(hits, now / 1000 / len, len);
            Call(stored, now, limit, len).1 <==> p * (len - now / 1000 % len) / len + c < limit
  {
    RecentHolds(stored, hits, now, len);
    CurrentIsUnbroken(hits, now, len);
    PreviousIsUnbroken(hits, now, len);
    WeightedIs(Previous(hits, now, len), Phase(now, len), len);
  }

  /**
   * After any calls in time order, a further one is accepted exactly when the
   * hits of its own frame, plus the share of the previous frame's hits that is
   * still in view, stay below the limit. The previous frame counts while less
   * than a frame length of silence followed its last hit.
   */
  lemma AcceptedIff(times: seq<nat>, now: nat, limit: nat, len: nat)
    requires len > 0 && Ordered(times + [now])
    ensures var hits := Calls(times, limit, len).1;
            var p, c := Previous(hits, now, len), InFrame(hits, now / 1000 / len, len);
            Calls(times + [now], limit, len).1 ==
              if p * (len - now / 1000 % len) / len + c < limit then hits + [now] else hits
  {
    var longer := times + [now];
    assert longer[..|times|] == times;
    assert forall i :: 0 <= i < |times| ==> longer[i] == times[i];
    RunKeeps(times, limit, len);
    var (stored, hits) := Calls(times, limit, len);
    assert times != [] ==> times[|times| - 1] <= longer[|times|];
    assert UpTo(hits, now);
    CallDecides(stored, hits, now, limit, len);
  }
}
