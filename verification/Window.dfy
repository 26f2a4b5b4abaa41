/**
 * The batched sliding window of the violation detectors: a deque of
 * (batch mean, batch size) pairs that stands for the latest readings.
 */
module Window {
  import opened Arithmetic
  import opened Common

  /** How a detector folds one more reading into the mean of a batch of n. */
  type Merge<!T> = (T, nat, T) -> T

  datatype Window<T> = Window(total: nat, record: seq<(T, nat)>)

  /**
   * One more reading v for a window of sample size s and batch size m. The
   * second result tells whether a verdict is due. When the window is full its
   * oldest batch goes; with `reclone` the merging branch then works on the
   * record as it was before that.
   */
  function Step<T>(w: Option<Window<T>>, v: T, s: nat, m: nat, merge: Merge<T>, reclone: bool): (Window<T>, bool)
    requires m <= s
  {
    if w.None? || w.value.record == [] then (Window(1, [(v, 1)]), false)
    else
      var (total, record) := (w.value.total, w.value.record);
      var last := record[|record| - 1];
      if total < s then
        if last.1 < m then (Window(total + 1, MergeLast(record, v, merge)), total + 1 == s)
        else (Window(total + 1, record + [(v, 1)]), false)
      else if |record| == 1 then (Window(1, [(v, 1)]), false)
      else if last.1 < m then
        (Window(total - m + 1, MergeLast(if reclone then record else record[1..], v, merge)), total - m + 1 == s)
      else (Window(total - m + 1, record[1..] + [(v, 1)]), false)
  }

  function MergeLast<T>(record: seq<(T, nat)>, v: T, merge: Merge<T>): seq<(T, nat)>
    requires record != []
  {
    var last := record[|record| - 1];
    record[..|record| - 1] + [(merge(last.0, last.1, v), last.1 + 1)]
  }

  /** The window after the readings h, from no state. */
  function Run<T>(h: seq<T>, s: nat, m: nat, merge: Merge<T>, reclone: bool): Option<Window<T>>
    requires m <= s
  {
    if h == [] then None
    else Some(Step(Run(h[..|h| - 1], s, m, merge, reclone), h[|h| - 1], s, m, merge, reclone).0)
  }

  /** Whether the last of the readings h brings a verdict. */
  predicate Due<T>(h: seq<T>, s: nat, m: nat, merge: Merge<T>, reclone: bool)
    requires m <= s
  {
    h != [] && Step(Run(h[..|h| - 1], s, m, merge, reclone), h[|h| - 1], s, m, merge, reclone).1
  }

  // ----- what the window stands for -----

  /** The running mean of one batch. */
  function Fold<T>(c: seq<T>, merge: Merge<T>): T
    requires c != []
  {
    if |c| == 1 then c[0] else merge(Fold(c[..|c| - 1], merge), |c| - 1, c[|c| - 1])
  }

  /** Readings w cut from the front into batches of m, each with its running mean. */
  function Batches<T>(w: seq<T>, m: nat, merge: Merge<T>): seq<(T, nat)>
    requires m > 0
    decreases |w|
  {
    if w == [] then []
    else if |w| <= m then [(Fold(w, merge), |w|)]
    else [(Fold(w[..m], merge), m)] + Batches(w[m..], m, merge)
  }

  /** How many of the first n readings the window covers. */
  function Covered(n: nat, s: nat, m: nat): nat
    requires m <= s
  {
    if n <= s then n
    else
      var c := Covered(n - 1, s, m);
      if c < s then c + 1 else c - m + 1
  }

  predicate Sized(s: nat, m: nat) {
    0 < m <= s
  }

  lemma {:induction false} CoveredBounds(n: nat, s: nat, m: nat)
    requires Sized(s, m)
    ensures Covered(n, s, m) <= n && Covered(n, s, m) <= s && (n > 0 ==> Covered(n, s, m) > 0)
  {
    if n > s {
      CoveredBounds(n - 1, s, m);
    }
  }

  lemma CoveredNext(n: nat, s: nat, m: nat)
    requires Sized(s, m)
    ensures Covered(n + 1, s, m) == if Covered(n, s, m) < s then Covered(n, s, m) + 1 else s - m + 1
  {
    CoveredBounds(n, s, m);
  }

  /** The readings that leave the count are whole batches. */
  lemma {:induction false} CoveredRest(n: nat, s: nat, m: nat)
    requires Sized(s, m)
    ensures Rest(Covered(n, s, m), m) == Rest(n, m)
  {
    if n > s {
      var c := Covered(n - 1, s, m);
      CoveredRest(n - 1, s, m);
      RestNext(n - 1, m);
      RestNext(c, m);
      assert Rest(c + 1, m) == Rest(n, m);
    }
  }

  /** The window fills up at the readings s, s + m, s + 2m, ... */
  lemma {:induction false} CoveredCycle(k: nat, j: nat, s: nat, m: nat)
    requires Sized(s, m) && j < m
    ensures Covered(s + k * m + j, s, m) == if j == 0 then s else s - m + j
    decreases k, j
  {
    if j > 0 {
      CoveredCycle(k, j - 1, s, m);
    } else if k > 0 {
      assert s + k * m == s + (k - 1) * m + (m - 1) + 1;
      CoveredCycle(k - 1, m - 1, s, m);
    }
  }

  lemma CoveredFull(n: nat, s: nat, m: nat)
    requires Sized(s, m) && n >= s
    ensures Covered(n, s, m) == s <==> (n - s) % m == 0
  {
    var k, j := (n - s) / m, (n - s) % m;
    assert n == s + k * m + j;
    CoveredCycle(k, j, s, m);
  }

  lemma {:induction false} BatchesNonempty<T>(w: seq<T>, m: nat, merge: Merge<T>)
    requires m > 0 && w != []
    ensures Batches(w, m, merge) != []
    ensures var r := Batches(w, m, merge); r[|r| - 1].1 == if Rest(|w|, m) == 0 then m else Rest(|w|, m)
    decreases |w|
  {
    if |w| > m {
      BatchesNonempty(w[m..], m, merge);
      LastOfCons((Fold(w[..m], merge), m), Batches(w[m..], m, merge));
    } else {
      assert Batches(w, m, merge) == [(Fold(w, merge), |w|)];
    }
  }

  lemma LastOfCons<T>(head: T, tail: seq<T>)
    requires tail != []
    ensures var r := [head] + tail; r != [] && r[|r| - 1] == tail[|tail| - 1]
  {
  }

  lemma MergeLastCons<T>(head: (T, nat), tail: seq<(T, nat)>, v: T, merge: Merge<T>)
    requires tail != []
    ensures MergeLast([head] + tail, v, merge) == [head] + MergeLast(tail, v, merge)
  {
    assert ([head] + tail)[..|tail|] == [head] + tail[..|tail| - 1];
  }

  /** One more reading v extends the last batch, or opens a new one when that is full. */
  ghost predicate Grows<T>(w: seq<T>, v: T, m: nat, merge: Merge<T>)
    requires m > 0
  {
    var r := Batches(w, m, merge);
    r != [] &&
    Batches(w + [v], m, merge) == if Rest(|w|, m) == 0 then r + [(v, 1)] else MergeLast(r, v, merge)
  }

  lemma GrowOnly<T>(w: seq<T>, v: T, m: nat, merge: Merge<T>)
    requires 0 < |w| < m
    ensures Grows(w, v, m, merge)
  {
    var longer := w + [v];
    assert longer[..|w|] == w;
    assert Batches(w, m, merge) == [(Fold(w, merge), |w|)];
    assert Batches(longer, m, merge) == [(Fold(longer, merge), |w| + 1)];
  }

  lemma GrowFirst<T>(w: seq<T>, v: T, m: nat, merge: Merge<T>)
    requires 0 < |w| == m
    ensures Grows(w, v, m, merge)
  {
    var longer := w + [v];
    assert longer[..m] == w && longer[m..] == [v];
    assert Batches([v], m, merge) == [(v, 1)];
  }

  lemma SplitFirst<T>(w: seq<T>, v: T, m: nat, merge: Merge<T>)
    requires 0 < m < |w|
    ensures Batches(w + [v], m, merge) == [(Fold(w[..m], merge), m)] + Batches(w[m..] + [v], m, merge)
  {
    var longer := w + [v];
    assert longer[..m] == w[..m] && longer[m..] == w[m..] + [v];
  }

  lemma GrowLater<T>(w: seq<T>, v: T, m: nat, merge: Merge<T>)
    requires 0 < m < |w| && Grows(w[m..], v, m, merge)
    ensures Grows(w, v, m, merge)
  {
    SplitFirst(w, v, m, merge);
    var head, tail := (Fold(w[..m], merge), m), Batches(w[m..], m, merge);
    MergeLastCons(head, tail, v, merge);
    assert ([head] + tail) + [(v, 1)] == [head] + (tail + [(v, 1)]);
  }

  lemma {:induction false} BatchesGrow<T>(w: seq<T>, v: T, m: nat, merge: Merge<T>)
    requires m > 0 && w != []
    ensures Grows(w, v, m, merge)
    decreases |w|
  {
    if |w| < m {
      GrowOnly(w, v, m, merge);
    } else if |w| == m {
      GrowFirst(w, v, m, merge);
    } else {
      BatchesGrow(w[m..], v, m, merge);
      GrowLater(w, v, m, merge);
    }
  }

  /**
   * The number of latest readings that the record holds. Where it is built
   * from the un-popped record and ends in a short batch, nothing is ever dropped.
   */
  function Held(n: nat, s: nat, m: nat, reclone: bool): nat
    requires Sized(s, m)
  {
    if reclone && Rest(s, m) != 0 then n else Covered(n, s, m)
  }

  lemma HeldBounds(n: nat, s: nat, m: nat, reclone: bool)
    requires Sized(s, m)
    ensures Held(n, s, m, reclone) <= n && (n > 0 ==> Held(n, s, m, reclone) > 0)
    ensures Rest(Held(n, s, m, reclone), m) == Rest(n, m) == Rest(Covered(n, s, m), m)
    ensures Covered(n, s, m) <= Held(n, s, m, reclone)
  {
    CoveredBounds(n, s, m);
    CoveredRest(n, s, m);
  }

  /** The latest readings, as far as the record holds them. */
  function HeldReadings<T>(h: seq<T>, s: nat, m: nat, reclone: bool): seq<T>
    requires Sized(s, m)
  {
    HeldBounds(|h|, s, m, reclone);
    Suffix(h, Held(|h|, s, m, reclone))
  }

  function Suffix<T>(h: seq<T>, k: nat): (r: seq<T>)
    requires k <= |h|
    ensures |r| == k
  {
    h[|h| - k..]
  }

  /** The record stands for the readings `win`, batch by batch. */
  ghost predicate Holds<T>(w: Window<T>, win: seq<T>, total: nat, m: nat, merge: Merge<T>) {
    m > 0 && w.total == total && w.record == Batches(win, m, merge)
  }

  /** A window that is not full takes one more reading. */
  lemma FillingStep<T>(w: Window<T>, win: seq<T>, v: T, s: nat, m: nat, merge: Merge<T>, reclone: bool)
    requires 0 < m <= s && w.total < s && win != [] && Holds(w, win, w.total, m, merge)
    ensures var (w', due) := Step(Some(w), v, s, m, merge, reclone);
            Holds(w', win + [v], w.total + 1, m, merge) && (due <==> w.total + 1 == s && Rest(|win|, m) != 0)
  {
    BatchesNonempty(win, m, merge);
    BatchesGrow(win, v, m, merge);
  }

  /** A full window that ends in a short batch goes on with the un-popped record: it only grows. */
  lemma HoardingStep<T>(w: Window<T>, win: seq<T>, v: T, s: nat, m: nat, merge: Merge<T>)
    requires 0 < m < s <= |win| && Rest(|win|, m) != 0 && Holds(w, win, s, m, merge)
    ensures var (w', due) := Step(Some(w), v, s, m, merge, true);
            Holds(w', win + [v], s - m + 1, m, merge) && !due
  {
    KeepAndGrow(win, v, m, merge);
    RestOne(|win|, m);
  }

  /** Otherwise a full window of several batches drops the first one. */
  lemma SlidingStep<T>(w: Window<T>, win: seq<T>, v: T, s: nat, m: nat, merge: Merge<T>, reclone: bool)
    requires 0 < m < s == |win| && Holds(w, win, s, m, merge)
    requires reclone ==> Rest(s, m) == 0
    ensures var (w', due) := Step(Some(w), v, s, m, merge, reclone);
            Holds(w', win[m..] + [v], s - m + 1, m, merge) && !due
  {
    DropAndGrow(win, v, m, merge);
    RestOne(s, m);
  }

  /** A full window of one batch starts over. */
  lemma RestartStep<T>(w: Window<T>, win: seq<T>, v: T, s: nat, m: nat, merge: Merge<T>, reclone: bool)
    requires 0 < m == s == |win| && Holds(w, win, s, m, merge)
    ensures var (w', due) := Step(Some(w), v, s, m, merge, reclone);
            Holds(w', [v], 1, m, merge) && !due
  {
    assert |Batches(win, m, merge)| == 1;
    assert Batches([v], m, merge) == [(v, 1)];
  }

  /** Without its first batch a record stands for the readings without their first m. */
  lemma DropFirst<T>(win: seq<T>, m: nat, merge: Merge<T>)
    requires 0 < m < |win|
    ensures var r, tail := Batches(win, m, merge), Batches(win[m..], m, merge);
            |r| > 1 && r[1..] == tail && tail != [] && r[|r| - 1] == tail[|tail| - 1] &&
            r[|r| - 1].1 == (if Rest(|win|, m) == 0 then m else Rest(|win|, m)) &&
            Rest(|win[m..]|, m) == Rest(|win|, m)
  {
    BatchesNonempty(win, m, merge);
    BatchesNonempty(win[m..], m, merge);
  }

  lemma KeepAndGrow<T>(win: seq<T>, v: T, m: nat, merge: Merge<T>)
    requires 0 < m < |win| && Rest(|win|, m) != 0
    ensures var r := Batches(win, m, merge);
            |r| > 1 && r[|r| - 1].1 < m && Batches(win + [v], m, merge) == MergeLast(r, v, merge)
  {
    DropFirst(win, m, merge);
    BatchesGrow(win, v, m, merge);
  }

  lemma DropAndGrow<T>(win: seq<T>, v: T, m: nat, merge: Merge<T>)
    requires 0 < m < |win|
    ensures var r := Batches(win, m, merge);
            |r| > 1 && (r[|r| - 1].1 < m <==> Rest(|win|, m) != 0) &&
            Batches(win[m..] + [v], m, merge) ==
              if Rest(|win|, m) == 0 then r[1..] + [(v, 1)] else MergeLast(r[1..], v, merge)
  {
    DropFirst(win, m, merge);
    BatchesGrow(win[m..], v, m, merge);
  }

  /** The record is what the last of the held readings amount to; `total` is what the window counts. */
  ghost predicate Refines<T>(w: Window<T>, h: seq<T>, s: nat, m: nat, merge: Merge<T>, reclone: bool) {
    Sized(s, m) && Holds(w, HeldReadings(h, s, m, reclone), Covered(|h|, s, m), m, merge)
  }

  /** How many readings are held after one more. */
  lemma HeldCount(n: nat, s: nat, m: nat, reclone: bool)
    requires Sized(s, m) && n > 0
    ensures var k := Held(n, s, m, reclone);
            k <= n &&
            Held(n + 1, s, m, reclone) ==
              if Covered(n, s, m) < s || (reclone && Rest(s, m) != 0) then k + 1 else if m < k then k - m + 1 else 1
  {
    CoveredNext(n, s, m);
    CoveredBounds(n, s, m);
  }

  lemma SuffixGrows<T>(h: seq<T>, v: T, k: nat)
    requires k <= |h|
    ensures Suffix(h + [v], k + 1) == Suffix(h, k) + [v]
  {
  }

  lemma SuffixDrops<T>(h: seq<T>, m: nat, k: nat)
    requires m <= k <= |h|
    ensures Suffix(h, k)[m..] == Suffix(h, k - m)
  {
  }

  lemma SuffixNext<T>(h: seq<T>, v: T, m: nat, k: nat, next: nat)
    requires k <= |h| && (next == k + 1 || next == 1 || (m < k && next == k - m + 1))
    ensures Suffix(h + [v], next) ==
            if next == k + 1 then Suffix(h, k) + [v] else if next == 1 then [v] else Suffix(h, k)[m..] + [v]
  {
    SuffixGrows(h, v, next - 1);
    if next != k + 1 && next != 1 {
      SuffixDrops(h, m, k);
    }
  }

  /** How the held readings change with one more reading. */
  lemma HeldNext<T>(h: seq<T>, v: T, s: nat, m: nat, reclone: bool)
    requires Sized(s, m) && h != []
    ensures var win, next := HeldReadings(h, s, m, reclone), HeldReadings(h + [v], s, m, reclone);
            next == if Covered(|h|, s, m) < s || (reclone && Rest(s, m) != 0) then win + [v]
                    else if m < |win| then win[m..] + [v]
                    else [v]
  {
    HeldCount(|h|, s, m, reclone);
    HeldBounds(|h|, s, m, reclone);
    SuffixNext(h, v, m, Held(|h|, s, m, reclone), Held(|h| + 1, s, m, reclone));
  }

  lemma HeldSize<T>(h: seq<T>, s: nat, m: nat, reclone: bool)
    requires Sized(s, m) && h != []
    ensures var win := HeldReadings(h, s, m, reclone);
            win != [] && |win| == Held(|h|, s, m, reclone) && |win| >= Covered(|h|, s, m) &&
            Rest(|win|, m) == Rest(Covered(|h|, s, m), m)
  {
    HeldBounds(|h|, s, m, reclone);
  }

  lemma StepRefines<T>(w: Window<T>, h: seq<T>, v: T, s: nat, m: nat, merge: Merge<T>, reclone: bool)
    requires h != [] && Refines(w, h, s, m, merge, reclone)
    ensures var (w', due) := Step(Some(w), v, s, m, merge, reclone);
            Refines(w', h + [v], s, m, merge, reclone) &&
            (due <==> Covered(|h| + 1, s, m) == s && Rest(Covered(|h|, s, m), m) != 0 && Covered(|h|, s, m) < s)
  {
    var win := HeldReadings(h, s, m, reclone);
    HeldSize(h, s, m, reclone);
    HeldNext(h, v, s, m, reclone);
    CoveredNext(|h|, s, m);
    CoveredBounds(|h|, s, m);
    if w.total < s {
      FillingStep(w, win, v, s, m, merge, reclone);
    } else if reclone && Rest(s, m) != 0 {
      RestSelf(s, m);
      HoardingStep(w, win, v, s, m, merge);
    } else if m < s {
      SlidingStep(w, win, v, s, m, merge, reclone);
    } else {
      RestartStep(w, win, v, s, m, merge, reclone);
    }
  }

  lemma RestSelf(s: nat, m: nat)
    requires Sized(s, m) && Rest(s, m) != 0
    ensures m < s
  {
  }

  lemma RunStep<T>(h: seq<T>, v: T, s: nat, m: nat, merge: Merge<T>, reclone: bool)
    requires m <= s
    ensures var step := Step(Run(h, s, m, merge, reclone), v, s, m, merge, reclone);
            Run(h + [v], s, m, merge, reclone) == Some(step.0) && (Due(h + [v], s, m, merge, reclone) <==> step.1)
  {
    assert (h + [v])[..|h + [v]| - 1] == h;
  }

  /**
   * For every history the record is the batch-wise running means of the
   * readings it holds, and the total is the number it should hold.
   */
  lemma {:induction false} RunRefines<T>(h: seq<T>, s: nat, m: nat, merge: Merge<T>, reclone: bool)
    requires Sized(s, m) && h != []
    ensures Refines(Run(h, s, m, merge, reclone).value, h, s, m, merge, reclone)
  {
    var p, v := h[..|h| - 1], h[|h| - 1];
    if p == [] {
      RunOne(v, s, m, merge, reclone);
      assert h == [v];
    } else {
      RunRefines(p, s, m, merge, reclone);
      StepRefines(Run(p, s, m, merge, reclone).value, p, v, s, m, merge, reclone);
      assert p + [v] == h;
    }
  }

  lemma RunOne<T>(v: T, s: nat, m: nat, merge: Merge<T>, reclone: bool)
    requires Sized(s, m)
    ensures Refines(Run([v], s, m, merge, reclone).value, [v], s, m, merge, reclone)
  {
    HeldSize([v], s, m, reclone);
    assert HeldReadings([v], s, m, reclone) == [v];
    assert Batches([v], m, merge) == [(v, 1)];
  }

  /** A verdict is due when a reading fills the window by extending a batch. */
  lemma DueIs<T>(h: seq<T>, s: nat, m: nat, merge: Merge<T>, reclone: bool)
    requires Sized(s, m) && h != []
    ensures Due(h, s, m, merge, reclone) <==> Covered(|h|, s, m) == s && Rest(s, m) != Rest(1, m)
  {
    var p, v := h[..|h| - 1], h[|h| - 1];
    assert p + [v] == h;
    RunStep(p, v, s, m, merge, reclone);
    if p != [] {
      var c := Covered(|p|, s, m);
      RunRefines(p, s, m, merge, reclone);
      StepRefines(Run(p, s, m, merge, reclone).value, p, v, s, m, merge, reclone);
      CoveredNext(|p|, s, m);
      CoveredBounds(|p|, s, m);
      RestNext(c, m);
      RestNext(0, m);
      RestOne(s, m);
    }
  }

  /** The readings at which verdicts come: s, s + m, s + 2m, ..., and none when s leaves 1 modulo m. */
  predicate VerdictTime(n: nat, s: nat, m: nat) {
    0 < m <= s <= n && (n - s) % m == 0 && s % m != 1 % m
  }

  /** A sample size of zero never fills a window: each reading starts over. */
  lemma {:induction false} ZeroSample<T>(h: seq<T>, merge: Merge<T>, reclone: bool)
    requires h != []
    ensures Run(h, 0, 0, merge, reclone) == Some(Window(1, [(h[|h| - 1], 1)])) && !Due(h, 0, 0, merge, reclone)
  {
    if |h| > 1 {
      ZeroSample(h[..|h| - 1], merge, reclone);
    }
  }

  /** Whether or not the record is re-cloned, verdicts come exactly at the verdict times. */
  lemma VerdictTimes<T>(h: seq<T>, s: nat, m: nat, merge: Merge<T>, reclone: bool)
    requires m <= s && (s > 0 ==> m > 0)
    ensures Due(h, s, m, merge, reclone) <==> VerdictTime(|h|, s, m)
  {
    if h != [] && s == 0 {
      ZeroSample(h, merge, reclone);
    } else if h != [] {
      RestIsMod(s, m);
      RestIsMod(1, m);
      DueIs(h, s, m, merge, reclone);
      CoveredBounds(|h|, s, m);
      if |h| >= s {
        CoveredFull(|h|, s, m);
      }
    }
  }

  lemma VerdictCovers(n: nat, s: nat, m: nat)
    requires VerdictTime(n, s, m)
    ensures Covered(n, s, m) == s && s > 1 && m > 1 && Rest(n, m) == Rest(s, m)
  {
    CoveredFull(n, s, m);
    CoveredRest(n, s, m);
  }

  /** At a verdict the record is the batches of the latest s readings, or, where nothing is dropped, of all. */
  lemma VerdictRecord<T>(h: seq<T>, s: nat, m: nat, merge: Merge<T>, reclone: bool)
    requires VerdictTime(|h|, s, m)
    ensures var w := if reclone && s % m != 0 then h else Suffix(h, s);
            Run(h, s, m, merge, reclone).value.record == Batches(w, m, merge)
  {
    RestIsMod(s, m);
    VerdictCovers(|h|, s, m);
    RunRefines(h, s, m, merge, reclone);
  }

  // ----- when working on the un-popped record is harmless -----

  lemma {:induction false} BatchCount<T>(w: seq<T>, m: nat, merge: Merge<T>)
    requires m > 0
    ensures |Batches(w, m, merge)| == DivCeil(|w|, m)
    decreases |w|
  {
    if |w| > m {
      BatchCount(w[m..], m, merge);
    }
  }

  /**
   * With `reclone`, when the batch size does not divide the sample size, the
   * record never loses a reading: it grows by a batch every m readings, while
   * the total goes up and down as if it did.
   */
  lemma NothingIsDropped<T>(h: seq<T>, s: nat, m: nat, merge: Merge<T>)
    requires Sized(s, m) && s % m != 0 && h != []
    ensures Run(h, s, m, merge, true) == Some(Window(Covered(|h|, s, m), Batches(h, m, merge)))
    ensures |Run(h, s, m, merge, true).value.record| == DivCeil(|h|, m)
  {
    RestIsMod(s, m);
    RunRefines(h, s, m, merge, true);
    BatchCount(h, m, merge);
  }

  function CountSum<T>(record: seq<(T, nat)>): nat {
    if record == [] then 0 else CountSum(record[..|record| - 1]) + record[|record| - 1].1
  }

  lemma {:induction false} CountSumCons<T>(head: (T, nat), tail: seq<(T, nat)>)
    ensures CountSum([head] + tail) == head.1 + CountSum(tail)
  {
    if tail == [] {
      assert [head] + tail == [head] && [head][..0] == [];
    } else {
      CountSumCons(head, tail[..|tail| - 1]);
      assert ([head] + tail)[..|tail|] == [head] + tail[..|tail| - 1];
    }
  }

  lemma {:induction false} CountBatches<T>(w: seq<T>, m: nat, merge: Merge<T>)
    requires m > 0
    ensures CountSum(Batches(w, m, merge)) == |w|
    decreases |w|
  {
    if |w| > m {
      CountBatches(w[m..], m, merge);
      CountSumCons((Fold(w[..m], merge), m), Batches(w[m..], m, merge));
    } else if w != [] {
      CountSumCons((Fold(w, merge), |w|), []);
      assert [(Fold(w, merge), |w|)] + [] == [(Fold(w, merge), |w|)];
    }
  }

  lemma RecordCounts<T>(h: seq<T>, s: nat, m: nat, merge: Merge<T>, reclone: bool)
    requires Sized(s, m) && h != []
    ensures var w := Run(h, s, m, merge, reclone).value;
            CountSum(w.record) == Held(|h|, s, m, reclone) && w.total == Covered(|h|, s, m)
  {
    RunRefines(h, s, m, merge, reclone);
    HeldSize(h, s, m, reclone);
    CountBatches(HeldReadings(h, s, m, reclone), m, merge);
  }

  /** Every record built from readings h holds as many readings as it claims. */
  ghost predicate Exact<T>(h: seq<T>, s: nat, m: nat, merge: Merge<T>, reclone: bool)
    requires m <= s
  {
    h != [] ==> var w := Run(h, s, m, merge, reclone).value; CountSum(w.record) == w.total
  }

  /** With `reclone` the record is exact for every history precisely when the batch size divides the sample size. */
  lemma RecloneExactIff<T(!new)>(v: T, s: nat, m: nat, merge: Merge<T>)
    requires Sized(s, m)
    ensures (forall h: seq<T> :: Exact(h, s, m, merge, true)) <==> s % m == 0
  {
    RestIsMod(s, m);
    if s % m == 0 {
      forall h: seq<T> ensures Exact(h, s, m, merge, true) {
        if h != [] {
          RecordCounts(h, s, m, merge, true);
        }
      }
    } else {
      var h := seq(s + 1, _ => v);
      RecordCounts(h, s, m, merge, true);
      CoveredBounds(s + 1, s, m);
      assert !Exact(h, s, m, merge, true);
    }
  }

  /** Without it the record is exact for every history and every batch size. */
  lemma PopExact<T>(h: seq<T>, s: nat, m: nat, merge: Merge<T>)
    requires Sized(s, m)
    ensures Exact(h, s, m, merge, false)
  {
    if h != [] {
      RecordCounts(h, s, m, merge, false);
    }
  }
}
