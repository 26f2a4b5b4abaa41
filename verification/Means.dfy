/** Running means, and the mean of batch means, against the true mean of the readings. */
module Means {
  import opened Arithmetic
  import opened Window

  datatype Point = Point(lat: real, lon: real)

  function MergeReal(mean: real, n: nat, v: real): real {
    (mean * n as real + v) / (n as real + 1.0)
  }

  function MergePoint(mean: Point, n: nat, p: Point): Point {
    Point(MergeReal(mean.lat, n, p.lat), MergeReal(mean.lon, n, p.lon))
  }

  function Sum(c: seq<real>): real {
    if c == [] then 0.0 else Sum(c[..|c| - 1]) + c[|c| - 1]
  }

  function Mean(c: seq<real>): real
    requires c != []
  {
    Sum(c) / |c| as real
  }

  function Lats(c: seq<Point>): seq<real> {
    seq(|c|, i requires 0 <= i < |c| => c[i].lat)
  }

  function Lons(c: seq<Point>): seq<real> {
    seq(|c|, i requires 0 <= i < |c| => c[i].lon)
  }

  function Centroid(c: seq<Point>): Point
    requires c != []
  {
    Point(Mean(Lats(c)), Mean(Lons(c)))
  }

  /** The first components of a record of speeds. */
  function Values(record: seq<(real, nat)>): seq<real> {
    seq(|record|, i requires 0 <= i < |record| => record[i].0)
  }

  /** The mean of the batch means, as the detectors take it. */
  function MeanOfMeans(record: seq<(real, nat)>): real
    requires record != []
  {
    Mean(Values(record))
  }

  function Centers(record: seq<(Point, nat)>): seq<Point> {
    seq(|record|, i requires 0 <= i < |record| => record[i].0)
  }

  // ----- running means are means -----

  lemma {:induction false} FoldIsMean(c: seq<real>)
    requires c != []
    ensures Fold(c, MergeReal) == Mean(c)
  {
    if |c| == 1 {
      assert c[..0] == [];
    } else {
      var p := c[..|c| - 1];
      FoldIsMean(p);
      assert Mean(p) * |p| as real == Sum(p);
    }
  }

  lemma {:induction false} FoldPoint(c: seq<Point>)
    requires c != []
    ensures Fold(c, MergePoint) == Point(Fold(Lats(c), MergeReal), Fold(Lons(c), MergeReal))
  {
    if |c| > 1 {
      var p := c[..|c| - 1];
      FoldPoint(p);
      assert Lats(c)[..|c| - 1] == Lats(p);
      assert Lons(c)[..|c| - 1] == Lons(p);
    }
  }

  lemma FoldIsCentroid(c: seq<Point>)
    requires c != []
    ensures Fold(c, MergePoint) == Centroid(c)
  {
    FoldPoint(c);
    FoldIsMean(Lats(c));
    FoldIsMean(Lons(c));
  }

  // ----- equal batches: the mean of means is the mean -----

  lemma {:induction false} SumCons(x: real, c: seq<real>)
    ensures Sum([x] + c) == x + Sum(c)
  {
    if c == [] {
      assert [x] + c == [x] && [x][..0] == [];
    } else {
      SumCons(x, c[..|c| - 1]);
      assert ([x] + c)[..|c|] == [x] + c[..|c| - 1];
    }
  }

  lemma {:induction false} SumConcat(a: seq<real>, b: seq<real>)
    ensures Sum(a + b) == Sum(a) + Sum(b)
  {
    if b == [] {
      assert a + b == a;
    } else {
      SumConcat(a, b[..|b| - 1]);
      assert (a + b)[..|a + b| - 1] == a + b[..|b| - 1];
    }
  }

  lemma ValuesCons(head: (real, nat), tail: seq<(real, nat)>)
    ensures Values([head] + tail) == [head.0] + Values(tail)
  {
  }

  lemma SplitBatches<T>(w: seq<T>, m: nat, merge: Merge<T>)
    requires 0 < m <= |w|
    ensures Batches(w, m, merge) == [(Fold(w[..m], merge), m)] + Batches(w[m..], m, merge)
  {
    if |w| == m {
      assert w[..m] == w && w[m..] == [];
    }
  }

  function Over(x: real, m: nat): real
    requires m > 0
  {
    x / m as real
  }

  lemma OverSum(x: real, y: real, z: real, m: nat)
    requires m > 0 && z == x + y
    ensures Over(x, m) + Over(y, m) == Over(z, m)
  {
  }

  /** With only full batches the batch means add up to the readings divided by m. */
  lemma {:induction false} FullBatches(w: seq<real>, m: nat)
    requires m > 0 && Rest(|w|, m) == 0
    ensures var r := Batches(w, m, MergeReal);
            |r| == Wholes(|w|, m) && Sum(Values(r)) == Over(Sum(w), m)
    decreases |w|
  {
    if w == [] {
      assert Values(Batches(w, m, MergeReal)) == [];
    } else {
      FullBatches(w[m..], m);
      SplitBatches(w, m, MergeReal);
      HeadMean(w, m);
      SumSplits(w, m);
      OverSum(Sum(w[..m]), Sum(w[m..]), Sum(w), m);
      var mean, tail := Fold(w[..m], MergeReal), Batches(w[m..], m, MergeReal);
      ValuesCons((mean, m), tail);
      SumCons(mean, Values(tail));
    }
  }

  lemma HeadMean(w: seq<real>, m: nat)
    requires 0 < m <= |w|
    ensures Fold(w[..m], MergeReal) == Over(Sum(w[..m]), m)
  {
    FoldIsMean(w[..m]);
  }

  lemma SumSplits(w: seq<real>, m: nat)
    requires m <= |w|
    ensures Sum(w) == Sum(w[..m]) + Sum(w[m..])
  {
    assert w[..m] + w[m..] == w;
    SumConcat(w[..m], w[m..]);
  }

  lemma {:induction false} RealProduct(a: nat, b: nat)
    ensures (a * b) as real == a as real * b as real
  {
    if a > 0 {
      RealProduct(a - 1, b);
      assert a * b == (a - 1) * b + b;
      assert (a - 1) as real * b as real + b as real == a as real * b as real;
    }
  }

  lemma QuotientOfQuotient(x: real, m: real, k: real)
    requires m > 0.0 && k > 0.0
    ensures k * m > 0.0 && (x / m) / k == x / (k * m)
  {
    var y := (x / m) / k;
    assert y * k == x / m;
    assert (y * k) * m == x;
    assert y * (k * m) == x;
  }

  lemma CountsAgree(a: real, k: nat, x: real, m: nat, l: nat)
    requires k > 0 && m > 0 && a == x / m as real && l == k * m
    ensures l > 0 && a / k as real == x / l as real
  {
    RealProduct(k, m);
    QuotientOfQuotient(x, m as real, k as real);
  }

  lemma MeanOfMeansIsMean(w: seq<real>, m: nat)
    requires m > 0 && w != [] && Rest(|w|, m) == 0
    ensures Batches(w, m, MergeReal) != [] && MeanOfMeans(Batches(w, m, MergeReal)) == Mean(w)
  {
    var r := Batches(w, m, MergeReal);
    FullBatches(w, m);
    WholesTimes(|w|, m);
    CountsAgree(Sum(Values(r)), |r|, Sum(w), m, |w|);
  }

  lemma CoordinateSlices(w: seq<Point>, m: nat)
    requires m <= |w|
    ensures Lats(w)[..m] == Lats(w[..m]) && Lats(w)[m..] == Lats(w[m..])
    ensures Lons(w)[..m] == Lons(w[..m]) && Lons(w)[m..] == Lons(w[m..])
  {
  }

  /** The same for positions, coordinate by coordinate. */
  lemma {:induction false} PointBatches(w: seq<Point>, m: nat)
    requires m > 0
    ensures var r := Batches(w, m, MergePoint);
            Lats(Centers(r)) == Values(Batches(Lats(w), m, MergeReal)) &&
            Lons(Centers(r)) == Values(Batches(Lons(w), m, MergeReal))
    decreases |w|
  {
    if w != [] && |w| <= m {
      FoldPoint(w);
    } else if w != [] {
      PointBatches(w[m..], m);
      FoldPoint(w[..m]);
      SplitBatches(w, m, MergePoint);
      SplitBatches(Lats(w), m, MergeReal);
      SplitBatches(Lons(w), m, MergeReal);
      CoordinateSlices(w, m);
      var head, tail := Fold(w[..m], MergePoint), Batches(w[m..], m, MergePoint);
      CentersCons((head, m), tail);
      ValuesCons((head.lat, m), Batches(Lats(w[m..]), m, MergeReal));
      ValuesCons((head.lon, m), Batches(Lons(w[m..]), m, MergeReal));
    }
  }

  lemma CentersCons(head: (Point, nat), tail: seq<(Point, nat)>)
    ensures Lats(Centers([head] + tail)) == [head.0.lat] + Lats(Centers(tail))
    ensures Lons(Centers([head] + tail)) == [head.0.lon] + Lons(Centers(tail))
  {
  }

  lemma CentroidOfCenters(w: seq<Point>, m: nat)
    requires m > 0 && w != [] && Rest(|w|, m) == 0
    ensures Batches(w, m, MergePoint) != [] && Centroid(Centers(Batches(w, m, MergePoint))) == Centroid(w)
  {
    BatchesNonempty(w, m, MergePoint);
    PointBatches(w, m);
    MeanOfMeansIsMean(Lats(w), m);
    MeanOfMeansIsMean(Lons(w), m);
  }

  // ----- one and the same reading -----

  function Same<T>(n: nat, v: T): (r: seq<T>)
    ensures |r| == n
  {
    seq(n, _ => v)
  }

  lemma {:induction false} SumSame(n: nat, v: real)
    ensures Sum(Same(n, v)) == n as real * v
  {
    if n > 0 {
      SumSame(n - 1, v);
      assert Same(n, v)[..n - 1] == Same(n - 1, v);
      var x := (n - 1) as real;
      assert x * v + v == (x + 1.0) * v;
    }
  }

  lemma MeanSame(n: nat, v: real)
    requires n > 0
    ensures Mean(Same(n, v)) == v
  {
    SumSame(n, v);
    var x := n as real;
    assert (x * v) / x == v;
  }

  lemma CentroidSame(n: nat, p: Point)
    requires n > 0
    ensures Centroid(Same(n, p)) == p
  {
    assert Lats(Same(n, p)) == Same(n, p.lat) && Lons(Same(n, p)) == Same(n, p.lon);
    MeanSame(n, p.lat);
    MeanSame(n, p.lon);
  }

  lemma FoldSame(n: nat, v: real)
    requires n > 0
    ensures Fold(Same(n, v), MergeReal) == v
  {
    FoldIsMean(Same(n, v));
    MeanSame(n, v);
  }

  lemma SameCons(v: real, k: nat, tail: seq<real>)
    ensures [v] + (Same(k, v) + tail) == Same(k + 1, v) + tail
  {
  }

  /** The batch means of one and the same reading. */
  lemma {:induction false} SameBatches(n: nat, v: real, m: nat)
    requires m > 0
    ensures var r := Batches(Same(n, v), m, MergeReal); Values(r) == Same(|r|, v)
    decreases n
  {
    var w := Same(n, v);
    if n > m {
      assert w[..m] == Same(m, v) && w[m..] == Same(n - m, v);
      FoldSame(m, v);
      SameBatches(n - m, v, m);
      SplitBatches(w, m, MergeReal);
      var tail := Batches(w[m..], m, MergeReal);
      ValuesCons((v, m), tail);
      assert [v] + Same(|tail|, v) == Same(|tail| + 1, v);
    } else if n > 0 {
      FoldSame(n, v);
    }
  }

  lemma SameJudged(n: nat, v: real, m: nat)
    requires m > 0 && n > 0
    ensures Batches(Same(n, v), m, MergeReal) != [] && MeanOfMeans(Batches(Same(n, v), m, MergeReal)) == v
  {
    BatchesNonempty(Same(n, v), m, MergeReal);
    SameBatches(n, v, m);
    MeanSame(|Batches(Same(n, v), m, MergeReal)|, v);
  }

  /** The centre of the batch centres of one and the same position. */
  lemma SameCentre(n: nat, p: Point, m: nat)
    requires m > 0 && n > 0
    ensures var r := Batches(Same(n, p), m, MergePoint); r != [] && Centroid(Centers(r)) == p
  {
    BatchesNonempty(Same(n, p), m, MergePoint);
    PointBatches(Same(n, p), m);
    assert Lats(Same(n, p)) == Same(n, p.lat) && Lons(Same(n, p)) == Same(n, p.lon);
    SameJudged(n, p.lat, m);
    SameJudged(n, p.lon, m);
  }

  // ----- unequal batches: the mean of means is not the mean -----

  /** n readings u, and then r readings v. */
  function Levels<T>(n: nat, u: T, r: nat, v: T): (w: seq<T>)
    ensures |w| == n + r
  {
    Same(n, u) + Same(r, v)
  }

  lemma FirstLevel<T>(n: nat, u: T, r: nat, v: T, m: nat)
    requires m <= n
    ensures var w := Levels(n, u, r, v); w[..m] == Same(m, u) && w[m..] == Levels(n - m, u, r, v)
  {
  }

  /** The first level fills whole batches, the second a short one. */
  lemma {:induction false} ShortLastBatch(n: nat, u: real, r: nat, v: real, m: nat)
    requires 0 < r < m && Rest(n, m) == 0
    ensures Values(Batches(Levels(n, u, r, v), m, MergeReal)) == Same(Wholes(n, m), u) + [v]
    decreases n
  {
    var w := Levels(n, u, r, v);
    if n == 0 {
      assert w == Same(r, v);
      FoldSame(r, v);
      assert Batches(w, m, MergeReal) == [(v, r)];
    } else {
      FirstLevel(n, u, r, v, m);
      SplitBatches(w, m, MergeReal);
      FoldSame(m, u);
      ShortLastBatch(n - m, u, r, v, m);
      ValuesCons((u, m), Batches(w[m..], m, MergeReal));
      SameCons(u, Wholes(n - m, m), [v]);
    }
  }

  /** Two levels whose mean is a while the mean of their batch means is b. */
  lemma SkewLevels(k: nat, r: nat, m: nat, a: real, b: real) returns (u: real, v: real)
    requires 0 < k && 0 < r < m
    ensures k as real * m as real * u + r as real * v == (k as real * m as real + r as real) * a
    ensures k as real * u + v == (k as real + 1.0) * b
  {
    var x, y, z := k as real, r as real, m as real;
    assert x * (z - y) > 0.0;
    var e := (b - a) * (x + 1.0) / (x * (z - y));
    assert e * (x * (z - y)) == (b - a) * (x + 1.0);
    u, v := a - y * e, a + x * z * e;
    assert x * u + v == (x + 1.0) * a + e * (x * (z - y));
    assert (x + 1.0) * a + (b - a) * (x + 1.0) == (x + 1.0) * b;
    assert x * z * u + y * v == (x * z + y) * a;
  }

  lemma SumLevels(n: nat, u: real, r: nat, v: real)
    ensures Sum(Levels(n, u, r, v)) == n as real * u + r as real * v
  {
    SumConcat(Same(n, u), Same(r, v));
    SumSame(n, u);
    SumSame(r, v);
  }

  lemma Divided(sum: real, n: nat, a: real)
    requires n > 0 && sum == n as real * a
    ensures sum / n as real == a
  {
  }

  lemma MeanOfLevels(n: nat, u: real, r: nat, v: real, a: real)
    requires n + r > 0 && n as real * u + r as real * v == (n + r) as real * a
    ensures Mean(Levels(n, u, r, v)) == a
  {
    SumLevels(n, u, r, v);
    Divided(Sum(Levels(n, u, r, v)), n + r, a);
  }

  lemma LastShare(k: nat, u: real, v: real, b: real)
    requires k as real * u + v == (k as real + 1.0) * b
    ensures Mean(Same(k, u) + [v]) == b
  {
    assert Same(k, u) + [v] == Levels(k, u, 1, v);
    assert (k + 1) as real == k as real + 1.0;
    MeanOfLevels(k, u, 1, v, b);
  }

  /** Where the batches do not come out even, any a can be the mean and any b the mean of the batch means. */
  lemma Skewed(s: nat, m: nat, a: real, b: real) returns (h: seq<real>)
    requires Sized(s, m) && Rest(s, m) > 0
    ensures |h| == s && Mean(h) == a
    ensures Batches(h, m, MergeReal) != [] && MeanOfMeans(Batches(h, m, MergeReal)) == b
  {
    var k, r := Wholes(s, m), Rest(s, m);
    WholesTimes(s, m);
    var u, v := SkewLevels(k, r, m, a, b);
    h := Levels(k * m, u, r, v);
    RealProduct(k, m);
    MeanOfLevels(k * m, u, r, v, a);
    WholePart(k, m);
    ShortLastBatch(k * m, u, r, v, m);
    BatchesNonempty(h, m, MergeReal);
    LastShare(k, u, v, b);
  }
}
