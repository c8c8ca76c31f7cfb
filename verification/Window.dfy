/**
 The mood wave window: filter by time, sort, and summarise by minimum, maximum, mean,
 slope and volatility, over exact reals. Volatility is kept as its square, the variance.
 */
module Window {
  import opened Numeric

  const SLOPE_DEADBAND_PER_SEC: real := 0.002

  datatype Sample = Sample(t: int, y: real, attentionY: real, confidence: real, visibleFaces: int)
  datatype Point = Point(t: int, y: real, attentionY: real)
  datatype Overall = Declined | Improved | Stable
  datatype Meta = Meta(startMs: int, endMs: int, durationSec: int)
  datatype Summary = Summary(overall: Overall, startY: real, endY: real, minY: real, maxY: real,
                             slopePerSec: real, variance: real)
  datatype Quality = Quality(visibleFacesAvg: real, confidenceAvg: real)
  datatype Wave = Wave(points: seq<Point>, summary: Summary, quality: Quality)

  predicate InWindow(s: Sample, startMs: int, endMs: int) {
    startMs <= s.t <= endMs
  }

  /** The first `n` samples without those outside the window. */
  function Filtered(samples: seq<Sample>, startMs: int, endMs: int, n: nat): seq<Sample>
    requires n <= |samples|
  {
    if n == 0 then []
    else Filtered(samples, startMs, endMs, n - 1) +
         (if InWindow(samples[n - 1], startMs, endMs) then [samples[n - 1]] else [])
  }

  ghost predicate ByTime(s: seq<Sample>) {
    forall i, j :: 0 <= i < j < |s| ==> s[i].t <= s[j].t
  }

  /** `sorted` is what sorting `samples` by time may give: ties come in any order. */
  ghost predicate SortOf(samples: seq<Sample>, sorted: seq<Sample>) {
    ByTime(sorted) && multiset(sorted) == multiset(samples)
  }

  // ---------- sums over the first `n` samples ----------

  function SumY(s: seq<Sample>, n: nat): real
    requires n <= |s|
  {
    if n == 0 then 0.0 else SumY(s, n - 1) + s[n - 1].y
  }

  function SumSquares(s: seq<Sample>, n: nat): real
    requires n <= |s|
  {
    if n == 0 then 0.0 else SumSquares(s, n - 1) + s[n - 1].y * s[n - 1].y
  }

  function SumDeviations(s: seq<Sample>, n: nat, mean: real): real
    requires n <= |s|
  {
    if n == 0 then 0.0
    else SumDeviations(s, n - 1, mean) + (s[n - 1].y - mean) * (s[n - 1].y - mean)
  }

  function SumConfidence(s: seq<Sample>, n: nat): real
    requires n <= |s|
  {
    if n == 0 then 0.0 else SumConfidence(s, n - 1) + s[n - 1].confidence
  }

  function SumFaces(s: seq<Sample>, n: nat): real
    requires n <= |s|
  {
    if n == 0 then 0.0 else SumFaces(s, n - 1) + s[n - 1].visibleFaces as real
  }

  function MinY(s: seq<Sample>, n: nat): real
    requires 0 < n <= |s|
  {
    if n == 1 then s[0].y
    else if s[n - 1].y < MinY(s, n - 1) then s[n - 1].y else MinY(s, n - 1)
  }

  function MaxY(s: seq<Sample>, n: nat): real
    requires 0 < n <= |s|
  {
    if n == 1 then s[0].y
    else if s[n - 1].y > MaxY(s, n - 1) then s[n - 1].y else MaxY(s, n - 1)
  }

  function Points(s: seq<Sample>, n: nat): (p: seq<Point>)
    requires n <= |s|
    ensures |p| == n && forall k :: 0 <= k < n ==> p[k] == Point(s[k].t, s[k].y, s[k].attentionY)
  {
    if n == 0 then [] else Points(s, n - 1) + [Point(s[n - 1].t, s[n - 1].y, s[n - 1].attentionY)]
  }

  function Slope(first: Sample, last: Sample): real {
    var elapsedSec := (last.t - first.t) as real / 1000.0;
    if elapsedSec > 0.0 then (last.y - first.y) / elapsedSec else 0.0
  }

  function Trend(slope: real): Overall {
    if slope < -SLOPE_DEADBAND_PER_SEC then Declined
    else if slope > SLOPE_DEADBAND_PER_SEC then Improved
    else Stable
  }

  function Mean(s: seq<Sample>): real
    requires s != []
  {
    SumY(s, |s|) / |s| as real
  }

  function Variance(s: seq<Sample>): real
    requires s != []
  {
    SumDeviations(s, |s|, Mean(s)) / |s| as real
  }

  /** The wave of samples in time order. */
  function WaveOf(s: seq<Sample>): Wave {
    if s == [] then Wave([], Summary(Stable, 0.0, 0.0, 0.0, 0.0, 0.0, 0.0), Quality(0.0, 0.0))
    else
      var n := |s|;
      var slope := Slope(s[0], s[n - 1]);
      Wave(Points(s, n),
           Summary(Trend(slope), s[0].y, s[n - 1].y, MinY(s, n), MaxY(s, n), slope, Variance(s)),
           Quality(SumFaces(s, n) / n as real, SumConfidence(s, n) / n as real))
  }

  // ---------- the imperative code ----------

  method Filter(samples: seq<Sample>, startMs: int, endMs: int) returns (filtered: seq<Sample>)
    ensures filtered == Filtered(samples, startMs, endMs, |samples|)
  {
    filtered := [];
    for i := 0 to |samples|
      invariant filtered == Filtered(samples, startMs, endMs, i)
    {
      if startMs <= samples[i].t <= endMs {
        filtered := filtered + [samples[i]];
      }
    }
  }

  method SortByTime(s: seq<Sample>) returns (sorted: seq<Sample>)
    ensures SortOf(s, sorted)
  {
    sorted := [];
    for i := 0 to |s|
      invariant SortOf(s[..i], sorted)
    {
      sorted := InsertByTime(sorted, s[i]);
      assert s[..i + 1] == s[..i] + [s[i]];
    }
    assert s[..|s|] == s;
  }

  method InsertByTime(s: seq<Sample>, x: Sample) returns (r: seq<Sample>)
    requires ByTime(s)
    ensures ByTime(r) && multiset(r) == multiset(s) + multiset{x}
  {
    var k := |s|;
    while k > 0 && s[k - 1].t > x.t
      invariant 0 <= k <= |s|
      invariant forall j :: k <= j < |s| ==> s[j].t > x.t
    {
      k := k - 1;
    }
    r := s[..k] + [x] + s[k..];
    SplitMultiset(s, x, k);
    SplitByTime(s, x, k);
  }

  lemma SplitMultiset(s: seq<Sample>, x: Sample, k: nat)
    requires k <= |s|
    ensures multiset(s[..k] + [x] + s[k..]) == multiset(s) + multiset{x}
  {
    assert s == s[..k] + s[k..];
  }

  lemma SplitByTime(s: seq<Sample>, x: Sample, k: nat)
    requires ByTime(s) && k <= |s|
    requires (forall j :: k <= j < |s| ==> s[j].t > x.t) && (k > 0 ==> s[k - 1].t <= x.t)
    ensures ByTime(s[..k] + [x] + s[k..])
  {
    var r := s[..k] + [x] + s[k..];
    assert forall i :: 0 <= i < |r| ==> r[i] == if i < k then s[i] else if i == k then x else s[i - 1];
  }

  method BuildWindow(samples: seq<Sample>, endMs: int, durationSec: int)
    returns (meta: Meta, wave: Wave, ghost sorted: seq<Sample>)
    ensures meta == Meta(endMs - durationSec * 1000, endMs, durationSec)
    ensures SortOf(Filtered(samples, meta.startMs, endMs, |samples|), sorted)
    ensures wave == WaveOf(sorted)
  {
    var startMs := endMs - durationSec * 1000;
    meta := Meta(startMs, endMs, durationSec);
    var filtered := Filter(samples, startMs, endMs);
    filtered := SortByTime(filtered);
    sorted := filtered;
    wave := Summarise(filtered);
  }

  method Summarise(filtered: seq<Sample>) returns (wave: Wave)
    ensures wave == WaveOf(filtered)
  {
    if |filtered| == 0 {
      return Wave([], Summary(Stable, 0.0, 0.0, 0.0, 0.0, 0.0, 0.0), Quality(0.0, 0.0));
    }
    var n := |filtered|;
    var points: seq<Point> := [];
    var minY, maxY := filtered[0].y, filtered[0].y;
    var sumY, sumConfidence, sumVisibleFaces := 0.0, 0.0, 0.0;
    for i := 0 to n
      invariant points == Points(filtered, i)
      invariant i == 0 ==> minY == maxY == filtered[0].y
      invariant i > 0 ==> minY == MinY(filtered, i) && maxY == MaxY(filtered, i)
      invariant sumY == SumY(filtered, i)
      invariant sumConfidence == SumConfidence(filtered, i)
      invariant sumVisibleFaces == SumFaces(filtered, i)
    {
      var s := filtered[i];
      points := points + [Point(s.t, s.y, s.attentionY)];
      if s.y < minY { minY := s.y; }
      if s.y > maxY { maxY := s.y; }
      sumY := sumY + s.y;
      sumConfidence := sumConfidence + s.confidence;
      sumVisibleFaces := sumVisibleFaces + s.visibleFaces as real;
    }
    var startY, endY := filtered[0].y, filtered[n - 1].y;
    var meanY := sumY / n as real;
    var elapsedSec := (filtered[n - 1].t - filtered[0].t) as real / 1000.0;
    var slopePerSec := 0.0;
    if elapsedSec > 0.0 {
      slopePerSec := (endY - startY) / elapsedSec;
    }
    var variance := Deviations(filtered, points, meanY);
    var overall := Stable;
    if slopePerSec < -SLOPE_DEADBAND_PER_SEC {
      overall := Declined;
    } else if slopePerSec > SLOPE_DEADBAND_PER_SEC {
      overall := Improved;
    }
    wave := Wave(points,
                 Summary(overall, startY, endY, minY, maxY, slopePerSec, variance / n as real),
                 Quality(sumVisibleFaces / n as real, sumConfidence / n as real));
  }

  method Deviations(ghost s: seq<Sample>, points: seq<Point>, meanY: real) returns (variance: real)
    requires points == Points(s, |s|)
    ensures variance == SumDeviations(s, |s|, meanY)
  {
    variance := 0.0;
    for i := 0 to |points|
      invariant variance == SumDeviations(s, i, meanY)
    {
      variance := variance + (points[i].y - meanY) * (points[i].y - meanY);
    }
  }

  // ---------- inequalities ----------

  lemma {:induction false} MinMaxBound(s: seq<Sample>, n: nat)
    requires 0 < n <= |s|
    ensures forall k :: 0 <= k < n ==> MinY(s, n) <= s[k].y <= MaxY(s, n)
    ensures exists i, j :: 0 <= i < n && 0 <= j < n && s[i].y == MinY(s, n) && s[j].y == MaxY(s, n)
  {
    if n > 1 {
      MinMaxBound(s, n - 1);
      var i, j :| 0 <= i < n - 1 && 0 <= j < n - 1 && s[i].y == MinY(s, n - 1) && s[j].y == MaxY(s, n - 1);
      var i' := if s[n - 1].y < MinY(s, n - 1) then n - 1 else i;
      var j' := if s[n - 1].y > MaxY(s, n - 1) then n - 1 else j;
      assert s[i'].y == MinY(s, n) && s[j'].y == MaxY(s, n);
    }
  }

  lemma {:induction false} SumBound(s: seq<Sample>, n: nat, low: real, high: real)
    requires n <= |s| && forall k :: 0 <= k < n ==> low <= s[k].y <= high
    ensures n as real * low <= SumY(s, n) <= n as real * high
  {
    if n > 0 {
      SumBound(s, n - 1, low, high);
    }
  }

  function SumCentred(s: seq<Sample>, n: nat, mean: real): real
    requires n <= |s|
  {
    if n == 0 then 0.0 else SumCentred(s, n - 1, mean) + (s[n - 1].y - mean)
  }

  lemma {:induction false} CentredSum(s: seq<Sample>, n: nat, mean: real)
    requires n <= |s|
    ensures SumCentred(s, n, mean) == SumY(s, n) - n as real * mean
  {
    if n > 0 {
      CentredSum(s, n - 1, mean);
      assert n as real * mean == (n - 1) as real * mean + mean;
    }
  }

  lemma SquareBelowLine(z: real, l: real, u: real)
    requires l <= z <= u
    ensures z * z <= (l + u) * z - l * u
  {
    ProductNotNegative(z - l, u - z);
    assert (z - l) * (u - z) == (l + u) * z - z * z - l * u;
  }

  /** Each squared deviation z lies below a line, since (z - l)(u - z) is not negative; `slope` is l + u and `at` is l * u. */
  lemma {:induction false} DeviationsBelowLine(s: seq<Sample>, n: nat, mean: real, l: real, u: real, slope: real, at: real)
    requires n <= |s| && forall k :: 0 <= k < n ==> l <= s[k].y - mean <= u
    requires slope == l + u && at == l * u
    ensures SumDeviations(s, n, mean) <= slope * SumCentred(s, n, mean) - n as real * at
  {
    if n > 0 {
      DeviationsBelowLine(s, n - 1, mean, l, u, slope, at);
      var z := s[n - 1].y - mean;
      SquareBelowLine(z, l, u);
      LineStep(slope, SumCentred(s, n - 1, mean), z, (n - 1) as real, at);
    }
  }

  lemma LineStep(slope: real, sum: real, z: real, n: real, at: real)
    ensures slope * (sum + z) - (n + 1.0) * at == slope * sum - n * at + (slope * z - at)
  {
    assert slope * (sum + z) == slope * sum + slope * z;
    assert (n + 1.0) * at == n * at + at;
  }

  lemma DeviationStep(y: real, mean: real, n: real, sum: real, squares: real)
    ensures squares - 2.0 * mean * sum + n * (mean * mean) + (y - mean) * (y - mean) ==
            squares + y * y - 2.0 * mean * (sum + y) + (n + 1.0) * (mean * mean)
  {
    assert (y - mean) * (y - mean) == y * y - 2.0 * mean * y + mean * mean;
    assert 2.0 * mean * (sum + y) == 2.0 * mean * sum + 2.0 * mean * y;
    assert (n + 1.0) * (mean * mean) == n * (mean * mean) + mean * mean;
  }

  lemma {:induction false} DeviationsExpand(s: seq<Sample>, n: nat, mean: real)
    requires n <= |s|
    ensures SumDeviations(s, n, mean) == SumSquares(s, n) - 2.0 * mean * SumY(s, n) + n as real * (mean * mean)
  {
    if n > 0 {
      DeviationsExpand(s, n - 1, mean);
      DeviationStep(s[n - 1].y, mean, (n - 1) as real, SumY(s, n - 1), SumSquares(s, n - 1));
    }
  }

  lemma DivideBy(x: real, y: real, n: real)
    requires n > 0.0
    ensures x <= n * y <==> x / n <= y
    ensures n * y <= x <==> y <= x / n
    ensures x == n * y <==> x / n == y
  {
  }

  /** The expansion of the squared deviations, divided by the count. */
  lemma DivideExpansion(n: real, sum: real, squares: real, deviations: real, mean: real)
    requires n > 0.0 && sum == n * mean
    requires deviations == squares - 2.0 * mean * sum + n * (mean * mean)
    ensures deviations / n == squares / n - mean * mean
  {
    var q := squares / n;
    assert squares == n * q;
    assert 2.0 * mean * (n * mean) == 2.0 * (n * (mean * mean));
    assert n * (q - mean * mean) == n * q - n * (mean * mean);
    DivideBy(deviations, q - mean * mean, n);
  }

  lemma MeanTimesCount(s: seq<Sample>)
    requires s != []
    ensures SumY(s, |s|) == |s| as real * Mean(s)
  {
    DivideBy(SumY(s, |s|), Mean(s), |s| as real);
  }

  /** The two-pass variance is the mean of the squares less the square of the mean. */
  lemma VarianceIsMeanOfSquares(s: seq<Sample>)
    requires s != []
    ensures Variance(s) == SumSquares(s, |s|) / |s| as real - Mean(s) * Mean(s)
  {
    hide SumDeviations, SumSquares, SumY, Mean;
    MeanTimesCount(s);
    DeviationsExpand(s, |s|, Mean(s));
    DivideExpansion(|s| as real, SumY(s, |s|), SumSquares(s, |s|), SumDeviations(s, |s|, Mean(s)), Mean(s));
  }

  lemma MeanBounds(s: seq<Sample>, low: real, high: real)
    requires s != [] && forall k :: 0 <= k < |s| ==> low <= s[k].y <= high
    ensures low <= Mean(s) <= high
  {
    SumBound(s, |s|, low, high);
    DivideBy(SumY(s, |s|), low, |s| as real);
    DivideBy(SumY(s, |s|), high, |s| as real);
  }

  lemma VarianceNotNegative(s: seq<Sample>)
    requires s != []
    ensures 0.0 <= Variance(s)
  {
    DeviationsNotNegative(s, |s|, Mean(s));
    DivideBy(SumDeviations(s, |s|, Mean(s)), 0.0, |s| as real);
  }

  lemma CentredIsZero(s: seq<Sample>)
    requires s != []
    ensures SumCentred(s, |s|, Mean(s)) == 0.0
  {
    hide SumCentred, SumY, Mean;
    MeanTimesCount(s);
    CentredSum(s, |s|, Mean(s));
  }

  lemma DividedLine(n: real, slope: real, centred: real, deviations: real, at: real)
    requires n > 0.0 && centred == 0.0 && deviations <= slope * centred - n * at
    ensures deviations / n <= -at
  {
    assert slope * centred == 0.0;
    assert n * (-at) == -(n * at);
    DivideBy(deviations, -at, n);
  }

  lemma VarianceAtMostProduct(s: seq<Sample>, l: real, u: real, at: real)
    requires s != [] && at == l * u && forall k :: 0 <= k < |s| ==> l <= s[k].y - Mean(s) <= u
    ensures Variance(s) <= -at
  {
    hide SumDeviations, SumCentred, SumY, Mean;
    CentredIsZero(s);
    DeviationsBelowLine(s, |s|, Mean(s), l, u, l + u, at);
    DividedLine(|s| as real, l + u, SumCentred(s, |s|, Mean(s)), SumDeviations(s, |s|, Mean(s)), at);
  }

  /** A product of a nonpositive and a nonnegative number is at most a quarter of their squared distance below zero. */
  lemma QuarterSquare(l: real, u: real)
    ensures -(l * u) <= (u - l) * (u - l) / 4.0
  {
    assert (u - l) * (u - l) == (u + l) * (u + l) - 4.0 * (l * u);
    SquareNotNegative(u + l);
  }

  lemma VarianceAtMost(s: seq<Sample>, low: real, high: real)
    requires s != [] && forall k :: 0 <= k < |s| ==> low <= s[k].y <= high
    ensures Variance(s) <= (high - low) * (high - low) / 4.0
  {
    var l, u := low - Mean(s), high - Mean(s);
    VarianceAtMostProduct(s, l, u, l * u);
    QuarterSquare(l, u);
    assert u - l == high - low;
  }

  /** Minimum, start, end, mean and maximum are in order, and the volatility is at most half the range. */
  lemma SummaryBounds(s: seq<Sample>)
    requires s != []
    ensures var m := WaveOf(s).summary;
            && m.minY <= m.startY <= m.maxY && m.minY <= m.endY <= m.maxY
            && m.minY <= Mean(s) <= m.maxY
            && 0.0 <= m.variance <= (m.maxY - m.minY) * (m.maxY - m.minY) / 4.0
  {
    var low, high := MinY(s, |s|), MaxY(s, |s|);
    MinMaxBound(s, |s|);
    MeanBounds(s, low, high);
    VarianceNotNegative(s);
    VarianceAtMost(s, low, high);
  }

  lemma LongerSquare(v: real, half: real, more: real, square: real, limit: real)
    requires half >= 0.0 && more > 0.0 && v == half + more && square == v * v && limit == half * half
    ensures square > limit
  {
    var product, rest := more * half, more * more;
    ProductNotNegative(more, half);
    ProductSign(more, more, rest);
    assert square == limit + 2.0 * product + rest;
  }

  lemma RootAtMost(v: real, half: real)
    requires half >= 0.0 && v * v <= half * half
    ensures v <= half
  {
    if v > half {
      LongerSquare(v, half, v - half, v * v, half * half);
    }
  }

  /** The volatility, the root of the variance, is at most half the range of the samples. */
  lemma VolatilityAtMost(s: seq<Sample>, volatility: real)
    requires s != [] && volatility * volatility == Variance(s)
    ensures volatility <= (MaxY(s, |s|) - MinY(s, |s|)) / 2.0
  {
    hide Variance, MinY, MaxY;
    var low, high := MinY(s, |s|), MaxY(s, |s|);
    MinMaxBound(s, |s|);
    VarianceAtMost(s, low, high);
    HalfSquared(high - low);
    RootAtMost(volatility, (high - low) / 2.0);
  }

  lemma HalfSquared(x: real)
    ensures x * x / 4.0 == (x / 2.0) * (x / 2.0)
  {
  }

  lemma {:induction false} DeviationsNotNegative(s: seq<Sample>, n: nat, mean: real)
    requires n <= |s|
    ensures SumDeviations(s, n, mean) >= 0.0
  {
    if n > 0 {
      DeviationsNotNegative(s, n - 1, mean);
      SquareNotNegative(s[n - 1].y - mean);
    }
  }

  // ---------- order of arrival ----------

  ghost predicate DistinctTimes(s: seq<Sample>) {
    forall i, j :: 0 <= i < j < |s| ==> s[i].t != s[j].t
  }

  lemma TailMultiset(a: seq<Sample>)
    requires a != []
    ensures multiset(a[1..]) == multiset(a) - multiset{a[0]}
  {
    assert a == [a[0]] + a[1..];
  }

  lemma SameFirst(a: seq<Sample>, b: seq<Sample>)
    requires ByTime(a) && ByTime(b) && multiset(a) == multiset(b) && DistinctTimes(a) && a != [] && b != []
    ensures a[0] == b[0]
  {
    assert a[0] in multiset(b) && b[0] in multiset(a);
    var i :| 0 <= i < |b| && b[i] == a[0];
    var j :| 0 <= j < |a| && a[j] == b[0];
    assert b[0].t <= b[i].t && a[0].t <= a[j].t;
  }

  /** Sorting samples with distinct times has one result. */
  lemma {:induction false} SortIsUnique(a: seq<Sample>, b: seq<Sample>)
    requires ByTime(a) && ByTime(b) && multiset(a) == multiset(b) && DistinctTimes(a)
    ensures a == b
    decreases |a|
  {
    SameLength(a, b);
    if a != [] {
      SameFirst(a, b);
      TailMultiset(a);
      TailMultiset(b);
      SortIsUnique(a[1..], b[1..]);
      assert a == [a[0]] + a[1..] && b == [b[0]] + b[1..];
    }
  }

  lemma SameLength(a: seq<Sample>, b: seq<Sample>)
    requires multiset(a) == multiset(b)
    ensures |a| == |b|
  {
    assert |a| == |multiset(a)| && |b| == |multiset(b)|;
  }

  lemma {:induction false} FilterSplit(s: seq<Sample>, startMs: int, endMs: int, n: nat)
    requires n <= |s|
    ensures forall x :: multiset(Filtered(s, startMs, endMs, n))[x] ==
                        if InWindow(x, startMs, endMs) then multiset(s[..n])[x] else 0
  {
    if n > 0 {
      FilterSplit(s, startMs, endMs, n - 1);
      assert s[..n] == s[..n - 1] + [s[n - 1]];
    }
  }

  lemma FilterOfPermutation(a: seq<Sample>, b: seq<Sample>, startMs: int, endMs: int)
    requires multiset(a) == multiset(b)
    ensures multiset(Filtered(a, startMs, endMs, |a|)) == multiset(Filtered(b, startMs, endMs, |b|))
  {
    hide Filtered;
    FilterSplit(a, startMs, endMs, |a|);
    FilterSplit(b, startMs, endMs, |b|);
    assert a[..|a|] == a && b[..|b|] == b;
  }

  /** The window does not depend on the order in which samples with distinct times arrive. */
  lemma WindowIgnoresOrder(a: seq<Sample>, b: seq<Sample>, startMs: int, endMs: int, x: seq<Sample>, y: seq<Sample>)
    requires multiset(a) == multiset(b)
    requires SortOf(Filtered(a, startMs, endMs, |a|), x) && SortOf(Filtered(b, startMs, endMs, |b|), y)
    requires DistinctTimes(x)
    ensures WaveOf(x) == WaveOf(y)
  {
    FilterOfPermutation(a, b, startMs, endMs);
    SortIsUnique(x, y);
  }

  // ---------- symmetry ----------

  function Negated(s: seq<Sample>): (r: seq<Sample>)
    ensures |r| == |s| && forall k :: 0 <= k < |s| ==> r[k] == s[k].(y := -s[k].y)
  {
    seq(|s|, k requires 0 <= k < |s| => s[k].(y := -s[k].y))
  }

  function Opposite(o: Overall): Overall {
    match o
    case Declined => Improved
    case Improved => Declined
    case Stable => Stable
  }

  lemma {:induction false} NegatedSums(s: seq<Sample>, n: nat, mean: real)
    requires n <= |s|
    ensures SumY(Negated(s), n) == -SumY(s, n)
    ensures SumDeviations(Negated(s), n, -mean) == SumDeviations(s, n, mean)
    ensures n > 0 ==> MinY(Negated(s), n) == -MaxY(s, n) && MaxY(Negated(s), n) == -MinY(s, n)
  {
    if n > 0 {
      NegatedSums(s, n - 1, mean);
      var y := s[n - 1].y;
      assert (-y - -mean) * (-y - -mean) == (y - mean) * (y - mean);
    }
  }

  lemma NegatedSlope(a: Sample, b: Sample)
    ensures Slope(a.(y := -a.y), b.(y := -b.y)) == -Slope(a, b)
  {
    var elapsed := (b.t - a.t) as real / 1000.0;
    if elapsed > 0.0 {
      assert -b.y - -a.y == -(b.y - a.y);
      var q := (b.y - a.y) / elapsed;
      assert b.y - a.y == q * elapsed;
      assert -(b.y - a.y) == -q * elapsed;
    }
  }

  lemma NegatedMean(s: seq<Sample>)
    requires s != []
    ensures Mean(Negated(s)) == -Mean(s) && Variance(Negated(s)) == Variance(s)
  {
    var n := |s| as real;
    NegatedSums(s, |s|, Mean(s));
    MeanTimesCount(s);
    assert n * -Mean(s) == -(n * Mean(s));
    DivideBy(SumY(Negated(s), |s|), -Mean(s), n);
  }

  /** Turning the wave upside down swaps "declined" and "improved", and minimum and maximum, and nothing else. */
  lemma NegatedWave(s: seq<Sample>)
    requires s != []
    ensures var m, r := WaveOf(s).summary, WaveOf(Negated(s)).summary;
            && r.overall == Opposite(m.overall) && r.slopePerSec == -m.slopePerSec
            && r.startY == -m.startY && r.endY == -m.endY && r.minY == -m.maxY && r.maxY == -m.minY
            && r.variance == m.variance
  {
    NegatedSlope(s[0], s[|s| - 1]);
    NegatedSums(s, |s|, Mean(s));
    NegatedMean(s);
  }
}
