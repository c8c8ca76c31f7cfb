/** What a window's wave says about the samples it was built from. */
module WindowLaws {
  import opened Numeric
  import opened Window

  // ---------- which samples ----------

  lemma {:induction false} FilteredIff(samples: seq<Sample>, startMs: int, endMs: int, n: nat, x: Sample)
    requires n <= |samples|
    ensures x in Filtered(samples, startMs, endMs, n) <==> x in samples[..n] && startMs <= x.t <= endMs
  {
    if n > 0 {
      FilteredIff(samples, startMs, endMs, n - 1, x);
      assert samples[..n] == samples[..n - 1] + [samples[n - 1]];
    }
  }

  /** `x` is one of the samples, and in the window. */
  predicate Among(samples: seq<Sample>, startMs: int, endMs: int, x: Sample) {
    x in samples && startMs <= x.t <= endMs
  }

  lemma SortedIff(samples: seq<Sample>, startMs: int, endMs: int, sorted: seq<Sample>, x: Sample)
    requires SortOf(Filtered(samples, startMs, endMs, |samples|), sorted)
    ensures x in sorted <==> Among(samples, startMs, endMs, x)
  {
    hide Filtered;
    FilteredIff(samples, startMs, endMs, |samples|, x);
    assert samples[..|samples|] == samples;
    assert x in sorted <==> x in multiset(sorted);
  }

  /** A sample of the window that no other precedes. */
  ghost predicate Earliest(samples: seq<Sample>, startMs: int, endMs: int, x: Sample) {
    Among(samples, startMs, endMs, x) && forall z :: Among(samples, startMs, endMs, z) ==> x.t <= z.t
  }

  ghost predicate Latest(samples: seq<Sample>, startMs: int, endMs: int, x: Sample) {
    Among(samples, startMs, endMs, x) && forall z :: Among(samples, startMs, endMs, z) ==> z.t <= x.t
  }

  /**
   The wave of a window that has samples starts at the level of an earliest sample in it and ends at
   that of a latest one; its slope is the rise between these two over the seconds between them, and 0
   when there are none.
   */
  lemma WaveSpans(samples: seq<Sample>, startMs: int, endMs: int, sorted: seq<Sample>)
    requires SortOf(Filtered(samples, startMs, endMs, |samples|), sorted) && sorted != []
    ensures var wave, first, last := WaveOf(sorted), sorted[0], sorted[|sorted| - 1];
            && Earliest(samples, startMs, endMs, first) && wave.summary.startY == first.y
            && Latest(samples, startMs, endMs, last) && wave.summary.endY == last.y
            && wave.summary.slopePerSec * (last.t - first.t) as real ==
               (if last.t > first.t then 1000.0 * (last.y - first.y) else 0.0)
            && (last.t == first.t ==> wave.summary.slopePerSec == 0.0)
  {
    var n := |sorted|;
    EndsOfSorted(samples, startMs, endMs, sorted);
    hide *;
    SlopeSays(sorted[0], sorted[n - 1]);
    SummaryEnds(sorted);
  }

  lemma SummaryEnds(s: seq<Sample>)
    requires s != []
    ensures var m := WaveOf(s).summary;
            m.startY == s[0].y && m.endY == s[|s| - 1].y && m.slopePerSec == Slope(s[0], s[|s| - 1])
  {
    hide Slope, SumY, SumDeviations, SumConfidence, SumFaces, MinY, MaxY, Points;
  }

  lemma EndsOfSorted(samples: seq<Sample>, startMs: int, endMs: int, sorted: seq<Sample>)
    requires SortOf(Filtered(samples, startMs, endMs, |samples|), sorted) && sorted != []
    ensures Earliest(samples, startMs, endMs, sorted[0]) && Latest(samples, startMs, endMs, sorted[|sorted| - 1])
    ensures sorted[0].t <= sorted[|sorted| - 1].t
  {
    hide Filtered, Among;
    forall x ensures x in sorted <==> Among(samples, startMs, endMs, x) {
      SortedIff(samples, startMs, endMs, sorted, x);
    }
    assert sorted[0] in sorted && sorted[|sorted| - 1] in sorted;
    forall z | Among(samples, startMs, endMs, z) ensures sorted[0].t <= z.t <= sorted[|sorted| - 1].t {
      var i :| 0 <= i < |sorted| && sorted[i] == z;
    }
  }

  /** The points of the wave are those of the samples in the window, as many of them, in order of time. */
  lemma PointsAreSamples(samples: seq<Sample>, startMs: int, endMs: int, sorted: seq<Sample>, p: Point)
    requires SortOf(Filtered(samples, startMs, endMs, |samples|), sorted)
    ensures var points := WaveOf(sorted).points;
            && |points| == |Filtered(samples, startMs, endMs, |samples|)|
            && (forall i, j :: 0 <= i < j < |points| ==> points[i].t <= points[j].t)
            && (p in points <==> exists x :: Among(samples, startMs, endMs, x) && p == Point(x.t, x.y, x.attentionY))
  {
    SameLength(sorted, Filtered(samples, startMs, endMs, |samples|));
    PointsOfSorted(sorted);
    hide Filtered, Among, WaveOf;
    var points := WaveOf(sorted).points;
    if p in points {
      var i :| 0 <= i < |points| && points[i] == p;
      SortedIff(samples, startMs, endMs, sorted, sorted[i]);
    }
    if x :| Among(samples, startMs, endMs, x) && p == Point(x.t, x.y, x.attentionY) {
      SortedIff(samples, startMs, endMs, sorted, x);
      var i :| 0 <= i < |sorted| && sorted[i] == x;
      assert points[i] == p;
    }
  }

  lemma PointsOfSorted(s: seq<Sample>)
    ensures var points := WaveOf(s).points;
            |points| == |s| && forall i :: 0 <= i < |s| ==> points[i] == Point(s[i].t, s[i].y, s[i].attentionY)
  {
    hide Slope, SumY, SumDeviations, SumConfidence, SumFaces, MinY, MaxY;
  }

  lemma SlopeSays(first: Sample, last: Sample)
    requires first.t <= last.t
    ensures Slope(first, last) * (last.t - first.t) as real == if last.t > first.t then 1000.0 * (last.y - first.y) else 0.0
    ensures last.t == first.t ==> Slope(first, last) == 0.0
  {
    if last.t > first.t {
      var rise, millis := last.y - first.y, (last.t - first.t) as real;
      var q := rise / (millis / 1000.0);
      assert q * (millis / 1000.0) == rise;
      assert q * millis == 1000.0 * (q * (millis / 1000.0));
    }
  }

  // ---------- averages ----------

  lemma {:induction false} SumsGain(s: seq<Sample>, k: nat, x: Sample, n: nat)
    requires k < |s| && n <= |s|
    ensures var r := s[k := x];
            && SumConfidence(r, n) == SumConfidence(s, n) + (if k < n then x.confidence - s[k].confidence else 0.0)
            && SumFaces(r, n) == SumFaces(s, n) + (if k < n then (x.visibleFaces - s[k].visibleFaces) as real else 0.0)
  {
    if n > 0 {
      SumsGain(s, k, x, n - 1);
    }
  }

  lemma {:induction false} SumsOfSame(s: seq<Sample>, n: nat, confidence: real, faces: int)
    requires n <= |s| && forall k :: 0 <= k < n ==> s[k].confidence == confidence && s[k].visibleFaces == faces
    ensures SumConfidence(s, n) == n as real * confidence && SumFaces(s, n) == n as real * faces as real
  {
    if n > 0 {
      SumsOfSame(s, n - 1, confidence, faces);
      assert n as real * confidence == (n - 1) as real * confidence + confidence;
      assert n as real * faces as real == (n - 1) as real * faces as real + faces as real;
    }
  }

  /** The averages of equal samples are their common values. */
  lemma QualityOfSame(s: seq<Sample>, confidence: real, faces: int)
    requires s != [] && forall k :: 0 <= k < |s| ==> s[k].confidence == confidence && s[k].visibleFaces == faces
    ensures WaveOf(s).quality == Quality(faces as real, confidence)
  {
    SumsOfSame(s, |s|, confidence, faces);
    DivideBy(SumConfidence(s, |s|), confidence, |s| as real);
    DivideBy(SumFaces(s, |s|), faces as real, |s| as real);
  }

  /** Replacing one sample moves each average by the change of its value over the number of samples. */
  lemma QualityGains(s: seq<Sample>, k: nat, x: Sample)
    requires k < |s|
    ensures var before, after, n := WaveOf(s).quality, WaveOf(s[k := x]).quality, |s| as real;
            && n * (after.confidenceAvg - before.confidenceAvg) == x.confidence - s[k].confidence
            && n * (after.visibleFacesAvg - before.visibleFacesAvg) == (x.visibleFaces - s[k].visibleFaces) as real
  {
    var r, n := s[k := x], |s| as real;
    SumsGain(s, k, x, |s|);
    QualityIs(s);
    QualityIs(r);
    hide *;
    DifferenceOver(SumConfidence(r, |s|), SumConfidence(s, |s|), n);
    DifferenceOver(SumFaces(r, |s|), SumFaces(s, |s|), n);
  }

  lemma QualityIs(s: seq<Sample>)
    requires s != []
    ensures WaveOf(s).quality == Quality(SumFaces(s, |s|) / |s| as real, SumConfidence(s, |s|) / |s| as real)
  {
    hide Slope, SumY, SumDeviations, SumConfidence, SumFaces, MinY, MaxY, Points;
  }

  lemma DifferenceOver(a: real, b: real, n: real)
    requires n > 0.0
    ensures n * (a / n - b / n) == a - b
  {
    var x, y := a / n, b / n;
    assert n * x == a && n * y == b;
    assert n * (x - y) == n * x - n * y;
  }

  // ---------- variance ----------

  /** The squared differences of all pairs among the first `n` samples. */
  function SumPairs(s: seq<Sample>, n: nat): real
    requires n <= |s|
  {
    if n == 0 then 0.0 else SumPairs(s, n - 1) + SumDifferences(s, n - 1, s[n - 1].y)
  }

  function SumDifferences(s: seq<Sample>, n: nat, y: real): real
    requires n <= |s|
  {
    if n == 0 then 0.0 else SumDifferences(s, n - 1, y) + (y - s[n - 1].y) * (y - s[n - 1].y)
  }

  lemma {:induction false} DifferencesAreDeviations(s: seq<Sample>, n: nat, y: real)
    requires n <= |s|
    ensures SumDifferences(s, n, y) == SumDeviations(s, n, y)
  {
    if n > 0 {
      DifferencesAreDeviations(s, n - 1, y);
      assert (y - s[n - 1].y) * (y - s[n - 1].y) == (s[n - 1].y - y) * (s[n - 1].y - y);
    }
  }

  lemma {:induction false} PairsAre(s: seq<Sample>, n: nat)
    requires n <= |s|
    ensures SumPairs(s, n) == n as real * SumSquares(s, n) - SumY(s, n) * SumY(s, n)
  {
    hide SumDeviations, SumDifferences;
    if n > 0 {
      var y := s[n - 1].y;
      PairsAre(s, n - 1);
      DifferencesAreDeviations(s, n - 1, y);
      DeviationsExpand(s, n - 1, y);
      PairStep((n - 1) as real, SumSquares(s, n - 1), SumY(s, n - 1), y);
    }
  }

  lemma PairStep(n: real, squares: real, sum: real, y: real)
    ensures (n + 1.0) * (squares + y * y) - (sum + y) * (sum + y) ==
            (n * squares - sum * sum) + (squares - 2.0 * y * sum + n * (y * y))
  {
    assert (n + 1.0) * (squares + y * y) == n * squares + n * (y * y) + squares + y * y;
    assert (sum + y) * (sum + y) == sum * sum + 2.0 * y * sum + y * y;
  }

  /** The variance, times the square of the count, is the sum of the squared differences of all pairs. */
  lemma VarianceIsPairs(s: seq<Sample>)
    requires s != []
    ensures var n := |s| as real; n * (n * WaveOf(s).summary.variance) == SumPairs(s, |s|)
  {
    hide SumPairs, SumSquares, SumY, SumDeviations;
    PairsAre(s, |s|);
    VarianceIsMeanOfSquares(s);
    MeanTimesCount(s);
    TimesCount(|s| as real, SumSquares(s, |s|), Mean(s), SumY(s, |s|), Variance(s));
  }

  lemma TimesCount(n: real, squares: real, mean: real, sum: real, variance: real)
    requires n > 0.0 && sum == n * mean && variance == squares / n - mean * mean
    ensures n * (n * variance) == n * squares - sum * sum
  {
    var q := squares / n;
    assert n * q == squares;
    assert n * variance == n * q - n * (mean * mean);
    assert n * (n * variance) == n * squares - n * (n * (mean * mean));
    assert n * (n * (mean * mean)) == (n * mean) * (n * mean);
  }
}
