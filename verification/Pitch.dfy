/**
 The pitch estimator: the normalised autocorrelation of a buffer over the lags of a human voice,
 its first highest peak, and a parabola through the peak and its neighbours.
 */
module Pitch {
  import opened Numeric

  const MIN_HZ: real := 70.0
  const MAX_HZ: real := 400.0
  const MIN_PERIODICITY: real := 0.5

  datatype Pitch = NoPitch | Hz(hz: int)

  function MinLag(rate: real): (lag: int)
    ensures lag >= 2
  {
    var lag := (rate / MAX_HZ).Floor;
    if lag < 2 then 2 else lag
  }

  function MaxLag(n: nat, rate: real): (lag: int)
    requires rate > 0.0
    ensures -2 <= lag <= n - 2
  {
    var lag := (rate / MIN_HZ).Floor;
    if n - 2 < lag then n - 2 else lag
  }

  /** The sum of the first `k` products of samples `lag` apart. */
  function Products(buf: seq<real>, lag: nat, k: nat): real
    requires k + lag <= |buf|
  {
    if k == 0 then 0.0 else Products(buf, lag, k - 1) + buf[k - 1] * buf[k - 1 + lag]
  }

  function Energy(buf: seq<real>): real {
    Products(buf, 0, |buf|)
  }

  function Correlation(buf: seq<real>, lag: nat): real
    requires lag <= |buf| && Energy(buf) > 0.0
  {
    Products(buf, lag, |buf| - lag) / Energy(buf)
  }

  /** One entry for each lag up to one past the longest; the lags that are not searched have 0. */
  function Correlations(buf: seq<real>, rate: real): (corr: seq<real>)
    requires Energy(buf) > 0.0 && rate > 0.0
    ensures |corr| == MaxLag(|buf|, rate) + 2
    ensures forall lag :: 0 <= lag < |corr| ==>
      corr[lag] == if MinLag(rate) <= lag <= MaxLag(|buf|, rate) then Correlation(buf, lag) else 0.0
  {
    seq(MaxLag(|buf|, rate) + 2, lag requires 0 <= lag < MaxLag(|buf|, rate) + 2 =>
      if MinLag(rate) <= lag <= MaxLag(|buf|, rate) then Correlation(buf, lag) else 0.0)
  }

  /** `lag` has the first highest of the positive values of `corr` from `lo` to `hi`, or is -1 for want of one. */
  predicate IsBest(corr: seq<real>, lo: nat, hi: int, lag: int, val: real)
    requires hi < |corr|
  {
    && (forall k :: lo <= k <= hi ==> corr[k] <= val)
    && (lag == -1 ==> val == 0.0)
    && (lag != -1 ==>
          && lo <= lag <= hi && val == corr[lag] && val > 0.0
          && (forall k :: lo <= k < lag ==> corr[k] < val))
  }

  function Best(corr: seq<real>, lo: nat, hi: int): (best: (int, real))
    requires hi < |corr|
    ensures IsBest(corr, lo, hi, best.0, best.1)
    decreases hi
  {
    if hi < lo then (-1, 0.0)
    else
      var before := Best(corr, lo, hi - 1);
      if corr[hi] > before.1 then (hi, corr[hi]) else before
  }

  function Curvature(corr: seq<real>, lag: nat): real
    requires 0 < lag < |corr| - 1
  {
    2.0 * (2.0 * corr[lag] - corr[lag - 1] - corr[lag + 1])
  }

  /** The top of the parabola through the peak and its neighbours. */
  function Refined(corr: seq<real>, lag: nat): real
    requires 0 < lag < |corr| - 1
  {
    if Curvature(corr, lag) != 0.0
    then lag as real + (corr[lag + 1] - corr[lag - 1]) / Curvature(corr, lag)
    else lag as real
  }

  function Tuned(rate: real, lag: real): (pitch: Pitch)
    requires lag > 0.0
    ensures pitch.Hz? ==> 70 <= pitch.hz <= 400
  {
    var hz := rate / lag;
    if MIN_HZ <= hz <= MAX_HZ then Hz((hz + 0.5).Floor) else NoPitch
  }

  /** Entries outside the searched lags are 0. */
  predicate ZeroOutside(corr: seq<real>, lo: nat, hi: int) {
    |corr| == hi + 2 && forall k :: 0 <= k < |corr| && !(lo <= k <= hi) ==> corr[k] == 0.0
  }

  function Pick(corr: seq<real>, lo: nat, hi: int, rate: real): Pitch
    requires lo >= 2 && ZeroOutside(corr, lo, hi)
  {
    var (lag, val) := Best(corr, lo, hi);
    if lag < 0 || val < MIN_PERIODICITY then NoPitch
    else
      RefinedIsNear(corr, lo, hi, lag);
      Tuned(rate, Refined(corr, lag))
  }

  function Detected(buf: seq<real>, rate: real): Pitch
    requires rate > 0.0
  {
    if Energy(buf) <= 0.0 then NoPitch
    else Pick(Correlations(buf, rate), MinLag(rate), MaxLag(|buf|, rate), rate)
  }

  lemma FactorNotNegative(x: real, y: real)
    requires y > 0.0 && x * y >= 0.0
    ensures x >= 0.0
  {
  }

  lemma Halved(num: real, den: real)
    requires den > 0.0 && -den <= 2.0 * num <= den
    ensures -0.5 <= num / den <= 0.5
  {
    var q := num / den;
    assert q * den == num;
    assert (0.5 - q) * den == 0.5 * den - q * den;
    FactorNotNegative(0.5 - q, den);
    assert (0.5 + q) * den == 0.5 * den + q * den;
    FactorNotNegative(0.5 + q, den);
  }

  /**
   The parabola always opens downwards at the best lag, so its denominator is positive, and its
   top is within half a sample of that lag.
   */
  lemma RefinedIsNear(corr: seq<real>, lo: nat, hi: int, lag: nat)
    requires lo >= 2 && ZeroOutside(corr, lo, hi) && lag <= hi && IsBest(corr, lo, hi, lag, corr[lag])
    ensures 0 < lag < |corr| - 1
    ensures Curvature(corr, lag) > 0.0
    ensures Abs(Refined(corr, lag) - lag as real) <= 0.5
    ensures Refined(corr, lag) > 1.0
  {
    assert corr[lag - 1] < corr[lag] && corr[lag + 1] <= corr[lag];
    Halved(corr[lag + 1] - corr[lag - 1], Curvature(corr, lag));
  }

  /** The estimator; without a periodic peak there is no pitch. */
  method DetectPitch(buf: seq<real>, rate: real) returns (pitch: Pitch)
    requires rate > 0.0
    ensures pitch == Detected(buf, rate)
  {
    hide MinLag, MaxLag, Best;
    var n := |buf|;
    var minLag, maxLag := MinLag(rate), MaxLag(n, rate);
    var energy := 0.0;
    for i := 0 to n
      invariant energy == Products(buf, 0, i)
    {
      energy := energy + buf[i] * buf[i];
    }
    if energy <= 0.0 {
      return NoPitch;
    }
    var corr, bestLag, bestVal := Correlate(buf, energy, minLag, maxLag, rate);
    ghost var spec := Correlations(buf, rate);
    if bestLag < 0 || bestVal < MIN_PERIODICITY {
      return NoPitch;
    }
    RefinedIsNear(spec, minLag, maxLag, bestLag);
    var top := bestLag as real;
    var cl, cr := corr[bestLag - 1], corr[bestLag + 1];
    var denom := 2.0 * (2.0 * bestVal - cl - cr);
    if denom != 0.0 {
      top := top + (cr - cl) / denom;
    }
    var hz := rate / top;
    return if MIN_HZ <= hz <= MAX_HZ then Hz((hz + 0.5).Floor) else NoPitch;
  }

  function MaxOf(i: int, j: int): int {
    if i < j then j else i
  }

  function MinOf(i: int, j: int): int {
    if i < j then i else j
  }

  /** The loop over the lags, which fills the correlations and keeps the first highest. */
  method Correlate(buf: seq<real>, energy: real, minLag: int, maxLag: int, ghost rate: real)
    returns (corr: array<real>, bestLag: int, bestVal: real)
    requires rate > 0.0 && energy == Energy(buf) > 0.0
    requires minLag == MinLag(rate) && maxLag == MaxLag(|buf|, rate)
    ensures corr[..] == Correlations(buf, rate)
    ensures (bestLag, bestVal) == Best(Correlations(buf, rate), minLag, maxLag)
  {
    hide Products, Correlations, Best, MinLag, MaxLag;
    corr := new real[maxLag + 2](_ => 0.0);
    ghost var spec := Correlations(buf, rate);
    bestLag, bestVal := -1, 0.0;
    NoLags(spec, minLag, MinOf(minLag - 1, maxLag));
    var lag := minLag;
    while lag <= maxLag
      invariant minLag <= lag <= MaxOf(minLag, maxLag + 1)
      invariant FilledUpTo(corr[..], spec, minLag, lag)
      invariant (bestLag, bestVal) == Best(spec, minLag, MinOf(lag - 1, maxLag))
    {
      var sum := ShiftedSum(buf, lag);
      var c := sum / energy;
      OneMoreLag(spec, minLag, lag);
      corr[lag] := c;
      if c > bestVal {
        bestVal, bestLag := c, lag;
      }
      lag := lag + 1;
    }
    assert corr[..] == spec;
  }

  /** The searched lags before `lag` are filled in, all others are 0. */
  ghost predicate FilledUpTo(corr: seq<real>, spec: seq<real>, minLag: int, lag: int) {
    |corr| == |spec| && forall k :: 0 <= k < |corr| ==> corr[k] == if minLag <= k < lag then spec[k] else 0.0
  }

  lemma NoLags(corr: seq<real>, lo: nat, hi: int)
    requires hi < |corr| && hi < lo
    ensures Best(corr, lo, hi) == (-1, 0.0)
  {
  }

  lemma OneMoreLag(corr: seq<real>, lo: nat, lag: nat)
    requires lo <= lag < |corr|
    ensures Best(corr, lo, lag) == if corr[lag] > Best(corr, lo, lag - 1).1 then (lag, corr[lag]) else Best(corr, lo, lag - 1)
  {
  }

  method ShiftedSum(buf: seq<real>, lag: nat) returns (sum: real)
    requires lag <= |buf|
    ensures sum == Products(buf, lag, |buf| - lag)
  {
    sum := 0.0;
    for i := 0 to |buf| - lag
      invariant sum == Products(buf, lag, i)
    {
      sum := sum + buf[i] * buf[i + lag];
    }
  }

  // ---------- what the numbers mean ----------

  /** The sum of the squares of the samples from `i` up to `j`. */
  function Squares(buf: seq<real>, i: nat, j: nat): real
    requires i <= j <= |buf|
  {
    if i == j then 0.0 else Squares(buf, i, j - 1) + buf[j - 1] * buf[j - 1]
  }

  lemma ProductAtMost(x: real, y: real)
    ensures 2.0 * (x * y) <= x * x + y * y && -(x * x + y * y) <= 2.0 * (x * y)
  {
    SquareNotNegative(x - y);
    SquareNotNegative(x + y);
    assert (x - y) * (x - y) == x * x - 2.0 * (x * y) + y * y;
    assert (x + y) * (x + y) == x * x + 2.0 * (x * y) + y * y;
  }

  lemma {:induction false} SquaresGrow(buf: seq<real>, i: nat, j: nat, k: nat)
    requires i <= j <= k <= |buf|
    ensures Squares(buf, i, k) == Squares(buf, i, j) + Squares(buf, j, k) && Squares(buf, j, k) >= 0.0
    decreases k - j
  {
    if j < k {
      SquaresGrow(buf, i, j, k - 1);
      SquareNotNegative(buf[k - 1]);
    }
  }

  lemma {:induction false} EnergyIsSquares(buf: seq<real>, k: nat)
    requires k <= |buf|
    ensures Products(buf, 0, k) == Squares(buf, 0, k)
  {
    if k > 0 {
      EnergyIsSquares(buf, k - 1);
    }
  }

  lemma OneMoreProduct(buf: seq<real>, lag: nat, k: nat)
    requires k + lag <= |buf|
    ensures Products(buf, lag, k) == if k == 0 then 0.0 else Products(buf, lag, k - 1) + buf[k - 1] * buf[k - 1 + lag]
  {
  }

  lemma OneMoreSquare(buf: seq<real>, i: nat, j: nat)
    requires i <= j <= |buf|
    ensures Squares(buf, i, j) == if i == j then 0.0 else Squares(buf, i, j - 1) + buf[j - 1] * buf[j - 1]
  {
  }

  lemma BothSquaresGrow(x: real, y: real, p: real, p': real, a: real, a': real, b: real, b': real)
    requires -(a + b) <= 2.0 * p <= a + b
    requires p' == p + x * y && a' == a + x * x && b' == b + y * y
    ensures -(a' + b') <= 2.0 * p' <= a' + b'
  {
    ProductAtMost(x, y);
  }

  lemma {:induction false} ProductsAtMost(buf: seq<real>, lag: nat, k: nat)
    requires k + lag <= |buf|
    ensures 2.0 * Products(buf, lag, k) <= Squares(buf, 0, k) + Squares(buf, lag, lag + k)
    ensures -(Squares(buf, 0, k) + Squares(buf, lag, lag + k)) <= 2.0 * Products(buf, lag, k)
  {
    hide Products, Squares;
    OneMoreProduct(buf, lag, k);
    OneMoreSquare(buf, 0, k);
    OneMoreSquare(buf, lag, lag + k);
    if k > 0 {
      ProductsAtMost(buf, lag, k - 1);
      BothSquaresGrow(buf[k - 1], buf[k - 1 + lag], Products(buf, lag, k - 1), Products(buf, lag, k),
                      Squares(buf, 0, k - 1), Squares(buf, 0, k), Squares(buf, lag, lag + k - 1), Squares(buf, lag, lag + k));
    }
  }

  lemma Normalised(p: real, e: real)
    requires e > 0.0 && -e <= p <= e
    ensures -1.0 <= p / e <= 1.0
  {
    Halved(p, 2.0 * e);
    assert p / e == 2.0 * (p / (2.0 * e));
  }

  /** Every normalised autocorrelation value lies between -1 and 1. */
  lemma CorrelationIsNormalised(buf: seq<real>, lag: nat)
    requires lag <= |buf| && Energy(buf) > 0.0
    ensures -1.0 <= Correlation(buf, lag) <= 1.0
  {
    var n := |buf|;
    ProductsAtMost(buf, lag, n - lag);
    SquaresGrow(buf, 0, n - lag, n);
    SquaresGrow(buf, 0, lag, n);
    SquaresGrow(buf, 0, 0, lag);
    EnergyIsSquares(buf, n);
    Normalised(Products(buf, lag, n - lag), Energy(buf));
  }

  lemma SquareSign(x: real, square: real)
    requires square == x * x
    ensures square >= 0.0
    ensures square > 0.0 <==> x != 0.0
  {
    if x != 0.0 {
      ProductSign(x, x, square);
    }
  }

  /** The early return is for silence alone: the energy is positive exactly when some sample is not 0. */
  lemma {:induction false} SilenceIff(buf: seq<real>, k: nat)
    requires k <= |buf|
    ensures Products(buf, 0, k) >= 0.0
    ensures Products(buf, 0, k) > 0.0 <==> exists i :: 0 <= i < k && buf[i] != 0.0
  {
    if k > 0 {
      SilenceIff(buf, k - 1);
      var square := Products(buf, 0, k) - Products(buf, 0, k - 1);
      SquareSign(buf[k - 1], square);
    }
  }

  // ---------- loudness and direction of time ----------

  function Scaled(buf: seq<real>, gain: real): (r: seq<real>)
    ensures |r| == |buf| && forall i :: 0 <= i < |buf| ==> r[i] == Times(gain, buf[i])
  {
    seq(|buf|, i requires 0 <= i < |buf| => Times(gain, buf[i]))
  }

  function Times(gain: real, x: real): real {
    gain * x
  }

  lemma TermScaled(x: real, y: real, lx: real, ly: real, gain: real, g: real, p: real, lp: real, sum: real, lsum: real)
    requires g == gain * gain && lx == Times(gain, x) && ly == Times(gain, y) && lp == Times(g, p)
    requires sum == p + x * y && lsum == lp + lx * ly
    ensures lsum == Times(g, sum)
  {
    assert (gain * x) * (gain * y) == g * (x * y);
    assert g * (p + x * y) == g * p + g * (x * y);
  }

  lemma TimesZero(g: real)
    ensures Times(g, 0.0) == 0.0
  {
  }

  lemma {:induction false} ProductsScaled(buf: seq<real>, gain: real, g: real, lag: nat, k: nat)
    requires k + lag <= |buf| && g == gain * gain
    ensures Products(Scaled(buf, gain), lag, k) == Times(g, Products(buf, lag, k))
  {
    hide Times;
    if k > 0 {
      var loud := Scaled(buf, gain);
      ProductsScaled(buf, gain, g, lag, k - 1);
      TermScaled(buf[k - 1], buf[k - 1 + lag], loud[k - 1], loud[k - 1 + lag], gain, g,
                 Products(buf, lag, k - 1), Products(loud, lag, k - 1), Products(buf, lag, k), Products(loud, lag, k));
    } else {
      TimesZero(g);
    }
  }

  lemma RatioScaled(p: real, e: real, g: real)
    requires e > 0.0 && g > 0.0
    ensures g * e > 0.0 && (g * p) / (g * e) == p / e
  {
    var q := p / e;
    assert q * e == p;
    ProductPositive(g, e);
    assert q * (g * e) == g * (q * e);
    Quotient(g * p, g * e, q);
  }

  lemma ProductPositive(x: real, y: real)
    requires x > 0.0 && y > 0.0
    ensures x * y > 0.0
  {
  }

  lemma Quotient(x: real, y: real, q: real)
    requires y > 0.0 && x == q * y
    ensures x / y == q
  {
  }

  lemma EnergyScaled(buf: seq<real>, gain: real, g: real)
    requires gain != 0.0 && g == gain * gain
    ensures g > 0.0 && (Energy(Scaled(buf, gain)) > 0.0 <==> Energy(buf) > 0.0)
  {
    ProductSign(gain, gain, g);
    ProductsScaled(buf, gain, g, 0, |buf|);
    SilenceIff(buf, |buf|);
    if Energy(buf) > 0.0 {
      ProductSign(g, Energy(buf), Energy(Scaled(buf, gain)));
    } else {
      TimesZero(g);
    }
  }

  lemma CorrelationScaled(buf: seq<real>, gain: real, g: real, lag: nat)
    requires gain != 0.0 && g == gain * gain && lag <= |buf| && Energy(buf) > 0.0
    ensures Energy(Scaled(buf, gain)) > 0.0
    ensures Correlation(Scaled(buf, gain), lag) == Correlation(buf, lag)
  {
    EnergyScaled(buf, gain, g);
    ProductsScaled(buf, gain, g, 0, |buf|);
    ProductsScaled(buf, gain, g, lag, |buf| - lag);
    RatioScaled(Products(buf, lag, |buf| - lag), Energy(buf), g);
  }

  /** The pitch does not depend on the gain, nor on the polarity, of the signal. */
  lemma PitchIgnoresGain(buf: seq<real>, gain: real, rate: real)
    requires rate > 0.0 && gain != 0.0
    ensures Detected(Scaled(buf, gain), rate) == Detected(buf, rate)
  {
    hide Pick, Times, Products;
    var loud, g := Scaled(buf, gain), gain * gain;
    EnergyScaled(buf, gain, g);
    if Energy(buf) > 0.0 {
      forall lag: nat | lag <= |buf| ensures Correlation(loud, lag) == Correlation(buf, lag) {
        CorrelationScaled(buf, gain, g, lag);
      }
      assert Correlations(loud, rate) == Correlations(buf, rate);
    }
  }

  function Backwards(buf: seq<real>): (r: seq<real>)
    ensures |r| == |buf| && forall i :: 0 <= i < |buf| ==> r[i] == buf[|buf| - 1 - i]
  {
    seq(|buf|, i requires 0 <= i < |buf| => buf[|buf| - 1 - i])
  }

  /** The products at positions from `i` up to `k`, added from the right. */
  function ProductsFrom(buf: seq<real>, lag: nat, i: nat, k: nat): real
    requires i <= k && k + lag <= |buf|
    decreases k - i
  {
    if i == k then 0.0 else buf[i] * buf[i + lag] + ProductsFrom(buf, lag, i + 1, k)
  }

  lemma {:induction false} EitherEnd(buf: seq<real>, lag: nat, i: nat, k: nat)
    requires i <= k && k + lag <= |buf|
    ensures Products(buf, lag, k) == Products(buf, lag, i) + ProductsFrom(buf, lag, i, k)
    decreases k - i
  {
    if i < k {
      EitherEnd(buf, lag, i + 1, k);
    }
  }

  lemma {:induction false} ProductsBackwards(buf: seq<real>, lag: nat, k: nat)
    requires k + lag <= |buf|
    ensures Products(Backwards(buf), lag, k) == ProductsFrom(buf, lag, |buf| - lag - k, |buf| - lag)
  {
    if k > 0 {
      ProductsBackwards(buf, lag, k - 1);
      var j := |buf| - lag - k;
      assert Backwards(buf)[k - 1] == buf[j + lag] && Backwards(buf)[k - 1 + lag] == buf[j];
    }
  }

  lemma SameProductsBackwards(buf: seq<real>, lag: nat)
    requires lag <= |buf|
    ensures Products(Backwards(buf), lag, |buf| - lag) == Products(buf, lag, |buf| - lag)
  {
    ProductsBackwards(buf, lag, |buf| - lag);
    EitherEnd(buf, lag, 0, |buf| - lag);
  }

  /** Played backwards, the signal has the same pitch. */
  lemma PitchIgnoresDirection(buf: seq<real>, rate: real)
    requires rate > 0.0
    ensures Detected(Backwards(buf), rate) == Detected(buf, rate)
  {
    hide Pick;
    var back := Backwards(buf);
    SameProductsBackwards(buf, 0);
    if Energy(buf) > 0.0 {
      forall lag: nat | lag <= |buf| ensures Correlation(back, lag) == Correlation(buf, lag) {
        SameProductsBackwards(buf, lag);
      }
      assert Correlations(back, rate) == Correlations(buf, rate);
    }
  }
}
