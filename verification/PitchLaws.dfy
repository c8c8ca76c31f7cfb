/** What the estimator's lags, correlations, parabola and result are, on the samples and the rate. */
module PitchLaws {
  import opened Numeric
  import opened Pitch

  // ---------- the lags that are searched ----------

  /** The shortest lag is the longest period of 400 Hz or more, and at least 2. */
  lemma MinLagIs(rate: real, lag: int)
    ensures MinLag(rate) == lag <==> (lag >= 2 && lag as real * 400.0 <= rate < (lag + 1) as real * 400.0) || (lag == 2 && rate < 1200.0)
  {
    FloorOver(rate, 400.0, (rate / MAX_HZ).Floor);
    if lag as real * 400.0 <= rate < (lag + 1) as real * 400.0 {
      OnlyFloor(rate, 400.0, lag);
    }
  }

  /** The longest lag is the longest period of 70 Hz or more, or two less than the number of samples if that is less. */
  lemma MaxLagIs(n: nat, rate: real, lag: int)
    requires rate > 0.0
    ensures MaxLag(n, rate) == lag <==>
            lag <= n - 2 && lag as real * 70.0 <= rate && (lag == n - 2 || rate < (lag + 1) as real * 70.0)
  {
    var most := (rate / MIN_HZ).Floor;
    FloorOver(rate, 70.0, most);
    if lag <= n - 2 && lag as real * 70.0 <= rate < (lag + 1) as real * 70.0 {
      OnlyFloor(rate, 70.0, lag);
    }
  }

  lemma FloorOver(x: real, y: real, q: int)
    requires y > 0.0 && q == (x / y).Floor
    ensures q as real * y <= x < (q + 1) as real * y
  {
    RatioOrder(x, y, q as real, q as real * y);
    RatioOrder(x, y, (q + 1) as real, (q + 1) as real * y);
  }

  lemma OnlyFloor(x: real, y: real, q: int)
    requires y > 0.0 && q as real * y <= x < (q + 1) as real * y
    ensures (x / y).Floor == q
  {
    RatioOrder(x, y, q as real, q as real * y);
    RatioOrder(x, y, (q + 1) as real, (q + 1) as real * y);
  }

  lemma RatioOrder(x: real, y: real, b: real, product: real)
    requires y > 0.0 && product == b * y
    ensures x / y < b <==> x < product
    ensures x / y > b <==> x > product
  {
    var q := x / y;
    assert q * y == x;
    assert (b - q) * y == product - x && (q - b) * y == x - product;
    if q < b {
      ProductSign(b - q, y, product - x);
    } else if b < q {
      ProductSign(q - b, y, x - product);
    }
  }

  // ---------- correlations ----------

  /** The samples one lag before and after position `j`, as far as the first `k` products reach. */
  function Neighbours(buf: seq<real>, lag: nat, j: nat, k: nat): real
    requires k + lag <= |buf|
  {
    (if lag <= j < lag + k then buf[j - lag] else 0.0) + (if j < k then buf[j + lag] else 0.0)
  }

  /** Raising one sample by d raises the sum of products by d times its neighbours one lag away. */
  lemma {:induction false} SampleGain(buf: seq<real>, lag: nat, j: nat, d: real, k: nat)
    requires 0 < lag && k + lag <= |buf| && j < |buf|
    ensures Products(buf[j := buf[j] + d], lag, k) == Products(buf, lag, k) + Times(d, Neighbours(buf, lag, j, k))
  {
    hide Products, Neighbours, Times;
    var r := buf[j := buf[j] + d];
    OneMoreProduct(buf, lag, k);
    OneMoreProduct(r, lag, k);
    MoreNeighbours(buf, lag, j, k);
    if k == 0 {
      TimesZero(d);
    } else {
      SampleGain(buf, lag, j, d, k - 1);
      GainStep(buf[k - 1], buf[k - 1 + lag], d, Neighbours(buf, lag, j, k - 1), Neighbours(buf, lag, j, k),
               k - 1 == j, k - 1 + lag == j, Products(buf, lag, k - 1), Products(r, lag, k - 1));
    }
  }

  lemma MoreNeighbours(buf: seq<real>, lag: nat, j: nat, k: nat)
    requires 0 < lag && k + lag <= |buf|
    ensures Neighbours(buf, lag, j, k) ==
            if k == 0 then 0.0
            else Neighbours(buf, lag, j, k - 1) + (if k - 1 + lag == j then buf[k - 1] else 0.0) + (if k - 1 == j then buf[k - 1 + lag] else 0.0)
  {
  }

  lemma GainStep(x: real, y: real, d: real, before: real, after: real, left: bool, right: bool, p: real, r: real)
    requires !(left && right) && after == before + (if right then x else 0.0) + (if left then y else 0.0)
    requires r == p + Times(d, before)
    ensures r + (if left then x + d else x) * (if right then y + d else y) == p + x * y + Times(d, after)
  {
    if left {
      assert (x + d) * y == x * y + d * y && d * (before + y) == d * before + d * y;
    } else if right {
      assert x * (y + d) == x * y + d * x && d * (before + x) == d * before + d * x;
    }
  }

  /** Silence has no products, so that with `SampleGain` the sums are fixed for all signals. */
  lemma {:induction false} SilentProducts(buf: seq<real>, lag: nat, k: nat)
    requires k + lag <= |buf| && forall i :: 0 <= i < |buf| ==> buf[i] == 0.0
    ensures Products(buf, lag, k) == 0.0
  {
    if k > 0 {
      SilentProducts(buf, lag, k - 1);
    }
  }

  ghost predicate Periodic(buf: seq<real>, period: nat) {
    forall i :: 0 <= i < |buf| - period ==> buf[i] == buf[i + period]
  }

  lemma {:induction false} PeriodicProducts(buf: seq<real>, period: nat, k: nat)
    requires Periodic(buf, period) && k + period <= |buf|
    ensures Products(buf, period, k) == Squares(buf, 0, k)
  {
    if k > 0 {
      PeriodicProducts(buf, period, k - 1);
      assert buf[k - 1] == buf[k - 1 + period];
    }
  }

  /**
   A periodic signal is found periodic: if its period is among the searched lags, and at least half of
   its energy lies before its last period, the best correlation reaches the threshold.
   */
  lemma PeriodicIsVoiced(buf: seq<real>, rate: real, period: nat)
    requires rate > 0.0 && Energy(buf) > 0.0 && Periodic(buf, period)
    requires MinLag(rate) <= period <= MaxLag(|buf|, rate)
    requires 2.0 * Squares(buf, 0, |buf| - period) >= Squares(buf, 0, |buf|)
    ensures var best := Best(Correlations(buf, rate), MinLag(rate), MaxLag(|buf|, rate));
            best.0 >= MinLag(rate) && best.1 >= 0.5
  {
    hide Products, Squares, Best, MinLag, MaxLag;
    var n := |buf|;
    PeriodicProducts(buf, period, n - period);
    EnergyIsSquares(buf, n);
    AtLeastHalf(Squares(buf, 0, n - period), Energy(buf));
    assert Correlations(buf, rate)[period] == Correlation(buf, period) >= 0.5;
  }

  lemma AtLeastHalf(p: real, e: real)
    requires e > 0.0 && 2.0 * p >= e
    ensures p / e >= 0.5
  {
    RatioOrder(p, e, 0.5, 0.5 * e);
  }

  // ---------- the parabola ----------

  /**
   The refined lag is the top of the parabola through the best correlation and its neighbours: the
   parabola a x^2 + b x + c, with x counted from the best lag, is nowhere higher.
   */
  lemma RefinedIsTop(corr: seq<real>, lo: nat, hi: int, lag: nat, a: real, b: real, c: real, x: real)
    requires lo >= 2 && ZeroOutside(corr, lo, hi) && lag <= hi && IsBest(corr, lo, hi, lag, corr[lag])
    requires 0 < lag < |corr| - 1
    requires a - b + c == corr[lag - 1] && c == corr[lag] && a + b + c == corr[lag + 1]
    ensures var top := Refined(corr, lag) - lag as real;
            a * (x * x) + b * x + c <= a * (top * top) + b * top + c
  {
    RefinedIsNear(corr, lo, hi, lag);
    var top := Refined(corr, lag) - lag as real;
    var bend := Curvature(corr, lag);
    assert bend == -4.0 * a;
    assert top == 2.0 * b / bend;
    assert top * bend == 2.0 * b;
    assert b == -2.0 * (a * top);
    hide *;
    TopOfParabola(a, b, top, x);
  }

  lemma TopOfParabola(a: real, b: real, top: real, x: real)
    requires a < 0.0 && b == -2.0 * (a * top)
    ensures a * (x * x) + b * x <= a * (top * top) + b * top
  {
    var d := x - top;
    var square := d * d;
    SquareNotNegative(d);
    ProductNotNegative(-a, square);
    assert square == x * x - 2.0 * (top * x) + top * top;
    assert a * square == a * (x * x) - 2.0 * (a * (top * x)) + a * (top * top);
    assert b * x == -2.0 * (a * (top * x)) && b * top == -2.0 * (a * (top * top));
  }

  // ---------- the result ----------

  /** The reported pitch is the rate over the refined lag, rounded; there is none exactly outside 70 to 400 Hz. */
  lemma TunedIs(rate: real, lag: real)
    requires lag > 0.0
    ensures Tuned(rate, lag) == NoPitch <==> rate < 70.0 * lag || rate > 400.0 * lag
    ensures var p := Tuned(rate, lag);
            p.Hz? ==> (p.hz as real - 0.5) * lag <= rate < (p.hz as real + 0.5) * lag
  {
    var hz := rate / lag;
    RatioOrder(rate, lag, 70.0, 70.0 * lag);
    RatioOrder(rate, lag, 400.0, 400.0 * lag);
    var h := (hz + 0.5).Floor as real;
    RatioOrder(rate, lag, h - 0.5, (h - 0.5) * lag);
    RatioOrder(rate, lag, h + 0.5, (h + 0.5) * lag);
  }

  /** `lag` is searched, and no searched lag has a higher correlation, no shorter one as high a one. */
  ghost predicate BestLag(buf: seq<real>, rate: real, lag: nat)
    requires rate > 0.0 && Energy(buf) > 0.0
  {
    && MinLag(rate) <= lag <= MaxLag(|buf|, rate)
    && forall k :: MinLag(rate) <= k <= MaxLag(|buf|, rate) ==>
         Correlation(buf, k) <= Correlation(buf, lag) && (k < lag ==> Correlation(buf, k) < Correlation(buf, lag))
  }

  /**
   The estimate, on the signal: with a best lag of correlation 0.5 or more, the result is the rate over
   that lag, refined within half a sample, and rounded to a whole number of hertz.
   */
  lemma VoicedIs(buf: seq<real>, rate: real, lag: nat)
    requires rate > 0.0 && Energy(buf) > 0.0 && BestLag(buf, rate, lag) && Correlation(buf, lag) >= 0.5
    ensures var r := Refined(Correlations(buf, rate), lag);
            && lag as real - 0.5 <= r <= lag as real + 0.5 && r > 1.0
            && Detected(buf, rate) == Tuned(rate, r)
    ensures 70.0 * (lag as real + 0.5) <= rate <= 400.0 * (lag as real - 0.5) ==> Detected(buf, rate).Hz?
  {
    hide Products, MinLag, MaxLag, Best, Correlation, Tuned, Curvature;
    var corr, lo, hi := Correlations(buf, rate), MinLag(rate), MaxLag(|buf|, rate);
    var best := Best(corr, lo, hi);
    assert corr[lag] == Correlation(buf, lag) <= best.1;
    assert best.0 >= 0 && corr[best.0] == Correlation(buf, best.0);
    assert best.0 == lag && best.1 == corr[lag];
    RefinedIsNear(corr, lo, hi, lag);
    TunedIs(rate, Refined(corr, lag));
  }

  /** Without a correlation of 0.5 among the searched lags, or without a sound, there is no pitch. */
  lemma UnvoicedIs(buf: seq<real>, rate: real)
    requires rate > 0.0
    requires Energy(buf) <= 0.0 || forall k :: MinLag(rate) <= k <= MaxLag(|buf|, rate) ==> Correlation(buf, k) < 0.5
    ensures Detected(buf, rate) == NoPitch
  {
    hide Products, MinLag, MaxLag, Best, Correlation, Refined;
    if Energy(buf) > 0.0 {
      var corr, lo, hi := Correlations(buf, rate), MinLag(rate), MaxLag(|buf|, rate);
      var best := Best(corr, lo, hi);
      if best.0 >= 0 {
        assert corr[best.0] == Correlation(buf, best.0);
      }
    }
  }
}
