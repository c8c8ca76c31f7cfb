/** What the mood score, the wave and the triggers mean, stated on inputs and logs, without their code. */
module MoodLaws {
  import opened Numeric
  import opened Options
  import opened MoodMonitor

  // ---------- the score ----------

  /** No part of the score is cut off. */
  predicate Unclamped(f: Features) {
    && -1.0 <= f.valenceMean <= 1.0 && -0.2 <= f.attentionMean <= 0.2 && 0.0 <= f.nodRatio <= 1.0
    && 0.0 <= f.selfSpeech <= 1.0 && 0.0 <= f.otherSpeech <= 1.0
  }

  /** `speech` is the greater of the two speech ratios. */
  predicate Loudest(f: Features, speech: real) {
    speech in {f.selfSpeech, f.otherSpeech} && f.selfSpeech <= speech && f.otherSpeech <= speech
  }

  /**
   What each input is worth: raising the valence, the attention, the nod ratio or the greater speech
   ratio by d raises the mood by 0.2 d, 0.625 d, 0.2 d and 0.15 d, whatever the others are.
   */
  lemma ScoreGains(f: Features, g: Features, before: real, after: real)
    requires Unclamped(f) && Unclamped(g) && Loudest(f, before) && Loudest(g, after)
    ensures MoodScore(g) - MoodScore(f) ==
              0.2 * (g.valenceMean - f.valenceMean) + 0.625 * (g.attentionMean - f.attentionMean)
              + 0.2 * (g.nodRatio - f.nodRatio) + 0.15 * (after - before)
  {
    hide Clamp;
    ClampIsIdentity((f.valenceMean + 1.0) / 2.0);
    ClampIsIdentity((g.valenceMean + 1.0) / 2.0);
    ClampIsIdentity(0.5 + 2.5 * f.attentionMean);
    ClampIsIdentity(0.5 + 2.5 * g.attentionMean);
    ClampIsIdentity(f.nodRatio);
    ClampIsIdentity(g.nodRatio);
    ClampIsIdentity(Total(f, before));
    ClampIsIdentity(Total(g, after));
  }

  function Total(f: Features, speech: real): real {
    0.4 * ((f.valenceMean + 1.0) / 2.0) + 0.25 * (0.5 + 2.5 * f.attentionMean) + 0.2 * f.nodRatio + 0.15 * speech
  }

  lemma ClampIsIdentity(x: real)
    requires 0.0 <= x <= 1.0
    ensures Clamp(x, 0.0, 1.0) == x
  {
  }

  lemma ClampOrder(x: real, y: real)
    requires x <= y
    ensures Clamp(x, 0.0, 1.0) <= Clamp(y, 0.0, 1.0)
  {
  }

  /** No input is lower in `f` than in `g`. */
  predicate AtMost(f: Features, g: Features) {
    && f.valenceMean <= g.valenceMean && f.attentionMean <= g.attentionMean && f.nodRatio <= g.nodRatio
    && f.selfSpeech <= g.selfSpeech && f.otherSpeech <= g.otherSpeech
  }

  /** The mood never falls when an input rises, inside the ranges and beyond them. */
  lemma ScoreIsMonotone(f: Features, g: Features)
    requires AtMost(f, g)
    ensures MoodScore(f) <= MoodScore(g)
  {
    hide Clamp;
    ClampOrder((f.valenceMean + 1.0) / 2.0, (g.valenceMean + 1.0) / 2.0);
    ClampOrder(0.5 + 2.5 * f.attentionMean, 0.5 + 2.5 * g.attentionMean);
    ClampOrder(f.nodRatio, g.nodRatio);
    ClampOrder(Weighted(f), Weighted(g));
  }

  function Weighted(f: Features): real {
    0.4 * Clamp((f.valenceMean + 1.0) / 2.0, 0.0, 1.0) + 0.25 * Clamp(0.5 + 2.5 * f.attentionMean, 0.0, 1.0)
    + 0.2 * Clamp(f.nodRatio, 0.0, 1.0) + 0.15 * Max(f.selfSpeech, f.otherSpeech)
  }

  /** Beyond its range an input counts as the end of the range. */
  lemma ScoreIsCutOff(f: Features)
    ensures f.valenceMean >= 1.0 ==> MoodScore(f) == MoodScore(f.(valenceMean := 1.0))
    ensures f.valenceMean <= -1.0 ==> MoodScore(f) == MoodScore(f.(valenceMean := -1.0))
    ensures f.attentionMean >= 0.2 ==> MoodScore(f) == MoodScore(f.(attentionMean := 0.2))
    ensures f.attentionMean <= -0.2 ==> MoodScore(f) == MoodScore(f.(attentionMean := -0.2))
    ensures f.nodRatio >= 1.0 ==> MoodScore(f) == MoodScore(f.(nodRatio := 1.0))
    ensures f.nodRatio <= 0.0 ==> MoodScore(f) == MoodScore(f.(nodRatio := 0.0))
  {
    hide Max, Min;
    ClampAbove((f.valenceMean + 1.0) / 2.0);
    ClampAbove(0.5 + 2.5 * f.attentionMean);
    ClampAbove(f.nodRatio);
  }

  lemma ClampAbove(x: real)
    ensures x >= 1.0 ==> Clamp(x, 0.0, 1.0) == 1.0
    ensures x <= 0.0 ==> Clamp(x, 0.0, 1.0) == 0.0
    ensures Clamp(1.0, 0.0, 1.0) == 1.0 && Clamp(0.0, 0.0, 1.0) == 0.0
  {
  }

  /** The mood is 0 at the lowest inputs and 1 at the highest, of which one speaker is enough. */
  lemma ScoreEnds(f: Features, speech: real)
    requires Loudest(f, speech)
    ensures f.valenceMean <= -1.0 && f.attentionMean <= -0.2 && f.nodRatio <= 0.0 && speech <= 0.0 ==> MoodScore(f) == 0.0
    ensures f.valenceMean >= 1.0 && f.attentionMean >= 0.2 && f.nodRatio >= 1.0 && speech >= 1.0 ==> MoodScore(f) == 1.0
  {
    hide Clamp;
    ClampAbove((f.valenceMean + 1.0) / 2.0);
    ClampAbove(0.5 + 2.5 * f.attentionMean);
    ClampAbove(f.nodRatio);
    ClampAbove(Weighted(f));
  }

  /** Only the greater speech ratio counts, whoever speaks. */
  lemma ScoreOfLoudest(f: Features, g: Features, speech: real)
    requires Loudest(f, speech) && Loudest(g, speech)
    requires f == g.(selfSpeech := f.selfSpeech, otherSpeech := f.otherSpeech)
    ensures MoodScore(f) == MoodScore(g)
  {
    hide Clamp;
  }

  // ---------- the wave ----------

  /** Three decimals: the multiple of 0.001 that is nearest, the upper one of two. */
  lemma Round3Iff(x: real, n: int)
    ensures Round3(x) == n as real / 1000.0 <==> n as real - 0.5 <= x * 1000.0 < n as real + 0.5
  {
    var y := x * 1000.0 + 0.5;
    assert y.Floor as real <= y < y.Floor as real + 1.0;
    if n as real <= y < n as real + 1.0 {
      assert y.Floor == n;
    }
  }

  function Power(base: real, n: nat): real {
    if n == 0 then 1.0 else base * Power(base, n - 1)
  }

  /**
   The wave after a jump: when the mood has rested at `rest` and then stays at `c`, the deviation after
   n ticks is (c - rest) 343/330 (0.98^n - 0.65^n), which rises from 0 and falls back to 0.
   */
  lemma {:induction false} StepResponse(m: Monitor, ticks: seq<Tick>, rest: real, c: real)
    requires m.ema == Some(rest) && m.baseline == Some(rest) && Constant(ticks, c)
    ensures var r := Run(m, ticks); var n := |ticks|;
            && r.ema.Some? && r.baseline.Some?
            && r.ema.value == c + (rest - c) * Power(0.65, n)
            && r.ema.value - r.baseline.value == (c - rest) * (343.0 * Power(0.98, n) - 343.0 * Power(0.65, n)) / 330.0
  {
    hide Step;
    if ticks != [] {
      var before, last := ticks[..|ticks| - 1], ticks[|ticks| - 1];
      var k := |before|;
      StepResponse(m, before, rest, c);
      StepAverages(Run(m, before), last);
      AveragesAfter(rest - c, Power(0.65, k), Power(0.98, k), Run(m, before), c);
    }
  }

  /** The wave starts level: on the first tick both averages are the mood itself. */
  lemma FirstTick(m: Monitor, tick: Tick)
    requires m.ema == None && m.baseline == None && !tick.calibrating
    ensures var r := Step(m, tick).next; r.ema == Some(tick.raw) && r.baseline == Some(tick.raw)
  {
    StepAverages(m, tick);
  }

  lemma AveragesAfter(d: real, fast: real, slow: real, m: Monitor, c: real)
    requires m.ema.Some? && m.baseline.Some?
    requires m.ema.value == c + d * fast
    requires m.ema.value - m.baseline.value == -d * (343.0 * slow - 343.0 * fast) / 330.0
    ensures var r := Smoothed(m, c);
            && r.ema.value == c + d * (0.65 * fast)
            && r.ema.value - r.baseline.value == -d * (343.0 * (0.98 * slow) - 343.0 * (0.65 * fast)) / 330.0
  {
    var x, y := d * fast, d * slow;
    assert d * (0.65 * fast) == 0.65 * x && d * (0.98 * slow) == 0.98 * y;
    assert -d * (343.0 * slow - 343.0 * fast) == 343.0 * x - 343.0 * y;
    assert -d * (343.0 * (0.98 * slow) - 343.0 * (0.65 * fast)) == 343.0 * (0.65 * x) - 343.0 * (0.98 * y);
  }

  /** The same state on a mood that is higher by `d` throughout. */
  predicate Lifted(m: Monitor, up: Monitor, d: real) {
    && (m.ema.Some? <==> up.ema.Some?) && (m.ema.Some? ==> up.ema.value == m.ema.value + d)
    && (m.baseline.Some? <==> up.baseline.Some?) && (m.baseline.Some? ==> up.baseline.value == m.baseline.value + d)
    && up == m.(ema := up.ema, baseline := up.baseline)
  }

  function LiftedTick(tick: Tick, d: real): Tick {
    tick.(raw := tick.raw + d)
  }

  function LiftedEvents(events: seq<Event>, d: real): (r: seq<Event>)
    ensures |r| == |events|
  {
    seq(|events|, i requires 0 <= i < |events| =>
      if events[i].Analysis? then Analysis(LiftedTick(events[i].tick, d)) else events[i])
  }

  lemma SmoothedLifts(m: Monitor, up: Monitor, raw: real, d: real)
    requires Lifted(m, up, d)
    ensures var r, s := Smoothed(m, raw), Smoothed(up, raw + d);
            Lifted(r, s, d) && s.ema.value - s.baseline.value == r.ema.value - r.baseline.value
  {
  }

  lemma SampledLifts(m: Monitor, up: Monitor, now: int, d: real)
    requires Lifted(m, up, d) && m.ema.Some? && m.baseline.Some?
    ensures up.ema.Some? && up.baseline.Some? && Lifted(Sampled(m, now), Sampled(up, now), d)
  {
    assert up.ema.value - up.baseline.value == m.ema.value - m.baseline.value;
  }

  lemma MoodLifts(m: Monitor, up: Monitor, now: int, d: real)
    requires Lifted(m, up, d) && m.history != []
    ensures var (r, x), (s, y) := MoodDetected(m, now), MoodDetected(up, now); Lifted(r, s, d) && x == y
  {
    hide Round3, NearBaseline, Abs;
  }

  lemma NodLifts(m: Monitor, up: Monitor, now: int, ratio: real, d: real)
    requires Lifted(m, up, d)
    ensures var (r, x), (s, y) := NodDetected(m, now, ratio), NodDetected(up, now, ratio); Lifted(r, s, d) && x == y
  {
    hide Round3;
  }

  lemma StepLifts(m: Monitor, up: Monitor, tick: Tick, d: real)
    requires Lifted(m, up, d)
    ensures var r, s := Step(m, tick), Step(up, LiftedTick(tick, d));
            Lifted(r.next, s.next, d) && r.mood == s.mood && r.nod == s.nod
    ensures !tick.calibrating ==> EntryOf(m, tick) == EntryOf(up, LiftedTick(tick, d))
  {
    hide Sampled, Smoothed, MoodDetected, NodDetected;
    SmoothedLifts(m, up, tick.raw, d);
    var r, s := Smoothed(m, tick.raw), Smoothed(up, tick.raw + d);
    SampledLifts(r, s, tick.now, d);
    MoodLifts(Sampled(r, tick.now), Sampled(s, tick.now), tick.now, d);
    NodLifts(MoodDetected(Sampled(r, tick.now), tick.now).0, MoodDetected(Sampled(s, tick.now), tick.now).0, tick.now, tick.ratio, d);
  }

  /** The wave and the triggers do not depend on the level of the mood, only on its changes. */
  lemma {:induction false} LogIgnoresLevel(events: seq<Event>, d: real, n: nat)
    requires n <= |events|
    ensures Log(LiftedEvents(events, d), n) == Log(events, n)
    ensures Lifted(Life(events, n), Life(LiftedEvents(events, d), n), d)
  {
    hide Step, EntryOf;
    if n > 0 {
      LogIgnoresLevel(events, d, n - 1);
      if events[n - 1].Analysis? {
        StepLifts(Life(events, n - 1), Life(LiftedEvents(events, d), n - 1), events[n - 1].tick, d);
      }
    }
  }

  // ---------- what a moment says ----------

  lemma Round3Keeps(n: int)
    ensures Round3(n as real / 1000.0) == n as real / 1000.0
  {
    Round3Iff(n as real / 1000.0, n);
  }

  /** Rounding to three decimals keeps the sign and the size of a deviation. */
  lemma DeviationSays(x: real)
    ensures Round3(Abs(Round3(x))) == Abs(Round3(x))
    ensures Round3(x) >= 0.08 <==> x >= 0.0795
    ensures Round3(x) <= -0.08 <==> x < -0.0795
    ensures -0.0005 <= Round3(x) - x <= 0.0005
  {
    var n := (x * 1000.0 + 0.5).Floor;
    assert Round3(x) == n as real / 1000.0;
    assert n as real <= x * 1000.0 + 0.5 < n as real + 1.0;
    hide Round3;
    Round3Keeps(n);
    Round3Keeps(-n);
    if n >= 80 {} else if n <= -80 {}
  }

  /** What the mood trigger captures on its latest sample. */
  lemma MoodMomentSays(m: Monitor, now: int, x: real)
    requires m.history != [] && m.history[|m.history| - 1].dev == Round3(x)
    ensures var mood := MoodDetected(m, now).1;
            mood.Some? ==>
              && mood.value.t == now
              && (mood.value.direction == if x > 0.0 then Rise else Drop)
              && (x >= 0.0795 || x < -0.0795)
              && mood.value.delta == Abs(Round3(x))
  {
    hide Round3;
    DeviationSays(x);
  }

  /**
   A captured moment: a rise is a mood at least 0.0795 above its baseline, a drop one more than 0.0795
   below it, a nod is a third of the faces nodding; it carries the time of its tick, and the size of
   the deviation, or the nod ratio, to three decimals.
   */
  lemma MomentsSay(m: Monitor, tick: Tick)
    requires !tick.calibrating
    ensures var r := Step(m, tick);
            && r.next.ema.Some? && r.next.baseline.Some?
            && var d := r.next.ema.value - r.next.baseline.value;
            && EntryOf(m, tick).dev == Round3(d) && -0.0005 <= Round3(d) - d <= 0.0005
            && (r.mood.Some? ==>
                  && r.mood.value.t == tick.now
                  && (r.mood.value.direction == if d > 0.0 then Rise else Drop)
                  && (d >= 0.0795 || d < -0.0795)
                  && r.mood.value.delta == Abs(EntryOf(m, tick).dev) && -0.0005 <= r.mood.value.delta - Abs(d) <= 0.0005)
            && (r.nod.Some? ==>
                  && r.nod.value.t == tick.now && r.nod.value.direction == Nod
                  && tick.ratio >= 0.34 && -0.0005 <= r.nod.value.delta - tick.ratio <= 0.0005)
  {
    hide Round3, DropOld;
    var s := Smoothed(m, tick.raw);
    var d := s.ema.value - s.baseline.value;
    var sampled := Sampled(s, tick.now);
    MoodMomentSays(sampled, tick.now, d);
    DeviationSays(d);
    DeviationSays(tick.ratio);
    NodMomentSays(MoodDetected(sampled, tick.now).0, tick);
    hide MoodDetected, NodDetected, Abs;
    assert Step(m, tick).mood == MoodDetected(sampled, tick.now).1;
  }

  lemma NodMomentSays(m: Monitor, tick: Tick)
    ensures var nod := NodDetected(m, tick.now, tick.ratio).1;
            nod.Some? ==> nod.value == Moment(tick.now, Nod, Round3(tick.ratio)) && tick.ratio >= 0.34
  {
  }
}
