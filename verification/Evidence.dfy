/**
 Evidence packs: the window built from what the trimmed Redis key returns, and the rule
 that turns a window's trend into feedback.
 */
module Evidence {
  import FeedbackCooldown
  import opened SortedSets
  import opened RedisCache
  import opened Window

  /** The samples that the members of a key encode. */
  function Decoded(decode: string -> Sample, z: seq<Entry>): (r: seq<Sample>)
    ensures |r| == |z| && forall k :: 0 <= k < |z| ==> r[k] == decode(z[k].member)
  {
    seq(|z|, k requires 0 <= k < |z| => decode(z[k].member))
  }

  /** A stored sample is scored by its own time. */
  ghost predicate ScoredByTime(decode: string -> Sample, z: seq<Entry>) {
    forall k :: 0 <= k < |z| ==> decode(z[k].member).t == z[k].score
  }

  /** Samples before the window may be there or not. */
  lemma {:induction false} FilterIgnoresEarly(samples: seq<Sample>, startMs: int, endMs: int, skip: nat, n: nat)
    requires skip <= n <= |samples|
    requires forall k :: 0 <= k < skip ==> samples[k].t < startMs
    ensures Filtered(samples, startMs, endMs, n) == Filtered(samples[skip..], startMs, endMs, n - skip)
    decreases n
  {
    if n > skip {
      FilterIgnoresEarly(samples, startMs, endMs, skip, n - 1);
    } else if n > 0 {
      FilterEarly(samples, startMs, endMs, n);
    }
  }

  lemma {:induction false} FilterEarly(samples: seq<Sample>, startMs: int, endMs: int, n: nat)
    requires n <= |samples| && forall k :: 0 <= k < n ==> samples[k].t < startMs
    ensures Filtered(samples, startMs, endMs, n) == []
  {
    if n > 0 {
      FilterEarly(samples, startMs, endMs, n - 1);
    }
  }

  lemma DecodedSuffix(decode: string -> Sample, z: seq<Entry>, skip: nat)
    requires skip <= |z|
    ensures Decoded(decode, z)[skip..] == Decoded(decode, z[skip..])
  {
  }

  lemma RangeFiltersAlike(decode: string -> Sample, z: seq<Entry>, startMs: int, endMs: int)
    requires Sorted(z) && ScoredByTime(decode, z)
    ensures var all, read := Decoded(decode, z), Decoded(decode, From(z, startMs));
            Filtered(read, startMs, endMs, |read|) == Filtered(all, startMs, endMs, |all|)
  {
    var skip := Below(z, startMs, 0);
    BelowSplits(z, startMs, 0);
    DecodedSuffix(decode, z, skip);
    FilterIgnoresEarly(Decoded(decode, z), startMs, endMs, skip, |z|);
  }

  lemma ScoreOfStored(decode: string -> Sample, history: seq<Store>, n: nat, e: Entry)
    requires n <= |history| && WasStored(history, n, e)
    requires forall k :: 0 <= k < |history| ==> decode(history[k].entry.member).t == history[k].entry.score
    ensures decode(e.member).t == e.score
  {
    var k :| 0 <= k < n && history[k].entry == e;
  }

  lemma ScoresOfStored(decode: string -> Sample, history: seq<Store>)
    requires forall k :: 0 <= k < |history| ==> decode(history[k].entry.member).t == history[k].entry.score
    ensures ScoredByTime(decode, Everything(history, |history|))
  {
    var n := |history|;
    EverythingHolds(history, n);
    forall e | WasStored(history, n, e) ensures decode(e.member).t == e.score {
      ScoreOfStored(decode, history, n, e);
    }
  }

  /**
   Every window that starts less than ten minutes before the latest sample, so the trigger's 30 s
   and the periodic 300 s, filtered out of what the trimmed key returns is the one filtered out of
   every sample ever stored.
   */
  lemma CacheWindowIsHistoryWindow(decode: string -> Sample, history: seq<Store>, startMs: int, endMs: int)
    requires MoodRun(history) && history != []
    requires forall k :: 0 <= k < |history| ==> decode(history[k].entry.member).t == history[k].entry.score
    requires startMs > history[|history| - 1].entry.score - MOOD_WAVE_RECENT_TRIM_MS
    ensures var read := Decoded(decode, From(Cache(history, |history|), startMs));
            var all := Decoded(decode, Everything(history, |history|));
            Filtered(read, startMs, endMs, |read|) == Filtered(all, startMs, endMs, |all|)
  {
    var all := Everything(history, |history|);
    MoodReadsAllIff(history, startMs);
    assert From(Cache(history, |history|), startMs) == From(all, startMs);
    assert Sorted(all) by { EverythingHolds(history, |history|); }
    ScoresOfStored(decode, history);
    RangeFiltersAlike(decode, all, startMs, endMs);
  }

  /** `BuildWindow` over what the trimmed key returns gives the wave it would give over every sample ever stored. */
  lemma CacheWaveIsHistoryWave(decode: string -> Sample, history: seq<Store>, startMs: int, endMs: int, x: seq<Sample>, y: seq<Sample>)
    requires MoodRun(history) && history != []
    requires forall k :: 0 <= k < |history| ==> decode(history[k].entry.member).t == history[k].entry.score
    requires startMs > history[|history| - 1].entry.score - MOOD_WAVE_RECENT_TRIM_MS
    requires var read := Decoded(decode, From(Cache(history, |history|), startMs)); SortOf(Filtered(read, startMs, endMs, |read|), x)
    requires var all := Decoded(decode, Everything(history, |history|)); SortOf(Filtered(all, startMs, endMs, |all|), y)
    requires DistinctTimes(x)
    ensures WaveOf(x) == WaveOf(y)
  {
    hide Filtered, Cache, Everything, From, WaveOf;
    CacheWindowIsHistoryWindow(decode, history, startMs, endMs);
    SortIsUnique(x, y);
  }

  // ---------- the rule fallback ----------

  datatype FeedbackType = ReactionDown | ReactionUp | OnTrack
  datatype Severity = Low | Info
  datatype Reason = MoodWaveDrop | MoodWaveRise | NodTrigger

  datatype Feedback = Feedback(kind: FeedbackType, severity: Severity, reasons: seq<Reason>, cooldownMs: int)

  function RuleFallback(nodTrigger: bool, wave: Wave): Feedback {
    var nod := if nodTrigger then [NodTrigger] else [];
    match wave.summary.overall
    case Declined => Feedback(ReactionDown, Low, [MoodWaveDrop] + nod, FeedbackCooldown.FEEDBACK_COOLDOWN_MS)
    case Improved => Feedback(ReactionUp, Info, [MoodWaveRise] + nod, FeedbackCooldown.FEEDBACK_COOLDOWN_MS)
    case Stable => Feedback(OnTrack, Info, nod, FeedbackCooldown.FEEDBACK_COOLDOWN_MS)
  }

  /** Feedback says "down" exactly when the last sample lies below the first by more than the deadband per second, and "up" mirrored. */
  lemma FallbackFollowsTrend(s: seq<Sample>, nodTrigger: bool)
    requires s != [] && s[|s| - 1].t > s[0].t
    ensures var f := RuleFallback(nodTrigger, WaveOf(s));
            var rise, millis := s[|s| - 1].y - s[0].y, (s[|s| - 1].t - s[0].t) as real;
            && (f.kind == ReactionDown <==> 1000.0 * rise < -SLOPE_DEADBAND_PER_SEC * millis)
            && (f.kind == ReactionUp <==> 1000.0 * rise > SLOPE_DEADBAND_PER_SEC * millis)
            && (f.kind == OnTrack <==> -SLOPE_DEADBAND_PER_SEC * millis <= 1000.0 * rise <= SLOPE_DEADBAND_PER_SEC * millis)
            && (f.severity == Low <==> f.kind == ReactionDown)
            && (MoodWaveDrop in f.reasons <==> f.kind == ReactionDown)
            && (MoodWaveRise in f.reasons <==> f.kind == ReactionUp)
            && (NodTrigger in f.reasons <==> nodTrigger)
            && |f.reasons| == (if f.kind == OnTrack then 0 else 1) + (if nodTrigger then 1 else 0)
            && f.cooldownMs == 30000
  {
    var rise, millis := s[|s| - 1].y - s[0].y, (s[|s| - 1].t - s[0].t) as real;
    SlopeAgainst(rise, millis, SLOPE_DEADBAND_PER_SEC);
    SlopeAgainst(rise, millis, -SLOPE_DEADBAND_PER_SEC);
  }

  /** A window that is empty, or whose samples share one time, has no trend. */
  lemma FallbackWithoutSpan(s: seq<Sample>, nodTrigger: bool)
    requires s == [] || s[|s| - 1].t <= s[0].t
    ensures var f := RuleFallback(nodTrigger, WaveOf(s));
            f.kind == OnTrack && f.severity == Info && f.reasons == if nodTrigger then [NodTrigger] else []
  {
    hide SumY, SumDeviations, SumConfidence, SumFaces, MinY, MaxY, Points;
  }

  lemma SlopeAgainst(rise: real, millis: real, bound: real)
    requires millis > 0.0
    ensures rise / (millis / 1000.0) < bound <==> 1000.0 * rise < bound * millis
    ensures rise / (millis / 1000.0) > bound <==> 1000.0 * rise > bound * millis
  {
    var q, e := rise / (millis / 1000.0), millis / 1000.0;
    assert rise == q * e;
    assert (q < bound <==> q * e < bound * e) && (q > bound <==> q * e > bound * e);
    assert bound * millis == 1000.0 * (bound * e);
  }

  /** Feedback of the opposite wave is the opposite feedback. */
  lemma OppositeWaveOppositeFeedback(s: seq<Sample>, nodTrigger: bool)
    requires s != []
    ensures var f, g := RuleFallback(nodTrigger, WaveOf(s)), RuleFallback(nodTrigger, WaveOf(Negated(s)));
            && (f.kind == ReactionDown <==> g.kind == ReactionUp)
            && (f.kind == ReactionUp <==> g.kind == ReactionDown)
  {
    NegatedWave(s);
  }
}
