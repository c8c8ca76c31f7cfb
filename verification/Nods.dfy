/**
 The nod counter: a track's recent head pitches are smoothed, the turns of the smoothed curve are
 found, and swings between neighbouring turns that last and reach far enough count as nods, no
 turn serving two nods.
 */
module Nods {
  import opened Numeric

  const MIN_SAMPLES := 5
  const DEADBAND: real := 0.005
  const NOD_MIN_PITCH_DELTA: real := 0.04
  const NOD_MIN_PHASE_MS := 120
  const FULL_SCORE_AMPLITUDE: real := 0.1

  datatype Sample = Sample(t: int, pitch: real)
  datatype Gesture = Gesture(count: nat, score: real)

  // ---------- smoothing ----------

  function Total(history: seq<Sample>, i: nat, j: nat): real
    requires i <= j <= |history|
  {
    if i == j then 0.0 else Total(history, i, j - 1) + history[j - 1].pitch
  }

  /** The mean over the sample and its neighbours; at the ends there is one neighbour fewer. */
  function WindowMean(history: seq<Sample>, i: nat): real
    requires i < |history|
  {
    var lo := if i == 0 then 0 else i - 1;
    var hi := if i + 2 < |history| then i + 2 else |history|;
    Total(history, lo, hi) / (hi - lo) as real
  }

  function Smoothed(history: seq<Sample>): (s: seq<Sample>)
    ensures |s| == |history|
    ensures forall i :: 0 <= i < |s| ==> s[i] == Sample(history[i].t, WindowMean(history, i))
  {
    seq(|history|, i requires 0 <= i < |history| => Sample(history[i].t, WindowMean(history, i)))
  }

  // ---------- turns ----------

  function Direction(delta: real): int {
    if Abs(delta) < DEADBAND then 0 else if delta > 0.0 then 1 else -1
  }

  /** The direction of the step into sample `i`; 0 is too small a step. */
  function Step(s: seq<Sample>, i: nat): int
    requires 0 < i < |s|
  {
    Direction(s[i].pitch - s[i - 1].pitch)
  }

  /** The last direction other than 0 among the steps before sample `n`, or 0. */
  function Last(s: seq<Sample>, n: nat): int
    requires 0 < n <= |s|
  {
    if n == 1 then 0 else if Step(s, n - 1) != 0 then Step(s, n - 1) else Last(s, n - 1)
  }

  predicate IsTurn(s: seq<Sample>, i: nat) {
    0 < i < |s| && Step(s, i) != 0 && Last(s, i) != 0 && Step(s, i) != Last(s, i)
  }

  /** The turns before sample `n`, in order. */
  function Turns(s: seq<Sample>, n: nat): (turns: seq<nat>)
    requires 0 < n <= |s|
    ensures forall k :: 0 <= k < |turns| ==> turns[k] < n
  {
    if n == 1 then [] else if IsTurn(s, n - 1) then Turns(s, n - 1) + [n - 1] else Turns(s, n - 1)
  }

  // ---------- swings ----------

  function Highest(s: seq<Sample>, i: nat, j: nat): real
    requires i <= j < |s|
    decreases j
  {
    if i == j then s[i].pitch else Max(Highest(s, i, j - 1), s[j].pitch)
  }

  function Lowest(s: seq<Sample>, i: nat, j: nat): real
    requires i <= j < |s|
    decreases j
  {
    if i == j then s[i].pitch else Min(Lowest(s, i, j - 1), s[j].pitch)
  }

  /** These are the greatest and the least pitch from `i` to `j`. */
  lemma {:induction false} RangeIsAttained(s: seq<Sample>, i: nat, j: nat)
    requires i <= j < |s|
    ensures forall k :: i <= k <= j ==> Lowest(s, i, j) <= s[k].pitch <= Highest(s, i, j)
    ensures exists k :: i <= k <= j && s[k].pitch == Highest(s, i, j)
    ensures exists k :: i <= k <= j && s[k].pitch == Lowest(s, i, j)
    decreases j
  {
    if i < j {
      RangeIsAttained(s, i, j - 1);
      assert s[j].pitch <= Highest(s, i, j);
    }
  }

  /** Turns are positions of the curve, in ascending order. */
  predicate Ascending(s: seq<Sample>, turns: seq<nat>) {
    && (forall k :: 0 <= k < |turns| ==> turns[k] < |s|)
    && (forall j, k :: 0 <= j < k < |turns| ==> turns[j] < turns[k])
  }

  function Amplitude(s: seq<Sample>, turns: seq<nat>, i: nat): real
    requires Ascending(s, turns) && 0 < i < |turns|
  {
    Highest(s, turns[i - 1], turns[i]) - Lowest(s, turns[i - 1], turns[i])
  }

  /** The swing between turns `i - 1` and `i` lasts and reaches far enough for a nod. */
  predicate IsNod(s: seq<Sample>, turns: seq<nat>, i: nat)
    requires Ascending(s, turns) && 0 < i < |turns|
  {
    s[turns[i]].t - s[turns[i - 1]].t >= NOD_MIN_PHASE_MS && Amplitude(s, turns, i) >= NOD_MIN_PITCH_DELTA
  }

  /** How many nods are counted from turn `i` on, and the greatest amplitude of them and of `reached`. */
  function Counted(s: seq<Sample>, turns: seq<nat>, i: nat, reached: real): (nat, real)
    requires Ascending(s, turns) && 0 < i
    decreases |turns| - i
  {
    if i >= |turns| then (0, reached)
    else if IsNod(s, turns, i) then
      var rest := Counted(s, turns, i + 2, Max(reached, Amplitude(s, turns, i)));
      (1 + rest.0, rest.1)
    else Counted(s, turns, i + 1, reached)
  }

  function Score(amplitude: real): real {
    Round3(Clamp(amplitude / FULL_SCORE_AMPLITUDE, 0.0, 1.0))
  }

  function GestureOf(history: seq<Sample>): Gesture {
    if |history| < MIN_SAMPLES then Gesture(0, 0.0)
    else
      var s := Smoothed(history);
      TurnsAscend(s, |s|);
      var nods := Counted(s, Turns(s, |s|), 1, 0.0);
      Gesture(nods.0, Score(nods.1))
  }

  lemma {:induction false} TurnsAscend(s: seq<Sample>, n: nat)
    requires 0 < n <= |s|
    ensures Ascending(s, Turns(s, n))
  {
    if n > 1 {
      TurnsAscend(s, n - 1);
    }
  }

  /** The turns found are exactly the samples where the curve turns. */
  lemma {:induction false} TurnsAreAll(s: seq<Sample>, n: nat, i: nat)
    requires 0 < n <= |s|
    ensures i in Turns(s, n) <==> i < n && IsTurn(s, i)
  {
    if n > 1 {
      TurnsAreAll(s, n - 1, i);
    }
  }

  method DetectNodGesture(trackHistory: map<nat, seq<Sample>>, audienceId: nat) returns (g: Gesture)
    ensures g == GestureOf(if audienceId in trackHistory then trackHistory[audienceId] else [])
  {
    var history := if audienceId in trackHistory then trackHistory[audienceId] else [];
    if |history| < MIN_SAMPLES {
      return Gesture(0, 0.0);
    }
    var smoothed := Smoothed(history);
    var directionChanges := FindTurns(smoothed);
    TurnsAscend(smoothed, |smoothed|);
    var nodCount, maxAmplitude := CountNods(smoothed, directionChanges);
    return Gesture(nodCount, Round3(Clamp(maxAmplitude / FULL_SCORE_AMPLITUDE, 0.0, 1.0)));
  }

  method FindTurns(smoothed: seq<Sample>) returns (directionChanges: seq<nat>)
    requires smoothed != []
    ensures directionChanges == Turns(smoothed, |smoothed|)
  {
    directionChanges := [];
    var previousDirection := 0;
    var i := 1;
    while i < |smoothed|
      invariant 1 <= i <= |smoothed|
      invariant directionChanges == Turns(smoothed, i) && previousDirection == Last(smoothed, i)
    {
      var delta := smoothed[i].pitch - smoothed[i - 1].pitch;
      var direction := if Abs(delta) < DEADBAND then 0 else if delta > 0.0 then 1 else -1;
      if direction != 0 {
        if previousDirection != 0 && direction != previousDirection {
          directionChanges := directionChanges + [i];
        }
        previousDirection := direction;
      }
      i := i + 1;
    }
  }

  method CountNods(smoothed: seq<Sample>, turns: seq<nat>) returns (nodCount: nat, maxAmplitude: real)
    requires Ascending(smoothed, turns)
    ensures (nodCount, maxAmplitude) == Counted(smoothed, turns, 1, 0.0)
  {
    nodCount, maxAmplitude := 0, 0.0;
    var i := 1;
    while i < |turns|
      invariant 1 <= i
      invariant nodCount + Counted(smoothed, turns, i, maxAmplitude).0 == Counted(smoothed, turns, 1, 0.0).0
      invariant Counted(smoothed, turns, i, maxAmplitude).1 == Counted(smoothed, turns, 1, 0.0).1
    {
      var duration := smoothed[turns[i]].t - smoothed[turns[i - 1]].t;
      var amplitude := PitchRange(smoothed, turns[i - 1], turns[i]);
      if duration >= NOD_MIN_PHASE_MS && amplitude >= NOD_MIN_PITCH_DELTA {
        nodCount := nodCount + 1;
        maxAmplitude := Max(maxAmplitude, amplitude);
        i := i + 1;
      }
      i := i + 1;
    }
  }

  method PitchRange(samples: seq<Sample>, startIndex: nat, endIndex: nat) returns (range: real)
    requires startIndex <= endIndex < |samples|
    ensures range == Highest(samples, startIndex, endIndex) - Lowest(samples, startIndex, endIndex)
  {
    var highest, lowest := samples[startIndex].pitch, samples[startIndex].pitch;
    var i := startIndex;
    while i < endIndex
      invariant startIndex <= i <= endIndex
      invariant highest == Highest(samples, startIndex, i) && lowest == Lowest(samples, startIndex, i)
    {
      i := i + 1;
      highest := Max(highest, samples[i].pitch);
      lowest := Min(lowest, samples[i].pitch);
    }
    range := highest - lowest;
  }

  // ---------- what is counted ----------

  /** `picks[k..]` are nods from `from` on, no two of them with a turn in common. */
  predicate Disjoint(s: seq<Sample>, turns: seq<nat>, picks: seq<nat>, k: nat, from: nat)
    requires Ascending(s, turns) && k <= |picks| && 0 < from
    decreases |picks| - k
  {
    k < |picks| ==>
      && from <= picks[k] < |turns| && IsNod(s, turns, picks[k])
      && Disjoint(s, turns, picks, k + 1, picks[k] + 2)
  }

  predicate Swings(s: seq<Sample>, turns: seq<nat>, picks: seq<nat>)
    requires Ascending(s, turns)
  {
    forall k :: 0 <= k < |picks| ==> 0 < picks[k] < |turns|
  }

  /** The counted nods: disjoint, as many as the count; the amplitude reported is the greatest of theirs. */
  lemma {:induction false} CountedAreDisjoint(s: seq<Sample>, turns: seq<nat>, i: nat, reached: real) returns (picks: seq<nat>)
    requires Ascending(s, turns) && 0 < i
    ensures var (count, amplitude) := Counted(s, turns, i, reached);
            && |picks| == count
            && Disjoint(s, turns, picks, 0, i)
            && Swings(s, turns, picks)
            && reached <= amplitude
            && (forall k :: 0 <= k < |picks| ==> Amplitude(s, turns, picks[k]) <= amplitude)
            && (amplitude == reached || exists k :: 0 <= k < |picks| && Amplitude(s, turns, picks[k]) == amplitude)
    decreases |turns| - i
  {
    hide Amplitude;
    if i >= |turns| {
      picks := [];
    } else if IsNod(s, turns, i) {
      var more := Max(reached, Amplitude(s, turns, i));
      var rest := CountedAreDisjoint(s, turns, i + 2, more);
      picks := [i] + rest;
      DisjointCons(s, turns, i, rest, 0, i + 2);
      var amplitude := Counted(s, turns, i, reached).1;
      if amplitude == more {
        assert Amplitude(s, turns, picks[0]) == more || more == reached;
      } else {
        var k :| 0 <= k < |rest| && Amplitude(s, turns, rest[k]) == amplitude;
        assert picks[k + 1] == rest[k];
      }
    } else {
      picks := CountedAreDisjoint(s, turns, i + 1, reached);
    }
  }

  lemma {:induction false} DisjointCons(s: seq<Sample>, turns: seq<nat>, first: nat, picks: seq<nat>, k: nat, from: nat)
    requires Ascending(s, turns) && k <= |picks| && 0 < from && Disjoint(s, turns, picks, k, from)
    ensures Disjoint(s, turns, [first] + picks, k + 1, from)
    decreases |picks| - k
  {
    if k < |picks| {
      DisjointCons(s, turns, first, picks, k + 1, picks[k] + 2);
      assert ([first] + picks)[k + 1] == picks[k];
    }
  }

  /** Counting from the left misses nothing: no choice of nods without a turn in common has more of them. */
  lemma {:induction false} CountIsGreatest(s: seq<Sample>, turns: seq<nat>, i: nat, reached: real, picks: seq<nat>, k: nat, from: nat)
    requires Ascending(s, turns) && 0 < i <= from && k <= |picks| && Disjoint(s, turns, picks, k, from)
    ensures |picks| - k <= Counted(s, turns, i, reached).0
    decreases |turns| - i
  {
    if k < |picks| {
      if IsNod(s, turns, i) {
        CountIsGreatest(s, turns, i + 2, Max(reached, Amplitude(s, turns, i)), picks, k + 1, picks[k] + 2);
      } else {
        CountIsGreatest(s, turns, i + 1, reached, picks, k, picks[k]);
      }
    }
  }

  /** Each counted nod uses up two turns. */
  lemma {:induction false} TwoTurnsEach(s: seq<Sample>, turns: seq<nat>, i: nat, reached: real)
    requires Ascending(s, turns) && 0 < i <= |turns| + 1
    ensures 2 * Counted(s, turns, i, reached).0 <= |turns| - i + 1
    decreases |turns| - i
  {
    if i < |turns| {
      if IsNod(s, turns, i) {
        TwoTurnsEach(s, turns, i + 2, Max(reached, Amplitude(s, turns, i)));
      } else {
        TwoTurnsEach(s, turns, i + 1, reached);
      }
    }
  }

  lemma {:induction false} AmplitudeIffCounted(s: seq<Sample>, turns: seq<nat>, i: nat, reached: real)
    requires Ascending(s, turns) && 0 < i
    ensures var (count, amplitude) := Counted(s, turns, i, reached);
            && amplitude >= reached
            && (count == 0 ==> amplitude == reached)
            && (count > 0 ==> amplitude >= NOD_MIN_PITCH_DELTA)
    decreases |turns| - i
  {
    if i < |turns| {
      if IsNod(s, turns, i) {
        AmplitudeIffCounted(s, turns, i + 2, Max(reached, Amplitude(s, turns, i)));
      } else {
        AmplitudeIffCounted(s, turns, i + 1, reached);
      }
    }
  }

  lemma Scores(amplitude: real)
    requires amplitude == 0.0 || amplitude >= NOD_MIN_PITCH_DELTA
    ensures 0.0 <= Score(amplitude) <= 1.0
    ensures amplitude == 0.0 ==> Score(amplitude) == 0.0
    ensures amplitude > 0.0 ==> Score(amplitude) >= 0.4
  {
  }

  /** The count and the score agree: a nod was counted exactly when the score is at least 0.4, and otherwise it is 0. */
  lemma NodsIffScore(history: seq<Sample>)
    ensures var g := GestureOf(history);
            && 0.0 <= g.score <= 1.0
            && (g.count > 0 <==> g.score >= 0.4)
            && (g.count == 0 <==> g.score == 0.0)
            && (|history| >= MIN_SAMPLES ==> 2 * g.count <= |Turns(Smoothed(history), |history|)|)
  {
    if |history| >= MIN_SAMPLES {
      var s := Smoothed(history);
      var turns := Turns(s, |s|);
      TurnsAscend(s, |s|);
      AmplitudeIffCounted(s, turns, 1, 0.0);
      TwoTurnsEach(s, turns, 1, 0.0);
      Scores(Counted(s, turns, 1, 0.0).1);
    }
  }

  // ---------- what the count does not depend on ----------

  /** `u` is `s` at a pitch offset `c`, upside down if `flip`, and `late` ms later. */
  ghost predicate Moved(s: seq<Sample>, u: seq<Sample>, c: real, flip: bool, late: int) {
    && |u| == |s|
    && forall i :: 0 <= i < |s| ==> u[i] == Sample(s[i].t + late, MovedPitch(s[i].pitch, c, flip))
  }

  function MovedPitch(pitch: real, c: real, flip: bool): real {
    if flip then c - pitch else c + pitch
  }

  lemma MovedAt(s: seq<Sample>, u: seq<Sample>, c: real, flip: bool, late: int, i: nat)
    requires Moved(s, u, c, flip, late) && i < |s|
    ensures |u| == |s| && u[i].t == s[i].t + late
    ensures u[i].pitch == if flip then c - s[i].pitch else c + s[i].pitch
  {
  }

  lemma OneMoreMoved(total: real, pitch: real, n: real, c: real, flip: bool)
    ensures MovedPitch(total, n * c, flip) + (if flip then c - pitch else c + pitch) ==
            MovedPitch(total + pitch, (n + 1.0) * c, flip)
  {
    assert (n + 1.0) * c == n * c + c;
  }

  lemma {:induction false} TotalMoved(s: seq<Sample>, u: seq<Sample>, c: real, flip: bool, late: int, i: nat, j: nat)
    requires Moved(s, u, c, flip, late) && i <= j <= |s|
    ensures Total(u, i, j) == MovedPitch(Total(s, i, j), (j - i) as real * c, flip)
    decreases j - i
  {
    if i < j {
      hide Moved;
      TotalMoved(s, u, c, flip, late, i, j - 1);
      MovedAt(s, u, c, flip, late, j - 1);
      OneMoreMoved(Total(s, i, j - 1), s[j - 1].pitch, (j - 1 - i) as real, c, flip);
    }
  }

  lemma MeanMoved(total: real, moved: real, n: real, c: real, flip: bool)
    requires n > 0.0 && moved == MovedPitch(total, n * c, flip)
    ensures moved / n == MovedPitch(total / n, c, flip)
  {
  }

  lemma WindowMeanMoved(s: seq<Sample>, u: seq<Sample>, c: real, flip: bool, late: int, i: nat)
    requires Moved(s, u, c, flip, late) && i < |s|
    ensures WindowMean(u, i) == MovedPitch(WindowMean(s, i), c, flip)
  {
    hide Total, MovedPitch;
    var lo := if i == 0 then 0 else i - 1;
    var hi := if i + 2 < |s| then i + 2 else |s|;
    TotalMoved(s, u, c, flip, late, lo, hi);
    MeanMoved(Total(s, lo, hi), Total(u, lo, hi), (hi - lo) as real, c, flip);
  }

  lemma SmoothedMoved(s: seq<Sample>, u: seq<Sample>, c: real, flip: bool, late: int)
    requires Moved(s, u, c, flip, late)
    ensures Moved(Smoothed(s), Smoothed(u), c, flip, late)
  {
    hide WindowMean, MovedPitch;
    forall i | 0 <= i < |s| ensures WindowMean(u, i) == MovedPitch(WindowMean(s, i), c, flip) {
      WindowMeanMoved(s, u, c, flip, late, i);
    }
  }

  lemma {:induction false} LastMoved(s: seq<Sample>, u: seq<Sample>, c: real, flip: bool, late: int, n: nat)
    requires Moved(s, u, c, flip, late) && 0 < n <= |s|
    ensures Last(u, n) == if flip then -Last(s, n) else Last(s, n)
  {
    if n > 1 {
      LastMoved(s, u, c, flip, late, n - 1);
    }
  }

  lemma {:induction false} TurnsMoved(s: seq<Sample>, u: seq<Sample>, c: real, flip: bool, late: int, n: nat)
    requires Moved(s, u, c, flip, late) && 0 < n <= |s|
    ensures Turns(u, n) == Turns(s, n)
  {
    if n > 1 {
      TurnsMoved(s, u, c, flip, late, n - 1);
      LastMoved(s, u, c, flip, late, n - 1);
    }
  }

  lemma {:induction false} RangeMoved(s: seq<Sample>, u: seq<Sample>, c: real, flip: bool, late: int, i: nat, j: nat)
    requires Moved(s, u, c, flip, late) && |u| == |s| && i <= j < |s|
    ensures Highest(u, i, j) == if flip then c - Lowest(s, i, j) else c + Highest(s, i, j)
    ensures Lowest(u, i, j) == if flip then c - Highest(s, i, j) else c + Lowest(s, i, j)
    decreases j
  {
    hide Moved;
    MovedAt(s, u, c, flip, late, j);
    if i < j {
      RangeMoved(s, u, c, flip, late, i, j - 1);
    }
  }

  lemma IsNodMoved(s: seq<Sample>, u: seq<Sample>, c: real, flip: bool, late: int, turns: seq<nat>, i: nat)
    requires Moved(s, u, c, flip, late) && |u| == |s| && Ascending(s, turns) && Ascending(u, turns) && 0 < i < |turns|
    ensures Amplitude(u, turns, i) == Amplitude(s, turns, i) && IsNod(u, turns, i) == IsNod(s, turns, i)
  {
    hide Moved, Highest, Lowest;
    RangeMoved(s, u, c, flip, late, turns[i - 1], turns[i]);
    MovedAt(s, u, c, flip, late, turns[i - 1]);
    MovedAt(s, u, c, flip, late, turns[i]);
  }

  lemma {:induction false} CountedMoved(s: seq<Sample>, u: seq<Sample>, c: real, flip: bool, late: int, turns: seq<nat>, i: nat, reached: real)
    requires Moved(s, u, c, flip, late) && Ascending(s, turns) && Ascending(u, turns) && 0 < i
    ensures Counted(u, turns, i, reached) == Counted(s, turns, i, reached)
    decreases |turns| - i
  {
    if i < |turns| {
      hide Ascending, IsNod, Amplitude;
      IsNodMoved(s, u, c, flip, late, turns, i);
      if IsNod(s, turns, i) {
        CountedMoved(s, u, c, flip, late, turns, i + 2, Max(reached, Amplitude(s, turns, i)));
      } else {
        CountedMoved(s, u, c, flip, late, turns, i + 1, reached);
      }
    }
  }

  /** Tilting the head, nodding upside down and doing it later all leave the result as it is. */
  lemma GestureIgnoresOffset(history: seq<Sample>, other: seq<Sample>, c: real, flip: bool, late: int)
    requires Moved(history, other, c, flip, late)
    ensures GestureOf(other) == GestureOf(history)
  {
    if |history| >= MIN_SAMPLES {
      var s, u := Smoothed(history), Smoothed(other);
      SmoothedMoved(history, other, c, flip, late);
      TurnsAscend(s, |s|);
      TurnsAscend(u, |u|);
      TurnsMoved(s, u, c, flip, late, |s|);
      CountedMoved(s, u, c, flip, late, Turns(s, |s|), 1, 0.0);
    }
  }

  // ---------- a steady movement is no nod ----------

  predicate Rising(s: seq<Sample>) {
    forall i :: 0 < i < |s| ==> s[i - 1].pitch <= s[i].pitch
  }

  predicate Falling(s: seq<Sample>) {
    forall i :: 0 < i < |s| ==> s[i - 1].pitch >= s[i].pitch
  }

  lemma MeansOf(history: seq<Sample>, i: nat)
    requires i < |history| && |history| >= 3
    ensures WindowMean(history, i) ==
            if i == 0 then (history[0].pitch + history[1].pitch) / 2.0
            else if i == |history| - 1 then (history[i - 1].pitch + history[i].pitch) / 2.0
            else (history[i - 1].pitch + history[i].pitch + history[i + 1].pitch) / 3.0
  {
    var lo := if i == 0 then 0 else i - 1;
    var hi := if i + 2 < |history| then i + 2 else |history|;
    assert Total(history, lo, lo) == 0.0;
    assert Total(history, lo, lo + 1) == history[lo].pitch;
    assert Total(history, lo, lo + 2) == history[lo].pitch + history[lo + 1].pitch;
  }

  /** Smoothing keeps a rising curve rising, also at the ends, where it averages over fewer samples. */
  lemma SmoothedRises(history: seq<Sample>)
    requires Rising(history) && |history| >= MIN_SAMPLES
    ensures Rising(Smoothed(history))
  {
    var s := Smoothed(history);
    forall i | 0 < i < |s| ensures s[i - 1].pitch <= s[i].pitch {
      MeansOf(history, i - 1);
      MeansOf(history, i);
    }
  }

  lemma {:induction false} RisingNeverTurns(s: seq<Sample>, n: nat)
    requires Rising(s) && 0 < n <= |s|
    ensures Turns(s, n) == [] && 0 <= Last(s, n) <= 1
  {
    if n > 1 {
      RisingNeverTurns(s, n - 1);
    }
  }

  function UpsideDown(s: seq<Sample>): (u: seq<Sample>)
    ensures |u| == |s| && forall i :: 0 <= i < |s| ==> u[i] == Sample(s[i].t, 0.0 - s[i].pitch)
  {
    seq(|s|, i requires 0 <= i < |s| => Sample(s[i].t, 0.0 - s[i].pitch))
  }

  lemma RisingIsNoNod(history: seq<Sample>)
    requires Rising(history)
    ensures GestureOf(history) == Gesture(0, 0.0)
  {
    if |history| >= MIN_SAMPLES {
      SmoothedRises(history);
      hide Smoothed, Rising;
      RisingNeverTurns(Smoothed(history), |history|);
      Scores(0.0);
    }
  }

  /** A head that only goes up, or only down, has not nodded. */
  lemma SteadyIsNoNod(history: seq<Sample>)
    requires Rising(history) || Falling(history)
    ensures GestureOf(history) == Gesture(0, 0.0)
  {
    if Rising(history) {
      RisingIsNoNod(history);
    } else {
      hide GestureOf;
      GestureIgnoresOffset(history, UpsideDown(history), 0.0, true, 0);
      RisingIsNoNod(UpsideDown(history));
    }
  }
}
