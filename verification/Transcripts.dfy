/**
 How a speaker's time is cut into transcript chunks: the stub flushes one when at least 5 s of
 audio have arrived for the speaker; the consumer of recognition results cuts one per result.
 */
module Transcripts {

  const FLUSH_INTERVAL_MS := 5000

  /** An audio message; one that does not parse has no speaker either. */
  datatype Message = Malformed | Audio(speaker: string, t: int)
  datatype Accumulator = Accumulator(first: int, last: int)
  datatype Span = Span(start: int, end: int)
  datatype Chunk = Chunk(speaker: string, span: Span)

  // ---------- one speaker ----------

  /** The spans cut from the first `n` arrival times of a speaker, and the accumulator that is left. */
  function Cut(times: seq<int>, n: nat): (seq<Span>, Accumulator)
    requires 0 < n <= |times|
  {
    if n == 1 then ([], Accumulator(times[0], times[0]))
    else
      var (spans, acc) := Cut(times, n - 1);
      var t := times[n - 1];
      if t - acc.first >= FLUSH_INTERVAL_MS then (spans + [Span(acc.first, t)], Accumulator(t, t))
      else (spans, Accumulator(acc.first, t))
  }

  /** Where the first `n` spans end. */
  function EndOf(spans: seq<Span>, from: int, n: nat): int
    requires n <= |spans|
  {
    if n == 0 then from else spans[n - 1].end
  }

  /** Each span begins where the one before it ends, the first one at `from`. */
  predicate Contiguous(spans: seq<Span>, from: int) {
    forall k :: 0 <= k < |spans| ==> spans[k].start == EndOf(spans, from, k)
  }

  lemma OneMoreSpan(spans: seq<Span>, from: int, end: int)
    requires Contiguous(spans, from)
    ensures Contiguous(spans + [Span(EndOf(spans, from, |spans|), end)], from)
  {
    var more := spans + [Span(EndOf(spans, from, |spans|), end)];
    forall k | 0 <= k < |more| ensures more[k].start == EndOf(more, from, k) {
      assert k < |spans| ==> spans[k].start == EndOf(spans, from, k);
    }
  }

  /**
   The chunks are contiguous from the first arrival on, each is at least 5 s long and ends with an
   arrival, and what has not been flushed is less than 5 s.
   */
  lemma {:induction false} CutIsTiling(times: seq<int>, n: nat)
    requires 0 < n <= |times|
    ensures var (spans, acc) := Cut(times, n);
            && Contiguous(spans, times[0])
            && (forall k :: 0 <= k < |spans| ==> spans[k].end - spans[k].start >= FLUSH_INTERVAL_MS && spans[k].end in times[..n])
            && acc == Accumulator(EndOf(spans, times[0], |spans|), times[n - 1])
            && acc.last - acc.first < FLUSH_INTERVAL_MS
  {
    if n > 1 {
      CutIsTiling(times, n - 1);
      OneMoreSpan(Cut(times, n - 1).0, times[0], times[n - 1]);
      assert times[..n] == times[..n - 1] + [times[n - 1]];
    }
  }

  /** An arrival ends a chunk exactly when it is 5 s or more after the end of the last chunk, or after the first arrival. */
  lemma FlushIff(times: seq<int>, n: nat)
    requires 0 < n < |times|
    ensures var before, after := Cut(times, n).0, Cut(times, n + 1).0;
            var start := EndOf(before, times[0], |before|);
            after == if times[n] - start >= 5000 then before + [Span(start, times[n])] else before
  {
    CutIsTiling(times, n);
  }

  predicate Nondecreasing(times: seq<int>) {
    forall i, j :: 0 <= i <= j < |times| ==> times[i] <= times[j]
  }

  /** Nothing is flushed twice or ahead of time, when the arrivals are in order. */
  lemma {:induction false} FlushedUpToNow(times: seq<int>, n: nat)
    requires 0 < n <= |times| && Nondecreasing(times)
    ensures times[0] <= EndOf(Cut(times, n).0, times[0], |Cut(times, n).0|) <= times[n - 1]
  {
    CutIsTiling(times, n);
    if n > 1 {
      FlushedUpToNow(times, n - 1);
      CutIsTiling(times, n - 1);
    }
  }

  predicate Within(span: Span, x: int) {
    span.start <= x < span.end
  }

  predicate NotBackwards(spans: seq<Span>) {
    forall k :: 0 <= k < |spans| ==> spans[k].start <= spans[k].end
  }

  lemma {:induction false} EndsAscend(spans: seq<Span>, from: int, j: nat, k: nat)
    requires Contiguous(spans, from) && NotBackwards(spans) && j <= k < |spans|
    ensures from <= spans[j].start && spans[j].end <= spans[k].end && (j < k ==> spans[j].end <= spans[k].start)
    decreases k
  {
    assert spans[k].start == EndOf(spans, from, k);
    if j < k {
      EndsAscend(spans, from, j, k - 1);
    } else if k > 0 {
      EndsAscend(spans, from, k - 1, k - 1);
    }
  }

  /** The first of the first `n` spans that ends after `x`. */
  lemma {:induction false} SpanOf(spans: seq<Span>, from: int, x: int, n: nat) returns (k: nat)
    requires Contiguous(spans, from) && from <= x && 0 < n <= |spans| && x < spans[n - 1].end
    ensures k < n && Within(spans[k], x)
  {
    if n == 1 || spans[n - 2].end <= x {
      k := n - 1;
      assert spans[k].start == EndOf(spans, from, k);
    } else {
      k := SpanOf(spans, from, x, n - 1);
    }
  }

  /** Contiguous spans cover exactly the time from the start to the last end, and cover it once. */
  lemma TilesOnce(spans: seq<Span>, from: int, x: int)
    requires Contiguous(spans, from) && NotBackwards(spans)
    ensures (exists k :: 0 <= k < |spans| && Within(spans[k], x)) <==> from <= x < EndOf(spans, from, |spans|)
    ensures forall j, k :: 0 <= j < |spans| && 0 <= k < |spans| && Within(spans[j], x) && Within(spans[k], x) ==> j == k
  {
    if from <= x < EndOf(spans, from, |spans|) {
      var k := SpanOf(spans, from, x, |spans|);
    }
    forall j, k | 0 <= j < k < |spans| ensures !(Within(spans[j], x) && Within(spans[k], x)) {
      EndsAscend(spans, from, j, k);
    }
    forall k | 0 <= k < |spans| && Within(spans[k], x) ensures from <= x < EndOf(spans, from, |spans|) {
      EndsAscend(spans, from, k, |spans| - 1);
    }
  }

  /** For every speaker: a moment is in exactly one chunk if it is between the first arrival and the last flush, else in none. */
  lemma CutTilesOnce(times: seq<int>, n: nat, x: int)
    requires 0 < n <= |times|
    ensures var spans := Cut(times, n).0;
            && ((exists k :: 0 <= k < |spans| && Within(spans[k], x)) <==> times[0] <= x < EndOf(spans, times[0], |spans|))
            && (forall j, k :: 0 <= j < |spans| && 0 <= k < |spans| && Within(spans[j], x) && Within(spans[k], x) ==> j == k)
  {
    CutIsTiling(times, n);
    TilesOnce(Cut(times, n).0, times[0], x);
  }

  // ---------- all speakers of a connection ----------

  /** The accumulators of a connection, and the chunks it has persisted. */
  datatype State = State(accumulators: map<string, Accumulator>, log: seq<Chunk>)

  function Step(s: State, m: Message): State {
    if m.Malformed? || m.speaker == "" then s
    else
      var first := if m.speaker in s.accumulators then s.accumulators[m.speaker].first else m.t;
      if m.t - first < FLUSH_INTERVAL_MS then s.(accumulators := s.accumulators[m.speaker := Accumulator(first, m.t)])
      else State(s.accumulators[m.speaker := Accumulator(m.t, m.t)], s.log + [Chunk(m.speaker, Span(first, m.t))])
  }

  function Run(messages: seq<Message>, n: nat): State
    requires n <= |messages|
  {
    if n == 0 then State(map[], []) else Step(Run(messages, n - 1), messages[n - 1])
  }

  class Connection {
    var accumulators: map<string, Accumulator>
    var log: seq<Chunk>

    constructor ()
      ensures accumulators == map[] && log == []
    {
      accumulators, log := map[], [];
    }

    method HandleAudioChunk(m: Message)
      modifies this
      ensures State(accumulators, log) == Step(old(State(accumulators, log)), m)
    {
      if m.Malformed? {
        return;
      }
      if m.speaker == "" {
        return;
      }
      var acc := Accumulator(m.t, m.t);
      if m.speaker in accumulators {
        acc := accumulators[m.speaker];
      }
      acc := acc.(last := m.t);
      accumulators := accumulators[m.speaker := acc];
      if acc.last - acc.first < FLUSH_INTERVAL_MS {
        return;
      }
      var chunk := Chunk(m.speaker, Span(acc.first, acc.last));
      accumulators := accumulators[m.speaker := acc.(first := m.t)];
      log := log + [chunk];
    }
  }

  /** When the speaker's audio arrived, among the first `n` messages. */
  function Arrivals(messages: seq<Message>, speaker: string, n: nat): seq<int>
    requires n <= |messages|
  {
    if n == 0 then []
    else if messages[n - 1].Audio? && messages[n - 1].speaker == speaker
    then Arrivals(messages, speaker, n - 1) + [messages[n - 1].t]
    else Arrivals(messages, speaker, n - 1)
  }

  function SpansOf(log: seq<Chunk>, speaker: string, n: nat): seq<Span>
    requires n <= |log|
  {
    if n == 0 then []
    else if log[n - 1].speaker == speaker then SpansOf(log, speaker, n - 1) + [log[n - 1].span]
    else SpansOf(log, speaker, n - 1)
  }

  lemma {:induction false} SpansAppend(log: seq<Chunk>, chunk: Chunk, speaker: string, n: nat)
    requires n <= |log|
    ensures SpansOf(log + [chunk], speaker, n) == SpansOf(log, speaker, n)
  {
    if n > 0 {
      SpansAppend(log, chunk, speaker, n - 1);
    }
  }

  lemma {:induction false} CutAppend(times: seq<int>, t: int, n: nat)
    requires 0 < n <= |times|
    ensures Cut(times + [t], n) == Cut(times, n)
  {
    if n > 1 {
      CutAppend(times, t, n - 1);
    }
  }

  /** The spans persisted for a speaker and the accumulator kept for it are those cut from its arrivals. */
  ghost predicate AgreesWith(s: State, speaker: string, times: seq<int>) {
    if times == [] then speaker !in s.accumulators && SpansOf(s.log, speaker, |s.log|) == []
    else speaker in s.accumulators && (SpansOf(s.log, speaker, |s.log|), s.accumulators[speaker]) == Cut(times, |times|)
  }

  lemma StepOther(s: State, m: Message, speaker: string, times: seq<int>)
    requires AgreesWith(s, speaker, times) && (m.Malformed? || m.speaker != speaker)
    ensures AgreesWith(Step(s, m), speaker, times)
  {
    if m.Audio? {
      var next := Step(s, m);
      if next.log != s.log {
        SpansAppend(s.log, next.log[|s.log|], speaker, |s.log|);
      }
    }
  }

  lemma StepOwn(s: State, m: Message, times: seq<int>)
    requires m.Audio? && m.speaker != "" && AgreesWith(s, m.speaker, times)
    ensures AgreesWith(Step(s, m), m.speaker, times + [m.t])
  {
    var next, longer := Step(s, m), times + [m.t];
    if times != [] {
      CutAppend(times, m.t, |times|);
    }
    if next.log != s.log {
      SpansAppend(s.log, next.log[|s.log|], m.speaker, |s.log|);
    }
    assert longer[|longer| - 1] == m.t;
  }

  /**
   However the speakers interleave, what is persisted for one of them depends on its own arrivals
   alone, and is their tiling; for the empty speaker nothing is.
   */
  lemma {:induction false} SpeakersAreIndependent(messages: seq<Message>, speaker: string, n: nat)
    requires n <= |messages|
    ensures AgreesWith(Run(messages, n), speaker, if speaker == "" then [] else Arrivals(messages, speaker, n))
  {
    hide AgreesWith, Step;
    if n == 0 {
      NothingYet(speaker);
    } else {
      SpeakersAreIndependent(messages, speaker, n - 1);
      var before, m := Run(messages, n - 1), messages[n - 1];
      var times := if speaker == "" then [] else Arrivals(messages, speaker, n - 1);
      if m.Malformed? || m.speaker != speaker {
        StepOther(before, m, speaker, times);
      } else if speaker == "" {
        StepIgnored(before, m);
      } else {
        StepOwn(before, m, times);
      }
    }
  }

  lemma NothingYet(speaker: string)
    ensures AgreesWith(State(map[], []), speaker, [])
  {
  }

  lemma StepIgnored(s: State, m: Message)
    requires m.Audio? && m.speaker == ""
    ensures Step(s, m) == s
  {
  }

  // ---------- recognition results ----------

  /** One chunk per result, from the previous result, or from the start of the stream, to now. */
  method ConsumeSTTResults(startedAt: int, arrivals: seq<int>) returns (spans: seq<Span>)
    ensures |spans| == |arrivals| && Contiguous(spans, startedAt)
    ensures forall k :: 0 <= k < |arrivals| ==> spans[k].end == arrivals[k]
  {
    var since := startedAt;
    spans := [];
    for i := 0 to |arrivals|
      invariant |spans| == i && since == EndOf(spans, startedAt, i) && Contiguous(spans, startedAt)
      invariant forall k :: 0 <= k < i ==> spans[k].end == arrivals[k]
    {
      var now := arrivals[i];
      OneMoreSpan(spans, startedAt, now);
      spans := spans + [Span(since, now)];
      since := now;
    }
  }

  lemma ResultsInOrder(startedAt: int, arrivals: seq<int>, spans: seq<Span>)
    requires |spans| == |arrivals| && Contiguous(spans, startedAt)
    requires forall k :: 0 <= k < |arrivals| ==> spans[k].end == arrivals[k]
    requires Nondecreasing([startedAt] + arrivals)
    ensures NotBackwards(spans)
  {
    var clock := [startedAt] + arrivals;
    forall k | 0 <= k < |spans| ensures spans[k].start <= spans[k].end {
      assert clock[k] <= clock[k + 1];
      assert spans[k].start == EndOf(spans, startedAt, k) == clock[k];
    }
  }

  /** With a clock that does not go back, the results' chunks cover the time from the stream's start to the last result, once. */
  lemma ResultsTileOnce(startedAt: int, arrivals: seq<int>, spans: seq<Span>, x: int)
    requires |spans| == |arrivals| && Contiguous(spans, startedAt)
    requires forall k :: 0 <= k < |arrivals| ==> spans[k].end == arrivals[k]
    requires Nondecreasing([startedAt] + arrivals)
    ensures (exists k :: 0 <= k < |spans| && Within(spans[k], x)) <==> arrivals != [] && startedAt <= x < arrivals[|arrivals| - 1]
    ensures forall j, k :: 0 <= j < |spans| && 0 <= k < |spans| && Within(spans[j], x) && Within(spans[k], x) ==> j == k
  {
    ResultsInOrder(startedAt, arrivals, spans);
    TilesOnce(spans, startedAt, x);
  }
}
