/**
 The recent-history keys of the Redis client, and when reading a trimmed key gives what
 reading the whole history would.
 */
module RedisCache {
  import opened SortedSets

  const MOOD_WAVE_RECENT_TRIM_MS: int := 600000
  const TRANSCRIPT_RECENT_MS: int := 40000
  const FEEDBACK_RECENT_MAX_COUNT: nat := 10
  const MAX_RECENT_FEEDBACK_COUNT: nat := 3
  const WINDOW_MS: int := 30000
  const PERIODIC_WINDOW_MS: int := 300000

  /** One store: the entry added, and the score up to which entries are trimmed afterwards. */
  datatype Store = Store(entry: Entry, cutoff: int)

  /** A mood wave sample trims by its own time. */
  function MoodStore(entry: Entry): Store {
    Store(entry, entry.score - MOOD_WAVE_RECENT_TRIM_MS)
  }

  /** A transcript chunk is scored by its start and trims by its end. */
  function TranscriptStore(entry: Entry, endMs: int): Store {
    Store(entry, endMs - TRANSCRIPT_RECENT_MS)
  }

  function Stored(z: seq<Entry>, s: Store): seq<Entry> {
    Trimmed(Added(z, s.entry), s.cutoff)
  }

  /** The key after the first `n` stores. */
  function Cache(history: seq<Store>, n: nat): seq<Entry>
    requires n <= |history|
  {
    if n == 0 then [] else Stored(Cache(history, n - 1), history[n - 1])
  }

  /** The key had nothing ever been trimmed. */
  function Everything(history: seq<Store>, n: nat): seq<Entry>
    requires n <= |history|
  {
    if n == 0 then [] else Added(Everything(history, n - 1), history[n - 1].entry)
  }

  /** The methods of the client, each one pipeline on its key. */
  class Client {
    const moodWave: SortedSet
    const transcript: SortedSet
    const feedback: SortedSet

    constructor ()
      ensures fresh(moodWave) && fresh(transcript) && fresh(feedback)
      ensures moodWave.entries == transcript.entries == feedback.entries == []
      ensures moodWave != transcript && moodWave != feedback && transcript != feedback
    {
      moodWave := new SortedSet();
      transcript := new SortedSet();
      feedback := new SortedSet();
    }

    method StoreRecentMoodWaveSample(sample: Entry)
      modifies moodWave
      ensures moodWave.entries == Stored(old(moodWave.entries), MoodStore(sample))
    {
      moodWave.ZAdd(sample);
      moodWave.ZRemRangeByScore(sample.score - MOOD_WAVE_RECENT_TRIM_MS);
    }

    method GetRecentMoodWaveSamples(since: int) returns (found: seq<Entry>)
      ensures found == From(moodWave.entries, since)
    {
      found := moodWave.ZRangeByScore(since);
    }

    method StoreRecentTranscript(chunk: Entry, endMs: int)
      modifies transcript
      ensures transcript.entries == Stored(old(transcript.entries), TranscriptStore(chunk, endMs))
    {
      transcript.ZAdd(chunk);
      transcript.ZRemRangeByScore(endMs - TRANSCRIPT_RECENT_MS);
    }

    method GetTranscriptWindow(since: int) returns (found: seq<Entry>)
      ensures found == From(transcript.entries, since)
    {
      found := transcript.ZRangeByScore(since);
    }

    method StoreRecentFeedback(event: Entry)
      modifies feedback
      ensures feedback.entries == Top(Added(old(feedback.entries), event), FEEDBACK_RECENT_MAX_COUNT)
    {
      feedback.ZAdd(event);
      feedback.ZRemRangeByRank(FEEDBACK_RECENT_MAX_COUNT);
    }

    method GetRecentFeedbackEvents(count: nat) returns (found: seq<Entry>)
      ensures found == Reversed(Top(feedback.entries, count))
    {
      found := feedback.ZRevRange(count);
    }
  }

  // ---------- what trimming keeps ----------

  /** The `k`-th store is not undone by its own trim or a later one among the first `n`. */
  ghost predicate Survives(history: seq<Store>, n: nat, k: nat)
    requires n <= |history| && k < n
  {
    forall j :: k <= j < n ==> history[j].cutoff < history[k].entry.score
  }

  ghost predicate Kept(history: seq<Store>, n: nat, e: Entry)
    requires n <= |history|
  {
    exists k: nat :: k < n && history[k].entry == e && Survives(history, n, k)
  }

  ghost predicate WasStored(history: seq<Store>, n: nat, e: Entry)
    requires n <= |history|
  {
    exists k :: 0 <= k < n && history[k].entry == e
  }

  /** What is stored encodes its own time, so a member is never stored under two scores. */
  ghost predicate ScoresFixed(history: seq<Store>) {
    forall i, j :: 0 <= i < |history| && 0 <= j < |history| && history[i].entry.member == history[j].entry.member ==>
      history[i].entry == history[j].entry
  }

  lemma {:induction false} EverythingHolds(history: seq<Store>, n: nat)
    requires n <= |history| && ScoresFixed(history)
    ensures Sorted(Everything(history, n))
    ensures forall e :: e in Everything(history, n) <==> WasStored(history, n, e)
  {
    hide Added, Sorted;
    if n == 0 {
      EmptySorted();
    } else {
      EverythingHolds(history, n - 1);
      var last := history[n - 1].entry;
      AddedSorted(Everything(history, n - 1), last);
      forall e ensures WasStored(history, n, e) <==> e in Everything(history, n) {
        StoredStep(history, n, e);
        if WasStored(history, n - 1, e) {
          StoredAgrees(history, n - 1, e, last);
        }
      }
    }
  }

  lemma EmptySorted()
    ensures Sorted([])
  {
  }

  lemma StoredAgrees(history: seq<Store>, n: nat, e: Entry, last: Entry)
    requires n < |history| && ScoresFixed(history) && history[n].entry == last && WasStored(history, n, e)
    ensures e.member == last.member ==> e == last
  {
  }

  lemma StoredStep(history: seq<Store>, n: nat, e: Entry)
    requires 0 < n <= |history|
    ensures WasStored(history, n, e) <==> WasStored(history, n - 1, e) || e == history[n - 1].entry
  {
    if e == history[n - 1].entry {
      assert WasStored(history, n, e);
    }
    if WasStored(history, n - 1, e) {
      var k :| 0 <= k < n - 1 && history[k].entry == e;
      assert k < n;
    }
  }

  lemma KeptStep(history: seq<Store>, n: nat, e: Entry)
    requires 0 < n <= |history|
    ensures Kept(history, n, e) <==>
            (Kept(history, n - 1, e) || e == history[n - 1].entry) && history[n - 1].cutoff < e.score
  {
    if Kept(history, n, e) {
      var k: nat :| k < n && history[k].entry == e && Survives(history, n, k);
      assert history[n - 1].cutoff < history[k].entry.score;
      if k < n - 1 {
        assert Survives(history, n - 1, k);
      }
    }
    if history[n - 1].cutoff < e.score {
      if e == history[n - 1].entry {
        assert Survives(history, n, n - 1);
      } else if Kept(history, n - 1, e) {
        var k: nat :| k < n - 1 && history[k].entry == e && Survives(history, n - 1, k);
        assert Survives(history, n, k);
      }
    }
  }

  /** The key is sorted, and holds each member once, whatever is stored. */
  lemma {:induction false} CacheSorted(history: seq<Store>, n: nat)
    requires n <= |history|
    ensures Sorted(Cache(history, n)) && OneScoreEach(Cache(history, n))
  {
    hide Added, Trimmed, Sorted;
    if n == 0 {
      EmptySorted();
    } else {
      CacheSorted(history, n - 1);
      var z, s := Cache(history, n - 1), history[n - 1];
      AddedSorted(z, s.entry);
      AddedOnce(z, s.entry);
      TrimmedSorted(Added(z, s.entry), s.cutoff);
    }
  }

  lemma KeptWasStored(history: seq<Store>, n: nat, e: Entry)
    requires n <= |history| && Kept(history, n, e)
    ensures WasStored(history, n, e)
  {
  }

  /** The key holds exactly the entries that survive every trim since they were last stored. */
  lemma {:induction false} CacheHolds(history: seq<Store>, n: nat)
    requires n <= |history| && ScoresFixed(history)
    ensures Sorted(Cache(history, n))
    ensures forall e :: e in Cache(history, n) <==> Kept(history, n, e)
  {
    hide Added, Trimmed, Sorted, Kept;
    CacheSorted(history, n);
    if n == 0 {
      NothingKept(history);
    } else {
      CacheHolds(history, n - 1);
      var z, s := Cache(history, n - 1), history[n - 1];
      AddedSorted(z, s.entry);
      TrimmedSorted(Added(z, s.entry), s.cutoff);
      forall e ensures Kept(history, n, e) <==> e in Cache(history, n) {
        KeptStep(history, n, e);
        if Kept(history, n - 1, e) {
          KeptWasStored(history, n - 1, e);
          StoredAgrees(history, n - 1, e, s.entry);
        }
      }
    }
  }

  lemma NothingKept(history: seq<Store>)
    ensures forall e :: !Kept(history, 0, e)
  {
  }

  /** Everything stored from `since` on is still there. */
  ghost predicate NothingLost(history: seq<Store>, since: int) {
    forall k: nat :: k < |history| && history[k].entry.score >= since ==>
      Kept(history, |history|, history[k].entry)
  }

  ghost predicate ReadsAll(history: seq<Store>, since: int) {
    From(Cache(history, |history|), since) == From(Everything(history, |history|), since)
  }

  /** A range read gives what the whole history would, if and only if no entry of the range was trimmed. */
  lemma ReadsAllIff(history: seq<Store>, since: int)
    requires ScoresFixed(history)
    ensures ReadsAll(history, since) <==> NothingLost(history, since)
  {
    var n := |history|;
    var cache, all := Cache(history, n), Everything(history, n);
    CacheHolds(history, n);
    EverythingHolds(history, n);
    FromSorted(cache, since);
    FromSorted(all, since);
    if ReadsAll(history, since) {
      forall k: nat | k < n && history[k].entry.score >= since
        ensures Kept(history, n, history[k].entry)
      {
        assert WasStored(history, n, history[k].entry);
        assert history[k].entry in From(all, since);
      }
    }
    if NothingLost(history, since) {
      forall e ensures e in From(cache, since) <==> e in From(all, since) {
        if Kept(history, n, e) {
          assert WasStored(history, n, e);
        }
        if e.score >= since && WasStored(history, n, e) {
          var k :| 0 <= k < n && history[k].entry == e;
          assert Kept(history, n, history[k].entry);
        }
      }
      SortedUnique(From(cache, since), From(all, since));
    }
  }

  // ---------- mood waves ----------

  ghost predicate MoodRun(history: seq<Store>) {
    && ScoresFixed(history)
    && (forall k :: 0 <= k < |history| ==> history[k] == MoodStore(history[k].entry))
    && (forall i, j :: 0 <= i < j < |history| ==> history[i].entry.score <= history[j].entry.score)
  }

  lemma MoodKeptIff(history: seq<Store>, k: nat)
    requires MoodRun(history) && k < |history|
    ensures Kept(history, |history|, history[k].entry) <==>
            history[k].entry.score > history[|history| - 1].entry.score - MOOD_WAVE_RECENT_TRIM_MS
  {
    var n := |history|;
    var last := history[n - 1];
    assert last == MoodStore(last.entry);
    if history[k].entry.score > last.cutoff {
      assert Survives(history, n, k) by {
        forall j | k <= j < n ensures history[j].cutoff < history[k].entry.score {
          assert history[j] == MoodStore(history[j].entry);
        }
      }
    }
    if Kept(history, n, history[k].entry) {
      var i: nat :| i < n && history[i].entry == history[k].entry && Survives(history, n, i);
      assert history[n - 1].cutoff < history[i].entry.score;
    }
  }

  /**
   Under nondecreasing times, a read reaches back the whole history if and only if nothing was
   stored in its range ten minutes or more before the latest sample.
   */
  lemma MoodReadsAllIff(history: seq<Store>, since: int)
    requires MoodRun(history) && history != []
    ensures var last := history[|history| - 1].entry.score;
            ReadsAll(history, since) <==>
            forall k :: 0 <= k < |history| && history[k].entry.score >= since ==>
              history[k].entry.score > last - MOOD_WAVE_RECENT_TRIM_MS
  {
    ReadsAllIff(history, since);
    forall k: nat | k < |history|
      ensures Kept(history, |history|, history[k].entry) <==>
              history[k].entry.score > history[|history| - 1].entry.score - MOOD_WAVE_RECENT_TRIM_MS
    {
      MoodKeptIff(history, k);
    }
  }

  /** The trigger window (30 s) and the periodic window (300 s) of the latest sample lose nothing. */
  lemma MoodWindowsLoseNothing(history: seq<Store>)
    requires MoodRun(history) && history != []
    ensures var last := history[|history| - 1].entry.score;
            ReadsAll(history, last - WINDOW_MS) && ReadsAll(history, last - PERIODIC_WINDOW_MS)
  {
    hide ReadsAll;
    var last := history[|history| - 1].entry.score;
    MoodReadsAllIff(history, last - WINDOW_MS);
    MoodReadsAllIff(history, last - PERIODIC_WINDOW_MS);
  }

  /** The periodic window still loses nothing when samples up to five minutes newer have arrived since its latest one. */
  lemma PeriodicWindowToleratesLag(history: seq<Store>, latest: int)
    requires MoodRun(history) && history != []
    requires history[|history| - 1].entry.score < latest + MOOD_WAVE_RECENT_TRIM_MS - PERIODIC_WINDOW_MS
    ensures ReadsAll(history, latest - PERIODIC_WINDOW_MS)
  {
    MoodReadsAllIff(history, latest - PERIODIC_WINDOW_MS);
  }

  // ---------- transcripts ----------

  /** `ends[k]` is the end of the chunk stored by `history[k]`, which starts at its score. */
  ghost predicate TranscriptRun(history: seq<Store>, ends: seq<int>) {
    && ScoresFixed(history)
    && |ends| == |history| && forall k :: 0 <= k < |history| ==> history[k] == TranscriptStore(history[k].entry, ends[k])
  }

  /** The 30 s transcript window loses nothing while every chunk end is less than 10 s past the trigger. */
  lemma TranscriptWindowLosesNothing(history: seq<Store>, ends: seq<int>, trigger: int)
    requires TranscriptRun(history, ends)
    requires forall k :: 0 <= k < |ends| ==> ends[k] < trigger + TRANSCRIPT_RECENT_MS - WINDOW_MS
    ensures ReadsAll(history, trigger - WINDOW_MS)
  {
    ReadsAllIff(history, trigger - WINDOW_MS);
    forall k: nat | k < |history| && history[k].entry.score >= trigger - WINDOW_MS
      ensures Kept(history, |history|, history[k].entry)
    {
      assert Survives(history, |history|, k) by {
        forall j | k <= j < |history| ensures history[j].cutoff < history[k].entry.score {
          assert history[j] == TranscriptStore(history[j].entry, ends[j]);
        }
      }
    }
  }

  /**
   Over distinct chunks, a transcript read of any reach gives the whole history if and only if
   no chunk of its range is followed, or is itself, 40 s or more past its start at its end.
   The periodic check reads 300 s back from a key trimmed to 40 s.
   */
  lemma TranscriptReadsAllIff(history: seq<Store>, ends: seq<int>, since: int)
    requires TranscriptRun(history, ends)
    requires forall i, j :: 0 <= i < j < |history| ==> history[i].entry != history[j].entry
    ensures ReadsAll(history, since) <==>
            forall k, j :: 0 <= k <= j < |history| && history[k].entry.score >= since ==>
              ends[j] - history[k].entry.score < TRANSCRIPT_RECENT_MS
  {
    ReadsAllIff(history, since);
    var n := |history|;
    if ReadsAll(history, since) {
      forall k, j | 0 <= k <= j < n && history[k].entry.score >= since
        ensures ends[j] - history[k].entry.score < TRANSCRIPT_RECENT_MS
      {
        assert Kept(history, n, history[k].entry);
        var i: nat :| i < n && history[i].entry == history[k].entry && Survives(history, n, i);
        assert i == k;
        assert history[j].cutoff < history[k].entry.score;
        assert history[j] == TranscriptStore(history[j].entry, ends[j]);
      }
    }
    if forall k, j :: 0 <= k <= j < n && history[k].entry.score >= since ==>
         ends[j] - history[k].entry.score < TRANSCRIPT_RECENT_MS {
      forall k: nat | k < n && history[k].entry.score >= since ensures Kept(history, n, history[k].entry) {
        assert Survives(history, n, k) by {
          forall j | k <= j < n ensures history[j].cutoff < history[k].entry.score {
            assert history[j] == TranscriptStore(history[j].entry, ends[j]);
          }
        }
      }
    }
  }

  /** Two 5 s chunks that start 40 s apart: the periodic check at the end of the second reads only the second. */
  lemma PeriodicTranscriptLoses(first: string, second: string)
    requires first != second
    ensures var history := [TranscriptStore(Entry(0, first), 5000), TranscriptStore(Entry(40000, second), 45000)];
            TranscriptRun(history, [5000, 45000]) && !ReadsAll(history, 45000 - PERIODIC_WINDOW_MS)
  {
    var history := [TranscriptStore(Entry(0, first), 5000), TranscriptStore(Entry(40000, second), 45000)];
    var ends := [5000, 45000];
    TranscriptReadsAllIff(history, ends, 45000 - PERIODIC_WINDOW_MS);
    assert ends[1] - history[0].entry.score >= TRANSCRIPT_RECENT_MS;
  }

  /** A chunk of 40 s or more, as after a long silence, is trimmed by its own store: no read ever returns it. */
  lemma LongChunkIsNeverRead(history: seq<Store>, chunk: Entry, endMs: int)
    requires endMs - chunk.score >= TRANSCRIPT_RECENT_MS
    ensures chunk !in Cache(history + [TranscriptStore(chunk, endMs)], |history| + 1)
  {
    var h := history + [TranscriptStore(chunk, endMs)];
    var z := Cache(h, |history|);
    CacheSorted(h, |history|);
    AddedSorted(z, chunk);
    TrimmedSorted(Added(z, chunk), endMs - TRANSCRIPT_RECENT_MS);
  }

  // ---------- recent feedback ----------

  /** The feedback key after the first `n` events, trimmed to `keep` entries after each. */
  function RecentFeedback(events: seq<Entry>, n: nat, keep: nat): seq<Entry>
    requires n <= |events|
  {
    if n == 0 then [] else Top(Added(RecentFeedback(events, n - 1, keep), events[n - 1]), keep)
  }

  function AllFeedback(events: seq<Entry>, n: nat): seq<Entry>
    requires n <= |events|
  {
    if n == 0 then [] else Added(AllFeedback(events, n - 1), events[n - 1])
  }

  /** An event encodes its own time. */
  ghost predicate EventScoresFixed(events: seq<Entry>) {
    forall x, y :: x in events && y in events && x.member == y.member ==> x == y
  }

  lemma {:induction false} AllFeedbackSorted(events: seq<Entry>, n: nat)
    requires n <= |events| && EventScoresFixed(events)
    ensures Sorted(AllFeedback(events, n))
    ensures forall e :: e in AllFeedback(events, n) <==> e in events[..n]
  {
    hide Added, Sorted;
    if n == 0 {
      EmptySorted();
    } else {
      AllFeedbackSorted(events, n - 1);
      AddedSorted(AllFeedback(events, n - 1), events[n - 1]);
      assert events[..n] == events[..n - 1] + [events[n - 1]];
    }
  }

  /** `recent` is what trimming leaves of `all`. */
  ghost predicate IsTop(recent: seq<Entry>, all: seq<Entry>, keep: nat) {
    Sorted(all) && recent == Top(all, keep)
  }

  lemma TopIsPart(z: seq<Entry>, count: nat)
    requires Sorted(z)
    ensures Sorted(Top(z, count)) && forall x :: x in Top(z, count) ==> x in z
  {
    hide Less;
  }

  lemma IsTopStep(recent: seq<Entry>, all: seq<Entry>, e: Entry, keep: nat)
    requires IsTop(recent, all, keep) && Agrees(all, e)
    ensures IsTop(Top(Added(recent, e), keep), Added(all, e), keep)
  {
    hide Top, Inserted, Added, Sorted;
    TopIsPart(all, keep);
    AddedIsInserted(all, e);
    AddedIsInserted(recent, e);
    AddedSorted(all, e);
    TopInserted(all, e, keep);
  }

  lemma NothingIsTop(keep: nat)
    ensures IsTop([], [], keep)
  {
  }

  lemma {:induction false} RecentIsTop(events: seq<Entry>, n: nat, keep: nat)
    requires n <= |events| && EventScoresFixed(events)
    ensures IsTop(RecentFeedback(events, n, keep), AllFeedback(events, n), keep)
  {
    hide IsTop, Top, Added;
    if n == 0 {
      NothingIsTop(keep);
    } else {
      RecentIsTop(events, n - 1, keep);
      AllFeedbackSorted(events, n - 1);
      IsTopStep(RecentFeedback(events, n - 1, keep), AllFeedback(events, n - 1), events[n - 1], keep);
    }
  }

  lemma TopOfTop(z: seq<Entry>, few: nat, many: nat)
    requires few <= many
    ensures Top(Top(z, many), few) == Top(z, few)
  {
  }

  /**
   After any run of stores, in any order and with repeats, reading the newest three from the
   key trimmed to ten gives the three greatest of all distinct feedback events ever stored.
   */
  lemma NewestFeedbackIsExact(events: seq<Entry>, count: nat)
    requires count <= FEEDBACK_RECENT_MAX_COUNT && EventScoresFixed(events)
    ensures var all := AllFeedback(events, |events|);
            && Reversed(Top(RecentFeedback(events, |events|, FEEDBACK_RECENT_MAX_COUNT), count)) == Reversed(Top(all, count))
            && Sorted(all) && (forall e :: e in all <==> e in events)
  {
    RecentIsTop(events, |events|, FEEDBACK_RECENT_MAX_COUNT);
    AllFeedbackSorted(events, |events|);
    TopOfTop(AllFeedback(events, |events|), count, FEEDBACK_RECENT_MAX_COUNT);
    assert events[..|events|] == events;
  }
}
