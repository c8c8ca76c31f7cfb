/** What the face tracker keeps, over every run of frames, stops and restarts. */
module TrackerRuns {
  import opened Nods
  import opened Tracker

  // ---------- one face ----------

  ghost predicate DistinctIds(tracks: seq<Track>) {
    forall i, j :: 0 <= i < j < |tracks| ==> tracks[i].id != tracks[j].id
  }

  ghost predicate IdsBelow(tracks: seq<Track>, nextId: nat) {
    forall i :: 0 <= i < |tracks| ==> tracks[i].id < nextId
  }

  predicate Near(face: Face, track: Track) {
    Distance2(face, track.bbox) < MATCH_DISTANCE * MATCH_DISTANCE
  }

  lemma MatchIsNearest(face: Face, tracks: seq<Track>, candidates: set<nat>)
    ensures var m := Match(face, tracks, candidates);
            && (m >= 0 ==> tracks[m].id in candidates && Near(face, tracks[m]))
            && (forall i :: 0 <= i < |tracks| && tracks[i].id in candidates ==>
                  if m >= 0 then Distance2(face, tracks[m].bbox) <= Distance2(face, tracks[i].bbox) else !Near(face, tracks[i]))
  {
    hide Distance2;
  }

  /** A face replaces the track it matches, or appends a new one. */
  lemma AssignShape(p: Pass, face: Face, now: int)
    requires DistinctIds(p.tracks) && IdsBelow(p.tracks, p.nextId)
    ensures var m, q := Match(face, p.tracks, p.unmatched), AssignOne(p, face, now);
            q.tracks == if m >= 0 then p.tracks[m := Track(p.tracks[m].id, face, now)] else p.tracks + [Track(p.nextId, face, now)]
  {
    hide Match;
    var m := Match(face, p.tracks, p.unmatched);
    var k := IndexOf(p.tracks, if m >= 0 then p.tracks[m].id else p.nextId, 0);
    if m >= 0 {
      assert k == m;
    } else {
      assert k == -1;
    }
  }

  // ---------- one frame ----------

  /** The track at `i` has been given to none of the first `k` faces. */
  ghost predicate Free(tracks: seq<Track>, out: seq<Tracked>, k: nat, i: int) {
    0 <= i < |tracks| && k <= |out| && forall j :: 0 <= j < k ==> out[j].id != tracks[i].id
  }

  ghost predicate TracksInv(s: State, p: Pass) {
    && DistinctIds(p.tracks) && IdsBelow(p.tracks, p.nextId) && s.nextId <= p.nextId
    && |s.tracks| <= |p.tracks|
    && (forall i :: 0 <= i < |s.tracks| ==> p.tracks[i].id == s.tracks[i].id)
    && (forall i :: |s.tracks| <= i < |p.tracks| ==> p.tracks[i].id >= s.nextId)
  }

  ghost predicate UnmatchedInv(s: State, p: Pass) {
    && |s.tracks| <= |p.tracks|
    && (forall i :: 0 <= i < |p.tracks| ==> (p.tracks[i].id in p.unmatched <==> i < |s.tracks| && Free(s.tracks, p.out, |p.out|, i)))
    && (forall i :: 0 <= i < |s.tracks| && p.tracks[i].id in p.unmatched ==> p.tracks[i] == s.tracks[i])
  }

  ghost predicate OutInv(s: State, p: Pass, faces: seq<Face>, now: int) {
    && |p.out| <= |faces|
    && (forall k :: 0 <= k < |p.out| ==> p.out[k].face == faces[k] && p.out[k].id < p.nextId && p.out[k].id !in p.unmatched)
    && (forall k :: 0 <= k < |p.out| ==> Track(p.out[k].id, p.out[k].face, now) in p.tracks)
    && (forall j, k :: 0 <= j < k < |p.out| ==> p.out[j].id != p.out[k].id)
  }

  lemma TracksStep(s: State, p: Pass, face: Face, now: int)
    requires TracksInv(s, p)
    ensures TracksInv(s, AssignOne(p, face, now))
  {
    hide Match, Upserted;
    AssignShape(p, face, now);
  }

  lemma UnmatchedStep(s: State, p: Pass, face: Face, now: int)
    requires TracksInv(s, p) && UnmatchedInv(s, p)
    requires DistinctIds(s.tracks) && IdsBelow(s.tracks, s.nextId)
    ensures UnmatchedInv(s, AssignOne(p, face, now))
  {
    hide Match, Upserted;
    AssignShape(p, face, now);
    MatchIsNearest(face, p.tracks, p.unmatched);
    var q, n := AssignOne(p, face, now), |p.out|;
    forall i | 0 <= i < |s.tracks| ensures Free(s.tracks, q.out, n + 1, i) <==> Free(s.tracks, p.out, n, i) && s.tracks[i].id != q.out[n].id {
      assert forall j :: 0 <= j < n ==> q.out[j] == p.out[j];
    }
  }

  lemma OutStep(s: State, p: Pass, faces: seq<Face>, now: int)
    requires TracksInv(s, p) && OutInv(s, p, faces, now) && |p.out| < |faces|
    ensures OutInv(s, AssignOne(p, faces[|p.out|], now), faces, now)
  {
    hide Match, Upserted;
    var face, n := faces[|p.out|], |p.out|;
    AssignShape(p, face, now);
    MatchIsNearest(face, p.tracks, p.unmatched);
    var q := AssignOne(p, face, now);
    forall k | 0 <= k < |q.out| ensures Track(q.out[k].id, q.out[k].face, now) in q.tracks {
      if k < n {
        var i :| 0 <= i < |p.tracks| && p.tracks[i] == Track(p.out[k].id, p.out[k].face, now);
        assert q.tracks[i] == p.tracks[i];
      } else {
        assert q.tracks[if Match(face, p.tracks, p.unmatched) >= 0 then Match(face, p.tracks, p.unmatched) else |p.tracks|] ==
               Track(q.out[n].id, face, now);
      }
    }
  }

  ghost predicate WellFormed(s: State) {
    DistinctIds(s.tracks) && IdsBelow(s.tracks, s.nextId)
  }

  lemma StartInv(s: State, faces: seq<Face>, now: int)
    requires WellFormed(s)
    ensures var p := Pass(s.tracks, Ids(s.tracks), s.nextId, []);
            TracksInv(s, p) && UnmatchedInv(s, p) && OutInv(s, p, faces, now)
  {
  }

  lemma {:induction false} AssignedInv(s: State, faces: seq<Face>, now: int, n: nat)
    requires WellFormed(s) && n <= |faces|
    ensures var p := Assigned(s, faces, now, n);
            |p.out| == n && TracksInv(s, p) && UnmatchedInv(s, p) && OutInv(s, p, faces, now)
  {
    hide AssignOne, TracksInv, UnmatchedInv, OutInv, DistinctIds, IdsBelow;
    if n == 0 {
      StartInv(s, faces, now);
    } else {
      AssignedInv(s, faces, now, n - 1);
      var p := Assigned(s, faces, now, n - 1);
      TracksStep(s, p, faces[n - 1], now);
      UnmatchedStep(s, p, faces[n - 1], now);
      OutStep(s, p, faces, now);
      OneMoreOut(p, faces[n - 1], now);
    }
  }

  lemma OneMoreOut(p: Pass, face: Face, now: int)
    ensures |AssignOne(p, face, now).out| == |p.out| + 1
    ensures forall j :: 0 <= j < |p.out| ==> AssignOne(p, face, now).out[j] == p.out[j]
  {
  }

  lemma {:induction false} OutLength(s: State, faces: seq<Face>, now: int, n: nat)
    requires n <= |faces|
    ensures |Assigned(s, faces, now, n).out| == n
  {
    hide AssignOne;
    if n > 0 {
      OutLength(s, faces, now, n - 1);
      OneMoreOut(Assigned(s, faces, now, n - 1), faces[n - 1], now);
    }
  }

  lemma {:induction false} OutKeeps(s: State, faces: seq<Face>, now: int, j: nat, k: nat, n: nat)
    requires j < k <= n <= |faces|
    ensures |Assigned(s, faces, now, k).out| == k && |Assigned(s, faces, now, n).out| == n
    ensures Assigned(s, faces, now, n).out[j] == Assigned(s, faces, now, k).out[j]
    decreases n
  {
    hide AssignOne;
    OutLength(s, faces, now, n);
    OutLength(s, faces, now, k);
    if k < n {
      OutKeeps(s, faces, now, j, k, n - 1);
      OneMoreOut(Assigned(s, faces, now, n - 1), faces[n - 1], now);
    }
  }

  /** No two faces of a frame get the same id, and each face's track is live and has been moved to it. */
  lemma FacesHaveOwnTracks(s: State, faces: seq<Face>, now: int)
    requires WellFormed(s)
    ensures var out, after := OutOf(s, faces, now), Updated(s, faces, now);
            && |out| == |faces|
            && (forall j, k :: 0 <= j < k < |faces| ==> out[j].id != out[k].id)
            && (forall k :: 0 <= k < |faces| ==> out[k].face == faces[k] && Track(out[k].id, faces[k], now) in after.tracks)
  {
    AssignedInv(s, faces, now, |faces|);
    var p := Assigned(s, faces, now, |faces|);
    forall k | 0 <= k < |faces| ensures Track(p.out[k].id, faces[k], now) in Live(p.tracks, now, |p.tracks|) {
      assert Track(p.out[k].id, p.out[k].face, now) in p.tracks;
      LiveIff(p.tracks, now, |p.tracks|, Track(p.out[k].id, faces[k], now));
    }
  }

  lemma {:induction false} LiveIff(tracks: seq<Track>, now: int, n: nat, t: Track)
    requires n <= |tracks|
    ensures t in Live(tracks, now, n) <==> t in tracks[..n] && now - t.lastSeen < TRACK_TTL_MS
  {
    if n > 0 {
      LiveIff(tracks, now, n - 1, t);
      assert tracks[..n] == tracks[..n - 1] + [tracks[n - 1]];
    }
  }

  /** The face goes to the nearest track that no earlier face has taken, and that is near enough. */
  ghost predicate Reuses(tracks: seq<Track>, face: Face, out: seq<Tracked>, k: nat) {
    k < |out| && exists i :: Free(tracks, out, k, i) && tracks[i].id == out[k].id && IsNearest(tracks, face, out, k, i)
  }

  ghost predicate IsNearest(tracks: seq<Track>, face: Face, out: seq<Tracked>, k: nat, i: int) {
    && 0 <= i < |tracks| && Near(face, tracks[i])
    && forall j :: Free(tracks, out, k, j) ==> Distance2(face, tracks[i].bbox) <= Distance2(face, tracks[j].bbox)
  }

  /** No track that is still free is near enough, and the id has never been in use. */
  ghost predicate StartsNew(s: State, face: Face, out: seq<Tracked>, k: nat) {
    k < |out| && out[k].id >= s.nextId && forall j :: Free(s.tracks, out, k, j) ==> !Near(face, s.tracks[j])
  }

  /**
   An id is reused only for the nearest of the tracks still unmatched, within 0.18; a face that
   has no such track gets an id of its own. Either happens exactly when it should.
   */
  lemma IdsAreNearest(s: State, faces: seq<Face>, now: int, k: nat)
    requires WellFormed(s) && k < |faces|
    ensures var out := OutOf(s, faces, now);
            Reuses(s.tracks, faces[k], out, k) != StartsNew(s, faces[k], out, k)
  {
    hide AssignOne, Near, Distance2, TracksInv, UnmatchedInv;
    var out, p := OutOf(s, faces, now), Assigned(s, faces, now, k);
    AssignedInv(s, faces, now, k);
    NextId(s, p, faces[k], now);
    var next := Assigned(s, faces, now, k + 1).out;
    OutLength(s, faces, now, |faces|);
    OutLength(s, faces, now, k + 1);
    forall j | 0 <= j <= k ensures out[j] == next[j] {
      OutKeeps(s, faces, now, j, k + 1, |faces|);
    }
    SameFree(s.tracks, out, next, k);
    if Reuses(s.tracks, faces[k], next, k) {
      var i :| Free(s.tracks, next, k, i) && s.tracks[i].id == next[k].id && IsNearest(s.tracks, faces[k], next, k, i);
      assert Free(s.tracks, out, k, i);
    }
  }

  lemma SameFree(tracks: seq<Track>, a: seq<Tracked>, b: seq<Tracked>, k: nat)
    requires k <= |a| && k <= |b| && forall j :: 0 <= j < k ==> a[j] == b[j]
    ensures forall i :: Free(tracks, a, k, i) == Free(tracks, b, k, i)
  {
  }

  lemma NextId(s: State, p: Pass, face: Face, now: int)
    requires WellFormed(s) && TracksInv(s, p) && UnmatchedInv(s, p)
    ensures var out := AssignOne(p, face, now).out;
            Reuses(s.tracks, face, out, |p.out|) || StartsNew(s, face, out, |p.out|)
  {
    hide Distance2, Near, Match;
    var out, n := AssignOne(p, face, now).out, |p.out|;
    var m := Match(face, p.tracks, p.unmatched);
    MatchIsNearest(face, p.tracks, p.unmatched);
    SameFree(s.tracks, p.out, out, n);
    forall j | Free(s.tracks, out, n, j) ensures p.tracks[j].id in p.unmatched && p.tracks[j] == s.tracks[j] {
      assert Free(s.tracks, p.out, n, j);
    }
    if m >= 0 {
      assert Free(s.tracks, out, n, m);
    }
  }

  /**
   People keep their ids: when every face is near a track of its own, nearer than to any other,
   each face gets the id of that track, whatever the order of the faces.
   */
  lemma {:induction false} IdsAreKept(s: State, faces: seq<Face>, now: int, home: seq<nat>, n: nat)
    requires WellFormed(s) && |home| == |faces| && n <= |faces|
    requires forall j, k :: 0 <= j < k < |home| ==> home[j] != home[k]
    requires forall k :: 0 <= k < |home| ==> home[k] < |s.tracks| && Near(faces[k], s.tracks[home[k]])
    requires forall k, j :: 0 <= k < |home| && 0 <= j < |s.tracks| && j != home[k] ==>
      Distance2(faces[k], s.tracks[home[k]].bbox) < Distance2(faces[k], s.tracks[j].bbox)
    ensures |OutOf(s, faces, now)| == |faces|
    ensures forall k :: 0 <= k < n ==> OutOf(s, faces, now)[k].id == s.tracks[home[k]].id
  {
    hide OutOf, Distance2, Near;
    FacesHaveOwnTracks(s, faces, now);
    if n > 0 {
      IdsAreKept(s, faces, now, home, n - 1);
      IdsAreNearest(s, faces, now, n - 1);
      var out, k := OutOf(s, faces, now), n - 1;
      forall j | 0 <= j < k ensures out[j].id != s.tracks[home[k]].id {
        assert home[j] != home[k];
      }
      assert Free(s.tracks, out, k, home[k]);
    }
  }

  // ---------- histories ----------

  ghost predicate InOrder(h: seq<Sample>) {
    forall i, j :: 0 <= i < j < |h| ==> h[i].t <= h[j].t
  }

  /** All samples were taken from `first` up to `last`. */
  ghost predicate Taken(h: seq<Sample>, first: int, last: int) {
    forall i :: 0 <= i < |h| ==> first <= h[i].t <= last
  }

  /** Not empty, in order of time, up to `clock`, and over no more than 3500 ms. */
  ghost predicate GoodHistory(h: seq<Sample>, clock: int) {
    h != [] && InOrder(h) && Taken(h, h[0].t, clock) && h[|h| - 1].t - h[0].t <= GESTURE_HISTORY_MS
  }

  lemma {:induction false} RecentIsRecent(h: seq<Sample>, now: int, clock: int, n: nat)
    requires InOrder(h) && n <= |h| && forall i :: 0 <= i < n ==> h[i].t <= clock
    ensures InOrder(Recent(h, now, n)) && Taken(Recent(h, now, n), now - GESTURE_HISTORY_MS, clock)
    ensures Recent(h, now, n) != [] ==> n > 0 && Recent(h, now, n)[|Recent(h, now, n)| - 1].t <= h[n - 1].t
  {
    if n > 0 {
      RecentIsRecent(h, now, clock, n - 1);
    }
  }

  lemma {:induction false} RecentIff(h: seq<Sample>, now: int, n: nat, x: Sample)
    requires n <= |h|
    ensures x in Recent(h, now, n) <==> x in h[..n] && now - x.t <= GESTURE_HISTORY_MS
  {
    if n > 0 {
      RecentIff(h, now, n - 1, x);
      assert h[..n] == h[..n - 1] + [h[n - 1]];
    }
  }

  lemma PrunedHistory(h: seq<Sample>, now: int, clock: int)
    requires GoodHistory(h, clock) && clock <= now
    ensures RecentOf(h, now) != [] ==> GoodHistory(RecentOf(h, now), clock)
    ensures Taken(RecentOf(h, now), now - GESTURE_HISTORY_MS, clock)
  {
    hide Recent;
    RecentIsRecent(h, now, clock, |h|);
  }

  lemma PushedHistory(h: seq<Sample>, pitch: real, now: int, clock: int)
    requires (h == [] || GoodHistory(h, clock)) && clock <= now
    ensures GoodHistory(RecentOf(h + [Sample(now, pitch)], now), now)
  {
    hide Recent;
    var longer := h + [Sample(now, pitch)];
    RecentIsRecent(longer, now, now, |longer|);
    RecentIff(longer, now, |longer|, Sample(now, pitch));
    assert longer[..|longer|] == longer;
    assert longer[|longer| - 1] == Sample(now, pitch);
  }

  /** Every gesture history belongs to a live track and is a good one. */
  ghost predicate HistoriesInv(history: map<nat, seq<Sample>>, ids: set<nat>, clock: int) {
    forall id :: id in history ==> id in ids && GoodHistory(history[id], clock)
  }

  /** After pruning, moreover, no sample is older than 3500 ms. */
  lemma PruneKeepsHistories(history: map<nat, seq<Sample>>, ids: set<nat>, live: set<nat>, clock: int, now: int)
    requires HistoriesInv(history, ids, clock) && clock <= now
    ensures HistoriesInv(Pruned(history, live, now), live, clock)
    ensures forall id :: id in Pruned(history, live, now) ==> Taken(Pruned(history, live, now)[id], now - GESTURE_HISTORY_MS, clock)
  {
    hide RecentOf, GoodHistory, Taken;
    forall id | id in Pruned(history, live, now)
      ensures GoodHistory(RecentOf(history[id], now), clock) && Taken(RecentOf(history[id], now), now - GESTURE_HISTORY_MS, clock)
    {
      PrunedHistory(history[id], now, clock);
    }
  }

  lemma LaterIsGood(h: seq<Sample>, clock: int, later: int)
    requires GoodHistory(h, clock) && clock <= later
    ensures GoodHistory(h, later)
  {
  }

  lemma {:induction false} PushKeepsHistories(history: map<nat, seq<Sample>>, ids: set<nat>, faces: seq<Tracked>, n: nat, clock: int, now: int)
    requires HistoriesInv(history, ids, clock) && clock <= now && n <= |faces|
    requires forall k :: 0 <= k < |faces| ==> faces[k].id in ids
    ensures HistoriesInv(Pushed(history, faces, now, n), ids, now)
  {
    hide RecentOf, GoodHistory;
    if n == 0 {
      forall id | id in history ensures GoodHistory(history[id], now) {
        LaterIsGood(history[id], clock, now);
      }
    } else {
      PushKeepsHistories(history, ids, faces, n - 1, clock, now);
      var before, face := Pushed(history, faces, now, n - 1), faces[n - 1];
      if face.face.pitch.Some? {
        PushedHistory(HistoryOf(before, face.id), face.face.pitch.value, now, now);
      }
    }
  }

  // ---------- runs ----------

  /** What happens to the tracker: a frame, whose gestures are recorded at `recorded`; a stop; a new video file. */
  datatype Event = Frame(faces: seq<Face>, now: int, recorded: int) | Stop | Open

  function Apply(s: State, e: Event): State {
    match e
    case Frame(faces, now, recorded) =>
      var after := Updated(s, faces, now);
      var out := OutOf(s, faces, now);
      after.(history := Pushed(after.history, out, recorded, |out|))
    case Stop => Cleared(s)
    case Open => FRESH
  }

  /** The clock after an event. */
  function Clock(clock: int, e: Event): int {
    if e.Frame? then e.recorded else clock
  }

  predicate Timely(clock: int, e: Event) {
    e.Frame? ==> clock <= e.now <= e.recorded
  }

  function Run(events: seq<Event>, n: nat): State
    requires n <= |events|
  {
    if n == 0 then FRESH else Apply(Run(events, n - 1), events[n - 1])
  }

  function ClockAt(start: int, events: seq<Event>, n: nat): int
    requires n <= |events|
  {
    if n == 0 then start else Clock(ClockAt(start, events, n - 1), events[n - 1])
  }

  /** The clock does not go back during the first `n` events. */
  predicate InTime(start: int, events: seq<Event>, n: nat)
    requires n <= |events|
  {
    n == 0 || (InTime(start, events, n - 1) && Timely(ClockAt(start, events, n - 1), events[n - 1]))
  }

  ghost predicate Inv(s: State, clock: int) {
    WellFormed(s) && HistoriesInv(s.history, Ids(s.tracks), clock)
  }

  lemma {:induction false} LiveKeeps(tracks: seq<Track>, now: int, n: nat, nextId: nat)
    requires DistinctIds(tracks) && IdsBelow(tracks, nextId) && n <= |tracks|
    ensures DistinctIds(Live(tracks, now, n)) && IdsBelow(Live(tracks, now, n), nextId)
    ensures forall t :: t in Live(tracks, now, n) ==> t in tracks[..n] && now - t.lastSeen < TRACK_TTL_MS
  {
    if n > 0 {
      LiveKeeps(tracks, now, n - 1, nextId);
      assert tracks[..n] == tracks[..n - 1] + [tracks[n - 1]];
      forall t | t in Live(tracks, now, n - 1) ensures t.id != tracks[n - 1].id {
        var i :| 0 <= i < n - 1 && tracks[i] == t;
      }
    }
  }

  /** A frame keeps the ids distinct and below the next id, which never goes down, and leaves only tracks seen in the last 5 s. */
  lemma UpdateKeepsTracks(s: State, faces: seq<Face>, now: int)
    requires WellFormed(s)
    ensures var after := Updated(s, faces, now);
            && WellFormed(after) && s.nextId <= after.nextId
            && (forall t :: t in after.tracks ==> now - t.lastSeen < TRACK_TTL_MS)
  {
    AssignedInv(s, faces, now, |faces|);
    var p := Assigned(s, faces, now, |faces|);
    LiveKeeps(p.tracks, now, |p.tracks|, p.nextId);
  }

  lemma OutIdsAreLive(s: State, faces: seq<Face>, now: int)
    requires WellFormed(s)
    ensures forall k :: 0 <= k < |OutOf(s, faces, now)| ==> OutOf(s, faces, now)[k].id in Ids(Updated(s, faces, now).tracks)
  {
    FacesHaveOwnTracks(s, faces, now);
    hide Updated, OutOf;
    var out, after := OutOf(s, faces, now), Updated(s, faces, now);
    forall k | 0 <= k < |out| ensures out[k].id in Ids(after.tracks) {
      assert Track(out[k].id, faces[k], now) in after.tracks;
    }
  }

  lemma ApplyKeepsInv(s: State, e: Event, clock: int)
    requires Inv(s, clock) && Timely(clock, e)
    ensures Inv(Apply(s, e), Clock(clock, e))
  {
    hide GoodHistory;
    if e.Frame? {
      var after, out := Updated(s, e.faces, e.now), OutOf(s, e.faces, e.now);
      UpdateKeepsTracks(s, e.faces, e.now);
      OutIdsAreLive(s, e.faces, e.now);
      PruneKeepsHistories(s.history, Ids(s.tracks), Ids(after.tracks), clock, e.now);
      PushKeepsHistories(after.history, Ids(after.tracks), out, |out|, clock, e.recorded);
    }
  }

  /**
   Over every run from the start, with a clock that does not go back: ids are distinct and below
   the next id, and every gesture history belongs to a live track, is in order of time and spans
   at most 3500 ms.
   */
  lemma {:induction false} RunKeepsInv(start: int, events: seq<Event>, n: nat)
    requires n <= |events| && InTime(start, events, n)
    ensures Inv(Run(events, n), ClockAt(start, events, n))
  {
    hide Apply, Inv;
    if n == 0 {
      FreshInv(start);
    } else {
      RunKeepsInv(start, events, n - 1);
      ApplyKeepsInv(Run(events, n - 1), events[n - 1], ClockAt(start, events, n - 1));
    }
  }

  lemma FreshInv(start: int)
    ensures Inv(FRESH, start)
  {
  }

  lemma ApplyNextId(s: State, e: Event, clock: int)
    requires Inv(s, clock) && !e.Open?
    ensures s.nextId <= Apply(s, e).nextId
  {
    if e.Frame? {
      hide Updated, OutOf;
      UpdateKeepsTracks(s, e.faces, e.now);
    }
  }

  /** Until a new file is opened the next id never goes down, so that an id that was given out stays with its person. */
  lemma {:induction false} NextIdGrows(events: seq<Event>, start: int, m: nat, n: nat)
    requires m <= n <= |events| && InTime(start, events, n)
    requires forall k :: m <= k < n ==> !events[k].Open?
    ensures Run(events, m).nextId <= Run(events, n).nextId
    decreases n
  {
    hide Apply, Inv, ClockAt, Timely;
    if m < n {
      NextIdGrows(events, start, m, n - 1);
      RunKeepsInv(start, events, n - 1);
      ApplyNextId(Run(events, n - 1), events[n - 1], ClockAt(start, events, n - 1));
    }
  }
}
