/** What a frame leaves in the tracks and in the gesture histories, in both directions, over every run. */
module TrackerHistories {
  import opened Nods
  import opened Options
  import opened Tracker
  import opened TrackerRuns

  // ---------- distances ----------

  /** Two boxes are as far apart as their centres, whatever their sizes. */
  lemma DistanceOfMoved(a: Face, b: Face, dx: real, dy: real, dw: real, dh: real)
    requires b.w == a.w + dw && b.h == a.h + dh && b.x == a.x + dx - dw / 2.0 && b.y == a.y + dy - dh / 2.0
    ensures Distance2(a, b) == dx * dx + dy * dy == Distance2(b, a)
  {
    var x, y := (a.x + a.w / 2.0) - (b.x + b.w / 2.0), (a.y + a.h / 2.0) - (b.y + b.h / 2.0);
    assert x == -dx && y == -dy;
    assert x * x == dx * dx && y * y == dy * dy;
  }

  lemma NearIff(face: Face, track: Track)
    ensures Near(face, track) <==> Distance2(face, track.bbox) < 0.18 * 0.18
  {
    hide Distance2;
  }

  // ---------- the tracks after a frame ----------

  /** Each track beyond those of the start of the frame was started by a face. */
  lemma {:induction false} NewTracksAreOut(s: State, faces: seq<Face>, now: int, n: nat, i: nat)
    requires WellFormed(s) && n <= |faces|
    requires |s.tracks| <= i < |Assigned(s, faces, now, n).tracks|
    ensures exists k :: 0 <= k < |Assigned(s, faces, now, n).out| && Assigned(s, faces, now, n).out[k].id == Assigned(s, faces, now, n).tracks[i].id
  {
    hide AssignOne, TracksInv, UnmatchedInv, OutInv;
    if n > 0 {
      AssignedInv(s, faces, now, n - 1);
      var p, q := Assigned(s, faces, now, n - 1), Assigned(s, faces, now, n);
      if i < |p.tracks| {
        NewTracksAreOut(s, faces, now, n - 1, i);
      }
      OneTrackChanges(s, p, faces[n - 1], now, i);
    }
  }

  /** One face changes at most one track, to its own. */
  lemma OneTrackChanges(s: State, p: Pass, face: Face, now: int, i: nat)
    requires TracksInv(s, p) && i < |AssignOne(p, face, now).tracks|
    ensures var q := AssignOne(p, face, now);
            && |q.out| == |p.out| + 1 && (forall k :: 0 <= k < |p.out| ==> q.out[k] == p.out[k])
            && (q.tracks[i].id == q.out[|p.out|].id || (i < |p.tracks| && q.tracks[i] == p.tracks[i]))
  {
    AssignShape(p, face, now);
    hide Match, Upserted;
  }

  /** Some face has been given track `id`. */
  ghost predicate Claimed(out: seq<Tracked>, id: nat) {
    exists k :: 0 <= k < |out| && out[k].id == id
  }

  /** The track of face `k` after the frame. */
  ghost predicate IsTrackOf(out: seq<Tracked>, k: int, now: int, t: Track) {
    0 <= k < |out| && t == Track(out[k].id, out[k].face, now)
  }

  lemma PassTracksIff(s: State, faces: seq<Face>, now: int, t: Track)
    requires WellFormed(s)
    ensures var p := Assigned(s, faces, now, |faces|);
            t in p.tracks <==> (exists k :: IsTrackOf(p.out, k, now, t)) || (t in s.tracks && !Claimed(p.out, t.id))
  {
    hide Assigned, TracksInv, UnmatchedInv, OutInv, WellFormed;
    AssignedInv(s, faces, now, |faces|);
    var p := Assigned(s, faces, now, |faces|);
    if t in p.tracks {
      var i :| 0 <= i < |p.tracks| && p.tracks[i] == t;
      if i >= |s.tracks| {
        NewTracksAreOut(s, faces, now, |faces|, i);
      }
      if Claimed(p.out, t.id) {
        var k :| 0 <= k < |p.out| && p.out[k].id == t.id;
        OwnTrack(s, p, faces, now, i, k);
        assert IsTrackOf(p.out, k, now, t);
      } else {
        UnclaimedStays(s, p, i);
      }
    }
    if t in s.tracks && !Claimed(p.out, t.id) {
      var i :| 0 <= i < |s.tracks| && s.tracks[i] == t;
      SameIds(s, p);
      UnclaimedStays(s, p, i);
    }
    if k :| IsTrackOf(p.out, k, now, t) {
      OutIsTracked(s, p, faces, now, k);
    }
  }

  lemma SameIds(s: State, p: Pass)
    requires TracksInv(s, p)
    ensures |s.tracks| <= |p.tracks| && forall i :: 0 <= i < |s.tracks| ==> p.tracks[i].id == s.tracks[i].id
  {
  }

  lemma UnclaimedStays(s: State, p: Pass, i: nat)
    requires TracksInv(s, p) && UnmatchedInv(s, p)
    requires i < |s.tracks| && i < |p.tracks| && !Claimed(p.out, p.tracks[i].id)
    ensures p.tracks[i] == s.tracks[i]
  {
    assert Free(s.tracks, p.out, |p.out|, i);
  }

  lemma OutIsTracked(s: State, p: Pass, faces: seq<Face>, now: int, k: nat)
    requires OutInv(s, p, faces, now) && k < |p.out|
    ensures Track(p.out[k].id, p.out[k].face, now) in p.tracks
  {
  }

  lemma OwnTrack(s: State, p: Pass, faces: seq<Face>, now: int, i: nat, k: nat)
    requires TracksInv(s, p) && OutInv(s, p, faces, now)
    requires i < |p.tracks| && k < |p.out| && p.out[k].id == p.tracks[i].id
    ensures p.tracks[i] == Track(p.out[k].id, p.out[k].face, now)
  {
    var own := Track(p.out[k].id, p.out[k].face, now);
    assert own in p.tracks;
    var j :| 0 <= j < |p.tracks| && p.tracks[j] == own;
    assert i == j;
  }

  /**
   The tracks after a frame are exactly those of its faces, each moved to its face, and those that no
   face took and that were seen less than 5 s ago, as they were.
   */
  lemma TracksAfterIff(s: State, faces: seq<Face>, now: int, t: Track)
    requires WellFormed(s)
    ensures var out := OutOf(s, faces, now);
            t in Updated(s, faces, now).tracks <==>
            || (exists k :: IsTrackOf(out, k, now, t))
            || (t in s.tracks && !Claimed(out, t.id) && now - t.lastSeen < 5000)
  {
    hide Assigned;
    var p := Assigned(s, faces, now, |faces|);
    PassTracksIff(s, faces, now, t);
    LiveIff(p.tracks, now, |p.tracks|, t);
    assert p.tracks[..|p.tracks|] == p.tracks;
    assert (exists k :: IsTrackOf(p.out, k, now, t)) ==> t.lastSeen == now;
    hide IsTrackOf, Claimed, Live;
    assert OutOf(s, faces, now) == p.out && Updated(s, faces, now).tracks == Live(p.tracks, now, |p.tracks|);
  }

  /** How many of the first `n` faces have an id from `nextId` on. */
  function Newcomers(out: seq<Tracked>, nextId: nat, n: nat): nat
    requires n <= |out|
  {
    if n == 0 then 0 else Newcomers(out, nextId, n - 1) + if out[n - 1].id >= nextId then 1 else 0
  }

  lemma {:induction false} NewcomersOfPrefix(out: seq<Tracked>, longer: seq<Tracked>, nextId: nat, n: nat)
    requires n <= |out| <= |longer| && forall k :: 0 <= k < n ==> out[k] == longer[k]
    ensures Newcomers(out, nextId, n) == Newcomers(longer, nextId, n)
  {
    if n > 0 {
      NewcomersOfPrefix(out, longer, nextId, n - 1);
    }
  }

  lemma {:induction false} NextIdCounts(s: State, faces: seq<Face>, now: int, n: nat)
    requires WellFormed(s) && n <= |faces|
    ensures var p := Assigned(s, faces, now, n);
            |p.out| == n && p.nextId == s.nextId + Newcomers(p.out, s.nextId, n)
  {
    hide AssignOne, TracksInv, UnmatchedInv, OutInv;
    if n > 0 {
      AssignedInv(s, faces, now, n - 1);
      NextIdCounts(s, faces, now, n - 1);
      var p, q := Assigned(s, faces, now, n - 1), Assigned(s, faces, now, n);
      OneId(s, p, faces[n - 1], now);
      OneMoreOut(p, faces[n - 1], now);
      NewcomersOfPrefix(p.out, q.out, s.nextId, n - 1);
    }
  }

  /** A face takes the next id, or one from before the frame that leaves the next id as it is. */
  lemma OneId(s: State, p: Pass, face: Face, now: int)
    requires WellFormed(s) && TracksInv(s, p) && UnmatchedInv(s, p)
    ensures var q := AssignOne(p, face, now); var id := q.out[|p.out|].id;
            (id == p.nextId && q.nextId == p.nextId + 1) || (id < s.nextId && q.nextId == p.nextId)
    ensures s.nextId <= p.nextId
  {
    var m := Match(face, p.tracks, p.unmatched);
    MatchIsNearest(face, p.tracks, p.unmatched);
    hide Match, Upserted, Distance2;
    if m >= 0 {
      OldIdIsOld(s, p, m);
    }
  }

  lemma OldIdIsOld(s: State, p: Pass, m: nat)
    requires WellFormed(s) && TracksInv(s, p) && UnmatchedInv(s, p) && m < |p.tracks| && p.tracks[m].id in p.unmatched
    ensures p.tracks[m].id < s.nextId
  {
  }

  lemma AssignedStep(s: State, faces: seq<Face>, now: int, k: nat)
    requires k < |faces|
    ensures Assigned(s, faces, now, k + 1) == AssignOne(Assigned(s, faces, now, k), faces[k], now)
  {
    hide AssignOne;
  }

  /** New ids are handed out one after the other, from the next id on, and none is skipped. */
  lemma NewIdsAreNext(s: State, faces: seq<Face>, now: int, k: nat)
    requires WellFormed(s) && k < |faces|
    ensures var out := OutOf(s, faces, now);
            && |out| == |faces|
            && (out[k].id >= s.nextId ==> out[k].id == s.nextId + Newcomers(out, s.nextId, k))
            && Updated(s, faces, now).nextId == s.nextId + Newcomers(out, s.nextId, |out|)
  {
    var n := |faces|;
    NextIdCounts(s, faces, now, n);
    NextIdCounts(s, faces, now, k);
    NextIdCounts(s, faces, now, k + 1);
    AssignedInv(s, faces, now, k);
    hide Assigned, AssignOne, TracksInv, UnmatchedInv, OutInv, WellFormed, Live, Pruned;
    var out, p, q := OutOf(s, faces, now), Assigned(s, faces, now, k), Assigned(s, faces, now, k + 1);
    AssignedStep(s, faces, now, k);
    OneId(s, p, faces[k], now);
    forall j | 0 <= j <= k ensures out[j] == q.out[j] {
      OutKeeps(s, faces, now, j, k + 1, n);
    }
    forall j | 0 <= j < k ensures p.out[j] == q.out[j] {
      OutKeeps(s, faces, now, j, k, k + 1);
    }
    NewcomersOfPrefix(p.out, out, s.nextId, k);
  }

  // ---------- one trim, one push ----------

  lemma RecentOfIff(h: seq<Sample>, now: int, x: Sample)
    ensures x in RecentOf(h, now) <==> x in h && now - x.t <= 3500
  {
    RecentIff(h, now, |h|, x);
    assert h[..|h|] == h;
  }

  /** Pruning keeps exactly the recent pitches of the live tracks. */
  lemma PrunedIff(history: map<nat, seq<Sample>>, live: set<nat>, now: int, id: nat, x: Sample)
    ensures x in HistoryOf(Pruned(history, live, now), id) <==>
            id in live && x in HistoryOf(history, id) && now - x.t <= 3500
  {
    hide RecentOf;
    RecentOfIff(HistoryOf(history, id), now, x);
  }

  /** One of the first `n` faces has this id and a measured pitch. */
  ghost predicate Measured(faces: seq<Tracked>, n: nat, id: nat)
    requires n <= |faces|
  {
    exists k :: 0 <= k < n && faces[k].id == id && faces[k].face.pitch.Some?
  }

  /** The pitch of one of the first `n` faces, taken now under this id, is `x`. */
  ghost predicate Gives(faces: seq<Tracked>, n: nat, now: int, id: nat, x: Sample)
    requires n <= |faces|
  {
    exists k :: 0 <= k < n && faces[k].id == id && faces[k].face.pitch == Some(x.pitch) && x.t == now
  }

  lemma MeasuredSnoc(faces: seq<Tracked>, n: nat, now: int, id: nat, x: Sample)
    requires 0 < n <= |faces|
    ensures Measured(faces, n, id) <==>
            Measured(faces, n - 1, id) || (faces[n - 1].id == id && faces[n - 1].face.pitch.Some?)
    ensures Gives(faces, n, now, id, x) <==>
            Gives(faces, n - 1, now, id, x) || (faces[n - 1].id == id && faces[n - 1].face.pitch == Some(x.pitch) && x.t == now)
  {
  }

  /** Recording adds exactly the pitches measured now; a history that gains one loses what is older than 3500 ms. */
  lemma {:induction false} PushedIff(history: map<nat, seq<Sample>>, faces: seq<Tracked>, now: int, n: nat, id: nat, x: Sample)
    requires n <= |faces|
    ensures x in HistoryOf(Pushed(history, faces, now, n), id) <==>
            || Gives(faces, n, now, id, x)
            || (x in HistoryOf(history, id) && (Measured(faces, n, id) ==> now - x.t <= 3500))
  {
    hide RecentOf, Measured, Gives;
    if n == 0 {
      NoneMeasured(faces, now, id, x);
    } else {
      PushedIff(history, faces, now, n - 1, id, x);
      MeasuredSnoc(faces, n, now, id, x);
      var before, face := Pushed(history, faces, now, n - 1), faces[n - 1];
      if face.id == id && face.face.pitch.Some? {
        var added := Sample(now, face.face.pitch.value);
        RecentOfIff(HistoryOf(before, id) + [added], now, x);
        GivenNow(faces, n - 1, now, id, x);
      }
    }
  }

  lemma NoneMeasured(faces: seq<Tracked>, now: int, id: nat, x: Sample)
    ensures !Measured(faces, 0, id) && !Gives(faces, 0, now, id, x)
  {
  }

  lemma GivenNow(faces: seq<Tracked>, n: nat, now: int, id: nat, x: Sample)
    requires n <= |faces|
    ensures Gives(faces, n, now, id, x) ==> x.t == now
  {
  }

  // ---------- runs ----------

  /** The faces of frame `k` with their ids. */
  function FacesOf(events: seq<Event>, k: nat): seq<Tracked>
    requires k < |events| && events[k].Frame?
  {
    OutOf(Run(events, k), events[k].faces, events[k].now)
  }

  /** Frame `k` recorded `x` for `id`. */
  ghost predicate Records(events: seq<Event>, k: nat, id: nat, x: Sample) {
    && k < |events| && events[k].Frame?
    && Gives(FacesOf(events, k), |FacesOf(events, k)|, events[k].recorded, id, x)
  }

  /** Event `m` is a frame that leaves the track live and finds `x` no older than 3500 ms, at each of its trims. */
  ghost predicate Spares(events: seq<Event>, m: nat, id: nat, x: Sample) {
    && m < |events| && events[m].Frame?
    && id in Ids(Updated(Run(events, m), events[m].faces, events[m].now).tracks)
    && events[m].now - x.t <= 3500
    && (Measured(FacesOf(events, m), |FacesOf(events, m)|, id) ==> events[m].recorded - x.t <= 3500)
  }

  /** `x` was recorded for `id`, and every event since has spared it. */
  ghost predicate RecordedAndSpared(events: seq<Event>, n: nat, id: nat, x: Sample) {
    exists k: nat :: k < n && Records(events, k, id, x) && forall m: nat :: k < m < n ==> Spares(events, m, id, x)
  }

  lemma SparedSnoc(events: seq<Event>, n: nat, id: nat, x: Sample)
    requires 0 < n <= |events|
    ensures RecordedAndSpared(events, n, id, x) <==>
            Records(events, n - 1, id, x) || (RecordedAndSpared(events, n - 1, id, x) && Spares(events, n - 1, id, x))
  {
    hide Records, Spares;
    if Records(events, n - 1, id, x) {
      assert forall m: nat :: n - 1 < m < n ==> Spares(events, m, id, x);
    }
    if RecordedAndSpared(events, n - 1, id, x) && Spares(events, n - 1, id, x) {
      var k: nat :| k < n - 1 && Records(events, k, id, x) && forall m: nat :: k < m < n - 1 ==> Spares(events, m, id, x);
      assert forall m: nat :: k < m < n ==> Spares(events, m, id, x);
    }
  }

  lemma FrameHolds(events: seq<Event>, n: nat, id: nat, x: Sample)
    requires n < |events| && events[n].Frame?
    ensures x in HistoryOf(Run(events, n + 1).history, id) <==>
            Records(events, n, id, x) || (x in HistoryOf(Run(events, n).history, id) && Spares(events, n, id, x))
  {
    hide Pruned, Pushed, Measured, Gives, Assigned, Live, OutOf;
    var s, e := Run(events, n), events[n];
    var after, out := Updated(s, e.faces, e.now), FacesOf(events, n);
    PrunedIff(s.history, Ids(after.tracks), e.now, id, x);
    PushedIff(after.history, out, e.recorded, |out|, id, x);
  }

  /**
   The histories, exactly: after every run from the start, the history of an id holds a pitch if and
   only if a frame recorded it for that id and, ever since, there has been no stop and no new file, the
   track has stayed live, and each trim has found the pitch no older than 3500 ms.
   */
  lemma {:induction false} HistoryHolds(events: seq<Event>, n: nat, id: nat, x: Sample)
    requires n <= |events|
    ensures x in HistoryOf(Run(events, n).history, id) <==> RecordedAndSpared(events, n, id, x)
  {
    hide Records, Spares, Updated, OutOf, Pushed;
    if n > 0 {
      HistoryHolds(events, n - 1, id, x);
      SparedSnoc(events, n, id, x);
      if events[n - 1].Frame? {
        FrameHolds(events, n - 1, id, x);
      } else {
        NotAFrame(events, n - 1, id, x);
      }
    }
  }

  lemma NotAFrame(events: seq<Event>, k: nat, id: nat, x: Sample)
    requires k < |events| && !events[k].Frame?
    ensures !Records(events, k, id, x) && !Spares(events, k, id, x)
  {
  }

  // ---------- order ----------

  /** The pitches measured now under this id, in the order of the faces. */
  function PitchesOf(faces: seq<Tracked>, n: nat, now: int, id: nat): seq<Sample>
    requires n <= |faces|
  {
    if n == 0 then []
    else PitchesOf(faces, n - 1, now, id)
         + if faces[n - 1].id == id && faces[n - 1].face.pitch.Some? then [Sample(now, faces[n - 1].face.pitch.value)] else []
  }

  /** Everything recorded for an id since the latest stop or new file. */
  function Recorded(events: seq<Event>, n: nat, id: nat): seq<Sample>
    requires n <= |events|
  {
    if n == 0 || !events[n - 1].Frame? then []
    else Recorded(events, n - 1, id)
         + PitchesOf(FacesOf(events, n - 1), |FacesOf(events, n - 1)|, events[n - 1].recorded, id)
  }

  /** `h` is the end of `r`. */
  predicate EndOf(h: seq<Sample>, r: seq<Sample>) {
    |h| <= |r| && h == r[|r| - |h|..]
  }

  lemma EndOfEnd(a: seq<Sample>, b: seq<Sample>, c: seq<Sample>)
    requires EndOf(a, b) && EndOf(b, c)
    ensures EndOf(a, c)
  {
    assert forall i :: 0 <= i < |a| ==> a[i] == b[|b| - |a| + i] == c[|c| - |a| + i];
  }

  lemma EndOfLonger(a: seq<Sample>, b: seq<Sample>, c: seq<Sample>)
    requires EndOf(a, b)
    ensures EndOf(a + c, b + c)
  {
  }

  /** Of a history in order of time, trimming leaves the end. */
  lemma {:induction false} RecentIsEnd(h: seq<Sample>, now: int, n: nat)
    requires InOrder(h) && n <= |h|
    ensures EndOf(Recent(h, now, n), h[..n])
  {
    if n > 0 {
      RecentIsEnd(h, now, n - 1);
      assert h[..n] == h[..n - 1] + [h[n - 1]];
      var r := Recent(h, now, n - 1);
      if now - h[n - 1].t <= GESTURE_HISTORY_MS {
        EndOfLonger(r, h[..n - 1], [h[n - 1]]);
      } else {
        NothingRecent(h, now, n - 1);
      }
    }
  }

  lemma {:induction false} NothingRecent(h: seq<Sample>, now: int, n: nat)
    requires InOrder(h) && n < |h| && now - h[n].t > GESTURE_HISTORY_MS
    ensures Recent(h, now, n) == []
  {
    if n > 0 {
      NothingRecent(h, now, n - 1);
    }
  }

  lemma RecentOfIsEnd(h: seq<Sample>, now: int)
    requires InOrder(h)
    ensures EndOf(RecentOf(h, now), h)
  {
    RecentIsEnd(h, now, |h|);
    assert h[..|h|] == h;
  }

  lemma {:induction false} PushedIsEnd(history: map<nat, seq<Sample>>, ids: set<nat>, faces: seq<Tracked>, n: nat, clock: int, now: int, id: nat)
    requires HistoriesInv(history, ids, clock) && clock <= now && n <= |faces|
    requires forall k :: 0 <= k < |faces| ==> faces[k].id in ids
    ensures EndOf(HistoryOf(Pushed(history, faces, now, n), id), HistoryOf(history, id) + PitchesOf(faces, n, now, id))
  {
    hide RecentOf, GoodHistory, EndOf;
    var h := HistoryOf(history, id);
    WholeIsEnd(h);
    if n == 0 {
      assert h + [] == h;
    } else {
      PushedIsEnd(history, ids, faces, n - 1, clock, now, id);
      PushKeepsHistories(history, ids, faces, n - 1, clock, now);
      var before, face := Pushed(history, faces, now, n - 1), faces[n - 1];
      var pitches := PitchesOf(faces, n - 1, now, id);
      if face.id == id && face.face.pitch.Some? {
        var x := Sample(now, face.face.pitch.value);
        OnePushIsEnd(HistoryOf(before, id), h + pitches, x, now);
        assert h + pitches + [x] == h + (pitches + [x]);
      } else {
        assert pitches + [] == pitches;
      }
    }
  }

  lemma WholeIsEnd(h: seq<Sample>)
    ensures EndOf(h, h)
  {
  }

  lemma OnePushIsEnd(h: seq<Sample>, r: seq<Sample>, x: Sample, now: int)
    requires (h == [] || GoodHistory(h, now)) && x.t == now && EndOf(h, r)
    ensures EndOf(RecentOf(h + [x], now), r + [x])
  {
    hide RecentOf;
    assert InOrder(h + [x]);
    RecentOfIsEnd(h + [x], now);
    EndOfLonger(h, r, [x]);
    EndOfEnd(RecentOf(h + [x], now), h + [x], r + [x]);
  }

  /**
   And in order: over every run whose clock does not go back, the history of an id is the end of the
   list of all pitches recorded for it since the latest stop or new file.
   */
  lemma {:induction false} HistoryIsEnd(start: int, events: seq<Event>, n: nat, id: nat)
    requires n <= |events| && InTime(start, events, n)
    ensures EndOf(HistoryOf(Run(events, n).history, id), Recorded(events, n, id))
  {
    hide Updated, OutOf, PitchesOf, EndOf, Pushed, ClockAt, Inv, Timely;
    NoEnd([]);
    if n > 0 {
      HistoryIsEnd(start, events, n - 1, id);
      RunKeepsInv(start, events, n - 1);
      var s, e := Run(events, n - 1), events[n - 1];
      if e.Frame? {
        FrameIsEnd(s, e, ClockAt(start, events, n - 1), Recorded(events, n - 1, id), id);
      }
    }
  }

  lemma NoEnd(r: seq<Sample>)
    ensures EndOf([], r)
  {
  }

  lemma FrameIsEnd(s: State, e: Event, clock: int, r: seq<Sample>, id: nat)
    requires Inv(s, clock) && e.Frame? && Timely(clock, e) && EndOf(HistoryOf(s.history, id), r)
    ensures var out := OutOf(s, e.faces, e.now);
            EndOf(HistoryOf(Apply(s, e).history, id), r + PitchesOf(out, |out|, e.recorded, id))
  {
    hide OutOf, Assigned, Live, PitchesOf, EndOf, Pushed, GoodHistory, RecentOf, Taken;
    var after, out := Updated(s, e.faces, e.now), OutOf(s, e.faces, e.now);
    var pitches := PitchesOf(out, |out|, e.recorded, id);
    UpdateKeepsTracks(s, e.faces, e.now);
    OutIdsAreLive(s, e.faces, e.now);
    PruneKeepsHistories(s.history, Ids(s.tracks), Ids(after.tracks), clock, e.now);
    PushedIsEnd(after.history, Ids(after.tracks), out, |out|, clock, e.recorded, id);
    PrunedIsEnd(s.history, Ids(s.tracks), Ids(after.tracks), clock, e.now, id);
    EndOfEnd(HistoryOf(after.history, id), HistoryOf(s.history, id), r);
    EndOfLonger(HistoryOf(after.history, id), r, pitches);
    EndOfEnd(HistoryOf(Apply(s, e).history, id), HistoryOf(after.history, id) + pitches, r + pitches);
  }

  lemma PrunedIsEnd(history: map<nat, seq<Sample>>, ids: set<nat>, live: set<nat>, clock: int, now: int, id: nat)
    requires HistoriesInv(history, ids, clock)
    ensures EndOf(HistoryOf(Pruned(history, live, now), id), HistoryOf(history, id))
  {
    hide RecentOf;
    if id in history {
      RecentOfIsEnd(history[id], now);
    }
  }
}
