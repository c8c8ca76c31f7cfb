/**
 The face tracker: each face of a frame takes over the nearest track nobody has taken yet, if that
 is near enough, and otherwise starts a new one. Tracks not seen for 5 s are dropped, and each
 track keeps the head pitches of the last 3.5 s.
 */
module Tracker {
  import opened Nods
  import opened Options

  const MATCH_DISTANCE: real := 0.18
  const TRACK_TTL_MS := 5000
  const GESTURE_HISTORY_MS := 3500

  datatype Face = Face(x: real, y: real, w: real, h: real, pitch: Option<real>)
  datatype Tracked = Tracked(face: Face, id: nat)
  datatype Track = Track(id: nat, bbox: Face, lastSeen: int)
  datatype State = State(tracks: seq<Track>, history: map<nat, seq<Sample>>, nextId: nat)

  const FRESH := State([], map[], 1)

  function Ids(tracks: seq<Track>): set<nat> {
    set t | t in tracks :: t.id
  }

  /** The square of the distance between the centres of two boxes. */
  function Distance2(a: Face, b: Face): real {
    var dx, dy := (a.x + a.w / 2.0) - (b.x + b.w / 2.0), (a.y + a.h / 2.0) - (b.y + b.h / 2.0);
    dx * dx + dy * dy
  }

  // ---------- matching ----------

  /** The first nearest of the candidates among the first `n` tracks, or -1. */
  function Nearest(face: Face, tracks: seq<Track>, candidates: set<nat>, n: nat): (best: int)
    requires n <= |tracks|
    ensures -1 <= best < n
    ensures best >= 0 ==> tracks[best].id in candidates
    ensures forall i :: 0 <= i < n && tracks[i].id in candidates ==>
      best >= 0 && Distance2(face, tracks[best].bbox) <= Distance2(face, tracks[i].bbox)
  {
    if n == 0 then -1
    else
      var best := Nearest(face, tracks, candidates, n - 1);
      if tracks[n - 1].id in candidates
         && (best < 0 || Distance2(face, tracks[n - 1].bbox) < Distance2(face, tracks[best].bbox))
      then n - 1 else best
  }

  /** The nearest candidate if it is near enough, or -1. */
  function Match(face: Face, tracks: seq<Track>, candidates: set<nat>): (m: int)
    ensures -1 <= m < |tracks|
  {
    var best := Nearest(face, tracks, candidates, |tracks|);
    if best >= 0 && Distance2(face, tracks[best].bbox) < MATCH_DISTANCE * MATCH_DISTANCE then best else -1
  }

  /** The position of the first track with this id, or -1. */
  function IndexOf(tracks: seq<Track>, id: nat, i: nat): (k: int)
    requires i <= |tracks|
    ensures k == -1 || i <= k < |tracks|
    ensures k >= 0 ==> tracks[k].id == id
    ensures k == -1 ==> forall j :: i <= j < |tracks| ==> tracks[j].id != id
    decreases |tracks| - i
  {
    if i == |tracks| then -1 else if tracks[i].id == id then i else IndexOf(tracks, id, i + 1)
  }

  function Upserted(tracks: seq<Track>, id: nat, face: Face, now: int): seq<Track> {
    var k := IndexOf(tracks, id, 0);
    if k >= 0 then tracks[k := Track(id, face, now)] else tracks + [Track(id, face, now)]
  }

  /** A frame part way: the tracks, which of them no face has taken, and the faces that have their ids. */
  datatype Pass = Pass(tracks: seq<Track>, unmatched: set<nat>, nextId: nat, out: seq<Tracked>)

  function AssignOne(p: Pass, face: Face, now: int): Pass {
    var m := Match(face, p.tracks, p.unmatched);
    var id := if m >= 0 then p.tracks[m].id else p.nextId;
    Pass(Upserted(p.tracks, id, face, now), p.unmatched - {id}, if m >= 0 then p.nextId else p.nextId + 1,
         p.out + [Tracked(face, id)])
  }

  function Assigned(s: State, faces: seq<Face>, now: int, n: nat): Pass
    requires n <= |faces|
  {
    if n == 0 then Pass(s.tracks, Ids(s.tracks), s.nextId, [])
    else AssignOne(Assigned(s, faces, now, n - 1), faces[n - 1], now)
  }

  function Live(tracks: seq<Track>, now: int, n: nat): seq<Track>
    requires n <= |tracks|
  {
    if n == 0 then []
    else if now - tracks[n - 1].lastSeen < TRACK_TTL_MS then Live(tracks, now, n - 1) + [tracks[n - 1]]
    else Live(tracks, now, n - 1)
  }

  // ---------- histories ----------

  function Recent(history: seq<Sample>, now: int, n: nat): seq<Sample>
    requires n <= |history|
  {
    if n == 0 then []
    else if now - history[n - 1].t <= GESTURE_HISTORY_MS then Recent(history, now, n - 1) + [history[n - 1]]
    else Recent(history, now, n - 1)
  }

  function RecentOf(history: seq<Sample>, now: int): seq<Sample> {
    Recent(history, now, |history|)
  }

  function Pruned(history: map<nat, seq<Sample>>, live: set<nat>, now: int): map<nat, seq<Sample>> {
    map id | id in history && id in live && RecentOf(history[id], now) != [] :: RecentOf(history[id], now)
  }

  function HistoryOf(history: map<nat, seq<Sample>>, id: nat): seq<Sample> {
    if id in history then history[id] else []
  }

  function PushOne(history: map<nat, seq<Sample>>, face: Tracked, now: int): map<nat, seq<Sample>> {
    if face.face.pitch.None? then history
    else history[face.id := RecentOf(HistoryOf(history, face.id) + [Sample(now, face.face.pitch.value)], now)]
  }

  function Pushed(history: map<nat, seq<Sample>>, faces: seq<Tracked>, now: int, n: nat): map<nat, seq<Sample>>
    requires n <= |faces|
  {
    if n == 0 then history else PushOne(Pushed(history, faces, now, n - 1), faces[n - 1], now)
  }

  /** One call of the tracker. */
  function Updated(s: State, faces: seq<Face>, now: int): State {
    var p := Assigned(s, faces, now, |faces|);
    var live := Live(p.tracks, now, |p.tracks|);
    State(live, Pruned(s.history, Ids(live), now), p.nextId)
  }

  function OutOf(s: State, faces: seq<Face>, now: int): seq<Tracked> {
    Assigned(s, faces, now, |faces|).out
  }

  // ---------- the code ----------

  class Faces {
    var tracks: seq<Track>
    var trackHistory: map<nat, seq<Sample>>
    var nextTrackId: nat

    constructor ()
      ensures Value() == FRESH
    {
      tracks, trackHistory, nextTrackId := [], map[], 1;
    }

    function Value(): State
      reads this
    {
      State(tracks, trackHistory, nextTrackId)
    }

    method UpdateTracks(faces: seq<Face>, now: int) returns (trackedFaces: seq<Tracked>)
      modifies this
      ensures Value() == Updated(old(Value()), faces, now)
      ensures trackedFaces == OutOf(old(Value()), faces, now)
    {
      hide AssignOne, Live, Pruned;
      var unmatchedTracks := Ids(tracks);
      trackedFaces := [];
      for k := 0 to |faces|
        invariant Pass(tracks, unmatchedTracks, nextTrackId, trackedFaces) == Assigned(old(Value()), faces, now, k)
        invariant trackHistory == old(trackHistory)
      {
        unmatchedTracks, trackedFaces := AssignFace(faces[k], unmatchedTracks, trackedFaces, now);
      }
      DropStale(now);
      PruneTrackHistory(now);
    }

    /** One turn of the loop over the faces. */
    method AssignFace(face: Face, unmatched: set<nat>, faces: seq<Tracked>, now: int)
      returns (unmatchedTracks: set<nat>, trackedFaces: seq<Tracked>)
      modifies this`tracks, this`nextTrackId
      ensures Pass(tracks, unmatchedTracks, nextTrackId, trackedFaces) ==
              AssignOne(Pass(old(tracks), unmatched, old(nextTrackId), faces), face, now)
    {
      hide Match, Upserted;
      var match_ := FindClosestTrack(face, unmatched);
      var trackId;
      if match_ >= 0 {
        trackId := tracks[match_].id;
      } else {
        trackId := nextTrackId;
        nextTrackId := nextTrackId + 1;
      }
      unmatchedTracks := unmatched - {trackId};
      trackedFaces := faces + [Tracked(face, trackId)];
      UpsertTrack(trackId, face, now);
    }

    method FindClosestTrack(face: Face, candidateIds: set<nat>) returns (m: int)
      ensures m == Match(face, tracks, candidateIds)
    {
      var bestTrack, bestDistance2 := -1, 0.0;
      for i := 0 to |tracks|
        invariant bestTrack == Nearest(face, tracks, candidateIds, i)
        invariant bestTrack >= 0 ==> bestDistance2 == Distance2(face, tracks[bestTrack].bbox)
      {
        if tracks[i].id in candidateIds {
          var distance2 := Distance2(face, tracks[i].bbox);
          if bestTrack < 0 || distance2 < bestDistance2 {
            bestDistance2 := distance2;
            bestTrack := i;
          }
        }
      }
      m := if bestTrack >= 0 && bestDistance2 < MATCH_DISTANCE * MATCH_DISTANCE then bestTrack else -1;
    }

    method UpsertTrack(id: nat, face: Face, now: int)
      modifies this`tracks
      ensures tracks == Upserted(old(tracks), id, face, now)
    {
      var index := IndexOf(tracks, id, 0);
      var nextTrack := Track(id, face, now);
      if index >= 0 {
        tracks := tracks[index := nextTrack];
        return;
      }
      tracks := tracks + [nextTrack];
    }

    method DropStale(now: int)
      modifies this`tracks
      ensures tracks == Live(old(tracks), now, |old(tracks)|)
    {
      var kept: seq<Track> := [];
      for i := 0 to |tracks|
        invariant kept == Live(tracks, now, i)
        invariant tracks == old(tracks)
      {
        if now - tracks[i].lastSeen < TRACK_TTL_MS {
          kept := kept + [tracks[i]];
        }
      }
      tracks := kept;
    }

    method UpdateGestureHistory(faces: seq<Tracked>, now: int)
      modifies this`trackHistory
      ensures trackHistory == Pushed(old(trackHistory), faces, now, |faces|)
    {
      for k := 0 to |faces|
        invariant trackHistory == Pushed(old(trackHistory), faces, now, k)
      {
        var face := faces[k];
        if face.face.pitch.None? {
          continue;
        }
        var history := HistoryOf(trackHistory, face.id) + [Sample(now, face.face.pitch.value)];
        trackHistory := trackHistory[face.id := RecentOf(history, now)];
      }
    }

    method PruneTrackHistory(now: int)
      modifies this`trackHistory
      ensures trackHistory == Pruned(old(trackHistory), Ids(tracks), now)
    {
      hide RecentOf;
      var active := Ids(tracks);
      var todo := trackHistory.Keys;
      while todo != {}
        invariant todo <= trackHistory.Keys <= old(trackHistory).Keys
        invariant forall id :: id in todo ==> trackHistory[id] == old(trackHistory)[id]
        invariant forall id :: id in old(trackHistory) && id !in todo ==>
          (id in trackHistory <==> id in Pruned(old(trackHistory), active, now))
        invariant forall id :: id in trackHistory && id !in todo ==>
          trackHistory[id] == RecentOf(old(trackHistory)[id], now)
      {
        var audienceId :| audienceId in todo;
        todo := todo - {audienceId};
        var nextHistory := RecentOf(trackHistory[audienceId], now);
        if audienceId !in active || nextHistory == [] {
          trackHistory := trackHistory - {audienceId};
        } else {
          trackHistory := trackHistory[audienceId := nextHistory];
        }
      }
      assert trackHistory.Keys == Pruned(old(trackHistory), active, now).Keys;
    }

    /** Capture or playback stops. */
    method Clear()
      modifies this
      ensures Value() == Cleared(old(Value()))
    {
      tracks, trackHistory := [], map[];
    }

    /** A new video file is opened. */
    method Restart()
      modifies this
      ensures Value() == FRESH
    {
      tracks, trackHistory := [], map[];
      nextTrackId := 1;
    }
  }

  function Cleared(s: State): State {
    State([], map[], s.nextId)
  }
}
