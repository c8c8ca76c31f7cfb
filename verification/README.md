# A verified model of the meeting reaction monitor

The repository watches the reactions of a video meeting: a browser extension derives signals from
faces and voices, and a Go backend turns them into live feedback and a durable record. This project
models the parts whose behaviour is not evident from reading one function, and proves what they keep
over every input and every run. `dafny verify dfyconfig.toml` checks all of it.

| files | what they model |
|---|---|
| `Bytes`, `Chunks`, `Frames`, `FrameLaw` | the WebSocket log server's incremental frame reader and its printer |
| `Options`, `Numeric`, `MoodMonitor`, `MoodLaws`, `TriggerRules` | the mood and nod triggers of the sidebar |
| `Nods`, `NodLaws`, `Tracker`, `TrackerRuns`, `TrackerHistories`, `GridTiles`, `GridLaws`, `Pitch`, `PitchLaws` | nod counting, face tracks, the tile grid, the pitch of a voice |
| `FeedbackCooldown` | two actors per connection that check and set one cooldown key |
| `SortedSets`, `RedisCache`, `CacheLaws`, `Window`, `WindowLaws`, `Evidence` | the trimmed Redis keys, the window statistics and the rule fallback |
| `Jsonl`, `DurableWriter`, `WriterRecords`, `WriterCounts`, `WriterOrder`, `PollProgress` | JSON-lines objects, the at-least-once writer, what, how often and in which order it writes, and its poll loop |
| `Transcripts` | how audio messages and recognition results are cut into transcript chunks |
| `Greedy`, `Pdf`, `PdfLaws` | line wrapping and pagination of the report |

Code that changes state is modelled as classes and loops; each is proved against a function on values,
and the properties are lemmas about that function and its runs. The `Laws` modules say what such a
function computes in terms of its inputs alone, without naming its body. Time is an integer clock in ms, numbers
are exact reals, a byte is an integer from 0 to 255, remote calls end in an outcome that the environment
chooses, and a run is a list of events.

## Where the code and its promises differ

The model follows the code. In each case a concrete input shows the difference, or the lemma named
states for all inputs when the promise holds.

- A close frame drops the rest of its chunk, but the handler goes on reading later chunks, so what is
  delivered after a close frame depends on the split (`SplitIndependentIff`, `CloseThenTextDepends`).
- Stopping the mood monitor closes an excursion without re-arming the trigger, so that unarmed no longer
  means that an excursion is open (`ExactUnlessCut` says exactly when; `StopCanBreakExactness` is an input).
- The cooldown is checked and set in two calls, so two feedbacks can go out in the same millisecond
  (`OverlappingSpansCanCoincide`). Two are 30 s apart if and only if the first was set before the second
  was checked, when a handler takes less than 30 s from check to set (`SpacedIff`).
- The periodic check reads 300 s of transcript from a key that is trimmed to 40 s, and a chunk of 40 s
  trims itself (`TranscriptReadsAllIff`, `PeriodicTranscriptLoses`, `LongChunkIsNeverRead`).
- The two JSON-lines readers differ on carriage returns, on lines of 1 MiB and on an unterminated last
  line (`BackendsAgreeIff`, `CutOffBackendsAgreeIff`, `CutOffLineDiffers`).
- Fifty undecodable events at the head of the queue stop the poll loop for good (`AckedEventuallyIff`).
- Edges are not strictly ascending for a frame of length 0 (`EdgesSpanIff`).
- Wrapping gives one empty piece for the empty text, where no piece would do (`WrapIsOptimal`).

## Model

| member | source | states |
|---|---|---|
| `Bytes.XorInvolution` | scripts/ws-log-server.cjs:98-103 | XOR with the same key byte twice gives the byte back |
| `Bytes.XorBits` | scripts/ws-log-server.cjs:98-103 | a bit of the exclusive-or is set exactly where the bits differ, a bit being the quotient by its power of two, modulo 2 |
| `Bytes.MaskedIsCombined` | scripts/ws-log-server.cjs:98-103 | bit n of byte i of the masked payload is set if and only if bit n of byte i of the payload and bit n of byte i modulo 4 of the key differ |
| `Bytes.CombinedIsMasked` | scripts/ws-log-server.cjs:98-103 | nothing else than the masked payload meets that bit by bit law |
| `Bytes.MaskInvolution` | scripts/ws-log-server.cjs:98-103 | masking twice with the same four-byte key is the identity (RFC 6455, section 5.3) |
| `Frames.Unmask` | scripts/ws-log-server.cjs:98-103 | the in-place loop turns the payload array into its masking by the key |
| `Frames.ReadLengths` | scripts/ws-log-server.cjs:72-88 | the three length forms and their missing-byte checks (RFC 6455, section 5.2) |
| `Frames.ReadFrame` | scripts/ws-log-server.cjs:70-103 | one turn of the loop finds exactly the head frame at the offset, or that it is incomplete |
| `Frames.ReadFrames` | scripts/ws-log-server.cjs:67-115 | the loop delivers the texts, and returns the leftover, of the recursive reader |
| `Frames.Connection.OnData` | scripts/ws-log-server.cjs:39-51 | the handler's buffer and the texts it hands on are those of feeding leftover plus chunk to the reader |
| `Frames.ParseAppend` | scripts/ws-log-server.cjs:67-115 | reading can stop after any byte and resume with the leftover, until a close frame; after one, further bytes of the same buffer change nothing |
| `Frames.ReaderIsIncremental` | scripts/ws-log-server.cjs:67-115 | the reader meets the law that chunk independence needs |
| `Chunks.AnySplit` | scripts/ws-log-server.cjs:39-51 | for every resumable parser, every split gives the texts and leftover of one chunk, up to the first close, and to the end if there is none |
| `Frames.ChunkIndependence` | scripts/ws-log-server.cjs:39-115 | for every byte stream and every split, the texts up to the first complete close frame, and without one also the leftover, are those of a single chunk |
| `Frames.SplitIndependentIff` | scripts/ws-log-server.cjs:39-115 | the texts of the whole stream are independent of the split if and only if there is no complete close frame or nothing after it reads as a text |
| `Chunks.IndependentIff` | scripts/ws-log-server.cjs:39-51 | for every resumable parser: the texts are the same for every split if and only if nothing closes the stream or no suffix after the first closing item parses to a text |
| `Frames.CloseEndIs` | scripts/ws-log-server.cjs:105-109 | the prefixes of a stream that the reader finds closed are exactly those that reach the end of its first close frame |
| `Frames.CloseThenTextDepends` | scripts/ws-log-server.cjs:105-109 | an empty close frame followed by an empty text frame is a stream whose texts depend on the split |
| `Frames.SendText` | scripts/ws-log-server.cjs:117-137 | writes the shortest length form across the 125/126 and 65535/65536 boundaries, or fails for 2^32 bytes and more |
| `Frames.HeadOfEncoded` | scripts/ws-log-server.cjs:67-137 | the reader finds in an encoded frame, masked or not, exactly its opcode, payload and size, whatever follows |
| `Frames.ParseEncoded` | scripts/ws-log-server.cjs:67-137 | encoded frames in a row are read as their text payloads before the first close frame, with nothing left over |
| `Frames.RoundTrip` | scripts/ws-log-server.cjs:67-137 | any sequence of frames, masked or not, cut into chunks anywhere, is delivered as exactly its text payloads |
| `Frames.SendTextRoundTrip` | scripts/ws-log-server.cjs:117-137 | reading what the printer wrote for any payloads under 2^32 bytes gives them back, in any chunks |
| `FrameLaw.ReadIffLawful` | scripts/ws-log-server.cjs:67-103 | the reader finds a frame at the head of its bytes if and only if they begin with one by the layout of RFC 6455 (lengths as big-endian numbers, mask bit by bit), and then returns what it carries and its size |
| `FrameLaw.IncompleteIff` | scripts/ws-log-server.cjs:72-92 | the reader waits for more bytes exactly when no prefix is a frame by that layout |
| `FrameLaw.ParseWires` | scripts/ws-log-server.cjs:67-115 | on the bytes of any frames of that layout, followed by anything that does not begin with one, the texts before the first close frame are delivered, and the rest is kept unless there was a close frame |
| `FrameLaw.LawfulRoundTrip` | scripts/ws-log-server.cjs:39-115 | bytes of such frames without a close frame, masked or not, with any form of length, cut into chunks anywhere, are delivered as exactly the payloads of the text frames |
| `FrameLaw.SentIsLawful` | scripts/ws-log-server.cjs:117-137 | what is sent is one unmasked text frame of that layout with the shortest of the three headers |
| `FrameLaw.MaskedHi` | scripts/ws-log-server.cjs:98-103 | a client frame of eight bytes that says hi under the key 1, 2, 3, 4 |
| `MoodMonitor.MoodScore` | extension/src/sidebar.js:2480-2491 | the weighted score lies between 0 and 1 |
| `MoodLaws.ScoreGains` | extension/src/sidebar.js:2480-2491 | within the ranges, raising the valence, the attention, the nod ratio or the greater speech ratio by d raises the mood by 0.2 d, 0.625 d, 0.2 d and 0.15 d |
| `MoodLaws.ScoreIsMonotone` | extension/src/sidebar.js:2480-2491 | the mood never falls when any input rises, also beyond the ranges |
| `MoodLaws.ScoreIsCutOff` | extension/src/sidebar.js:2483-2485 | beyond its range an input counts as the end of the range |
| `MoodLaws.ScoreEnds` | extension/src/sidebar.js:2480-2491 | the mood is 0 at the lowest inputs and 1 at the highest, one speaker being enough |
| `MoodLaws.ScoreOfLoudest` | extension/src/sidebar.js:2486 | only the greater speech ratio matters, whoever speaks |
| `MoodMonitor.Sidebar.StartMoodMonitor` | extension/src/sidebar.js:2448-2466 | resets every variable of the automaton |
| `MoodMonitor.Sidebar.StopMoodMonitor` | extension/src/sidebar.js:2468-2476 | closes the excursion and clears the history, and leaves everything else |
| `MoodMonitor.Sidebar.FinalizeExcursion` | extension/src/sidebar.js:2755-2772 | no excursion is open afterwards |
| `MoodMonitor.Sidebar.CaptureMoment` | extension/src/sidebar.js:2628-2680 | adds the moment; opens an excursion unless it is a nod |
| `MoodMonitor.Sidebar.UpdateWave` | extension/src/sidebar.js:2499-2527 | the two averages are updated in order and the rounded deviation joins the history |
| `MoodLaws.FirstTick` | extension/src/sidebar.js:2501-2503 | on the first tick both averages are the mood itself |
| `MoodLaws.StepResponse` | extension/src/sidebar.js:2501-2503 | n ticks after a jump from a resting mood to c the deviation is (c - rest) 343/330 (0.98^n - 0.65^n) |
| `MoodLaws.LogIgnoresLevel` | extension/src/sidebar.js:2493-2585 | in every life of the page, a mood that is higher by a constant throughout gives the same wave and the same triggers |
| `MoodLaws.MomentsSay` | extension/src/sidebar.js:2541-2585 | a captured moment has its tick's time; it is a rise for a mood at least 0.0795 above its baseline and a drop for one more than 0.0795 below, with the size of the deviation, or a nod for a ratio of 0.34 or more, with the ratio, to three decimals |
| `MoodMonitor.Sidebar.DropOldSamples` | extension/src/sidebar.js:2526-2527 | drops from the front until the oldest sample is within 60 s |
| `MoodMonitor.DropOldKeepsRest` | extension/src/sidebar.js:2526-2527 | what is dropped is the longest prefix of old samples, and never a fresh last one |
| `MoodMonitor.Sidebar.DetectMoodTrigger` | extension/src/sidebar.js:2557-2585 | re-arms, or fires through the four guards in their order |
| `MoodMonitor.Sidebar.DetectNodTrigger` | extension/src/sidebar.js:2542-2555 | holds the streak start and fires after 750 ms outside the cooldown |
| `MoodMonitor.Sidebar.UpdateMoodMonitor` | extension/src/sidebar.js:2493-2533 | one tick of the class is one step of the automaton, with the moments it captures |
| `MoodMonitor.StepIsTransition` | extension/src/sidebar.js:2542-2585 | what one tick does to arming, streak, cooldown stamps and excursion |
| `MoodMonitor.LogIsLinked` | extension/src/sidebar.js:2493-2585 | over every life of the page the state remembers the log since the latest start: latest triggers, unbroken streak, return to the baseline |
| `MoodMonitor.TriggerSafety` | extension/src/sidebar.js:2448-2585 | for every life of the page, with starts, ticks and stops in any order, the ticks since the latest start keep the rules: mood triggers 10 s apart with a tick below 0.048 between them, nod triggers 15 s apart, each after a held streak of 750 ms, no mood trigger in a streak or within 10 s after a nod, no nod within 750 ms after a mood trigger |
| `TriggerRules.FiresIffDue` | extension/src/sidebar.js:2493-2585 | in every life of the page under a clock that does not go back a tick fires the mood trigger if and only if the deviation is 0.08 or more, every earlier mood trigger is 10 s old with a tick below 0.048 since, every earlier nod trigger is 10 s old with no streak under way, and eight samples of the last minute have come since the latest stop; and the nod trigger if and only if an unbroken streak of 750 ms ends there and every earlier one is 15 s old |
| `TriggerRules.LifeIsRemembered` | extension/src/sidebar.js:2448-2585 | over every life of the page stamps, arming, streak and history are exactly what the log since the latest start says |
| `MoodMonitor.ExactUnlessCut` | extension/src/sidebar.js:2448-2476 | in every life of the page an open excursion is that of the latest mood trigger and the trigger is unarmed; that it is unarmed exactly while an excursion is open holds if and only if no stop has hit it unarmed without a start or a re-arming since |
| `MoodMonitor.ExactWithoutStop` | extension/src/sidebar.js:2564-2585 | without a stop since the latest start the trigger is unarmed exactly while an excursion is open |
| `MoodMonitor.StopCanBreakExactness` | extension/src/sidebar.js:2468-2476 | seven calm ticks, a jump and a stop: unarmed with no excursion open |
| `MoodMonitor.LifeInRange` | extension/src/sidebar.js:2501-2503 | over every life of the page both averages stay between 0 and 1 |
| `MoodMonitor.GapShrinks` | extension/src/sidebar.js:2501-2503 | under a constant mood c the larger distance of the averages from c shrinks to at most 0.993 of it per tick |
| `MoodMonitor.ReArms` | extension/src/sidebar.js:2501-2569 | from every unarmed state that a life of the page can reach, a constant mood re-arms the trigger within 534 ticks |
| `Nods.PitchRange` | extension/src/sidebar.js:1383-1387 | highest less lowest pitch of the inclusive range |
| `Nods.RangeIsAttained` | extension/src/sidebar.js:1383-1387 | the two are bounds of all pitches of the range and are attained |
| `Nods.FindTurns` | extension/src/sidebar.js:1332-1345 | the loop over the smoothed steps collects the turns |
| `Nods.TurnsAreAll` | extension/src/sidebar.js:1332-1345 | the turns collected are exactly the steps outside the deadband that reverse the last such step |
| `NodLaws.IsTurnIff` | extension/src/sidebar.js:1332-1345 | the head turns at a sample exactly when steps of 0.005 or more, one up and one down, have only smaller steps between them |
| `Nods.TurnsAscend` | extension/src/sidebar.js:1332-1345 | turns are in ascending order |
| `Nods.CountNods` | extension/src/sidebar.js:1347-1361 | the loop that skips a turn after each nod gives the count and the greatest amplitude |
| `Nods.DetectNodGesture` | extension/src/sidebar.js:1321-1368 | the whole detector, also for an unknown id and for fewer than five samples |
| `Nods.CountedAreDisjoint` | extension/src/sidebar.js:1350-1361 | the counted nods have no turn in common; the amplitude reported is the greatest of theirs |
| `Nods.CountIsGreatest` | extension/src/sidebar.js:1350-1361 | no choice of nods without a common turn has more of them than are counted |
| `Nods.TwoTurnsEach` | extension/src/sidebar.js:1350-1361 | twice the count is at most the number of turns |
| `Nods.NodsIffScore` | extension/src/sidebar.js:1363-1367 | a nod was counted exactly when the score is at least 0.4, and otherwise the score is 0; the score is between 0 and 1 |
| `NodLaws.NodsIffSwing` | extension/src/sidebar.js:1321-1368 | a nod is counted if and only if there are five samples and two neighbouring turns of the smoothed curve lie 120 ms or more apart with two pitches between them that differ by 0.04 or more |
| `NodLaws.ScoreIs` | extension/src/sidebar.js:1363-1367 | the score is ten times the amplitude to three decimals, up to 1 |
| `Nods.MeansOf` | extension/src/sidebar.js:1370-1381 | smoothing takes the mean of three neighbours, of two at the ends |
| `Nods.GestureIgnoresOffset` | extension/src/sidebar.js:1321-1387 | a constant added to all pitches, their negation and a shift in time leave the result as it is |
| `Nods.SmoothedRises` | extension/src/sidebar.js:1370-1381 | smoothing keeps a rising curve rising, also where the window is cut at the ends |
| `Nods.SteadyIsNoNod` | extension/src/sidebar.js:1321-1387 | a monotone history has no nods |
| `Tracker.Faces.constructor` | extension/src/sidebar.js:65-67 | no tracks, no histories, next id 1 |
| `Tracker.Nearest` | extension/src/sidebar.js:1075-1088 | no candidate is nearer than the one chosen, and one is chosen if there is any |
| `TrackerHistories.DistanceOfMoved` | extension/src/sidebar.js:1108-1114 | boxes whose centres differ by dx and dy, of any sizes, are at squared distance dx^2 + dy^2 |
| `Tracker.Faces.FindClosestTrack` | extension/src/sidebar.js:1075-1090 | the loop finds the first nearest candidate, if it is within 0.18 |
| `Tracker.Faces.UpsertTrack` | extension/src/sidebar.js:1092-1106 | replaces the track with the id in place, or appends one |
| `Tracker.Faces.AssignFace` | extension/src/sidebar.js:1056-1068 | one face takes a matching track or a new id, and leaves the unmatched set without it |
| `Tracker.Faces.DropStale` | extension/src/sidebar.js:1070 | keeps, in order, the tracks seen within 5 s |
| `Tracker.Faces.UpdateTracks` | extension/src/sidebar.js:1051-1073 | one call: all faces, the stale tracks, the histories |
| `Tracker.Faces.UpdateGestureHistory` | extension/src/sidebar.js:1134-1148 | pushes each measured pitch and trims that history to 3.5 s |
| `Tracker.Faces.PruneTrackHistory` | extension/src/sidebar.js:1150-1166 | drops histories of dead tracks and empty ones, trims the others |
| `Tracker.Faces.Clear` | extension/src/sidebar.js:424-425 | forgets tracks and histories but not the next id |
| `Tracker.Faces.Restart` | extension/src/sidebar.js:493-495 | forgets everything |
| `TrackerRuns.MatchIsNearest` | extension/src/sidebar.js:1075-1090 | a match is the nearest candidate within 0.18; without a match no candidate is within 0.18 |
| `TrackerRuns.AssignedInv` | extension/src/sidebar.js:1051-1068 | after any number of faces of a frame: ids distinct and below the next id, unmatched are exactly the old tracks no face has taken, each face's track carries its box |
| `TrackerRuns.FacesHaveOwnTracks` | extension/src/sidebar.js:1051-1073 | no two faces of a frame get the same id, and each face's track is live and has its box |
| `TrackerRuns.IdsAreNearest` | extension/src/sidebar.js:1056-1090 | an id is reused for the nearest still unmatched track within 0.18, or else is one never used; exactly one of the two |
| `TrackerRuns.IdsAreKept` | extension/src/sidebar.js:1051-1090 | when every face is near a track of its own, nearer than to any other, each gets that track's id, whatever the order of the faces |
| `TrackerRuns.UpdateKeepsTracks` | extension/src/sidebar.js:1051-1073 | a call keeps ids distinct and below the next id, which does not go down, and leaves only tracks seen within 5 s |
| `TrackerHistories.TracksAfterIff` | extension/src/sidebar.js:1051-1073 | the tracks after a frame are exactly those of its faces, each moved to its face, and those that no face took and that were seen less than 5 s ago, unchanged |
| `TrackerHistories.NewIdsAreNext` | extension/src/sidebar.js:1056-1058 | new ids are handed out one after the other from the next id on, and none is skipped |
| `TrackerHistories.PrunedIff` | extension/src/sidebar.js:1150-1166 | after pruning, a pitch is in the history of an id if and only if the id is live, the pitch was there before and it is at most 3500 ms old |
| `TrackerHistories.PushedIff` | extension/src/sidebar.js:1134-1148 | after recording, a pitch is in the history of an id if and only if it was measured now for it, or was there before and, where one was measured, is at most 3500 ms old |
| `TrackerHistories.HistoryHolds` | extension/src/sidebar.js:1051-1166 | after every run, the history of an id holds a pitch if and only if a frame recorded it for that id and since then there was no stop or new file, the track stayed live and every trim found the pitch at most 3500 ms old |
| `TrackerHistories.HistoryIsEnd` | extension/src/sidebar.js:1051-1166 | over every run whose clock does not go back, the history of an id is the end of the list of all pitches recorded for it since the latest stop or new file |
| `TrackerRuns.PruneKeepsHistories` | extension/src/sidebar.js:1150-1166 | after pruning every history belongs to a live track, is in order and has no sample older than 3.5 s |
| `TrackerRuns.PushKeepsHistories` | extension/src/sidebar.js:1134-1148 | pushing keeps histories in order, of live tracks, and within a span of 3.5 s |
| `TrackerRuns.RunKeepsInv` | extension/src/sidebar.js:1051-1166 | all of this over every run of frames, stops and new files |
| `TrackerRuns.NextIdGrows` | extension/src/sidebar.js:424-495 | until a new file is opened ids are never handed out again |
| `GridTiles.FindGaps` | extension/src/sidebar.js:602-624 | the scanning loop, also for a band that reaches the end |
| `GridTiles.GapIffRun` | extension/src/sidebar.js:602-624 | the gaps are exactly the maximal dark runs of two pixels or more |
| `GridTiles.GapsAreOrdered` | extension/src/sidebar.js:602-624 | gaps are in order and do not touch |
| `GridTiles.GapsToEdges` | extension/src/sidebar.js:630-640 | 0, the kept middles, the length |
| `GridTiles.EdgesSpanIff` | extension/src/sidebar.js:630-640 | edges strictly ascend from 0 to the length if and only if the length is positive |
| `GridTiles.InnerEdgeIsInGap` | extension/src/sidebar.js:630-640 | the inner edges are exactly the kept middles, and each lies strictly inside its gap |
| `GridTiles.DetectGridTiles` | extension/src/sidebar.js:574-668 | the whole detector, given the brightness of rows and columns |
| `GridTiles.CutTiles` | extension/src/sidebar.js:648-665 | the two loops skip small cells and number the tiles |
| `GridTiles.CellsPartition` | extension/src/sidebar.js:648-660 | before the size filter every pixel of the frame is in exactly one cell |
| `GridTiles.TileIsCell` | extension/src/sidebar.js:648-665 | every tile is a large cell, numbered by its position |
| `GridTiles.CellIsTile` | extension/src/sidebar.js:648-665 | every large cell is a tile |
| `GridTiles.TilesDoNotOverlap` | extension/src/sidebar.js:648-665 | two tiles have no pixel in common |
| `GridTiles.PixelInTileIff` | extension/src/sidebar.js:645-665 | a pixel is in a tile if and only if there is a grid and its row and column strips are at least 50 wide |
| `GridTiles.DetectedEdgesSpan` | extension/src/sidebar.js:602-643 | the edges the detector works with span the frame, unless it is empty |
| `GridLaws.EdgeIff` | extension/src/sidebar.js:602-643 | an edge is 0, the length, or the middle of a maximal band of two or more positions darker than 55, more than 50 from either border; there is no other |
| `GridLaws.TileIff` | extension/src/sidebar.js:574-668 | a rectangle is a tile if and only if there is an inner edge, its sides are neighbouring edges, and it is at least 50 wide and high |
| `Pitch.MaxLag` | extension/src/sidebar.js:1526 | the longest lag leaves two samples, so that the table of correlations has room for its right neighbour |
| `PitchLaws.MinLagIs` | extension/src/sidebar.js:1525 | the shortest lag is the longest period of 400 Hz or more, and at least 2 |
| `PitchLaws.MaxLagIs` | extension/src/sidebar.js:1526 | the longest lag is the longest period of 70 Hz or more, or two less than the number of samples |
| `Pitch.ShiftedSum` | extension/src/sidebar.js:1536-1537 | the inner loop adds up the products of samples one lag apart |
| `PitchLaws.SampleGain` | extension/src/sidebar.js:1535-1537 | raising one sample by d raises a sum of products by d times its neighbours one lag away; with silence at 0 this fixes the sums |
| `Pitch.Correlate` | extension/src/sidebar.js:1532-1545 | the loop over the lags fills the table and keeps the first highest positive value |
| `Pitch.Best` | extension/src/sidebar.js:1533-1545 | the lag kept has a value no other exceeds and no earlier one reaches; it is -1 only if no value is positive |
| `Pitch.DetectPitch` | extension/src/sidebar.js:1524-1557 | the whole estimator; every access to the table is in bounds |
| `Pitch.Tuned` | extension/src/sidebar.js:1555-1556 | what is reported is from 70 to 400 Hz |
| `Pitch.RefinedIsNear` | extension/src/sidebar.js:1549-1553 | the denominator of the parabola is positive, so never 0, and the refined lag is within half a sample of the best one |
| `PitchLaws.RefinedIsTop` | extension/src/sidebar.js:1549-1553 | the parabola through the best correlation and its two neighbours is nowhere higher than at the refined lag |
| `PitchLaws.TunedIs` | extension/src/sidebar.js:1555-1556 | there is no pitch exactly when the rate is less than 70 or more than 400 times the lag; otherwise h with (h - 0.5) lag <= rate < (h + 0.5) lag |
| `PitchLaws.VoicedIs` | extension/src/sidebar.js:1524-1557 | with a best lag of correlation 0.5 or more the result is the rate over that lag, refined within half a sample; a pitch for sure unless the lag is at a border of the range |
| `PitchLaws.UnvoicedIs` | extension/src/sidebar.js:1528-1547 | in silence, or without a correlation of 0.5 among the searched lags, there is no pitch |
| `PitchLaws.PeriodicIsVoiced` | extension/src/sidebar.js:1532-1547 | a signal with a period among the searched lags, and half of its energy before its last period, reaches the threshold |
| `Pitch.CorrelationIsNormalised` | extension/src/sidebar.js:1535-1539 | every normalised autocorrelation lies between -1 and 1 |
| `Pitch.SilenceIff` | extension/src/sidebar.js:1528-1530 | the energy is positive exactly when some sample is not 0 |
| `Pitch.PitchIgnoresGain` | extension/src/sidebar.js:1524-1557 | any gain, also a negative one, leaves the pitch as it is |
| `Pitch.PitchIgnoresDirection` | extension/src/sidebar.js:1524-1557 | a signal played backwards has the same pitch |
| `FeedbackCooldown.Session.Handle` | backend/internal/realtime/realtime.go:126-176 | check, pack, decide, set, emit, against any interference and failures: from every reachable state it sends if and only if the check and the pack succeed, the write is acknowledged and every earlier write is 30 s old at the check, and a failed check changes nothing; what is sent is its own write |
| `FeedbackCooldown.StepKeepsInv` | backend/internal/realtime/realtime.go:278-373 | every step of every actor keeps the key, the spans and the waiting actors consistent |
| `FeedbackCooldown.CheckPassesIff` | backend/internal/redis/client.go:423-435 | after every run an idle actor that checks goes on if and only if Redis answers and every write of the key so far, acknowledged or not, is at least 30 s old; otherwise nothing changes |
| `FeedbackCooldown.SpansAreWrites` | backend/internal/redis/client.go:423-425 | the recorded spans are the writes of the run, no more and no fewer |
| `FeedbackCooldown.NonOverlappingSpansAreSpaced` | backend/internal/realtime/realtime.go:126-176 | over all interleavings: two sets whose check-to-set spans do not overlap, and any two of one actor, are 30 s apart; each emission follows a successful set of its own |
| `FeedbackCooldown.PrecedesIffEarlier` | backend/internal/redis/client.go:423-435 | over all interleavings: a check saw a set if and only if the set was earlier than the check, and then it was 30 s earlier or more |
| `FeedbackCooldown.SpacedIff` | backend/internal/realtime/realtime.go:126-176 | over all interleavings: two sets of which the later took less than 30 s from its check are 30 s apart if and only if the earlier one was made before that check |
| `FeedbackCooldown.WindowHoldsOnePerActor` | backend/internal/gateway/gateway.go:271-284 | no half-open 30 s window holds more sets than actors, so two for one connection |
| `FeedbackCooldown.OverlappingSpansCanCoincide` | backend/internal/redis/client.go:423-435 | check and set are not atomic: two actors can both set and emit in the same millisecond |
| `SortedSets.LexTotal` | backend/internal/redis/client.go:262-279 | two different members are ordered one way by their bytes |
| `CacheLaws.LexIff` | backend/internal/redis/client.go:262-279 | members compare at the first byte where they differ, and a member comes before its continuations |
| `SortedSets.SortedUnique` | backend/internal/redis/client.go:286-304 | two sorted sets with the same entries are the same |
| `SortedSets.InsertedSorted` | backend/internal/redis/client.go:262-273 | an insertion keeps the set sorted and adds exactly the entry |
| `SortedSets.AddedSorted` | backend/internal/redis/client.go:262-273 | adding keeps the set sorted and leaves of other entries those of other members |
| `SortedSets.AddedOnce` | backend/internal/redis/client.go:262-273 | no member is ever in the set twice |
| `SortedSets.AddedIsInserted` | backend/internal/redis/client.go:262-273 | where the member fixes its score, adding moves nothing |
| `SortedSets.SortedSet.ZAdd` | backend/internal/redis/client.go:262-273 | a member that is there already is removed, and the entry inserted at its place |
| `SortedSets.SortedSet.ZRemRangeByScore` | backend/internal/redis/client.go:58-73 | entries with scores up to the bound are removed |
| `SortedSets.SortedSet.ZRangeByScore` | backend/internal/redis/client.go:286-304 | returns the entries from the bound on |
| `SortedSets.SortedSet.ZRemRangeByRank` | backend/internal/redis/client.go:375-390 | all but the greatest are removed |
| `SortedSets.SortedSet.ZRevRange` | backend/internal/redis/client.go:395-410 | returns the greatest entries, greatest first |
| `SortedSets.TopInserted` | backend/internal/redis/client.go:375-390 | trimming to the greatest entries before or after an insertion keeps the same ones |
| `RedisCache.Client.StoreRecentMoodWaveSample` | backend/internal/redis/client.go:262-279 | adds and trims by the sample's own time |
| `RedisCache.Client.GetRecentMoodWaveSamples` | backend/internal/redis/client.go:286-304 | reads by score |
| `RedisCache.Client.StoreRecentTranscript` | backend/internal/redis/client.go:58-73 | adds by start and trims by end |
| `RedisCache.Client.GetTranscriptWindow` | backend/internal/redis/client.go:100-118 | reads by score |
| `RedisCache.Client.StoreRecentFeedback` | backend/internal/redis/client.go:375-390 | adds and trims to ten |
| `RedisCache.Client.GetRecentFeedbackEvents` | backend/internal/redis/client.go:395-410 | reads the newest |
| `RedisCache.CacheSorted` | backend/internal/redis/client.go:58-73 | after any run of stores the key is sorted and holds each member once |
| `RedisCache.CacheHolds` | backend/internal/redis/client.go:262-279 | after any run of stores the key holds, sorted, exactly the entries that a store kept and no later trim removed |
| `RedisCache.ReadsAllIff` | backend/internal/redis/client.go:286-304 | a read gives what the whole history would if and only if no entry of its range was trimmed |
| `RedisCache.MoodReadsAllIff` | backend/internal/realtime/realtime.go:186-206 | for mood waves in order of time this is so if and only if nothing in range is ten minutes older than the latest |
| `RedisCache.MoodWindowsLoseNothing` | backend/internal/realtime/realtime.go:186-206 | the 30 s and the 300 s windows of the latest sample lose nothing |
| `RedisCache.PeriodicWindowToleratesLag` | backend/internal/realtime/realtime.go:295-302 | the periodic window loses nothing though samples up to five minutes newer have arrived |
| `RedisCache.TranscriptWindowLosesNothing` | backend/internal/realtime/realtime.go:187-204 | the 30 s transcript window loses nothing while every chunk ends less than 10 s past the trigger |
| `RedisCache.TranscriptReadsAllIff` | backend/internal/realtime/realtime.go:295-311 | a transcript read of any reach is complete if and only if no chunk in range starts 40 s or more before the end of itself or of a later one |
| `RedisCache.PeriodicTranscriptLoses` | backend/internal/realtime/realtime.go:295-311 | two 5 s chunks whose starts are 40 s apart: the periodic read misses the first |
| `RedisCache.LongChunkIsNeverRead` | backend/internal/redis/client.go:58-73 | a chunk of 40 s or more is trimmed by its own store |
| `RedisCache.NewestFeedbackIsExact` | backend/internal/redis/client.go:370-410 | after any run of stores the newest three of the trimmed key are the three greatest of all distinct events ever stored |
| `CacheLaws.NewestAreGreatest` | backend/internal/redis/client.go:370-410 | a read of up to ten returns that many of the distinct events stored, or all, from the greatest down, and every event left out comes before every one returned |
| `Window.Filter` | backend/internal/realtime/window.go:76-81 | keeps, in order, the samples of the window |
| `Window.SortByTime` | backend/internal/realtime/window.go:82 | the result is in order of time and has the same samples |
| `Window.Summarise` | backend/internal/realtime/window.go:86-147 | the loops compute the points, the summary and the quality of the sorted samples |
| `Window.Deviations` | backend/internal/realtime/window.go:116-119 | the second pass adds up the squared deviations |
| `Window.BuildWindow` | backend/internal/realtime/window.go:73-148 | filter, sort, summarise, for every input, the empty window included |
| `WindowLaws.WaveSpans` | backend/internal/realtime/window.go:73-148 | the wave starts at the level of an earliest sample of the window and ends at that of a latest; its slope is the rise over the seconds between them, 0 without any |
| `WindowLaws.PointsAreSamples` | backend/internal/realtime/window.go:76-94 | the points are those of the samples in the window, as many, in order of time |
| `WindowLaws.QualityGains` | backend/internal/realtime/window.go:142-145 | replacing one sample moves each average by the change of its value over the number of samples |
| `WindowLaws.QualityOfSame` | backend/internal/realtime/window.go:142-145 | the averages of equal samples are their values |
| `Window.MinMaxBound` | backend/internal/realtime/window.go:91-104 | minimum and maximum bound every sample and are attained |
| `Window.SummaryBounds` | backend/internal/realtime/window.go:90-141 | minimum, start, end, mean and maximum are in order; the square of the volatility is at most a quarter of the squared range |
| `Window.VolatilityAtMost` | backend/internal/realtime/window.go:116-123 | the volatility, as the root of the variance, is at most half the range |
| `Window.VarianceIsMeanOfSquares` | backend/internal/realtime/window.go:116-123 | the two-pass variance is the mean of the squares less the square of the mean |
| `WindowLaws.VarianceIsPairs` | backend/internal/realtime/window.go:116-123 | the variance times the square of the count is the sum of the squared differences of all pairs |
| `Window.SortIsUnique` | backend/internal/realtime/window.go:82 | sorting samples with distinct times has one result |
| `Window.WindowIgnoresOrder` | backend/internal/realtime/window.go:73-148 | the window does not depend on the order in which samples with distinct times arrive |
| `Window.NegatedWave` | backend/internal/realtime/window.go:90-141 | turning the wave upside down swaps declined and improved, minimum and maximum, and keeps the variance |
| `Evidence.CacheWindowIsHistoryWindow` | backend/internal/realtime/realtime.go:186-193 | for every window less than ten minutes long the samples filtered from the trimmed key are those filtered from every sample ever stored |
| `Evidence.CacheWaveIsHistoryWave` | backend/internal/realtime/realtime.go:186-193 | for samples with distinct times the wave built from the trimmed key is the one built from every sample ever stored |
| `Evidence.FallbackFollowsTrend` | backend/internal/realtime/realtime.go:380-413 | the fallback says down, up or on track exactly as the rise over the window lies below, above or within the deadband per second, with the severity and the reasons that go with it |
| `Evidence.FallbackWithoutSpan` | backend/internal/realtime/realtime.go:380-413 | without a sample, or with samples of one time alone, it says on track |
| `Evidence.OppositeWaveOppositeFeedback` | backend/internal/realtime/realtime.go:380-413 | the opposite wave gets the opposite feedback |
| `Jsonl.ReadAll` | backend/internal/writer/gcs_store.go:124-137 | the byte scanner returns the lines of the object |
| `Jsonl.ReadIff` | backend/internal/writer/gcs_store.go:124-137 | a line is read if and only if the bytes hold it between two newlines, or the start and a newline, and it is not empty |
| `Jsonl.AppendLine` | backend/internal/writer/gcs_store.go:64-104 | appending to whole lines adds exactly the line, at the end, to what is read back |
| `Jsonl.AppendReadRoundTrip` | backend/internal/writer/gcs_store.go:64-138 | for any payloads appended the reader returns exactly them, in order |
| `Jsonl.Scan` | backend/internal/writer/local_store.go:69-77 | one token of the scanner, without its newline and one carriage return, or too long |
| `Jsonl.LocalReadAll` | backend/internal/writer/local_store.go:55-84 | the scanner loop returns the lines of the file, or fails |
| `Jsonl.LocalOkIff` | backend/internal/writer/local_store.go:55-84 | the local reader succeeds if and only if every line, and what follows the last newline, is shorter than its buffer |
| `Jsonl.LocalReadIff` | backend/internal/writer/local_store.go:55-84 | and then returns exactly the lines and the rest, each less one carriage return, that are not empty |
| `Jsonl.BackendsAgreeIff` | backend/internal/writer/local_store.go:55-84 | on newline-terminated content both readers agree if and only if no line ends in a carriage return or exceeds the scanner's buffer |
| `Jsonl.CutOffBackendsAgreeIff` | backend/internal/writer/local_store.go:55-84 | on all content without a line that is a lone carriage return, cut off anywhere, both readers agree if and only if no line ends in a carriage return or exceeds the buffer and nothing but perhaps a carriage return follows the last newline |
| `Jsonl.CutOffLineDiffers` | backend/internal/writer/gcs_store.go:124-137 | after lines both read alike, the local reader adds the cut-off last line and the other drops it, so they agree exactly on terminated content |
| `Jsonl.RestIsAdded` | backend/internal/writer/local_store.go:69-82 | after such lines the local reader adds what follows the last newline, less one carriage return, or fails on it |
| `Jsonl.LoneReturnsCanAgree` | backend/internal/writer/local_store.go:69-82 | three lines of carriage returns, the last cut off, that both readers read alike by accident |
| `DurableWriter.Deployment.EnsureSessionRow` | backend/internal/writer/transcript_store.go:26-33 | adds the session, idempotently, or fails |
| `DurableWriter.Deployment.Insert` | backend/internal/writer/transcript_store.go:38-116 | adds the row unless its event id has one, or fails, also for a missing session |
| `DurableWriter.Deployment.WriteStaging` | backend/internal/writer/gcs_store.go:75-83 | writes the staged object, or junk, or nothing |
| `DurableWriter.Deployment.CopyOrCompose` | backend/internal/writer/gcs_store.go:86-103 | copies the staged object to a new target or composes it onto an existing one |
| `DurableWriter.Deployment.AppendLineTo` | backend/internal/writer/gcs_store.go:64-104 | stage, look, copy or compose, delete, with every failure in between |
| `DurableWriter.Deployment.WriteEvent` | backend/cmd/writer/main.go:193-247 | writes the sample, the triggers, the feedbacks and the transcripts of an event, in stages, and stops at the first failure |
| `DurableWriter.Deployment.WriteRecords` | backend/cmd/writer/main.go:202-243 | the loop over the records of one kind |
| `WriterOrder.WrittenInOrder` | backend/cmd/writer/main.go:193-247 | in any delivery, wherever it fails, an object of the triggers changes only after the sample is written, one of the feedbacks only after all triggers, one of the transcripts only after all feedbacks |
| `DurableWriter.Deployment.HandleEvent` | backend/cmd/writer/main.go:163-178 | acknowledges only after every record was written |
| `DurableWriter.Deployment.FetchUnacked` | backend/internal/db/local_events.go:58-81 | the oldest unacknowledged events, up to the limit |
| `DurableWriter.Deployment.PollLocalEvents` | backend/cmd/writer/main.go:152-181 | one tick of the poll loop |
| `DurableWriter.AppendAllOrNothing` | backend/internal/writer/gcs_store.go:64-104 | wherever an append fails, the object is as before or has the whole line added; success means added |
| `DurableWriter.AppendKeepsSound` | backend/internal/writer/gcs_store.go:64-104 | objects stay whole lines of enqueued events, and nothing read before is lost |
| `DurableWriter.WriteItemKeepsSound` | backend/cmd/writer/main.go:193-247 | a record reported as written has its row and its line |
| `DurableWriter.DeliverKeepsSafe` | backend/cmd/writer/main.go:163-178 | a delivery or redelivery, failing anywhere, keeps the writer safe |
| `DurableWriter.WriterSafety` | backend/cmd/writer/main.go:152-247 | over every run: objects are whole newline-terminated lines of enqueued events, every acknowledged event has all its rows and each of its lines, no event id has two rows |
| `WriterRecords.AckedIsWritten` | backend/cmd/writer/main.go:152-247 | over every run, of an acknowledged event the sample and every trigger, feedback and transcript is, byte for byte between newlines, in its object, and all but the sample have their row |
| `WriterRecords.LinesAreParts` | backend/cmd/writer/main.go:152-247 | over every run, every line that is read back is the sample, a trigger, a feedback or a transcript of some queued event, in the object of its own session and kind |
| `WriterCounts.CopiesAtMostDelivered` | backend/cmd/writer/main.go:152-247 | over every run an object holds a line at most as many times as it was delivered, counted over the samples, triggers, feedbacks and transcripts of the delivered events |
| `WriterCounts.DeliverCopies` | backend/cmd/writer/main.go:163-180 | one delivery, failing anywhere, adds a line at most as often as the four parts of its event carry it, and exactly as often when it acknowledges |
| `WriterCounts.AppendCopies` | backend/internal/writer/gcs_store.go:64-104 | one append, failing anywhere, adds at most one copy of its own line, exactly one when it succeeds, and nothing to other objects |
| `WriterOrder.AppendCleansUp` | backend/internal/writer/gcs_store.go:64-104 | an append that staged its line ends with deleting it, also when looking or promoting failed |
| `DurableWriter.AckedRowIsOwn` | backend/internal/writer/transcript_store.go:38-116 | with unique event ids the row of an acknowledged record is its own |
| `DurableWriter.FairAppendIsLocal` | backend/internal/writer/local_store.go:27-48 | without failures an append is the local store's |
| `PollProgress.FetchedIff` | backend/internal/db/local_events.go:58-81 | an event is fetched exactly when fewer than the limit wait before it |
| `PollProgress.PoisonStarves` | backend/cmd/writer/main.go:152-181 | behind 50 undecodable events nothing is ever acknowledged, whatever comes |
| `PollProgress.FairPollAdvances` | backend/cmd/writer/main.go:152-181 | with fewer, a poll without failures acknowledges a waiting event up to any decodable one |
| `PollProgress.FairPollsReach` | backend/cmd/writer/main.go:152-181 | whatever is queued, pushed or fails in between, each poll without failures brings a decodable event behind fewer than 50 undecodable ones closer to its turn |
| `PollProgress.AckedEventuallyIff` | backend/cmd/writer/main.go:152-181 | a decodable event is acknowledged in every run of the poll loop with enough polls without failures, among any failing polls and new events, if and only if fewer than 50 undecodable ones were queued before it |
| `Transcripts.Connection.HandleAudioChunk` | backend/internal/gateway/gateway.go:354-385 | one audio message moves the speaker's accumulator and may flush a chunk |
| `Transcripts.CutIsTiling` | backend/internal/gateway/gateway.go:370-385 | a speaker's chunks are contiguous from the first arrival, each at least 5 s and ending with an arrival; what is not flushed is less than 5 s |
| `Transcripts.FlushIff` | backend/internal/gateway/gateway.go:370-385 | an arrival ends a chunk exactly when it comes 5 s or more after the last flush, or after the first arrival |
| `Transcripts.FlushedUpToNow` | backend/internal/gateway/gateway.go:370-385 | with arrivals in order the last flush is between the first and the latest arrival |
| `Transcripts.CutTilesOnce` | backend/internal/gateway/gateway.go:370-385 | a moment is in exactly one chunk if it is between first arrival and last flush, and else in none |
| `Transcripts.SpeakersAreIndependent` | backend/internal/gateway/gateway.go:354-385 | however speakers interleave, what is persisted for one is the tiling of its own arrivals; for the empty speaker nothing is |
| `Transcripts.ConsumeSTTResults` | backend/internal/gateway/gateway.go:445-463 | one chunk per result, contiguous from the start of the stream |
| `Transcripts.ResultsTileOnce` | backend/internal/gateway/gateway.go:445-463 | they cover the time from the start of the stream to the last result, once |
| `Pdf.NoMarkersLeft` | backend/internal/pdf/pdf.go:91-93 | no pair of stars is left, not even one that the removal of others makes |
| `PdfLaws.RunsLeaveParity` | backend/internal/pdf/pdf.go:91-93 | of a run of stars one is left if their number is odd, none if it is even |
| `PdfLaws.StripSplits` | backend/internal/pdf/pdf.go:91-93 | stripping works separately on parts that no run of stars joins |
| `PdfLaws.PlainIsKept` | backend/internal/pdf/pdf.go:91-93 | text without two stars in a row is left as it is |
| `PdfLaws.StyledByPrefix` | backend/internal/pdf/pdf.go:72-89 | a line with one of the seven prefixes has that prefix's style and says what follows it, without bold markers |
| `PdfLaws.StyledAsBody` | backend/internal/pdf/pdf.go:87-88 | any other line is body text, all of it |
| `Pdf.WrapLine` | backend/internal/pdf/pdf.go:173-198 | the loop returns the greedy pieces, or the error of the first rune that cannot be measured |
| `Pdf.WrapIsLossless` | backend/internal/pdf/pdf.go:165-198 | the pieces join to the text |
| `Pdf.WrapIsOptimal` | backend/internal/pdf/pdf.go:165-198 | the pieces are cut where each fits the width or is a single rune, and no such split has fewer; the empty text is one empty piece |
| `Greedy.GreedyIsOptimal` | backend/internal/pdf/pdf.go:165-198 | no split into fitting pieces has fewer pieces than greedy filling |
| `Greedy.EndFits` | backend/internal/pdf/pdf.go:165-198 | every greedy piece fits the limit or is a single item |
| `Pdf.PlacePieces` | backend/internal/pdf/pdf.go:139-155 | the inner loop places the pieces of a line |
| `Pdf.RenderLine` | backend/internal/pdf/pdf.go:111-155 | one line: style, marker, wrapping, placement, or the first error |
| `PdfLaws.RowsKeepMargins` | backend/internal/pdf/pdf.go:111-155 | every row of a line starts right of left margin, indent and marker, ends left of the right margin unless it is one rune, and has the line's height; the marker stands before the first row alone |
| `Pdf.Render` | backend/internal/pdf/pdf.go:99-156 | title, blank line and all lines, or the first error |
| `Pdf.PlacementIsSound` | backend/internal/pdf/pdf.go:139-155 | every piece is placed in order, within the margins, right below the one before it, or at the top of the next page exactly when it would not have fitted |
| `Pdf.RowsOfLinesFit` | backend/internal/pdf/pdf.go:72-89 | every piece of a document is lower than a page that holds a first-level heading |
| `Pdf.PagesAreFewest` | backend/internal/pdf/pdf.go:139-155 | no way of cutting the pieces into pages that hold them uses fewer pages |
| `Pdf.EveryCharacterIsPlaced` | backend/internal/pdf/pdf.go:110-156 | the placed texts join to the contents of all lines, in order, without prefixes and bold markers |
| `PdfLaws.DocumentSays` | backend/internal/pdf/pdf.go:99-156 | a rendered report says its title and then its lines, each without prefix and bold markers, in order |

## Left out

- Floating-point and Float32 rounding: reals are exact, and only the explicit rounding to three decimals, to whole Hz and to whole pixels is modelled.
- Window.Summarise: gives the variance and not its square root, the volatility; `VolatilityAtMost` is about any root.
- Window.BuildWindow: likewise.
- Window.SortByTime: the standard library's sort in place is modelled as insertion into a new sequence; ties may come in any order.
- Tracker.Nearest: compares squared distances with the square of 0.18 instead of taking a square root.
- GridTiles.DetectGridTiles: takes the brightness of rows and columns as functions; averaging the pixels is not modelled.
- Pitch.DetectPitch: is not told the loudness; the gate on the root mean square before the call is not modelled.
- Pdf.Render: page size and text measurement are parameters, and drawing and serialising the document never fail; `WrapIsOptimal` and `PagesAreFewest` need widths and heights that are not negative.
- MoodMonitor.Sidebar.FinalizeExcursion: the duration of the excursion and the event that reports it are not modelled.
- MoodMonitor.Sidebar.UpdateWave: the averages of the attention wave and the timeline are not modelled.
- MoodMonitor.Sidebar.CaptureMoment: the snapshot, the cap on the list of moments and the message to the backend are not modelled.
- DurableWriter.WriterSafety: one writer at a time, as the store's own comment demands; queueing an event is one step, and junk left by a torn write stays under the staging path of its own event.
- DurableWriter.FairAppendIsLocal: a torn write to the local file is not modelled.
- RedisCache.CacheHolds: the one-hour expiry of the keys is not modelled; what is stored encodes its own time, so that a member fixes its score.
- RedisCache.Client.StoreRecentMoodWaveSample: does not set the expiry, nor the field that holds the latest sample.
- RedisCache.Client.StoreRecentTranscript: does not set the expiry.
- RedisCache.Client.StoreRecentFeedback: does not set the expiry.
- DurableWriter.Deployment.FetchUnacked: one topic, and every event is available at once.
- Frames.Connection.OnData: the acknowledgement that the server sends for each text is not modelled.
- Pdf.RenderLine: setting the font size and drawing never fail; measuring may.
- FeedbackCooldown.Session.Handle: the generator is any decision, with a cooldown of 30 s; what it says, and the evidence it sees, are not modelled here.
- Transcripts.ConsumeSTTResults: one stream; the time between the last result of a stream and the start of the one that replaces it is in no chunk.
- JSON, UTF-8 and base64: payloads are opaque, and encoders write no newline.
- The attention wave and the timeline of the sidebar, the report assembly, image analysis, the speech stream and the media handlers: each is one pass with no interplay.
- Detection of faces, drawing, the browser's user interface, audio wiring and storage, calls of cloud services, and configuration.
