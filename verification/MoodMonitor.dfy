/**
 The sidebar's mood wave and its two triggers: hysteresis with arming for rises and
 drops, a held streak for nods, one cooldown each, and suppression of the first by the second.
 */
module MoodMonitor {
  import opened Numeric
  import opened Options

  const MOOD_WAVE_WINDOW_MS: int := 60000
  const MOOD_TRIGGER_DELTA: real := 0.08
  const MOOD_TRIGGER_REARM_RATIO: real := 0.6
  const NOD_TRIGGER_RATIO: real := 0.34
  const NOD_TRIGGER_MIN_MS: int := 750
  const NOD_TRIGGER_COOLDOWN_MS: int := 15000
  const MOOD_EMA_ALPHA: real := 0.35
  const MOOD_BASELINE_ALPHA: real := 0.02
  const MOOD_TRIGGER_COOLDOWN_MS: int := 10000
  const MOOD_TRIGGER_MIN_SAMPLES: nat := 8

  /** The features one tick reads; what is absent from the message reads as 0. */
  datatype Features = Features(calibrating: bool, valenceMean: real, attentionMean: real, nodRatio: real,
                               selfSpeech: real, otherSpeech: real)

  datatype Direction = Rise | Drop | Nod
  datatype Moment = Moment(t: int, direction: Direction, delta: real)
  datatype Sample = Sample(t: int, dev: real)

  datatype Monitor = Monitor(
    ema: Option<real>,
    baseline: Option<real>,
    history: seq<Sample>,
    lastMood: int,
    armed: bool,
    nodSince: Option<int>,
    lastNod: int,
    excursion: Option<int>)

  const STARTED := Monitor(None, None, [], 0, true, None, 0, None)

  function MoodScore(f: Features): (mood: real)
    ensures 0.0 <= mood <= 1.0
  {
    var valence := Clamp((f.valenceMean + 1.0) / 2.0, 0.0, 1.0);
    var attention := Clamp(0.5 + 2.5 * f.attentionMean, 0.0, 1.0);
    var nod := Clamp(f.nodRatio, 0.0, 1.0);
    var speech := Max(f.selfSpeech, f.otherSpeech);
    Clamp(0.4 * valence + 0.25 * attention + 0.2 * nod + 0.15 * speech, 0.0, 1.0)
  }

  /** One step of the two coupled exponential averages. */
  function Smoothed(m: Monitor, raw: real): (r: Monitor)
    ensures r.ema.Some? && r.baseline.Some?
  {
    var ema := if m.ema.None? then raw else m.ema.value + MOOD_EMA_ALPHA * (raw - m.ema.value);
    var baseline := if m.baseline.None? then ema
                    else m.baseline.value + MOOD_BASELINE_ALPHA * (ema - m.baseline.value);
    m.(ema := Some(ema), baseline := Some(baseline))
  }

  function DropOld(history: seq<Sample>, cutoff: int): seq<Sample> {
    if history == [] || history[0].t >= cutoff then history else DropOld(history[1..], cutoff)
  }

  /** Trimming drops the longest prefix of samples older than the cutoff, never a fresh last one. */
  lemma {:induction false} DropOldKeepsRest(history: seq<Sample>, cutoff: int)
    ensures var r := DropOld(history, cutoff); var n := |history| - |r|;
            && n >= 0 && r == history[n..]
            && (forall k :: 0 <= k < n ==> history[k].t < cutoff)
            && (r != [] ==> r[0].t >= cutoff)
            && (history != [] && history[|history| - 1].t >= cutoff ==> r != [])
  {
    if history != [] && history[0].t < cutoff {
      DropOldKeepsRest(history[1..], cutoff);
    }
  }

  function Pushed(history: seq<Sample>, now: int, dev: real): seq<Sample> {
    history + [Sample(now, dev)]
  }

  function Sampled(m: Monitor, now: int): (r: Monitor)
    requires m.ema.Some? && m.baseline.Some?
    ensures r.history != [] && r.history[|r.history| - 1] == Sample(now, Round3(m.ema.value - m.baseline.value))
  {
    var pushed := Pushed(m.history, now, Round3(m.ema.value - m.baseline.value));
    DropOldKeepsRest(pushed, now - MOOD_WAVE_WINDOW_MS);
    m.(history := DropOld(pushed, now - MOOD_WAVE_WINDOW_MS))
  }

  function NearBaseline(dev: real): bool {
    Abs(dev) < MOOD_TRIGGER_DELTA * MOOD_TRIGGER_REARM_RATIO
  }

  /** The mood trigger's decision on the latest sample. */
  function MoodDetected(m: Monitor, now: int): (Monitor, Option<Moment>)
    requires m.history != []
  {
    var dev := m.history[|m.history| - 1].dev;
    if !m.armed then
      if NearBaseline(dev) then (m.(armed := true, excursion := None), None) else (m, None)
    else if |m.history| < MOOD_TRIGGER_MIN_SAMPLES then (m, None)
    else if now - m.lastMood < MOOD_TRIGGER_COOLDOWN_MS then (m, None)
    else if Abs(dev) < MOOD_TRIGGER_DELTA then (m, None)
    else if m.nodSince.Some? || now - m.lastNod < MOOD_TRIGGER_COOLDOWN_MS then (m, None)
    else
      (m.(armed := false, lastMood := now, excursion := Some(now)),
       Some(Moment(now, if dev > 0.0 then Rise else Drop, Round3(Abs(dev)))))
  }

  function NodDetected(m: Monitor, now: int, ratio: real): (Monitor, Option<Moment>) {
    if ratio < NOD_TRIGGER_RATIO then (m.(nodSince := None), None)
    else
      var since := if m.nodSince.None? then now else m.nodSince.value;
      var held := m.(nodSince := Some(since));
      if now - since < NOD_TRIGGER_MIN_MS || now - m.lastNod < NOD_TRIGGER_COOLDOWN_MS then (held, None)
      else (held.(lastNod := now), Some(Moment(now, Nod, Round3(ratio))))
  }

  /** One analysis tick as the triggers see it. */
  datatype Tick = Tick(now: int, calibrating: bool, raw: real, ratio: real)

  function TickOf(f: Features, now: int): (t: Tick)
    ensures 0.0 <= t.raw <= 1.0
  {
    Tick(now, f.calibrating, MoodScore(f), f.nodRatio)
  }

  /** What one tick leaves behind: the new state and the moments captured, at most one of each kind. */
  datatype Stepped = Stepped(next: Monitor, mood: Option<Moment>, nod: Option<Moment>)

  function Step(m: Monitor, tick: Tick): (r: Stepped)
    ensures !tick.calibrating ==>
              r.next.history != [] && r.next.history[|r.next.history| - 1].t == tick.now
  {
    if tick.calibrating then Stepped(m, None, None)
    else
      var sampled := Sampled(Smoothed(m, tick.raw), tick.now);
      var (afterMood, mood) := MoodDetected(sampled, tick.now);
      var (afterNod, nod) := NodDetected(afterMood, tick.now, tick.ratio);
      Stepped(afterNod, mood, nod)
  }

  function Stopped(m: Monitor): Monitor {
    m.(excursion := None, history := [])
  }

  // ---------- the imperative code ----------

  function Captured(mood: Option<Moment>, nod: Option<Moment>): seq<Moment> {
    (if mood.Some? then [mood.value] else []) + (if nod.Some? then [nod.value] else [])
  }

  /** The script's module variables and the functions that update them; `moments` logs every capture. */
  class Sidebar {
    var moodEma: Option<real>
    var moodBaseline: Option<real>
    var moodHistory: seq<Sample>
    var lastMoodTriggerTs: int
    var moodTriggerArmed: bool
    var nodActiveSince: Option<int>
    var lastNodTriggerTs: int
    var activeExcursion: Option<int>
    var moments: seq<Moment>

    ghost function State(): Monitor
      reads this
    {
      Monitor(moodEma, moodBaseline, moodHistory, lastMoodTriggerTs, moodTriggerArmed,
              nodActiveSince, lastNodTriggerTs, activeExcursion)
    }

    method StartMoodMonitor()
      modifies this
      ensures State() == STARTED && moments == old(moments)
    {
      moodHistory, moodEma, moodBaseline := [], None, None;
      lastMoodTriggerTs, moodTriggerArmed := 0, true;
      nodActiveSince, lastNodTriggerTs, activeExcursion := None, 0, None;
    }

    method StopMoodMonitor()
      modifies this
      ensures State() == Stopped(old(State())) && moments == old(moments)
    {
      FinalizeExcursion();
      moodHistory := [];
    }

    method FinalizeExcursion()
      modifies this`activeExcursion
      ensures activeExcursion == None
    {
      if activeExcursion == None { return; }
      activeExcursion := None;
    }

    method CaptureMoment(moment: Moment)
      modifies this`moments, this`activeExcursion
      ensures moments == old(moments) + [moment]
      ensures activeExcursion == if moment.direction == Nod then old(activeExcursion) else Some(moment.t)
    {
      moments := moments + [moment];
      if moment.direction != Nod {
        activeExcursion := Some(moment.t);
      }
    }

    method UpdateMoodMonitor(f: Features, now: int)
      modifies this
      ensures var r := Step(old(State()), TickOf(f, now));
              State() == r.next && moments == old(moments) + Captured(r.mood, r.nod)
    {
      if f.calibrating { return; }
      UpdateWave(MoodScore(f), now);
      DetectMoodTrigger(now);
      DetectNodTrigger(now, f.nodRatio);
    }

    method UpdateWave(raw: real, now: int)
      modifies this
      ensures State() == Sampled(Smoothed(old(State()), raw), now) && moments == old(moments)
    {
      moodEma := if moodEma == None then Some(raw)
                 else Some(moodEma.value + MOOD_EMA_ALPHA * (raw - moodEma.value));
      moodBaseline := if moodBaseline == None then moodEma
                      else Some(moodBaseline.value + MOOD_BASELINE_ALPHA * (moodEma.value - moodBaseline.value));
      assert State() == Smoothed(old(State()), raw);
      PushSample(now);
    }

    method PushSample(now: int)
      requires moodEma != None && moodBaseline != None
      modifies this`moodHistory
      ensures State() == Sampled(old(State()), now)
    {
      moodHistory := Pushed(moodHistory, now, Round3(moodEma.value - moodBaseline.value));
      DropOldSamples(now - MOOD_WAVE_WINDOW_MS);
    }

    method DropOldSamples(cutoff: int)
      modifies this`moodHistory
      ensures moodHistory == DropOld(old(moodHistory), cutoff)
    {
      while moodHistory != [] && moodHistory[0].t < cutoff
        invariant DropOld(old(moodHistory), cutoff) == DropOld(moodHistory, cutoff)
        decreases |moodHistory|
      {
        moodHistory := moodHistory[1..];
      }
    }

    method DetectMoodTrigger(now: int)
      requires moodHistory != []
      modifies this
      ensures var r := MoodDetected(old(State()), now);
              State() == r.0 && moments == old(moments) + Captured(r.1, None)
    {
      var dev := moodHistory[|moodHistory| - 1].dev;
      if !moodTriggerArmed {
        if NearBaseline(dev) {
          moodTriggerArmed := true;
          FinalizeExcursion();
        }
        return;
      }
      if |moodHistory| < MOOD_TRIGGER_MIN_SAMPLES { return; }
      if now - lastMoodTriggerTs < MOOD_TRIGGER_COOLDOWN_MS { return; }
      if Abs(dev) < MOOD_TRIGGER_DELTA { return; }
      if nodActiveSince != None || now - lastNodTriggerTs < MOOD_TRIGGER_COOLDOWN_MS { return; }
      moodTriggerArmed := false;
      lastMoodTriggerTs := now;
      CaptureMoment(Moment(now, if dev > 0.0 then Rise else Drop, Round3(Abs(dev))));
    }

    method DetectNodTrigger(now: int, ratio: real)
      modifies this
      ensures var r := NodDetected(old(State()), now, ratio);
              State() == r.0 && moments == old(moments) + Captured(None, r.1)
    {
      if ratio < NOD_TRIGGER_RATIO {
        nodActiveSince := None;
        return;
      }
      if nodActiveSince == None { nodActiveSince := Some(now); }
      if now - nodActiveSince.value < NOD_TRIGGER_MIN_MS { return; }
      if now - lastNodTriggerTs < NOD_TRIGGER_COOLDOWN_MS { return; }
      lastNodTriggerTs := now;
      CaptureMoment(Moment(now, Nod, Round3(ratio)));
    }
  }

  // ---------- runs ----------

  /** What happens to a loaded page; an analysis that was under way can still end in a tick after a stop. */
  datatype Event = Start | Analysis(tick: Tick) | Stop

  function After(m: Monitor, e: Event): Monitor {
    match e
    case Start => STARTED
    case Analysis(tick) => Step(m, tick).next
    case Stop => Stopped(m)
  }

  /** The state after the first `n` events. */
  function Life(events: seq<Event>, n: nat): Monitor
    requires n <= |events|
  {
    if n == 0 then STARTED else After(Life(events, n - 1), events[n - 1])
  }

  ghost predicate ClockRuns(events: seq<Event>) {
    forall i, j :: 0 <= i < j < |events| && events[i].Analysis? && events[j].Analysis? ==>
      events[i].tick.now <= events[j].tick.now
  }

  /** The state after ticks alone. */
  function Run(m: Monitor, ticks: seq<Tick>): Monitor {
    if ticks == [] then m
    else Step(Run(m, ticks[..|ticks| - 1]), ticks[|ticks| - 1]).next
  }

  lemma RunSnoc(m: Monitor, ticks: seq<Tick>, k: nat)
    requires k < |ticks|
    ensures Run(m, ticks[..k + 1]) == Step(Run(m, ticks[..k]), ticks[k]).next
  {
    assert ticks[..k + 1][..k] == ticks[..k];
  }

  /** What a tick past calibration showed: its deviation, its nod ratio and the triggers that fired. */
  datatype Entry = Entry(t: int, dev: real, ratio: real, mood: bool, nod: bool)

  function EntryOf(m: Monitor, tick: Tick): (e: Entry)
    requires !tick.calibrating
    ensures e.t == tick.now
  {
    var r := Step(m, tick);
    Entry(tick.now, r.next.history[|r.next.history| - 1].dev, tick.ratio, r.mood.Some?, r.nod.Some?)
  }

  /** What the ticks since the latest start showed. */
  function Log(events: seq<Event>, n: nat): seq<Entry>
    requires n <= |events|
  {
    if n == 0 then []
    else match events[n - 1]
      case Start => []
      case Stop => Log(events, n - 1)
      case Analysis(tick) =>
        if tick.calibrating then Log(events, n - 1)
        else Log(events, n - 1) + [EntryOf(Life(events, n - 1), tick)]
  }

  predicate Nodding(e: Entry) {
    e.ratio >= 0.34
  }

  ghost predicate StreakFrom(log: seq<Entry>, i: int, j: int) {
    0 <= i <= j < |log| && forall k :: i <= k <= j ==> Nodding(log[k])
  }

  ghost predicate BackToBaseline(log: seq<Entry>, i: int, j: int) {
    exists k :: i < k < j && 0 <= k < |log| && -0.048 < log[k].dev < 0.048
  }

  /** Mood triggers are 10 s apart, with a return to the baseline between them. */
  ghost predicate MoodSpaced(log: seq<Entry>) {
    forall i, j :: 0 <= i < j < |log| && log[i].mood && log[j].mood ==>
      log[j].t - log[i].t >= MOOD_TRIGGER_COOLDOWN_MS && BackToBaseline(log, i, j)
  }

  /** Nod triggers are 15 s apart, each at the end of an unbroken streak of at least 750 ms. */
  ghost predicate NodSpaced(log: seq<Entry>) {
    && (forall i, j :: 0 <= i < j < |log| && log[i].nod && log[j].nod ==>
          log[j].t - log[i].t >= NOD_TRIGGER_COOLDOWN_MS)
    && (forall j :: 0 <= j < |log| && log[j].nod ==> EndsStreak(log, j))
  }

  /** The nods of an unbroken streak of at least 750 ms end at entry `j`. */
  ghost predicate EndsStreak(log: seq<Entry>, j: int)
    requires 0 <= j < |log|
  {
    exists i :: StreakFrom(log, i, j) && log[j].t - log[i].t >= NOD_TRIGGER_MIN_MS
  }

  /** No mood trigger inside a nod streak, nor within 10 s after a nod trigger. */
  ghost predicate MoodYields(log: seq<Entry>) {
    && (forall j :: 0 < j < |log| && log[j].mood ==> !Nodding(log[j - 1]))
    && (forall i, j :: 0 <= i < j < |log| && log[i].nod && log[j].mood ==>
          log[j].t - log[i].t >= MOOD_TRIGGER_COOLDOWN_MS)
  }

  /** A nod trigger comes at least 750 ms after every earlier mood trigger, and never on its tick. */
  ghost predicate NodAfterMood(log: seq<Entry>) {
    forall i, j :: 0 <= i <= j < |log| && log[i].mood && log[j].nod ==>
      log[j].t - log[i].t >= NOD_TRIGGER_MIN_MS
  }

  ghost predicate Safe(log: seq<Entry>) {
    MoodSpaced(log) && NodSpaced(log) && MoodYields(log) && NodAfterMood(log)
  }

  /** How the state remembers the log. */
  ghost predicate Linked(m: Monitor, log: seq<Entry>) {
    && (forall i :: 0 <= i < |log| && log[i].mood ==> log[i].t <= m.lastMood)
    && (forall i :: 0 <= i < |log| && log[i].nod ==> log[i].t <= m.lastNod)
    && (m.armed ==> forall i :: 0 <= i < |log| && log[i].mood ==> BackToBaseline(log, i, |log|))
    && (m.nodSince.None? <==> log == [] || !Nodding(log[|log| - 1]))
    && (m.nodSince.Some? ==> exists i :: StreakFrom(log, i, |log| - 1) && log[i].t == m.nodSince.value)
  }

  ghost predicate Ordered(log: seq<Entry>) {
    forall i, j :: 0 <= i < j < |log| ==> log[i].t <= log[j].t
  }

  /** No entry is later than `now` if no tick is. */
  lemma {:induction false} LogBefore(events: seq<Event>, n: nat, now: int)
    requires n <= |events| && forall k :: 0 <= k < n && events[k].Analysis? ==> events[k].tick.now <= now
    ensures forall i :: 0 <= i < |Log(events, n)| ==> Log(events, n)[i].t <= now
  {
    if n > 0 {
      LogBefore(events, n - 1, now);
    }
  }

  lemma {:induction false} LogIsOrdered(events: seq<Event>, n: nat)
    requires ClockRuns(events) && n <= |events|
    ensures Ordered(Log(events, n))
  {
    if n > 0 {
      LogIsOrdered(events, n - 1);
      if events[n - 1].Analysis? && !events[n - 1].tick.calibrating {
        LogBefore(events, n - 1, events[n - 1].tick.now);
        OrderedSnoc(Log(events, n - 1), EntryOf(Life(events, n - 1), events[n - 1].tick));
      }
    }
  }

  lemma OrderedSnoc(log: seq<Entry>, e: Entry)
    requires Ordered(log) && forall i :: 0 <= i < |log| ==> log[i].t <= e.t
    ensures Ordered(log + [e]) && forall i :: 0 <= i <= |log| ==> (log + [e])[i].t <= e.t
  {
  }

  /** What the trigger code promises of one step, read off the log entry. */
  ghost predicate Transition(m: Monitor, e: Entry, next: Monitor) {
    && (e.mood ==>
          && m.armed && !next.armed && m.nodSince.None?
          && e.t - m.lastMood >= MOOD_TRIGGER_COOLDOWN_MS && e.t - m.lastNod >= MOOD_TRIGGER_COOLDOWN_MS
          && next.lastMood == e.t && next.excursion == Some(e.t))
    && (!e.mood ==>
          && next.lastMood == m.lastMood
          && if !m.armed && NearBaseline(e.dev) then next.armed && next.excursion == None
             else next.armed == m.armed && next.excursion == m.excursion)
    && (Nodding(e) ==>
          next.nodSince == if m.nodSince.None? then Some(e.t) else m.nodSince)
    && (!Nodding(e) ==> next.nodSince == None && !e.nod)
    && (e.nod ==>
          && e.t - next.nodSince.value >= NOD_TRIGGER_MIN_MS
          && e.t - m.lastNod >= NOD_TRIGGER_COOLDOWN_MS && next.lastNod == e.t)
    && (!e.nod ==> next.lastNod == m.lastNod)
  }

  lemma StepIsTransition(m: Monitor, tick: Tick)
    requires !tick.calibrating
    ensures Transition(m, EntryOf(m, tick), Step(m, tick).next)
  {
  }

  lemma StartIsLinked()
    ensures Linked(STARTED, []) && Safe([])
  {
  }

  lemma StopIsLinked(m: Monitor, log: seq<Entry>)
    requires Linked(m, log)
    ensures Linked(Stopped(m), log)
  {
  }

  lemma {:induction false} LogIsLinked(events: seq<Event>, n: nat)
    requires ClockRuns(events) && n <= |events|
    ensures Linked(Life(events, n), Log(events, n)) && Safe(Log(events, n))
  {
    hide Linked, Safe, Step, EntryOf;
    StartIsLinked();
    if n > 0 {
      LogIsLinked(events, n - 1);
      var m, log := Life(events, n - 1), Log(events, n - 1);
      match events[n - 1]
      case Start =>
      case Stop => StopIsLinked(m, log);
      case Analysis(tick) =>
        if tick.calibrating {
          CalibratingIsIdle(m, tick);
        } else {
          LogIsOrdered(events, n);
          StepIsTransition(m, tick);
          TransitionIsLinked(m, log, EntryOf(m, tick), Step(m, tick).next);
        }
    }
  }

  lemma CalibratingIsIdle(m: Monitor, tick: Tick)
    requires tick.calibrating
    ensures Step(m, tick).next == m
  {
  }

  lemma TransitionIsLinked(m: Monitor, log: seq<Entry>, e: Entry, next: Monitor)
    requires Linked(m, log) && Safe(log) && Ordered(log + [e]) && Transition(m, e, next)
    ensures Linked(next, log + [e]) && Safe(log + [e])
  {
    MoodSpacedKept(m, log, e, next);
    MoodYieldsKept(m, log, e, next);
    ArmedKept(m, log, e, next);
    StreakLinked(m, log, e, next);
    NodSpacedKept(m, log, e, next);
    NodAfterMoodKept(m, log, e, next);
  }

  lemma BackToBaselineSnoc(log: seq<Entry>, e: Entry, i: int, j: int)
    requires BackToBaseline(log, i, j)
    ensures BackToBaseline(log + [e], i, j)
  {
    var k :| i < k < j && 0 <= k < |log| && -0.048 < log[k].dev < 0.048;
    assert (log + [e])[k] == log[k];
  }

  lemma MoodSpacedKept(m: Monitor, log: seq<Entry>, e: Entry, next: Monitor)
    requires Linked(m, log) && MoodSpaced(log) && Transition(m, e, next)
    ensures MoodSpaced(log + [e])
  {
    var log' := log + [e];
    forall i, j | 0 <= i < j < |log'| && log'[i].mood && log'[j].mood
      ensures log'[j].t - log'[i].t >= MOOD_TRIGGER_COOLDOWN_MS && BackToBaseline(log', i, j)
    {
      assert log'[i] == log[i];
      if j < |log| {
        assert log'[j] == log[j];
      }
      assert BackToBaseline(log, i, j);
      BackToBaselineSnoc(log, e, i, j);
    }
  }

  lemma MoodYieldsKept(m: Monitor, log: seq<Entry>, e: Entry, next: Monitor)
    requires Linked(m, log) && MoodYields(log) && Transition(m, e, next)
    ensures MoodYields(log + [e])
  {
  }

  lemma ArmedKept(m: Monitor, log: seq<Entry>, e: Entry, next: Monitor)
    requires Linked(m, log) && Transition(m, e, next)
    ensures next.armed ==>
              forall i :: 0 <= i <= |log| && (log + [e])[i].mood ==> BackToBaseline(log + [e], i, |log| + 1)
  {
    var log' := log + [e];
    if next.armed {
      forall i | 0 <= i <= |log| && log'[i].mood ensures BackToBaseline(log', i, |log'|) {
        if m.armed {
          assert BackToBaseline(log, i, |log|);
          BackToBaselineSnoc(log, e, i, |log|);
          var k :| i < k < |log| && 0 <= k < |log'| && -0.048 < log'[k].dev < 0.048;
          assert i < k < |log'|;
        } else {
          assert NearBaseline(log'[|log|].dev);
        }
      }
    }
  }

  lemma StreakLinked(m: Monitor, log: seq<Entry>, e: Entry, next: Monitor)
    requires Linked(m, log) && Transition(m, e, next)
    ensures next.nodSince.Some? ==>
              exists i :: StreakFrom(log + [e], i, |log|) && (log + [e])[i].t == next.nodSince.value
  {
    var log' := log + [e];
    if Nodding(e) {
      if m.nodSince.Some? {
        var i :| StreakFrom(log, i, |log| - 1) && log[i].t == m.nodSince.value;
        assert StreakFrom(log', i, |log|) && log'[i].t == next.nodSince.value;
      } else {
        assert StreakFrom(log', |log|, |log|) && log'[|log|].t == next.nodSince.value;
      }
    }
  }

  lemma NodSpacedKept(m: Monitor, log: seq<Entry>, e: Entry, next: Monitor)
    requires Linked(m, log) && NodSpaced(log) && Transition(m, e, next)
    ensures NodSpaced(log + [e])
  {
    hide Linked, Transition, EndsStreak;
    NodsApartKept(m, log, e, next);
    forall j | 0 <= j <= |log| && (log + [e])[j].nod ensures EndsStreak(log + [e], j) {
      if j < |log| {
        EndsStreakSnoc(log, e, j);
      } else {
        LastEndsStreak(m, log, e, next);
      }
    }
  }

  lemma NodsApartKept(m: Monitor, log: seq<Entry>, e: Entry, next: Monitor)
    requires Linked(m, log) && NodSpaced(log) && Transition(m, e, next)
    ensures forall i, j :: 0 <= i < j <= |log| && (log + [e])[i].nod && (log + [e])[j].nod ==>
              (log + [e])[j].t - (log + [e])[i].t >= NOD_TRIGGER_COOLDOWN_MS
  {
  }

  lemma EndsStreakSnoc(log: seq<Entry>, e: Entry, j: int)
    requires 0 <= j < |log| && EndsStreak(log, j)
    ensures EndsStreak(log + [e], j)
  {
    var i :| StreakFrom(log, i, j) && log[j].t - log[i].t >= NOD_TRIGGER_MIN_MS;
    assert StreakFrom(log + [e], i, j);
  }

  lemma LastEndsStreak(m: Monitor, log: seq<Entry>, e: Entry, next: Monitor)
    requires Linked(m, log) && Transition(m, e, next) && e.nod
    ensures EndsStreak(log + [e], |log|)
  {
    StreakLinked(m, log, e, next);
    var s :| StreakFrom(log + [e], s, |log|) && (log + [e])[s].t == next.nodSince.value;
  }

  lemma NodAfterMoodKept(m: Monitor, log: seq<Entry>, e: Entry, next: Monitor)
    requires Linked(m, log) && NodAfterMood(log) && Ordered(log + [e]) && Transition(m, e, next)
    requires MoodYields(log + [e])
    ensures NodAfterMood(log + [e])
  {
    if e.nod {
      StreakLinked(m, log, e, next);
      var s :| StreakFrom(log + [e], s, |log|) && (log + [e])[s].t == next.nodSince.value;
      MoodBeforeStreak(log + [e], s);
    }
  }

  lemma MoodBeforeStreak(log: seq<Entry>, s: int)
    requires MoodYields(log) && StreakFrom(log, s, |log| - 1) && Ordered(log)
    ensures forall i :: 0 <= i < |log| && log[i].mood ==> log[i].t <= log[s].t
  {
    forall i | s < i < |log| ensures !log[i].mood {
      assert Nodding(log[i - 1]);
    }
  }

  /**
   Trigger safety, for every life of the page under a clock that never goes back: the spacing and
   suppression rules hold of all ticks since the latest start, whatever stops come between them.
   */
  lemma TriggerSafety(events: seq<Event>, n: nat)
    requires ClockRuns(events) && n <= |events|
    ensures Safe(Log(events, n))
  {
    LogIsLinked(events, n);
  }

  // ---------- arming and excursions ----------

  /** A stop has come while the trigger was unarmed, and neither a start nor a re-arming has come since. */
  predicate Cut(events: seq<Event>, n: nat)
    requires n <= |events|
  {
    n > 0 &&
    match events[n - 1]
    case Start => false
    case Stop => Cut(events, n - 1) || !Life(events, n - 1).armed
    case Analysis(_) => Cut(events, n - 1) && !Life(events, n).armed
  }

  /** How one tick moves arming and excursion. */
  lemma StepArms(m: Monitor, tick: Tick)
    ensures var r := Step(m, tick).next;
            || (r.armed == m.armed && r.excursion == m.excursion && r.lastMood == m.lastMood)
            || (!m.armed && r.armed && r.excursion == None)
            || (m.armed && !r.armed && r.excursion == Some(r.lastMood))
  {
  }

  /**
   In every life of the page an open excursion is that of the latest mood trigger, and the trigger
   is unarmed. The converse, that an unarmed trigger has its excursion open, holds if and only if no
   stop has cut the excursion off: stopping closes it without re-arming.
   */
  lemma {:induction false} ExactUnlessCut(events: seq<Event>, n: nat)
    requires n <= |events|
    ensures var m := Life(events, n);
            && (m.excursion != None ==> !m.armed && m.excursion == Some(m.lastMood))
            && ((m.armed <==> m.excursion == None) <==> !Cut(events, n))
  {
    hide Step;
    if n > 0 {
      ExactUnlessCut(events, n - 1);
      if events[n - 1].Analysis? {
        StepArms(Life(events, n - 1), events[n - 1].tick);
      }
    }
  }

  /** Without a stop since the latest start, the trigger is unarmed exactly while an excursion is open. */
  lemma ExactWithoutStop(events: seq<Event>, start: nat, n: nat)
    requires start <= n <= |events| && (start == 0 || events[start - 1].Start?)
    requires forall k :: start <= k < n ==> !events[k].Stop?
    ensures var m := Life(events, n); m.armed <==> m.excursion == None
  {
    hide Life;
    ExactUnlessCut(events, n);
    NotCutWithoutStop(events, start, n);
  }

  lemma {:induction false} NotCutWithoutStop(events: seq<Event>, start: nat, n: nat)
    requires start <= n <= |events| && (start == 0 || events[start - 1].Start?)
    requires forall k :: start <= k < n ==> !events[k].Stop?
    ensures !Cut(events, n)
    decreases n
  {
    if start < n {
      NotCutWithoutStop(events, start, n - 1);
    }
  }

  const CALM := Tick(20000, false, 0.0, 0.0)

  /** After `n` calm ticks. */
  function CalmFor(n: nat): Monitor {
    if n == 0 then STARTED
    else STARTED.(ema := Some(0.0), baseline := Some(0.0), history := seq(n, _ => Sample(20000, 0.0)))
  }

  lemma CalmStep(n: nat)
    ensures Step(CalmFor(n), CALM).next == CalmFor(n + 1)
  {
    var m := CalmFor(n);
    assert Round3(0.0) == 0.0;
    assert Pushed(m.history, 20000, 0.0) == CalmFor(n + 1).history;
  }

  lemma {:induction false} CalmLife(events: seq<Event>, n: nat)
    requires n <= |events| && forall k :: 0 <= k < n ==> events[k] == Analysis(CALM)
    ensures Life(events, n) == CalmFor(n)
  {
    if n > 0 {
      CalmLife(events, n - 1);
      CalmStep(n - 1);
    }
  }

  lemma JumpStep()
    ensures !Step(CalmFor(7), CALM.(raw := 1.0)).next.armed
  {
    var m := CalmFor(7);
    var sampled := Sampled(Smoothed(m, 1.0), 20000);
    assert Round3(0.35 - 0.007) == 0.343;
    var pushed := Pushed(m.history, 20000, 0.343);
    assert pushed[0].t == 20000;
    assert sampled.history == pushed;
  }

  /** Seven calm ticks and a jump fire the trigger; stopping then leaves it unarmed with no excursion open. */
  lemma StopCanBreakExactness()
    ensures var events := seq(7, _ => Analysis(CALM)) + [Analysis(CALM.(raw := 1.0)), Stop];
            var m := Life(events, 9);
            ClockRuns(events) && Cut(events, 9) && !m.armed && m.excursion == None
  {
    hide Step;
    var events := seq(7, _ => Analysis(CALM)) + [Analysis(CALM.(raw := 1.0)), Stop];
    CalmLife(events, 7);
    JumpStep();
    assert events[7] == Analysis(CALM.(raw := 1.0)) && events[8] == Stop;
    assert !Life(events, 8).armed;
    ExactUnlessCut(events, 9);
  }

  // ---------- re-arming ----------

  ghost predicate InRange(m: Monitor) {
    && (m.ema.Some? <==> m.baseline.Some?)
    && (m.ema.Some? ==> 0.0 <= m.ema.value <= 1.0 && 0.0 <= m.baseline.value <= 1.0)
    && (m.ema.None? ==> m.armed)
  }

  /** The raw moods are those `MoodScore` can give. */
  ghost predicate RawInRange(events: seq<Event>) {
    forall i :: 0 <= i < |events| && events[i].Analysis? ==> 0.0 <= events[i].tick.raw <= 1.0
  }

  lemma {:induction false} LifeInRange(events: seq<Event>, n: nat)
    requires RawInRange(events) && n <= |events|
    ensures InRange(Life(events, n))
  {
    if n > 0 {
      LifeInRange(events, n - 1);
      if events[n - 1].Analysis? {
        StepInRange(Life(events, n - 1), events[n - 1].tick);
      }
    }
  }

  lemma StepInRange(m: Monitor, tick: Tick)
    requires InRange(m) && 0.0 <= tick.raw <= 1.0
    ensures InRange(Step(m, tick).next)
  {
    if !tick.calibrating {
      SmoothedInRange(m, tick.raw);
      StepAverages(m, tick);
    }
  }

  lemma SmoothedInRange(m: Monitor, raw: real)
    requires InRange(m) && 0.0 <= raw <= 1.0
    ensures InRange(Smoothed(m, raw))
  {
  }

  lemma StepAverages(m: Monitor, tick: Tick)
    requires !tick.calibrating
    ensures var r, s := Step(m, tick).next, Smoothed(m, tick.raw);
            r.ema == s.ema && r.baseline == s.baseline
  {
  }

  /** Both averages are within `gap` of `c`. */
  ghost predicate Within(m: Monitor, c: real, gap: real) {
    && m.ema.Some? && m.baseline.Some?
    && Abs(m.ema.value - c) <= gap && Abs(m.baseline.value - c) <= gap
  }

  lemma GapShrinks(m: Monitor, c: real, gap: real)
    requires Within(m, c, gap)
    ensures Within(Smoothed(m, c), c, 0.993 * gap)
  {
    var r := Smoothed(m, c);
    var x, y := m.ema.value - c, m.baseline.value - c;
    assert r.ema.value - c == 0.65 * x;
    assert r.baseline.value - c == 0.98 * y + 0.013 * x;
  }

  function Decay(n: nat): real {
    if n == 0 then 1.0 else 0.993 * Decay(n - 1)
  }

  lemma {:induction false} DecaySum(m: nat, n: nat)
    ensures Decay(m + n) == Decay(m) * Decay(n)
  {
    if m > 0 {
      DecaySum(m - 1, n);
    }
  }

  lemma {:induction false} DecayPositive(n: nat)
    ensures 0.0 < Decay(n)
  {
    if n > 0 {
      DecayPositive(n - 1);
    }
  }

  lemma DecayDoubles(n: nat, bound: real)
    requires Decay(n) <= bound
    ensures Decay(2 * n) <= bound * bound
  {
    DecaySum(n, n);
    DecayPositive(n);
    var d := Decay(n);
    assert d * d <= bound * d <= bound * bound;
  }

  const REARM_TICKS: nat := 534

  lemma DecayAtTwo(n: nat)
    requires n == 2
    ensures Decay(n) <= 0.98605
  {
  }

  lemma DecayAtSixteen()
    ensures Decay(2) <= 0.98605 && Decay(4) <= 0.97230 && Decay(16) <= 0.89373
  {
    hide Decay;
    DecayAtTwo(2);
    DecayDoubles(2, 0.98605);
    DecayDoubles(4, 0.97230);
    DecayDoubles(8, 0.94537);
  }

  lemma DecayAtRearm()
    ensures 2.0 * Decay(REARM_TICKS) < 0.0475
  {
    hide Decay;
    DecayAtSixteen();
    DecayDoubles(16, 0.89373);
    DecayDoubles(32, 0.79876);
    DecayDoubles(64, 0.63802);
    DecayDoubles(128, 0.40708);
    DecayDoubles(256, 0.16572);
    DecayProduct(512, 16, 0.02747, 0.89373);
    DecayProduct(528, 4, 0.02456, 0.97230);
    DecayProduct(532, 2, 0.02388, 0.98605);
  }

  lemma DecayProduct(m: nat, n: nat, x: real, y: real)
    requires Decay(m) <= x && Decay(n) <= y
    ensures Decay(m + n) <= x * y
  {
    DecaySum(m, n);
    DecayPositive(m);
    DecayPositive(n);
    assert Decay(m) * Decay(n) <= x * Decay(n) <= x * y;
  }

  ghost predicate Constant(ticks: seq<Tick>, c: real) {
    forall i :: 0 <= i < |ticks| ==> !ticks[i].calibrating && ticks[i].raw == c
  }

  /** Under a constant mood the gap decays geometrically, whatever the triggers do. */
  lemma {:induction false} GapDecays(m: Monitor, ticks: seq<Tick>, c: real)
    requires Within(m, c, Decay(0)) && Constant(ticks, c)
    ensures Within(Run(m, ticks), c, Decay(|ticks|))
  {
    if ticks != [] {
      var before, last := ticks[..|ticks| - 1], ticks[|ticks| - 1];
      GapDecays(m, before, c);
      StepAverages(Run(m, before), last);
      GapShrinks(Run(m, before), c, Decay(|before|));
    }
  }

  lemma SmallDevIsNear(ema: real, baseline: real, c: real, gap: real)
    requires Abs(ema - c) <= gap && Abs(baseline - c) <= gap && 2.0 * gap < 0.0475
    ensures NearBaseline(Round3(ema - baseline))
  {
    var dev := ema - baseline;
    assert -0.0475 < dev < 0.0475;
    var n := (dev * 1000.0 + 0.5).Floor;
    assert -47.0 < dev * 1000.0 + 0.5 < 48.0;
    assert -47 <= n <= 47;
    assert Round3(dev) == n as real / 1000.0;
    assert -0.047 <= Round3(dev) <= 0.047;
  }

  lemma DecayStep(n: nat)
    ensures Decay(n + 1) == 0.993 * Decay(n)
  {
  }

  lemma LastTickReArms(m: Monitor, tick: Tick, c: real)
    requires !tick.calibrating && tick.raw == c && !m.armed
    requires Within(m, c, Decay(REARM_TICKS - 1))
    ensures Step(m, tick).next.armed
  {
    hide Step, Round3, NearBaseline, Decay;
    var s := Smoothed(m, c);
    DecayStep(REARM_TICKS - 1);
    GapShrinks(m, c, Decay(REARM_TICKS - 1));
    DecayAtRearm();
    SmallDevIsNear(s.ema.value, s.baseline.value, c, Decay(REARM_TICKS));
    NearReArms(m, tick);
  }

  lemma NearReArms(m: Monitor, tick: Tick)
    requires !tick.calibrating && !m.armed
    requires var s := Smoothed(m, tick.raw); NearBaseline(Round3(s.ema.value - s.baseline.value))
    ensures Step(m, tick).next.armed
  {
  }

  lemma GapStartsWithin(m: Monitor, c: real)
    requires InRange(m) && !m.armed && 0.0 <= c <= 1.0
    ensures Within(m, c, Decay(0))
  {
  }

  lemma ReArmsFrom(m: Monitor, after: seq<Tick>, c: real, n: nat)
    requires InRange(m) && !m.armed && 0.0 <= c <= 1.0
    requires n == REARM_TICKS == |after| && Constant(after, c)
    ensures exists k :: 0 < k <= n && Run(m, after[..k]).armed
  {
    hide InRange, Within, Step, Decay;
    var most, last := Run(m, after[..n - 1]), after[n - 1];
    if !most.armed {
      GapStartsWithin(m, c);
      GapDecays(m, after[..n - 1], c);
      LastTickReArms(most, last, c);
      RunSnoc(m, after, n - 1);
    }
  }

  /**
   Re-arming always happens: from every unarmed state that a life of the page can reach, a constant
   mood re-arms the trigger within `REARM_TICKS` ticks.
   */
  lemma ReArms(before: seq<Event>, after: seq<Tick>, c: real)
    requires RawInRange(before) && !Life(before, |before|).armed
    requires 0.0 <= c <= 1.0 && |after| == REARM_TICKS && Constant(after, c)
    ensures exists k :: 0 < k <= REARM_TICKS && Run(Life(before, |before|), after[..k]).armed
  {
    hide *;
    LifeInRange(before, |before|);
    ReArmsFrom(Life(before, |before|), after, c, REARM_TICKS);
  }
}
