/** When the two triggers fire, exactly, read off what the ticks since the latest start showed. */
module TriggerRules {
  import opened Numeric
  import opened Options
  import opened MoodMonitor

  /** How many entries of the log came before the latest stop. */
  function Epoch(events: seq<Event>, n: nat): (r: nat)
    requires n <= |events|
    ensures r <= |Log(events, n)|
  {
    if n == 0 then 0
    else match events[n - 1]
      case Start => 0
      case Stop => |Log(events, n - 1)|
      case Analysis(_) => Epoch(events, n - 1)
  }

  /**
   A mood trigger is due on entry `e` after `log`: the deviation is large, every earlier mood trigger is
   10 s old and the wave has been back at the baseline since, every earlier nod trigger is 10 s old and
   no nod streak is under way, and eight samples of the last minute have come since the latest stop.
   */
  ghost predicate MoodDue(log: seq<Entry>, epoch: nat, e: Entry) {
    && (e.dev >= 0.08 || e.dev <= -0.08)
    && Rested(log, e.t, 10000)
    && (forall i :: 0 <= i < |log| && log[i].mood ==> BackToBaseline(log, i, |log|))
    && (log == [] || !Nodding(log[|log| - 1]))
    && |log| >= epoch + 7 && log[|log| - 7].t >= e.t - 60000
  }

  /** The clock reads `ms` or more, and every trigger so far is at least that old. */
  ghost predicate Rested(log: seq<Entry>, now: int, ms: int) {
    MoodRested(log, now, ms) && NodRested(log, now, ms)
  }

  ghost predicate MoodRested(log: seq<Entry>, now: int, ms: int) {
    now >= ms && forall i :: 0 <= i < |log| && log[i].mood ==> now - log[i].t >= ms
  }

  ghost predicate NodRested(log: seq<Entry>, now: int, ms: int) {
    now >= ms && forall i :: 0 <= i < |log| && log[i].nod ==> now - log[i].t >= ms
  }

  /** A nod trigger is due: an unbroken streak of 750 ms ends here and every earlier nod trigger is 15 s old. */
  ghost predicate NodDue(log: seq<Entry>, e: Entry) {
    NodRested(log, e.t, 15000) && EndsStreak(log + [e], |log|)
  }

  // ---------- what the state remembers, exactly ----------

  ghost predicate MoodStamp(m: Monitor, log: seq<Entry>) {
    && m.lastMood >= 0
    && (forall i :: 0 <= i < |log| && log[i].mood ==> log[i].t <= m.lastMood)
    && (m.lastMood == 0 || exists i :: 0 <= i < |log| && log[i].mood && log[i].t == m.lastMood)
  }

  ghost predicate NodStamp(m: Monitor, log: seq<Entry>) {
    && m.lastNod >= 0
    && (forall i :: 0 <= i < |log| && log[i].nod ==> log[i].t <= m.lastNod)
    && (m.lastNod == 0 || exists i :: 0 <= i < |log| && log[i].nod && log[i].t == m.lastNod)
  }

  ghost predicate ArmedIff(m: Monitor, log: seq<Entry>) {
    m.armed <==> forall i :: 0 <= i < |log| && log[i].mood ==> BackToBaseline(log, i, |log|)
  }

  /** The streak under way starts where it says, and no earlier. */
  ghost predicate StreakIs(m: Monitor, log: seq<Entry>) {
    && (m.nodSince.None? <==> log == [] || !Nodding(log[|log| - 1]))
    && (m.nodSince.Some? ==>
          exists i :: StartsStreak(log, i, |log| - 1) && log[i].t == m.nodSince.value)
  }

  /** The streak that reaches entry `j` starts at entry `i`. */
  ghost predicate StartsStreak(log: seq<Entry>, i: int, j: int) {
    StreakFrom(log, i, j) && (i == 0 || !Nodding(log[i - 1]))
  }

  lemma NoEarlierStart(log: seq<Entry>, i: int, j: int, n: int)
    requires StreakFrom(log, j, n) && 0 <= i <= n && (i == 0 || !Nodding(log[i - 1]))
    ensures i <= j
  {
  }

  /** The history is the end of the log, cut off at the latest stop and one minute before the last entry. */
  ghost predicate HistoryIs(m: Monitor, log: seq<Entry>, epoch: nat) {
    var p := |log| - |m.history|;
    && epoch <= p
    && (forall k :: 0 <= k < |m.history| ==> m.history[k].t == log[p + k].t)
    && (forall k :: epoch <= k < p ==> log[k].t < log[|log| - 1].t - 60000)
  }

  ghost predicate Remembers(m: Monitor, log: seq<Entry>, epoch: nat) {
    MoodStamp(m, log) && NodStamp(m, log) && ArmedIff(m, log) && StreakIs(m, log) && HistoryIs(m, log, epoch)
  }

  lemma MoodRestedIff(m: Monitor, log: seq<Entry>, now: int, ms: int)
    requires MoodStamp(m, log)
    ensures now - m.lastMood >= ms <==> MoodRested(log, now, ms)
  {
  }

  lemma NodRestedIff(m: Monitor, log: seq<Entry>, now: int, ms: int)
    requires NodStamp(m, log)
    ensures now - m.lastNod >= ms <==> NodRested(log, now, ms)
  {
  }

  // ---------- one tick ----------

  /** The history after one tick, and when it holds eight samples. */
  lemma HistoryAfter(m: Monitor, log: seq<Entry>, epoch: nat, e: Entry, next: Monitor)
    requires HistoryIs(m, log, epoch) && Ordered(log + [e])
    requires next.history == DropOld(Pushed(m.history, e.t, e.dev), e.t - MOOD_WAVE_WINDOW_MS)
    ensures HistoryIs(next, log + [e], epoch)
    ensures |next.history| >= 8 <==> |log| >= epoch + 7 && log[|log| - 7].t >= e.t - 60000
  {
    var log', cutoff := log + [e], e.t - MOOD_WAVE_WINDOW_MS;
    var pushed := Pushed(m.history, e.t, e.dev);
    var p := |log| - |m.history|;
    DropOldKeepsRest(pushed, cutoff);
    hide DropOld;
    var n := |pushed| - |next.history|;
    assert forall k :: 0 <= k < |pushed| ==> pushed[k].t == log'[p + k].t;
    forall k | epoch <= k < p + n ensures log'[k].t < cutoff {
      if k < p {
        assert log'[k] == log[k] && log'[|log| - 1] == log[|log| - 1];
      } else {
        assert pushed[k - p].t < cutoff;
      }
    }
    assert next.history != [] && next.history[0].t == log'[p + n].t;
    if |log| >= epoch + 7 {
      assert log'[|log| - 7] == log[|log| - 7];
    }
  }

  /** The parts of one step. */
  lemma StepParts(m: Monitor, tick: Tick)
    requires !tick.calibrating
    ensures var e, r := EntryOf(m, tick), Step(m, tick);
            var sampled := Sampled(Smoothed(m, tick.raw), tick.now);
            && r.next.history == DropOld(Pushed(m.history, e.t, e.dev), e.t - MOOD_WAVE_WINDOW_MS) == sampled.history
            && sampled == m.(ema := sampled.ema, baseline := sampled.baseline, history := sampled.history)
            && sampled.history != [] && sampled.history[|sampled.history| - 1].dev == e.dev
            && e.ratio == tick.ratio && e.t == tick.now
            && (e.mood <==> MoodDetected(sampled, e.t).1.Some?)
            && (e.nod <==> NodDetected(MoodDetected(sampled, e.t).0, e.t, e.ratio).1.Some?)
  {
    hide Round3, DropOld, NearBaseline;
  }

  lemma MoodIff(m: Monitor, log: seq<Entry>, epoch: nat, tick: Tick)
    requires !tick.calibrating && Remembers(m, log, epoch) && Ordered(log + [EntryOf(m, tick)])
    ensures var e := EntryOf(m, tick); e.mood <==> MoodDue(log, epoch, e)
  {
    var e := EntryOf(m, tick);
    var sampled := Sampled(Smoothed(m, tick.raw), tick.now);
    StepParts(m, tick);
    HistoryAfter(m, log, epoch, e, sampled);
    MoodRestedIff(m, log, e.t, 10000);
    NodRestedIff(m, log, e.t, 10000);
    hide EntryOf, Sampled, Smoothed, DropOld, MoodStamp, NodStamp, HistoryIs, BackToBaseline, MoodRested, NodRested;
  }

  lemma NodIff(m: Monitor, log: seq<Entry>, epoch: nat, tick: Tick)
    requires !tick.calibrating && Remembers(m, log, epoch) && Ordered(log + [EntryOf(m, tick)])
    ensures var e := EntryOf(m, tick); e.nod <==> NodDue(log, e)
  {
    var e := EntryOf(m, tick);
    var sampled := Sampled(Smoothed(m, tick.raw), tick.now);
    StepParts(m, tick);
    NodRestedIff(m, log, e.t, 15000);
    StreakIff(m, log, e);
    hide EntryOf, Sampled, Smoothed, DropOld, Remembers, NodRested, EndsStreak;
    var since := if m.nodSince.None? then e.t else m.nodSince.value;
    assert e.nod <==> Nodding(e) && e.t - since >= 750 && e.t - m.lastNod >= 15000;
  }

  /** An unbroken streak of 750 ms ends at `e` exactly when the one under way is that old. */
  lemma StreakIff(m: Monitor, log: seq<Entry>, e: Entry)
    requires StreakIs(m, log) && Ordered(log + [e])
    ensures EndsStreak(log + [e], |log|) <==>
            Nodding(e) && e.t - (if m.nodSince.None? then e.t else m.nodSince.value) >= 750
  {
    var log' := log + [e];
    if Nodding(e) && m.nodSince.Some? {
      var i :| StartsStreak(log, i, |log| - 1) && log[i].t == m.nodSince.value;
      assert StreakFrom(log', i, |log|);
      if EndsStreak(log', |log|) {
        var j :| StreakFrom(log', j, |log|) && log'[|log|].t - log'[j].t >= NOD_TRIGGER_MIN_MS;
        NoEarlierStart(log', i, j, |log|);
        assert log'[i].t <= log'[j].t;
      } else {
        assert log'[|log|].t - log'[i].t < NOD_TRIGGER_MIN_MS;
      }
    } else if Nodding(e) {
      if EndsStreak(log', |log|) {
        var j :| StreakFrom(log', j, |log|) && log'[|log|].t - log'[j].t >= NOD_TRIGGER_MIN_MS;
        NoEarlierStart(log', |log|, j, |log|);
      }
    }
  }

  lemma BackAfter(log: seq<Entry>, e: Entry, i: int)
    requires 0 <= i <= |log|
    ensures BackToBaseline(log + [e], i, |log| + 1) <==> BackToBaseline(log, i, |log|) || (i < |log| && -0.048 < e.dev < 0.048)
  {
    var log' := log + [e];
    if BackToBaseline(log, i, |log|) {
      var k :| i < k < |log| && 0 <= k < |log| && -0.048 < log[k].dev < 0.048;
      assert log'[k] == log[k];
    }
    if BackToBaseline(log', i, |log| + 1) {
      var k :| i < k < |log| + 1 && 0 <= k < |log'| && -0.048 < log'[k].dev < 0.048;
      assert k < |log| ==> log'[k] == log[k];
    }
    assert log'[|log|] == e;
  }

  lemma ArmedAfter(m: Monitor, log: seq<Entry>, e: Entry, next: Monitor)
    requires ArmedIff(m, log) && Transition(m, e, next)
    ensures ArmedIff(next, log + [e])
  {
    var log' := log + [e];
    forall i | 0 <= i <= |log|
      ensures BackToBaseline(log', i, |log'|) <==> BackToBaseline(log, i, |log|) || (i < |log| && -0.048 < e.dev < 0.048)
    {
      BackAfter(log, e, i);
    }
    assert !BackToBaseline(log, |log|, |log|);
    hide BackToBaseline;
    assert forall i :: 0 <= i < |log| ==> log'[i] == log[i];
    assert log'[|log|] == e;
  }

  lemma StreakAfter(m: Monitor, log: seq<Entry>, e: Entry, next: Monitor)
    requires StreakIs(m, log) && Transition(m, e, next)
    ensures StreakIs(next, log + [e])
  {
    var log' := log + [e];
    if Nodding(e) {
      if m.nodSince.Some? {
        var i :| StartsStreak(log, i, |log| - 1) && log[i].t == m.nodSince.value;
        assert StartsStreak(log', i, |log|) && log'[i].t == next.nodSince.value;
      } else {
        assert StartsStreak(log', |log|, |log|) && log'[|log|].t == next.nodSince.value;
      }
    }
  }

  lemma MoodStampAfter(m: Monitor, log: seq<Entry>, e: Entry, next: Monitor)
    requires MoodStamp(m, log) && Transition(m, e, next)
    ensures MoodStamp(next, log + [e])
  {
    var log' := log + [e];
    if e.mood {
      assert log'[|log|].mood && log'[|log|].t == next.lastMood;
    } else if m.lastMood != 0 {
      var i :| 0 <= i < |log| && log[i].mood && log[i].t == m.lastMood;
      assert log'[i] == log[i];
    }
  }

  lemma NodStampAfter(m: Monitor, log: seq<Entry>, e: Entry, next: Monitor)
    requires NodStamp(m, log) && Transition(m, e, next)
    ensures NodStamp(next, log + [e])
  {
    var log' := log + [e];
    if e.nod {
      assert log'[|log|].nod && log'[|log|].t == next.lastNod;
    } else if m.lastNod != 0 {
      var i :| 0 <= i < |log| && log[i].nod && log[i].t == m.lastNod;
      assert log'[i] == log[i];
    }
  }

  lemma TickIsRemembered(m: Monitor, log: seq<Entry>, epoch: nat, tick: Tick)
    requires !tick.calibrating && Remembers(m, log, epoch) && Ordered(log + [EntryOf(m, tick)])
    ensures Remembers(Step(m, tick).next, log + [EntryOf(m, tick)], epoch)
  {
    var e, next := EntryOf(m, tick), Step(m, tick).next;
    StepIsTransition(m, tick);
    StepParts(m, tick);
    hide EntryOf, Step, Transition, MoodStamp, NodStamp, ArmedIff, StreakIs, HistoryIs, DropOld;
    MoodStampAfter(m, log, e, next);
    NodStampAfter(m, log, e, next);
    ArmedAfter(m, log, e, next);
    StreakAfter(m, log, e, next);
    HistoryAfter(m, log, epoch, e, next);
  }

  lemma StopIsRemembered(m: Monitor, log: seq<Entry>, epoch: nat)
    requires Remembers(m, log, epoch)
    ensures Remembers(Stopped(m), log, |log|)
  {
  }

  lemma StartIsRemembered()
    ensures Remembers(STARTED, [], 0)
  {
  }

  lemma {:induction false} LifeIsRemembered(events: seq<Event>, n: nat)
    requires ClockRuns(events) && n <= |events|
    ensures Remembers(Life(events, n), Log(events, n), Epoch(events, n))
  {
    hide Remembers, Step, EntryOf;
    StartIsRemembered();
    if n > 0 {
      LifeIsRemembered(events, n - 1);
      LogIsOrdered(events, n);
      var m, log, epoch := Life(events, n - 1), Log(events, n - 1), Epoch(events, n - 1);
      match events[n - 1]
      case Start =>
      case Stop => StopIsRemembered(m, log, epoch);
      case Analysis(tick) =>
        if tick.calibrating {
          CalibratingIsIdle(m, tick);
        } else {
          TickIsRemembered(m, log, epoch, tick);
        }
    }
  }

  /**
   The triggers, exactly: in every life of the page under a clock that never goes back, a tick past
   calibration fires the mood trigger if and only if it is due, and the nod trigger if and only if it is due.
   */
  lemma FiresIffDue(events: seq<Event>, n: nat)
    requires ClockRuns(events) && n < |events| && events[n].Analysis? && !events[n].tick.calibrating
    ensures var log, e := Log(events, n), EntryOf(Life(events, n), events[n].tick);
            && Log(events, n + 1) == log + [e]
            && (e.mood <==> MoodDue(log, Epoch(events, n), e))
            && (e.nod <==> NodDue(log, e))
  {
    hide Remembers, Step, EntryOf;
    var m, log := Life(events, n), Log(events, n);
    LifeIsRemembered(events, n);
    LogIsOrdered(events, n + 1);
    assert Log(events, n + 1) == log + [EntryOf(m, events[n].tick)];
    MoodIff(m, log, Epoch(events, n), events[n].tick);
    NodIff(m, log, Epoch(events, n), events[n].tick);
  }
}
