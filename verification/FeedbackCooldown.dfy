/**
 The realtime feedback protocol: several actors of one session (the read loop and the
 periodic goroutine of a connection) each check the cooldown key, build an evidence
 pack, decide, write the key and only then emit. Check and write are separate Redis
 commands, so the guarantees are over every interleaving of the actors' steps.
 */
module FeedbackCooldown {
  import opened Options

  const FEEDBACK_COOLDOWN_MS: int := 30000

  /** How a Redis write that the caller sees may end: a reported failure may have been applied. */
  datatype Outcome = Done | LostReply | NotApplied

  /** Where an actor is inside its handler; `seen` counts the key writes that precede its check. */
  datatype Phase =
    | Idle
    | Deciding(checkedAt: int, seen: nat)
    | Accepted(span: nat)

  /** One write of the cooldown key, with the check it followed. */
  datatype Span = Span(actor: nat, checkedAt: int, seen: nat, setAt: int, acknowledged: bool)

  datatype System = System(expiry: Option<int>, phases: map<nat, Phase>, spans: seq<Span>, emitted: seq<nat>)

  datatype Command = Check(ok: bool) | Abandon | SetCooldown(outcome: Outcome) | Emit
  datatype Action = Action(actor: nat, now: int, command: Command)

  const FRESH := System(None, map[], [], [])

  function PhaseOf(s: System, actor: nat): Phase {
    if actor in s.phases then s.phases[actor] else Idle
  }

  /** The key exists until it expires. */
  predicate InFeedbackCooldown(s: System, now: int) {
    s.expiry.Some? && now < s.expiry.value
  }

  /** The key is written and the write joins the history. */
  function AfterSet(s: System, actor: nat, p: Phase, now: int, acknowledged: bool): System
    requires p.Deciding?
  {
    s.(expiry := Some(now + FEEDBACK_COOLDOWN_MS),
       spans := s.spans + [Span(actor, p.checkedAt, p.seen, now, acknowledged)],
       phases := s.phases[actor := if acknowledged then Accepted(|s.spans|) else Idle])
  }

  /** The effect of one action; a command the actor is not ready for does nothing. */
  function Step(s: System, a: Action): System {
    match (a.command, PhaseOf(s, a.actor))
    case (Check(ok), Idle) =>
      if !ok || InFeedbackCooldown(s, a.now) then s
      else s.(phases := s.phases[a.actor := Deciding(a.now, |s.spans|)])
    case (Abandon, Deciding(_, _)) => s.(phases := s.phases[a.actor := Idle])
    case (SetCooldown(outcome), Deciding(checkedAt, seen)) =>
      if outcome == NotApplied then s.(phases := s.phases[a.actor := Idle])
      else
        AfterSet(s, a.actor, Deciding(checkedAt, seen), a.now, outcome == Done)
    case (Emit, Accepted(span)) => s.(phases := s.phases[a.actor := Idle], emitted := s.emitted + [span])
    case _ => s
  }

  function Run(s: System, actions: seq<Action>): System {
    if actions == [] then s
    else Step(Run(s, actions[..|actions| - 1]), actions[|actions| - 1])
  }

  ghost predicate ClockRuns(actions: seq<Action>) {
    forall i, j :: 0 <= i < j < |actions| ==> actions[i].now <= actions[j].now
  }

  /** `s` is what some run in clock order, none of it after `now`, leads to. */
  ghost predicate Reachable(s: System, now: int) {
    exists past :: Reaches(past, s, now)
  }

  ghost predicate Reaches(past: seq<Action>, s: System, now: int) {
    ClockRuns(past) && (forall i :: 0 <= i < |past| ==> past[i].now <= now) && Run(FRESH, past) == s
  }

  /** Every write of the key is at least one cooldown old. */
  ghost predicate Waited(s: System, now: int) {
    forall i :: 0 <= i < |s.spans| ==> now - s.spans[i].setAt >= FEEDBACK_COOLDOWN_MS
  }

  // ---------- the handlers, one actor against any environment ----------

  /** What can go wrong on one actor's way through its handler, and what others do meanwhile. */
  datatype Weather = Weather(
    checkOk: bool, packOk: bool, outcome: Outcome,
    checkAt: int, setAt: int, emitAt: int,
    beforeSet: seq<Action>, beforeEmit: seq<Action>)

  /** The shared state of one session: the Redis key and what each actor is doing. */
  class Session {
    var system: System

    constructor ()
      ensures system == FRESH
    {
      system := FRESH;
    }

    method Take(action: Action)
      modifies this
      ensures system == Step(old(system), action)
    {
      system := Step(system, action);
    }

    /** Other actors run. */
    method Interfere(actions: seq<Action>)
      modifies this
      ensures system == Run(old(system), actions)
    {
      for i := 0 to |actions|
        invariant system == Run(old(system), actions[..i])
      {
        assert actions[..i + 1][..i] == actions[..i];
        Take(actions[i]);
      }
      assert actions[..|actions|] == actions;
    }

    /**
     Both handlers follow this path: check, build the pack (for the periodic one, from the latest
     sample), decide, write the key, return to the caller, which emits unless there was an error.
     */
    method Handle(self: nat, w: Weather) returns (sent: bool, ghost trace: seq<Action>)
      requires PhaseOf(system, self) == Idle
      requires forall a :: a in w.beforeSet || a in w.beforeEmit ==> a.actor != self
      modifies this
      ensures system == Run(old(system), trace)
      ensures PhaseOf(system, self) == Idle
      ensures Reachable(old(system), w.checkAt) ==>
        (sent <==> w.checkOk && w.packOk && w.outcome == Done && Waited(old(system), w.checkAt))
      ensures Reachable(old(system), w.checkAt) && !(w.checkOk && Waited(old(system), w.checkAt)) ==>
        system == old(system)
      ensures !sent ==> Action(self, w.emitAt, Emit) !in trace
      ensures sent ==>
        && system.emitted != [] && system.emitted[|system.emitted| - 1] < |system.spans|
        && system.spans[system.emitted[|system.emitted| - 1]] == Span(self, w.checkAt, |old(system).spans|, w.setAt, true)
    {
      hide Run;
      var start := system;
      if Reachable(start, w.checkAt) {
        PassesIffWaited(start, w.checkAt);
      }
      Take(Action(self, w.checkAt, Check(w.checkOk)));
      trace := [Action(self, w.checkAt, Check(w.checkOk))];
      RunOne(start, Action(self, w.checkAt, Check(w.checkOk)));
      if !w.checkOk || InFeedbackCooldown(start, w.checkAt) {
        return false, trace;
      }
      if !w.packOk {
        RunSnoc(start, trace, Action(self, w.checkAt, Abandon));
        trace := trace + [Action(self, w.checkAt, Abandon)];
        Take(Action(self, w.checkAt, Abandon));
        return false, trace;
      }
      OthersKeepPhase(system, w.beforeSet, self);
      RunAppend(start, trace, w.beforeSet);
      trace := trace + w.beforeSet;
      Interfere(w.beforeSet);
      RunSnoc(start, trace, Action(self, w.setAt, SetCooldown(w.outcome)));
      trace := trace + [Action(self, w.setAt, SetCooldown(w.outcome))];
      Take(Action(self, w.setAt, SetCooldown(w.outcome)));
      if w.outcome != Done {
        return false, trace;
      }
      ghost var own := |system.spans| - 1;
      OthersKeepPhase(system, w.beforeEmit, self);
      SpansStay(system, w.beforeEmit, own);
      RunAppend(start, trace, w.beforeEmit);
      trace := trace + w.beforeEmit;
      Interfere(w.beforeEmit);
      RunSnoc(start, trace, Action(self, w.emitAt, Emit));
      trace := trace + [Action(self, w.emitAt, Emit)];
      Take(Action(self, w.emitAt, Emit));
      return true, trace;
    }
  }

  lemma RunOne(s: System, a: Action)
    ensures Run(s, [a]) == Step(s, a)
  {
    assert [a][..0] == [];
  }

  lemma RunSnoc(s: System, actions: seq<Action>, a: Action)
    ensures Run(s, actions + [a]) == Step(Run(s, actions), a)
  {
    assert (actions + [a])[..|actions|] == actions;
  }

  lemma {:induction false} RunAppend(s: System, xs: seq<Action>, ys: seq<Action>)
    ensures Run(s, xs + ys) == Run(Run(s, xs), ys)
  {
    if ys == [] {
      assert xs + ys == xs;
    } else {
      var n := |ys| - 1;
      assert (xs + ys)[..|xs + ys| - 1] == xs + ys[..n];
      RunAppend(s, xs, ys[..n]);
    }
  }

  lemma {:induction false} OthersKeepPhase(s: System, actions: seq<Action>, self: nat)
    requires forall a :: a in actions ==> a.actor != self
    ensures PhaseOf(Run(s, actions), self) == PhaseOf(s, self)
    ensures |Run(s, actions).spans| >= |s.spans|
  {
    if actions != [] {
      OthersKeepPhase(s, actions[..|actions| - 1], self);
    }
  }

  lemma {:induction false} SpansStay(s: System, actions: seq<Action>, k: nat)
    requires k < |s.spans|
    ensures k < |Run(s, actions).spans| && Run(s, actions).spans[k] == s.spans[k]
  {
    if actions != [] {
      SpansStay(s, actions[..|actions| - 1], k);
    }
  }

  // ---------- safety over every interleaving ----------

  /** Write `i` came before the check that led to write `j`. */
  predicate Precedes(s: System, i: nat, j: nat)
    requires j < |s.spans|
  {
    i < s.spans[j].seen
  }

  ghost predicate Spaced(s: System) {
    forall i, j :: 0 <= i < j < |s.spans| && Precedes(s, i, j) ==>
      s.spans[j].setAt - s.spans[i].setAt >= FEEDBACK_COOLDOWN_MS
  }

  ghost predicate OwnSpansPrecede(s: System) {
    forall i, j :: 0 <= i < j < |s.spans| && s.spans[i].actor == s.spans[j].actor ==> Precedes(s, i, j)
  }

  ghost predicate KeyFollowsSpans(s: System, clock: int) {
    && (s.spans == [] ==> s.expiry == None)
    && (s.spans != [] ==> s.expiry == Some(s.spans[|s.spans| - 1].setAt + FEEDBACK_COOLDOWN_MS))
    && (forall i, j :: 0 <= i < j < |s.spans| ==> s.spans[i].setAt <= s.spans[j].setAt)
    && (forall i :: 0 <= i < |s.spans| ==> s.spans[i].setAt <= clock)
  }

  ghost predicate DecidersWaited(s: System, clock: int) {
    forall a :: a in s.phases && s.phases[a].Deciding? ==>
      var p := s.phases[a];
      && p.checkedAt <= clock && p.seen <= |s.spans|
      && (forall i :: 0 <= i < p.seen ==> p.checkedAt - s.spans[i].setAt >= FEEDBACK_COOLDOWN_MS)
      && (forall i :: 0 <= i < |s.spans| && s.spans[i].actor == a ==> i < p.seen)
  }

  /** Every emission is of a write that was acknowledged, and of no write twice. */
  ghost predicate EmittedAfterSet(s: System) {
    && (forall k :: k in s.emitted ==> k < |s.spans| && s.spans[k].acknowledged)
    && (forall x, y :: 0 <= x < y < |s.emitted| ==> s.emitted[x] != s.emitted[y])
  }

  ghost predicate AcceptedPending(s: System) {
    forall a :: a in s.phases && s.phases[a].Accepted? ==>
      var k := s.phases[a].span;
      k < |s.spans| && s.spans[k].acknowledged && s.spans[k].actor == a && k !in s.emitted
  }

  ghost predicate Inv(s: System, clock: int) {
    && Spaced(s) && OwnSpansPrecede(s) && KeyFollowsSpans(s, clock)
    && DecidersWaited(s, clock) && EmittedAfterSet(s) && AcceptedPending(s)
  }

  lemma CheckKeepsInv(s: System, clock: int, actor: nat, now: int)
    requires Inv(s, clock) && clock <= now && !InFeedbackCooldown(s, now)
    ensures Inv(s.(phases := s.phases[actor := Deciding(now, |s.spans|)]), now)
  {
    var s' := s.(phases := s.phases[actor := Deciding(now, |s.spans|)]);
    forall i | 0 <= i < |s.spans| ensures now - s.spans[i].setAt >= FEEDBACK_COOLDOWN_MS {
      assert s.spans[i].setAt <= s.spans[|s.spans| - 1].setAt;
    }
    assert DecidersWaited(s', now);
    assert AcceptedPending(s');
  }

  /** Writing the key: the writer waited long enough for every write its check could see. */
  lemma SetKeepsSpacing(s: System, clock: int, actor: nat, now: int, acknowledged: bool)
    requires Inv(s, clock) && clock <= now
    requires actor in s.phases && s.phases[actor].Deciding?
    ensures var s' := AfterSet(s, actor, s.phases[actor], now, acknowledged);
            Spaced(s') && OwnSpansPrecede(s') && KeyFollowsSpans(s', now)
  {
    var s' := AfterSet(s, actor, s.phases[actor], now, acknowledged);
    assert forall i :: 0 <= i < |s.spans| ==> s'.spans[i] == s.spans[i];
  }

  lemma SetKeepsDeciders(s: System, clock: int, actor: nat, now: int, acknowledged: bool)
    requires DecidersWaited(s, clock) && clock <= now
    requires actor in s.phases && s.phases[actor].Deciding?
    ensures DecidersWaited(AfterSet(s, actor, s.phases[actor], now, acknowledged), now)
  {
    var s' := AfterSet(s, actor, s.phases[actor], now, acknowledged);
    forall a | a in s'.phases && s'.phases[a].Deciding?
      ensures var p := s'.phases[a];
              && p.checkedAt <= now && p.seen <= |s'.spans|
              && (forall i :: 0 <= i < p.seen ==> p.checkedAt - s'.spans[i].setAt >= FEEDBACK_COOLDOWN_MS)
              && (forall i :: 0 <= i < |s'.spans| && s'.spans[i].actor == a ==> i < p.seen)
    {
      assert a != actor && s'.phases[a] == s.phases[a];
      assert s.phases[a].seen <= |s.spans|;
    }
  }

  lemma SetKeepsEmitted(s: System, clock: int, actor: nat, now: int, acknowledged: bool)
    requires EmittedAfterSet(s) && AcceptedPending(s)
    requires actor in s.phases && s.phases[actor].Deciding?
    ensures var s' := AfterSet(s, actor, s.phases[actor], now, acknowledged);
            EmittedAfterSet(s') && AcceptedPending(s')
  {
    var s' := AfterSet(s, actor, s.phases[actor], now, acknowledged);
    assert |s.spans| !in s.emitted;
    forall a | a in s'.phases && s'.phases[a].Accepted?
      ensures var k := s'.phases[a].span;
              k < |s'.spans| && s'.spans[k].acknowledged && s'.spans[k].actor == a && k !in s'.emitted
    {
      if a != actor {
        assert s'.phases[a] == s.phases[a];
      }
    }
  }

  lemma LeaveKeepsInv(s: System, clock: int, actor: nat, now: int)
    requires Inv(s, clock) && clock <= now
    ensures Inv(s.(phases := s.phases[actor := Idle]), now)
  {
    var s' := s.(phases := s.phases[actor := Idle]);
    assert DecidersWaited(s', now);
    assert AcceptedPending(s');
  }

  lemma EmitKeepsInv(s: System, clock: int, actor: nat, now: int)
    requires Inv(s, clock) && clock <= now
    requires actor in s.phases && s.phases[actor].Accepted?
    ensures Inv(s.(phases := s.phases[actor := Idle], emitted := s.emitted + [s.phases[actor].span]), now)
  {
    var k := s.phases[actor].span;
    var s' := s.(phases := s.phases[actor := Idle], emitted := s.emitted + [k]);
    assert EmittedAfterSet(s');
    assert AcceptedPending(s') by {
      forall a | a in s'.phases && s'.phases[a].Accepted?
        ensures s'.phases[a].span !in s'.emitted
      {
        assert a != actor && s.spans[s.phases[a].span].actor == a && s.spans[k].actor == actor;
      }
    }
    assert DecidersWaited(s', now);
  }

  lemma LaterKeepsInv(s: System, clock: int, now: int)
    requires Inv(s, clock) && clock <= now
    ensures Inv(s, now)
  {
  }

  lemma SetKeepsInv(s: System, clock: int, actor: nat, now: int, acknowledged: bool)
    requires Inv(s, clock) && clock <= now
    requires actor in s.phases && s.phases[actor].Deciding?
    ensures Inv(AfterSet(s, actor, s.phases[actor], now, acknowledged), now)
  {
    SetKeepsSpacing(s, clock, actor, now, acknowledged);
    SetKeepsDeciders(s, clock, actor, now, acknowledged);
    SetKeepsEmitted(s, clock, actor, now, acknowledged);
  }

  lemma StepKeepsInv(s: System, clock: int, a: Action)
    requires Inv(s, clock) && clock <= a.now
    ensures Inv(Step(s, a), a.now)
  {
    var s' := Step(s, a);
    match (a.command, PhaseOf(s, a.actor)) {
      case (Check(ok), Idle) =>
        if ok && !InFeedbackCooldown(s, a.now) {
          CheckKeepsInv(s, clock, a.actor, a.now);
          assert s' == s.(phases := s.phases[a.actor := Deciding(a.now, |s.spans|)]);
        } else {
          LaterKeepsInv(s, clock, a.now);
        }
      case (Abandon, Deciding(_, _)) => LeaveKeepsInv(s, clock, a.actor, a.now);
      case (SetCooldown(outcome), Deciding(_, _)) =>
        if outcome == NotApplied {
          LeaveKeepsInv(s, clock, a.actor, a.now);
        } else {
          SetKeepsInv(s, clock, a.actor, a.now, outcome == Done);
          assert s' == AfterSet(s, a.actor, s.phases[a.actor], a.now, outcome == Done);
        }
      case (Emit, Accepted(_)) => EmitKeepsInv(s, clock, a.actor, a.now);
      case _ =>
        assert s' == s;
        LaterKeepsInv(s, clock, a.now);
    }
  }

  lemma FreshInv(clock: int)
    ensures Inv(FRESH, clock)
  {
  }

  lemma {:induction false} RunKeepsInv(actions: seq<Action>, clock: int)
    requires ClockRuns(actions) && forall i :: 0 <= i < |actions| ==> actions[i].now <= clock
    ensures Inv(Run(FRESH, actions), clock)
  {
    hide Step, Inv;
    if actions == [] {
      FreshInv(clock);
    } else {
      var n := |actions| - 1;
      RunKeepsInv(actions[..n], actions[n].now);
      StepKeepsInv(Run(FRESH, actions[..n]), actions[n].now, actions[n]);
      LaterKeepsInv(Run(FRESH, actions), actions[n].now, clock);
    }
  }

  /**
   In every run, two writes of the cooldown whose check-to-set spans do not overlap are at
   least 30 s apart, and so are any two writes by the same actor; and what is emitted was
   set first, successfully, and is emitted once.
   */
  lemma NonOverlappingSpansAreSpaced(actions: seq<Action>)
    requires ClockRuns(actions)
    ensures var s := Run(FRESH, actions);
            && (forall i, j :: 0 <= i < j < |s.spans| && (Precedes(s, i, j) || s.spans[i].actor == s.spans[j].actor) ==>
                  s.spans[j].setAt - s.spans[i].setAt >= FEEDBACK_COOLDOWN_MS)
            && EmittedAfterSet(s)
  {
    RunKeepsInv(actions, if actions == [] then 0 else actions[|actions| - 1].now);
  }

  // ---------- when a check passes ----------

  /** The key is absent exactly when every write is one cooldown old. */
  lemma AbsentIffWaited(s: System, clock: int, now: int)
    requires KeyFollowsSpans(s, clock)
    ensures InFeedbackCooldown(s, now) <==> !Waited(s, now)
  {
    if s.spans != [] {
      var last := |s.spans| - 1;
      if now - s.spans[last].setAt >= FEEDBACK_COOLDOWN_MS {
        assert Waited(s, now) by {
          forall i | 0 <= i < |s.spans| ensures now - s.spans[i].setAt >= FEEDBACK_COOLDOWN_MS {
            assert s.spans[i].setAt <= s.spans[last].setAt;
          }
        }
      }
    }
  }

  lemma PassesIffWaited(s: System, now: int)
    requires Reachable(s, now)
    ensures InFeedbackCooldown(s, now) <==> !Waited(s, now)
  {
    hide Run;
    var past :| Reaches(past, s, now);
    RunKeepsInv(past, now);
    AbsentIffWaited(s, now, now);
  }

  /** Action `k` of a run wrote the key: its actor had passed a check, and the command reached Redis. */
  ghost predicate Wrote(past: seq<Action>, k: nat) {
    && k < |past| && past[k].command.SetCooldown? && past[k].command.outcome != NotApplied
    && PhaseOf(Run(FRESH, past[..k]), past[k].actor).Deciding?
  }

  ghost predicate HasWrite(past: seq<Action>, actor: nat, at: int, acknowledged: bool) {
    exists k: nat :: Wrote(past, k) && past[k].actor == actor && past[k].now == at && (past[k].command.outcome == Done) == acknowledged
  }

  ghost predicate HasSpan(s: System, actor: nat, at: int, acknowledged: bool) {
    exists i :: 0 <= i < |s.spans| && s.spans[i].actor == actor && s.spans[i].setAt == at && s.spans[i].acknowledged == acknowledged
  }

  ghost predicate WritesAreOld(past: seq<Action>, now: int) {
    forall k: nat :: k < |past| && Wrote(past, k) ==> now - past[k].now >= FEEDBACK_COOLDOWN_MS
  }

  lemma HasWriteSnoc(past: seq<Action>, actor: nat, at: int, acknowledged: bool)
    requires past != []
    ensures var n := |past| - 1;
            HasWrite(past, actor, at, acknowledged) <==>
            || HasWrite(past[..n], actor, at, acknowledged)
            || (Wrote(past, n) && past[n].actor == actor && past[n].now == at && (past[n].command.outcome == Done) == acknowledged)
  {
    hide Run;
    var n := |past| - 1;
    forall k: nat | k < n ensures Wrote(past, k) <==> Wrote(past[..n], k) {
      assert past[..n][..k] == past[..k];
    }
  }

  /** The spans are the writes of the run, no more and no fewer. */
  lemma {:induction false} SpansAreWrites(past: seq<Action>, actor: nat, at: int, acknowledged: bool)
    ensures HasSpan(Run(FRESH, past), actor, at, acknowledged) <==> HasWrite(past, actor, at, acknowledged)
  {
    if past != [] {
      var n := |past| - 1;
      var s, s' := Run(FRESH, past[..n]), Run(FRESH, past);
      SpansAreWrites(past[..n], actor, at, acknowledged);
      HasWriteSnoc(past, actor, at, acknowledged);
      if Wrote(past, n) {
        assert s'.spans == s.spans + [s'.spans[|s.spans|]];
        assert forall i :: 0 <= i < |s.spans| ==> s'.spans[i] == s.spans[i];
      } else {
        assert s'.spans == s.spans;
      }
    }
  }

  /**
   A check passes when it must. In every run, an idle actor that checks, not before the run's last
   action, goes on if and only if Redis answers and every write of the key so far, acknowledged or
   not, is at least 30 s old; otherwise nothing changes.
   */
  lemma {:induction false} CheckPassesIff(past: seq<Action>, actor: nat, now: int, ok: bool)
    requires ClockRuns(past) && forall i :: 0 <= i < |past| ==> past[i].now <= now
    requires PhaseOf(Run(FRESH, past), actor) == Idle
    ensures var s := Run(FRESH, past); var s' := Step(s, Action(actor, now, Check(ok)));
            var free := ok && WritesAreOld(past, now);
            && (PhaseOf(s', actor).Deciding? <==> free)
            && (free ==> PhaseOf(s', actor).checkedAt == now)
            && (!free ==> s' == s)
            && (Waited(s, now) <==> WritesAreOld(past, now))
  {
    hide Run, Wrote;
    var s := Run(FRESH, past);
    assert Reaches(past, s, now);
    PassesIffWaited(s, now);
    if Waited(s, now) {
      forall k: nat | k < |past| && Wrote(past, k) ensures now - past[k].now >= FEEDBACK_COOLDOWN_MS {
        WroteHas(past, k);
        SpansAreWrites(past, past[k].actor, past[k].now, past[k].command.outcome == Done);
        assert HasSpan(s, past[k].actor, past[k].now, past[k].command.outcome == Done);
      }
    } else {
      var i :| 0 <= i < |s.spans| && now - s.spans[i].setAt < FEEDBACK_COOLDOWN_MS;
      assert HasSpan(s, s.spans[i].actor, s.spans[i].setAt, s.spans[i].acknowledged);
      SpansAreWrites(past, s.spans[i].actor, s.spans[i].setAt, s.spans[i].acknowledged);
      if WritesAreOld(past, now) {
        OldWrite(past, s.spans[i].actor, s.spans[i].setAt, s.spans[i].acknowledged, now);
      }
    }
  }

  lemma {:induction false} OldWrite(past: seq<Action>, actor: nat, at: int, acknowledged: bool, now: int)
    requires HasWrite(past, actor, at, acknowledged) && WritesAreOld(past, now)
    ensures now - at >= FEEDBACK_COOLDOWN_MS
  {
  }

  lemma {:induction false} WroteHas(past: seq<Action>, k: nat)
    requires Wrote(past, k)
    ensures k < |past| && past[k].command.SetCooldown?
    ensures HasWrite(past, past[k].actor, past[k].now, past[k].command.outcome == Done)
  {
  }

  // ---------- what the times of checks and writes tell ----------

  /** No write from index `seen` on is earlier than `checkedAt`. */
  ghost predicate NoneBefore(spans: seq<Span>, seen: nat, checkedAt: int) {
    forall i :: seen <= i < |spans| ==> spans[i].setAt >= checkedAt
  }

  /** The writes that an actor's check did not see are not earlier than that check. */
  ghost predicate UnseenAreLater(s: System, clock: int) {
    && (forall a :: a in s.phases && s.phases[a].Deciding? ==>
          s.phases[a].checkedAt <= clock && NoneBefore(s.spans, s.phases[a].seen, s.phases[a].checkedAt))
    && (forall j :: 0 <= j < |s.spans| ==>
          s.spans[j].checkedAt <= clock && NoneBefore(s.spans, s.spans[j].seen, s.spans[j].checkedAt))
  }

  /** A write that is seen was made at least 30 s before the check. */
  ghost predicate SeenAreOld(s: System) {
    && (forall a, i :: a in s.phases && s.phases[a].Deciding? && 0 <= i < s.phases[a].seen && i < |s.spans| ==>
          s.phases[a].checkedAt - s.spans[i].setAt >= FEEDBACK_COOLDOWN_MS)
    && (forall i, j :: 0 <= i < j < |s.spans| && Precedes(s, i, j) ==>
          s.spans[j].checkedAt - s.spans[i].setAt >= FEEDBACK_COOLDOWN_MS)
  }

  lemma NoneBeforeMore(spans: seq<Span>, span: Span, seen: nat, checkedAt: int)
    requires NoneBefore(spans, seen, checkedAt) && checkedAt <= span.setAt
    ensures NoneBefore(spans + [span], seen, checkedAt)
  {
  }

  lemma SetKeepsUnseen(s: System, clock: int, actor: nat, now: int, acknowledged: bool)
    requires UnseenAreLater(s, clock) && clock <= now
    requires actor in s.phases && s.phases[actor].Deciding?
    ensures UnseenAreLater(AfterSet(s, actor, s.phases[actor], now, acknowledged), now)
  {
    hide NoneBefore;
    var s' := AfterSet(s, actor, s.phases[actor], now, acknowledged);
    var span := s'.spans[|s.spans|];
    forall j | 0 <= j < |s'.spans| ensures NoneBefore(s'.spans, s'.spans[j].seen, s'.spans[j].checkedAt) {
      if j < |s.spans| {
        assert s'.spans[j] == s.spans[j];
      }
      NoneBeforeMore(s.spans, span, s'.spans[j].seen, s'.spans[j].checkedAt);
    }
    forall a | a in s'.phases && s'.phases[a].Deciding?
      ensures s'.phases[a].checkedAt <= now && NoneBefore(s'.spans, s'.phases[a].seen, s'.phases[a].checkedAt)
    {
      assert a != actor && s'.phases[a] == s.phases[a];
      NoneBeforeMore(s.spans, span, s'.phases[a].seen, s'.phases[a].checkedAt);
    }
  }

  lemma StepKeepsUnseen(s: System, clock: int, a: Action)
    requires UnseenAreLater(s, clock) && clock <= a.now
    ensures UnseenAreLater(Step(s, a), a.now)
  {
    match (a.command, PhaseOf(s, a.actor)) {
      case (SetCooldown(outcome), Deciding(_, _)) =>
        if outcome != NotApplied {
          SetKeepsUnseen(s, clock, a.actor, a.now, outcome == Done);
        }
      case _ =>
    }
  }

  lemma SetKeepsSeen(s: System, clock: int, actor: nat, now: int, acknowledged: bool)
    requires SeenAreOld(s) && DecidersWaited(s, clock)
    requires actor in s.phases && s.phases[actor].Deciding?
    ensures SeenAreOld(AfterSet(s, actor, s.phases[actor], now, acknowledged))
  {
    var s' := AfterSet(s, actor, s.phases[actor], now, acknowledged);
    assert forall j :: 0 <= j < |s.spans| ==> s'.spans[j] == s.spans[j];
    assert forall a :: a in s'.phases && s'.phases[a].Deciding? ==> a != actor && s'.phases[a] == s.phases[a];
  }

  lemma CheckKeepsSeen(s: System, clock: int, actor: nat, now: int)
    requires SeenAreOld(s) && KeyFollowsSpans(s, clock) && !InFeedbackCooldown(s, now)
    ensures SeenAreOld(s.(phases := s.phases[actor := Deciding(now, |s.spans|)]))
  {
    forall i | 0 <= i < |s.spans| ensures now - s.spans[i].setAt >= FEEDBACK_COOLDOWN_MS {
      assert s.spans[i].setAt <= s.spans[|s.spans| - 1].setAt;
    }
  }

  lemma LeaveKeepsSeen(s: System, actor: nat, emitted: seq<nat>)
    requires SeenAreOld(s)
    ensures SeenAreOld(s.(phases := s.phases[actor := Idle], emitted := emitted))
  {
  }

  lemma StepKeepsSeen(s: System, clock: int, a: Action)
    requires SeenAreOld(s) && Inv(s, clock) && clock <= a.now
    ensures SeenAreOld(Step(s, a))
  {
    hide SeenAreOld;
    LeaveKeepsSeen(s, a.actor, s.emitted);
    match (a.command, PhaseOf(s, a.actor)) {
      case (Check(ok), Idle) =>
        if ok && !InFeedbackCooldown(s, a.now) {
          CheckKeepsSeen(s, clock, a.actor, a.now);
        }
      case (SetCooldown(outcome), Deciding(_, _)) =>
        if outcome != NotApplied {
          SetKeepsSeen(s, clock, a.actor, a.now, outcome == Done);
        }
      case (Emit, Accepted(span)) => LeaveKeepsSeen(s, a.actor, s.emitted + [span]);
      case _ =>
    }
  }

  lemma {:induction false} RunKeepsTimes(actions: seq<Action>, clock: int)
    requires ClockRuns(actions) && forall i :: 0 <= i < |actions| ==> actions[i].now <= clock
    ensures UnseenAreLater(Run(FRESH, actions), clock) && SeenAreOld(Run(FRESH, actions))
  {
    hide Step, Inv, UnseenAreLater, SeenAreOld;
    if actions == [] {
      FreshTimes(clock);
    } else {
      var n := |actions| - 1;
      var s, now := Run(FRESH, actions[..n]), actions[n].now;
      RunKeepsTimes(actions[..n], now);
      RunKeepsInv(actions[..n], now);
      StepKeepsUnseen(s, now, actions[n]);
      StepKeepsSeen(s, now, actions[n]);
      LaterKeepsUnseen(Run(FRESH, actions), now, clock);
    }
  }

  lemma FreshTimes(clock: int)
    ensures UnseenAreLater(FRESH, clock) && SeenAreOld(FRESH)
  {
  }

  lemma LaterKeepsUnseen(s: System, clock: int, now: int)
    requires UnseenAreLater(s, clock) && clock <= now
    ensures UnseenAreLater(s, now)
  {
  }

  /**
   In every run a write is followed, 30 s or more later, by the check of another write that saw it, or
   else it is not earlier than that check: whether two check-to-set spans overlap can be read off the clock.
   */
  lemma PrecedesIffEarlier(actions: seq<Action>, i: nat, j: nat)
    requires ClockRuns(actions) && i < j < |Run(FRESH, actions).spans|
    ensures var s := Run(FRESH, actions);
            && (Precedes(s, i, j) <==> s.spans[i].setAt < s.spans[j].checkedAt)
            && (Precedes(s, i, j) <==> s.spans[j].checkedAt - s.spans[i].setAt >= FEEDBACK_COOLDOWN_MS)
  {
    hide Run;
    var s := Run(FRESH, actions);
    RunKeepsTimes(actions, if actions == [] then 0 else actions[|actions| - 1].now);
    if !Precedes(s, i, j) {
      assert NoneBefore(s.spans, s.spans[j].seen, s.spans[j].checkedAt);
    }
  }

  /**
   The cooldown, exactly: for every run, two writes of which the later took less than 30 s from its
   check are 30 s apart if and only if the earlier one was made before that check. The time a
   generator may take is 10 s, so the guard is whether the two handlers overlapped.
   */
  lemma SpacedIff(actions: seq<Action>, i: nat, j: nat)
    requires ClockRuns(actions) && i < j < |Run(FRESH, actions).spans|
    requires var s := Run(FRESH, actions); s.spans[j].setAt - s.spans[j].checkedAt < FEEDBACK_COOLDOWN_MS
    ensures var s := Run(FRESH, actions);
            && (s.spans[j].setAt - s.spans[i].setAt >= FEEDBACK_COOLDOWN_MS <==> Precedes(s, i, j))
            && (s.spans[j].setAt - s.spans[i].setAt >= FEEDBACK_COOLDOWN_MS <==> s.spans[i].setAt < s.spans[j].checkedAt)
  {
    NonOverlappingSpansAreSpaced(actions);
    PrecedesIffEarlier(actions, i, j);
  }

  /** The writes that fall in the half-open window of one cooldown from `from` on. */
  ghost function SetsInWindow(s: System, from: int): set<nat> {
    set i: nat | i < |s.spans| && from <= s.spans[i].setAt < from + FEEDBACK_COOLDOWN_MS
  }

  lemma {:induction false} Pigeonhole(s: System, window: set<nat>, actors: nat)
    requires forall i :: i in window ==> i < |s.spans| && s.spans[i].actor < actors
    requires forall i, j :: i in window && j in window && s.spans[i].actor == s.spans[j].actor ==> i == j
    ensures |window| <= actors
    decreases actors
  {
    if actors == 0 {
      assert window == {};
    } else if i :| i in window && s.spans[i].actor == actors - 1 {
      Pigeonhole(s, window - {i}, actors - 1);
    } else {
      Pigeonhole(s, window, actors - 1);
    }
  }

  /** With `actors` actors, no 30 s window holds more than `actors` writes: two for one connection. */
  lemma WindowHoldsOnePerActor(actions: seq<Action>, actors: nat, from: int)
    requires ClockRuns(actions) && forall a :: a in actions ==> a.actor < actors
    ensures |SetsInWindow(Run(FRESH, actions), from)| <= actors
  {
    var s := Run(FRESH, actions);
    NonOverlappingSpansAreSpaced(actions);
    SpansHaveActors(actions, actors);
    Pigeonhole(s, SetsInWindow(s, from), actors);
  }

  lemma {:induction false} SpansHaveActors(actions: seq<Action>, actors: nat)
    requires forall a :: a in actions ==> a.actor < actors
    ensures forall i :: 0 <= i < |Run(FRESH, actions).spans| ==> Run(FRESH, actions).spans[i].actor < actors
  {
    if actions != [] {
      SpansHaveActors(actions[..|actions| - 1], actors);
    }
  }

  /**
   The bound is reached: when both actors of a connection check before either writes, both
   emit, in the same millisecond. The cooldown alone does not make feedback 30 s apart.
   */
  lemma OverlappingSpansCanCoincide(t: int)
    ensures ClockRuns(CheckBoth(t) + SetBoth(t) + EmitBoth(t))
    ensures var s := Run(FRESH, CheckBoth(t) + SetBoth(t) + EmitBoth(t));
            s.emitted == [0, 1] && |s.spans| == 2 && s.spans[0].setAt == t == s.spans[1].setAt
  {
    hide Run;
    BothCheck(t);
    BothSet(t);
    RunTwo(BothDone(t), Action(0, t, Emit), Action(1, t, Emit));
    RunAppend(FRESH, CheckBoth(t), SetBoth(t));
    RunAppend(FRESH, CheckBoth(t) + SetBoth(t), EmitBoth(t));
  }

  function BothDeciding(t: int): System {
    System(None, map[0 := Deciding(t, 0), 1 := Deciding(t, 0)], [], [])
  }

  function BothDone(t: int): System {
    System(Some(t + FEEDBACK_COOLDOWN_MS), map[0 := Accepted(0), 1 := Accepted(1)],
           [Span(0, t, 0, t, true), Span(1, t, 0, t, true)], [])
  }

  lemma BothCheck(t: int)
    ensures Run(FRESH, CheckBoth(t)) == BothDeciding(t)
  {
    RunTwo(FRESH, Action(0, t, Check(true)), Action(1, t, Check(true)));
  }

  lemma BothSet(t: int)
    ensures Run(BothDeciding(t), SetBoth(t)) == BothDone(t)
  {
    var s := BothDeciding(t);
    RunTwo(s, Action(0, t, SetCooldown(Done)), Action(1, t, SetCooldown(Done)));
    var one := AfterSet(s, 0, Deciding(t, 0), t, true);
    assert one.spans == [Span(0, t, 0, t, true)];
    var two := AfterSet(one, 1, Deciding(t, 0), t, true);
    assert two.phases == map[0 := Accepted(0), 1 := Accepted(1)];
  }

  function CheckBoth(t: int): seq<Action> {
    [Action(0, t, Check(true)), Action(1, t, Check(true))]
  }

  function SetBoth(t: int): seq<Action> {
    [Action(0, t, SetCooldown(Done)), Action(1, t, SetCooldown(Done))]
  }

  function EmitBoth(t: int): seq<Action> {
    [Action(0, t, Emit), Action(1, t, Emit)]
  }

  lemma RunTwo(s: System, a: Action, b: Action)
    ensures Run(s, [a, b]) == Step(Step(s, a), b)
  {
    assert [] + [a] == [a] && [a] + [b] == [a, b];
    RunSnoc(s, [], a);
    RunSnoc(s, [a], b);
  }
}
