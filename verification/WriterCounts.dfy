/**
 The upper side of at-least-once: an object holds a line at most as many times as items that carry
 it were delivered.
 */
module WriterCounts {
  import opened DurableWriter
  import opened Jsonl
  import opened Options

  function Copies(lines: seq<string>, line: string, n: nat): nat
    requires n <= |lines|
  {
    if n == 0 then 0 else Copies(lines, line, n - 1) + if lines[n - 1] == line then 1 else 0
  }

  /** How often the object at `path` holds `line`. */
  function CopiesAt(w: World, path: Path, line: string): nat {
    var lines := ReadLines(Content(w, path));
    Copies(lines, line, |lines|)
  }

  function Carries(item: Item, path: Path, line: string): nat {
    if item.Where() == path && item.line == line then 1 else 0
  }

  /** How many of the items from the `i`-th on carry `line` to `path`. */
  function CarriedFrom(items: seq<Item>, i: nat, path: Path, line: string): nat
    requires i <= |items|
    decreases |items| - i
  {
    if i == |items| then 0 else Carries(items[i], path, line) + CarriedFrom(items, i + 1, path, line)
  }

  /** How many of the first `n` records carry `line` for this session. */
  function Carrying(records: seq<Record>, n: nat, session: Id, line: string): nat
    requires n <= |records|
  {
    if n == 0 then 0
    else Carrying(records, n - 1, session, line) + if records[n - 1].session == session && records[n - 1].line == line then 1 else 0
  }

  /** How often one delivery of the event attempts `line` for this object. */
  function Parts(p: Payload, session: Id, kind: Kind, line: string): nat {
    match kind
    case MoodWave => if p.sample == Some(line) && p.session == session then 1 else 0
    case Triggers => Carrying(p.triggers, |p.triggers|, session, line)
    case Feedback => Carrying(p.feedbacks, |p.feedbacks|, session, line)
    case Transcript => Carrying(p.transcripts, |p.transcripts|, session, line)
  }

  function CarriedBy(payload: Option<Payload>, path: Path, line: string): nat {
    if payload.None? then 0 else Parts(payload.value, path.session, path.kind, line)
  }

  function CarriedByBatch(queue: seq<Entry>, batch: seq<nat>, i: nat, path: Path, line: string): nat
    requires i <= |batch| && forall k :: 0 <= k < |batch| ==> batch[k] < |queue|
    decreases |batch| - i
  {
    if i == |batch| then 0 else CarriedBy(queue[batch[i]].payload, path, line) + CarriedByBatch(queue, batch, i + 1, path, line)
  }

  /** What one action delivers. */
  function CarriedIn(w: World, a: Action, path: Path, line: string): nat {
    match a
    case Enqueue(_) => 0
    case PollTick(weather) =>
      if weather.Next() == Done then CarriedByBatch(w.queue, Unacked(w.queue, 0, POLL_BATCH_SIZE), 0, path, line) else 0
    case Push(q, _) => if q < |w.queue| then CarriedBy(w.queue[q].payload, path, line) else 0
  }

  /** What the first `i` actions of a run deliver, redeliveries included. */
  function Delivered(w: World, actions: seq<Action>, i: nat, path: Path, line: string): nat
    requires i <= |actions|
  {
    if i == 0 then 0
    else Delivered(w, actions, i - 1, path, line) + CarriedIn(Run(w, actions, i - 1), actions[i - 1], path, line)
  }

  // ---------- what an event carries ----------

  lemma {:induction false} CarriedShift(a: seq<Item>, b: seq<Item>, i: nat, path: Path, line: string)
    requires i <= |b|
    ensures CarriedFrom(a + b, |a| + i, path, line) == CarriedFrom(b, i, path, line)
    decreases |b| - i
  {
    if i < |b| {
      CarriedShift(a, b, i + 1, path, line);
    }
  }

  lemma {:induction false} CarriedConcat(a: seq<Item>, b: seq<Item>, i: nat, path: Path, line: string)
    requires i <= |a|
    ensures CarriedFrom(a + b, i, path, line) == CarriedFrom(a, i, path, line) + CarriedFrom(b, 0, path, line)
    decreases |a| - i
  {
    if i < |a| {
      CarriedConcat(a, b, i + 1, path, line);
    } else {
      CarriedShift(a, b, 0, path, line);
    }
  }

  lemma {:induction false} CarriedTagged(kind: Kind, records: seq<Record>, i: nat, path: Path, line: string)
    requires i <= |records|
    ensures CarriedFrom(Tagged(kind, records), i, path, line) ==
            if path.kind == kind then Carrying(records, |records|, path.session, line) - Carrying(records, i, path.session, line) else 0
    decreases |records| - i
  {
    if i < |records| {
      CarriedTagged(kind, records, i + 1, path, line);
    }
  }

  /** A delivery's copies are those of the part of the event that goes to the object. */
  lemma CarriedAreParts(p: Payload, session: Id, kind: Kind, line: string)
    ensures CarriedFrom(p.Items(), 0, Path(session, kind), line) == Parts(p, session, kind, line)
  {
    var path := Path(session, kind);
    var a, b, c, d := p.Samples(), Tagged(Triggers, p.triggers), Tagged(Feedback, p.feedbacks), Tagged(Transcript, p.transcripts);
    hide CarriedFrom;
    CarriedConcat(a + b + c, d, 0, path, line);
    CarriedConcat(a + b, c, 0, path, line);
    CarriedConcat(a, b, 0, path, line);
    CarriedTagged(Triggers, p.triggers, 0, path, line);
    CarriedTagged(Feedback, p.feedbacks, 0, path, line);
    CarriedTagged(Transcript, p.transcripts, 0, path, line);
    CarriedSamples(p, path, line);
  }

  lemma CarriedSamples(p: Payload, path: Path, line: string)
    ensures CarriedFrom(p.Samples(), 0, path, line) ==
            if path == Path(p.session, MoodWave) && p.sample == Some(line) then 1 else 0
  {
    if p.sample.Some? {
      assert CarriedFrom(p.Samples(), 1, path, line) == 0;
    }
  }

  // ---------- one item ----------

  lemma {:induction false} CopiesAppend(lines: seq<string>, last: string, line: string, n: nat)
    requires n <= |lines|
    ensures Copies(lines + [last], line, n) == Copies(lines, line, n)
  {
    if n > 0 {
      CopiesAppend(lines, last, line, n - 1);
    }
  }

  lemma SameContentSameCopies(w: World, w': World, path: Path, line: string)
    requires Content(w, path) == Content(w', path)
    ensures CopiesAt(w, path, line) == CopiesAt(w', path, line)
  {
  }

  lemma OneMoreCopy(w: World, w': World, path: Path, last: string, line: string)
    requires ReadLines(Content(w', path)) == ReadLines(Content(w, path)) + [last]
    ensures CopiesAt(w', path, line) == CopiesAt(w, path, line) + if last == line then 1 else 0
  {
    hide ReadLines;
    var lines := ReadLines(Content(w, path));
    CopiesAppend(lines, last, line, |lines|);
  }

  lemma OtherPathStays(w: World, path: Path, id: Id, line: string, other: Path)
    requires other != path
    ensures Content(Append(w, path, id, line).0, other) == Content(w, other)
  {
    hide Append;
    AppendAllOrNothing(w, path, id, line);
  }

  lemma AppendCopies(w: World, item: Item, path: Path, line: string)
    requires Sound(w) && Enqueued(w.queue, item) && Encoded(item.line)
    ensures var (w', ok) := Append(w, item.Where(), item.eventId, item.line);
            && CopiesAt(w', path, line) <= CopiesAt(w, path, line) + Carries(item, path, line)
            && (ok ==> CopiesAt(w', path, line) == CopiesAt(w, path, line) + Carries(item, path, line))
  {
    hide Append, Sound, Enqueued, ReadLines, CopiesAt, Content;
    var w' := Append(w, item.Where(), item.eventId, item.line).0;
    if path == item.Where() {
      AppendKeepsSound(w, item);
      if ReadLines(Content(w', path)) == ReadLines(Content(w, path)) {
        SameLinesSameCopies(w, w', path, line);
      } else {
        OneMoreCopy(w, w', path, item.line, line);
      }
    } else {
      OtherPathStays(w, item.Where(), item.eventId, item.line, path);
      SameContentSameCopies(w, w', path, line);
    }
  }

  lemma SameLinesSameCopies(w: World, w': World, path: Path, line: string)
    requires ReadLines(Content(w', path)) == ReadLines(Content(w, path))
    ensures CopiesAt(w', path, line) == CopiesAt(w, path, line)
  {
  }

  lemma RowsWriteNoLines(w: World, item: Item, path: Path)
    ensures Content(EnsureSession(w, item.session).0, path) == Content(w, path)
    ensures Content(InsertRow(w, item).0, path) == Content(w, path)
  {
  }

  lemma WriteItemCopies(w: World, item: Item, path: Path, line: string)
    requires Sound(w) && Enqueued(w.queue, item) && Encoded(item.line)
    ensures var (w', ok) := WriteItem(w, item);
            && CopiesAt(w', path, line) <= CopiesAt(w, path, line) + Carries(item, path, line)
            && (ok ==> CopiesAt(w', path, line) == CopiesAt(w, path, line) + Carries(item, path, line))
  {
    hide Append, Sound, CopiesAt, InsertRow, EnsureSession, Carries;
    if item.kind == MoodWave {
      AppendCopies(w, item, path, line);
    } else {
      var (w1, ok1) := EnsureSession(w, item.session);
      RowsWriteNoLines(w, item, path);
      SessionKeepsSound(w, item.session);
      SameContentSameCopies(w, w1, path, line);
      if ok1 {
        var (w2, ok2) := InsertRow(w1, item);
        RowsWriteNoLines(w1, item, path);
        RowKeepsSound(w1, item);
        SameContentSameCopies(w1, w2, path, line);
        if ok2 {
          AppendCopies(w2, item, path, line);
        }
      }
    }
  }

  // ---------- one delivery ----------

  lemma {:induction false} WriteItemsCopies(w: World, items: seq<Item>, i: nat, path: Path, line: string)
    requires Sound(w) && i <= |items| && AllWritable(w.queue, items)
    ensures var (w', ok) := WriteItems(w, items, i);
            && CopiesAt(w', path, line) <= CopiesAt(w, path, line) + CarriedFrom(items, i, path, line)
            && (ok ==> CopiesAt(w', path, line) == CopiesAt(w, path, line) + CarriedFrom(items, i, path, line))
    decreases |items| - i
  {
    hide Sound, WriteItem, CopiesAt, Carries;
    if i < |items| {
      WriteItemCopies(w, items[i], path, line);
      WriteItemKeepsSound(w, items[i]);
      WriteItemKeepsQueue(w, items[i]);
      var (w1, ok) := WriteItem(w, items[i]);
      if ok {
        WriteItemsCopies(w1, items, i + 1, path, line);
      }
    }
  }

  lemma AckWritesNoLines(w: World, q: nat, path: Path)
    requires q < |w.queue|
    ensures Content(Ack(w, q), path) == Content(w, path)
  {
  }

  lemma DeliverCopies(w: World, q: nat, path: Path, line: string)
    requires Safe(w) && q < |w.queue|
    ensures CopiesAt(Deliver(w, q), path, line) <= CopiesAt(w, path, line) + CarriedBy(w.queue[q].payload, path, line)
    ensures !w.queue[q].acked && Deliver(w, q).queue[q].acked ==>
              CopiesAt(Deliver(w, q), path, line) == CopiesAt(w, path, line) + CarriedBy(w.queue[q].payload, path, line)
  {
    hide Sound, WriteItems, CopiesAt, Ack, CarriedFrom;
    if w.queue[q].payload.Some? {
      var items := w.queue[q].payload.value.Items();
      WriteItemsKeepsQueue(w, items, 0);
      assert EntryEncoded(w.queue[q]);
      assert AllWritable(w.queue, items);
      WriteItemsCopies(w, items, 0, path, line);
      CarriedAreParts(w.queue[q].payload.value, path.session, path.kind, line);
      var w1 := WriteItems(w, items, 0).0;
      AckWritesNoLines(w1, q, path);
      SameContentSameCopies(w1, Ack(w1, q), path, line);
    }
  }

  lemma DeliverKeepsPayloads(w: World, q: nat)
    requires q < |w.queue|
    ensures SameEvents(w.queue, Deliver(w, q).queue)
  {
    if w.queue[q].payload.Some? {
      WriteItemsKeepsQueue(w, w.queue[q].payload.value.Items(), 0);
    }
  }

  lemma {:induction false} DeliverAllCopies(w: World, queue: seq<Entry>, batch: seq<nat>, i: nat, path: Path, line: string)
    requires Safe(w) && SameEvents(queue, w.queue) && i <= |batch| && forall k :: 0 <= k < |batch| ==> batch[k] < |queue|
    ensures CopiesAt(DeliverAll(w, batch, i), path, line) <= CopiesAt(w, path, line) + CarriedByBatch(queue, batch, i, path, line)
    decreases |batch| - i
  {
    hide Safe, Deliver, CopiesAt, CarriedBy;
    if i < |batch| {
      DeliverCopies(w, batch[i], path, line);
      DeliverKeepsSafe(w, batch[i]);
      DeliverKeepsPayloads(w, batch[i]);
      DeliverAllCopies(Deliver(w, batch[i]), queue, batch, i + 1, path, line);
    }
  }

  // ---------- runs ----------

  lemma PollCopies(w: World, path: Path, line: string)
    requires Safe(w)
    ensures CopiesAt(Poll(w), path, line) <= CopiesAt(w, path, line) + CarriedIn(w, PollTick(w.weather), path, line)
  {
    hide Safe, CopiesAt, DeliverAll, CarriedByBatch;
    SameContentSameCopies(w, Tick(w), path, line);
    WeatherKeepsSafe(w, w.weather.Later());
    if w.weather.Next() == Done {
      DeliverAllCopies(Tick(w), w.queue, Unacked(w.queue, 0, POLL_BATCH_SIZE), 0, path, line);
    }
  }

  lemma ActCopies(w: World, a: Action, path: Path, line: string)
    requires Safe(w)
    ensures CopiesAt(Act(w, a), path, line) <= CopiesAt(w, path, line) + CarriedIn(w, a, path, line)
  {
    hide Safe, CopiesAt, Poll, Deliver;
    match a
    case Enqueue(payload) => SameContentSameCopies(w, Act(w, a), path, line);
    case PollTick(weather) =>
      var w1 := w.(weather := weather);
      WeatherKeepsSafe(w, weather);
      SameContentSameCopies(w, w1, path, line);
      PollCopies(w1, path, line);
    case Push(q, weather) =>
      var w1 := w.(weather := weather);
      WeatherKeepsSafe(w, weather);
      SameContentSameCopies(w, w1, path, line);
      if q < |w.queue| {
        DeliverCopies(w1, q, path, line);
      }
  }

  /**
   Over every run, with failures between any two calls and any redeliveries, an object holds a line at
   most as many times as items that carry it there were delivered.
   */
  lemma {:induction false} CopiesAtMostDelivered(actions: seq<Action>, i: nat, path: Path, line: string)
    requires i <= |actions|
    requires forall k :: 0 <= k < |actions| && actions[k].Enqueue? ==> EntryEncoded(Entry(actions[k].payload, false))
    ensures CopiesAt(Run(EMPTY, actions, i), path, line) <= Delivered(EMPTY, actions, i, path, line)
  {
    hide Act, CopiesAt, CarriedIn;
    if i == 0 {
      NothingAt(path, line);
    } else {
      CopiesAtMostDelivered(actions, i - 1, path, line);
      WriterSafety(actions, i - 1);
      ActCopies(Run(EMPTY, actions, i - 1), actions[i - 1], path, line);
    }
  }

  lemma NothingAt(path: Path, line: string)
    ensures CopiesAt(EMPTY, path, line) == 0
  {
  }
}
