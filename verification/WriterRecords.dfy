/**
 The writer's promises in terms of the four parts of an event: its mood wave sample, triggers,
 feedbacks and transcript chunks, the objects' bytes and the tables' rows.
 */
module WriterRecords {
  import opened Jsonl
  import opened Options
  import opened DurableWriter

  /** What the encoder writes for each part: no newline, and not nothing. */
  predicate Encodable(p: Payload) {
    && (p.sample.Some? ==> Encoded(p.sample.value))
    && (forall r :: r in p.triggers + p.feedbacks + p.transcripts ==> Encoded(r.line))
  }

  /** The session's object of this kind holds the line between newlines. */
  ghost predicate InObject(w: World, session: Id, kind: Kind, line: string) {
    Path(session, kind) in w.objects && HoldsLine(w.objects[Path(session, kind)], 0, line)
  }

  ghost predicate InTable(w: World, kind: Kind, eventId: Id) {
    exists k :: 0 <= k < |w.rows| && w.rows[k].kind == kind && w.rows[k].eventId == eventId
  }

  ghost predicate RecordsWritten(w: World, kind: Kind, records: seq<Record>) {
    forall r :: r in records ==> InObject(w, r.session, kind, r.line) && InTable(w, kind, r.eventId)
  }

  /** Every part of the event is in its object and, but for the sample, in its table. */
  ghost predicate EventWritten(w: World, p: Payload) {
    && (p.sample.Some? ==> InObject(w, p.session, MoodWave, p.sample.value))
    && RecordsWritten(w, Triggers, p.triggers)
    && RecordsWritten(w, Feedback, p.feedbacks)
    && RecordsWritten(w, Transcript, p.transcripts)
  }

  // ---------- from items to the parts ----------

  /** Each part of an event is one of its items. */
  lemma PartsAreItems(p: Payload)
    ensures p.sample.Some? ==> Item(MoodWave, p.eventId, p.session, p.sample.value) in p.Items()
    ensures forall r :: r in p.triggers ==> Item(Triggers, r.eventId, r.session, r.line) in p.Items()
    ensures forall r :: r in p.feedbacks ==> Item(Feedback, r.eventId, r.session, r.line) in p.Items()
    ensures forall r :: r in p.transcripts ==> Item(Transcript, r.eventId, r.session, r.line) in p.Items()
  {
    TaggedHolds(Triggers, p.triggers);
    TaggedHolds(Feedback, p.feedbacks);
    TaggedHolds(Transcript, p.transcripts);
  }

  lemma TaggedHolds(kind: Kind, records: seq<Record>)
    ensures forall r :: r in records ==> Item(kind, r.eventId, r.session, r.line) in Tagged(kind, records)
  {
    forall r | r in records ensures Item(kind, r.eventId, r.session, r.line) in Tagged(kind, records) {
      var k :| 0 <= k < |records| && records[k] == r;
      assert Tagged(kind, records)[k] == Item(kind, r.eventId, r.session, r.line);
    }
  }

  lemma EncodableItems(p: Payload)
    requires Encodable(p)
    ensures EntryEncoded(Entry(Some(p), false))
  {
    forall i | 0 <= i < |p.Items()| ensures Encoded(p.Items()[i].line) {
      ItemIsPart(p, i);
    }
  }

  /** Each item of an event is one of its parts. */
  lemma ItemIsPart(p: Payload, i: nat)
    requires i < |p.Items()|
    ensures var x := p.Items()[i];
            || (x.kind == MoodWave && p.sample == Some(x.line) && x.session == p.session && x.eventId == p.eventId)
            || (x.kind == Triggers && Record(x.eventId, x.session, x.line) in p.triggers)
            || (x.kind == Feedback && Record(x.eventId, x.session, x.line) in p.feedbacks)
            || (x.kind == Transcript && Record(x.eventId, x.session, x.line) in p.transcripts)
  {
    var a, b, c := |p.Samples()|, |p.triggers|, |p.feedbacks|;
    var x := p.Items()[i];
    if a <= i < a + b {
      assert x == Tagged(Triggers, p.triggers)[i - a];
      assert Record(x.eventId, x.session, x.line) == p.triggers[i - a];
    } else if a + b <= i < a + b + c {
      assert x == Tagged(Feedback, p.feedbacks)[i - a - b];
      assert Record(x.eventId, x.session, x.line) == p.feedbacks[i - a - b];
    } else if a + b + c <= i {
      assert x == Tagged(Transcript, p.transcripts)[i - a - b - c];
      assert Record(x.eventId, x.session, x.line) == p.transcripts[i - a - b - c];
    }
  }

  lemma WrittenInBytes(w: World, item: Item)
    requires Written(w, item)
    ensures InObject(w, item.session, item.kind, item.line)
    ensures item.kind != MoodWave ==> InTable(w, item.kind, item.eventId)
  {
    var data := Content(w, Path(item.session, item.kind));
    ReadIff(data, 0, item.line);
  }

  lemma RecordsAreWritten(w: World, p: Payload, kind: Kind, records: seq<Record>)
    requires forall i :: 0 <= i < |p.Items()| ==> Written(w, p.Items()[i])
    requires kind != MoodWave && forall r :: r in records ==> Item(kind, r.eventId, r.session, r.line) in p.Items()
    ensures RecordsWritten(w, kind, records)
  {
    hide Written, InObject, InTable;
    forall r | r in records ensures InObject(w, r.session, kind, r.line) && InTable(w, kind, r.eventId) {
      WrittenInBytes(w, Item(kind, r.eventId, r.session, r.line));
    }
  }

  lemma ItemsWrittenIsEventWritten(w: World, p: Payload)
    requires forall i :: 0 <= i < |p.Items()| ==> Written(w, p.Items()[i])
    ensures EventWritten(w, p)
  {
    hide Written, InObject, RecordsWritten;
    PartsAreItems(p);
    RecordsAreWritten(w, p, Triggers, p.triggers);
    RecordsAreWritten(w, p, Feedback, p.feedbacks);
    RecordsAreWritten(w, p, Transcript, p.transcripts);
    if p.sample.Some? {
      WrittenInBytes(w, Item(MoodWave, p.eventId, p.session, p.sample.value));
    }
  }

  // ---------- runs ----------

  ghost predicate AllEncodable(actions: seq<Action>) {
    forall k :: 0 <= k < |actions| && actions[k].Enqueue? && actions[k].payload.Some? ==> Encodable(actions[k].payload.value)
  }

  lemma EncodableRun(actions: seq<Action>)
    requires AllEncodable(actions)
    ensures forall k :: 0 <= k < |actions| && actions[k].Enqueue? ==> EntryEncoded(Entry(actions[k].payload, false))
  {
    forall k | 0 <= k < |actions| && actions[k].Enqueue? ensures EntryEncoded(Entry(actions[k].payload, false)) {
      if actions[k].payload.Some? {
        EncodableItems(actions[k].payload.value);
      }
    }
  }

  /**
   Over every run, with failures between any two calls, crashes and redeliveries, every part of every
   acknowledged event is in its object, between newlines, and in its table.
   */
  lemma AckedIsWritten(actions: seq<Action>, i: nat, q: nat)
    requires i <= |actions| && AllEncodable(actions)
    requires var w := Run(EMPTY, actions, i); q < |w.queue| && w.queue[q].acked
    ensures var w := Run(EMPTY, actions, i); w.queue[q].payload.Some? && EventWritten(w, w.queue[q].payload.value)
  {
    hide Written, EventWritten, Run;
    EncodableRun(actions);
    WriterSafety(actions, i);
    var w := Run(EMPTY, actions, i);
    ItemsWrittenIsEventWritten(w, w.queue[q].payload.value);
  }

  /** The event has this line among its parts of this kind and session. */
  predicate HasPart(p: Payload, session: Id, kind: Kind, line: string) {
    match kind
    case MoodWave => p.sample == Some(line) && p.session == session
    case Triggers => exists r :: r in p.triggers && r.session == session && r.line == line
    case Feedback => exists r :: r in p.feedbacks && r.session == session && r.line == line
    case Transcript => exists r :: r in p.transcripts && r.session == session && r.line == line
  }

  /** Nothing else gets into an object: every line of it is a part of an event that was queued. */
  lemma LinesAreParts(actions: seq<Action>, i: nat, session: Id, kind: Kind, line: string)
    requires i <= |actions| && AllEncodable(actions)
    requires line != "" && InObject(Run(EMPTY, actions, i), session, kind, line)
    ensures var w := Run(EMPTY, actions, i);
            exists q :: 0 <= q < |w.queue| && w.queue[q].payload.Some? && HasPart(w.queue[q].payload.value, session, kind, line)
  {
    hide Run, HasPart;
    EncodableRun(actions);
    WriterSafety(actions, i);
    var w, path := Run(EMPTY, actions, i), Path(session, kind);
    ReadIff(w.objects[path], 0, line);
    assert LineEnqueued(w.queue, path, line);
    var item :| Enqueued(w.queue, item) && item.Where() == path && item.line == line;
    EnqueuedIsPart(w.queue, item);
  }

  lemma EnqueuedIsPart(queue: seq<Entry>, item: Item)
    requires Enqueued(queue, item)
    ensures exists q :: 0 <= q < |queue| && queue[q].payload.Some? && HasPart(queue[q].payload.value, item.session, item.kind, item.line)
  {
    var q, i :| 0 <= q < |queue| && queue[q].payload.Some?
      && 0 <= i < |queue[q].payload.value.Items()| && queue[q].payload.value.Items()[i] == item;
    ItemIsPart(queue[q].payload.value, i);
    var p := queue[q].payload.value;
    var r := Record(item.eventId, item.session, item.line);
    assert HasPart(p, item.session, item.kind, item.line) by {
      match item.kind
      case MoodWave =>
      case Triggers => assert r in p.triggers && r.session == item.session && r.line == item.line;
      case Feedback => assert r in p.feedbacks && r.session == item.session && r.line == item.line;
      case Transcript => assert r in p.transcripts && r.session == item.session && r.line == item.line;
    }
  }
}
