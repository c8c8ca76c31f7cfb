/** In which order an event's parts reach their objects, and what an append leaves staged. */
module WriterOrder {
  import opened Jsonl
  import opened Options
  import opened DurableWriter
  import opened WriterCounts
  import opened WriterRecords

  lemma WriteItemOther(w: World, item: Item, path: Path)
    requires item.kind != path.kind
    ensures Content(WriteItem(w, item).0, path) == Content(w, path)
  {
    hide Append, EnsureSession, InsertRow, Content;
    if item.kind == MoodWave {
      OtherPathStays(w, item.Where(), item.eventId, item.line, path);
    } else {
      RowsWriteNoLines(w, item, path);
      var w1 := EnsureSession(w, item.session).0;
      RowsWriteNoLines(w1, item, path);
      OtherPathStays(InsertRow(w1, item).0, item.Where(), item.eventId, item.line, path);
    }
  }

  ghost predicate NoneOf(items: seq<Item>, kind: Kind) {
    forall k :: 0 <= k < |items| ==> items[k].kind != kind
  }

  lemma {:induction false} OthersUntouched(w: World, items: seq<Item>, i: nat, path: Path)
    requires i <= |items| && NoneOf(items, path.kind)
    ensures Content(WriteItems(w, items, i).0, path) == Content(w, path)
    decreases |items| - i
  {
    hide WriteItem, Content;
    if i < |items| {
      WriteItemOther(w, items[i], path);
      OthersUntouched(WriteItem(w, items[i]).0, items, i + 1, path);
    }
  }

  /** If an object that none of `a` goes to has changed, all of `a` has been written. */
  lemma EarlierAreWritten(w: World, a: seq<Item>, b: seq<Item>, path: Path)
    requires Sound(w) && AllWritable(w.queue, a) && AllWritable(w.queue, b) && NoneOf(a, path.kind)
    requires Content(WriteItems(w, a + b, 0).0, path) != Content(w, path)
    ensures AllWritten(WriteItems(w, a + b, 0).0, a, 0)
  {
    hide WriteItems, Sound, AllWritable, Written, Content;
    WriteItemsConcat(w, a, b, 0);
    var (w1, ok) := WriteItems(w, a, 0);
    OthersUntouched(w, a, 0, path);
    WriteItemsKeepsSound(w, a, 0);
    WriteItemsKeepsQueue(w, a, 0);
    WriteItemsKeepsSound(w1, b, 0);
    var w2 := WriteItems(w1, b, 0).0;
    forall k | 0 <= k < |a| ensures Written(w2, a[k]) {
      WrittenStays(w1, w2, a[k]);
    }
  }

  /** The first `n` of the sample, the triggers, the feedbacks and the transcripts. */
  function FirstParts(p: Payload, n: nat): seq<Item> {
    (if n > 0 then p.Samples() else []) + (if n > 1 then Tagged(Triggers, p.triggers) else [])
    + (if n > 2 then Tagged(Feedback, p.feedbacks) else []) + (if n > 3 then Tagged(Transcript, p.transcripts) else [])
  }

  function RestParts(p: Payload, n: nat): seq<Item> {
    (if n > 0 then [] else p.Samples()) + (if n > 1 then [] else Tagged(Triggers, p.triggers))
    + (if n > 2 then [] else Tagged(Feedback, p.feedbacks)) + (if n > 3 then [] else Tagged(Transcript, p.transcripts))
  }

  lemma PartsSplit(p: Payload, n: nat)
    requires n <= 4
    ensures FirstParts(p, n) + RestParts(p, n) == p.Items()
  {
  }

  /** The place of a kind in the order in which an event is written. */
  function Place(kind: Kind): nat {
    match kind
    case MoodWave => 0
    case Triggers => 1
    case Feedback => 2
    case Transcript => 3
  }

  lemma FirstPartsAre(p: Payload, n: nat, k: nat)
    requires k < |FirstParts(p, n)|
    ensures Place(FirstParts(p, n)[k].kind) < n
  {
  }

  lemma WritableParts(queue: seq<Entry>, p: Payload, n: nat)
    requires n <= 4 && AllWritable(queue, p.Items())
    ensures AllWritable(queue, FirstParts(p, n)) && AllWritable(queue, RestParts(p, n))
  {
    hide Enqueued, Encoded, FirstParts, RestParts;
    PartsSplit(p, n);
    var a, b := FirstParts(p, n), RestParts(p, n);
    forall k | 0 <= k < |a| ensures Enqueued(queue, a[k]) && Encoded(a[k].line) {
      assert p.Items()[k] == a[k];
    }
    forall k | 0 <= k < |b| ensures Enqueued(queue, b[k]) && Encoded(b[k].line) {
      assert p.Items()[|a| + k] == b[k];
    }
  }

  lemma StagesInOrder(w: World, p: Payload, session: Id, kind: Kind)
    requires Sound(w) && AllWritable(w.queue, p.Items())
    requires Content(WriteStages(w, p).0, Path(session, kind)) != Content(w, Path(session, kind))
    ensures BeforeIsWritten(WriteStages(w, p).0, p, kind)
  {
    hide WriteStages, WriteItems, Sound, AllWritable, Content, RecordsWritten, InObject, FirstParts, RestParts;
    var n := Place(kind);
    var a, b := FirstParts(p, n), RestParts(p, n);
    ItemsInStages(w, p);
    PartsSplit(p, n);
    WritableParts(w.queue, p, n);
    forall k | 0 <= k < |a| ensures a[k].kind != kind {
      FirstPartsAre(p, n, k);
    }
    EarlierAreWritten(w, a, b, Path(session, kind));
    FirstPartsWritten(w, WriteStages(w, p).0, p, n);
  }

  /** What comes before this kind in an event is in its objects and tables. */
  ghost predicate BeforeIsWritten(w: World, p: Payload, kind: Kind) {
    && (kind != MoodWave && p.sample.Some? ==> InObject(w, p.session, MoodWave, p.sample.value))
    && (kind in {Feedback, Transcript} ==> RecordsWritten(w, Triggers, p.triggers))
    && (kind == Transcript ==> RecordsWritten(w, Feedback, p.feedbacks))
  }

  /**
   The order of writing, seen from outside: in any delivery, wherever it fails, an object of the
   triggers changes only after the sample is written, one of the feedbacks only after all triggers are,
   and one of the transcripts only after all feedbacks are.
   */
  lemma WrittenInOrder(w: World, q: nat, session: Id, kind: Kind)
    requires Safe(w) && q < |w.queue| && w.queue[q].payload.Some?
    requires Content(Deliver(w, q), Path(session, kind)) != Content(w, Path(session, kind))
    ensures BeforeIsWritten(Deliver(w, q), w.queue[q].payload.value, kind)
  {
    var p := w.queue[q].payload.value;
    assert EntryEncoded(w.queue[q]);
    assert AllWritable(w.queue, p.Items());
    hide Sound, WriteItems, WriteStages, AllWritable, EntryEncoded, Enqueued, AckedWritten, BeforeIsWritten, Ack;
    WriteItemsKeepsQueue(w, p.Items(), 0);
    ItemsInStages(w, p);
    var w1 := WriteStages(w, p).0;
    AckWritesNoLines(w1, q, Path(session, kind));
    StagesInOrder(w, p, session, kind);
    SameObjects(w1, q, p, kind);
  }

  lemma SameObjects(w: World, q: nat, p: Payload, kind: Kind)
    requires q < |w.queue| && BeforeIsWritten(w, p, kind)
    ensures BeforeIsWritten(Ack(w, q), p, kind)
  {
    hide HoldsLine;
  }

  lemma FirstPartsWritten(w: World, w': World, p: Payload, n: nat)
    requires AllWritten(w', FirstParts(p, n), 0)
    ensures n > 0 && p.sample.Some? ==> InObject(w', p.session, MoodWave, p.sample.value)
    ensures n > 1 ==> RecordsWritten(w', Triggers, p.triggers)
    ensures n > 2 ==> RecordsWritten(w', Feedback, p.feedbacks)
  {
    var a := FirstParts(p, n);
    hide Written, InObject, InTable;
    forall item | item in a ensures Written(w', item) {
      var k :| 0 <= k < |a| && a[k] == item;
    }
    if n > 0 && p.sample.Some? {
      var item := Item(MoodWave, p.eventId, p.session, p.sample.value);
      assert p.Samples()[0] == item && item in a;
      WrittenInBytes(w', item);
    }
    if n > 1 {
      TaggedHolds(Triggers, p.triggers);
      WrittenRecords(w', a, Triggers, p.triggers);
    }
    if n > 2 {
      TaggedHolds(Feedback, p.feedbacks);
      WrittenRecords(w', a, Feedback, p.feedbacks);
    }
  }

  lemma WrittenRecords(w: World, items: seq<Item>, kind: Kind, records: seq<Record>)
    requires kind != MoodWave
    requires forall r :: r in records ==> Item(kind, r.eventId, r.session, r.line) in items
    requires forall item :: item in items ==> Written(w, item)
    ensures RecordsWritten(w, kind, records)
  {
    hide Written, InObject, InTable;
    forall r | r in records ensures InObject(w, r.session, kind, r.line) && InTable(w, kind, r.eventId) {
      WrittenInBytes(w, Item(kind, r.eventId, r.session, r.line));
    }
  }

  /**
   An append whose line was staged ends with the deletion of what it staged, also when it could not look
   at the object or could not promote; if that last call reaches the store nothing is left.
   */
  lemma AppendCleansUp(w: World, path: Path, eventId: Id, line: string)
    requires w.weather.Stormy? && |w.weather.calls| >= 4 && w.weather.calls[0] == Done
    requires Applied(w.weather.calls[if w.weather.calls[1] == Done then 3 else 2])
    ensures (path, eventId) !in Append(w, path, eventId, line).0.staging
  {
    hide Content;
    var calls := w.weather.calls;
    assert calls[1..][0] == calls[1] && calls[1..][1..] == calls[2..] && calls[2..][1..] == calls[3..];
  }
}
