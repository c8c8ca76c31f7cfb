/**
 The durable writer: events are fetched from a queue (or pushed), each is written as
 table rows and JSON lines, and acknowledged last. Any remote call may fail, applied
 or not, and the process may stop between any two of them. One writer runs at a time.
 */
module DurableWriter {
  import opened Jsonl
  import opened Options

  const POLL_BATCH_SIZE: nat := 50

  type Id = string

  /** The directories of a session, and the tables of the last three. */
  datatype Kind = MoodWave | Triggers | Feedback | Transcript

  datatype Path = Path(session: Id, kind: Kind)

  /** One record of an event: its JSON line and, but for mood waves, its table row. */
  datatype Item = Item(kind: Kind, eventId: Id, session: Id, line: string)
  {
    function Where(): Path {
      Path(session, kind)
    }
  }

  /** A trigger, a feedback or a transcript chunk, with its own id and session, as a JSON line. */
  datatype Record = Record(eventId: Id, session: Id, line: string)

  function Tagged(kind: Kind, records: seq<Record>): (items: seq<Item>)
    ensures |items| == |records|
    ensures forall k :: 0 <= k < |records| ==> items[k] == Item(kind, records[k].eventId, records[k].session, records[k].line)
  {
    seq(|records|, k requires 0 <= k < |records| => Item(kind, records[k].eventId, records[k].session, records[k].line))
  }

  /** The event of one queue row; a mood wave sample goes by the id and the session of the event. */
  datatype Payload = Payload(eventId: Id, session: Id, sample: Option<string>,
                             triggers: seq<Record>, feedbacks: seq<Record>, transcripts: seq<Record>)
  {
    function Samples(): seq<Item> {
      if sample.Some? then [Item(MoodWave, eventId, session, sample.value)] else []
    }

    function Items(): seq<Item> {
      Samples() + Tagged(Triggers, triggers) + Tagged(Feedback, feedbacks) + Tagged(Transcript, transcripts)
    }
  }

  /** `payload` is None when the stored JSON does not decode. */
  datatype Entry = Entry(payload: Option<Payload>, acked: bool)

  /** How one remote call ends. `Torn` leaves junk where a write was under way. */
  datatype Outcome = Done | LostReply | NotApplied | Torn(junk: string)

  /** The calls to come: none fails, or they end as listed and the process stops after the list. */
  datatype Weather = Fair | Stormy(calls: seq<Outcome>)
  {
    function Next(): Outcome {
      if Fair? then Done else if calls == [] then NotApplied else calls[0]
    }

    function Later(): Weather {
      if Fair? || calls == [] then this else Stormy(calls[1..])
    }
  }

  datatype World = World(
    sessions: set<Id>,
    rows: seq<Item>,
    objects: map<Path, string>,
    staging: map<(Path, Id), string>,
    queue: seq<Entry>,
    weather: Weather)

  predicate Applied(o: Outcome) {
    o == Done || o == LostReply
  }

  function Content(w: World, path: Path): string {
    if path in w.objects then w.objects[path] else ""
  }

  function Tick(w: World): World {
    w.(weather := w.weather.Later())
  }

  // ---------- the calls and what is built from them ----------

  function EnsureSession(w: World, session: Id): (World, bool) {
    var o := w.weather.Next();
    (if Applied(o) then Tick(w).(sessions := w.sessions + {session}) else Tick(w), o == Done)
  }

  predicate HasRow(rows: seq<Item>, kind: Kind, eventId: Id) {
    exists k :: 0 <= k < |rows| && rows[k].kind == kind && rows[k].eventId == eventId
  }

  /** Insert, doing nothing on a conflict of event ids; a missing session is a foreign-key error. */
  function InsertRow(w: World, item: Item): (World, bool) {
    var o := w.weather.Next();
    if item.session !in w.sessions then (Tick(w), false)
    else if Applied(o) && !HasRow(w.rows, item.kind, item.eventId) then (Tick(w).(rows := w.rows + [item]), o == Done)
    else (Tick(w), o == Done)
  }

  function Stage(w: World, path: Path, eventId: Id, body: string): (World, bool) {
    match w.weather.Next()
    case Torn(junk) => (Tick(w).(staging := w.staging[(path, eventId) := junk]), false)
    case NotApplied => (Tick(w), false)
    case o => (Tick(w).(staging := w.staging[(path, eventId) := body]), o == Done)
  }

  function Stat(w: World): (World, bool) {
    (Tick(w), w.weather.Next() == Done)
  }

  /** Copy the staged object to the target if there was none, else compose target and staged object. */
  function Promote(w: World, path: Path, eventId: Id, exists_: bool): (World, bool) {
    var o := w.weather.Next();
    if (path, eventId) !in w.staging then (Tick(w), false)
    else if !Applied(o) then (Tick(w), false)
    else
      var staged := w.staging[(path, eventId)];
      var target := if exists_ then Content(w, path) + staged else staged;
      (Tick(w).(objects := w.objects[path := target]), o == Done)
  }

  /** The best-effort clean-up; its result is ignored. */
  function Unstage(w: World, path: Path, eventId: Id): World {
    if Applied(w.weather.Next()) then Tick(w).(staging := w.staging - {(path, eventId)}) else Tick(w)
  }

  function Append(w: World, path: Path, eventId: Id, line: string): (World, bool) {
    var (w1, staged) := Stage(w, path, eventId, line + [NEWLINE]);
    if !staged then (w1, false)
    else
      var (w2, known) := Stat(w1);
      if !known then (Unstage(w2, path, eventId), false)
      else
        var (w3, promoted) := Promote(w2, path, eventId, path in w2.objects);
        (Unstage(w3, path, eventId), promoted)
  }

  function WriteItem(w: World, item: Item): (World, bool) {
    if item.kind == MoodWave then Append(w, item.Where(), item.eventId, item.line)
    else
      var (w1, ok1) := EnsureSession(w, item.session);
      if !ok1 then (w1, false)
      else
        var (w2, ok2) := InsertRow(w1, item);
        if !ok2 then (w2, false) else Append(w2, item.Where(), item.eventId, item.line)
  }

  /** The items from the `i`-th on, up to the first that fails. */
  function WriteItems(w: World, items: seq<Item>, i: nat): (World, bool)
    requires i <= |items|
    decreases |items| - i
  {
    if i == |items| then (w, true)
    else
      var (w1, ok) := WriteItem(w, items[i]);
      if !ok then (w1, false) else WriteItems(w1, items, i + 1)
  }

  /** The stages of one event, each entered only if all before it were written. */
  function WriteStages(w: World, p: Payload): (World, bool) {
    var (w1, ok1) := if p.sample.Some? then WriteItem(w, Item(MoodWave, p.eventId, p.session, p.sample.value)) else (w, true);
    if !ok1 then (w1, false)
    else
      var (w2, ok2) := WriteItems(w1, Tagged(Triggers, p.triggers), 0);
      if !ok2 then (w2, false)
      else
        var (w3, ok3) := WriteItems(w2, Tagged(Feedback, p.feedbacks), 0);
        if !ok3 then (w3, false) else WriteItems(w3, Tagged(Transcript, p.transcripts), 0)
  }

  function Ack(w: World, q: nat): World
    requires q < |w.queue|
  {
    if Applied(w.weather.Next()) then Tick(w).(queue := w.queue[q := w.queue[q].(acked := true)]) else Tick(w)
  }

  /** One delivery: a payload that does not decode is skipped, a failed write leaves the event unacknowledged. */
  function Deliver(w: World, q: nat): (w': World)
    requires q < |w.queue|
    ensures |w'.queue| == |w.queue|
  {
    if w.queue[q].payload.None? then w
    else
      WriteItemsKeepsQueue(w, w.queue[q].payload.value.Items(), 0);
      var (w1, ok) := WriteItems(w, w.queue[q].payload.value.Items(), 0);
      if ok then Ack(w1, q) else w1
  }

  function DeliverAll(w: World, batch: seq<nat>, i: nat): (w': World)
    requires i <= |batch| && forall k :: 0 <= k < |batch| ==> batch[k] < |w.queue|
    ensures |w'.queue| == |w.queue|
    decreases |batch| - i
  {
    if i == |batch| then w else DeliverAll(Deliver(w, batch[i]), batch, i + 1)
  }

  /** The first `limit` unacknowledged rows from `q` on, oldest first. */
  function Unacked(queue: seq<Entry>, q: nat, limit: nat): (batch: seq<nat>)
    requires q <= |queue|
    ensures forall k :: 0 <= k < |batch| ==> batch[k] < |queue|
    decreases |queue| - q
  {
    if q == |queue| || limit == 0 then []
    else if queue[q].acked then Unacked(queue, q + 1, limit)
    else [q] + Unacked(queue, q + 1, limit - 1)
  }

  /** One tick of the poll loop. */
  function Poll(w: World): (w': World)
    ensures |w'.queue| == |w.queue|
  {
    if w.weather.Next() != Done then Tick(w)
    else DeliverAll(Tick(w), Unacked(w.queue, 0, POLL_BATCH_SIZE), 0)
  }

  lemma AppendKeepsQueue(w: World, path: Path, eventId: Id, line: string)
    ensures Append(w, path, eventId, line).0.queue == w.queue
  {
  }

  lemma WriteItemKeepsQueue(w: World, item: Item)
    ensures WriteItem(w, item).0.queue == w.queue
  {
    hide Append, HasRow;
    if item.kind == MoodWave {
      AppendKeepsQueue(w, item.Where(), item.eventId, item.line);
    } else {
      var w1 := EnsureSession(w, item.session).0;
      AppendKeepsQueue(InsertRow(w1, item).0, item.Where(), item.eventId, item.line);
    }
  }

  lemma {:induction false} WriteItemsKeepsQueue(w: World, items: seq<Item>, i: nat)
    requires i <= |items|
    ensures WriteItems(w, items, i).0.queue == w.queue
    decreases |items| - i
  {
    if i < |items| {
      WriteItemKeepsQueue(w, items[i]);
      WriteItemsKeepsQueue(WriteItem(w, items[i]).0, items, i + 1);
    }
  }

  lemma {:induction false} WriteItemsShift(w: World, a: seq<Item>, b: seq<Item>, i: nat)
    requires i <= |b|
    ensures WriteItems(w, a + b, |a| + i) == WriteItems(w, b, i)
    decreases |b| - i
  {
    hide WriteItem;
    if i < |b| {
      WriteItemsShift(WriteItem(w, b[i]).0, a, b, i + 1);
    }
  }

  lemma {:induction false} WriteItemsConcat(w: World, a: seq<Item>, b: seq<Item>, i: nat)
    requires i <= |a|
    ensures var (w1, ok) := WriteItems(w, a, i);
            WriteItems(w, a + b, i) == if ok then WriteItems(w1, b, 0) else (w1, false)
    decreases |a| - i
  {
    hide WriteItem;
    if i < |a| {
      WriteItemsConcat(WriteItem(w, a[i]).0, a, b, i + 1);
    } else {
      WriteItemsShift(w, a, b, 0);
    }
  }

  lemma WriteSamples(w: World, p: Payload)
    ensures WriteItems(w, p.Samples(), 0) ==
            if p.sample.Some? then WriteItem(w, Item(MoodWave, p.eventId, p.session, p.sample.value)) else (w, true)
  {
    hide WriteItem;
    var items := p.Samples();
    if p.sample.Some? {
      var (w1, ok) := WriteItem(w, items[0]);
      assert WriteItems(w1, items, 1) == (w1, true);
    }
  }

  /** An event's records are attempted in the order sample, triggers, feedbacks, transcripts, up to the first failure. */
  lemma ItemsInStages(w: World, p: Payload)
    ensures WriteItems(w, p.Items(), 0) == WriteStages(w, p)
  {
    hide WriteItem, WriteItems;
    var a, b, c, d := p.Samples(), Tagged(Triggers, p.triggers), Tagged(Feedback, p.feedbacks), Tagged(Transcript, p.transcripts);
    WriteSamples(w, p);
    WriteItemsConcat(w, a + b + c, d, 0);
    WriteItemsConcat(w, a + b, c, 0);
    WriteItemsConcat(w, a, b, 0);
  }

  // ---------- the imperative code ----------

  /** The remote state the writer works on, and the calls on it. */
  class Deployment {
    var sessions: set<Id>
    var rows: seq<Item>
    var objects: map<Path, string>
    var staging: map<(Path, Id), string>
    var queue: seq<Entry>
    var weather: Weather

    ghost function State(): World
      reads this
    {
      World(sessions, rows, objects, staging, queue, weather)
    }

    method Call() returns (o: Outcome)
      modifies this`weather
      ensures o == old(weather).Next() && State() == Tick(old(State()))
    {
      o := weather.Next();
      weather := weather.Later();
    }

    method EnsureSessionRow(session: Id) returns (ok: bool)
      modifies this
      ensures (State(), ok) == EnsureSession(old(State()), session)
    {
      var o := Call();
      if Applied(o) {
        sessions := sessions + {session};
      }
      return o == Done;
    }

    method Insert(item: Item) returns (ok: bool)
      modifies this
      ensures (State(), ok) == InsertRow(old(State()), item)
    {
      var o := Call();
      if item.session !in sessions {
        return false;
      }
      if Applied(o) && !HasRow(rows, item.kind, item.eventId) {
        rows := rows + [item];
      }
      return o == Done;
    }

    method WriteStaging(path: Path, eventId: Id, body: string) returns (ok: bool)
      modifies this
      ensures (State(), ok) == Stage(old(State()), path, eventId, body)
    {
      var o := Call();
      match o {
        case Torn(junk) => staging := staging[(path, eventId) := junk];
        case NotApplied =>
        case _ => staging := staging[(path, eventId) := body];
      }
      return o == Done;
    }

    method DeleteStaging(path: Path, eventId: Id)
      modifies this
      ensures State() == Unstage(old(State()), path, eventId)
    {
      var o := Call();
      if Applied(o) {
        staging := staging - {(path, eventId)};
      }
    }

    method CopyOrCompose(path: Path, eventId: Id, found: bool) returns (ok: bool)
      modifies this
      ensures (State(), ok) == Promote(old(State()), path, eventId, found)
    {
      var o := Call();
      if (path, eventId) !in staging || !Applied(o) {
        return false;
      }
      var staged := staging[(path, eventId)];
      if found {
        var target := if path in objects then objects[path] else "";
        objects := objects[path := target + staged];
      } else {
        objects := objects[path := staged];
      }
      return o == Done;
    }

    method AppendLineTo(path: Path, eventId: Id, line: string) returns (ok: bool)
      modifies this
      ensures (State(), ok) == Append(old(State()), path, eventId, line)
    {
      ok := WriteStaging(path, eventId, line + [NEWLINE]);
      if !ok { return false; }
      var o := Call();
      if o == Done {
        ok := CopyOrCompose(path, eventId, path in objects);
      } else {
        ok := false;
      }
      DeleteStaging(path, eventId);
    }

    method WriteOne(item: Item) returns (ok: bool)
      modifies this
      ensures (State(), ok) == WriteItem(old(State()), item)
    {
      if item.kind != MoodWave {
        ok := EnsureSessionRow(item.session);
        if !ok { return false; }
        ok := Insert(item);
        if !ok { return false; }
      }
      ok := AppendLineTo(item.Where(), item.eventId, item.line);
    }

    method WriteEvent(payload: Payload) returns (ok: bool)
      modifies this
      ensures (State(), ok) == WriteStages(old(State()), payload)
    {
      if payload.sample.Some? {
        ok := WriteOne(Item(MoodWave, payload.eventId, payload.session, payload.sample.value));
        if !ok { return false; }
      }
      ok := WriteRecords(Triggers, payload.triggers);
      if !ok { return false; }
      ok := WriteRecords(Feedback, payload.feedbacks);
      if !ok { return false; }
      ok := WriteRecords(Transcript, payload.transcripts);
    }

    /** The loop over one kind of records. */
    method WriteRecords(kind: Kind, records: seq<Record>) returns (ok: bool)
      modifies this
      ensures (State(), ok) == WriteItems(old(State()), Tagged(kind, records), 0)
    {
      hide WriteItem;
      ghost var items := Tagged(kind, records);
      for i := 0 to |records|
        invariant WriteItems(old(State()), items, 0) == WriteItems(State(), items, i)
      {
        ok := WriteOne(Item(kind, records[i].eventId, records[i].session, records[i].line));
        if !ok { return false; }
      }
      return true;
    }

    method HandleEvent(q: nat)
      requires q < |queue|
      modifies this
      ensures State() == Deliver(old(State()), q)
    {
      if queue[q].payload.None? { return; }
      var payload := queue[q].payload.value;
      WriteItemsKeepsQueue(State(), payload.Items(), 0);
      ItemsInStages(State(), payload);
      var ok := WriteEvent(payload);
      if !ok { return; }
      var o := Call();
      if Applied(o) {
        queue := queue[q := queue[q].(acked := true)];
      }
    }

    method FetchUnacked(limit: nat) returns (batch: seq<nat>)
      ensures batch == Unacked(queue, 0, limit)
    {
      hide Unacked;
      batch := [];
      var q := 0;
      while q < |queue| && |batch| < limit
        invariant 0 <= q <= |queue| && |batch| <= limit
        invariant Unacked(queue, 0, limit) == batch + Unacked(queue, q, limit - |batch|)
        decreases |queue| - q
      {
        UnackedStep(batch, queue, q, limit - |batch|);
        if !queue[q].acked {
          batch := batch + [q];
        }
        q := q + 1;
      }
      NoneLeft(queue, q, limit - |batch|);
      assert batch + [] == batch;
    }

    method PollLocalEvents()
      modifies this
      ensures State() == Poll(old(State()))
    {
      var o := Call();
      if o != Done { return; }
      var batch := FetchUnacked(POLL_BATCH_SIZE);
      ghost var start := State();
      for i := 0 to |batch|
        invariant |queue| == |start.queue|
        invariant DeliverAll(start, batch, 0) == DeliverAll(State(), batch, i)
      {
        HandleEvent(batch[i]);
      }
    }
  }

  lemma NoneLeft(queue: seq<Entry>, q: nat, limit: nat)
    requires q <= |queue| && (q == |queue| || limit == 0)
    ensures Unacked(queue, q, limit) == []
  {
  }

  lemma UnackedStep(batch: seq<nat>, queue: seq<Entry>, q: nat, limit: nat)
    requires q < |queue| && limit > 0
    ensures batch + Unacked(queue, q, limit) ==
            if queue[q].acked then batch + Unacked(queue, q + 1, limit)
            else batch + [q] + Unacked(queue, q + 1, limit - 1)
  {
    if !queue[q].acked {
      assert batch + ([q] + Unacked(queue, q + 1, limit - 1)) == batch + [q] + Unacked(queue, q + 1, limit - 1);
    }
  }

  // ---------- safety ----------

  /** The item belongs to an event that was enqueued. */
  ghost predicate Enqueued(queue: seq<Entry>, item: Item) {
    exists q, i :: 0 <= q < |queue| && queue[q].payload.Some?
      && 0 <= i < |queue[q].payload.value.Items()| && queue[q].payload.value.Items()[i] == item
  }

  ghost predicate LineEnqueued(queue: seq<Entry>, path: Path, line: string) {
    exists item :: Enqueued(queue, item) && item.Where() == path && item.line == line
  }

  /** The content is whole lines, each the line of an enqueued item of that path. */
  ghost predicate ContentSound(queue: seq<Entry>, path: Path, data: string) {
    WholeLines(data) && forall l :: l in ReadLines(data) ==> LineEnqueued(queue, path, l)
  }

  ghost predicate ObjectsSound(w: World) {
    forall path :: path in w.objects ==> ContentSound(w.queue, path, w.objects[path])
  }

  /** No event id has two rows in a table; each row is an enqueued item whose session exists. */
  ghost predicate RowsSound(w: World) {
    && (forall x, y :: 0 <= x < y < |w.rows| && w.rows[x].kind == w.rows[y].kind ==>
          w.rows[x].eventId != w.rows[y].eventId)
    && (forall x :: 0 <= x < |w.rows| ==>
          Enqueued(w.queue, w.rows[x]) && w.rows[x].kind != MoodWave && w.rows[x].session in w.sessions)
  }

  ghost predicate Sound(w: World) {
    ObjectsSound(w) && RowsSound(w)
  }

  /** The item's line can be read back, and its row is in its table. */
  ghost predicate Written(w: World, item: Item) {
    && item.line in ReadLines(Content(w, item.Where()))
    && (item.kind != MoodWave ==> HasRow(w.rows, item.kind, item.eventId))
  }

  /** Nothing written is lost: sessions, rows and lines are only added. */
  ghost predicate Grew(w: World, w': World) {
    && w.sessions <= w'.sessions && w.rows <= w'.rows && w'.queue == w.queue
    && forall path :: ReadLines(Content(w, path)) <= ReadLines(Content(w', path))
  }

  lemma GrewTwice(a: World, b: World, c: World)
    requires Grew(a, b) && Grew(b, c)
    ensures Grew(a, c)
  {
  }

  lemma WrittenStays(w: World, w': World, item: Item)
    requires Written(w, item) && Grew(w, w')
    ensures Written(w', item)
  {
    if item.kind != MoodWave {
      var k :| 0 <= k < |w.rows| && w.rows[k].kind == item.kind && w.rows[k].eventId == item.eventId;
      assert w'.rows[k] == w.rows[k];
    }
  }

  lemma EmptyIsSound(queue: seq<Entry>, path: Path)
    ensures ContentSound(queue, path, "") && ReadLines("") == []
  {
    assert Flatten([]) == "";
  }

  lemma AppendIsSound(queue: seq<Entry>, item: Item, data: string)
    requires ContentSound(queue, item.Where(), data) && Enqueued(queue, item) && Encoded(item.line)
    ensures ContentSound(queue, item.Where(), data + (item.line + [NEWLINE]))
    ensures ReadLines(data + (item.line + [NEWLINE])) == ReadLines(data) + [item.line]
  {
    AppendLine(data, item.line);
    assert data + (item.line + [NEWLINE]) == Appended(data, item.line);
    assert LineEnqueued(queue, item.Where(), item.line);
  }

  function WithContent(w: World, path: Path, data: string): World {
    w.(objects := w.objects[path := data])
  }

  /** Promoting a staged line: one more line at the end of its object, nothing else changes. */
  lemma PromoteAppends(w: World, item: Item)
    requires Sound(w) && Enqueued(w.queue, item) && Encoded(item.line)
    ensures var path := item.Where();
            var w' := WithContent(w, path, Content(w, path) + (item.line + [NEWLINE]));
            Sound(w') && Grew(w, w') && ReadLines(Content(w', path)) == ReadLines(Content(w, path)) + [item.line]
  {
    hide ReadLines, ContentSound;
    var path := item.Where();
    EmptyIsSound(w.queue, path);
    AppendIsSound(w.queue, item, Content(w, path));
  }

  /** The parts of the world that `Sound`, `Grew` and `Written` look at. */
  ghost predicate SameRecords(w: World, w': World) {
    w'.sessions == w.sessions && w'.rows == w.rows && w'.objects == w.objects && w'.queue == w.queue
  }

  lemma SameRecordsKeep(w: World, w': World)
    requires Sound(w) && SameRecords(w, w')
    ensures Sound(w') && Grew(w, w')
  {
    assert forall path :: Content(w', path) == Content(w, path);
  }

  /** Wherever an append fails, the records are as before or have the whole line added. */
  lemma AppendAllOrNothing(w: World, path: Path, id: Id, line: string)
    ensures var (w', ok) := Append(w, path, id, line);
            || (SameRecords(w, w') && !ok)
            || SameRecords(WithContent(w, path, Content(w, path) + (line + [NEWLINE])), w')
  {
    var body := line + [NEWLINE];
    assert "" + body == body;
    var (w1, staged) := Stage(w, path, id, body);
    if staged {
      assert w1.staging[(path, id)] == body;
    }
  }

  /** An append that may fail anywhere leaves the lines as they were or with the new one added. */
  lemma AppendKeepsSound(w: World, item: Item)
    requires Sound(w) && Enqueued(w.queue, item) && Encoded(item.line)
    ensures var (w', ok) := Append(w, item.Where(), item.eventId, item.line);
            var before, after := ReadLines(Content(w, item.Where())), ReadLines(Content(w', item.Where()));
            && Sound(w') && Grew(w, w')
            && (after == before || after == before + [item.line]) && (ok ==> after == before + [item.line])
  {
    var path := item.Where();
    AppendAllOrNothing(w, path, item.eventId, item.line);
    var w' := Append(w, path, item.eventId, item.line).0;
    var full := WithContent(w, path, Content(w, path) + (item.line + [NEWLINE]));
    PromoteAppends(w, item);
    if SameRecords(full, w') {
      SameRecordsKeep(full, w');
      GrewTwice(w, full, w');
    } else {
      SameRecordsKeep(w, w');
    }
  }

  lemma RowKeepsSound(w: World, item: Item)
    requires Sound(w) && Enqueued(w.queue, item) && item.kind != MoodWave
    ensures var (w', ok) := InsertRow(w, item);
            Sound(w') && Grew(w, w') && (ok ==> HasRow(w'.rows, item.kind, item.eventId))
  {
    var (w', ok) := InsertRow(w, item);
    assert forall path :: Content(w', path) == Content(w, path);
    if w'.rows != w.rows {
      assert w'.rows[|w.rows|] == item;
    }
  }

  lemma SessionKeepsSound(w: World, session: Id)
    requires Sound(w)
    ensures var w' := EnsureSession(w, session).0; Sound(w') && Grew(w, w')
  {
    var w' := EnsureSession(w, session).0;
    assert forall path :: Content(w', path) == Content(w, path);
  }

  lemma WriteItemKeepsSound(w: World, item: Item)
    requires Sound(w) && Enqueued(w.queue, item) && Encoded(item.line)
    ensures var (w', ok) := WriteItem(w, item); Sound(w') && Grew(w, w') && (ok ==> Written(w', item))
  {
    if item.kind == MoodWave {
      AppendKeepsSound(w, item);
    } else {
      var (w1, ok1) := EnsureSession(w, item.session);
      SessionKeepsSound(w, item.session);
      if ok1 {
        var (w2, ok2) := InsertRow(w1, item);
        RowKeepsSound(w1, item);
        GrewTwice(w, w1, w2);
        if ok2 {
          var (w3, ok3) := Append(w2, item.Where(), item.eventId, item.line);
          AppendKeepsSound(w2, item);
          GrewTwice(w, w2, w3);
          RowStays(w2, w3, item);
        }
      }
    }
  }

  lemma RowStays(w: World, w': World, item: Item)
    requires HasRow(w.rows, item.kind, item.eventId) && w.rows <= w'.rows
    ensures HasRow(w'.rows, item.kind, item.eventId)
  {
    var k :| 0 <= k < |w.rows| && w.rows[k].kind == item.kind && w.rows[k].eventId == item.eventId;
    assert w'.rows[k] == w.rows[k];
  }

  ghost predicate AllWritable(queue: seq<Entry>, items: seq<Item>) {
    forall k :: 0 <= k < |items| ==> Enqueued(queue, items[k]) && Encoded(items[k].line)
  }

  ghost predicate AllWritten(w: World, items: seq<Item>, i: nat) {
    forall k :: i <= k < |items| ==> Written(w, items[k])
  }

  lemma OneMoreWritten(w: World, w': World, items: seq<Item>, i: nat)
    requires i < |items| && Written(w, items[i]) && Grew(w, w') && AllWritten(w', items, i + 1)
    ensures AllWritten(w', items, i)
  {
    WrittenStays(w, w', items[i]);
  }

  lemma {:induction false} WriteItemsKeepsSound(w: World, items: seq<Item>, i: nat)
    requires Sound(w) && i <= |items| && AllWritable(w.queue, items)
    ensures var (w', ok) := WriteItems(w, items, i); Sound(w') && Grew(w, w') && (ok ==> AllWritten(w', items, i))
    decreases |items| - i
  {
    if i == |items| {
      SameRecordsKeep(w, w);
    } else {
      var (w1, ok) := WriteItem(w, items[i]);
      WriteItemKeepsSound(w, items[i]);
      if ok {
        var (w2, ok2) := WriteItems(w1, items, i + 1);
        WriteItemsKeepsSound(w1, items, i + 1);
        GrewTwice(w, w1, w2);
        if ok2 {
          OneMoreWritten(w1, w2, items, i);
        }
      }
    }
  }

  /** What an event's records are encoded as: json.Marshal writes no newline and nothing empty. */
  ghost predicate EntryEncoded(e: Entry) {
    e.payload.Some? ==> forall i :: 0 <= i < |e.payload.value.Items()| ==> Encoded(e.payload.value.Items()[i].line)
  }

  /** Every acknowledged event has all its rows and every one of its lines. */
  ghost predicate AckedWritten(w: World) {
    forall q :: 0 <= q < |w.queue| && w.queue[q].acked ==>
      && w.queue[q].payload.Some?
      && forall i :: 0 <= i < |w.queue[q].payload.value.Items()| ==> Written(w, w.queue[q].payload.value.Items()[i])
  }

  ghost predicate Safe(w: World) {
    Sound(w) && AckedWritten(w) && forall q :: 0 <= q < |w.queue| ==> EntryEncoded(w.queue[q])
  }

  lemma AckedStay(w: World, w': World)
    requires AckedWritten(w) && Grew(w, w')
    ensures AckedWritten(w')
  {
    forall q, i | 0 <= q < |w'.queue| && w'.queue[q].acked && 0 <= i < |w'.queue[q].payload.value.Items()|
      ensures Written(w', w'.queue[q].payload.value.Items()[i])
    {
      WrittenStays(w, w', w.queue[q].payload.value.Items()[i]);
    }
  }

  /** Two queues with the same events, whatever is acknowledged. */
  ghost predicate SameEvents(a: seq<Entry>, b: seq<Entry>) {
    |a| == |b| && forall q :: 0 <= q < |a| ==> a[q].payload == b[q].payload
  }

  lemma EnqueuedStays(a: seq<Entry>, b: seq<Entry>, item: Item)
    requires Enqueued(a, item)
    requires |a| <= |b| && forall q :: 0 <= q < |a| ==> a[q].payload == b[q].payload
    ensures Enqueued(b, item)
  {
    var q, i :| 0 <= q < |a| && a[q].payload.Some?
      && 0 <= i < |a[q].payload.value.Items()| && a[q].payload.value.Items()[i] == item;
    assert b[q].payload == a[q].payload;
  }

  lemma QueueKeepsSound(w: World, queue: seq<Entry>)
    requires Sound(w)
    requires |w.queue| <= |queue| && forall q :: 0 <= q < |w.queue| ==> w.queue[q].payload == queue[q].payload
    ensures Sound(w.(queue := queue))
  {
    forall path, l | path in w.objects && l in ReadLines(w.objects[path])
      ensures LineEnqueued(queue, path, l)
    {
      assert LineEnqueued(w.queue, path, l);
      var item :| Enqueued(w.queue, item) && item.Where() == path && item.line == l;
      EnqueuedStays(w.queue, queue, item);
    }
    forall x | 0 <= x < |w.rows| ensures Enqueued(queue, w.rows[x]) {
      EnqueuedStays(w.queue, queue, w.rows[x]);
    }
  }

  lemma AckKeepsSafe(w: World, q: nat)
    requires Safe(w) && q < |w.queue| && w.queue[q].payload.Some?
    requires forall i :: 0 <= i < |w.queue[q].payload.value.Items()| ==> Written(w, w.queue[q].payload.value.Items()[i])
    ensures Safe(Ack(w, q))
  {
    var w' := Ack(w, q);
    QueueKeepsSound(w, w'.queue);
    assert w'.rows == w.rows && w'.objects == w.objects && w'.sessions == w.sessions;
    forall p, i | 0 <= p < |w'.queue| && w'.queue[p].acked && w'.queue[p].payload.Some? && 0 <= i < |w'.queue[p].payload.value.Items()|
      ensures Written(w', w'.queue[p].payload.value.Items()[i])
    {
      var item := w.queue[p].payload.value.Items()[i];
      assert Written(w, item);
    }
  }

  lemma DeliverKeepsSafe(w: World, q: nat)
    requires Safe(w) && q < |w.queue|
    ensures Safe(Deliver(w, q))
  {
    if w.queue[q].payload.Some? {
      var items := w.queue[q].payload.value.Items();
      assert EntryEncoded(w.queue[q]);
      assert AllWritable(w.queue, items);
      WriteItemsKeepsSound(w, items, 0);
      var (w1, ok) := WriteItems(w, items, 0);
      AckedStay(w, w1);
      if ok {
        AckKeepsSafe(w1, q);
      }
    }
  }

  lemma {:induction false} DeliverAllKeepsSafe(w: World, batch: seq<nat>, i: nat)
    requires Safe(w) && i <= |batch| && forall k :: 0 <= k < |batch| ==> batch[k] < |w.queue|
    ensures Safe(DeliverAll(w, batch, i))
    decreases |batch| - i
  {
    if i < |batch| {
      DeliverKeepsSafe(w, batch[i]);
      DeliverAllKeepsSafe(Deliver(w, batch[i]), batch, i + 1);
    }
  }

  /** A step of a run: an event is queued, the poll loop ticks, or one event is delivered (again). */
  datatype Action = Enqueue(payload: Option<Payload>) | PollTick(weather: Weather) | Push(q: nat, weather: Weather)

  function Act(w: World, a: Action): World {
    match a
    case Enqueue(payload) => w.(queue := w.queue + [Entry(payload, false)])
    case PollTick(weather) => Poll(w.(weather := weather))
    case Push(q, weather) => if q < |w.queue| then Deliver(w.(weather := weather), q) else w
  }

  function Run(w: World, actions: seq<Action>, i: nat): World
    requires i <= |actions|
  {
    if i == 0 then w else Act(Run(w, actions, i - 1), actions[i - 1])
  }

  const EMPTY := World({}, [], map[], map[], [], Fair)

  lemma WeatherKeepsSafe(w: World, weather: Weather)
    requires Safe(w)
    ensures Safe(w.(weather := weather))
  {
    var w' := w.(weather := weather);
    SameRecordsKeep(w, w');
    AckedStay(w, w');
  }

  lemma EnqueueKeepsSafe(w: World, payload: Option<Payload>)
    requires Safe(w) && EntryEncoded(Entry(payload, false))
    ensures Safe(w.(queue := w.queue + [Entry(payload, false)]))
  {
    var w' := w.(queue := w.queue + [Entry(payload, false)]);
    QueueKeepsSound(w, w'.queue);
    forall q, i | 0 <= q < |w'.queue| && w'.queue[q].acked && 0 <= i < |w'.queue[q].payload.value.Items()|
      ensures Written(w', w'.queue[q].payload.value.Items()[i])
    {
      assert Written(w, w.queue[q].payload.value.Items()[i]);
    }
  }

  lemma ActKeepsSafe(w: World, a: Action)
    requires Safe(w) && (a.Enqueue? ==> EntryEncoded(Entry(a.payload, false)))
    ensures Safe(Act(w, a))
  {
    match a
    case Enqueue(payload) => EnqueueKeepsSafe(w, payload);
    case PollTick(weather) =>
      WeatherKeepsSafe(w, weather);
      var w1 := w.(weather := weather);
      WeatherKeepsSafe(w1, weather.Later());
      assert Tick(w1) == w1.(weather := weather.Later());
      DeliverAllKeepsSafe(Tick(w1), Unacked(w1.queue, 0, POLL_BATCH_SIZE), 0);
    case Push(q, weather) =>
      WeatherKeepsSafe(w, weather);
      if q < |w.queue| {
        DeliverKeepsSafe(w.(weather := weather), q);
      }
  }

  /**
   Writer safety, over every run with failures between any two calls, crashes, polls and
   redeliveries: every object is whole newline-terminated lines of enqueued events, no event
   id has two rows in a table, and every acknowledged event has all its rows and lines.
   */
  lemma {:induction false} WriterSafety(actions: seq<Action>, i: nat)
    requires i <= |actions|
    requires forall k :: 0 <= k < |actions| && actions[k].Enqueue? ==> EntryEncoded(Entry(actions[k].payload, false))
    ensures Safe(Run(EMPTY, actions, i))
  {
    if i > 0 {
      WriterSafety(actions, i - 1);
      ActKeepsSafe(Run(EMPTY, actions, i - 1), actions[i - 1]);
    }
  }

  /** Event ids are unique: two enqueued items with the same id in a table are the same. */
  ghost predicate UniqueIds(queue: seq<Entry>) {
    forall a, b :: Enqueued(queue, a) && Enqueued(queue, b) && a.kind == b.kind && a.eventId == b.eventId ==> a == b
  }

  /** With unique event ids, the row that an acknowledged item has is the item's own. */
  lemma AckedRowIsOwn(w: World, q: nat, i: nat)
    requires Safe(w) && UniqueIds(w.queue) && q < |w.queue| && w.queue[q].acked
    requires w.queue[q].payload.Some? && i < |w.queue[q].payload.value.Items()|
    requires w.queue[q].payload.value.Items()[i].kind != MoodWave
    ensures w.queue[q].payload.value.Items()[i] in w.rows
  {
    var item := w.queue[q].payload.value.Items()[i];
    assert Written(w, item) && Enqueued(w.queue, item);
    var k :| 0 <= k < |w.rows| && w.rows[k].kind == item.kind && w.rows[k].eventId == item.eventId;
    assert Enqueued(w.queue, w.rows[k]);
  }

  /** Without failures an append is the local store's: the line is added at the end, once, and nothing is left staged. */
  lemma FairAppendIsLocal(w: World, path: Path, eventId: Id, line: string)
    requires w.weather.Fair? && (path, eventId) !in w.staging
    ensures var data := Content(w, path);
            Append(w, path, eventId, line) == (w.(objects := w.objects[path := Appended(data, line)]), true)
  {
    var body := line + [NEWLINE];
    assert Content(w, path) + body == Appended(Content(w, path), line);
    assert "" + body == body;
    assert w.staging[(path, eventId) := body] - {(path, eventId)} == w.staging;
  }
}
