/**
 Progress of the poll loop. Payloads that do not decode are skipped but never
 acknowledged, so they keep their places at the head of every later batch.
 */
module PollProgress {
  import opened DurableWriter

  /** Events before `q` whose payload does not decode. */
  function PoisonBefore(queue: seq<Entry>, q: nat): (n: nat)
    requires q <= |queue|
  {
    if q == 0 then 0 else PoisonBefore(queue, q - 1) + (if queue[q - 1].payload.None? then 1 else 0)
  }

  /** Unacknowledged events before `q`. */
  function WaitingBefore(queue: seq<Entry>, q: nat): nat
    requires q <= |queue|
  {
    if q == 0 then 0 else WaitingBefore(queue, q - 1) + (if queue[q - 1].acked then 0 else 1)
  }

  predicate Ready(e: Entry) {
    e.payload.Some? && !e.acked
  }

  function ReadyBefore(queue: seq<Entry>, q: nat): nat
    requires q <= |queue|
  {
    if q == 0 then 0 else ReadyBefore(queue, q - 1) + (if Ready(queue[q - 1]) then 1 else 0)
  }

  lemma {:induction false} WaitingGrows(queue: seq<Entry>, p: nat, q: nat)
    requires p <= q <= |queue|
    ensures WaitingBefore(queue, p) <= WaitingBefore(queue, q) <= WaitingBefore(queue, p) + (q - p)
    ensures PoisonBefore(queue, p) <= PoisonBefore(queue, q)
    decreases q - p
  {
    if p < q {
      WaitingGrows(queue, p, q - 1);
    }
  }

  /** An unacknowledged event is fetched exactly when fewer than `limit` others wait before it. */
  lemma {:induction false} FetchedIff(queue: seq<Entry>, p: nat, limit: nat, q: nat)
    requires p <= q < |queue| && !queue[q].acked
    ensures q in Unacked(queue, p, limit) <==> WaitingBefore(queue, q) - WaitingBefore(queue, p) < limit
    decreases q - p
  {
    WaitingGrows(queue, p, q);
    if limit > 0 {
      var later := Unacked(queue, p + 1, if queue[p].acked then limit else limit - 1);
      if p < q {
        FetchedIff(queue, p + 1, if queue[p].acked then limit else limit - 1, q);
        assert q in Unacked(queue, p, limit) <==> q in later;
      } else {
        assert Unacked(queue, p, limit) == [q] + later;
      }
    }
  }

  // ---------- what a poll does to the queue ----------

  /** `after` is `before` with some events acknowledged. */
  ghost predicate Acknowledges(before: seq<Entry>, after: seq<Entry>) {
    && |before| == |after|
    && forall q :: 0 <= q < |before| ==>
         before[q].payload == after[q].payload && (before[q].acked ==> after[q].acked)
  }

  lemma DeliverAcknowledges(w: World, q: nat)
    requires q < |w.queue|
    ensures var w' := Deliver(w, q);
            && Acknowledges(w.queue, w'.queue)
            && (forall k :: 0 <= k < |w.queue| && k != q ==> w'.queue[k] == w.queue[k])
            && (w.queue[q].payload.None? ==> w'.queue == w.queue)
  {
    if w.queue[q].payload.Some? {
      WriteItemsKeepsQueue(w, w.queue[q].payload.value.Items(), 0);
    }
  }

  lemma {:induction false} DeliverAllAcknowledges(w: World, batch: seq<nat>, i: nat)
    requires i <= |batch| && forall k :: 0 <= k < |batch| ==> batch[k] < |w.queue|
    ensures var w' := DeliverAll(w, batch, i);
            && Acknowledges(w.queue, w'.queue)
            && (forall k :: 0 <= k < |w.queue| && k !in batch ==> w'.queue[k] == w.queue[k])
            && (forall k :: 0 <= k < |w.queue| && w.queue[k].payload.None? ==> w'.queue[k] == w.queue[k])
    decreases |batch| - i
  {
    if i < |batch| {
      DeliverAcknowledges(w, batch[i]);
      DeliverAllAcknowledges(Deliver(w, batch[i]), batch, i + 1);
    }
  }

  // ---------- starvation ----------

  ghost predicate PoisonUnacked(queue: seq<Entry>) {
    forall k :: 0 <= k < |queue| && queue[k].payload.None? ==> !queue[k].acked
  }

  lemma {:induction false} PoisonWaits(queue: seq<Entry>, q: nat)
    requires PoisonUnacked(queue) && q <= |queue|
    ensures PoisonBefore(queue, q) <= WaitingBefore(queue, q)
  {
    if q > 0 {
      PoisonWaits(queue, q - 1);
    }
  }

  lemma {:induction false} PoisonSame(a: seq<Entry>, b: seq<Entry>, q: nat)
    requires q <= |a| && q <= |b| && forall k :: 0 <= k < q ==> a[k].payload == b[k].payload
    ensures PoisonBefore(a, q) == PoisonBefore(b, q)
  {
    if q > 0 {
      PoisonSame(a, b, q - 1);
    }
  }

  /** The actions of the local backend: events are queued and the loop polls, in any weather. */
  predicate Local(a: Action) {
    a.Enqueue? || a.PollTick?
  }

  lemma PollSkips(w: World, q: nat)
    requires PoisonUnacked(w.queue) && q < |w.queue| && !w.queue[q].acked
    requires PoisonBefore(w.queue, q) >= POLL_BATCH_SIZE
    ensures var w' := Poll(w); PoisonUnacked(w'.queue) && !w'.queue[q].acked && PoisonBefore(w'.queue, q) >= POLL_BATCH_SIZE
  {
    if w.weather.Next() == Done {
      PoisonWaits(w.queue, q);
      FetchedIff(w.queue, 0, POLL_BATCH_SIZE, q);
      DeliverAllAcknowledges(Tick(w), Unacked(w.queue, 0, POLL_BATCH_SIZE), 0);
    }
    PoisonSame(w.queue, Poll(w).queue, q);
  }

  /** Behind a batch of undecodable events, an event is never acknowledged, whatever comes. */
  lemma {:induction false} PoisonStarves(w: World, actions: seq<Action>, i: nat, q: nat)
    requires i <= |actions| && forall k :: 0 <= k < |actions| ==> Local(actions[k])
    requires PoisonUnacked(w.queue) && q < |w.queue| && !w.queue[q].acked
    requires PoisonBefore(w.queue, q) >= POLL_BATCH_SIZE
    ensures var queue := Run(w, actions, i).queue;
            && PoisonUnacked(queue) && q < |queue| && !queue[q].acked && PoisonBefore(queue, q) >= POLL_BATCH_SIZE
  {
    if i > 0 {
      PoisonStarves(w, actions, i - 1, q);
      var w1 := Run(w, actions, i - 1);
      match actions[i - 1] {
        case Enqueue(payload) =>
          PoisonSame(w1.queue, w1.queue + [Entry(payload, false)], q);
        case PollTick(weather) =>
          PollSkips(w1.(weather := weather), q);
      }
    }
  }

  // ---------- progress ----------

  lemma FairItemWritten(w: World, item: Item)
    requires w.weather.Fair?
    ensures WriteItem(w, item).1 && WriteItem(w, item).0.weather.Fair?
  {
  }

  lemma {:induction false} FairItemsWritten(w: World, items: seq<Item>, i: nat)
    requires w.weather.Fair? && i <= |items|
    ensures WriteItems(w, items, i).1 && WriteItems(w, items, i).0.weather.Fair?
    decreases |items| - i
  {
    if i < |items| {
      FairItemWritten(w, items[i]);
      FairItemsWritten(WriteItem(w, items[i]).0, items, i + 1);
    }
  }

  lemma FairDelivery(w: World, q: nat)
    requires w.weather.Fair? && q < |w.queue|
    ensures Deliver(w, q).weather.Fair?
    ensures w.queue[q].payload.Some? ==> Deliver(w, q).queue[q].acked
  {
    if w.queue[q].payload.Some? {
      WriteItemsKeepsQueue(w, w.queue[q].payload.value.Items(), 0);
      FairItemsWritten(w, w.queue[q].payload.value.Items(), 0);
    }
  }

  lemma {:induction false} FairDeliveries(w: World, batch: seq<nat>, i: nat)
    requires w.weather.Fair? && i <= |batch| && forall k :: 0 <= k < |batch| ==> batch[k] < |w.queue|
    ensures var w' := DeliverAll(w, batch, i);
            forall k :: i <= k < |batch| && w.queue[batch[k]].payload.Some? ==> w'.queue[batch[k]].acked
    decreases |batch| - i
  {
    if i < |batch| {
      var w1 := Deliver(w, batch[i]);
      FairDelivery(w, batch[i]);
      DeliverAcknowledges(w, batch[i]);
      FairDeliveries(w1, batch, i + 1);
      DeliverAllAcknowledges(w1, batch, i + 1);
    }
  }

  lemma {:induction false} NothingReadyWaits(queue: seq<Entry>, q: nat)
    requires q <= |queue| && forall k :: 0 <= k < q ==> !Ready(queue[k])
    ensures WaitingBefore(queue, q) <= PoisonBefore(queue, q)
  {
    if q > 0 {
      NothingReadyWaits(queue, q - 1);
    }
  }

  function FirstReady(queue: seq<Entry>, k: nat, q: nat): (g: nat)
    requires k <= q < |queue| && Ready(queue[q]) && forall j :: 0 <= j < k ==> !Ready(queue[j])
    ensures g <= q && Ready(queue[g]) && forall j :: 0 <= j < g ==> !Ready(queue[j])
    decreases q - k
  {
    if Ready(queue[k]) then k else FirstReady(queue, k + 1, q)
  }

  lemma {:induction false} ReadyShrinks(a: seq<Entry>, b: seq<Entry>, q: nat, g: nat)
    requires Acknowledges(a, b) && q <= |a|
    ensures ReadyBefore(b, q) <= ReadyBefore(a, q)
    ensures g < q && Ready(a[g]) && !Ready(b[g]) ==> ReadyBefore(b, q) < ReadyBefore(a, q)
  {
    if q > 0 {
      ReadyShrinks(a, b, q - 1, g);
    }
  }

  /** A fair poll acknowledges the first decodable event that waits, if fewer than a batch of others block it. */
  lemma FairPollAdvances(w: World, q: nat)
    requires w.weather.Fair? && q < |w.queue| && Ready(w.queue[q])
    requires PoisonBefore(w.queue, q) < POLL_BATCH_SIZE
    ensures var w' := Poll(w);
            && Acknowledges(w.queue, w'.queue)
            && ReadyBefore(w'.queue, q + 1) < ReadyBefore(w.queue, q + 1)
  {
    hide DeliverAll, Unacked, ReadyBefore, WaitingBefore, PoisonBefore;
    var w' := Poll(w);
    var g := FirstReady(w.queue, 0, q);
    NothingReadyWaits(w.queue, g);
    WaitingGrows(w.queue, g, q);
    FetchedIff(w.queue, 0, POLL_BATCH_SIZE, g);
    var batch := Unacked(w.queue, 0, POLL_BATCH_SIZE);
    var k :| 0 <= k < |batch| && batch[k] == g;
    FairDeliveries(Tick(w), batch, 0);
    DeliverAllAcknowledges(Tick(w), batch, 0);
    assert w'.queue[batch[k]].acked;
    ReadyShrinks(w.queue, w'.queue, q + 1, g);
  }

  lemma PollAcknowledges(w: World)
    ensures Acknowledges(w.queue, Poll(w).queue)
  {
    if w.weather.Next() == Done {
      DeliverAllAcknowledges(Tick(w), Unacked(w.queue, 0, POLL_BATCH_SIZE), 0);
    }
  }

  /** The polls without failures among the first `i` actions. */
  function FairPolls(actions: seq<Action>, i: nat): nat
    requires i <= |actions|
  {
    if i == 0 then 0
    else FairPolls(actions, i - 1) + if actions[i - 1].PollTick? && actions[i - 1].weather.Fair? then 1 else 0
  }

  lemma {:induction false} ReadySame(a: seq<Entry>, b: seq<Entry>, q: nat)
    requires q <= |a| && q <= |b| && forall k :: 0 <= k < q ==> a[k] == b[k]
    ensures ReadyBefore(a, q) == ReadyBefore(b, q)
  {
    if q > 0 {
      ReadySame(a, b, q - 1);
    }
  }

  /** `q` is a decodable event with fewer than a batch of undecodable ones before it. */
  predicate Reachable(queue: seq<Entry>, q: nat) {
    q < |queue| && queue[q].payload.Some? && PoisonBefore(queue, q) < POLL_BATCH_SIZE
  }

  /** What is still to be acknowledged before `q` is, and `q` itself. */
  function Ahead(queue: seq<Entry>, q: nat): nat
    requires q < |queue|
  {
    if queue[q].acked then 0 else ReadyBefore(queue, q + 1)
  }

  lemma EnqueueKeepsAhead(queue: seq<Entry>, e: Entry, q: nat)
    requires Reachable(queue, q)
    ensures Reachable(queue + [e], q) && Ahead(queue + [e], q) == Ahead(queue, q)
  {
    PoisonSame(queue, queue + [e], q);
    ReadySame(queue, queue + [e], q + 1);
  }

  lemma AcknowledgingKeepsAhead(before: seq<Entry>, after: seq<Entry>, q: nat)
    requires Reachable(before, q) && Acknowledges(before, after)
    ensures Reachable(after, q) && Ahead(after, q) <= Ahead(before, q)
  {
    PoisonSame(before, after, q);
    ReadyShrinks(before, after, q + 1, q);
  }

  lemma FairPollShortens(w: World, q: nat)
    requires w.weather.Fair? && Reachable(w.queue, q)
    ensures Reachable(Poll(w).queue, q)
    ensures Ahead(Poll(w).queue, q) == 0 || Ahead(Poll(w).queue, q) < Ahead(w.queue, q)
  {
    hide Poll;
    PollAcknowledges(w);
    AcknowledgingKeepsAhead(w.queue, Poll(w).queue, q);
    if !w.queue[q].acked {
      FairPollAdvances(w, q);
    }
  }

  lemma ActKeepsAhead(w: World, a: Action, q: nat)
    requires Reachable(w.queue, q)
    ensures Reachable(Act(w, a).queue, q) && Ahead(Act(w, a).queue, q) <= Ahead(w.queue, q)
  {
    hide Reachable, Ahead, Poll, Deliver;
    match a
    case Enqueue(payload) => EnqueueKeepsAhead(w.queue, Entry(payload, false), q);
    case PollTick(weather) =>
      PollAcknowledges(w.(weather := weather));
      AcknowledgingKeepsAhead(w.queue, Act(w, a).queue, q);
    case Push(p, weather) =>
      if p < |w.queue| {
        DeliverAcknowledges(w.(weather := weather), p);
        AcknowledgingKeepsAhead(w.queue, Act(w, a).queue, q);
      }
  }

  /** Whatever else happens, every poll without failures brings the event closer to its turn. */
  lemma {:induction false} FairPollsReach(w: World, actions: seq<Action>, i: nat, q: nat)
    requires i <= |actions| && Reachable(w.queue, q)
    ensures var queue := Run(w, actions, i).queue;
            Reachable(queue, q) && (Ahead(queue, q) == 0 || Ahead(queue, q) + FairPolls(actions, i) <= Ahead(w.queue, q))
  {
    hide Reachable, Ahead, Act;
    if i > 0 {
      FairPollsReach(w, actions, i - 1, q);
      var w1, a := Run(w, actions, i - 1), actions[i - 1];
      ActKeepsAhead(w1, a, q);
      if a.PollTick? && a.weather.Fair? {
        FairPollShortens(w1.(weather := Fair), q);
        ActIsPoll(w1, a);
      }
      QueueIsReachable(w1.queue, q);
      QueueIsReachable(Run(w, actions, i).queue, q);
    }
  }

  lemma ActIsPoll(w: World, a: Action)
    requires a.PollTick?
    ensures Act(w, a) == Poll(w.(weather := a.weather))
  {
  }

  lemma QueueIsReachable(queue: seq<Entry>, q: nat)
    requires Reachable(queue, q)
    ensures q < |queue|
  {
  }

  lemma NoneAheadIffAcked(queue: seq<Entry>, q: nat)
    requires q < |queue| && queue[q].payload.Some?
    ensures Ahead(queue, q) == 0 <==> queue[q].acked
  {
  }

  /** A run of the local backend with enough polls that meet no failure. */
  ghost predicate EnoughPolls(actions: seq<Action>, n: nat) {
    (forall k :: 0 <= k < |actions| ==> Local(actions[k])) && FairPolls(actions, |actions|) >= n
  }

  ghost predicate AckedAfter(w: World, actions: seq<Action>, q: nat) {
    var queue := Run(w, actions, |actions|).queue;
    q < |queue| && queue[q].acked
  }

  lemma {:induction false} OnlyFairPolls(n: nat, i: nat)
    requires i <= n
    ensures FairPolls(seq(n, _ => PollTick(Fair)), i) == i
  {
    if i > 0 {
      OnlyFairPolls(n, i - 1);
    }
  }

  /**
   A waiting decodable event is acknowledged by every run of the local backend, with whatever events
   queued and whatever polls failing in it, that has enough polls without failures, if and only if
   fewer than a batch of undecodable events were queued before it. Enough is one poll for each
   decodable event that waits up to and including it.
   */
  lemma AckedEventuallyIff(w: World, q: nat)
    requires Safe(w) && q < |w.queue| && Ready(w.queue[q])
    ensures (forall actions :: EnoughPolls(actions, ReadyBefore(w.queue, q + 1)) ==> AckedAfter(w, actions, q)) <==>
            PoisonBefore(w.queue, q) < POLL_BATCH_SIZE
  {
    var enough := ReadyBefore(w.queue, q + 1);
    if PoisonBefore(w.queue, q) < POLL_BATCH_SIZE {
      forall actions | EnoughPolls(actions, enough) ensures AckedAfter(w, actions, q) {
        FairPollsReach(w, actions, |actions|, q);
        NoneAheadIffAcked(Run(w, actions, |actions|).queue, q);
      }
    } else {
      var actions := seq(enough, _ => PollTick(Fair));
      OnlyFairPolls(enough, enough);
      assert EnoughPolls(actions, enough);
      PoisonStarves(w, actions, |actions|, q);
      assert !AckedAfter(w, actions, q);
    }
  }
}
