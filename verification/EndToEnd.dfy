/** From a committed window to the stored deal: the bridge, the stream and its consumer together. */
module EndToEnd {
  import opened Wrappers
  import opened Canonical
  import JournalModel
  import Pipeline
  import NoLoss
  import DeliveryProof
  import BridgeRuns
  import PlanCoverage
  import TerminalRows
  import RedisTransport
  import StreamGroup
  import StreamConsumer
  import opened HistoryConsumer
  import opened IngestionLaws

  type StreamMessage = RedisTransport.Entry<JournalModel.Envelope>

  type Group = StreamGroup.Group<StreamMessage>

  /** The consumer group reads the stream that the dispatchers append to. */
  ghost predicate Mirrors(s: Pipeline.Sys, g: Group) {
    && |g.appended| == |s.keys.stream|
    && forall i | 0 <= i < |g.appended| :: g.appended[i].message == s.keys.stream[i]
  }

  /** What the consumer loop keeps: every entry is accounted for, and acknowledged only once accepted. */
  ghost predicate Consumed(g: Group, visits: seq<StreamConsumer.Call>) {
    && StreamGroup.GroupOk(g)
    && forall id | id in g.acked :: StreamConsumer.AcceptedIn(visits, id)
  }

  /** The n-th call of the handler is the n-th feed of the tables, and accepts only what they acknowledge. */
  ghost predicate Handles(
    registry: Registry, g: Group, decode: StreamMessage -> Event, visit: StreamConsumer.Call, t: Tables, f: Feed)
  {
    && (StreamConsumer.Accepts(visit.visit) ==> Acks(registry, t, f))
    && forall k | 0 <= k < |g.appended| && g.appended[k].id == visit.id :: f.event == decode(g.appended[k].message)
  }

  ghost predicate HandledBy(
    registry: Registry, g: Group, decode: StreamMessage -> Event, visits: seq<StreamConsumer.Call>, feeds: seq<Feed>)
  {
    && |visits| == |feeds|
    && forall n | 0 <= n < |visits| :: Handles(registry, g, decode, visits[n], Ingest(registry, feeds[..n]), feeds[n])
  }

  /** A well-formed deal or order is in its table. */
  predicate Stored(registry: Registry, t: Tables, e: Event) {
    && (DealOf(registry, e).Some? ==>
          var u := DealOf(registry, e).value;
          u.key in t.deals && t.deals[u.key] == u.row)
    && (OrderOf(registry, e).Some? ==>
          var u := OrderOf(registry, e).value;
          u.key in t.orders && t.orders[u.key] == u.row)
  }

  lemma {:induction false} AckedBefore(registry: Registry, feeds: seq<Feed>, n: nat)
    requires n < |feeds| && Acks(registry, Ingest(registry, feeds[..n]), feeds[n])
    ensures DealOf(registry, feeds[n].event).Some? ==> DealOf(registry, feeds[n].event).value in AckedDeals(registry, feeds)
    ensures OrderOf(registry, feeds[n].event).Some? ==>
              OrderOf(registry, feeds[n].event).value in AckedOrders(registry, feeds)
    decreases |feeds|
  {
    var m := |feeds| - 1;
    if n < m {
      assert feeds[..m][..n] == feeds[..n] && feeds[..m][n] == feeds[n];
      AckedBefore(registry, feeds[..m], n);
    }
  }

  lemma {:induction false} AckedFeedStored(registry: Registry, feeds: seq<Feed>, n: nat)
    requires n < |feeds| && Acks(registry, Ingest(registry, feeds[..n]), feeds[n])
    requires OnePayload(AckedDeals(registry, feeds)) && OnePayload(AckedOrders(registry, feeds))
    ensures Stored(registry, Ingest(registry, feeds), feeds[n].event)
  {
    AckedBefore(registry, feeds, n);
    DealsAreAcked(registry, feeds);
    OrdersAreAcked(registry, feeds);
    if DealOf(registry, feeds[n].event).Some? {
      var u := DealOf(registry, feeds[n].event).value;
      assert Upsert(u.key, u.row) in AckedDeals(registry, feeds);
    }
    if OrderOf(registry, feeds[n].event).Some? {
      var u := OrderOf(registry, feeds[n].event).value;
      assert Upsert(u.key, u.row) in AckedOrders(registry, feeds);
    }
  }

  /** An acknowledged entry is stored. */
  lemma {:induction false} AckedEntryStored(
    registry: Registry, g: Group, decode: StreamMessage -> Event, visits: seq<StreamConsumer.Call>, feeds: seq<Feed>, i: nat)
    requires Consumed(g, visits) && HandledBy(registry, g, decode, visits, feeds)
    requires OnePayload(AckedDeals(registry, feeds)) && OnePayload(AckedOrders(registry, feeds))
    requires i < |g.appended| && g.appended[i].id in g.acked
    ensures Stored(registry, Ingest(registry, feeds), decode(g.appended[i].message))
  {
    assert StreamConsumer.AcceptedIn(visits, g.appended[i].id);
    var c :| c in visits && c.id == g.appended[i].id && StreamConsumer.Accepts(c.visit);
    var n :| 0 <= n < |visits| && visits[n] == c;
    assert Handles(registry, g, decode, visits[n], Ingest(registry, feeds[..n]), feeds[n]);
    AckedFeedStored(registry, feeds, n);
  }

  /** Where the event of a record is. */
  ghost predicate Accounted(
    s: Pipeline.Sys, g: Group, registry: Registry, decode: StreamMessage -> Event, t: Tables, e: EventId)
  {
    || (e in s.db.outbox && JournalModel.Unresolved(s.db.outbox[e]))
    || exists i | 0 <= i < |g.appended| ::
         && g.appended[i].message.eventId == e
         && (|| g.appended[i] in StreamGroup.Undelivered(g)
             || StreamGroup.IsPending(g.pending, g.appended[i].id)
             || (g.appended[i].id in g.acked && Stored(registry, t, decode(g.appended[i].message))))
  }

  /**
    End to end, over every run of the bridge and of the consumer: each deal and order of
    each stored window is unresolved in the outbox, or undelivered or pending in the
    consumer group, or acknowledged and, when well formed, in its table.
   */
  lemma {:induction false} NothingIsLostEndToEnd(
    actions: seq<Pipeline.Action>, g: Group, visits: seq<StreamConsumer.Call>, registry: Registry,
    decode: StreamMessage -> Event, feeds: seq<Feed>, w: WindowId, r: Resource, i: nat)
    requires Mirrors(Pipeline.Run(actions), g) && Consumed(g, visits)
    requires HandledBy(registry, g, decode, visits, feeds)
    requires OnePayload(AckedDeals(registry, feeds)) && OnePayload(AckedOrders(registry, feeds))
    requires w in Pipeline.Run(actions).db.windows
    requires i < NoLoss.RecordCount(Pipeline.Run(actions).db.windows[w].window, r)
    ensures JournalModel.Slot(w, r, i) in Pipeline.Run(actions).db.members
    ensures Accounted(Pipeline.Run(actions), g, registry, decode, Ingest(registry, feeds),
                      Pipeline.Run(actions).db.members[JournalModel.Slot(w, r, i)])
  {
    NoLoss.NothingIsLost(actions, w, r, i);
    var s := Pipeline.Run(actions);
    var e := s.db.members[JournalModel.Slot(w, r, i)];
    if !(e in s.db.outbox && JournalModel.Unresolved(s.db.outbox[e])) {
      var k :| 0 <= k < |s.keys.stream| && s.keys.stream[k].eventId == e;
      assert g.appended[k].message == s.keys.stream[k];
      StreamConsumer.ExactlyOnePlace(g, k);
      if g.appended[k].id in g.acked {
        AckedEntryStored(registry, g, decode, visits, feeds, k);
      }
    }
  }

  // ---------------------------------------------------------------------
  // The right row
  // ---------------------------------------------------------------------

  /** Decoding an entry that carries a record yields the event that record stands for. */
  ghost predicate Reads(sha: Hash, decode: StreamMessage -> Event, meaning: JournalModel.Record -> Event) {
    forall m: StreamMessage, r: JournalModel.Record {:trigger BridgeRuns.Carries(sha, m.envelope, r)}
      | m.eventId == r.eventId && BridgeRuns.Carries(sha, m.envelope, r) :: decode(m) == meaning(r)
  }

  /** Where a record is: still owed by the bridge, on its way, or stored as what it stands for. */
  ghost predicate RecordAccounted(
    s: Pipeline.Sys, g: Group, registry: Registry, meaning: JournalModel.Record -> Event, t: Tables, r: JournalModel.Record)
  {
    || (r.eventId in s.db.outbox && JournalModel.Unresolved(s.db.outbox[r.eventId]))
    || exists i | 0 <= i < |g.appended| ::
         && g.appended[i].message.eventId == r.eventId
         && (|| g.appended[i] in StreamGroup.Undelivered(g)
             || StreamGroup.IsPending(g.pending, g.appended[i].id)
             || (g.appended[i].id in g.acked && Stored(registry, t, meaning(r))))
  }

  /** A stream entry under a true record's id is read as what that record stands for. */
  lemma {:induction false} EntryReads(
    sha: Hash, actions: seq<Pipeline.Action>, decode: StreamMessage -> Event, meaning: JournalModel.Record -> Event,
    k: nat, r: JournalModel.Record)
    requires CollisionFree(sha) && BridgeRuns.AllBuilt(sha, actions) && Reads(sha, decode, meaning)
    requires k < |Pipeline.Run(actions).keys.stream| && PlanCoverage.TrueRecord(sha, r)
    requires Pipeline.Run(actions).keys.stream[k].eventId == r.eventId
    ensures decode(Pipeline.Run(actions).keys.stream[k]) == meaning(r)
  {
    BridgeRuns.RunIsFaithful(sha, actions);
    var m := Pipeline.Run(actions).keys.stream[k];
    assert BridgeRuns.Faithful(sha, m.eventId, m.envelope);
    assert BridgeRuns.Carries(sha, m.envelope, r);
  }

  /** The entry that carries a record is on its way, or stored as what the record stands for. */
  lemma {:induction false} EntryAccounted(
    s: Pipeline.Sys, g: Group, visits: seq<StreamConsumer.Call>, registry: Registry, decode: StreamMessage -> Event,
    meaning: JournalModel.Record -> Event, feeds: seq<Feed>, r: JournalModel.Record, k: nat)
    requires Mirrors(s, g) && Consumed(g, visits) && HandledBy(registry, g, decode, visits, feeds)
    requires OnePayload(AckedDeals(registry, feeds)) && OnePayload(AckedOrders(registry, feeds))
    requires k < |s.keys.stream| && s.keys.stream[k].eventId == r.eventId && decode(s.keys.stream[k]) == meaning(r)
    ensures RecordAccounted(s, g, registry, meaning, Ingest(registry, feeds), r)
  {
    assert g.appended[k].message == s.keys.stream[k];
    StreamConsumer.ExactlyOnePlace(g, k);
    if g.appended[k].id in g.acked {
      AckedEntryStored(registry, g, decode, visits, feeds, k);
    }
  }

  /**
    Every record arrives as itself. Over every run of the bridge in which windows are built
    by synchronizers, and every run of the consumer: each record of each commit that took
    effect is unresolved in the outbox, or undelivered or pending in the consumer group, or
    acknowledged and, when well formed, stored as the row its own payload stands for.
   */
  lemma {:induction false} EveryRecordArrives(
    sha: Hash, actions: seq<Pipeline.Action>, n: nat, r: JournalModel.Record, g: Group,
    visits: seq<StreamConsumer.Call>, registry: Registry, decode: StreamMessage -> Event,
    meaning: JournalModel.Record -> Event, feeds: seq<Feed>)
    requires CollisionFree(sha) && BridgeRuns.AllBuilt(sha, actions) && Reads(sha, decode, meaning)
    requires BridgeRuns.Committed(actions, n) && actions[n].CommitWindow? && r in actions[n].records
    requires Mirrors(Pipeline.Run(actions), g) && Consumed(g, visits)
    requires HandledBy(registry, g, decode, visits, feeds)
    requires OnePayload(AckedDeals(registry, feeds)) && OnePayload(AckedOrders(registry, feeds))
    ensures RecordAccounted(Pipeline.Run(actions), g, registry, meaning, Ingest(registry, feeds), r)
  {
    var s := Pipeline.Run(actions);
    BridgeRuns.CommittedStaysSafe(actions, n, r);
    BridgeRuns.CommittedTrue(sha, actions, n, r);
    DeliveryProof.RunKeeps(actions);
    DeliveryProof.LoggedInStream(s);
    if !(r.eventId in s.db.outbox && JournalModel.Unresolved(s.db.outbox[r.eventId])) {
      var k :| 0 <= k < |s.keys.stream| && s.keys.stream[k].eventId == r.eventId;
      EntryReads(sha, actions, decode, meaning, k, r);
      EntryAccounted(s, g, visits, registry, decode, meaning, feeds, r, k);
    }
  }

  /**
    From the terminal to the table: once the checkpoint has passed its time, a row that every
    read of that time listed is a record that is still owed, on its way, or stored as the row
    its own payload stands for.
   */
  lemma {:induction false} ListedRowArrives(
    sha: Hash, actions: seq<Pipeline.Action>, origins: seq<BridgeRuns.Origin>, p: ProfileId, t: int, resource: Resource,
    row: Payload, g: Group, visits: seq<StreamConsumer.Call>, registry: Registry, decode: StreamMessage -> Event,
    meaning: JournalModel.Record -> Event, feeds: seq<Feed>) returns (r: JournalModel.Record)
    requires CollisionFree(sha) && TerminalRows.Origins(sha, actions, origins) && Reads(sha, decode, meaning)
    requires TerminalRows.HappensAt(row, resource, t)
    requires TerminalRows.AlwaysListed(actions, origins, p, t, resource, row)
    requires p in Pipeline.Run(actions).db.checkpoints && p in Pipeline.Run(actions).bounds
    requires Pipeline.Run(actions).bounds[p] <= t < Pipeline.Run(actions).db.checkpoints[p].next
    requires Mirrors(Pipeline.Run(actions), g) && Consumed(g, visits)
    requires HandledBy(registry, g, decode, visits, feeds)
    requires OnePayload(AckedDeals(registry, feeds)) && OnePayload(AckedOrders(registry, feeds))
    ensures r.payload == row && r.resource == resource
    ensures RecordAccounted(Pipeline.Run(actions), g, registry, meaning, Ingest(registry, feeds), r)
  {
    var n;
    n, r := TerminalRows.ListedRowIsCommitted(sha, actions, origins, p, t, resource, row);
    assert BridgeRuns.AllBuilt(sha, actions);
    EveryRecordArrives(sha, actions, n, r, g, visits, registry, decode, meaning, feeds);
  }
}
