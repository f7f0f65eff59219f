/**
  A planned window passes the outbox coverage check of the journal unless the
  clean-up deleted, between planning and commit, a row the plan relied on.
 */
module PlanCoverage {
  import opened Wrappers
  import opened Canonical
  import opened JournalModel
  import opened History

  /** Every record's event id is the digest of its own identity. */
  ghost predicate SelfNamed(sha: Hash, session: Session, records: seq<Record>) {
    forall i | 0 <= i < |records| :: Named(sha, session, records[i])
  }

  predicate SelfNames(sha: Hash, r: Record) {
    r.eventId == sha(RecordIdentity(r.resource, r.naturalId, r.payloadDigest))
  }

  /** The record is named by its own content, payload included. */
  predicate TrueRecord(sha: Hash, r: Record) {
    SelfNames(sha, r) && r.payloadDigest == sha(RowContent(r.payload))
  }

  ghost predicate TrueRecords(sha: Hash, records: seq<Record>) {
    forall i | 0 <= i < |records| :: TrueRecord(sha, records[i])
  }

  predicate Named(sha: Hash, session: Session, r: Record) {
    r.naturalId.profileId == session.journalProfileId && TrueRecord(sha, r)
  }

  /** The message announces the record. */
  predicate Announces(session: Session, w: WindowId, m: Message, r: Record) {
    && m.eventId == r.eventId
    && m.windowId == w
    && m.profileId == session.journalProfileId
    && m.envelope.Decoded?
    && m.envelope.messageType == TypeOf(r.resource)
  }

  ghost predicate AnnouncesSome(session: Session, w: WindowId, m: Message, records: seq<Record>) {
    exists r | r in records :: Announces(session, w, m, r)
  }

  /** The messages announce records that had no row when the plan was made. */
  ghost predicate NewMessagesAnnounce(
    session: Session, w: WindowId, records: seq<Record>, announced: set<EventId>, messages: seq<Message>)
  {
    forall m {:trigger AnnouncesSome(session, w, m, records)} | m in messages ::
      m.eventId !in announced && AnnouncesSome(session, w, m, records)
  }

  ghost predicate NewRecordsAnnounced(records: seq<Record>, announced: set<EventId>, messages: seq<Message>) {
    forall r {:trigger Announced(r, messages)} | r in records && r.eventId !in announced :: Announced(r, messages)
  }

  lemma {:induction false} MessagesAnnounce(
    sha: Hash, session: Session, w: WindowId, records: seq<Record>, announced: set<EventId>, observed: Utc)
    ensures NewMessagesAnnounce(session, w, records, announced, RecordMessages(sha, session, w, records, announced, observed))
  {
    if records != [] {
      var n := |records| - 1;
      MessagesAnnounce(sha, session, w, records[..n], announced, observed);
      var before := RecordMessages(sha, session, w, records[..n], announced, observed);
      forall m: Message | m in RecordMessages(sha, session, w, records, announced, observed)
        ensures m.eventId !in announced && AnnouncesSome(session, w, m, records)
      {
        if m in before {
          assert AnnouncesSome(session, w, m, records[..n]);
        } else {
          assert Announces(session, w, m, records[n]);
        }
      }
    }
  }

  lemma {:induction false} RecordsAnnounced(
    sha: Hash, session: Session, w: WindowId, records: seq<Record>, announced: set<EventId>, observed: Utc, r: Record)
    requires r in records && r.eventId !in announced
    ensures exists m | m in RecordMessages(sha, session, w, records, announced, observed) :: m.eventId == r.eventId
  {
    var n := |records| - 1;
    if r == records[n] {
      var m := RecordMessages(sha, session, w, records, announced, observed);
      assert m[|m| - 1].eventId == r.eventId;
    } else {
      assert r in records[..n];
      RecordsAnnounced(sha, session, w, records[..n], announced, observed, r);
    }
  }

  /** Stored rows under a record's event id are rows of that record. */
  ghost predicate Honest(sha: Hash, stored: Outbox) {
    forall r: Record | SelfNames(sha, r) && r.eventId in stored :: HonestRow(stored, r)
  }

  predicate HonestRow(stored: Outbox, r: Record)
    requires r.eventId in stored
  {
    && stored[r.eventId].profileId == r.naturalId.profileId
    && stored[r.eventId].envelope.Decoded?
    && stored[r.eventId].envelope.messageType == TypeOf(r.resource)
  }

  /** The messages of a plan: those of its records, then the marker. */
  ghost predicate PlannedMessages(
    sha: Hash, session: Session, w: Window, records: seq<Record>, announced: set<EventId>, messages: seq<Message>)
  {
    && |messages| > 0
    && w.profileId == session.journalProfileId
    && UniqueEventIds(messages)
    && SelfNamed(sha, session, records)
    && CountOf(records, Deal) == w.dealCount
    && CountOf(records, Order) == w.orderCount
    && MarkerMessage(sha, w, messages[|messages| - 1])
    && NewMessagesAnnounce(session, w.id, records, announced, messages[..|messages| - 1])
    && NewRecordsAnnounced(records, announced, messages)
  }

  predicate MarkerMessage(sha: Hash, w: Window, m: Message) {
    && m.eventId == sha(MarkerIdentity(w.id, w.windowDigest))
    && m.windowId == w.id
    && m.profileId == w.profileId
    && IsMarker(m.envelope)
    && m.payloadDigest == w.windowDigest
  }

  lemma SameNameSameRecord(sha: Hash, a: Record, b: Record)
    requires CollisionFree(sha) && SelfNames(sha, a) && SelfNames(sha, b) && a.eventId == b.eventId
    ensures a.resource == b.resource && a.naturalId == b.naturalId && a.payloadDigest == b.payloadDigest
  {
    assert RecordIdentity(a.resource, a.naturalId, a.payloadDigest)
        == RecordIdentity(b.resource, b.naturalId, b.payloadDigest);
  }

  lemma MarkerNamesNoRecord(sha: Hash, w: Window, m: Message, r: Record)
    requires CollisionFree(sha) && MarkerMessage(sha, w, m) && SelfNames(sha, r)
    ensures m.eventId != r.eventId
  {
    assert MarkerIdentity(w.id, w.windowDigest) != RecordIdentity(r.resource, r.naturalId, r.payloadDigest);
  }

  /** A message under a record's event id announces that record. */
  lemma MessageOfRecord(
    sha: Hash, session: Session, w: Window, records: seq<Record>, announced: set<EventId>, messages: seq<Message>,
    m: Message, r: Record)
    requires CollisionFree(sha) && PlannedMessages(sha, session, w, records, announced, messages)
    requires m in messages && r in records && m.eventId == r.eventId
    ensures Announces(session, w.id, m, r) && r.eventId !in announced
  {
    assert Named(sha, session, r);
    NewRowHonest(sha, session, w, records, announced, messages, m, r);
  }

  ghost predicate StillStored(records: seq<Record>, announced: set<EventId>, stored: Outbox) {
    forall r | r in records && r.eventId in announced :: r.eventId in stored
  }

  lemma MessagesWellFormed(
    sha: Hash, session: Session, w: Window, records: seq<Record>, announced: set<EventId>, messages: seq<Message>, m: Message)
    requires PlannedMessages(sha, session, w, records, announced, messages) && m in messages
    ensures m.windowId == w.id && m.profileId == w.profileId && m.envelope.Decoded? && Backed(records, m)
    ensures m in messages[..|messages| - 1] ==> !IsMarker(m.envelope)
  {
    var n := |messages| - 1;
    assert messages == messages[..n] + [messages[n]];
    if m in messages[..n] {
      assert AnnouncesSome(session, w.id, m, records);
    }
  }

  lemma PlannedRecordCovered(
    sha: Hash, session: Session, w: Window, records: seq<Record>, announced: set<EventId>, messages: seq<Message>,
    stored: Outbox, r: Record)
    requires CollisionFree(sha) && PlannedMessages(sha, session, w, records, announced, messages)
    requires Honest(sha, stored) && r in records
    ensures CoveredRecord(stored, w, r, messages) <==> (r.eventId in announced ==> r.eventId in stored)
  {
    assert Named(sha, session, r);
    forall m | m in messages && m.eventId == r.eventId
      ensures Announces(session, w.id, m, r) && r.eventId !in announced
    {
      MessageOfRecord(sha, session, w, records, announced, messages, m, r);
    }
    if r.eventId in announced {
      assert !Announced(r, messages);
      if r.eventId in stored {
        assert HonestRow(stored, r);
      }
    } else {
      assert Announced(r, messages);
    }
  }

  lemma PlannedOneMarker(
    sha: Hash, session: Session, w: Window, records: seq<Record>, announced: set<EventId>, messages: seq<Message>)
    requires PlannedMessages(sha, session, w, records, announced, messages)
    ensures OneMarker(w, messages)
  {
    var n := |messages| - 1;
    forall j | 0 <= j < |messages| && j != n ensures !IsMarker(messages[j].envelope) {
      assert messages[..n][j] == messages[j];
      MessagesWellFormed(sha, session, w, records, announced, messages, messages[j]);
    }
  }

  /** Planned messages cover the window exactly when no row the plan relied on is gone. */
  lemma PlannedCovers(
    sha: Hash, session: Session, w: Window, records: seq<Record>, announced: set<EventId>, messages: seq<Message>,
    stored: Outbox)
    requires CollisionFree(sha) && PlannedMessages(sha, session, w, records, announced, messages)
    requires Honest(sha, stored)
    ensures OutboxCovers(stored, w, records, messages) <==> StillStored(records, announced, stored)
  {
    PlannedOneMarker(sha, session, w, records, announced, messages);
    forall m | m in messages
      ensures m.windowId == w.id && m.profileId == w.profileId && m.envelope.Decoded? && Backed(records, m)
    {
      MessagesWellFormed(sha, session, w, records, announced, messages, m);
    }
    forall r | r in records
      ensures CoveredRecord(stored, w, r, messages) <==> (r.eventId in announced ==> r.eventId in stored)
    {
      PlannedRecordCovered(sha, session, w, records, announced, messages, stored, r);
    }
  }

  // ---------------------------------------------------------------------
  // Built inputs are planned
  // ---------------------------------------------------------------------

  lemma {:induction false} CountOfRecords(records: seq<Record>, resource: Resource)
    requires forall i | 0 <= i < |records| :: records[i].resource == resource
    ensures CountOf(records, Deal) == (if resource == Deal then |records| else 0)
    ensures CountOf(records, Order) == (if resource == Order then |records| else 0)
  {
    if records != [] {
      CountOfRecords(records[..|records| - 1], resource);
    }
  }

  lemma {:induction false} CountOfConcat(a: seq<Record>, b: seq<Record>, resource: Resource)
    ensures CountOf(a + b, resource) == CountOf(a, resource) + CountOf(b, resource)
  {
    if b == [] {
      assert a + b == a;
    } else {
      var n := |b| - 1;
      assert (a + b)[..|a| + n] == a + b[..n];
      CountOfConcat(a, b[..n], resource);
    }
  }

  lemma AnnouncesMore(session: Session, w: WindowId, m: Message, some: seq<Record>, all: seq<Record>)
    requires AnnouncesSome(session, w, m, some) && forall r | r in some :: r in all
    ensures AnnouncesSome(session, w, m, all)
  {
  }

  /** The messages of both record lists announce records of the window, and every new record is announced. */
  lemma {:induction false} JoinedMessages(
    sha: Hash, session: Session, w: WindowId, deals: seq<Record>, orders: seq<Record>, announced: set<EventId>, observed: Utc)
    ensures var messages := RecordMessages(sha, session, w, deals, announced, observed)
                            + RecordMessages(sha, session, w, orders, announced, observed);
            && NewMessagesAnnounce(session, w, deals + orders, announced, messages)
            && NewRecordsAnnounced(deals + orders, announced, messages)
  {
    var x, y := RecordMessages(sha, session, w, deals, announced, observed),
                RecordMessages(sha, session, w, orders, announced, observed);
    MessagesAnnounce(sha, session, w, deals, announced, observed);
    MessagesAnnounce(sha, session, w, orders, announced, observed);
    forall m: Message | m in x + y ensures m.eventId !in announced && AnnouncesSome(session, w, m, deals + orders) {
      if m in x {
        AnnouncesMore(session, w, m, deals, deals + orders);
      } else {
        AnnouncesMore(session, w, m, orders, deals + orders);
      }
    }
    forall r: Record | r in deals + orders && r.eventId !in announced ensures Announced(r, x + y) {
      if r in deals {
        RecordsAnnounced(sha, session, w, deals, announced, observed, r);
        var m :| m in x && m.eventId == r.eventId;
        assert m in x + y;
      } else {
        RecordsAnnounced(sha, session, w, orders, announced, observed, r);
        var m :| m in y && m.eventId == r.eventId;
        assert m in x + y;
      }
    }
  }

  lemma {:induction false} JoinedWithMarker(
    sha: Hash, session: Session, w: Window, records: seq<Record>, announced: set<EventId>, some: seq<Message>, marker: Message)
    requires w.profileId == session.journalProfileId && SelfNamed(sha, session, records)
    requires CountOf(records, Deal) == w.dealCount && CountOf(records, Order) == w.orderCount
    requires MarkerMessage(sha, w, marker) && UniqueEventIds(some + [marker])
    requires NewMessagesAnnounce(session, w.id, records, announced, some)
    requires NewRecordsAnnounced(records, announced, some)
    ensures PlannedMessages(sha, session, w, records, announced, some + [marker])
  {
    forall r: Record | r in records && r.eventId !in announced ensures Announced(r, some + [marker]) {
      assert Announced(r, some);
      var m :| m in some && m.eventId == r.eventId;
      assert m in some + [marker];
    }
    assert (some + [marker])[..|some|] == some;
  }

  lemma AssembledIsPlanned(
    sha: Hash, session: Session, policy: Policy, announced: set<EventId>, expected: Checkpoint,
    startRaw: int, endRaw: int, dealRows: seq<Payload>, orderRows: seq<Payload>,
    revision: int, supersedes: Option<WindowId>, observed: Utc)
    requires var input := Assembled(sha, session, policy, announced, expected, startRaw, endRaw, dealRows, orderRows,
                                    revision, supersedes, observed);
             UniqueEventIds(input.messages)
    ensures var input := Assembled(sha, session, policy, announced, expected, startRaw, endRaw, dealRows, orderRows,
                                   revision, supersedes, observed);
            PlannedMessages(sha, session, input.window, input.records, announced, input.messages)
  {
    var input := Assembled(sha, session, policy, announced, expected, startRaw, endRaw, dealRows, orderRows,
                           revision, supersedes, observed);
    var deals := RecordsOf(sha, session, Deal, SortedRows(Deal, dealRows));
    var orders := RecordsOf(sha, session, Order, SortedRows(Order, orderRows));
    var w := input.window;
    PlanOf(sha, session, w, deals, orders, announced, observed);
  }

  lemma {:induction false} PlanOf(
    sha: Hash, session: Session, w: Window, deals: seq<Record>, orders: seq<Record>, announced: set<EventId>, observed: Utc)
    requires SelfNamed(sha, session, deals) && SelfNamed(sha, session, orders)
    requires forall i | 0 <= i < |deals| :: deals[i].resource == Deal
    requires forall i | 0 <= i < |orders| :: orders[i].resource == Order
    requires w.profileId == session.journalProfileId && w.dealCount == |deals| && w.orderCount == |orders|
    requires UniqueEventIds(RecordMessages(sha, session, w.id, deals, announced, observed)
                            + RecordMessages(sha, session, w.id, orders, announced, observed)
                            + [Marker(sha, session, w, observed)])
    ensures PlannedMessages(sha, session, w, deals + orders, announced,
                            RecordMessages(sha, session, w.id, deals, announced, observed)
                            + RecordMessages(sha, session, w.id, orders, announced, observed)
                            + [Marker(sha, session, w, observed)])
  {
    var some := RecordMessages(sha, session, w.id, deals, announced, observed)
                + RecordMessages(sha, session, w.id, orders, announced, observed);
    var marker := Marker(sha, session, w, observed);
    JoinedMessages(sha, session, w.id, deals, orders, announced, observed);
    CountOfRecords(deals, Deal);
    CountOfRecords(orders, Order);
    CountOfConcat(deals, orders, Deal);
    CountOfConcat(deals, orders, Order);
    JoinedWithMarker(sha, session, w, deals + orders, announced, some, marker);
  }

  /** Every built input passes the coverage check of the journal, unless a row it relied on is gone. */
  lemma BuiltInputCovered(
    sha: Hash, session: Session, policy: Policy, announced: set<EventId>, expected: Checkpoint,
    startRaw: int, endRaw: int, reading: Reading, revision: int, supersedes: Option<WindowId>, stored: Outbox)
    requires CollisionFree(sha) && Honest(sha, stored)
    requires ReadWindow(sha, session, policy, announced, expected, startRaw, endRaw, reading, revision, supersedes).0.Success?
    ensures var input := ReadWindow(
              sha, session, policy, announced, expected, startRaw, endRaw, reading, revision, supersedes).0.value;
            OutboxCovers(stored, input.window, input.records, input.messages)
            <==> StillStored(input.records, announced, stored)
  {
    var input := ReadWindow(sha, session, policy, announced, expected, startRaw, endRaw, reading, revision, supersedes).0.value;
    BuiltInputPlanned(sha, session, policy, announced, expected, startRaw, endRaw, reading, revision, supersedes);
    PlannedCovers(sha, session, input.window, input.records, announced, input.messages, stored);
  }

  lemma BuiltInputPlanned(
    sha: Hash, session: Session, policy: Policy, announced: set<EventId>, expected: Checkpoint,
    startRaw: int, endRaw: int, reading: Reading, revision: int, supersedes: Option<WindowId>)
    requires ReadWindow(sha, session, policy, announced, expected, startRaw, endRaw, reading, revision, supersedes).0.Success?
    ensures var input := ReadWindow(
              sha, session, policy, announced, expected, startRaw, endRaw, reading, revision, supersedes).0.value;
            PlannedMessages(sha, session, input.window, input.records, announced, input.messages)
  {
    var deals := HalfOpenRows(reading.deals(startRaw, endRaw).rows, startRaw, endRaw, BoundaryField(Deal)).value;
    var orders := HalfOpenRows(reading.orders(startRaw, endRaw).rows, startRaw, endRaw, BoundaryField(Order)).value;
    AssembledIsPlanned(sha, session, policy, announced, expected, startRaw, endRaw, deals, orders,
                       revision, supersedes, reading.observed);
  }

  // ---------------------------------------------------------------------
  // Honest rows stay honest
  // ---------------------------------------------------------------------

  /** Writing the messages of a plan keeps the stored rows honest. */
  lemma {:induction false} PlannedKeepsHonest(
    sha: Hash, session: Session, w: Window, records: seq<Record>, announced: set<EventId>, messages: seq<Message>,
    stored: Outbox, now: Utc)
    requires CollisionFree(sha) && PlannedMessages(sha, session, w, records, announced, messages)
    requires Honest(sha, stored)
    ensures Honest(sha, Enqueue(stored, messages, now))
  {
    var after := Enqueue(stored, messages, now);
    EnqueueKeepsAndAdds(stored, messages, now);
    forall r: Record | SelfNames(sha, r) && r.eventId in after ensures HonestRow(after, r) {
      if r.eventId in stored {
        assert HonestRow(stored, r);
      } else {
        var k :| 0 <= k < |messages| && messages[k].eventId == r.eventId;
        NewRowHonest(sha, session, w, records, announced, messages, messages[k], r);
        assert after[r.eventId] == NewRow(messages[k], now);
      }
    }
  }

  /** Rows that keep their envelope and profile. */
  ghost predicate SameEnvelopes(before: Outbox, after: Outbox) {
    && after.Keys <= before.Keys
    && forall e | e in after :: after[e].envelope == before[e].envelope && after[e].profileId == before[e].profileId
  }

  /** Claims, acknowledgements, failures, requeues and clean-up leave envelopes alone, and so keep rows honest. */
  lemma SameEnvelopesKeepHonest(sha: Hash, before: Outbox, after: Outbox)
    requires Honest(sha, before) && SameEnvelopes(before, after)
    ensures Honest(sha, after)
  {
    forall r: Record | SelfNames(sha, r) && r.eventId in after ensures HonestRow(after, r) {
      assert HonestRow(before, r);
    }
  }

  /** A message under a self-named record's id announces one of the planned records, and that is this record. */
  lemma NewRowHonest(
    sha: Hash, session: Session, w: Window, records: seq<Record>, announced: set<EventId>, messages: seq<Message>,
    m: Message, r: Record)
    requires CollisionFree(sha) && PlannedMessages(sha, session, w, records, announced, messages)
    requires m in messages && SelfNames(sha, r) && m.eventId == r.eventId
    ensures Announces(session, w.id, m, r) && r.eventId !in announced
    ensures r.naturalId.profileId == session.journalProfileId
  {
    var n := |messages| - 1;
    assert messages == messages[..n] + [messages[n]];
    if m == messages[n] {
      MarkerNamesNoRecord(sha, w, m, r);
    } else {
      assert AnnouncesSome(session, w.id, m, records);
      var o :| o in records && Announces(session, w.id, m, o);
      assert Named(sha, session, o);
      SameNameSameRecord(sha, o, r);
    }
  }

  lemma SameTrueRecord(sha: Hash, a: Record, b: Record)
    requires CollisionFree(sha) && TrueRecord(sha, a) && TrueRecord(sha, b) && a.eventId == b.eventId
    ensures a == b
  {
    SameNameSameRecord(sha, a, b);
    assert RowContent(a.payload) == RowContent(b.payload);
  }
}
