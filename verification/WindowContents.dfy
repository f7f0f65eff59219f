/**
  What a committed window holds, in terms of the rows the terminal listed: every
  row whose time lies in the range, once for each time it was listed, and no other.
 */
module WindowContents {
  import opened Wrappers
  import opened Canonical
  import opened Sequences
  import opened Sorting
  import opened JournalModel
  import opened History
  import opened HistoryLaws
  import opened PlanCoverage
  import opened HonestJournal
  import ReconcileLaws

  /** The integer in a column, or -1. */
  function IntIn(row: Payload, field: Field): int {
    if field in row && row[field].Whole? then row[field].n else -1
  }

  /** The raw time that decides whether a deal or an order belongs to a window. */
  predicate HappensIn(row: Payload, resource: Resource, startRaw: int, endRaw: int) {
    match resource
    case Deal => TIME in row && row[TIME].Whole? && startRaw <= row[TIME].n < endRaw
    case Order => TIME_DONE in row && row[TIME_DONE].Whole? && startRaw <= row[TIME_DONE].n < endRaw
  }

  function Answer(reading: Reading, resource: Resource, startRaw: int, endRaw: int): CallResult {
    match resource
    case Deal => reading.deals(startRaw, endRaw)
    case Order => reading.orders(startRaw, endRaw)
  }

  function PayloadsOf(records: seq<Record>): (s: seq<Payload>)
    ensures |s| == |records|
  {
    seq(|records|, i requires 0 <= i < |records| => records[i].payload)
  }

  /** The payloads are the listed rows that happened in the range, as often as they were listed. */
  ghost predicate Selected(payloads: seq<Payload>, rows: seq<Payload>, resource: Resource, startRaw: int, endRaw: int) {
    forall row :: multiset(payloads)[row] == if HappensIn(row, resource, startRaw, endRaw) then multiset(rows)[row] else 0
  }

  /** By millisecond, second and ticket; orders by their done and setup times first. */
  predicate NotAfter(a: Payload, b: Payload, resource: Resource) {
    match resource
    case Deal =>
      || IntIn(a, TIME_MSC) < IntIn(b, TIME_MSC)
      || (IntIn(a, TIME_MSC) == IntIn(b, TIME_MSC)
          && (IntIn(a, TIME) < IntIn(b, TIME)
              || (IntIn(a, TIME) == IntIn(b, TIME) && IntIn(a, TICKET) <= IntIn(b, TICKET))))
    case Order =>
      || IntIn(a, TIME_DONE_MSC) < IntIn(b, TIME_DONE_MSC)
      || (IntIn(a, TIME_DONE_MSC) == IntIn(b, TIME_DONE_MSC)
          && (|| IntIn(a, TIME_DONE) < IntIn(b, TIME_DONE)
              || (IntIn(a, TIME_DONE) == IntIn(b, TIME_DONE)
                  && (|| IntIn(a, TIME_SETUP_MSC) < IntIn(b, TIME_SETUP_MSC)
                      || (IntIn(a, TIME_SETUP_MSC) == IntIn(b, TIME_SETUP_MSC)
                          && (|| IntIn(a, TIME_SETUP) < IntIn(b, TIME_SETUP)
                              || (IntIn(a, TIME_SETUP) == IntIn(b, TIME_SETUP)
                                  && IntIn(a, TICKET) <= IntIn(b, TICKET))))))))
  }

  ghost predicate InListOrder(payloads: seq<Payload>, resource: Resource) {
    forall i, j | 0 <= i < j < |payloads| :: NotAfter(payloads[i], payloads[j], resource)
  }

  /** The record of a row: named by the account, the ticket and the content of the row. */
  predicate NamesRow(sha: Hash, session: Session, resource: Resource, record: Record) {
    var id := NaturalId(session.journalProfileId, session.login, session.server, IntIn(record.payload, TICKET));
    var digest := sha(RowContent(record.payload));
    record == Record(resource, id, sha(RecordIdentity(resource, id, digest)), record.payload, digest)
  }

  /** These are the records of a resource for a range, as the terminal listed it. */
  ghost predicate RecordsFor(
    sha: Hash, session: Session, reading: Reading, resource: Resource, startRaw: int, endRaw: int, records: seq<Record>)
  {
    && Answer(reading, resource, startRaw, endRaw).Rows?
    && Selected(PayloadsOf(records), Answer(reading, resource, startRaw, endRaw).rows, resource, startRaw, endRaw)
    && InListOrder(PayloadsOf(records), resource)
    && forall i | 0 <= i < |records| :: NamesRow(sha, session, resource, records[i])
  }

  // ---------------------------------------------------------------------
  // Built windows
  // ---------------------------------------------------------------------

  lemma KeptRows(rows: seq<Payload>, resource: Resource, startRaw: int, endRaw: int)
    requires HalfOpenRows(rows, startRaw, endRaw, BoundaryField(resource)).Success?
    ensures Selected(HalfOpenRows(rows, startRaw, endRaw, BoundaryField(resource)).value, rows, resource, startRaw, endRaw)
  {
    var boundary := BoundaryField(resource);
    var kept := HalfOpenRows(rows, startRaw, endRaw, boundary).value;
    ReadableEach(rows, boundary);
    forall row ensures multiset(kept)[row] == if HappensIn(row, resource, startRaw, endRaw) then multiset(rows)[row] else 0 {
      AcceptedMultiset(rows, startRaw, endRaw, boundary, row);
      if row in multiset(rows) {
        assert row in rows && Readable(row, boundary);
      }
    }
  }

  lemma KeyInOrder(a: Payload, b: Payload, resource: Resource)
    requires LexLe(SortKey(resource)(a), SortKey(resource)(b))
    ensures NotAfter(a, b, resource)
  {
    var x, y := SortKey(resource)(a), SortKey(resource)(b);
    LexUnfold(x, y);
    LexUnfold(x[1..], y[1..]);
    LexUnfold(x[2..], y[2..]);
    if resource == Order {
      LexUnfold(x[3..], y[3..]);
      LexUnfold(x[4..], y[4..]);
    }
  }

  lemma {:induction false} LexUnfold(a: seq<int>, b: seq<int>)
    requires a != [] && b != []
    ensures LexLe(a, b) <==> a[0] < b[0] || (a[0] == b[0] && LexLe(a[1..], b[1..]))
  {
  }

  lemma SortedInOrder(rows: seq<Payload>, resource: Resource)
    ensures InListOrder(SortedRows(resource, rows), resource)
  {
    var s := SortedRows(resource, rows);
    ByKeyPreorder(SortKey(resource));
    SortSorted(rows, ByKey(SortKey(resource)));
    forall i, j | 0 <= i < j < |s| ensures NotAfter(s[i], s[j], resource) {
      assert ByKey(SortKey(resource))(s[i], s[j]);
      KeyInOrder(s[i], s[j], resource);
    }
  }

  lemma RowsNamed(sha: Hash, session: Session, resource: Resource, rows: seq<Payload>)
    ensures var records := RecordsOf(sha, session, resource, rows);
            && PayloadsOf(records) == rows
            && (forall i | 0 <= i < |records| :: NamesRow(sha, session, resource, records[i]))
  {
  }

  /** The records a window of this range is built from. */
  function Listed(sha: Hash, session: Session, reading: Reading, resource: Resource, startRaw: int, endRaw: int): seq<Record> {
    ReconcileLaws.SortedRecords(sha, session, resource,
                                ReconcileLaws.RowsOf(Answer(reading, resource, startRaw, endRaw), resource, startRaw, endRaw))
  }

  lemma RowsAreRecords(sha: Hash, session: Session, reading: Reading, resource: Resource, startRaw: int, endRaw: int)
    returns (records: seq<Record>)
    requires Answer(reading, resource, startRaw, endRaw).Rows?
    requires HalfOpenRows(Answer(reading, resource, startRaw, endRaw).rows, startRaw, endRaw, BoundaryField(resource)).Success?
    ensures records == Listed(sha, session, reading, resource, startRaw, endRaw)
    ensures RecordsFor(sha, session, reading, resource, startRaw, endRaw, records)
    ensures forall i | 0 <= i < |records| :: records[i].resource == resource
  {
    var rows := Answer(reading, resource, startRaw, endRaw).rows;
    var kept := HalfOpenRows(rows, startRaw, endRaw, BoundaryField(resource)).value;
    records := ReconcileLaws.SortedRecords(sha, session, resource, kept);
    KeptRows(rows, resource, startRaw, endRaw);
    SortedInOrder(kept, resource);
    RowsNamed(sha, session, resource, SortedRows(resource, kept));
    assert multiset(SortedRows(resource, kept)) == multiset(kept);
  }

  /** The records of a built window are those of its deals and then those of its orders. */
  lemma BuiltRecords(
    sha: Hash, session: Session, policy: Policy, announced: set<EventId>, expected: Checkpoint,
    startRaw: int, endRaw: int, reading: Reading, revision: int, supersedes: Option<WindowId>)
    returns (deals: seq<Record>, orders: seq<Record>)
    requires ReadWindow(sha, session, policy, announced, expected, startRaw, endRaw, reading, revision, supersedes).0.Success?
    ensures var input := ReadWindow(
              sha, session, policy, announced, expected, startRaw, endRaw, reading, revision, supersedes).0.value;
            && input.records == deals + orders
            && input.window.dealCount == |deals| && input.window.orderCount == |orders|
    ensures deals == Listed(sha, session, reading, Deal, startRaw, endRaw)
    ensures orders == Listed(sha, session, reading, Order, startRaw, endRaw)
    ensures RecordsFor(sha, session, reading, Deal, startRaw, endRaw, deals)
    ensures RecordsFor(sha, session, reading, Order, startRaw, endRaw, orders)
    ensures forall i | 0 <= i < |deals| :: deals[i].resource == Deal
    ensures forall i | 0 <= i < |orders| :: orders[i].resource == Order
  {
    deals := RowsAreRecords(sha, session, reading, Deal, startRaw, endRaw);
    orders := RowsAreRecords(sha, session, reading, Order, startRaw, endRaw);
  }

  // ---------------------------------------------------------------------
  // What the tables hold
  // ---------------------------------------------------------------------

  /** A member of the window is linked to a version that holds this very record. */
  ghost predicate Links(versions: seq<Version>, members: map<Slot, EventId>, slot: Slot, record: Record) {
    && slot in members && members[slot] == record.eventId
    && exists k | 0 <= k < |versions| :: versions[k].record == record
  }

  /** The members of the window, resource by resource, are these records and no others. */
  ghost predicate Holds(db: Db, id: WindowId, deals: seq<Record>, orders: seq<Record>) {
    && (forall i | 0 <= i < |deals| :: Links(db.versions, db.members, Slot(id, Deal, i), deals[i]))
    && (forall i | 0 <= i < |orders| :: Links(db.versions, db.members, Slot(id, Order, i), orders[i]))
    && forall s | s in db.members && s.windowId == id ::
         s.ordinal < (if s.resource == Deal then |deals| else |orders|)
  }

  lemma LinkedRecord(sha: Hash, ledger: Ledger, w: Window, r: Record, ordinal: nat)
    requires CollisionFree(sha) && VersionsNamed(sha, ledger.versions) && TrueRecord(sha, r)
    requires r.naturalId.profileId == w.profileId && AddRecord(ledger, w, r, ordinal).Success?
    ensures var after := AddRecord(ledger, w, r, ordinal).value;
            && Links(after.versions, after.members, Slot(w.id, r.resource, ordinal), r)
            && VersionsNamed(sha, after.versions)
            && ledger.versions <= after.versions
            && after.members == ledger.members[Slot(w.id, r.resource, ordinal) := r.eventId]
            && Slot(w.id, r.resource, ordinal) !in ledger.members
  {
    VersionOfRecord(sha, ledger.versions, w.profileId, r);
    var after := AddRecord(ledger, w, r, ordinal).value;
    var found := LatestVersion(ledger.versions, w.profileId, r, true);
    if found.Some? {
      var k :| 0 <= k < |ledger.versions| && ledger.versions[k].record.eventId == found.value;
      assert NamedVersion(sha, ledger.versions[k]);
      SameTrueRecord(sha, ledger.versions[k].record, r);
      assert after.versions[k].record == r;
    } else {
      assert after.versions[|ledger.versions|].record == r;
    }
  }

  lemma LinksStay(ledger: Ledger, after: Ledger, slot: Slot, record: Record)
    requires ledger.versions <= after.versions && slot in after.members
    requires slot in ledger.members ==> after.members[slot] == ledger.members[slot]
    requires Links(ledger.versions, ledger.members, slot, record)
    ensures Links(after.versions, after.members, slot, record)
  {
    var k :| 0 <= k < |ledger.versions| && ledger.versions[k].record == record;
    assert after.versions[k].record == record;
  }

  function SlotOf(w: WindowId, records: seq<Record>, i: nat): Slot
    requires i < |records|
  {
    Slot(w, records[i].resource, CountOf(records[..i], records[i].resource))
  }

  /** The first n records are linked, each under its ordinal among its resource. */
  ghost predicate LinkedUpTo(after: Ledger, w: WindowId, records: seq<Record>, n: nat) {
    forall i | 0 <= i < n && i < |records| :: Links(after.versions, after.members, SlotOf(w, records, i), records[i])
  }

  ghost predicate LedgerGrows(before: Ledger, after: Ledger) {
    && before.versions <= after.versions
    && forall s | s in before.members :: s in after.members && after.members[s] == before.members[s]
  }

  ghost predicate NewSlots(before: Ledger, after: Ledger, w: WindowId, deals: nat, orders: nat) {
    forall s | s in after.members && s !in before.members ::
      s.windowId == w && s.ordinal < (if s.resource == Deal then deals else orders)
  }

  lemma LinkedStay(before: Ledger, after: Ledger, w: WindowId, records: seq<Record>, n: nat)
    requires LedgerGrows(before, after) && LinkedUpTo(before, w, records, n)
    ensures LinkedUpTo(after, w, records, n)
  {
    forall i | 0 <= i < n && i < |records|
      ensures Links(after.versions, after.members, SlotOf(w, records, i), records[i])
    {
      LinksStay(before, after, SlotOf(w, records, i), records[i]);
    }
  }

  lemma LinkedPrefix(after: Ledger, w: WindowId, records: seq<Record>, n: nat)
    requires n <= |records| && LinkedUpTo(after, w, records[..n], n)
    ensures LinkedUpTo(after, w, records, n)
  {
    forall i | 0 <= i < n ensures Links(after.versions, after.members, SlotOf(w, records, i), records[i]) {
      assert records[..n][..i] == records[..i];
      assert SlotOf(w, records[..n], i) == SlotOf(w, records, i);
    }
  }

  ghost predicate LinkedSoFar(sha: Hash, ledger: Ledger, after: Ledger, w: WindowId, records: seq<Record>) {
    && VersionsNamed(sha, after.versions) && LedgerGrows(ledger, after)
    && LinkedUpTo(after, w, records, |records|)
    && NewSlots(ledger, after, w, CountOf(records, Deal), CountOf(records, Order))
  }

  lemma LastLinked(after: Ledger, w: WindowId, records: seq<Record>, n: nat)
    requires |records| == n + 1 && LinkedUpTo(after, w, records, n)
    requires Links(after.versions, after.members, SlotOf(w, records, n), records[n])
    ensures LinkedUpTo(after, w, records, |records|)
  {
  }

  lemma {:induction false} SlotsSoFar(ledger: Ledger, before: Ledger, after: Ledger, w: WindowId, records: seq<Record>, n: nat)
    requires |records| == n + 1
    requires NewSlots(ledger, before, w, CountOf(records[..n], Deal), CountOf(records[..n], Order))
    requires after.members == before.members[SlotOf(w, records, n) := records[n].eventId]
    ensures NewSlots(ledger, after, w, CountOf(records, Deal), CountOf(records, Order))
  {
    CountLast(records, n, Deal);
    CountLast(records, n, Order);
  }

  lemma GrowsOnce(ledger: Ledger, before: Ledger, after: Ledger, slot: Slot, e: EventId)
    requires LedgerGrows(ledger, before) && before.versions <= after.versions
    requires after.members == before.members[slot := e] && slot !in before.members
    ensures LedgerGrows(ledger, after) && LedgerGrows(before, after)
  {
  }

  lemma {:induction false} LinkOneMore(
    sha: Hash, ledger: Ledger, before: Ledger, w: Window, records: seq<Record>, n: nat, ordinal: nat, after: Ledger)
    requires CollisionFree(sha) && |records| == n + 1 && TrueRecord(sha, records[n])
    requires records[n].naturalId.profileId == w.profileId
    requires LinkedSoFar(sha, ledger, before, w.id, records[..n])
    requires ordinal == CountOf(records[..n], records[n].resource)
    requires AddRecord(before, w, records[n], ordinal) == Success(after)
    ensures LinkedSoFar(sha, ledger, after, w.id, records)
  {
    LinkedRecord(sha, before, w, records[n], ordinal);
    assert SlotOf(w.id, records, n) == Slot(w.id, records[n].resource, ordinal);
    GrowsOnce(ledger, before, after, SlotOf(w.id, records, n), records[n].eventId);
    LinkedPrefix(before, w.id, records, n);
    LinkedStay(before, after, w.id, records, n);
    LastLinked(after, w.id, records, n);
    SlotsSoFar(ledger, before, after, w.id, records, n);
  }

  lemma {:induction false} LinkedRecords(sha: Hash, ledger: Ledger, w: Window, records: seq<Record>) returns (after: Ledger)
    requires CollisionFree(sha) && VersionsNamed(sha, ledger.versions) && TrueRecords(sha, records)
    requires forall i | 0 <= i < |records| :: records[i].naturalId.profileId == w.profileId
    requires AddRecords(ledger, w, records).Success?
    ensures AddRecords(ledger, w, records) == Success(after)
    ensures LinkedSoFar(sha, ledger, after, w.id, records)
    decreases |records|
  {
    if records == [] {
      after := ledger;
    } else {
      var n := |records| - 1;
      AddRecordsBefore(ledger, w, records, n);
      var before := LinkedRecords(sha, ledger, w, records[..n]);
      AddRecordsNext(ledger, w, records, n);
      var ordinal := CountOf(records[..n], records[n].resource);
      after := AddRecord(before, w, records[n], ordinal).value;
      LinkOneMore(sha, ledger, before, w, records, n, ordinal, after);
    }
  }

  lemma {:induction false} AddRecordsBefore(ledger: Ledger, w: Window, records: seq<Record>, n: nat)
    requires |records| == n + 1 && AddRecords(ledger, w, records).Success?
    ensures AddRecords(ledger, w, records[..n]).Success?
  {
  }

  lemma {:induction false} CountLast(records: seq<Record>, n: nat, resource: Resource)
    requires |records| == n + 1
    ensures CountOf(records, resource)
            == CountOf(records[..n], resource) + (if records[n].resource == resource then 1 else 0)
  {
  }

  // ---------------------------------------------------------------------
  // A committed window
  // ---------------------------------------------------------------------

  lemma {:induction false} DealSlot(w: WindowId, deals: seq<Record>, orders: seq<Record>, i: nat)
    requires forall k | 0 <= k < |deals| :: deals[k].resource == Deal
    requires i < |deals|
    ensures SlotOf(w, deals + orders, i) == Slot(w, Deal, i)
  {
    assert (deals + orders)[..i] == deals[..i];
    CountOfRecords(deals[..i], Deal);
  }

  lemma {:induction false} OrderSlot(w: WindowId, deals: seq<Record>, orders: seq<Record>, i: nat, k: nat)
    requires forall k | 0 <= k < |deals| :: deals[k].resource == Deal
    requires forall k | 0 <= k < |orders| :: orders[k].resource == Order
    requires i < |orders| && k == |deals| + i
    ensures SlotOf(w, deals + orders, k) == Slot(w, Order, i)
  {
    assert (deals + orders)[..k] == deals + orders[..i];
    CountOfConcat(deals, orders[..i], Order);
    CountOfRecords(deals, Deal);
    CountOfRecords(orders[..i], Order);
  }

  lemma {:induction false} LinkedHold(ledger: Ledger, after: Ledger, w: WindowId, deals: seq<Record>, orders: seq<Record>, db: Db)
    requires forall k | 0 <= k < |deals| :: deals[k].resource == Deal
    requires forall k | 0 <= k < |orders| :: orders[k].resource == Order
    requires LinkedUpTo(after, w, deals + orders, |deals + orders|)
    requires NewSlots(ledger, after, w, |deals|, |orders|)
    requires forall s | s in ledger.members :: s.windowId != w
    requires db.versions == after.versions && db.members == after.members
    ensures Holds(db, w, deals, orders)
  {
    var records := deals + orders;
    forall i | 0 <= i < |deals| ensures Links(db.versions, db.members, Slot(w, Deal, i), deals[i]) {
      DealSlot(w, deals, orders, i);
      assert Links(after.versions, after.members, SlotOf(w, records, i), records[i]);
    }
    forall i | 0 <= i < |orders| ensures Links(db.versions, db.members, Slot(w, Order, i), orders[i]) {
      var k := |deals| + i;
      OrderSlot(w, deals, orders, i, k);
      assert Links(after.versions, after.members, SlotOf(w, records, k), records[k]);
    }
  }

  /** The tables after a commit hold the records of its input. */
  lemma CommitHolds(
    sha: Hash, session: Session, policy: Policy, announced: set<EventId>, db: Db, input: Input, mode: CommitMode,
    deals: seq<Record>, orders: seq<Record>)
    requires CollisionFree(sha) && HonestDb(sha, db) && Planned(sha, session, policy, announced, input)
    requires Commit(db, input.expected, input.window, input.records, input.messages, mode).Success?
    requires input.records == deals + orders
    requires forall k | 0 <= k < |deals| :: deals[k].resource == Deal
    requires forall k | 0 <= k < |orders| :: orders[k].resource == Order
    ensures Holds(Commit(db, input.expected, input.window, input.records, input.messages, mode).value,
                  input.window.id, deals, orders)
  {
    var start, w := Ledger(db.versions, db.members), input.window;
    forall i | 0 <= i < |input.records|
      ensures TrueRecord(sha, input.records[i]) && input.records[i].naturalId.profileId == w.profileId
    {
      assert Named(sha, session, input.records[i]);
    }
    var ledger := CommittedParts(db, input, mode);
    var after := LinkedRecords(sha, start, w, input.records);
    CountOfConcat(deals, orders, Deal);
    CountOfConcat(deals, orders, Order);
    CountOfRecords(deals, Deal);
    CountOfRecords(orders, Order);
    LinkedHold(start, after, w.id, deals, orders,
               Commit(db, input.expected, w, input.records, input.messages, mode).value);
  }
}
