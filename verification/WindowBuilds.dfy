/** Exactly which answers of the terminal build a window. */
module WindowBuilds {
  import opened Wrappers
  import opened Canonical
  import opened Sorting
  import opened JournalModel
  import opened History
  import opened HistoryLaws
  import opened PlanCoverage
  import opened WindowContents

  predicate Integer(row: Payload, field: Field) {
    field in row && row[field].Whole?
  }

  predicate IntegerIfPresent(row: Payload, field: Field) {
    field in row ==> row[field].Whole?
  }

  /** A row with an integer ticket, an integer time of its kind, and nothing that has no canonical form. */
  predicate Listable(row: Payload, resource: Resource) {
    && Integer(row, TICKET)
    && Integer(row, if resource == Deal then TIME else TIME_DONE)
    && forall field | field in row :: !row[field].NotFinite?
  }

  /** The other times the rows are ordered by are integers, where they are given. */
  predicate Orderable(row: Payload, resource: Resource) {
    match resource
    case Deal => IntegerIfPresent(row, TIME_MSC)
    case Order =>
      IntegerIfPresent(row, TIME_DONE_MSC) && IntegerIfPresent(row, TIME_SETUP_MSC) && IntegerIfPresent(row, TIME_SETUP)
  }

  /** Every row can be listed, and those of the range can be ordered and are listed once. */
  ghost predicate Usable(answer: CallResult, resource: Resource, startRaw: int, endRaw: int) {
    && answer.Rows?
    && (forall row | row in answer.rows :: Listable(row, resource))
    && forall row | row in answer.rows && HappensIn(row, resource, startRaw, endRaw) ::
         Orderable(row, resource) && multiset(answer.rows)[row] == 1
  }

  // ---------------------------------------------------------------------
  // Rows
  // ---------------------------------------------------------------------

  lemma ListableRows(rows: seq<Payload>, resource: Resource, startRaw: int, endRaw: int)
    ensures HalfOpenRows(rows, startRaw, endRaw, BoundaryField(resource)).Success?
            <==> forall row | row in rows :: Listable(row, resource)
  {
    ReadableEach(rows, BoundaryField(resource));
    assert forall row :: Readable(row, BoundaryField(resource)) <==> Listable(row, resource);
  }

  lemma {:induction false} SortableEach(rows: seq<Payload>, resource: Resource)
    ensures AllSortable(rows, resource) <==> forall row | row in rows :: Sortable(row, resource)
  {
    if rows != [] {
      SortableEach(rows[1..], resource);
      assert rows == [rows[0]] + rows[1..];
    }
  }

  /** No two of the rows are equal. */
  predicate NoTwins(rows: seq<Payload>) {
    forall i, j | 0 <= i < j < |rows| :: rows[i] != rows[j]
  }

  lemma TwinsNext(rows: seq<Payload>, n: nat)
    requires |rows| == n + 1
    ensures NoTwins(rows) <==> NoTwins(rows[..n]) && rows[n] !in rows[..n]
  {
    var before := rows[..n];
    if NoTwins(before) && rows[n] !in before {
      forall i, j | 0 <= i < j < |rows| ensures rows[i] != rows[j] {
        assert rows[i] == before[i] && before[i] in before;
        assert j < n ==> rows[j] == before[j];
      }
    }
  }

  ghost predicate CountedOnce(rows: seq<Payload>) {
    forall row | row in rows :: multiset(rows)[row] == 1
  }

  lemma CountedNext(rows: seq<Payload>, n: nat)
    requires |rows| == n + 1
    ensures CountedOnce(rows) <==> CountedOnce(rows[..n]) && rows[n] !in rows[..n]
  {
    var before := rows[..n];
    assert rows == before + [rows[n]];
    assert multiset(rows) == multiset(before) + multiset{rows[n]};
    if CountedOnce(rows) {
      assert multiset(rows)[rows[n]] == 1;
      forall row | row in before ensures multiset(before)[row] == 1 {
        assert row in rows && multiset(rows)[row] == 1;
      }
    }
    if CountedOnce(before) && rows[n] !in before {
      forall row | row in rows ensures multiset(rows)[row] == 1 {
        assert row in before || row == rows[n];
      }
    }
  }

  lemma {:induction false} TwinsCounted(rows: seq<Payload>)
    ensures NoTwins(rows) <==> CountedOnce(rows)
    decreases |rows|
  {
    if rows != [] {
      var n := |rows| - 1;
      TwinsCounted(rows[..n]);
      TwinsNext(rows, n);
      CountedNext(rows, n);
    }
  }

  lemma SortedTwins(rows: seq<Payload>, resource: Resource)
    ensures NoTwins(SortedRows(resource, rows)) <==> NoTwins(rows)
  {
    var s := SortedRows(resource, rows);
    TwinsCounted(s);
    TwinsCounted(rows);
    assert multiset(s) == multiset(rows);
    forall row ensures row in s <==> row in rows {
      assert row in multiset(s) <==> row in multiset(rows);
    }
  }

  /** What the range keeps of a list, row by row. */
  lemma KeptMembers(kept: seq<Payload>, rows: seq<Payload>, resource: Resource, startRaw: int, endRaw: int)
    requires Selected(kept, rows, resource, startRaw, endRaw)
    ensures forall row :: row in kept <==> row in rows && HappensIn(row, resource, startRaw, endRaw)
  {
    forall row ensures row in kept <==> row in rows && HappensIn(row, resource, startRaw, endRaw) {
      assert row in kept <==> row in multiset(kept);
      assert row in rows <==> row in multiset(rows);
    }
  }

  lemma KeptUsable(kept: seq<Payload>, rows: seq<Payload>, resource: Resource, startRaw: int, endRaw: int)
    requires Selected(kept, rows, resource, startRaw, endRaw)
    requires forall row | row in rows :: Listable(row, resource)
    ensures (forall row | row in rows && HappensIn(row, resource, startRaw, endRaw) :: Orderable(row, resource))
            <==> forall row | row in kept :: Sortable(row, resource)
    ensures (forall row | row in rows && HappensIn(row, resource, startRaw, endRaw) :: multiset(rows)[row] == 1)
            <==> forall row | row in kept :: multiset(kept)[row] == 1
  {
    KeptMembers(kept, rows, resource, startRaw, endRaw);
    forall row | row in kept ensures Sortable(row, resource) <==> Orderable(row, resource) {
      assert Listable(row, resource);
    }
  }

  lemma {:induction false} UsableExactly(answer: CallResult, resource: Resource, startRaw: int, endRaw: int)
    requires answer.Rows?
    ensures var kept := HalfOpenRows(answer.rows, startRaw, endRaw, BoundaryField(resource));
            Usable(answer, resource, startRaw, endRaw)
            <==> kept.Success? && AllSortable(kept.value, resource) && NoTwins(SortedRows(resource, kept.value))
  {
    var rows := answer.rows;
    var r := HalfOpenRows(rows, startRaw, endRaw, BoundaryField(resource));
    ListableRows(rows, resource, startRaw, endRaw);
    if r.Success? {
      var kept := r.value;
      KeptRows(rows, resource, startRaw, endRaw);
      KeptUsable(kept, rows, resource, startRaw, endRaw);
      SortableEach(kept, resource);
      SortedTwins(kept, resource);
      TwinsCounted(kept);
    }
  }

  // ---------------------------------------------------------------------
  // Names
  // ---------------------------------------------------------------------

  lemma NamesDiffer(sha: Hash, session: Session, resource: Resource, a: Payload, b: Payload)
    requires CollisionFree(sha)
    ensures RecordOf(sha, session, resource, a).eventId == RecordOf(sha, session, resource, b).eventId <==> a == b
  {
    if RecordOf(sha, session, resource, a).eventId == RecordOf(sha, session, resource, b).eventId {
      SameTrueRecord(sha, RecordOf(sha, session, resource, a), RecordOf(sha, session, resource, b));
    }
  }

  lemma UniqueOf(sha: Hash, session: Session, resource: Resource, rows: seq<Payload>)
    requires CollisionFree(sha)
    ensures UniqueRecords(RecordsOf(sha, session, resource, rows)) <==> NoTwins(rows)
  {
    var records := RecordsOf(sha, session, resource, rows);
    forall i, j | 0 <= i < j < |rows| ensures records[i].eventId != records[j].eventId <==> rows[i] != rows[j] {
      NamesDiffer(sha, session, resource, rows[i], rows[j]);
    }
  }

  lemma DealsAndOrdersDiffer(sha: Hash, a: Record, b: Record)
    requires CollisionFree(sha) && SelfNames(sha, a) && SelfNames(sha, b) && a.resource != b.resource
    ensures a.eventId != b.eventId
  {
    if a.eventId == b.eventId {
      SameNameSameRecord(sha, a, b);
    }
  }

  lemma UniqueJoined(sha: Hash, deals: seq<Record>, orders: seq<Record>)
    requires CollisionFree(sha) && TrueRecords(sha, deals) && TrueRecords(sha, orders)
    requires forall i | 0 <= i < |deals| :: deals[i].resource == Deal
    requires forall i | 0 <= i < |orders| :: orders[i].resource == Order
    ensures UniqueRecords(deals + orders) <==> UniqueRecords(deals) && UniqueRecords(orders)
  {
    var all := deals + orders;
    forall i, j | 0 <= i < |deals| && 0 <= j < |orders| ensures deals[i].eventId != orders[j].eventId {
      DealsAndOrdersDiffer(sha, deals[i], orders[j]);
    }
    if UniqueRecords(all) {
      forall i, j | 0 <= i < j < |deals| ensures deals[i].eventId != deals[j].eventId {
        assert all[i].eventId != all[j].eventId;
      }
      forall i, j | 0 <= i < j < |orders| ensures orders[i].eventId != orders[j].eventId {
        assert all[|deals| + i].eventId != all[|deals| + j].eventId;
      }
    }
  }

  lemma {:induction false} MessageIds(
    sha: Hash, session: Session, w: WindowId, records: seq<Record>, announced: set<EventId>, observed: Utc)
    requires UniqueRecords(records)
    ensures var messages := RecordMessages(sha, session, w, records, announced, observed);
            UniqueEventIds(messages) && NamedLike(messages, records)
  {
    if records != [] {
      var n := |records| - 1;
      MessageIds(sha, session, w, records[..n], announced, observed);
      var before := RecordMessages(sha, session, w, records[..n], announced, observed);
      var messages := RecordMessages(sha, session, w, records, announced, observed);
      forall k | 0 <= k < |before| ensures before[k].eventId != records[n].eventId
        ensures exists i :: 0 <= i < |records| && records[i].eventId == before[k].eventId
      {
        var i :| 0 <= i < n && records[..n][i].eventId == before[k].eventId;
        assert records[i].eventId == before[k].eventId;
      }
      assert messages == before || (|messages| == |before| + 1 && messages[..|before|] == before
                                    && messages[|before|].eventId == records[n].eventId);
    }
  }

  /** Every message is named like one of the records. */
  ghost predicate NamedLike(messages: seq<Message>, records: seq<Record>) {
    forall k | 0 <= k < |messages| :: exists i :: 0 <= i < |records| && records[i].eventId == messages[k].eventId
  }

  lemma NamesApart(x: seq<Message>, deals: seq<Record>, ids: set<EventId>)
    requires NamedLike(x, deals) && forall i | 0 <= i < |deals| :: deals[i].eventId !in ids
    ensures forall k | 0 <= k < |x| :: x[k].eventId !in ids
  {
  }

  function IdsOf(messages: seq<Message>): set<EventId> {
    set m | m in messages :: m.eventId
  }

  lemma DealNotOrder(sha: Hash, deal: Record, y: seq<Message>, orders: seq<Record>)
    requires CollisionFree(sha) && TrueRecord(sha, deal) && TrueRecords(sha, orders) && deal.resource == Deal
    requires NamedLike(y, orders) && forall i | 0 <= i < |orders| :: orders[i].resource == Order
    ensures deal.eventId !in IdsOf(y)
  {
    if deal.eventId in IdsOf(y) {
      var l :| 0 <= l < |y| && y[l].eventId == deal.eventId;
      var j :| 0 <= j < |orders| && orders[j].eventId == y[l].eventId;
      DealsAndOrdersDiffer(sha, deal, orders[j]);
    }
  }

  lemma {:induction false} MessagesUnique(
    sha: Hash, session: Session, w: Window, deals: seq<Record>, orders: seq<Record>, announced: set<EventId>, observed: Utc)
    requires CollisionFree(sha) && TrueRecords(sha, deals) && TrueRecords(sha, orders)
    requires forall i | 0 <= i < |deals| :: deals[i].resource == Deal
    requires forall i | 0 <= i < |orders| :: orders[i].resource == Order
    requires UniqueRecords(deals) && UniqueRecords(orders)
    ensures UniqueEventIds(RecordMessages(sha, session, w.id, deals, announced, observed)
                           + RecordMessages(sha, session, w.id, orders, announced, observed)
                           + [Marker(sha, session, w, observed)])
  {
    var x, y := RecordMessages(sha, session, w.id, deals, announced, observed),
                RecordMessages(sha, session, w.id, orders, announced, observed);
    var marker := Marker(sha, session, w, observed);
    MessageIds(sha, session, w.id, deals, announced, observed);
    MessageIds(sha, session, w.id, orders, announced, observed);
    forall i | 0 <= i < |deals| ensures deals[i].eventId !in IdsOf(y) && deals[i].eventId !in {marker.eventId} {
      DealNotOrder(sha, deals[i], y, orders);
      NotMarker(sha, session, w, observed, deals[i]);
    }
    forall i | 0 <= i < |orders| ensures orders[i].eventId !in {marker.eventId} {
      NotMarker(sha, session, w, observed, orders[i]);
    }
    NamesApart(x, deals, IdsOf(y));
    NamesApart(x, deals, {marker.eventId});
    NamesApart(y, orders, {marker.eventId});
    forall k, l | 0 <= k < |x| && 0 <= l < |y| ensures x[k].eventId != y[l].eventId {
      assert y[l] in y && y[l].eventId in IdsOf(y);
    }
    UniqueParts(x, y, marker);
  }

  lemma UniqueParts(x: seq<Message>, y: seq<Message>, m: Message)
    requires UniqueEventIds(x) && UniqueEventIds(y)
    requires forall k, l | 0 <= k < |x| && 0 <= l < |y| :: x[k].eventId != y[l].eventId
    requires forall k | 0 <= k < |x| :: x[k].eventId != m.eventId
    requires forall l | 0 <= l < |y| :: y[l].eventId != m.eventId
    ensures UniqueEventIds(x + y + [m])
  {
  }

  lemma NotMarker(sha: Hash, session: Session, w: Window, observed: Utc, r: Record)
    requires CollisionFree(sha) && SelfNames(sha, r)
    ensures r.eventId != Marker(sha, session, w, observed).eventId
  {
    assert RecordIdentity(r.resource, r.naturalId, r.payloadDigest) != MarkerIdentity(w.id, w.windowDigest);
  }

  // ---------------------------------------------------------------------
  // Inputs
  // ---------------------------------------------------------------------

  predicate Fitting(session: Session, policy: Policy, expected: Checkpoint, startRaw: int, endRaw: int) {
    && session.lowerBound >= 0 && startRaw < endRaw
    && expected.profileId == session.journalProfileId && expected.policy == policy.version
  }

  lemma {:induction false} InputFits(
    sha: Hash, session: Session, policy: Policy, announced: set<EventId>, expected: Checkpoint, w: Window,
    deals: seq<Record>, orders: seq<Record>, supersedes: Option<WindowId>, observed: Utc)
    requires CollisionFree(sha) && TrueRecords(sha, deals) && TrueRecords(sha, orders)
    requires forall i | 0 <= i < |deals| :: deals[i].resource == Deal
    requires forall i | 0 <= i < |orders| :: orders[i].resource == Order
    requires w.profileId == session.journalProfileId && w.policy == policy.version
    ensures Constructible(Input(
              expected, session.lowerBound, w, deals + orders,
              RecordMessages(sha, session, w.id, deals, announced, observed)
              + RecordMessages(sha, session, w.id, orders, announced, observed) + [Marker(sha, session, w, observed)],
              supersedes))
            <==> Fitting(session, policy, expected, w.startRaw, w.endRaw) && UniqueRecords(deals) && UniqueRecords(orders)
  {
    UniqueJoined(sha, deals, orders);
    if UniqueRecords(deals) && UniqueRecords(orders) {
      MessagesUnique(sha, session, w, deals, orders, announced, observed);
    }
  }

  lemma AssembledFits(
    sha: Hash, session: Session, policy: Policy, announced: set<EventId>, expected: Checkpoint,
    startRaw: int, endRaw: int, dealRows: seq<Payload>, orderRows: seq<Payload>,
    revision: int, supersedes: Option<WindowId>, observed: Utc)
    requires CollisionFree(sha)
    ensures Constructible(Assembled(sha, session, policy, announced, expected, startRaw, endRaw, dealRows, orderRows,
                                    revision, supersedes, observed))
            <==> && Fitting(session, policy, expected, startRaw, endRaw)
                 && NoTwins(SortedRows(Deal, dealRows)) && NoTwins(SortedRows(Order, orderRows))
  {
    var deals := RecordsOf(sha, session, Deal, SortedRows(Deal, dealRows));
    var orders := RecordsOf(sha, session, Order, SortedRows(Order, orderRows));
    var w := WindowOf(sha, session, policy, expected, startRaw, endRaw, deals, orders, revision, supersedes, observed);
    UniqueOf(sha, session, Deal, SortedRows(Deal, dealRows));
    UniqueOf(sha, session, Order, SortedRows(Order, orderRows));
    RowsTrue(sha, session, Deal, SortedRows(Deal, dealRows));
    RowsTrue(sha, session, Order, SortedRows(Order, orderRows));
    InputFits(sha, session, policy, announced, expected, w, deals, orders, supersedes, observed);
    assert Assembled(sha, session, policy, announced, expected, startRaw, endRaw, dealRows, orderRows,
                     revision, supersedes, observed)
        == Input(expected, session.lowerBound, w, deals + orders,
                 RecordMessages(sha, session, w.id, deals, announced, observed)
                 + RecordMessages(sha, session, w.id, orders, announced, observed) + [Marker(sha, session, w, observed)],
                 supersedes);
  }

  lemma RowsTrue(sha: Hash, session: Session, resource: Resource, rows: seq<Payload>)
    ensures var records := RecordsOf(sha, session, resource, rows);
            TrueRecords(sha, records) && forall i | 0 <= i < |records| :: records[i].resource == resource
  {
  }

  lemma {:induction false} InputBuildsExactly(
    sha: Hash, session: Session, policy: Policy, announced: set<EventId>, expected: Checkpoint,
    startRaw: int, endRaw: int, dealRows: seq<Payload>, orderRows: seq<Payload>,
    revision: int, supersedes: Option<WindowId>, observed: Utc)
    requires CollisionFree(sha)
    ensures BuildInput(sha, session, policy, announced, expected, startRaw, endRaw, dealRows, orderRows,
                       revision, supersedes, observed).Success?
            <==> && Fitting(session, policy, expected, startRaw, endRaw)
                 && AllSortable(dealRows, Deal) && AllSortable(orderRows, Order)
                 && NoTwins(SortedRows(Deal, dealRows)) && NoTwins(SortedRows(Order, orderRows))
  {
    AssembledFits(sha, session, policy, announced, expected, startRaw, endRaw, dealRows, orderRows,
                  revision, supersedes, observed);
  }

  lemma BuildsExactly(
    sha: Hash, session: Session, policy: Policy, announced: set<EventId>, expected: Checkpoint,
    startRaw: int, endRaw: int, deals: CallResult, orders: CallResult,
    revision: int, supersedes: Option<WindowId>, observed: Utc)
    requires CollisionFree(sha)
    ensures BuildWindow(sha, session, policy, announced, expected, startRaw, endRaw, deals, orders,
                        revision, supersedes, observed).0.Success?
            <==> && Fitting(session, policy, expected, startRaw, endRaw)
                 && Usable(deals, Deal, startRaw, endRaw) && Usable(orders, Order, startRaw, endRaw)
  {
    if deals.Rows? && orders.Rows? {
      UsableExactly(deals, Deal, startRaw, endRaw);
      UsableExactly(orders, Order, startRaw, endRaw);
      var dealRows := HalfOpenRows(deals.rows, startRaw, endRaw, BoundaryField(Deal));
      var orderRows := HalfOpenRows(orders.rows, startRaw, endRaw, BoundaryField(Order));
      if dealRows.Success? && orderRows.Success? {
        InputBuildsExactly(sha, session, policy, announced, expected, startRaw, endRaw, dealRows.value, orderRows.value,
                           revision, supersedes, observed);
      }
    }
  }

  /**
    A range builds a window exactly when the terminal is identified, both calls answer, every
    row has an integer ticket and time and a canonical form, no row of the range is listed
    twice, its other times are integers, and the session, the policy and the range fit.
   */
  lemma ReadBuildsExactly(
    sha: Hash, session: Session, policy: Policy, announced: set<EventId>, expected: Checkpoint,
    startRaw: int, endRaw: int, reading: Reading, revision: int, supersedes: Option<WindowId>)
    requires CollisionFree(sha)
    ensures ReadWindow(sha, session, policy, announced, expected, startRaw, endRaw, reading, revision, supersedes).0.Success?
            <==> && reading.identified && Fitting(session, policy, expected, startRaw, endRaw)
                 && Usable(reading.deals(startRaw, endRaw), Deal, startRaw, endRaw)
                 && Usable(reading.orders(startRaw, endRaw), Order, startRaw, endRaw)
  {
    BuildsExactly(sha, session, policy, announced, expected, startRaw, endRaw, reading.deals(startRaw, endRaw),
                  reading.orders(startRaw, endRaw), revision, supersedes, reading.observed);
  }
}
