/** The window a range is built into, field by field, and the messages that announce it. */
module WindowMessages {
  import opened Wrappers
  import opened Canonical
  import opened JournalModel
  import opened History
  import opened PlanCoverage
  import opened WindowContents
  import ReconcileLaws

  /** The message of the i-th record of its kind: its envelope names the record, its row, its place and its producer. */
  predicate AnnouncesRecord(
    sha: Hash, session: Session, w: WindowId, observed: Utc, m: Message, record: Record, i: nat)
  {
    var digest := sha(RecordMessage(i, record.payload, w));
    m == Message(
      record.eventId, w, session.journalProfileId, session.streamKey,
      Decoded(if record.resource == Deal then HistoryDeal else HistoryOrder,
              sha(EnvelopeContent(record.eventId, digest, session.producer, observed))),
      digest)
  }

  /** The marker closes the window and carries its digest. */
  predicate ClosesWindow(sha: Hash, session: Session, w: Window, observed: Utc, m: Message) {
    && m.eventId == sha(MarkerIdentity(w.id, w.windowDigest)) && m.windowId == w.id
    && m.profileId == session.journalProfileId && m.streamKey == session.streamKey
    && m.envelope == Decoded(HistoryWindow, sha(EnvelopeContent(m.eventId, w.windowDigest, session.producer, observed)))
    && m.payloadDigest == w.windowDigest
  }

  function DigestsOf(records: seq<Record>): (s: seq<Digest>)
    ensures |s| == |records|
  {
    seq(|records|, i requires 0 <= i < |records| => records[i].payloadDigest)
  }

  function IdsOf(records: seq<Record>): (s: seq<EventId>)
    ensures |s| == |records|
  {
    seq(|records|, i requires 0 <= i < |records| => records[i].eventId)
  }

  /** The window is named by its range and revision, and its digests cover what it lists and what it supersedes. */
  predicate WindowFor(
    sha: Hash, session: Session, policy: Policy, w: Window, generation: int, startRaw: int, endRaw: int,
    deals: seq<Record>, orders: seq<Record>, revision: int, supersedes: Option<WindowId>, observed: Utc)
  {
    && w.id == sha(WindowIdentity(session.journalProfileId, generation, startRaw, endRaw, policy.version, revision))
    && w.profileId == session.journalProfileId && w.generation == generation && w.revision == revision
    && w.startRaw == startRaw && w.endRaw == endRaw && w.policy == policy.version && w.committedAt == observed
    && w.dealCount == |deals| && w.orderCount == |orders|
    && w.dealDigest == sha(DigestList(DigestsOf(deals))) && w.orderDigest == sha(DigestList(DigestsOf(orders)))
    && w.windowDigest == sha(WindowContent(WindowPayload(
         |deals|, w.dealDigest, endRaw, |orders|, w.orderDigest, IdsOf(deals + orders), startRaw, supersedes, w.id, revision)))
  }

  /** These messages announce exactly the records that have no row yet. */
  ghost predicate AnnouncesAll(
    sha: Hash, session: Session, w: WindowId, observed: Utc, messages: seq<Message>, records: seq<Record>,
    announced: set<EventId>)
  {
    && (forall k | 0 <= k < |messages| :: AnnouncesOne(sha, session, w, observed, messages[k], records, announced))
    && forall i | 0 <= i < |records| && records[i].eventId !in announced ::
         exists k :: 0 <= k < |messages| && AnnouncesRecord(sha, session, w, observed, messages[k], records[i], i)
  }

  ghost predicate AnnouncesOne(
    sha: Hash, session: Session, w: WindowId, observed: Utc, m: Message, records: seq<Record>, announced: set<EventId>)
  {
    exists i :: 0 <= i < |records| && records[i].eventId !in announced
      && AnnouncesRecord(sha, session, w, observed, m, records[i], i)
  }

  lemma {:induction false} MessagesAre(
    sha: Hash, session: Session, w: WindowId, records: seq<Record>, announced: set<EventId>, observed: Utc)
    ensures AnnouncesAll(sha, session, w, observed, RecordMessages(sha, session, w, records, announced, observed), records, announced)
  {
    if records != [] {
      var n := |records| - 1;
      var before, all := RecordMessages(sha, session, w, records[..n], announced, observed),
                         RecordMessages(sha, session, w, records, announced, observed);
      MessagesAre(sha, session, w, records[..n], announced, observed);
      forall k | 0 <= k < |all| ensures AnnouncesOne(sha, session, w, observed, all[k], records, announced) {
        if k < |before| {
          assert AnnouncesOne(sha, session, w, observed, before[k], records[..n], announced);
          var i :| 0 <= i < n && records[..n][i].eventId !in announced
            && AnnouncesRecord(sha, session, w, observed, before[k], records[..n][i], i);
          assert AnnouncesRecord(sha, session, w, observed, all[k], records[i], i);
        } else {
          assert AnnouncesRecord(sha, session, w, observed, all[k], records[n], n);
        }
      }
      forall i | 0 <= i < |records| && records[i].eventId !in announced
        ensures exists k :: 0 <= k < |all| && AnnouncesRecord(sha, session, w, observed, all[k], records[i], i)
      {
        if i < n {
          assert records[..n][i] == records[i];
          var k :| 0 <= k < |before| && AnnouncesRecord(sha, session, w, observed, before[k], records[..n][i], i);
          assert AnnouncesRecord(sha, session, w, observed, all[k], records[i], i);
        } else {
          assert AnnouncesRecord(sha, session, w, observed, all[|before|], records[i], i);
        }
      }
    }
  }

  lemma WindowIs(
    sha: Hash, session: Session, policy: Policy, expected: Checkpoint, startRaw: int, endRaw: int,
    deals: seq<Record>, orders: seq<Record>, revision: int, supersedes: Option<WindowId>, observed: Utc)
    ensures WindowFor(sha, session, policy,
                      WindowOf(sha, session, policy, expected, startRaw, endRaw, deals, orders, revision, supersedes, observed),
                      expected.generation, startRaw, endRaw, deals, orders, revision, supersedes, observed)
  {
    assert Digests(deals) == DigestsOf(deals) && Digests(orders) == DigestsOf(orders);
    assert EventIds(deals + orders) == IdsOf(deals + orders);
  }

  /**
    What a range is built into: the window of its records, a message for each record that has
    no row yet, deals before orders, and the marker last.
   */
  lemma BuiltExactly(
    sha: Hash, session: Session, policy: Policy, announced: set<EventId>, expected: Checkpoint,
    startRaw: int, endRaw: int, reading: Reading, revision: int, supersedes: Option<WindowId>)
    returns (deals: seq<Record>, orders: seq<Record>, x: seq<Message>, y: seq<Message>, marker: Message)
    requires ReadWindow(sha, session, policy, announced, expected, startRaw, endRaw, reading, revision, supersedes).0.Success?
    ensures RecordsFor(sha, session, reading, Deal, startRaw, endRaw, deals)
    ensures RecordsFor(sha, session, reading, Order, startRaw, endRaw, orders)
    ensures var input := ReadWindow(
              sha, session, policy, announced, expected, startRaw, endRaw, reading, revision, supersedes).0.value;
            && input.expected == expected && input.lowerBound == session.lowerBound && input.supersedes == supersedes
            && input.records == deals + orders && input.messages == x + y + [marker]
            && WindowFor(sha, session, policy, input.window, expected.generation, startRaw, endRaw, deals, orders,
                         revision, supersedes, reading.observed)
            && AnnouncesAll(sha, session, input.window.id, reading.observed, x, deals, announced)
            && AnnouncesAll(sha, session, input.window.id, reading.observed, y, orders, announced)
            && ClosesWindow(sha, session, input.window, reading.observed, marker)
  {
    deals, orders := BuiltRecords(sha, session, policy, announced, expected, startRaw, endRaw, reading, revision, supersedes);
    var w := WindowOf(sha, session, policy, expected, startRaw, endRaw, deals, orders, revision, supersedes, reading.observed);
    x := RecordMessages(sha, session, w.id, deals, announced, reading.observed);
    y := RecordMessages(sha, session, w.id, orders, announced, reading.observed);
    marker := Marker(sha, session, w, reading.observed);
    WindowIs(sha, session, policy, expected, startRaw, endRaw, deals, orders, revision, supersedes, reading.observed);
    MessagesAre(sha, session, w.id, deals, announced, reading.observed);
    MessagesAre(sha, session, w.id, orders, announced, reading.observed);
    InputIs(sha, session, policy, announced, expected, startRaw, endRaw, reading, revision, supersedes, deals, orders);
  }

  function InputOf(
    sha: Hash, session: Session, policy: Policy, announced: set<EventId>, expected: Checkpoint, startRaw: int, endRaw: int,
    deals: seq<Record>, orders: seq<Record>, revision: int, supersedes: Option<WindowId>, observed: Utc): Input
  {
    var w := WindowOf(sha, session, policy, expected, startRaw, endRaw, deals, orders, revision, supersedes, observed);
    Input(expected, session.lowerBound, w, deals + orders,
          RecordMessages(sha, session, w.id, deals, announced, observed)
          + RecordMessages(sha, session, w.id, orders, announced, observed) + [Marker(sha, session, w, observed)],
          supersedes)
  }

  lemma AssembledIs(
    sha: Hash, session: Session, policy: Policy, announced: set<EventId>, expected: Checkpoint, startRaw: int, endRaw: int,
    dealRows: seq<Payload>, orderRows: seq<Payload>, revision: int, supersedes: Option<WindowId>, observed: Utc)
    requires BuildInput(sha, session, policy, announced, expected, startRaw, endRaw, dealRows, orderRows,
                        revision, supersedes, observed).Success?
    ensures BuildInput(sha, session, policy, announced, expected, startRaw, endRaw, dealRows, orderRows,
                       revision, supersedes, observed).value
            == InputOf(sha, session, policy, announced, expected, startRaw, endRaw,
                       ReconcileLaws.SortedRecords(sha, session, Deal, dealRows),
                       ReconcileLaws.SortedRecords(sha, session, Order, orderRows), revision, supersedes, observed)
  {
  }

  lemma AnswersAre(
    sha: Hash, session: Session, policy: Policy, announced: set<EventId>, expected: Checkpoint, startRaw: int, endRaw: int,
    deals: CallResult, orders: CallResult, revision: int, supersedes: Option<WindowId>, observed: Utc)
    requires BuildWindow(sha, session, policy, announced, expected, startRaw, endRaw, deals, orders,
                         revision, supersedes, observed).0.Success?
    ensures BuildWindow(sha, session, policy, announced, expected, startRaw, endRaw, deals, orders,
                        revision, supersedes, observed).0.value
            == InputOf(sha, session, policy, announced, expected, startRaw, endRaw,
                       ReconcileLaws.SortedRecords(sha, session, Deal, ReconcileLaws.RowsOf(deals, Deal, startRaw, endRaw)),
                       ReconcileLaws.SortedRecords(sha, session, Order, ReconcileLaws.RowsOf(orders, Order, startRaw, endRaw)),
                       revision, supersedes, observed)
  {
    var dealRows := ReconcileLaws.RowsOf(deals, Deal, startRaw, endRaw);
    var orderRows := ReconcileLaws.RowsOf(orders, Order, startRaw, endRaw);
    assert BuildWindow(sha, session, policy, announced, expected, startRaw, endRaw, deals, orders,
                       revision, supersedes, observed).0
        == BuildInput(sha, session, policy, announced, expected, startRaw, endRaw, dealRows, orderRows,
                      revision, supersedes, observed);
    AssembledIs(sha, session, policy, announced, expected, startRaw, endRaw, dealRows, orderRows,
                revision, supersedes, observed);
  }

  lemma InputIs(
    sha: Hash, session: Session, policy: Policy, announced: set<EventId>, expected: Checkpoint,
    startRaw: int, endRaw: int, reading: Reading, revision: int, supersedes: Option<WindowId>,
    deals: seq<Record>, orders: seq<Record>)
    requires ReadWindow(sha, session, policy, announced, expected, startRaw, endRaw, reading, revision, supersedes).0.Success?
    requires deals == Listed(sha, session, reading, Deal, startRaw, endRaw)
    requires orders == Listed(sha, session, reading, Order, startRaw, endRaw)
    ensures ReadWindow(sha, session, policy, announced, expected, startRaw, endRaw, reading, revision, supersedes).0.value
            == InputOf(sha, session, policy, announced, expected, startRaw, endRaw, deals, orders, revision, supersedes,
                       reading.observed)
  {
    AnswersAre(sha, session, policy, announced, expected, startRaw, endRaw, reading.deals(startRaw, endRaw),
               reading.orders(startRaw, endRaw), revision, supersedes, reading.observed);
  }
}
