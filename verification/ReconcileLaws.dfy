/** When a re-read window counts as unchanged. */
module ReconcileLaws {
  import opened Wrappers
  import opened Canonical
  import opened JournalModel
  import opened Sorting
  import opened History
  import opened HistoryLaws

  /** The rows of an answer that fall into the range. */
  function RowsOf(answer: CallResult, resource: Resource, startRaw: int, endRaw: int): seq<Payload> {
    if answer.FAILED? then [] else Accepted(answer.rows, startRaw, endRaw, BoundaryField(resource))
  }

  function DealsRead(reading: Reading, startRaw: int, endRaw: int): seq<Payload> {
    RowsOf(reading.deals(startRaw, endRaw), Deal, startRaw, endRaw)
  }

  function OrdersRead(reading: Reading, startRaw: int, endRaw: int): seq<Payload> {
    RowsOf(reading.orders(startRaw, endRaw), Order, startRaw, endRaw)
  }

  ghost predicate SameRowsRead(a: Reading, b: Reading, startRaw: int, endRaw: int) {
    && multiset(DealsRead(a, startRaw, endRaw)) == multiset(DealsRead(b, startRaw, endRaw))
    && multiset(OrdersRead(a, startRaw, endRaw)) == multiset(OrdersRead(b, startRaw, endRaw))
  }

  ghost predicate TicketsOnce(reading: Reading, startRaw: int, endRaw: int) {
    DistinctTickets(DealsRead(reading, startRaw, endRaw)) && DistinctTickets(OrdersRead(reading, startRaw, endRaw))
  }

  function SortedRecords(sha: Hash, session: Session, resource: Resource, rows: seq<Payload>): seq<Record> {
    RecordsOf(sha, session, resource, SortedRows(resource, rows))
  }

  /** The window a successful read builds. */
  lemma BuiltFromAnswers(
    sha: Hash, session: Session, policy: Policy, announced: set<EventId>, expected: Checkpoint,
    startRaw: int, endRaw: int, deals: CallResult, orders: CallResult,
    revision: int, supersedes: Option<WindowId>, observed: Utc)
    requires BuildWindow(sha, session, policy, announced, expected, startRaw, endRaw, deals, orders,
                         revision, supersedes, observed).0.Success?
    ensures BuildWindow(sha, session, policy, announced, expected, startRaw, endRaw, deals, orders,
                        revision, supersedes, observed).0.value.window
            == WindowOf(sha, session, policy, expected, startRaw, endRaw,
                        SortedRecords(sha, session, Deal, RowsOf(deals, Deal, startRaw, endRaw)),
                        SortedRecords(sha, session, Order, RowsOf(orders, Order, startRaw, endRaw)),
                        revision, supersedes, observed)
  {
    var dealRows, orderRows := RowsOf(deals, Deal, startRaw, endRaw), RowsOf(orders, Order, startRaw, endRaw);
    assert BuildWindow(sha, session, policy, announced, expected, startRaw, endRaw, deals, orders,
                       revision, supersedes, observed).0
        == BuildInput(sha, session, policy, announced, expected, startRaw, endRaw, dealRows, orderRows,
                      revision, supersedes, observed);
    InputWindow(sha, session, policy, announced, expected, startRaw, endRaw, dealRows, orderRows,
                revision, supersedes, observed);
  }

  lemma InputWindow(
    sha: Hash, session: Session, policy: Policy, announced: set<EventId>, expected: Checkpoint,
    startRaw: int, endRaw: int, dealRows: seq<Payload>, orderRows: seq<Payload>,
    revision: int, supersedes: Option<WindowId>, observed: Utc)
    requires BuildInput(sha, session, policy, announced, expected, startRaw, endRaw, dealRows, orderRows,
                        revision, supersedes, observed).Success?
    ensures BuildInput(sha, session, policy, announced, expected, startRaw, endRaw, dealRows, orderRows,
                       revision, supersedes, observed).value.window
            == WindowOf(sha, session, policy, expected, startRaw, endRaw,
                        SortedRecords(sha, session, Deal, dealRows), SortedRecords(sha, session, Order, orderRows),
                        revision, supersedes, observed)
  {
  }

  lemma BuiltWindow(
    sha: Hash, session: Session, policy: Policy, announced: set<EventId>, expected: Checkpoint,
    startRaw: int, endRaw: int, reading: Reading, revision: int, supersedes: Option<WindowId>)
    requires ReadWindow(sha, session, policy, announced, expected, startRaw, endRaw, reading, revision, supersedes).0.Success?
    ensures ReadWindow(sha, session, policy, announced, expected, startRaw, endRaw, reading, revision, supersedes).0.value.window
            == WindowOf(sha, session, policy, expected, startRaw, endRaw,
                        SortedRecords(sha, session, Deal, DealsRead(reading, startRaw, endRaw)),
                        SortedRecords(sha, session, Order, OrdersRead(reading, startRaw, endRaw)),
                        revision, supersedes, reading.observed)
  {
    BuiltFromAnswers(sha, session, policy, announced, expected, startRaw, endRaw, reading.deals(startRaw, endRaw),
                     reading.orders(startRaw, endRaw), revision, supersedes, reading.observed);
  }

  /** Equal lists of payload digests come from equal sorted rows. */
  lemma SameDigestsSameRows(sha: Hash, session: Session, resource: Resource, a: seq<Payload>, b: seq<Payload>)
    requires CollisionFree(sha)
    requires Digests(RecordsOf(sha, session, resource, a)) == Digests(RecordsOf(sha, session, resource, b))
    ensures a == b
  {
    var x, y := Digests(RecordsOf(sha, session, resource, a)), Digests(RecordsOf(sha, session, resource, b));
    assert |a| == |x| && |b| == |y|;
    forall i | 0 <= i < |a| ensures a[i] == b[i] {
      assert x[i] == sha(RowContent(a[i])) && y[i] == sha(RowContent(b[i]));
    }
  }

  /**
    Two windows of the same profile, generation, range, policy and revision have the same
    content exactly when they supersede the same window and list the same records.
   */
  lemma SameContentExactly(
    sha: Hash, session: Session, policy: Policy, e: Checkpoint, e': Checkpoint, startRaw: int, endRaw: int,
    deals: seq<Payload>, orders: seq<Payload>, deals': seq<Payload>, orders': seq<Payload>,
    revision: int, supersedes: Option<WindowId>, supersedes': Option<WindowId>, observed: Utc, observed': Utc)
    requires CollisionFree(sha) && e.generation == e'.generation
    ensures SameContent(
              WindowOf(sha, session, policy, e, startRaw, endRaw, RecordsOf(sha, session, Deal, deals),
                       RecordsOf(sha, session, Order, orders), revision, supersedes, observed),
              WindowOf(sha, session, policy, e', startRaw, endRaw, RecordsOf(sha, session, Deal, deals'),
                       RecordsOf(sha, session, Order, orders'), revision, supersedes', observed'))
            <==> supersedes == supersedes' && deals == deals' && orders == orders'
  {
    var w := WindowOf(sha, session, policy, e, startRaw, endRaw, RecordsOf(sha, session, Deal, deals),
                      RecordsOf(sha, session, Order, orders), revision, supersedes, observed);
    var w' := WindowOf(sha, session, policy, e', startRaw, endRaw, RecordsOf(sha, session, Deal, deals'),
                       RecordsOf(sha, session, Order, orders'), revision, supersedes', observed');
    if SameContent(w, w') {
      DigestsAgree(sha, session, Deal, deals, deals');
      DigestsAgree(sha, session, Order, orders, orders');
    }
  }

  lemma DigestsAgree(sha: Hash, session: Session, resource: Resource, a: seq<Payload>, b: seq<Payload>)
    requires CollisionFree(sha)
    requires sha(DigestList(Digests(RecordsOf(sha, session, resource, a))))
          == sha(DigestList(Digests(RecordsOf(sha, session, resource, b))))
    ensures a == b
  {
    assert DigestList(Digests(RecordsOf(sha, session, resource, a))) == DigestList(Digests(RecordsOf(sha, session, resource, b)));
    SameDigestsSameRows(sha, session, resource, a, b);
  }

  lemma SortedSame(resource: Resource, a: seq<Payload>, b: seq<Payload>)
    requires DistinctTickets(a)
    ensures SortedRows(resource, a) == SortedRows(resource, b) <==> multiset(a) == multiset(b)
  {
    if multiset(a) == multiset(b) {
      SortedRowsSame(resource, a, b);
    }
  }

  /** The window was built from `first`, as the journal stores it. */
  ghost predicate StoredFrom(
    sha: Hash, session: Session, policy: Policy, prior: Window, announced: set<EventId>, expected: Checkpoint,
    first: Reading, supersedes: Option<WindowId>)
  {
    var built := ReadWindow(sha, session, policy, announced, expected, prior.startRaw, prior.endRaw, first,
                            prior.revision, supersedes);
    && built.0.Success? && built.0.value.window == prior
    && TicketsOnce(first, prior.startRaw, prior.endRaw)
  }

  /** The read that reconciliation compares with the stored window. */
  function Candidate(sha: Hash, session: Session, policy: Policy, db: Db, prior: Window, reading: Reading)
    : (Result<Input>, Reason)
  {
    ReadWindow(sha, session, policy, db.outbox.Keys, PriorCheckpoint(prior), prior.startRaw, prior.endRaw, reading,
               prior.revision, None)
  }

  lemma CandidateContent(
    sha: Hash, session: Session, policy: Policy, db: Db, prior: Window, announced: set<EventId>,
    expected: Checkpoint, first: Reading, supersedes: Option<WindowId>, again: Reading)
    requires CollisionFree(sha) && StoredFrom(sha, session, policy, prior, announced, expected, first, supersedes)
    requires Candidate(sha, session, policy, db, prior, again).0.Success?
    ensures SameContent(prior, Candidate(sha, session, policy, db, prior, again).0.value.window)
            <==> supersedes == None && SameRowsRead(first, again, prior.startRaw, prior.endRaw)
  {
    var s, e, r := prior.startRaw, prior.endRaw, prior.revision;
    BuiltWindow(sha, session, policy, announced, expected, s, e, first, r, supersedes);
    BuiltWindow(sha, session, policy, db.outbox.Keys, PriorCheckpoint(prior), s, e, again, r, None);
    var d, o := DealsRead(first, s, e), OrdersRead(first, s, e);
    var d', o' := DealsRead(again, s, e), OrdersRead(again, s, e);
    SortedSame(Deal, d, d');
    SortedSame(Order, o, o');
    SameContentExactly(sha, session, policy, expected, PriorCheckpoint(prior), s, e,
                       SortedRows(Deal, d), SortedRows(Order, o), SortedRows(Deal, d'), SortedRows(Order, o'),
                       r, supersedes, None, first.observed, again.observed);
  }

  /**
    Reconciliation reports a stored window as unchanged exactly when the re-read succeeds,
    lists the same rows in whatever order, and the window is the first of its range.
   */
  lemma UnchangedExactly(
    sha: Hash, session: Session, policy: Policy, db: Db, id: WindowId, announced: set<EventId>,
    expected: Checkpoint, first: Reading, supersedes: Option<WindowId>, again: Reading)
    requires CollisionFree(sha) && GetWindow(db, id).Some?
    requires GetWindow(db, id).value.profileId == session.journalProfileId
    requires StoredFrom(sha, session, policy, GetWindow(db, id).value, announced, expected, first, supersedes)
    ensures var prior := GetWindow(db, id).value;
            ReconcileWindow(sha, session, policy, db, id, again) == (db, Unchanged(prior))
            <==> && Candidate(sha, session, policy, db, prior, again).0.Success?
                 && supersedes == None
                 && SameRowsRead(first, again, prior.startRaw, prior.endRaw)
  {
    var prior := GetWindow(db, id).value;
    ReconcileDecides(sha, session, policy, db, id, again);
    if Candidate(sha, session, policy, db, prior, again).0.Success? {
      CandidateContent(sha, session, policy, db, prior, announced, expected, first, supersedes, again);
    }
  }

  lemma ReconcileDecides(sha: Hash, session: Session, policy: Policy, db: Db, id: WindowId, again: Reading)
    requires GetWindow(db, id).Some? && GetWindow(db, id).value.profileId == session.journalProfileId
    ensures var prior, candidate := GetWindow(db, id).value, Candidate(sha, session, policy, db, GetWindow(db, id).value, again);
            ReconcileWindow(sha, session, policy, db, id, again) == (db, Unchanged(prior))
            <==> candidate.0.Success? && SameContent(prior, candidate.0.value.window)
  {
    var prior := GetWindow(db, id).value;
    ReviseNotUnchanged(sha, session, policy, db, prior, again);
  }

  lemma ReviseNotUnchanged(sha: Hash, session: Session, policy: Policy, db: Db, prior: Window, again: Reading)
    ensures !Revise(sha, session, policy, db, prior, again).1.Unchanged?
  {
  }

  // ---------------------------------------------------------------------
  // A revised window
  // ---------------------------------------------------------------------

  lemma RevisionCommitted(sha: Hash, session: Session, policy: Policy, db: Db, id: WindowId, first: Reading)
    returns (prior: Window, read: Result<Input>)
    requires ReconcileWindow(sha, session, policy, db, id, first).1.Reconciled?
    ensures GetWindow(db, id) == Some(prior)
    ensures read == ReadWindow(sha, session, policy, db.outbox.Keys, PriorCheckpoint(prior), prior.startRaw, prior.endRaw,
                               first, NextRevision(prior), Some(prior.id)).0
    ensures read.Success? && ReconcileWindow(sha, session, policy, db, id, first) == CommitRevision(db, read.value)
  {
    prior := GetWindow(db, id).value;
    read := ReadWindow(sha, session, policy, db.outbox.Keys, PriorCheckpoint(prior), prior.startRaw, prior.endRaw,
                       first, NextRevision(prior), Some(prior.id)).0;
  }

  lemma RevisionStored(db: Db, input: Input)
    requires CommitRevision(db, input).1.Reconciled?
    ensures var after := CommitRevision(db, input).0;
            && CommitRevision(db, input).1.window == input.window
            && input.window.id in after.windows && after.windows[input.window.id].window == input.window
            && after.checkpoints == db.checkpoints
  {
  }

  /** Once a window has been revised, no further review reports the revision unchanged, whatever the terminal answers. */
  lemma RevisedNeverUnchanged(
    sha: Hash, session: Session, policy: Policy, db: Db, id: WindowId, first: Reading, again: Reading)
    requires CollisionFree(sha) && ReconcileWindow(sha, session, policy, db, id, first).1.Reconciled?
    ensures var (after, done) := ReconcileWindow(sha, session, policy, db, id, first);
            !ReconcileWindow(sha, session, policy, after, done.window.id, again).1.Unchanged?
  {
    var prior, read := RevisionCommitted(sha, session, policy, db, id, first);
    var w, after := read.value.window, CommitRevision(db, read.value).0;
    RevisionStored(db, read.value);
    var s, e, r := prior.startRaw, prior.endRaw, NextRevision(prior);
    BuiltWindow(sha, session, policy, db.outbox.Keys, PriorCheckpoint(prior), s, e, first, r, Some(prior.id));
    var stored := GetWindow(after, w.id);
    if stored.Some? && Candidate(sha, session, policy, after, stored.value, again).0.Success? {
      BuiltWindow(sha, session, policy, after.outbox.Keys, PriorCheckpoint(stored.value), s, e, again, r, None);
      SameContentExactly(sha, session, policy, PriorCheckpoint(prior), PriorCheckpoint(stored.value), s, e,
                         SortedRows(Deal, DealsRead(first, s, e)), SortedRows(Order, OrdersRead(first, s, e)),
                         SortedRows(Deal, DealsRead(again, s, e)), SortedRows(Order, OrdersRead(again, s, e)),
                         r, Some(prior.id), None, first.observed, again.observed);
    }
    RevisedReview(sha, session, policy, after, w.id, again);
  }

  lemma RevisedReview(sha: Hash, session: Session, policy: Policy, db: Db, id: WindowId, again: Reading)
    ensures ReconcileWindow(sha, session, policy, db, id, again).1.Unchanged? ==>
              && GetWindow(db, id).Some?
              && Candidate(sha, session, policy, db, GetWindow(db, id).value, again).0.Success?
              && SameContent(GetWindow(db, id).value, Candidate(sha, session, policy, db, GetWindow(db, id).value, again).0.value.window)
  {
    if GetWindow(db, id).Some? {
      ReviseNotUnchanged(sha, session, policy, db, GetWindow(db, id).value, again);
    }
  }
}
