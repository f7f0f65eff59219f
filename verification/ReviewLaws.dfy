/** Exactly when a stored window is revised, and what the revision is. */
module ReviewLaws {
  import opened Wrappers
  import opened Canonical
  import opened JournalModel
  import opened History
  import opened PlanCoverage
  import opened HonestJournal
  import opened WindowContents
  import opened WindowBuilds
  import ReconcileLaws

  // ---------------------------------------------------------------------
  // Conditions, on the tables and the terminal
  // ---------------------------------------------------------------------

  /** The window is stored for this profile, whose checkpoint has the policy in force. */
  predicate Reviewable(session: Session, policy: Policy, db: Db, id: WindowId) {
    && id in db.windows
    && db.windows[id].window.profileId == session.journalProfileId
    && session.journalProfileId in db.checkpoints
    && db.checkpoints[session.journalProfileId].policy == policy.version
  }

  /** The terminal is identified and lists rows that can be used for the range. */
  ghost predicate Relisted(session: Session, w: Window, reading: Reading) {
    && reading.identified && session.lowerBound >= 0 && w.startRaw < w.endRaw
    && Usable(reading.deals(w.startRaw, w.endRaw), Deal, w.startRaw, w.endRaw)
    && Usable(reading.orders(w.startRaw, w.endRaw), Order, w.startRaw, w.endRaw)
  }

  function DigestsOf(records: seq<Record>): seq<Digest> {
    seq(|records|, i requires 0 <= i < |records| => records[i].payloadDigest)
  }

  function IdsOf(records: seq<Record>): seq<EventId> {
    seq(|records|, i requires 0 <= i < |records| => records[i].eventId)
  }

  /** The stored figures are those of a first revision that lists these records. */
  predicate Describes(sha: Hash, w: Window, deals: seq<Record>, orders: seq<Record>, id: WindowId) {
    && w.dealCount == |deals| && w.orderCount == |orders|
    && w.dealDigest == sha(DigestList(DigestsOf(deals))) && w.orderDigest == sha(DigestList(DigestsOf(orders)))
    && w.windowDigest == sha(WindowContent(WindowPayload(
         |deals|, w.dealDigest, w.endRaw, |orders|, w.orderDigest, IdsOf(deals + orders), w.startRaw, None, id, w.revision)))
  }

  /** The name of a window of this range and revision. */
  function NameOf(sha: Hash, session: Session, policy: Policy, w: Window, revision: int): WindowId {
    sha(WindowIdentity(session.journalProfileId, w.generation, w.startRaw, w.endRaw, policy.version, revision))
  }

  /** A later revision of the same range. */
  predicate Follows(v: Window, w: Window) {
    && v.profileId == w.profileId && v.generation == w.generation
    && v.startRaw == w.startRaw && v.endRaw == w.endRaw && v.revision == w.revision + 1
  }

  ghost predicate AlreadyRevised(windows: map<WindowId, StoredWindow>, w: Window) {
    exists o | o in windows :: Follows(windows[o].window, w)
  }

  // ---------------------------------------------------------------------
  // The steps of a review
  // ---------------------------------------------------------------------

  function Rebuilt(sha: Hash, session: Session, policy: Policy, db: Db, prior: Window, reading: Reading): Result<Input> {
    ReadWindow(sha, session, policy, db.outbox.Keys, PriorCheckpoint(prior), prior.startRaw, prior.endRaw, reading,
               NextRevision(prior), Some(prior.id)).0
  }

  lemma ReviewReads(sha: Hash, session: Session, policy: Policy, db: Db, id: WindowId, reading: Reading)
    returns (prior: Window)
    requires CollisionFree(sha) && Reviewable(session, policy, db, id)
    ensures GetWindow(db, id) == Some(prior) && prior == db.windows[id].window.(policy := policy.version)
    ensures ReconcileLaws.Candidate(sha, session, policy, db, prior, reading).0.Success? <==> Relisted(session, prior, reading)
    ensures Rebuilt(sha, session, policy, db, prior, reading).Success? <==> Relisted(session, prior, reading)
  {
    prior := GetWindow(db, id).value;
    ReadBuildsExactly(sha, session, policy, db.outbox.Keys, PriorCheckpoint(prior), prior.startRaw, prior.endRaw, reading,
                      prior.revision, None);
    ReadBuildsExactly(sha, session, policy, db.outbox.Keys, PriorCheckpoint(prior), prior.startRaw, prior.endRaw, reading,
                      NextRevision(prior), Some(prior.id));
  }

  lemma CandidateDescribes(
    sha: Hash, session: Session, policy: Policy, db: Db, prior: Window, reading: Reading,
    deals: seq<Record>, orders: seq<Record>)
    requires ReconcileLaws.Candidate(sha, session, policy, db, prior, reading).0.Success?
    requires deals == Listed(sha, session, reading, Deal, prior.startRaw, prior.endRaw)
    requires orders == Listed(sha, session, reading, Order, prior.startRaw, prior.endRaw)
    ensures SameContent(prior, ReconcileLaws.Candidate(sha, session, policy, db, prior, reading).0.value.window)
            <==> Describes(sha, prior, deals, orders, NameOf(sha, session, policy, prior, prior.revision))
  {
    ReconcileLaws.BuiltWindow(sha, session, policy, db.outbox.Keys, PriorCheckpoint(prior), prior.startRaw, prior.endRaw,
                              reading, prior.revision, None);
    assert Digests(deals) == DigestsOf(deals) && Digests(orders) == DigestsOf(orders);
    assert EventIds(deals + orders) == IdsOf(deals + orders);
  }

  lemma RebuiltIs(sha: Hash, session: Session, policy: Policy, db: Db, prior: Window, reading: Reading)
    returns (input: Input, deals: seq<Record>, orders: seq<Record>)
    requires Rebuilt(sha, session, policy, db, prior, reading).Success?
    requires prior.profileId == session.journalProfileId
    ensures Rebuilt(sha, session, policy, db, prior, reading) == Success(input)
    ensures Planned(sha, session, policy, db.outbox.Keys, input)
    ensures input.supersedes == Some(prior.id) && Follows(input.window, prior) && input.records == deals + orders
    ensures input.window.dealCount == |deals| && input.window.orderCount == |orders|
    ensures deals == Listed(sha, session, reading, Deal, prior.startRaw, prior.endRaw)
    ensures orders == Listed(sha, session, reading, Order, prior.startRaw, prior.endRaw)
    ensures forall i | 0 <= i < |deals| :: deals[i].resource == Deal
    ensures forall i | 0 <= i < |orders| :: orders[i].resource == Order
  {
    input := Rebuilt(sha, session, policy, db, prior, reading).value;
    deals, orders := BuiltRecords(sha, session, policy, db.outbox.Keys, PriorCheckpoint(prior), prior.startRaw, prior.endRaw,
                                  reading, NextRevision(prior), Some(prior.id));
    BuiltIsPlanned(sha, session, policy, db.outbox.Keys, PriorCheckpoint(prior), prior.startRaw, prior.endRaw,
                   reading, NextRevision(prior), Some(prior.id));
  }

  // ---------------------------------------------------------------------
  // Committing the revision
  // ---------------------------------------------------------------------

  lemma RevisionFree(sha: Hash, db: Db, prior: Window, w: Window)
    requires CollisionFree(sha) && HonestDb(sha, db) && NamedWindow(sha, w) && Follows(w, prior)
    ensures Insertable(db.windows, w) <==> !AlreadyRevised(db.windows, prior)
  {
    InsertableExactly(sha, db.windows, w);
    if RangeStored(db.windows, w) {
      var o :| o in db.windows && SameRevision(db.windows[o].window, w);
      assert Follows(db.windows[o].window, prior);
    }
    if AlreadyRevised(db.windows, prior) {
      var o :| o in db.windows && Follows(db.windows[o].window, prior);
      assert SameRevision(db.windows[o].window, w);
    }
  }

  lemma RevisionAdmitted(db: Db, prior: WindowId, input: Input)
    requires prior in db.windows && Follows(input.window, db.windows[prior].window)
    requires OutboxCovers(db.outbox, input.window, input.records, input.messages)
    requires input.expected.profileId == input.window.profileId && input.expected.policy == input.window.policy
    requires input.expected.generation == input.window.generation && input.window.startRaw < input.window.endRaw
    ensures Admit(db, input.expected, input.window, input.records, input.messages, Reconcile(Some(prior)))
            == if db.windows[prior].state != COMMITTED then Some(ValueError)
               else if !Insertable(db.windows, input.window) then Some(IntegrityError)
               else None
  {
  }

  /** How the commit of a planned revision ends. */
  lemma RevisionCommitExactly(sha: Hash, session: Session, policy: Policy, db: Db, prior: Window, input: Input)
    requires CollisionFree(sha) && HonestDb(sha, db) && Planned(sha, session, policy, db.outbox.Keys, input)
    requires prior.id in db.windows && Follows(input.window, db.windows[prior.id].window)
    requires input.supersedes == Some(prior.id) && Follows(input.window, prior)
    ensures var r := Commit(db, input.expected, input.window, input.records, input.messages, Reconcile(input.supersedes));
            if db.windows[prior.id].state != COMMITTED then r == Failure(ValueError)
            else if AlreadyRevised(db.windows, prior) then r == Failure(IntegrityError)
            else r.Success?
  {
    PlannedCovers(sha, session, input.window, input.records, db.outbox.Keys, input.messages, db.outbox);
    RevisionAdmitted(db, prior.id, input);
    RevisionFree(sha, db, prior, input.window);
    if !AlreadyRevised(db.windows, prior) {
      PlannedWrites(sha, session, policy, db, input, Reconcile(input.supersedes));
    }
  }

  /** The prior window is superseded by the next revision of its range, and the checkpoints stay. */
  predicate Superseded(db: Db, after: Db, id: WindowId, w: Window) {
    && id in db.windows && w.id !in db.windows && Follows(w, db.windows[id].window)
    && after.windows == db.windows[id := StoredWindow(db.windows[id].window, SUPERSEDED)][w.id := StoredWindow(w, COMMITTED)]
    && after.checkpoints == db.checkpoints
  }

  lemma RevisionSupersedes(sha: Hash, db: Db, id: WindowId, input: Input)
    requires input.supersedes == Some(id) && id in db.windows && Follows(input.window, db.windows[id].window)
    requires Commit(db, input.expected, input.window, input.records, input.messages, Reconcile(input.supersedes)).Success?
    ensures Superseded(db, CommitRevision(db, input).0, id, input.window)
    ensures CommitRevision(db, input).1 == Reconciled(input.window)
  {
  }

  // ---------------------------------------------------------------------
  // A review
  // ---------------------------------------------------------------------

  lemma ReviseExactly(sha: Hash, session: Session, policy: Policy, db: Db, prior: Window, reading: Reading)
    returns (deals: seq<Record>, orders: seq<Record>)
    requires CollisionFree(sha) && HonestDb(sha, db) && Rebuilt(sha, session, policy, db, prior, reading).Success?
    requires prior.profileId == session.journalProfileId && prior.id in db.windows
    requires prior == db.windows[prior.id].window.(policy := prior.policy)
    ensures deals == Listed(sha, session, reading, Deal, prior.startRaw, prior.endRaw)
    ensures orders == Listed(sha, session, reading, Order, prior.startRaw, prior.endRaw)
    ensures var (after, done) := Revise(sha, session, policy, db, prior, reading);
            var current := reading.stillIdentified && db.windows[prior.id].state == COMMITTED;
            && (done.Reconciled? <==> current && !AlreadyRevised(db.windows, prior))
            && (done.Raised? <==> current && AlreadyRevised(db.windows, prior))
            && (done.Raised? ==> done.error == IntegrityError)
            && (!done.Reconciled? ==> after == db)
            && (done.Reconciled? ==> Superseded(db, after, prior.id, done.window) && Holds(after, done.window.id, deals, orders)
                                     && done.window.dealCount == |deals| && done.window.orderCount == |orders|)
  {
    var input;
    input, deals, orders := RebuiltIs(sha, session, policy, db, prior, reading);
    RevisionCommitExactly(sha, session, policy, db, prior, input);
    if Commit(db, input.expected, input.window, input.records, input.messages, Reconcile(input.supersedes)).Success? {
      CommitHolds(sha, session, policy, db.outbox.Keys, db, input, Reconcile(input.supersedes), deals, orders);
      RevisionSupersedes(sha, db, prior.id, input);
    }
  }

  /** What a review of a window that can be relisted comes to, given the records it is relisted with. */
  ghost predicate ReviewedAs(
    sha: Hash, session: Session, policy: Policy, db: Db, id: WindowId, reading: Reading, after: Db, done: Outcome,
    deals: seq<Record>, orders: seq<Record>)
    requires id in db.windows
  {
    var w := db.windows[id].window;
    var same := Describes(sha, w, deals, orders, NameOf(sha, session, policy, w, w.revision));
    var current := !same && reading.stillIdentified && db.windows[id].state == COMMITTED;
    && RecordsFor(sha, session, reading, Deal, w.startRaw, w.endRaw, deals)
    && RecordsFor(sha, session, reading, Order, w.startRaw, w.endRaw, orders)
    && (done.Unchanged? <==> same)
    && (done.Reconciled? <==> current && !AlreadyRevised(db.windows, w))
    && (done.Raised? <==> current && AlreadyRevised(db.windows, w))
    && (done.Raised? ==> done.error == IntegrityError)
    && (!done.Reconciled? ==> after == db)
    && (done.Reconciled? ==> Superseded(db, after, id, done.window) && Holds(after, done.window.id, deals, orders)
                             && done.window.dealCount == |deals| && done.window.orderCount == |orders|)
  }

  /**
    In an honest journal: a review of a window that is not stored for this profile and policy,
    or that the terminal does not relist, is aborted and changes nothing. Any other finds the
    window unchanged exactly when it has the figures of a first revision of the relisted rows.
    If not, it supersedes the window with the next revision, which holds exactly the relisted
    rows, if and only if the terminal is still identified, the window is COMMITTED and no next
    revision of its range is stored; only for want of the last an integrity error escapes.
   */
  lemma ReviewOutcomeExactly(sha: Hash, session: Session, policy: Policy, db: Db, id: WindowId, reading: Reading)
    returns (deals: seq<Record>, orders: seq<Record>)
    requires CollisionFree(sha) && HonestDb(sha, db)
    ensures var (after, done) := ReconcileWindow(sha, session, policy, db, id, reading);
            if Reviewable(session, policy, db, id) && Relisted(session, db.windows[id].window, reading)
            then ReviewedAs(sha, session, policy, db, id, reading, after, done, deals, orders)
            else after == db && done.Aborted?
  {
    deals, orders := [], [];
    if Reviewable(session, policy, db, id) {
      var prior := ReviewReads(sha, session, policy, db, id, reading);
      ReviewShape(sha, session, policy, db, id, reading, prior);
      if Relisted(session, prior, reading) {
        deals, orders := RelistedReview(sha, session, policy, db, id, prior, reading);
      }
    } else {
      NotReviewable(sha, session, policy, db, id, reading);
    }
  }

  lemma RelistedReview(sha: Hash, session: Session, policy: Policy, db: Db, id: WindowId, prior: Window, reading: Reading)
    returns (deals: seq<Record>, orders: seq<Record>)
    requires CollisionFree(sha) && HonestDb(sha, db) && id in db.windows && GetWindow(db, id) == Some(prior)
    requires prior.profileId == session.journalProfileId && Rebuilt(sha, session, policy, db, prior, reading).Success?
    requires ReconcileLaws.Candidate(sha, session, policy, db, prior, reading).0.Success?
    ensures var r := ReconcileWindow(sha, session, policy, db, id, reading);
            ReviewedAs(sha, session, policy, db, id, reading, r.0, r.1, deals, orders)
  {
    ReviewShape(sha, session, policy, db, id, reading, prior);
    deals, orders := ReviseExactly(sha, session, policy, db, prior, reading);
    CandidateDescribes(sha, session, policy, db, prior, reading, deals, orders);
    ListedFor(sha, session, policy, db, prior, reading, deals, orders);
    ReconcileLaws.ReviseNotUnchanged(sha, session, policy, db, prior, reading);
    assert prior.id == id;
  }

  lemma ReviewShape(sha: Hash, session: Session, policy: Policy, db: Db, id: WindowId, reading: Reading, prior: Window)
    requires GetWindow(db, id) == Some(prior) && prior.profileId == session.journalProfileId
    ensures var candidate := ReconcileLaws.Candidate(sha, session, policy, db, prior, reading);
            ReconcileWindow(sha, session, policy, db, id, reading)
            == if candidate.0.Failure? then (db, Aborted(candidate.1))
               else if SameContent(prior, candidate.0.value.window) then (db, Unchanged(prior))
               else Revise(sha, session, policy, db, prior, reading)
  {
  }

  lemma ListedFor(
    sha: Hash, session: Session, policy: Policy, db: Db, prior: Window, reading: Reading,
    deals: seq<Record>, orders: seq<Record>)
    requires Rebuilt(sha, session, policy, db, prior, reading).Success?
    requires deals == Listed(sha, session, reading, Deal, prior.startRaw, prior.endRaw)
    requires orders == Listed(sha, session, reading, Order, prior.startRaw, prior.endRaw)
    ensures RecordsFor(sha, session, reading, Deal, prior.startRaw, prior.endRaw, deals)
    ensures RecordsFor(sha, session, reading, Order, prior.startRaw, prior.endRaw, orders)
  {
    var _ := RowsAreRecords(sha, session, reading, Deal, prior.startRaw, prior.endRaw);
    var _ := RowsAreRecords(sha, session, reading, Order, prior.startRaw, prior.endRaw);
  }

  lemma NotReviewable(sha: Hash, session: Session, policy: Policy, db: Db, id: WindowId, reading: Reading)
    requires CollisionFree(sha) && HonestDb(sha, db) && !Reviewable(session, policy, db, id)
    ensures var (after, done) := ReconcileWindow(sha, session, policy, db, id, reading);
            after == db && done.Aborted?
  {
    if GetWindow(db, id).Some? {
      var prior := GetWindow(db, id).value;
      ReadBuildsExactly(sha, session, policy, db.outbox.Keys, PriorCheckpoint(prior), prior.startRaw, prior.endRaw, reading,
                        prior.revision, None);
    }
  }

  /** Why a review that cannot even relist its window is aborted. */
  lemma ReviewAbortsExactly(sha: Hash, session: Session, policy: Policy, db: Db, id: WindowId, reading: Reading)
    requires CollisionFree(sha) && HonestDb(sha, db)
    ensures var done := ReconcileWindow(sha, session, policy, db, id, reading).1;
            if id !in db.windows then done == Aborted(WINDOW_MISSING)
            else
              var w := db.windows[id].window;
              if w.profileId != session.journalProfileId then done == Aborted(PROFILE_MISMATCH)
              else if !reading.identified then done == Aborted(VALIDATION_FAILED)
              else if reading.deals(w.startRaw, w.endRaw) == FAILED then done == Aborted(DEALS_FAILED)
              else if reading.orders(w.startRaw, w.endRaw) == FAILED then done == Aborted(ORDERS_FAILED)
              else if !Reviewable(session, policy, db, id) || !Relisted(session, w, reading)
              then done == Aborted(VALIDATION_FAILED)
              else done != Aborted(WINDOW_MISSING) && done != Aborted(PROFILE_MISMATCH)
                   && done != Aborted(DEALS_FAILED) && done != Aborted(ORDERS_FAILED)
  {
    if id in db.windows && db.windows[id].window.profileId == session.journalProfileId {
      var prior := GetWindow(db, id).value;
      ReviewShape(sha, session, policy, db, id, reading, prior);
      ReadBuildsExactly(sha, session, policy, db.outbox.Keys, PriorCheckpoint(prior), prior.startRaw, prior.endRaw, reading,
                        prior.revision, None);
      CandidateFailsWith(sha, session, policy, db, prior, reading);
      if ReconcileLaws.Candidate(sha, session, policy, db, prior, reading).0.Success? {
        RevisionReasons(sha, session, policy, db, prior, reading);
      }
    }
  }

  lemma CandidateFailsWith(sha: Hash, session: Session, policy: Policy, db: Db, prior: Window, reading: Reading)
    ensures var candidate := ReconcileLaws.Candidate(sha, session, policy, db, prior, reading);
            candidate.0.Failure? ==>
              candidate.1 == if !reading.identified then VALIDATION_FAILED
                             else if reading.deals(prior.startRaw, prior.endRaw) == FAILED then DEALS_FAILED
                             else if reading.orders(prior.startRaw, prior.endRaw) == FAILED then ORDERS_FAILED
                             else VALIDATION_FAILED
  {
  }

  lemma RevisionReasons(sha: Hash, session: Session, policy: Policy, db: Db, prior: Window, reading: Reading)
    requires ReconcileLaws.Candidate(sha, session, policy, db, prior, reading).0.Success?
    ensures var done := Revise(sha, session, policy, db, prior, reading).1;
            done.Aborted? ==> done == Aborted(VALIDATION_FAILED)
  {
  }
}
