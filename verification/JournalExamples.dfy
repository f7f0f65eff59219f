/** Inputs at which the synchronizer is refused. */
module JournalExamples {
  import opened Wrappers
  import opened Canonical
  import opened Sequences
  import opened Sorting
  import opened JournalModel
  import opened History
  import opened HistoryLaws
  import opened PlanCoverage
  import opened HonestJournal
  import opened ForwardLaws
  import WindowContents
  import WindowBuilds
  import ReviewLaws
  import PollLaws

  // ---------------------------------------------------------------------
  // Three polls at one safe end
  // ---------------------------------------------------------------------

  /** A terminal without deals and orders. */
  ghost predicate Quiet(reading: Reading) {
    && reading.identified && reading.stillIdentified && reading.safeEndKnown
    && forall s, e :: reading.deals(s, e) == Rows([]) && reading.orders(s, e) == Rows([])
  }

  lemma NothingAssembled(
    sha: Hash, session: Session, policy: Policy, announced: set<EventId>, expected: Checkpoint,
    startRaw: int, endRaw: int, observed: Utc)
    requires session.lowerBound >= 0 && startRaw < endRaw
    requires expected.profileId == session.journalProfileId && expected.policy == policy.version
    ensures BuildInput(sha, session, policy, announced, expected, startRaw, endRaw, [], [], 1, None, observed).Success?
  {
    assert SortedRows(Deal, []) == [] && SortedRows(Order, []) == [];
    var input := Assembled(sha, session, policy, announced, expected, startRaw, endRaw, [], [], 1, None, observed);
    assert input.records == [];
    assert |input.messages| == 1;
  }

  lemma QuietBuilds(sha: Hash, session: Session, policy: Policy, db: Db, reading: Reading)
    requires policy.Valid() && session.lowerBound >= 0 && Quiet(reading)
    requires CheckpointFits(session, policy, db) && PlansSome(session, policy, db, reading)
    ensures Builds(sha, session, policy, db, reading)
  {
    var plan := PlanNow(session, policy, db, reading).value;
    PlanFits(session, policy, db, reading);
    assert plan.expected.policy == policy.version;
    NothingAssembled(sha, session, policy, db.outbox.Keys, plan.expected, plan.startRaw, plan.endRaw, reading.observed);
    assert reading.deals(plan.startRaw, plan.endRaw) == Rows([]);
    assert reading.orders(plan.startRaw, plan.endRaw) == Rows([]);
  }

  lemma EmptyIsHonest(sha: Hash)
    ensures HonestDb(sha, EMPTY)
  {
  }

  ghost function Polled3(sha: Hash, session: Session, policy: Policy, reading: Reading): (Db, Db) {
    var one := RunNextWindow(sha, session, policy, EMPTY, Current(session, EMPTY), reading).0;
    (one, RunNextWindow(sha, session, policy, one, Current(session, one), reading).0)
  }

  lemma FirstPoll(sha: Hash, session: Session, policy: Policy, reading: Reading)
    requires CollisionFree(sha) && policy.Valid() && Quiet(reading)
    requires 0 <= session.lowerBound < reading.safeEnd <= session.lowerBound + policy.maximumWindow
    ensures var one := Polled3(sha, session, policy, reading).0;
            && RunNextWindow(sha, session, policy, EMPTY, Current(session, EMPTY), reading).1.Committed?
            && HonestDb(sha, one) && CheckpointFits(session, policy, one)
            && Current(session, one).Some? && Current(session, one).value.next == reading.safeEnd
            && Current(session, one).value.lastWindow.Some?
            && forall o | o in one.windows :: one.windows[o].window.startRaw == session.lowerBound
  {
    EmptyIsHonest(sha);
    NewGroundIsFree(sha, session, policy, EMPTY, reading);
    QuietBuilds(sha, session, policy, EMPTY, reading);
    PollCommits(sha, session, policy, EMPTY, reading);
    PollKeeps(sha, session, policy, EMPTY, reading);
    CommittedStores(sha, session, policy, EMPTY, reading);
    var plan := PlanNow(session, policy, EMPTY, reading).value;
    assert plan.startRaw == session.lowerBound && plan.endRaw == reading.safeEnd;
  }

  lemma SecondPoll(sha: Hash, session: Session, policy: Policy, reading: Reading)
    requires CollisionFree(sha) && policy.Valid() && Quiet(reading) && policy.overlap > 0
    requires 0 <= session.lowerBound && session.lowerBound + policy.overlap < reading.safeEnd
    requires reading.safeEnd <= session.lowerBound + policy.maximumWindow
    ensures var one := Polled3(sha, session, policy, reading).0;
            RunNextWindow(sha, session, policy, one, Current(session, one), reading).1.Committed?
  {
    var one := Polled3(sha, session, policy, reading).0;
    FirstPoll(sha, session, policy, reading);
    PlanAtSafeEnd(session, policy, one, reading);
    QuietBuilds(sha, session, policy, one, reading);
    ForwardOutcomeExactly(sha, session, policy, one, reading);
  }

  /**
    Three polls of a quiet terminal at one safe end within the first window: the first
    commits up to it, the second re-reads the overlap, the third raises an integrity error.
   */
  lemma ThirdPollRaises(sha: Hash, session: Session, policy: Policy, reading: Reading)
    requires CollisionFree(sha) && policy.Valid() && Quiet(reading) && policy.overlap > 0
    requires 0 <= session.lowerBound && session.lowerBound + policy.overlap < reading.safeEnd
    requires reading.safeEnd <= session.lowerBound + policy.maximumWindow
    ensures var (one, two) := Polled3(sha, session, policy, reading);
            && RunNextWindow(sha, session, policy, EMPTY, Current(session, EMPTY), reading).1.Committed?
            && RunNextWindow(sha, session, policy, one, Current(session, one), reading).1.Committed?
            && RunNextWindow(sha, session, policy, two, Current(session, two), reading) == (two, Raised(IntegrityError))
  {
    var (one, two) := Polled3(sha, session, policy, reading);
    FirstPoll(sha, session, policy, reading);
    SecondPoll(sha, session, policy, reading);
    PollKeeps(sha, session, policy, one, reading);
    PlanAtSafeEnd(session, policy, one, reading);
    CommittedStores(sha, session, policy, one, reading);
    PlanAtSafeEnd(session, policy, two, reading);
    QuietBuilds(sha, session, policy, two, reading);
    UnmovedSafeEndRaises(sha, session, policy, one, reading, reading);
  }

  /** Bound 0, safe end 5, windows of 10 that overlap by 3. */
  lemma ThirdPollExample(sha: Hash)
    requires CollisionFree(sha)
    ensures var session, policy := Session("p", 1, "s", 0, "k", "w"), Policy(10, 3, 1, None);
            var reading := Reading(true, true, true, 5, (s: int, e: int) => Rows([]), (s: int, e: int) => Rows([]), 0);
            var two := Polled3(sha, session, policy, reading).1;
            RunNextWindow(sha, session, policy, two, Current(session, two), reading) == (two, Raised(IntegrityError))
  {
    var session, policy := Session("p", 1, "s", 0, "k", "w"), Policy(10, 3, 1, None);
    var reading := Reading(true, true, true, 5, (s: int, e: int) => Rows([]), (s: int, e: int) => Rows([]), 0);
    ThirdPollRaises(sha, session, policy, reading);
  }

  // ---------------------------------------------------------------------
  // A row the plan relied on is cleaned up
  // ---------------------------------------------------------------------

  /** A deal with ticket 1 at the given raw time. */
  function DealRow(time: int): Payload {
    map[TICKET := Whole(1), TIME := Whole(time)]
  }

  /** The terminal lists this one deal. */
  predicate ListsOne(reading: Reading, startRaw: int, endRaw: int) {
    && reading.identified
    && reading.deals(startRaw, endRaw) == Rows([DealRow(startRaw)]) && reading.orders(startRaw, endRaw) == Rows([])
  }

  lemma {:induction false} AcceptsOne(rows: seq<Payload>, row: Payload, startRaw: int, endRaw: int, boundary: Field)
    requires rows == [row] && Readable(row, boundary) && InWindow(row, startRaw, endRaw, boundary)
    ensures HalfOpenRows(rows, startRaw, endRaw, boundary) == Success(rows)
  {
    assert rows[..0] == [] && rows[1..] == [];
    assert Accepted(rows[..0], startRaw, endRaw, boundary) == [];
    assert AllReadable(rows[1..], boundary) && AllReadable(rows, boundary);
    assert Accepted(rows, startRaw, endRaw, boundary) == Accepted(rows[..0], startRaw, endRaw, boundary) + [row];
    assert [] + [row] == rows;
  }

  lemma OneRowAccepted(startRaw: int, endRaw: int)
    requires startRaw < endRaw
    ensures HalfOpenRows([DealRow(startRaw)], startRaw, endRaw, TIME) == Success([DealRow(startRaw)])
    ensures HalfOpenRows([], startRaw, endRaw, TIME_DONE) == Success([])
    ensures AllSortable([DealRow(startRaw)], Deal) && AllSortable([], Order)
    ensures SortedRows(Deal, [DealRow(startRaw)]) == [DealRow(startRaw)] && SortedRows(Order, []) == []
  {
    var row, rows := DealRow(startRaw), [DealRow(startRaw)];
    assert row[TICKET] == Whole(1) && row[TIME] == Whole(startRaw);
    AcceptsOne(rows, row, startRaw, endRaw, TIME);
    assert rows[1..] == [] && Sort(rows[1..], ByKey(SortKey(Deal))) == [];
  }

  lemma OneDealAssembled(
    sha: Hash, session: Session, policy: Policy, expected: Checkpoint, startRaw: int, endRaw: int, observed: Utc)
    requires session.lowerBound >= 0 && startRaw < endRaw
    requires expected.profileId == session.journalProfileId && expected.policy == policy.version
    ensures var r := RecordOf(sha, session, Deal, DealRow(startRaw));
            var built := BuildInput(sha, session, policy, {r.eventId}, expected, startRaw, endRaw,
                                    [DealRow(startRaw)], [], 1, None, observed);
            built.Success? && built.value.records == [r]
  {
    OneRowAccepted(startRaw, endRaw);
    var r := RecordOf(sha, session, Deal, DealRow(startRaw));
    var input := Assembled(sha, session, policy, {r.eventId}, expected, startRaw, endRaw,
                           [DealRow(startRaw)], [], 1, None, observed);
    assert RecordsOf(sha, session, Deal, [DealRow(startRaw)]) == [r];
    assert input.records == [r];
    assert [r][..0] == [];
    assert RecordMessages(sha, session, input.window.id, [r], {r.eventId}, observed) == [];
    assert |input.messages| == 1;
  }

  /** The published row of the deal. */
  function PublishedRow(sha: Hash, session: Session, time: int, publishedAt: Utc): Outbox {
    map[RecordOf(sha, session, Deal, DealRow(time)).eventId :=
          Row(0, session.journalProfileId, session.streamKey, Decoded(HistoryDeal, 0), 0, PUBLISHED, 1, 0,
              None, 0, publishedAt, 0, 0, None, "")]
  }

  lemma PublishedRowHonest(sha: Hash, session: Session, time: int, publishedAt: Utc)
    requires CollisionFree(sha)
    ensures Honest(sha, PublishedRow(sha, session, time, publishedAt))
  {
    var outbox, mine := PublishedRow(sha, session, time, publishedAt), RecordOf(sha, session, Deal, DealRow(time));
    forall r: Record | SelfNames(sha, r) && r.eventId in outbox ensures HonestRow(outbox, r) {
      assert r.eventId == mine.eventId;
      SameNameSameRecord(sha, r, mine);
    }
  }

  lemma OneDealReads(
    sha: Hash, session: Session, policy: Policy, expected: Checkpoint, startRaw: int, endRaw: int, reading: Reading)
    requires ListsOne(reading, startRaw, endRaw) && session.lowerBound >= 0 && startRaw < endRaw
    requires expected.profileId == session.journalProfileId && expected.policy == policy.version
    ensures var r := RecordOf(sha, session, Deal, DealRow(startRaw));
            var read := ReadWindow(sha, session, policy, {r.eventId}, expected, startRaw, endRaw, reading, 1, None).0;
            read.Success? && read.value.records == [r]
  {
    OneRowAccepted(startRaw, endRaw);
    OneDealAssembled(sha, session, policy, expected, startRaw, endRaw, reading.observed);
  }

  lemma OneRecordStored(r: Record, stored: Outbox)
    ensures StillStored([r], {r.eventId}, stored) <==> r.eventId in stored
  {
    assert [r][0] in [r];
  }

  lemma CleanedOut(sha: Hash, session: Session, time: int, publishedAt: Utc, cutoff: Utc)
    requires publishedAt < cutoff
    ensures PublishedRow(sha, session, time, publishedAt).Keys == {RecordOf(sha, session, Deal, DealRow(time)).eventId}
    ensures Cleanup(PublishedRow(sha, session, time, publishedAt), cutoff) == map[]
  {
  }

  /**
    A window is re-read while its deal's row is published and past its retention. Against
    the outbox it was planned on the input is covered; after clean-up it is not.
   */
  lemma CleanupRefusesPlan(
    sha: Hash, session: Session, policy: Policy, expected: Checkpoint, startRaw: int, endRaw: int, reading: Reading,
    publishedAt: Utc, cutoff: Utc)
    requires CollisionFree(sha) && ListsOne(reading, startRaw, endRaw) && session.lowerBound >= 0 && startRaw < endRaw
    requires expected.profileId == session.journalProfileId && expected.policy == policy.version
    requires publishedAt < cutoff
    ensures var stored := PublishedRow(sha, session, startRaw, publishedAt);
            var read := ReadWindow(sha, session, policy, stored.Keys, expected, startRaw, endRaw, reading, 1, None).0;
            && read.Success?
            && OutboxCovers(stored, read.value.window, read.value.records, read.value.messages)
            && !OutboxCovers(Cleanup(stored, cutoff), read.value.window, read.value.records, read.value.messages)
            && forall db: Db | db.outbox == Cleanup(stored, cutoff) ::
                 CommitInput(db, read.value) == (db, Aborted(VALIDATION_FAILED))
  {
    var r := RecordOf(sha, session, Deal, DealRow(startRaw));
    var stored := PublishedRow(sha, session, startRaw, publishedAt);
    CleanedOut(sha, session, startRaw, publishedAt, cutoff);
    OneDealReads(sha, session, policy, expected, startRaw, endRaw, reading);
    PublishedRowHonest(sha, session, startRaw, publishedAt);
    BuiltInputCovered(sha, session, policy, {r.eventId}, expected, startRaw, endRaw, reading, 1, None, stored);
    BuiltInputCovered(sha, session, policy, {r.eventId}, expected, startRaw, endRaw, reading, 1, None, map[]);
    OneRecordStored(r, stored);
    OneRecordStored(r, map[]);
    var input := ReadWindow(sha, session, policy, stored.Keys, expected, startRaw, endRaw, reading, 1, None).0.value;
    forall db: Db | db.outbox == Cleanup(stored, cutoff)
      ensures CommitInput(db, input) == (db, Aborted(VALIDATION_FAILED))
    {
      UncoveredAborts(db, input);
    }
  }

  lemma UncoveredAborts(db: Db, input: Input)
    requires !OutboxCovers(db.outbox, input.window, input.records, input.messages)
    ensures CommitInput(db, input) == (db, Aborted(VALIDATION_FAILED))
  {
  }

  // ---------------------------------------------------------------------
  // A window whose content changed
  // ---------------------------------------------------------------------

  /** The terminal lists one deal with ticket 1 at this raw time, and nothing else. */
  ghost predicate ListsLate(reading: Reading, time: int) {
    && reading.identified && reading.stillIdentified
    && forall s, e :: reading.deals(s, e) == Rows([DealRow(time)]) && reading.orders(s, e) == Rows([])
  }

  lemma LateUsable(reading: Reading, time: int, startRaw: int, endRaw: int)
    requires ListsLate(reading, time)
    ensures WindowBuilds.Usable(reading.deals(startRaw, endRaw), Deal, startRaw, endRaw)
    ensures WindowBuilds.Usable(reading.orders(startRaw, endRaw), Order, startRaw, endRaw)
  {
    assert reading.deals(startRaw, endRaw) == Rows([DealRow(time)]) && reading.orders(startRaw, endRaw) == Rows([]);
  }

  lemma OneLateDeal(
    sha: Hash, session: Session, reading: Reading, time: int, startRaw: int, endRaw: int, deals: seq<Record>)
    requires ListsLate(reading, time) && startRaw <= time < endRaw
    requires WindowContents.RecordsFor(sha, session, reading, Deal, startRaw, endRaw, deals)
    ensures |deals| == 1
  {
    var row, payloads := DealRow(time), WindowContents.PayloadsOf(deals);
    assert reading.deals(startRaw, endRaw) == Rows([row]);
    forall x ensures multiset(payloads)[x] == multiset{row}[x] {
    }
    assert multiset(payloads) == multiset{row};
    assert |multiset(payloads)| == |payloads|;
  }

  lemma NothingListed(
    sha: Hash, session: Session, reading: Reading, startRaw: int, endRaw: int, deals: seq<Record>)
    requires Quiet(reading) && WindowContents.RecordsFor(sha, session, reading, Deal, startRaw, endRaw, deals)
    ensures deals == []
  {
    var payloads := WindowContents.PayloadsOf(deals);
    assert reading.deals(startRaw, endRaw) == Rows([]);
    assert multiset(payloads) == multiset{};
    assert |multiset(payloads)| == |payloads|;
  }

  /** The first window of a quiet terminal: empty, in force, and not revised. */
  lemma FirstWindow(sha: Hash, session: Session, policy: Policy, quiet: Reading) returns (w: Window)
    requires CollisionFree(sha) && policy.Valid() && Quiet(quiet)
    requires 0 <= session.lowerBound < quiet.safeEnd <= session.lowerBound + policy.maximumWindow
    ensures var one := RunNextWindow(sha, session, policy, EMPTY, Current(session, EMPTY), quiet).0;
            && HonestDb(sha, one) && w.id in one.windows && one.windows[w.id] == StoredWindow(w, COMMITTED)
            && ReviewLaws.Reviewable(session, policy, one, w.id) && !ReviewLaws.AlreadyRevised(one.windows, w)
            && w.dealCount == 0 && w.revision == 1 && w.startRaw == session.lowerBound && w.endRaw == quiet.safeEnd
  {
    FirstPoll(sha, session, policy, quiet);
    EmptyIsHonest(sha);
    CommittedStores(sha, session, policy, EMPTY, quiet);
    var deals, orders := PollLaws.PollStoresRows(sha, session, policy, EMPTY, quiet);
    var (one, done) := RunNextWindow(sha, session, policy, EMPTY, Current(session, EMPTY), quiet);
    w := done.window;
    NothingListed(sha, session, quiet, w.startRaw, w.endRaw, deals);
    var plan := PlanNow(session, policy, EMPTY, quiet).value;
    assert CoversPlan(session, plan, one.windows[w.id].window);
    forall o | o in one.windows ensures !ReviewLaws.Follows(one.windows[o].window, w) {
      assert CoversPlan(session, plan, one.windows[o].window);
    }
  }

  /** After its first poll a quiet terminal lists a deal of the window: the review supersedes it with a second revision. */
  lemma LateDealReconciles(sha: Hash, session: Session, policy: Policy, quiet: Reading, late: Reading, time: int)
    returns (id: WindowId)
    requires CollisionFree(sha) && policy.Valid() && Quiet(quiet) && ListsLate(late, time)
    requires 0 <= session.lowerBound <= time < quiet.safeEnd <= session.lowerBound + policy.maximumWindow
    ensures var one := RunNextWindow(sha, session, policy, EMPTY, Current(session, EMPTY), quiet).0;
            var r := ReconcileWindow(sha, session, policy, one, id, late);
            && id in one.windows && r.1.Reconciled? && r.1.window.revision == 2 && r.1.window.dealCount == 1
            && id in r.0.windows && r.0.windows[id].state == SUPERSEDED
            && r.1.window.id in r.0.windows && r.0.windows[r.1.window.id] == StoredWindow(r.1.window, COMMITTED)
            && r.0.checkpoints == one.checkpoints
  {
    var one := RunNextWindow(sha, session, policy, EMPTY, Current(session, EMPTY), quiet).0;
    var w := FirstWindow(sha, session, policy, quiet);
    id := w.id;
    LateUsable(late, time, w.startRaw, w.endRaw);
    var deals, orders := ReviewLaws.ReviewOutcomeExactly(sha, session, policy, one, id, late);
    OneLateDeal(sha, session, late, time, w.startRaw, w.endRaw, deals);
  }
}
