/** One forward poll in terms of the checkpoint, the clock and the rows the terminal lists. */
module PollLaws {
  import opened Wrappers
  import opened Canonical
  import opened Sequences
  import opened JournalModel
  import opened History
  import opened HistoryLaws
  import opened PlanCoverage
  import opened HonestJournal
  import opened ForwardLaws
  import opened WindowContents
  import opened WindowBuilds

  // ---------------------------------------------------------------------
  // The range of a poll
  // ---------------------------------------------------------------------

  /** The journal has no checkpoint of the profile, or one of this policy that is not below the bound. */
  predicate Resumable(session: Session, policy: Policy, db: Db) {
    session.journalProfileId in db.checkpoints ==>
      var c := db.checkpoints[session.journalProfileId];
      c.profileId == session.journalProfileId && c.policy == policy.version && session.lowerBound <= c.next
  }

  /** The bound for a new profile, the checkpoint before a first window, and the overlap behind it afterwards. */
  function FirstRaw(session: Session, policy: Policy, db: Db): int {
    if session.journalProfileId !in db.checkpoints then session.lowerBound
    else
      var c := db.checkpoints[session.journalProfileId];
      if c.lastWindow == None then c.next
      else if c.next - policy.overlap < session.lowerBound then session.lowerBound
      else c.next - policy.overlap
  }

  /** The last window of the profile is stored and saw a deal or an order, or is not stored. */
  predicate MayHoldRows(session: Session, db: Db) {
    && session.journalProfileId in db.checkpoints
    && var last := db.checkpoints[session.journalProfileId].lastWindow;
       && last.Some?
       && (last.value in db.windows && db.windows[last.value].window.profileId in db.checkpoints ==>
             db.windows[last.value].window.dealCount != 0 || db.windows[last.value].window.orderCount != 0)
  }

  /** Up to the safe end, and at most the width for regions known to be empty or else the maximum. */
  function EndRaw(session: Session, policy: Policy, db: Db, safeEnd: int): int {
    var width := if policy.emptyWindow.Some? && !MayHoldRows(session, db) then policy.emptyWindow.value
                 else policy.maximumWindow;
    var end := FirstRaw(session, policy, db) + width;
    if safeEnd < end then safeEnd else end
  }

  lemma PlanExactly(session: Session, policy: Policy, db: Db, reading: Reading)
    requires policy.Valid() && Resumable(session, policy, db)
    ensures var plan := PlanNow(session, policy, db, reading);
            && plan.Success?
            && plan.value.startRaw == FirstRaw(session, policy, db)
            && plan.value.endRaw == EndRaw(session, policy, db, reading.safeEnd)
            && plan.value.expected.profileId == session.journalProfileId && plan.value.expected.policy == policy.version
            && plan.value.expected.generation
               == (if session.journalProfileId in db.checkpoints
                   then db.checkpoints[session.journalProfileId].generation else 1)
  {
  }

  /** Some stored first revision is of this profile, generation and range. */
  ghost predicate RangeKnown(session: Session, policy: Policy, db: Db, startRaw: int, endRaw: int) {
    exists o | o in db.windows ::
      && db.windows[o].window.profileId == session.journalProfileId
      && db.windows[o].window.generation
         == (if session.journalProfileId in db.checkpoints
             then db.checkpoints[session.journalProfileId].generation else 1)
      && db.windows[o].window.startRaw == startRaw && db.windows[o].window.endRaw == endRaw
      && db.windows[o].window.revision == 1
  }

  lemma RangeKnownExactly(session: Session, policy: Policy, db: Db, reading: Reading)
    requires policy.Valid() && Resumable(session, policy, db)
    ensures RangeTaken(session, policy, db, reading)
            <==> RangeKnown(session, policy, db, FirstRaw(session, policy, db), EndRaw(session, policy, db, reading.safeEnd))
  {
    PlanExactly(session, policy, db, reading);
    var plan := PlanNow(session, policy, db, reading).value;
    if RangeTaken(session, policy, db, reading) {
      var o :| o in db.windows && CoversPlan(session, plan, db.windows[o].window);
    }
    if RangeKnown(session, policy, db, plan.startRaw, plan.endRaw) {
      var o :| && o in db.windows && db.windows[o].window.profileId == session.journalProfileId
               && db.windows[o].window.generation == plan.expected.generation
               && db.windows[o].window.startRaw == plan.startRaw && db.windows[o].window.endRaw == plan.endRaw
               && db.windows[o].window.revision == 1;
      assert CoversPlan(session, plan, db.windows[o].window);
    }
  }

  /** The terminal is identified throughout, the safe end is known and ahead, and both lists can be used. */
  ghost predicate Answers(session: Session, policy: Policy, db: Db, reading: Reading) {
    var startRaw, endRaw := FirstRaw(session, policy, db), EndRaw(session, policy, db, reading.safeEnd);
    && reading.identified && reading.stillIdentified && reading.safeEndKnown
    && session.lowerBound >= 0 && startRaw < endRaw
    && Usable(reading.deals(startRaw, endRaw), Deal, startRaw, endRaw)
    && Usable(reading.orders(startRaw, endRaw), Order, startRaw, endRaw)
  }

  lemma AnswersExactly(sha: Hash, session: Session, policy: Policy, db: Db, reading: Reading)
    requires CollisionFree(sha) && policy.Valid() && Resumable(session, policy, db)
    ensures Builds(sha, session, policy, db, reading) && PlansSome(session, policy, db, reading)
            <==> Answers(session, policy, db, reading)
  {
    PlanExactly(session, policy, db, reading);
    var plan := PlanNow(session, policy, db, reading).value;
    ReadBuildsExactly(sha, session, policy, db.outbox.Keys, plan.expected, plan.startRaw, plan.endRaw, reading, 1, None);
  }

  /**
    A poll commits exactly when the checkpoint can be resumed, the terminal answers with
    usable lists for a range that is not empty, and that range has no first revision yet.
    The window is of that range.
   */
  lemma PollCommitsExactly(sha: Hash, session: Session, policy: Policy, db: Db, reading: Reading)
    requires CollisionFree(sha) && HonestDb(sha, db) && policy.Valid()
    ensures var startRaw, endRaw := FirstRaw(session, policy, db), EndRaw(session, policy, db, reading.safeEnd);
            var done := RunNextWindow(sha, session, policy, db, Current(session, db), reading).1;
            && (done.Committed? <==> && Resumable(session, policy, db) && Answers(session, policy, db, reading)
                                     && !RangeKnown(session, policy, db, startRaw, endRaw))
            && (done.Committed? ==> done.window.startRaw == startRaw && done.window.endRaw == endRaw
                                    && done.window.revision == 1)
  {
    ForwardOutcomeExactly(sha, session, policy, db, reading);
    if Resumable(session, policy, db) {
      AnswersExactly(sha, session, policy, db, reading);
      RangeKnownExactly(session, policy, db, reading);
    }
    if RunNextWindow(sha, session, policy, db, Current(session, db), reading).1.Committed? {
      PollIs(sha, session, policy, db, reading);
      PlanExactly(session, policy, db, reading);
    }
  }

  lemma PollIs(sha: Hash, session: Session, policy: Policy, db: Db, reading: Reading)
    requires RunNextWindow(sha, session, policy, db, Current(session, db), reading).1.Committed?
    ensures Builds(sha, session, policy, db, reading) && PlansSome(session, policy, db, reading)
    ensures var plan := PlanNow(session, policy, db, reading).value;
            var input := ReadNow(sha, session, policy, db, reading, plan).0.value;
            && RunNextWindow(sha, session, policy, db, Current(session, db), reading) == CommitInput(db, input)
            && CommitInput(db, input).1.window == input.window
            && Planned(sha, session, policy, db.outbox.Keys, input)
            && input.window.startRaw == plan.startRaw && input.window.endRaw == plan.endRaw && input.window.revision == 1
  {
    CommittedWasReady(sha, session, policy, db, reading);
    PollCommitsInput(sha, session, policy, db, reading);
    var plan := PlanNow(session, policy, db, reading).value;
    BuiltIsPlanned(sha, session, policy, db.outbox.Keys, plan.expected, plan.startRaw, plan.endRaw, reading, 1, None);
  }

  /** What a poll that can be resumed reports, in the order in which things are found out. */
  lemma PollOutcomeExactly(sha: Hash, session: Session, policy: Policy, db: Db, reading: Reading)
    requires CollisionFree(sha) && HonestDb(sha, db) && policy.Valid() && Resumable(session, policy, db)
    ensures var startRaw, endRaw := FirstRaw(session, policy, db), EndRaw(session, policy, db, reading.safeEnd);
            var done := RunNextWindow(sha, session, policy, db, Current(session, db), reading).1;
            if !reading.safeEndKnown then done == Aborted(VALIDATION_FAILED)
            else if endRaw <= startRaw then done == Idle
            else if !reading.identified then done == Aborted(VALIDATION_FAILED)
            else if reading.deals(startRaw, endRaw) == FAILED then done == Aborted(DEALS_FAILED)
            else if reading.orders(startRaw, endRaw) == FAILED then done == Aborted(ORDERS_FAILED)
            else if !Answers(session, policy, db, reading) then done == Aborted(VALIDATION_FAILED)
            else if RangeKnown(session, policy, db, startRaw, endRaw) then done == Raised(IntegrityError)
            else done.Committed?
  {
    PlanExactly(session, policy, db, reading);
    PollCommitsExactly(sha, session, policy, db, reading);
    AnswersExactly(sha, session, policy, db, reading);
    RangeKnownExactly(session, policy, db, reading);
    ForwardOutcomeExactly(sha, session, policy, db, reading);
    if !(Builds(sha, session, policy, db, reading) && PlansSome(session, policy, db, reading)) {
      var plan := PlanNow(session, policy, db, reading).value;
      PollStopsEarly(sha, session, policy, db, reading, plan);
    }
  }

  lemma PollStopsEarly(sha: Hash, session: Session, policy: Policy, db: Db, reading: Reading, plan: Plan)
    requires PlanNow(session, policy, db, reading) == Success(plan)
    requires !(Builds(sha, session, policy, db, reading) && PlansSome(session, policy, db, reading))
    ensures var done := RunNextWindow(sha, session, policy, db, Current(session, db), reading).1;
            if !reading.safeEndKnown then done == Aborted(VALIDATION_FAILED)
            else if plan.endRaw <= plan.startRaw then done == Idle
            else if !reading.identified then done == Aborted(VALIDATION_FAILED)
            else if reading.deals(plan.startRaw, plan.endRaw) == FAILED then done == Aborted(DEALS_FAILED)
            else if reading.orders(plan.startRaw, plan.endRaw) == FAILED then done == Aborted(ORDERS_FAILED)
            else done == Aborted(VALIDATION_FAILED)
  {
  }

  // ---------------------------------------------------------------------
  // The rows of a poll
  // ---------------------------------------------------------------------

  /** The stored window holds exactly the rows of its range, as the terminal listed them. */
  ghost predicate StoresRows(
    sha: Hash, session: Session, reading: Reading, db: Db, w: Window, deals: seq<Record>, orders: seq<Record>)
  {
    && w.id in db.windows && db.windows[w.id] == StoredWindow(w, COMMITTED)
    && w.dealCount == |deals| && w.orderCount == |orders|
    && RecordsFor(sha, session, reading, Deal, w.startRaw, w.endRaw, deals)
    && RecordsFor(sha, session, reading, Order, w.startRaw, w.endRaw, orders)
    && Holds(db, w.id, deals, orders)
  }

  /** A committed poll stores every row of its range, once for each time it was listed, and no other. */
  lemma PollStoresRows(sha: Hash, session: Session, policy: Policy, db: Db, reading: Reading)
    returns (deals: seq<Record>, orders: seq<Record>)
    requires CollisionFree(sha) && HonestDb(sha, db) && policy.Valid()
    requires RunNextWindow(sha, session, policy, db, Current(session, db), reading).1.Committed?
    ensures var (after, done) := RunNextWindow(sha, session, policy, db, Current(session, db), reading);
            StoresRows(sha, session, reading, after, done.window, deals, orders)
  {
    PollIs(sha, session, policy, db, reading);
    var plan := PlanNow(session, policy, db, reading).value;
    var input := ReadNow(sha, session, policy, db, reading, plan).0.value;
    deals, orders := BuiltRecords(sha, session, policy, db.outbox.Keys, plan.expected, plan.startRaw, plan.endRaw,
                                  reading, 1, None);
    CommitHolds(sha, session, policy, db.outbox.Keys, db, input, Forward(input.lowerBound, true), deals, orders);
    CommitInputStores(db, input);
  }
}
