/** Exactly when a forward poll commits, and what follows for whole runs. */
module ForwardLaws {
  import opened Wrappers
  import opened Canonical
  import opened Sequences
  import opened JournalModel
  import opened History
  import opened HistoryLaws
  import opened PlanCoverage
  import opened HonestJournal

  /** The stored checkpoint is of this profile and policy and not below the bound, or there is none. */
  predicate CheckpointFits(session: Session, policy: Policy, db: Db) {
    match Current(session, db)
    case None => true
    case Some(c) =>
      c.profileId == session.journalProfileId && c.policy == policy.version && c.next >= session.lowerBound
  }

  function PlanNow(session: Session, policy: Policy, db: Db, reading: Reading): Result<Plan> {
    NextPlan(session, policy, db, Current(session, db), reading.safeEnd, reading.observed)
  }

  function ReadNow(sha: Hash, session: Session, policy: Policy, db: Db, reading: Reading, plan: Plan)
    : (Result<Input>, Reason)
  {
    ReadWindow(sha, session, policy, db.outbox.Keys, plan.expected, plan.startRaw, plan.endRaw, reading, 1, None)
  }

  /** The terminal answers, the safe end is known, and the rows it lists build a window. */
  predicate Builds(sha: Hash, session: Session, policy: Policy, db: Db, reading: Reading) {
    && reading.safeEndKnown && reading.stillIdentified
    && PlanNow(session, policy, db, reading).Success?
    && ReadNow(sha, session, policy, db, reading, PlanNow(session, policy, db, reading).value).0.Success?
  }

  /** The plan covers something. */
  predicate PlansSome(session: Session, policy: Policy, db: Db, reading: Reading) {
    && PlanNow(session, policy, db, reading).Success?
    && PlanNow(session, policy, db, reading).value.startRaw < PlanNow(session, policy, db, reading).value.endRaw
  }

  predicate CoversPlan(session: Session, plan: Plan, w: Window) {
    && w.profileId == session.journalProfileId && w.generation == plan.expected.generation
    && w.startRaw == plan.startRaw && w.endRaw == plan.endRaw && w.revision == 1
  }

  /** A first revision of the planned range is stored already. */
  ghost predicate RangeTaken(session: Session, policy: Policy, db: Db, reading: Reading) {
    && PlanNow(session, policy, db, reading).Success?
    && exists o | o in db.windows ::
         CoversPlan(session, PlanNow(session, policy, db, reading).value, db.windows[o].window)
  }

  // ---------------------------------------------------------------------
  // One poll
  // ---------------------------------------------------------------------

  lemma PlanFits(session: Session, policy: Policy, db: Db, reading: Reading)
    requires policy.Valid() && PlanNow(session, policy, db, reading).Success?
    ensures var plan := PlanNow(session, policy, db, reading).value;
            && plan.startRaw <= plan.expected.next
            && plan.expected.profileId == session.journalProfileId
            && (Matches(CheckpointOf(db, session.journalProfileId), plan.expected, session.lowerBound)
                <==> CheckpointFits(session, policy, db))
  {
  }

  lemma FitPlans(session: Session, policy: Policy, db: Db, reading: Reading)
    requires CheckpointFits(session, policy, db)
    ensures PlanNow(session, policy, db, reading).Success?
  {
  }

  lemma PollCommitsInput(sha: Hash, session: Session, policy: Policy, db: Db, reading: Reading)
    requires Builds(sha, session, policy, db, reading) && PlansSome(session, policy, db, reading)
    ensures var input := ReadNow(sha, session, policy, db, reading, PlanNow(session, policy, db, reading).value).0.value;
            RunNextWindow(sha, session, policy, db, Current(session, db), reading) == CommitInput(db, input)
  {
  }

  lemma PollAborts(sha: Hash, session: Session, policy: Policy, db: Db, reading: Reading)
    requires !(Builds(sha, session, policy, db, reading) && PlansSome(session, policy, db, reading))
    ensures var r := RunNextWindow(sha, session, policy, db, Current(session, db), reading);
            r.0 == db && !r.1.Committed? && !r.1.Raised?
  {
  }

  /** The range of a built input is taken exactly when the range of its plan is. */
  lemma BuiltRangeTaken(sha: Hash, session: Session, policy: Policy, db: Db, reading: Reading, input: Input)
    requires Builds(sha, session, policy, db, reading)
    requires input == ReadNow(sha, session, policy, db, reading, PlanNow(session, policy, db, reading).value).0.value
    ensures RangeStored(db.windows, input.window) <==> RangeTaken(session, policy, db, reading)
  {
    var plan := PlanNow(session, policy, db, reading).value;
    BuiltIsPlanned(sha, session, policy, db.outbox.Keys, plan.expected, plan.startRaw, plan.endRaw, reading, 1, None);
    forall o | o in db.windows
      ensures SameRevision(db.windows[o].window, input.window) <==> CoversPlan(session, plan, db.windows[o].window)
    {
    }
  }

  /**
    In an honest journal a forward poll commits exactly when its checkpoint fits, the
    plan covers something, the rows build, and the range has no first revision yet. When
    only the last of these fails, an integrity error escapes the synchronizer. In every
    other case the poll is aborted or idle. Unless it commits, nothing changes.
   */
  lemma ForwardOutcomeExactly(sha: Hash, session: Session, policy: Policy, db: Db, reading: Reading)
    requires CollisionFree(sha) && HonestDb(sha, db) && policy.Valid()
    ensures var r := RunNextWindow(sha, session, policy, db, Current(session, db), reading);
            var ready := CheckpointFits(session, policy, db) && PlansSome(session, policy, db, reading)
                         && Builds(sha, session, policy, db, reading);
            && (r.1.Committed? <==> ready && !RangeTaken(session, policy, db, reading))
            && (r.1 == Raised(IntegrityError) <==> ready && RangeTaken(session, policy, db, reading))
            && (r.1.Raised? ==> r.1 == Raised(IntegrityError))
            && (!r.1.Committed? ==> r.0 == db)
  {
    if Builds(sha, session, policy, db, reading) && PlansSome(session, policy, db, reading) {
      var plan := PlanNow(session, policy, db, reading).value;
      var input := ReadNow(sha, session, policy, db, reading, plan).0.value;
      PollCommitsInput(sha, session, policy, db, reading);
      BuiltIsPlanned(sha, session, policy, db.outbox.Keys, plan.expected, plan.startRaw, plan.endRaw, reading, 1, None);
      PlanFits(session, policy, db, reading);
      BuiltRangeTaken(sha, session, policy, db, reading, input);
      CommitInputExactly(sha, session, policy, db, input);
    } else {
      PollAborts(sha, session, policy, db, reading);
    }
  }

  lemma CommitInputExactly(sha: Hash, session: Session, policy: Policy, db: Db, input: Input)
    requires CollisionFree(sha) && HonestDb(sha, db) && Planned(sha, session, policy, db.outbox.Keys, input)
    requires input.window.startRaw <= input.expected.next
    ensures var r := CommitInput(db, input);
            var fits := Matches(CheckpointOf(db, session.journalProfileId), input.expected, session.lowerBound);
            && (r.1.Committed? <==> fits && !RangeStored(db.windows, input.window))
            && (r.1 == Raised(IntegrityError) <==> fits && RangeStored(db.windows, input.window))
            && (r.1.Raised? ==> r.1 == Raised(IntegrityError))
            && (!r.1.Committed? ==> r.0 == db)
  {
    PlannedCommitExactly(sha, session, policy, db, input);
  }

  // ---------------------------------------------------------------------
  // Progress
  // ---------------------------------------------------------------------

  /** Ahead of the frontier no planned range is taken: no window reaches past its checkpoint. */
  lemma NewGroundIsFree(sha: Hash, session: Session, policy: Policy, db: Db, reading: Reading)
    requires HonestDb(sha, db) && policy.Valid() && CheckpointFits(session, policy, db)
    requires reading.safeEnd > Frontier(session, db)
    ensures PlansSome(session, policy, db, reading) && !RangeTaken(session, policy, db, reading)
  {
    FitPlans(session, policy, db, reading);
    PlanReaches(session, policy, db, reading.safeEnd, reading.observed);
    PlanFits(session, policy, db, reading);
  }

  /** Below the safe end every poll whose rows build commits. */
  lemma PollCommits(sha: Hash, session: Session, policy: Policy, db: Db, reading: Reading)
    requires CollisionFree(sha) && HonestDb(sha, db) && policy.Valid() && CheckpointFits(session, policy, db)
    requires reading.safeEnd > Frontier(session, db) && Builds(sha, session, policy, db, reading)
    ensures RunNextWindow(sha, session, policy, db, Current(session, db), reading).1.Committed?
  {
    NewGroundIsFree(sha, session, policy, db, reading);
    ForwardOutcomeExactly(sha, session, policy, db, reading);
  }

  /** A poll keeps the journal honest and the checkpoint fitting. */
  lemma PollKeeps(sha: Hash, session: Session, policy: Policy, db: Db, reading: Reading)
    requires CollisionFree(sha) && HonestDb(sha, db) && policy.Valid()
    ensures var after := RunNextWindow(sha, session, policy, db, Current(session, db), reading).0;
            HonestDb(sha, after) && (CheckpointFits(session, policy, db) ==> CheckpointFits(session, policy, after))
  {
    ForwardOutcomeExactly(sha, session, policy, db, reading);
    var r := RunNextWindow(sha, session, policy, db, Current(session, db), reading);
    if r.1.Committed? {
      var plan := PlanNow(session, policy, db, reading).value;
      var input := ReadNow(sha, session, policy, db, reading, plan).0.value;
      PollCommitsInput(sha, session, policy, db, reading);
      BuiltIsPlanned(sha, session, policy, db.outbox.Keys, plan.expected, plan.startRaw, plan.endRaw, reading, 1, None);
      PlanFits(session, policy, db, reading);
      InputKeeps(sha, session, policy, db, input);
    }
  }

  lemma InputKeeps(sha: Hash, session: Session, policy: Policy, db: Db, input: Input)
    requires CollisionFree(sha) && HonestDb(sha, db) && Planned(sha, session, policy, db.outbox.Keys, input)
    requires CommitInput(db, input).1.Committed?
    requires input.expected.next >= session.lowerBound
             || !Matches(CheckpointOf(db, session.journalProfileId), input.expected, session.lowerBound)
    ensures HonestDb(sha, CommitInput(db, input).0) && CheckpointFits(session, policy, CommitInput(db, input).0)
  {
    CommitKeepsHonest(sha, session, policy, db.outbox.Keys, db, input, Forward(input.lowerBound, true));
    CommitInputAdvances(db, input);
  }

  /** Polls towards one safe end, each of whose rows build; nothing is assumed about what they commit. */
  ghost predicate Polls(
    sha: Hash, session: Session, policy: Policy, dbs: seq<Db>, readings: seq<Reading>, safeEnd: int)
  {
    && |dbs| == |readings| + 1
    && forall i | 0 <= i < |readings| :: Polled(sha, session, policy, dbs[i], dbs[i + 1], readings[i], safeEnd)
  }

  ghost predicate Polled(
    sha: Hash, session: Session, policy: Policy, before: Db, after: Db, reading: Reading, safeEnd: int)
  {
    && reading.safeEnd == safeEnd && Builds(sha, session, policy, before, reading)
    && after == RunNextWindow(sha, session, policy, before, Current(session, before), reading).0
  }

  lemma PollSteps(sha: Hash, session: Session, policy: Policy, before: Db, after: Db, reading: Reading, safeEnd: int)
    requires CollisionFree(sha) && HonestDb(sha, before) && policy.Valid() && CheckpointFits(session, policy, before)
    requires Polled(sha, session, policy, before, after, reading, safeEnd)
    ensures NetStep(Frontier(session, before), Frontier(session, after), safeEnd, policy.maximumWindow - policy.overlap)
    ensures HonestDb(sha, after) && CheckpointFits(session, policy, after)
  {
    PollKeeps(sha, session, policy, before, reading);
    if safeEnd > Frontier(session, before) {
      PollCommits(sha, session, policy, before, reading);
    }
    if RunNextWindow(sha, session, policy, before, Current(session, before), reading).1.Committed? {
      CommitSteps(sha, session, policy, before, after, reading);
    } else {
      ForwardOutcomeExactly(sha, session, policy, before, reading);
    }
  }

  lemma {:induction false} PollsKeep(
    sha: Hash, session: Session, policy: Policy, dbs: seq<Db>, readings: seq<Reading>, safeEnd: int, n: nat)
    requires CollisionFree(sha) && policy.Valid() && Polls(sha, session, policy, dbs, readings, safeEnd)
    requires HonestDb(sha, dbs[0]) && CheckpointFits(session, policy, dbs[0]) && n <= |readings|
    ensures HonestDb(sha, dbs[n]) && CheckpointFits(session, policy, dbs[n])
  {
    if n > 0 {
      var m := n - 1;
      PollsKeep(sha, session, policy, dbs, readings, safeEnd, m);
      assert Polled(sha, session, policy, dbs[m], dbs[m + 1], readings[m], safeEnd);
      PollSteps(sha, session, policy, dbs[m], dbs[n], readings[m], safeEnd);
    }
  }

  /**
    Backfill completes: ceil((safe end - frontier) / (maximum - overlap)) polls reach a
    fixed safe end, provided the rows of each build. That they commit is proved, not assumed.
   */
  lemma PollsReachSafeEnd(
    sha: Hash, session: Session, policy: Policy, dbs: seq<Db>, readings: seq<Reading>, safeEnd: int)
    requires CollisionFree(sha) && policy.Valid() && Polls(sha, session, policy, dbs, readings, safeEnd)
    requires HonestDb(sha, dbs[0]) && CheckpointFits(session, policy, dbs[0])
    requires |readings| >= (safeEnd - Frontier(session, dbs[0]) + policy.maximumWindow - policy.overlap - 1)
                           / (policy.maximumWindow - policy.overlap)
    ensures Frontier(session, dbs[|readings|]) >= safeEnd
  {
    var net := policy.maximumWindow - policy.overlap;
    var frontiers := seq(|dbs|, i requires 0 <= i < |dbs| => Frontier(session, dbs[i]));
    forall i | 0 <= i < |frontiers| - 1 ensures NetStep(frontiers[i], frontiers[i + 1], safeEnd, net) {
      PollsKeep(sha, session, policy, dbs, readings, safeEnd, i);
      assert Polled(sha, session, policy, dbs[i], dbs[i + 1], readings[i], safeEnd);
      PollSteps(sha, session, policy, dbs[i], dbs[i + 1], readings[i], safeEnd);
    }
    NetSteps(frontiers, safeEnd, net);
    CeilingCovers(safeEnd - Frontier(session, dbs[0]), net, |readings|);
  }

  // ---------------------------------------------------------------------
  // An unmoved safe end
  // ---------------------------------------------------------------------

  /** With the checkpoint at the safe end a plan re-reads the overlap. */
  lemma PlanAtSafeEnd(session: Session, policy: Policy, db: Db, reading: Reading)
    requires policy.Valid() && CheckpointFits(session, policy, db)
    requires Current(session, db).Some? && Current(session, db).value.next == reading.safeEnd
    requires Current(session, db).value.lastWindow.Some?
    ensures PlanNow(session, policy, db, reading)
            == Success(Plan(Current(session, db).value,
                            Max(session.lowerBound, reading.safeEnd - policy.overlap), reading.safeEnd))
  {
  }

  /**
    At an unmoved safe end at most one more window commits. The poll after it whose rows
    build raises an integrity error that the synchronizer does not catch.
   */
  lemma UnmovedSafeEndRaises(sha: Hash, session: Session, policy: Policy, db: Db, first: Reading, again: Reading)
    requires CollisionFree(sha) && HonestDb(sha, db) && policy.Valid() && CheckpointFits(session, policy, db)
    requires Current(session, db).Some? && Current(session, db).value.lastWindow.Some?
    requires Current(session, db).value.next == first.safeEnd == again.safeEnd
    requires RunNextWindow(sha, session, policy, db, Current(session, db), first).1.Committed?
    ensures var after := RunNextWindow(sha, session, policy, db, Current(session, db), first).0;
            Builds(sha, session, policy, after, again) ==>
              RunNextWindow(sha, session, policy, after, Current(session, after), again)
              == (after, Raised(IntegrityError))
  {
    var after := RunNextWindow(sha, session, policy, db, Current(session, db), first).0;
    PollKeeps(sha, session, policy, db, first);
    PlanAtSafeEnd(session, policy, db, first);
    ForwardOutcomeExactly(sha, session, policy, db, first);
    CommittedStores(sha, session, policy, db, first);
    PlanAtSafeEnd(session, policy, after, again);
    ForwardOutcomeExactly(sha, session, policy, after, again);
  }

  /** The window of the plan is stored, nothing else changed among the windows, and the checkpoint moved to it. */
  ghost predicate Stores(session: Session, plan: Plan, db: Db, after: Db) {
    && (exists o | o in after.windows :: CoversPlan(session, plan, after.windows[o].window))
    && (forall o | o in after.windows :: o in db.windows || CoversPlan(session, plan, after.windows[o].window))
    && (forall o | o in db.windows :: o in after.windows && after.windows[o] == db.windows[o])
    && Current(session, after).Some?
    && Current(session, after).value.generation == plan.expected.generation
    && Current(session, after).value.next == Max(plan.expected.next, plan.endRaw)
    && Current(session, after).value.lastWindow.Some?
  }

  lemma InputStores(session: Session, plan: Plan, db: Db, input: Input)
    requires CommitInput(db, input).1.Committed? && CoversPlan(session, plan, input.window)
    requires input.expected == plan.expected
    ensures Stores(session, plan, db, CommitInput(db, input).0)
  {
    CommitInputStores(db, input);
    var after := CommitInput(db, input).0;
    assert after.windows[input.window.id].window == input.window;
  }

  lemma CommittedStores(sha: Hash, session: Session, policy: Policy, db: Db, reading: Reading)
    requires RunNextWindow(sha, session, policy, db, Current(session, db), reading).1.Committed?
    ensures PlanNow(session, policy, db, reading).Success?
    ensures Stores(session, PlanNow(session, policy, db, reading).value, db,
                   RunNextWindow(sha, session, policy, db, Current(session, db), reading).0)
  {
    CommittedWasReady(sha, session, policy, db, reading);
    PollCommitsInput(sha, session, policy, db, reading);
    var plan := PlanNow(session, policy, db, reading).value;
    var input := ReadNow(sha, session, policy, db, reading, plan).0.value;
    BuiltIsPlanned(sha, session, policy, db.outbox.Keys, plan.expected, plan.startRaw, plan.endRaw, reading, 1, None);
    InputStores(session, plan, db, input);
  }

  lemma CommittedWasReady(sha: Hash, session: Session, policy: Policy, db: Db, reading: Reading)
    requires RunNextWindow(sha, session, policy, db, Current(session, db), reading).1.Committed?
    ensures Builds(sha, session, policy, db, reading) && PlansSome(session, policy, db, reading)
  {
    if !(Builds(sha, session, policy, db, reading) && PlansSome(session, policy, db, reading)) {
      PollAborts(sha, session, policy, db, reading);
    }
  }

  lemma CommitInputStores(db: Db, input: Input)
    requires CommitInput(db, input).1.Committed?
    ensures var after := CommitInput(db, input).0;
            && input.window.id !in db.windows
            && after.windows == db.windows[input.window.id := StoredWindow(input.window, COMMITTED)]
            && after.checkpoints == db.checkpoints[input.window.profileId := Advanced(input.expected, input.window)]
  {
    CommitInputAdvances(db, input);
  }
}
