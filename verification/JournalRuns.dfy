/** Every journal that synchronizers, dispatchers and operators can reach is honest. */
module JournalRuns {
  import opened Wrappers
  import opened Canonical
  import opened JournalModel
  import opened History
  import opened HistoryLaws
  import opened PlanCoverage
  import opened HonestJournal
  import opened ForwardLaws

  datatype RowChange =
    | Claims(owner: string, limit: int, now: Utc, leaseSeconds: int)
    | Acknowledges(eventId: EventId, entryId: nat, now: Utc)
    | Fails(eventId: EventId, error: string, retryable: bool, now: Utc, delay: nat, maxAttempts: int)
    | Requeues(eventId: EventId, now: Utc)
    | Cleans(cutoff: Utc)

  function Changed(outbox: Outbox, c: RowChange): Outbox {
    match c
    case Claims(owner, limit, now, leaseSeconds) =>
      var r := ClaimTransaction(outbox, owner, limit, now, leaseSeconds);
      if r.Success? then r.value.0 else outbox
    case Acknowledges(e, entryId, now) =>
      var r := Ack(outbox, e, entryId, now);
      if r.Success? then r.value else outbox
    case Fails(e, error, retryable, now, delay, maxAttempts) =>
      var r := Fail(outbox, e, error, retryable, now, delay, maxAttempts);
      if r.Success? then r.value.0 else outbox
    case Requeues(e, now) =>
      var r := Requeue(outbox, e, now);
      if r.Success? then r.value else outbox
    case Cleans(cutoff) => Cleanup(outbox, cutoff)
  }

  /** Late is the commit of an input that was built against an earlier state of the outbox. */
  datatype JournalAction =
    | Poll(session: Session, policy: Policy, reading: Reading)
    | Review(session: Session, policy: Policy, window: WindowId, reading: Reading)
    | Late(session: Session, policy: Policy, announced: set<EventId>, input: Input, mode: CommitMode)
    | RaiseBound(profileId: ProfileId, bound: int, now: Utc)
    | Rows(change: RowChange)
    | Number(profileId: ProfileId)

  ghost function JournalStep(sha: Hash, db: Db, a: JournalAction): Db {
    match a
    case Poll(session, policy, reading) =>
      if policy.Valid() then RunNextWindow(sha, session, policy, db, Current(session, db), reading).0 else db
    case Review(session, policy, window, reading) => ReconcileWindow(sha, session, policy, db, window, reading).0
    case Late(session, policy, announced, input, mode) =>
      if Planned(sha, session, policy, announced, input)
      then Kept(db, Commit(db, input.expected, input.window, input.records, input.messages, mode)) else db
    case RaiseBound(profileId, bound, now) => Kept(db, Recover(db, profileId, bound, now))
    case Rows(change) => db.(outbox := Changed(db.outbox, change))
    case Number(p) => db.(sequences := db.sequences[p := NextSequence(db.sequences, p) + 1])
  }

  function Kept(db: Db, r: Result<Db>): Db {
    if r.Success? then r.value else db
  }

  ghost function JournalRun(sha: Hash, actions: seq<JournalAction>): Db {
    if actions == [] then EMPTY
    else JournalStep(sha, JournalRun(sha, actions[..|actions| - 1]), actions[|actions| - 1])
  }

  lemma ChangedKeepsEnvelopes(outbox: Outbox, c: RowChange)
    ensures SameEnvelopes(outbox, Changed(outbox, c))
  {
  }

  lemma RevisionKeeps(sha: Hash, session: Session, policy: Policy, db: Db, input: Input)
    requires CollisionFree(sha) && HonestDb(sha, db) && Planned(sha, session, policy, db.outbox.Keys, input)
    ensures HonestDb(sha, CommitRevision(db, input).0)
  {
    if Commit(db, input.expected, input.window, input.records, input.messages, Reconcile(input.supersedes)).Success? {
      CommitKeepsHonest(sha, session, policy, db.outbox.Keys, db, input, Reconcile(input.supersedes));
    }
  }

  lemma ReviseKeeps(sha: Hash, session: Session, policy: Policy, db: Db, prior: Window, reading: Reading)
    requires CollisionFree(sha) && HonestDb(sha, db)
    ensures HonestDb(sha, Revise(sha, session, policy, db, prior, reading).0)
  {
    var revised := ReadWindow(sha, session, policy, db.outbox.Keys, PriorCheckpoint(prior),
                              prior.startRaw, prior.endRaw, reading, NextRevision(prior), Some(prior.id));
    if revised.0.Success? && reading.stillIdentified {
      BuiltIsPlanned(sha, session, policy, db.outbox.Keys, PriorCheckpoint(prior), prior.startRaw, prior.endRaw,
                     reading, NextRevision(prior), Some(prior.id));
      RevisionKeeps(sha, session, policy, db, revised.0.value);
    }
  }

  lemma ReviewShape(sha: Hash, session: Session, policy: Policy, db: Db, id: WindowId, reading: Reading)
    ensures var after := ReconcileWindow(sha, session, policy, db, id, reading).0;
            after == db
            || (GetWindow(db, id).Some? && after == Revise(sha, session, policy, db, GetWindow(db, id).value, reading).0)
  {
  }

  lemma EitherKeeps(sha: Hash, db: Db, revised: Db, after: Db)
    requires HonestDb(sha, db) && HonestDb(sha, revised) && (after == db || after == revised)
    ensures HonestDb(sha, after)
  {
  }

  lemma ReviewKeeps(sha: Hash, session: Session, policy: Policy, db: Db, id: WindowId, reading: Reading)
    requires CollisionFree(sha) && HonestDb(sha, db)
    ensures HonestDb(sha, ReconcileWindow(sha, session, policy, db, id, reading).0)
  {
    ReviewShape(sha, session, policy, db, id, reading);
    var after, revised := ReconcileWindow(sha, session, policy, db, id, reading).0, db;
    if GetWindow(db, id).Some? {
      revised := Revise(sha, session, policy, db, GetWindow(db, id).value, reading).0;
      ReviseKeeps(sha, session, policy, db, GetWindow(db, id).value, reading);
    }
    EitherKeeps(sha, db, revised, after);
  }

  lemma JournalStepKeeps(sha: Hash, db: Db, a: JournalAction)
    requires CollisionFree(sha) && HonestDb(sha, db)
    ensures HonestDb(sha, JournalStep(sha, db, a))
  {
    match a {
      case Poll(session, policy, reading) =>
        if policy.Valid() {
          PollKeeps(sha, session, policy, db, reading);
        }
      case Review(session, policy, window, reading) =>
        ReviewKeeps(sha, session, policy, db, window, reading);
      case Late(session, policy, announced, input, mode) =>
        if Planned(sha, session, policy, announced, input)
           && Commit(db, input.expected, input.window, input.records, input.messages, mode).Success? {
          CommitKeepsHonest(sha, session, policy, announced, db, input, mode);
        }
      case RaiseBound(profileId, bound, now) =>
        if Recover(db, profileId, bound, now).Success? {
          RecoverKeepsHonest(sha, db, profileId, bound, now);
        }
      case Rows(change) =>
        ChangedKeepsEnvelopes(db.outbox, change);
        RowsKeepHonest(sha, db, Changed(db.outbox, change));
      case Number(_) =>
    }
  }

  /**
    In every run of any synchronizers, reviews, late commits, dispatchers, operators and
    clean-up, the journal is honest: windows, versions and rows carry their own names.
   */
  lemma {:induction false} ReachableIsHonest(sha: Hash, actions: seq<JournalAction>)
    requires CollisionFree(sha)
    ensures HonestDb(sha, JournalRun(sha, actions))
    decreases |actions|
  {
    if actions != [] {
      var before := actions[..|actions| - 1];
      ReachableIsHonest(sha, before);
      JournalStepKeeps(sha, JournalRun(sha, before), actions[|actions| - 1]);
    }
  }

  /** In every run a poll below the safe end whose checkpoint fits and whose rows build commits. */
  lemma {:induction false} ReachablePollCommits(
    sha: Hash, actions: seq<JournalAction>, session: Session, policy: Policy, reading: Reading)
    requires CollisionFree(sha) && policy.Valid()
    requires CheckpointFits(session, policy, JournalRun(sha, actions))
    requires reading.safeEnd > Frontier(session, JournalRun(sha, actions))
    requires Builds(sha, session, policy, JournalRun(sha, actions), reading)
    ensures var db := JournalRun(sha, actions);
            RunNextWindow(sha, session, policy, db, Current(session, db), reading).1.Committed?
  {
    ReachableIsHonest(sha, actions);
    PollCommits(sha, session, policy, JournalRun(sha, actions), reading);
  }

  /** In every run a built input is covered exactly when no row it relied on is gone. */
  lemma {:induction false} ReachableInputCovered(
    sha: Hash, actions: seq<JournalAction>, session: Session, policy: Policy, announced: set<EventId>, input: Input)
    requires CollisionFree(sha) && Planned(sha, session, policy, announced, input)
    ensures var stored := JournalRun(sha, actions).outbox;
            OutboxCovers(stored, input.window, input.records, input.messages)
            <==> StillStored(input.records, announced, stored)
  {
    ReachableIsHonest(sha, actions);
    PlannedCovers(sha, session, input.window, input.records, announced, input.messages, JournalRun(sha, actions).outbox);
  }
}
