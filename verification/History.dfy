/**
  The history synchronizer: plans the next half-open window, turns the rows it
  reads into records and outbox messages, and commits or reconciles them.
 */
module History {
  import opened Wrappers
  import opened Canonical
  import opened JournalModel
  import opened Sorting
  import JournalRepository
  import opened Sequences

  datatype Policy = Policy(maximumWindow: int, overlap: int, version: int, emptyWindow: Option<int>) {
    /** What the constructor of the policy accepts. */
    predicate Valid() {
      && maximumWindow > 0
      && 0 <= overlap < maximumWindow
      && version > 0
      && (emptyWindow.Some? ==> maximumWindow <= emptyWindow.value)
    }
  }

  datatype Session = Session(
    journalProfileId: ProfileId, login: int, server: string, lowerBound: int, streamKey: string, producer: string)

  /** What the adapter answers for a range of raw times. */
  datatype CallResult = FAILED | Rows(rows: seq<Payload>)

  datatype Input = Input(
    expected: Checkpoint, lowerBound: int, window: Window, records: seq<Record>, messages: seq<Message>,
    supersedes: Option<WindowId>)

  datatype Reason = DEALS_FAILED | ORDERS_FAILED | VALIDATION_FAILED | WINDOW_MISSING | PROFILE_MISMATCH

  datatype Outcome =
    | Committed(window: Window, checkpoint: Checkpoint)
    | Reconciled(window: Window)
    | Unchanged(window: Window)
    | Idle
    | Aborted(reason: Reason)
    | Raised(error: Error)

  /** Only TypeError, ValueError and RuntimeError are turned into an aborted outcome. */
  function Caught(error: Error): Outcome {
    if error == IntegrityError then Raised(error) else Aborted(VALIDATION_FAILED)
  }

  // ---------------------------------------------------------------------
  // Rows
  // ---------------------------------------------------------------------

  predicate HasRaw(row: Payload, field: Field) {
    field in row && row[field].Whole?
  }

  /** An absent field reads as -1; a present one must be a raw integer. */
  predicate RawOrAbsent(row: Payload, field: Field) {
    field in row ==> row[field].Whole?
  }

  function Raw(row: Payload, field: Field): int {
    if HasRaw(row, field) then row[field].n else -1
  }

  predicate IsCanonical(row: Payload) {
    forall field | field in row :: !row[field].NotFinite?
  }

  function BoundaryField(resource: Resource): Field {
    match resource
    case Deal => TIME
    case Order => TIME_DONE
  }

  function SortKey(resource: Resource): Payload -> seq<int> {
    (row: Payload) =>
      match resource
      case Deal => [Raw(row, TIME_MSC), Raw(row, TIME), Raw(row, TICKET)]
      case Order =>
        [Raw(row, TIME_DONE_MSC), Raw(row, TIME_DONE), Raw(row, TIME_SETUP_MSC), Raw(row, TIME_SETUP), Raw(row, TICKET)]
  }

  predicate Readable(row: Payload, boundary: Field) {
    HasRaw(row, TICKET) && IsCanonical(row) && HasRaw(row, boundary)
  }

  predicate Sortable(row: Payload, resource: Resource) {
    match resource
    case Deal => RawOrAbsent(row, TIME_MSC) && RawOrAbsent(row, TIME)
    case Order =>
      && RawOrAbsent(row, TIME_DONE_MSC) && RawOrAbsent(row, TIME_DONE)
      && RawOrAbsent(row, TIME_SETUP_MSC) && RawOrAbsent(row, TIME_SETUP)
  }

  predicate AllSortable(rows: seq<Payload>, resource: Resource) {
    rows == [] || (Sortable(rows[0], resource) && AllSortable(rows[1..], resource))
  }

  predicate AllReadable(rows: seq<Payload>, boundary: Field) {
    rows == [] || (Readable(rows[0], boundary) && AllReadable(rows[1..], boundary))
  }

  predicate InWindow(row: Payload, startRaw: int, endRaw: int, boundary: Field) {
    startRaw <= Raw(row, boundary) < endRaw
  }

  function Accepted(rows: seq<Payload>, startRaw: int, endRaw: int, boundary: Field): seq<Payload> {
    if rows == [] then []
    else
      var n := |rows| - 1;
      Accepted(rows[..n], startRaw, endRaw, boundary)
      + (if InWindow(rows[n], startRaw, endRaw, boundary) then [rows[n]] else [])
  }

  function HalfOpenRows(rows: seq<Payload>, startRaw: int, endRaw: int, boundary: Field): Result<seq<Payload>> {
    if AllReadable(rows, boundary)
    then Success(Accepted(rows, startRaw, endRaw, boundary))
    else Failure(ValueError)
  }

  // ---------------------------------------------------------------------
  // Records, digests and messages
  // ---------------------------------------------------------------------

  function NaturalOf(session: Session, row: Payload): NaturalId {
    NaturalId(session.journalProfileId, session.login, session.server, Raw(row, TICKET))
  }

  function RecordOf(sha: Hash, session: Session, resource: Resource, row: Payload): Record {
    var digest := sha(RowContent(row));
    Record(resource, NaturalOf(session, row),
           sha(RecordIdentity(resource, NaturalOf(session, row), digest)), row, digest)
  }

  function RecordsOf(sha: Hash, session: Session, resource: Resource, rows: seq<Payload>): (s: seq<Record>)
    ensures |s| == |rows|
  {
    seq(|rows|, i requires 0 <= i < |rows| => RecordOf(sha, session, resource, rows[i]))
  }

  function SortedRows(resource: Resource, rows: seq<Payload>): seq<Payload> {
    Sort(rows, ByKey(SortKey(resource)))
  }

  function Digests(records: seq<Record>): (s: seq<Digest>)
    ensures |s| == |records|
  {
    seq(|records|, i requires 0 <= i < |records| => records[i].payloadDigest)
  }

  function EventIds(records: seq<Record>): (s: seq<EventId>)
    ensures |s| == |records|
  {
    seq(|records|, i requires 0 <= i < |records| => records[i].eventId)
  }

  /** A message for each record that has no outbox row yet, with its ordinal. */
  function RecordMessages(
    sha: Hash, session: Session, w: WindowId, records: seq<Record>, announced: set<EventId>, observed: Utc
  ): seq<Message> {
    if records == [] then []
    else
      var n := |records| - 1;
      var r := records[n];
      var digest := sha(RecordMessage(n, r.payload, w));
      RecordMessages(sha, session, w, records[..n], announced, observed)
      + (if r.eventId in announced then []
         else [Message(r.eventId, w, session.journalProfileId, session.streamKey,
                       Decoded(TypeOf(r.resource),
                               sha(EnvelopeContent(r.eventId, digest, session.producer, observed))),
                       digest)])
  }

  function Marker(sha: Hash, session: Session, window: Window, observed: Utc): Message {
    var e := sha(MarkerIdentity(window.id, window.windowDigest));
    Message(e, window.id, session.journalProfileId, session.streamKey,
            Decoded(HistoryWindow, sha(EnvelopeContent(e, window.windowDigest, session.producer, observed))),
            window.windowDigest)
  }

  function WindowOf(
    sha: Hash, session: Session, policy: Policy, expected: Checkpoint, startRaw: int, endRaw: int,
    deals: seq<Record>, orders: seq<Record>, revision: int, supersedes: Option<WindowId>, observed: Utc
  ): Window {
    var id := sha(WindowIdentity(
      session.journalProfileId, expected.generation, startRaw, endRaw, policy.version, revision));
    var dealDigest, orderDigest := sha(DigestList(Digests(deals))), sha(DigestList(Digests(orders)));
    var payload := WindowPayload(
      |deals|, dealDigest, endRaw, |orders|, orderDigest, EventIds(deals + orders), startRaw, supersedes, id, revision);
    Window(id, session.journalProfileId, expected.generation, revision, startRaw, endRaw, policy.version,
           |deals|, |orders|, dealDigest, orderDigest, sha(WindowContent(payload)), observed)
  }

  predicate UniqueRecords(records: seq<Record>) {
    forall i, j | 0 <= i < j < |records| :: records[i].eventId != records[j].eventId
  }

  /** The checks of the committed-window input that its own fields can fail. */
  predicate Constructible(input: Input) {
    && input.lowerBound >= 0
    && input.expected.profileId == input.window.profileId
    && input.expected.policy == input.window.policy
    && input.window.startRaw < input.window.endRaw
    && UniqueRecords(input.records)
    && UniqueEventIds(input.messages)
  }

  function Assembled(
    sha: Hash, session: Session, policy: Policy, announced: set<EventId>, expected: Checkpoint,
    startRaw: int, endRaw: int, dealRows: seq<Payload>, orderRows: seq<Payload>,
    revision: int, supersedes: Option<WindowId>, observed: Utc
  ): Input {
    var deals := RecordsOf(sha, session, Deal, SortedRows(Deal, dealRows));
    var orders := RecordsOf(sha, session, Order, SortedRows(Order, orderRows));
    var window := WindowOf(sha, session, policy, expected, startRaw, endRaw, deals, orders, revision, supersedes, observed);
    Input(expected, session.lowerBound, window, deals + orders,
          RecordMessages(sha, session, window.id, deals, announced, observed)
          + RecordMessages(sha, session, window.id, orders, announced, observed)
          + [Marker(sha, session, window, observed)],
          supersedes)
  }

  function BuildInput(
    sha: Hash, session: Session, policy: Policy, announced: set<EventId>, expected: Checkpoint,
    startRaw: int, endRaw: int, dealRows: seq<Payload>, orderRows: seq<Payload>,
    revision: int, supersedes: Option<WindowId>, observed: Utc
  ): Result<Input>
  {
    if !(AllSortable(dealRows, Deal) && AllSortable(orderRows, Order))
    then Failure(ValueError)
    else
      var input := Assembled(sha, session, policy, announced, expected, startRaw, endRaw, dealRows, orderRows,
                             revision, supersedes, observed);
      if Constructible(input) then Success(input) else Failure(ValueError)
  }

  // ---------------------------------------------------------------------
  // Planning
  // ---------------------------------------------------------------------

  function ExpectedCheckpoint(session: Session, policy: Policy, checkpoint: Option<Checkpoint>, observed: Utc)
    : Result<Checkpoint>
  {
    match checkpoint
    case None =>
      Success(Checkpoint(session.journalProfileId, 1, session.lowerBound, None, policy.version, observed))
    case Some(c) =>
      if c.profileId != session.journalProfileId || c.policy != policy.version then Failure(ValueError)
      else if c.next < session.lowerBound then Success(c.(next := session.lowerBound, lastWindow := None))
      else Success(c)
  }

  /** A stored window, with the policy version of its profile's checkpoint. */
  function GetWindow(db: Db, id: WindowId): Option<Window> {
    if id in db.windows && db.windows[id].window.profileId in db.checkpoints
    then Some(db.windows[id].window.(policy := db.checkpoints[db.windows[id].window.profileId].policy))
    else None
  }

  function NextWindowSpan(policy: Policy, db: Db, expected: Checkpoint): int {
    if policy.emptyWindow == None then policy.maximumWindow
    else if expected.lastWindow == None then policy.emptyWindow.value
    else
      match GetWindow(db, expected.lastWindow.value)
      case None => policy.maximumWindow
      case Some(prior) =>
        if prior.dealCount == 0 && prior.orderCount == 0 then policy.emptyWindow.value else policy.maximumWindow
  }

  function StartRaw(session: Session, policy: Policy, checkpoint: Option<Checkpoint>, expected: Checkpoint): int {
    if checkpoint.Some? && checkpoint.value.lastWindow.Some?
    then Max(session.lowerBound, expected.next - policy.overlap)
    else expected.next
  }

  /** The range of the next window. */
  datatype Plan = Plan(expected: Checkpoint, startRaw: int, endRaw: int)

  function NextPlan(session: Session, policy: Policy, db: Db, checkpoint: Option<Checkpoint>, safeEnd: int, observed: Utc)
    : Result<Plan>
  {
    var expected :- ExpectedCheckpoint(session, policy, checkpoint, observed);
    var start := StartRaw(session, policy, checkpoint, expected);
    Success(Plan(expected, start, Min(safeEnd, start + NextWindowSpan(policy, db, expected))))
  }

  /**
    What one poll of the terminal and the clock delivers: whether the terminal is
    identified before the reads and still before the commit, and whether the safe
    end is known.
   */
  datatype Reading = Reading(
    identified: bool, stillIdentified: bool, safeEndKnown: bool, safeEnd: int,
    deals: (int, int) -> CallResult, orders: (int, int) -> CallResult, observed: Utc)

  /** A window from two answers of the adapter, or why there is none. */
  function BuildWindow(
    sha: Hash, session: Session, policy: Policy, announced: set<EventId>, expected: Checkpoint,
    startRaw: int, endRaw: int, deals: CallResult, orders: CallResult,
    revision: int, supersedes: Option<WindowId>, observed: Utc
  ): (Result<Input>, Reason)
  {
    if deals.FAILED? then (Failure(RuntimeError), DEALS_FAILED)
    else if orders.FAILED? then (Failure(RuntimeError), ORDERS_FAILED)
    else
      var dealRows := HalfOpenRows(deals.rows, startRaw, endRaw, BoundaryField(Deal));
      var orderRows := HalfOpenRows(orders.rows, startRaw, endRaw, BoundaryField(Order));
      if dealRows.Failure? || orderRows.Failure? then (Failure(ValueError), VALIDATION_FAILED)
      else
        (BuildInput(sha, session, policy, announced, expected, startRaw, endRaw, dealRows.value, orderRows.value,
                    revision, supersedes, observed), VALIDATION_FAILED)
  }

  /** Reads a range and builds its window. */
  function ReadWindow(
    sha: Hash, session: Session, policy: Policy, announced: set<EventId>, expected: Checkpoint,
    startRaw: int, endRaw: int, reading: Reading, revision: int, supersedes: Option<WindowId>
  ): (Result<Input>, Reason)
  {
    if !reading.identified then (Failure(RuntimeError), VALIDATION_FAILED)
    else
      BuildWindow(sha, session, policy, announced, expected, startRaw, endRaw, reading.deals(startRaw, endRaw),
                  reading.orders(startRaw, endRaw), revision, supersedes, reading.observed)
  }

  ghost function CommitInput(db: Db, input: Input): (Db, Outcome) {
    match Commit(db, input.expected, input.window, input.records, input.messages, Forward(input.lowerBound, true))
    case Failure(error) => (db, Caught(error))
    case Success(after) => (after, Committed(input.window, Advanced(input.expected, input.window)))
  }

  /** run_next_window: the tables after it, and what it reports. */
  ghost function RunNextWindow(
    sha: Hash, session: Session, policy: Policy, db: Db, checkpoint: Option<Checkpoint>, reading: Reading
  ): (Db, Outcome)
  {
    match NextPlan(session, policy, db, checkpoint, reading.safeEnd, reading.observed)
    case Failure(error) => (db, Caught(error))
    case Success(plan) =>
      if !reading.safeEndKnown then (db, Aborted(VALIDATION_FAILED))
      else if plan.endRaw <= plan.startRaw then (db, Idle)
      else
        var built := ReadWindow(sha, session, policy, db.outbox.Keys, plan.expected, plan.startRaw, plan.endRaw,
                                reading, 1, None);
        if built.0.Failure? then (db, Aborted(built.1))
        else if !reading.stillIdentified then (db, Aborted(VALIDATION_FAILED))
        else CommitInput(db, built.0.value)
  }

  predicate SameContent(prior: Window, candidate: Window) {
    && prior.dealCount == candidate.dealCount
    && prior.orderCount == candidate.orderCount
    && prior.dealDigest == candidate.dealDigest
    && prior.orderDigest == candidate.orderDigest
    && prior.windowDigest == candidate.windowDigest
  }

  function NextRevision(prior: Window): int {
    prior.revision + 1
  }

  function PriorCheckpoint(prior: Window): Checkpoint {
    Checkpoint(prior.profileId, prior.generation, prior.startRaw, None, prior.policy, prior.committedAt)
  }

  ghost function CommitRevision(db: Db, input: Input): (Db, Outcome) {
    match Commit(db, input.expected, input.window, input.records, input.messages, Reconcile(input.supersedes))
    case Failure(error) => (db, Caught(error))
    case Success(after) => (after, Reconciled(input.window))
  }

  /** A revision of a window whose content changed. */
  ghost function Revise(
    sha: Hash, session: Session, policy: Policy, db: Db, prior: Window, reading: Reading
  ): (Db, Outcome) {
    var revised := ReadWindow(sha, session, policy, db.outbox.Keys, PriorCheckpoint(prior),
                              prior.startRaw, prior.endRaw, reading, NextRevision(prior), Some(prior.id));
    if revised.0.Failure? then (db, Aborted(revised.1))
    else if !reading.stillIdentified then (db, Aborted(VALIDATION_FAILED))
    else CommitRevision(db, revised.0.value)
  }

  /** reconcile: re-reads a stored window and, when it changed, commits a revision. */
  ghost function ReconcileWindow(
    sha: Hash, session: Session, policy: Policy, db: Db, id: WindowId, reading: Reading
  ): (Db, Outcome)
  {
    match GetWindow(db, id)
    case None => (db, Aborted(WINDOW_MISSING))
    case Some(prior) =>
      if prior.profileId != session.journalProfileId then (db, Aborted(PROFILE_MISMATCH))
      else
        var candidate := ReadWindow(sha, session, policy, db.outbox.Keys, PriorCheckpoint(prior),
                                    prior.startRaw, prior.endRaw, reading, prior.revision, None);
        if candidate.0.Failure? then (db, Aborted(candidate.1))
        else if SameContent(prior, candidate.0.value.window) then (db, Unchanged(prior))
        else Revise(sha, session, policy, db, prior, reading)
  }

  class Synchronizer {
    const sha: Hash
    const repository: JournalRepository.Repository
    const policy: Policy

    constructor (sha: Hash, repository: JournalRepository.Repository, policy: Policy)
      requires policy.Valid()
      ensures this.sha == sha && this.repository == repository && this.policy == policy
    {
      this.sha, this.repository, this.policy := sha, repository, policy;
    }

    method CommitForward(input: Input) returns (outcome: Outcome)
      requires repository.Valid()
      modifies repository
      ensures repository.Valid()
      ensures repository.State() == CommitInput(old(repository.State()), input).0
      ensures outcome == CommitInput(old(repository.State()), input).1
    {
      var r := repository.CommitWindow(
        input.expected, input.lowerBound, input.window, input.records, input.messages);
      outcome := if r.Success? then Committed(input.window, r.value) else Caught(r.error);
    }

    method CommitRevised(input: Input) returns (outcome: Outcome)
      requires repository.Valid()
      modifies repository
      ensures repository.Valid()
      ensures repository.State() == CommitRevision(old(repository.State()), input).0
      ensures outcome == CommitRevision(old(repository.State()), input).1
    {
      var r := repository.CommitReconciliation(
        input.expected, input.window, input.records, input.messages, input.supersedes);
      outcome := if r.Success? then Reconciled(input.window) else Caught(r.error);
    }

    /** One forward window: plan, read, build, commit. */
    method RunNext(session: Session, checkpoint: Option<Checkpoint>, reading: Reading) returns (outcome: Outcome)
      requires repository.Valid()
      modifies repository
      ensures repository.Valid()
      ensures repository.State() == RunNextWindow(sha, session, policy, old(repository.State()), checkpoint, reading).0
      ensures outcome == RunNextWindow(sha, session, policy, old(repository.State()), checkpoint, reading).1
    {
      var db := repository.State();
      var expected := ExpectedCheckpoint(session, policy, checkpoint, reading.observed);
      if expected.Failure? {
        return Caught(expected.error);
      }
      var start := StartRaw(session, policy, checkpoint, expected.value);
      var end := Min(reading.safeEnd, start + NextWindowSpan(policy, db, expected.value));
      assert NextPlan(session, policy, db, checkpoint, reading.safeEnd, reading.observed)
             == Success(Plan(expected.value, start, end));
      if !reading.safeEndKnown {
        return Aborted(VALIDATION_FAILED);
      }
      if end <= start {
        return Idle;
      }
      var built := ReadWindow(sha, session, policy, repository.outbox.Keys, expected.value, start, end, reading, 1, None);
      if built.0.Failure? {
        return Aborted(built.1);
      }
      if !reading.stillIdentified {
        return Aborted(VALIDATION_FAILED);
      }
      outcome := CommitForward(built.0.value);
    }

    method ReviseWindow(session: Session, prior: Window, reading: Reading) returns (outcome: Outcome)
      requires repository.Valid()
      modifies repository
      ensures repository.Valid()
      ensures repository.State() == Revise(sha, session, policy, old(repository.State()), prior, reading).0
      ensures outcome == Revise(sha, session, policy, old(repository.State()), prior, reading).1
    {
      var revised := ReadWindow(sha, session, policy, repository.outbox.Keys, PriorCheckpoint(prior),
                                prior.startRaw, prior.endRaw, reading, NextRevision(prior), Some(prior.id));
      if revised.0.Failure? {
        return Aborted(revised.1);
      }
      if !reading.stillIdentified {
        return Aborted(VALIDATION_FAILED);
      }
      outcome := CommitRevised(revised.0.value);
    }

    /** Re-reads a stored window and commits a revision when its content changed. */
    method Reconcile(session: Session, id: WindowId, reading: Reading) returns (outcome: Outcome)
      requires repository.Valid()
      modifies repository
      ensures repository.Valid()
      ensures repository.State() == ReconcileWindow(sha, session, policy, old(repository.State()), id, reading).0
      ensures outcome == ReconcileWindow(sha, session, policy, old(repository.State()), id, reading).1
    {
      var found := GetWindow(repository.State(), id);
      if found.None? {
        return Aborted(WINDOW_MISSING);
      }
      var prior := found.value;
      if prior.profileId != session.journalProfileId {
        return Aborted(PROFILE_MISMATCH);
      }
      var candidate := ReadWindow(sha, session, policy, repository.outbox.Keys, PriorCheckpoint(prior),
                                  prior.startRaw, prior.endRaw, reading, prior.revision, None);
      if candidate.0.Failure? {
        return Aborted(candidate.1);
      }
      if SameContent(prior, candidate.0.value.window) {
        return Unchanged(prior);
      }
      outcome := ReviseWindow(session, prior, reading);
    }
  }
}
