/**
  The tables of the bridge journal and, for each transaction of the repository,
  the relation between the tables before and after it.
  UTC timestamps are integer milliseconds.
 */
module JournalModel {
  import opened Wrappers
  import opened Canonical
  import opened Sequences

  datatype MessageType = HistoryDeal | HistoryOrder | HistoryWindow | OtherType(name: string)

  /** Envelope bytes: JSON that declares a message type, or bytes that do not. */
  datatype Envelope = Decoded(messageType: MessageType, body: nat) | Undecodable(bytes: nat)

  datatype Checkpoint = Checkpoint(
    profileId: ProfileId, generation: int, next: int,
    lastWindow: Option<WindowId>, policy: int, updatedAt: Utc)

  datatype Window = Window(
    id: WindowId, profileId: ProfileId, generation: int, revision: int,
    startRaw: int, endRaw: int, policy: int, dealCount: int, orderCount: int,
    dealDigest: Digest, orderDigest: Digest, windowDigest: Digest, committedAt: Utc)

  datatype WindowState = COMMITTED | SUPERSEDED

  datatype StoredWindow = StoredWindow(window: Window, state: WindowState)

  datatype Record = Record(
    resource: Resource, naturalId: NaturalId, eventId: EventId, payload: Payload, payloadDigest: Digest)

  /** A row of history_record_versions. Its primary key is the event id. */
  datatype Version = Version(profileId: ProfileId, record: Record, correctionOf: Option<EventId>)

  /** The primary key of history_window_records. */
  datatype Slot = Slot(windowId: WindowId, resource: Resource, ordinal: nat)

  datatype Message = Message(
    eventId: EventId, windowId: WindowId, profileId: ProfileId,
    streamKey: string, envelope: Envelope, payloadDigest: Digest)

  datatype OutboxState = PENDING | INFLIGHT | PUBLISHED | QUARANTINED

  datatype Row = Row(
    windowId: WindowId, profileId: ProfileId, streamKey: string, envelope: Envelope,
    payloadDigest: Digest, state: OutboxState, attempts: nat, nextAttemptAt: Utc,
    claimedBy: Option<string>, claimExpiresAt: Utc, publishedAt: Utc, entryId: nat,
    failures: nat, quarantinedAt: Option<Utc>, lastError: string)

  type Outbox = map<EventId, Row>

  datatype Db = Db(
    checkpoints: map<ProfileId, Checkpoint>,
    windows: map<WindowId, StoredWindow>,
    versions: seq<Version>,
    members: map<Slot, EventId>,
    outbox: Outbox,
    sequences: map<ProfileId, int>)

  const EMPTY := Db(map[], map[], [], map[], map[], map[])

  function TypeOf(resource: Resource): MessageType {
    match resource
    case Deal => HistoryDeal
    case Order => HistoryOrder
  }

  predicate IsRecordType(t: MessageType) {
    t == HistoryDeal || t == HistoryOrder
  }

  predicate IsMarker(envelope: Envelope) {
    envelope.Decoded? && envelope.messageType == HistoryWindow
  }

  /** Every stored envelope was validated when it was inserted. */
  predicate Decodable(outbox: Outbox) {
    forall e | e in outbox :: outbox[e].envelope.Decoded?
  }

  function CheckpointOf(db: Db, profileId: ProfileId): Option<Checkpoint> {
    if profileId in db.checkpoints then Some(db.checkpoints[profileId]) else None
  }

  // ---------------------------------------------------------------------
  // Committing a window
  // ---------------------------------------------------------------------

  datatype CommitMode =
    | Forward(lowerBound: int, allowInitial: bool)
    | Reconcile(prior: Option<WindowId>)

  predicate Matches(actual: Option<Checkpoint>, expected: Checkpoint, lowerBound: int) {
    match actual
    case None =>
      expected.generation == 1 && expected.next == lowerBound && expected.lastWindow == None
    case Some(a) =>
      && a.generation == expected.generation
      && a.next == expected.next
      && a.lastWindow == expected.lastWindow
      && a.policy == expected.policy
  }

  function CountOf(records: seq<Record>, resource: Resource): (n: nat)
    ensures n <= |records|
  {
    if records == [] then 0
    else CountOf(records[..|records| - 1], resource)
         + (if records[|records| - 1].resource == resource then 1 else 0)
  }

  predicate UniqueEventIds(outbox: seq<Message>) {
    forall i, j | 0 <= i < j < |outbox| :: outbox[i].eventId != outbox[j].eventId
  }

  ghost predicate OneMarker(w: Window, outbox: seq<Message>) {
    exists i | 0 <= i < |outbox| ::
      && IsMarker(outbox[i].envelope)
      && outbox[i].payloadDigest == w.windowDigest
      && forall j | 0 <= j < |outbox| && j != i :: !IsMarker(outbox[j].envelope)
  }

  ghost predicate Announced(record: Record, outbox: seq<Message>) {
    exists m | m in outbox :: m.eventId == record.eventId
  }

  /** A record is covered by a message of its own type, new or already stored. */
  ghost predicate CoveredRecord(stored: Outbox, w: Window, record: Record, outbox: seq<Message>) {
    && (forall m | m in outbox && m.eventId == record.eventId ::
          m.envelope.Decoded? && m.envelope.messageType == TypeOf(record.resource))
    && (!Announced(record, outbox) ==>
          && record.eventId in stored
          && stored[record.eventId].profileId == w.profileId
          && stored[record.eventId].envelope.Decoded?
          && stored[record.eventId].envelope.messageType == TypeOf(record.resource))
  }

  /** A record message announces one of the records. */
  ghost predicate Backed(records: seq<Record>, m: Message) {
    m.envelope.Decoded? && IsRecordType(m.envelope.messageType) ==>
      exists r | r in records :: r.eventId == m.eventId
  }

  ghost predicate OutboxCovers(stored: Outbox, w: Window, records: seq<Record>, outbox: seq<Message>) {
    && (forall m | m in outbox ::
          m.windowId == w.id && m.profileId == w.profileId && m.envelope.Decoded?)
    && UniqueEventIds(outbox)
    && OneMarker(w, outbox)
    && (forall m {:trigger Backed(records, m)} | m in outbox :: Backed(records, m))
    && (forall r | r in records :: CoveredRecord(stored, w, r, outbox))
    && CountOf(records, Deal) == w.dealCount
    && CountOf(records, Order) == w.orderCount
  }

  predicate Plausible(expected: Checkpoint, w: Window, mode: CommitMode) {
    && expected.profileId == w.profileId
    && expected.generation == w.generation
    && expected.policy == w.policy
    && (mode.Forward? ==> w.startRaw <= expected.next)
    && w.startRaw < w.endRaw
  }

  predicate PriorMatches(windows: map<WindowId, StoredWindow>, prior: WindowId, w: Window) {
    && prior in windows
    && windows[prior].state == COMMITTED
    && var p := windows[prior].window;
       && p.profileId == w.profileId
       && p.generation == w.generation
       && p.startRaw == w.startRaw
       && p.endRaw == w.endRaw
       && p.revision == w.revision - 1
  }

  predicate SameRevision(v: Window, w: Window) {
    && v.profileId == w.profileId
    && v.generation == w.generation
    && v.startRaw == w.startRaw
    && v.endRaw == w.endRaw
    && v.revision == w.revision
  }

  /** The primary key and the uniqueness constraint of history_windows. */
  predicate Insertable(windows: map<WindowId, StoredWindow>, w: Window) {
    && w.id !in windows
    && forall o | o in windows :: !SameRevision(windows[o].window, w)
  }

  predicate SameRecord(v: Version, profileId: ProfileId, r: Record) {
    v.profileId == profileId && v.record.resource == r.resource && v.record.naturalId == r.naturalId
  }

  /** The latest stored version of a record, by any digest or by this digest. */
  function LatestVersion(versions: seq<Version>, profileId: ProfileId, r: Record, exact: bool): (v: Option<EventId>)
    ensures v.Some? ==> exists i | 0 <= i < |versions| :: versions[i].record.eventId == v.value
  {
    if versions == [] then None
    else
      var last := versions[|versions| - 1];
      if SameRecord(last, profileId, r) && (exact ==> last.record.payloadDigest == r.payloadDigest)
      then Some(last.record.eventId)
      else LatestVersion(versions[..|versions| - 1], profileId, r, exact)
  }

  datatype Ledger = Ledger(versions: seq<Version>, members: map<Slot, EventId>)

  predicate HasVersion(versions: seq<Version>, e: EventId) {
    exists i | 0 <= i < |versions| :: versions[i].record.eventId == e
  }

  predicate HasMember(members: map<Slot, EventId>, w: WindowId, e: EventId) {
    exists s | s in members :: s.windowId == w && members[s] == e
  }

  /** One record of a window: reuse or insert its version, then link it. */
  function AddRecord(ledger: Ledger, w: Window, r: Record, ordinal: nat): (next: Result<Ledger>)
    ensures next.Failure? ==> next.error == IntegrityError
  {
    var slot := Slot(w.id, r.resource, ordinal);
    match LatestVersion(ledger.versions, w.profileId, r, true)
    case Some(v) =>
      if slot in ledger.members || HasMember(ledger.members, w.id, v) then Failure(IntegrityError)
      else Success(Ledger(ledger.versions, ledger.members[slot := v]))
    case None =>
      if HasVersion(ledger.versions, r.eventId) then Failure(IntegrityError)
      else
        var version := Version(w.profileId, r, LatestVersion(ledger.versions, w.profileId, r, false));
        if slot in ledger.members || HasMember(ledger.members, w.id, r.eventId) then Failure(IntegrityError)
        else Success(Ledger(ledger.versions + [version], ledger.members[slot := r.eventId]))
  }

  function AddRecords(ledger: Ledger, w: Window, records: seq<Record>): (next: Result<Ledger>)
    ensures next.Failure? ==> next.error == IntegrityError
  {
    if records == [] then Success(ledger)
    else
      var n := |records| - 1;
      var before :- AddRecords(ledger, w, records[..n]);
      AddRecord(before, w, records[n], CountOf(records[..n], records[n].resource))
  }

  predicate SameMessage(row: Row, m: Message) {
    && row.profileId == m.profileId
    && row.streamKey == m.streamKey
    && row.envelope == m.envelope
    && row.payloadDigest == m.payloadDigest
  }

  ghost predicate Conflicting(stored: Outbox, outbox: seq<Message>) {
    exists k | 0 <= k < |outbox| ::
      outbox[k].eventId in stored && !SameMessage(stored[outbox[k].eventId], outbox[k])
  }

  function NewRow(m: Message, now: Utc): Row {
    Row(m.windowId, m.profileId, m.streamKey, m.envelope, m.payloadDigest, PENDING, 0, now,
        None, 0, 0, 0, 0, None, "")
  }

  function Enqueue(stored: Outbox, outbox: seq<Message>, now: Utc): Outbox {
    if outbox == [] then stored
    else
      var n := |outbox| - 1;
      var before := Enqueue(stored, outbox[..n], now);
      if outbox[n].eventId in before then before
      else before[outbox[n].eventId := NewRow(outbox[n], now)]
  }

  lemma {:induction false} EnqueueKeeps(stored: Outbox, outbox: seq<Message>, now: Utc, e: EventId)
    ensures e in stored ==> e in Enqueue(stored, outbox, now) && Enqueue(stored, outbox, now)[e] == stored[e]
  {
    if outbox != [] {
      EnqueueKeeps(stored, outbox[..|outbox| - 1], now, e);
    }
  }

  lemma {:induction false} EnqueueAdds(stored: Outbox, outbox: seq<Message>, now: Utc, k: nat)
    requires UniqueEventIds(outbox) && k < |outbox|
    ensures outbox[k].eventId in Enqueue(stored, outbox, now)
    ensures outbox[k].eventId !in stored ==> Enqueue(stored, outbox, now)[outbox[k].eventId] == NewRow(outbox[k], now)
  {
    var n := |outbox| - 1;
    if k < n {
      EnqueueAdds(stored, outbox[..n], now, k);
    } else if outbox[n].eventId !in stored && outbox[n].eventId in Enqueue(stored, outbox[..n], now) {
      EnqueueAddsOnly(stored, outbox[..n], now, outbox[n].eventId);
    }
  }

  lemma {:induction false} EnqueueAddsOnly(stored: Outbox, outbox: seq<Message>, now: Utc, e: EventId)
    requires e in Enqueue(stored, outbox, now) && e !in stored
    ensures exists k | 0 <= k < |outbox| :: outbox[k].eventId == e
  {
    var n := |outbox| - 1;
    if e != outbox[n].eventId {
      EnqueueAddsOnly(stored, outbox[..n], now, e);
      var k :| 0 <= k < n && outbox[..n][k].eventId == e;
      assert outbox[k].eventId == e;
    }
  }

  /** Stored rows stay, and every message without one gets a PENDING row of its own. */
  lemma {:induction false} EnqueueKeepsAndAdds(stored: Outbox, outbox: seq<Message>, now: Utc)
    requires UniqueEventIds(outbox)
    ensures var after := Enqueue(stored, outbox, now);
            && (forall e | e in stored :: e in after && after[e] == stored[e])
            && (forall k | 0 <= k < |outbox| ::
                  && outbox[k].eventId in after
                  && (outbox[k].eventId !in stored ==> after[outbox[k].eventId] == NewRow(outbox[k], now)))
            && (forall e | e in after && e !in stored :: exists k | 0 <= k < |outbox| :: outbox[k].eventId == e)
  {
    var after := Enqueue(stored, outbox, now);
    forall e | e in stored ensures e in after && after[e] == stored[e] {
      EnqueueKeeps(stored, outbox, now, e);
    }
    forall k | 0 <= k < |outbox|
      ensures outbox[k].eventId in after
      ensures outbox[k].eventId !in stored ==> after[outbox[k].eventId] == NewRow(outbox[k], now)
    {
      EnqueueAdds(stored, outbox, now, k);
    }
    forall e | e in after && e !in stored ensures exists k | 0 <= k < |outbox| :: outbox[k].eventId == e {
      EnqueueAddsOnly(stored, outbox, now, e);
    }
  }

  function Advanced(expected: Checkpoint, w: Window): Checkpoint {
    Checkpoint(
      w.profileId, w.generation, if expected.next < w.endRaw then w.endRaw else expected.next,
      Some(w.id), w.policy, w.committedAt)
  }

  /** What the commit transaction decides before it writes anything. */
  ghost function Admit(
    db: Db, expected: Checkpoint, w: Window, records: seq<Record>, outbox: seq<Message>, mode: CommitMode
  ): Option<Error> {
    if !Plausible(expected, w, mode) then Some(ValueError)
    else if !OutboxCovers(db.outbox, w, records, outbox) then Some(ValueError)
    else if mode.Forward? && CheckpointOf(db, w.profileId) == None && !mode.allowInitial then Some(CheckpointConflict)
    else if mode.Forward? && !Matches(CheckpointOf(db, w.profileId), expected, mode.lowerBound) then Some(CheckpointConflict)
    else if mode.Reconcile? && (mode.prior == None || !PriorMatches(db.windows, mode.prior.value, w)) then Some(ValueError)
    else if !Insertable(db.windows, w) then Some(IntegrityError)
    else None
  }

  function WithWindow(windows: map<WindowId, StoredWindow>, w: Window, mode: CommitMode): map<WindowId, StoredWindow> {
    var inserted := windows[w.id := StoredWindow(w, COMMITTED)];
    if mode.Reconcile? && mode.prior.Some? && mode.prior.value in inserted
    then inserted[mode.prior.value := inserted[mode.prior.value].(state := SUPERSEDED)]
    else inserted
  }

  /** What an admitted commit writes, or the constraint it violates. */
  ghost function Write(
    db: Db, expected: Checkpoint, w: Window, records: seq<Record>, outbox: seq<Message>, mode: CommitMode
  ): Result<Db> {
    var ledger :- AddRecords(Ledger(db.versions, db.members), w, records);
    if Conflicting(db.outbox, outbox) then Failure(ValueError)
    else
      Success(Db(
        if mode.Forward? then db.checkpoints[w.profileId := Advanced(expected, w)] else db.checkpoints,
        WithWindow(db.windows, w, mode),
        ledger.versions,
        ledger.members,
        Enqueue(db.outbox, outbox, w.committedAt),
        db.sequences))
  }

  /** The whole commit transaction: the next tables, or the error after rollback. */
  ghost function Commit(
    db: Db, expected: Checkpoint, w: Window, records: seq<Record>, outbox: seq<Message>, mode: CommitMode
  ): Result<Db> {
    match Admit(db, expected, w, records, outbox, mode)
    case Some(error) => Failure(error)
    case None => Write(db, expected, w, records, outbox, mode)
  }

  // ---------------------------------------------------------------------
  // Raising the lower bound
  // ---------------------------------------------------------------------

  ghost predicate Unresolved(row: Row) {
    row.state == PENDING || row.state == INFLIGHT || row.state == QUARANTINED
  }

  ghost predicate PreBound(db: Db, profileId: ProfileId, bound: int, id: WindowId) {
    && id in db.windows
    && db.windows[id].window.profileId == profileId
    && db.windows[id].window.startRaw < bound
  }

  /** No window crosses the bound, those before it are empty, and no record awaits delivery. */
  ghost predicate Recoverable(db: Db, profileId: ProfileId, bound: int) {
    && (forall id | PreBound(db, profileId, bound, id) ::
          var w := db.windows[id].window;
          w.endRaw <= bound && w.dealCount == 0 && w.orderCount == 0)
    && (forall e | e in db.outbox && db.outbox[e].profileId == profileId && Unresolved(db.outbox[e]) ::
          db.outbox[e].envelope.Decoded? && !IsRecordType(db.outbox[e].envelope.messageType))
  }

  ghost function Recover(db: Db, profileId: ProfileId, bound: int, now: Utc): Result<Db> {
    match CheckpointOf(db, profileId)
    case None => Success(db)
    case Some(c) =>
      if bound <= c.next then Success(db)
      else if !Recoverable(db, profileId, bound) then Failure(RuntimeError)
      else Success(db.(checkpoints := db.checkpoints[profileId :=
        c.(next := bound, lastWindow := None, updatedAt := now)]))
  }

  /** The same, from the checkpoint as it was read before the transaction began, for a journal with a backup path. */
  ghost function RecoverSeen(
    db: Db, profileId: ProfileId, bound: int, seen: Option<Checkpoint>, hasPath: bool, now: Utc): Result<Db>
  {
    if seen.None? || bound <= seen.value.next then Success(db)
    else if !hasPath then Failure(RuntimeError)
    else if CheckpointOf(db, profileId) != seen then Failure(CheckpointConflict)
    else Recover(db, profileId, bound, now)
  }

  // ---------------------------------------------------------------------
  // The outbox
  // ---------------------------------------------------------------------

  datatype Claimed = Claimed(
    eventId: EventId, windowId: WindowId, profileId: ProfileId, streamKey: string,
    envelope: Envelope, payloadDigest: Digest, attempts: nat, claimExpiresAt: Utc)

  predicate IsDue(row: Row, now: Utc) {
    || (row.state == PENDING && row.nextAttemptAt <= now)
    || (row.state == INFLIGHT && row.claimExpiresAt <= now)
  }

  function Due(outbox: Outbox, now: Utc): set<EventId> {
    set e | e in outbox && IsDue(outbox[e], now)
  }

  /** Another row of the same window that has not been published. */
  predicate HasBlockingSibling(outbox: Outbox, windowId: WindowId, eventId: EventId) {
    exists x | x in outbox ::
      outbox[x].windowId == windowId && x != eventId && outbox[x].state != PUBLISHED
  }

  predicate Blocked(outbox: Outbox, e: EventId)
    requires e in outbox
  {
    IsMarker(outbox[e].envelope) && HasBlockingSibling(outbox, outbox[e].windowId, e)
  }

  /** ORDER BY next_attempt_at_utc, event_id. */
  predicate Earlier(outbox: Outbox, a: EventId, b: EventId)
    requires a in outbox && b in outbox
  {
    || outbox[a].nextAttemptAt < outbox[b].nextAttemptAt
    || (outbox[a].nextAttemptAt == outbox[b].nextAttemptAt && a <= b)
  }

  predicate IsEarliest(outbox: Outbox, ids: set<EventId>, m: EventId)
    requires ids <= outbox.Keys
  {
    m in ids && forall x | x in ids :: Earlier(outbox, m, x)
  }

  lemma {:induction false} EarliestExists(outbox: Outbox, ids: set<EventId>)
    requires ids <= outbox.Keys && ids != {}
    ensures exists m :: IsEarliest(outbox, ids, m)
    decreases ids
  {
    var a :| a in ids;
    var rest := ids - {a};
    if rest == {} {
      assert ids == {a};
      assert IsEarliest(outbox, ids, a);
    } else {
      EarliestExists(outbox, rest);
      var first :| IsEarliest(outbox, rest, first);
      EarlierOfTwo(outbox, rest, first, a);
      assert IsEarliest(outbox, ids, if Earlier(outbox, a, first) then a else first);
    }
  }

  lemma EarlierOfTwo(outbox: Outbox, rest: set<EventId>, first: EventId, a: EventId)
    requires rest <= outbox.Keys && IsEarliest(outbox, rest, first) && a in outbox
    ensures if Earlier(outbox, a, first) then forall x | x in rest :: Earlier(outbox, a, x) else Earlier(outbox, first, a)
  {
  }

  function Earliest(outbox: Outbox, ids: set<EventId>): (m: EventId)
    requires ids <= outbox.Keys && ids != {}
    ensures m in ids && forall x | x in ids :: Earlier(outbox, m, x)
  {
    EarliestExists(outbox, ids);
    var m :| IsEarliest(outbox, ids, m);
    m
  }

  /** The rows with the given ids, as the ORDER BY clause lists them. */
  function InOrder(outbox: Outbox, ids: set<EventId>): (s: seq<EventId>)
    requires ids <= outbox.Keys
    ensures |s| == |ids|
    ensures forall e | e in s :: e in ids
    decreases ids
  {
    if ids == {} then []
    else
      var m := Earliest(outbox, ids);
      [m] + InOrder(outbox, ids - {m})
  }

  lemma {:induction false} InOrderComplete(outbox: Outbox, ids: set<EventId>)
    requires ids <= outbox.Keys
    ensures forall e | e in ids :: e in InOrder(outbox, ids)
    decreases ids
  {
    if ids != {} {
      InOrderComplete(outbox, ids - {Earliest(outbox, ids)});
    }
  }

  function Unblocked(outbox: Outbox, ids: seq<EventId>): (s: seq<EventId>)
    requires forall e | e in ids :: e in outbox
    ensures forall e | e in s :: e in ids
  {
    if ids == [] then []
    else
      var n := |ids| - 1;
      Unblocked(outbox, ids[..n]) + (if Blocked(outbox, ids[n]) then [] else [ids[n]])
  }

  function CandidateLimit(limit: nat): nat {
    if limit + 16 < limit * 4 then limit * 4 else limit + 16
  }

  function Candidates(outbox: Outbox, limit: nat, now: Utc): (s: seq<EventId>)
    ensures forall e | e in s :: e in outbox
  {
    Take(InOrder(outbox, Due(outbox, now)), CandidateLimit(limit))
  }

  /** The event ids one claim transaction takes, in the order it takes them. */
  function ClaimedIds(outbox: Outbox, limit: nat, now: Utc): (s: seq<EventId>)
    ensures forall e | e in s :: e in outbox
  {
    Take(Unblocked(outbox, Candidates(outbox, limit, now)), limit)
  }

  function ClaimRow(row: Row, owner: string, expires: Utc): Row {
    row.(state := INFLIGHT, attempts := row.attempts + 1, claimedBy := Some(owner), claimExpiresAt := expires)
  }

  function Claim(outbox: Outbox, ids: seq<EventId>, owner: string, expires: Utc): Outbox {
    map e | e in outbox :: if e in ids then ClaimRow(outbox[e], owner, expires) else outbox[e]
  }

  function ClaimedMessage(outbox: Outbox, e: EventId): Claimed
    requires e in outbox
  {
    var row := outbox[e];
    Claimed(e, row.windowId, row.profileId, row.streamKey, row.envelope, row.payloadDigest,
            row.attempts, row.claimExpiresAt)
  }

  function ClaimedMessages(outbox: Outbox, ids: seq<EventId>): seq<Claimed>
    requires forall e | e in ids :: e in outbox
  {
    seq(|ids|, i requires 0 <= i < |ids| => ClaimedMessage(outbox, ids[i]))
  }

  function HandOut(outbox: Outbox, ids: seq<EventId>, owner: string, expires: Utc): (Outbox, seq<Claimed>)
    requires forall e | e in ids :: e in outbox
  {
    var after := Claim(outbox, ids, owner, expires);
    (after, ClaimedMessages(after, ids))
  }

  /** The whole claim transaction: the rows after it and the messages it hands out. */
  function ClaimTransaction(outbox: Outbox, owner: string, limit: int, now: Utc, leaseSeconds: int)
    : Result<(Outbox, seq<Claimed>)>
  {
    if limit <= 0 || leaseSeconds <= 0 then Failure(ValueError)
    else
      Success(HandOut(outbox, ClaimedIds(outbox, limit, now), owner, now + 1000 * leaseSeconds))
  }

  function Ack(outbox: Outbox, e: EventId, entryId: nat, now: Utc): Result<Outbox> {
    if e in outbox && outbox[e].state == INFLIGHT
    then Success(outbox[e := outbox[e].(state := PUBLISHED, publishedAt := now, entryId := entryId)])
    else Failure(OutboxStateConflict)
  }

  datatype FailOutcome = REQUEUED | QUARANTINED_NOW

  /** `delay` is the back-off the policy chose for the new failure count. */
  function Fail(
    outbox: Outbox, e: EventId, error: string, retryable: bool, now: Utc, delay: nat, maxAttempts: int
  ): Result<(Outbox, FailOutcome)> {
    if maxAttempts <= 0 then Failure(ValueError)
    else if e !in outbox || outbox[e].state != INFLIGHT then Failure(OutboxStateConflict)
    else
      var n := outbox[e].failures + 1;
      if retryable && n < maxAttempts
      then Success((outbox[e := outbox[e].(failures := n, state := PENDING, nextAttemptAt := now + delay,
                                           lastError := error)], REQUEUED))
      else Success((outbox[e := outbox[e].(failures := n, state := QUARANTINED, quarantinedAt := Some(now),
                                           lastError := error)], QUARANTINED_NOW))
  }

  function Requeue(outbox: Outbox, e: EventId, now: Utc): Result<Outbox> {
    if e in outbox && outbox[e].state == QUARANTINED
    then Success(outbox[e := outbox[e].(state := PENDING, nextAttemptAt := now, quarantinedAt := None)])
    else Failure(LookupError)
  }

  function Cleanup(outbox: Outbox, cutoff: Utc): Outbox {
    map e | e in outbox && !(outbox[e].state == PUBLISHED && outbox[e].publishedAt < cutoff) :: outbox[e]
  }

  // ---------------------------------------------------------------------
  // Live sequence numbers
  // ---------------------------------------------------------------------

  /** The next number to hand out; a profile without a row starts at 1. */
  function NextSequence(sequences: map<ProfileId, int>, profileId: ProfileId): int {
    if profileId in sequences then sequences[profileId] else 1
  }
}
