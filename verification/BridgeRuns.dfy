/**
  Runs of the pipeline in which every window was built by a synchronizer: their
  journal is one that the synchronizers' own runs reach, and every stream entry
  of a record carries that record's payload.
 */
module BridgeRuns {
  import opened Wrappers
  import opened Canonical
  import opened JournalModel
  import opened RedisTransport
  import opened Pipeline
  import opened DeliveryProof
  import opened History
  import opened PlanCoverage
  import opened HonestJournal
  import opened JournalRuns
  import NoLoss

  /** What a committed window was built from. */
  datatype Origin = Origin(
    session: Session, policy: Policy, announced: set<EventId>, startRaw: int, endRaw: int, reading: Reading,
    revision: int, supersedes: Option<WindowId>)

  function ReadFrom(sha: Hash, o: Origin, expected: Checkpoint): Result<Input> {
    ReadWindow(sha, o.session, o.policy, o.announced, expected, o.startRaw, o.endRaw, o.reading, o.revision, o.supersedes).0
  }

  predicate BuiltBy(sha: Hash, o: Origin, a: Action)
    requires a.CommitWindow?
  {
    var read := ReadFrom(sha, o, a.expected);
    && read.Success?
    && read.value.window == a.window && read.value.records == a.records && read.value.messages == a.messages
  }

  ghost predicate Built(sha: Hash, a: Action) {
    a.CommitWindow? ==> exists o :: BuiltBy(sha, o, a)
  }

  ghost predicate AllBuilt(sha: Hash, actions: seq<Action>) {
    forall i | 0 <= i < |actions| :: Built(sha, actions[i])
  }

  // ---------------------------------------------------------------------
  // The journal of the pipeline is a journal of synchronizers
  // ---------------------------------------------------------------------

  lemma CommitIsLate(sha: Hash, s: Sys, a: Action, o: Origin)
    requires a.CommitWindow? && BuiltBy(sha, o, a)
    ensures var input := ReadFrom(sha, o, a.expected).value;
            && Planned(sha, o.session, o.policy, o.announced, input)
            && Step(s, a).db == JournalStep(sha, s.db, Late(o.session, o.policy, o.announced, input, a.mode))
  {
    BuiltIsPlanned(sha, o.session, o.policy, o.announced, a.expected, o.startRaw, o.endRaw, o.reading, o.revision, o.supersedes);
  }

  function RowChangeOf(s: Sys, a: Action): Option<RowChange> {
    match a
    case ClaimBatch(k, owner, limit, now, leaseSeconds) =>
      if k in s.workers && s.workers[k].queue == [] && s.workers[k].phase == Ready
      then Some(Claims(owner, limit, now, leaseSeconds)) else None
    case Settle(k, now, delay, maxAttempts) =>
      if k !in s.workers then None
      else
        (match s.workers[k].phase
         case Ready => None
         case Delivered(e, entryId) => Some(Acknowledges(e, entryId, now))
         case Undelivered(e, error, retryable) => Some(Fails(e, error, retryable, now, delay, maxAttempts)))
    case RequeueMessage(e, now) => Some(Requeues(e, now))
    case CleanupPublished(cutoff) => Some(Cleans(cutoff))
    case _ => None
  }

  predicate ChangesRows(a: Action) {
    a.ClaimBatch? || a.Settle? || a.RequeueMessage? || a.CleanupPublished?
  }

  lemma RowStepIsChange(s: Sys, a: Action)
    requires ChangesRows(a)
    ensures Step(s, a).db == if RowChangeOf(s, a).Some?
                             then s.db.(outbox := Changed(s.db.outbox, RowChangeOf(s, a).value)) else s.db
  {
  }

  lemma OtherStepIs(sha: Hash, s: Sys, a: Action) returns (j: Option<JournalAction>)
    requires !a.CommitWindow? && !ChangesRows(a)
    ensures Step(s, a).db == if j.Some? then JournalStep(sha, s.db, j.value) else s.db
  {
    j := match a
         case RecoverBound(p, bound, now) => Some(RaiseBound(p, bound, now))
         case ReserveSequence(p) => Some(Number(p))
         case _ => None;
  }

  /** One step of the pipeline is one step of the journal, or none. */
  lemma StepIsJournalStep(sha: Hash, s: Sys, a: Action) returns (j: Option<JournalAction>)
    requires Built(sha, a)
    ensures Step(s, a).db == if j.Some? then JournalStep(sha, s.db, j.value) else s.db
  {
    if a.CommitWindow? {
      var o :| BuiltBy(sha, o, a);
      CommitIsLate(sha, s, a, o);
      j := Some(Late(o.session, o.policy, o.announced, ReadFrom(sha, o, a.expected).value, a.mode));
    } else if ChangesRows(a) {
      RowStepIsChange(s, a);
      var c := RowChangeOf(s, a);
      j := if c.Some? then Some(JournalAction.Rows(c.value)) else None;
    } else {
      j := OtherStepIs(sha, s, a);
    }
  }

  lemma {:induction false} JournalRunNext(sha: Hash, js: seq<JournalAction>, j: JournalAction)
    ensures JournalRun(sha, js + [j]) == JournalStep(sha, JournalRun(sha, js), j)
  {
    assert (js + [j])[..|js|] == js;
  }

  /** The journal after every run of the pipeline over built windows is the journal after a run of synchronizers. */
  lemma {:induction false} RunIsJournalRun(sha: Hash, actions: seq<Action>) returns (js: seq<JournalAction>)
    requires AllBuilt(sha, actions)
    ensures JournalRun(sha, js) == Run(actions).db
    decreases |actions|
  {
    js := [];
    if actions != [] {
      var n := |actions| - 1;
      js := RunIsJournalRun(sha, actions[..n]);
      var j := StepIsJournalStep(sha, Run(actions[..n]), actions[n]);
      if j.Some? {
        JournalRunNext(sha, js, j.value);
        js := js + [j.value];
      }
    }
  }

  /** So it is honest, and everything proved of honest journals holds along the pipeline. */
  lemma {:induction false} RunIsHonest(sha: Hash, actions: seq<Action>)
    requires CollisionFree(sha) && AllBuilt(sha, actions)
    ensures HonestDb(sha, Run(actions).db)
  {
    var js := RunIsJournalRun(sha, actions);
    ReachableIsHonest(sha, js);
  }

  // ---------------------------------------------------------------------
  // Entries carry the payload of their record
  // ---------------------------------------------------------------------

  function EnvelopeOf(sha: Hash, r: Record, ordinal: nat, w: WindowId, producer: string, observed: Utc): Envelope {
    Decoded(TypeOf(r.resource),
            sha(EnvelopeContent(r.eventId, sha(RecordMessage(ordinal, r.payload, w)), producer, observed)))
  }

  ghost predicate Carries(sha: Hash, envelope: Envelope, r: Record) {
    exists ordinal, w, producer, observed :: envelope == EnvelopeOf(sha, r, ordinal, w, producer, observed)
  }

  /** Under a record's event id there is that record's payload. */
  ghost predicate Faithful(sha: Hash, e: EventId, envelope: Envelope) {
    forall r: Record {:trigger TrueRecord(sha, r)} | TrueRecord(sha, r) && r.eventId == e :: Carries(sha, envelope, r)
  }

  ghost predicate FaithfulRows(sha: Hash, outbox: Outbox) {
    forall e | e in outbox :: Faithful(sha, e, outbox[e].envelope)
  }

  ghost predicate FaithfulMessages(sha: Hash, messages: seq<Message>) {
    forall k | 0 <= k < |messages| :: Faithful(sha, messages[k].eventId, messages[k].envelope)
  }

  ghost predicate FaithfulQueue(sha: Hash, queue: seq<Claimed>) {
    forall k | 0 <= k < |queue| :: Faithful(sha, queue[k].eventId, queue[k].envelope)
  }

  ghost predicate FaithfulStream(sha: Hash, stream: seq<Entry<Envelope>>) {
    forall k | 0 <= k < |stream| :: Faithful(sha, stream[k].eventId, stream[k].envelope)
  }

  ghost predicate FaithfulSys(sha: Hash, s: Sys) {
    && FaithfulRows(sha, s.db.outbox)
    && FaithfulStream(sha, s.keys.stream)
    && forall k | k in s.workers :: FaithfulQueue(sha, s.workers[k].queue)
  }

  // Built messages

  lemma {:induction false} BuiltMessagesFaithful(
    sha: Hash, session: Session, w: WindowId, records: seq<Record>, announced: set<EventId>, observed: Utc)
    requires CollisionFree(sha) && TrueRecords(sha, records)
    ensures FaithfulMessages(sha, RecordMessages(sha, session, w, records, announced, observed))
  {
    if records != [] {
      var n := |records| - 1;
      BuiltMessagesFaithful(sha, session, w, records[..n], announced, observed);
      var mine := records[n];
      var envelope := EnvelopeOf(sha, mine, n, w, session.producer, observed);
      forall r: Record | TrueRecord(sha, r) && r.eventId == mine.eventId ensures Carries(sha, envelope, r) {
        SameTrueRecord(sha, r, mine);
      }
    }
  }

  lemma MarkerFaithful(sha: Hash, session: Session, w: Window, observed: Utc)
    requires CollisionFree(sha)
    ensures Faithful(sha, Marker(sha, session, w, observed).eventId, Marker(sha, session, w, observed).envelope)
  {
    forall r: Record | TrueRecord(sha, r) ensures r.eventId != Marker(sha, session, w, observed).eventId {
      assert RecordIdentity(r.resource, r.naturalId, r.payloadDigest) != MarkerIdentity(w.id, w.windowDigest);
    }
  }

  lemma RowsMakeTrueRecords(sha: Hash, session: Session, resource: Resource, rows: seq<Payload>)
    ensures TrueRecords(sha, RecordsOf(sha, session, resource, rows))
  {
  }

  lemma JoinFaithful(sha: Hash, a: seq<Message>, b: seq<Message>)
    requires FaithfulMessages(sha, a) && FaithfulMessages(sha, b)
    ensures FaithfulMessages(sha, a + b)
  {
  }

  lemma {:induction false} JoinedFaithful(
    sha: Hash, session: Session, w: Window, deals: seq<Record>, orders: seq<Record>, announced: set<EventId>, observed: Utc)
    requires CollisionFree(sha) && TrueRecords(sha, deals) && TrueRecords(sha, orders)
    ensures FaithfulMessages(sha, RecordMessages(sha, session, w.id, deals, announced, observed)
                                  + RecordMessages(sha, session, w.id, orders, announced, observed)
                                  + [Marker(sha, session, w, observed)])
    ensures TrueRecords(sha, deals + orders)
  {
    var x, y := RecordMessages(sha, session, w.id, deals, announced, observed),
                RecordMessages(sha, session, w.id, orders, announced, observed);
    BuiltMessagesFaithful(sha, session, w.id, deals, announced, observed);
    BuiltMessagesFaithful(sha, session, w.id, orders, announced, observed);
    MarkerFaithful(sha, session, w, observed);
    JoinFaithful(sha, x, y);
    JoinFaithful(sha, x + y, [Marker(sha, session, w, observed)]);
  }

  lemma AssembledFaithful(
    sha: Hash, session: Session, policy: Policy, announced: set<EventId>, expected: Checkpoint,
    startRaw: int, endRaw: int, dealRows: seq<Payload>, orderRows: seq<Payload>,
    revision: int, supersedes: Option<WindowId>, observed: Utc)
    requires CollisionFree(sha)
    ensures var input := Assembled(sha, session, policy, announced, expected, startRaw, endRaw, dealRows, orderRows,
                                   revision, supersedes, observed);
            FaithfulMessages(sha, input.messages) && TrueRecords(sha, input.records)
  {
    var deals := RecordsOf(sha, session, Deal, SortedRows(Deal, dealRows));
    var orders := RecordsOf(sha, session, Order, SortedRows(Order, orderRows));
    RowsMakeTrueRecords(sha, session, Deal, SortedRows(Deal, dealRows));
    RowsMakeTrueRecords(sha, session, Order, SortedRows(Order, orderRows));
    var w := WindowOf(sha, session, policy, expected, startRaw, endRaw, deals, orders, revision, supersedes, observed);
    JoinedFaithful(sha, session, w, deals, orders, announced, observed);
  }

  lemma InputFaithful(
    sha: Hash, session: Session, policy: Policy, announced: set<EventId>, expected: Checkpoint,
    startRaw: int, endRaw: int, dealRows: seq<Payload>, orderRows: seq<Payload>,
    revision: int, supersedes: Option<WindowId>, observed: Utc)
    requires CollisionFree(sha)
    ensures var r := BuildInput(sha, session, policy, announced, expected, startRaw, endRaw, dealRows, orderRows,
                                revision, supersedes, observed);
            r.Success? ==> FaithfulMessages(sha, r.value.messages) && TrueRecords(sha, r.value.records)
  {
    AssembledFaithful(sha, session, policy, announced, expected, startRaw, endRaw, dealRows, orderRows,
                      revision, supersedes, observed);
  }

  lemma WindowFaithful(
    sha: Hash, session: Session, policy: Policy, announced: set<EventId>, expected: Checkpoint,
    startRaw: int, endRaw: int, deals: CallResult, orders: CallResult,
    revision: int, supersedes: Option<WindowId>, observed: Utc)
    requires CollisionFree(sha)
    ensures var r := BuildWindow(sha, session, policy, announced, expected, startRaw, endRaw, deals, orders,
                                 revision, supersedes, observed).0;
            r.Success? ==> FaithfulMessages(sha, r.value.messages) && TrueRecords(sha, r.value.records)
  {
    if !deals.FAILED? && !orders.FAILED? {
      var dealRows := HalfOpenRows(deals.rows, startRaw, endRaw, BoundaryField(Deal));
      var orderRows := HalfOpenRows(orders.rows, startRaw, endRaw, BoundaryField(Order));
      if dealRows.Success? && orderRows.Success? {
        InputFaithful(sha, session, policy, announced, expected, startRaw, endRaw, dealRows.value, orderRows.value,
                      revision, supersedes, observed);
      }
    }
  }

  lemma ReadFaithful(
    sha: Hash, session: Session, policy: Policy, announced: set<EventId>, expected: Checkpoint,
    startRaw: int, endRaw: int, reading: Reading, revision: int, supersedes: Option<WindowId>)
    requires CollisionFree(sha)
    ensures var r := ReadWindow(sha, session, policy, announced, expected, startRaw, endRaw, reading, revision, supersedes).0;
            r.Success? ==> FaithfulMessages(sha, r.value.messages) && TrueRecords(sha, r.value.records)
  {
    WindowFaithful(sha, session, policy, announced, expected, startRaw, endRaw, reading.deals(startRaw, endRaw),
                   reading.orders(startRaw, endRaw), revision, supersedes, reading.observed);
  }

  lemma BuiltFaithful(sha: Hash, o: Origin, a: Action)
    requires CollisionFree(sha) && a.CommitWindow? && BuiltBy(sha, o, a)
    ensures FaithfulMessages(sha, a.messages) && TrueRecords(sha, a.records)
  {
    ReadFaithful(sha, o.session, o.policy, o.announced, a.expected, o.startRaw, o.endRaw, o.reading, o.revision, o.supersedes);
  }

  // Steps

  lemma {:induction false} EnqueueFaithful(sha: Hash, stored: Outbox, messages: seq<Message>, now: Utc)
    requires FaithfulRows(sha, stored) && FaithfulMessages(sha, messages) && UniqueEventIds(messages)
    ensures FaithfulRows(sha, Enqueue(stored, messages, now))
  {
    var after := Enqueue(stored, messages, now);
    EnqueueKeepsAndAdds(stored, messages, now);
    forall e | e in after ensures Faithful(sha, e, after[e].envelope) {
      if e !in stored {
        var k :| 0 <= k < |messages| && messages[k].eventId == e;
        assert after[e] == NewRow(messages[k], now);
      }
    }
  }

  lemma CommitShape(s: Sys, a: Action)
    requires a.CommitWindow?
    ensures var t := Step(s, a);
            && t.keys == s.keys && t.workers == s.workers
            && (t.db.outbox == s.db.outbox
                || (UniqueEventIds(a.messages) && t.db.outbox == Enqueue(s.db.outbox, a.messages, a.window.committedAt)))
  {
  }

  lemma CommitStaysFaithful(sha: Hash, s: Sys, a: Action)
    requires CollisionFree(sha) && FaithfulSys(sha, s) && a.CommitWindow? && Built(sha, a)
    ensures FaithfulSys(sha, Step(s, a))
  {
    var o :| BuiltBy(sha, o, a);
    BuiltFaithful(sha, o, a);
    CommitShape(s, a);
    if UniqueEventIds(a.messages) {
      EnqueueFaithful(sha, s.db.outbox, a.messages, a.window.committedAt);
    }
  }

  lemma RowsStayFaithful(sha: Hash, before: Outbox, after: Outbox)
    requires FaithfulRows(sha, before) && SameEnvelopes(before, after)
    ensures FaithfulRows(sha, after)
  {
  }

  lemma ClaimedFaithful(sha: Hash, outbox: Outbox, ids: seq<EventId>)
    requires FaithfulRows(sha, outbox) && forall e | e in ids :: e in outbox
    ensures FaithfulQueue(sha, ClaimedMessages(outbox, ids))
  {
  }

  lemma ClaimStaysFaithful(sha: Hash, s: Sys, a: Action)
    requires FaithfulSys(sha, s) && Inv(s) && a.ClaimBatch?
    ensures FaithfulSys(sha, Step(s, a))
  {
    var t, taken, ids, expires := ClaimShape(s, a);
    if taken {
      var after := Claim(s.db.outbox, ids, a.owner, expires);
      RowsStayFaithful(sha, s.db.outbox, after);
      ClaimedFaithful(sha, after, ids);
    }
  }

  lemma SettleStaysFaithful(sha: Hash, s: Sys, a: Action)
    requires FaithfulSys(sha, s) && ChangesRows(a) && !a.ClaimBatch?
    ensures FaithfulSys(sha, Step(s, a))
  {
    var t := Step(s, a);
    RowStepIsChange(s, a);
    if RowChangeOf(s, a).Some? {
      ChangedKeepsEnvelopes(s.db.outbox, RowChangeOf(s, a).value);
      RowsStayFaithful(sha, s.db.outbox, t.db.outbox);
    }
  }

  lemma SendStaysFaithful(sha: Hash, s: Sys, a: Action)
    requires FaithfulSys(sha, s) && a.Send?
    ensures FaithfulSys(sha, Step(s, a))
  {
    if a.worker in s.workers && s.workers[a.worker].queue != [] {
      var queue := s.workers[a.worker].queue;
      assert Faithful(sha, queue[0].eventId, queue[0].envelope);
      assert FaithfulQueue(sha, queue[1..]);
    }
  }

  lemma OtherStaysFaithful(sha: Hash, s: Sys, a: Action)
    requires FaithfulSys(sha, s) && !a.CommitWindow? && !ChangesRows(a) && !a.Send?
    ensures FaithfulSys(sha, Step(s, a))
  {
  }

  lemma StepStaysFaithful(sha: Hash, s: Sys, a: Action)
    requires CollisionFree(sha) && FaithfulSys(sha, s) && Inv(s) && Built(sha, a)
    ensures FaithfulSys(sha, Step(s, a))
  {
    if a.CommitWindow? {
      CommitStaysFaithful(sha, s, a);
    } else if a.ClaimBatch? {
      ClaimStaysFaithful(sha, s, a);
    } else if ChangesRows(a) {
      SettleStaysFaithful(sha, s, a);
    } else if a.Send? {
      SendStaysFaithful(sha, s, a);
    } else {
      OtherStaysFaithful(sha, s, a);
    }
  }

  /**
    In every run over built windows each outbox row, queued message and stream entry under a
    record's event id carries the payload of that record.
   */
  lemma {:induction false} RunIsFaithful(sha: Hash, actions: seq<Action>)
    requires CollisionFree(sha) && AllBuilt(sha, actions)
    ensures FaithfulSys(sha, Run(actions))
    decreases |actions|
  {
    if actions != [] {
      var n := |actions| - 1;
      RunIsFaithful(sha, actions[..n]);
      RunKeeps(actions[..n]);
      StepStaysFaithful(sha, Run(actions[..n]), actions[n]);
    }
  }

  // ---------------------------------------------------------------------
  // The records of a committed window
  // ---------------------------------------------------------------------

  /** The n-th action is a commit that took effect. */
  ghost predicate Committed(actions: seq<Action>, n: nat) {
    n < |actions| && Commits(Run(actions[..n]), actions[n])
  }

  ghost predicate Commits(s: Sys, a: Action) {
    a.CommitWindow? && Commit(s.db, a.expected, a.window, a.records, a.messages, a.mode).Success?
  }

  /** The event is in the log or has a row that is not published. */
  ghost predicate SafeIn(s: Sys, e: EventId) {
    Safe(s.db.outbox, s.log, e)
  }

  lemma StaysSafe(s: Sys, a: Action, e: EventId)
    requires Inv(s) && SafeIn(s, e)
    ensures SafeIn(Step(s, a), e)
  {
    NoLoss.StepKeepsSafe(s, a, e);
  }

  lemma JustCommitted(s: Sys, a: Action, r: Record)
    requires Inv(s) && Commits(s, a) && r in a.records
    ensures SafeIn(Step(s, a), r.eventId)
  {
    NoLoss.RecordsEnqueued(s, a, r);
    CommitKeeps(s, a);
  }

  lemma {:induction false} RunNext(actions: seq<Action>, m: nat)
    requires |actions| == m + 1
    ensures Run(actions) == Step(Run(actions[..m]), actions[m])
  {
  }

  lemma CommittedInPrefix(actions: seq<Action>, m: nat, n: nat)
    requires Committed(actions, n) && n < m <= |actions|
    ensures Committed(actions[..m], n) && actions[..m][n] == actions[n]
  {
    assert actions[..m][..n] == actions[..n];
  }

  /** From its commit on, every record is in the log or has a row that is not published. */
  lemma {:induction false} CommittedStaysSafe(actions: seq<Action>, n: nat, r: Record)
    requires Committed(actions, n) && actions[n].CommitWindow? && r in actions[n].records
    ensures SafeIn(Run(actions), r.eventId)
    decreases |actions|
  {
    var m := |actions| - 1;
    var before := actions[..m];
    RunKeeps(before);
    RunNext(actions, m);
    if n == m {
      JustCommitted(Run(before), actions[m], r);
    } else {
      CommittedInPrefix(actions, m, n);
      CommittedStaysSafe(before, n, r);
      StaysSafe(Run(before), actions[m], r.eventId);
    }
  }

  /** The records of a built commit are true records. */
  lemma CommittedTrue(sha: Hash, actions: seq<Action>, n: nat, r: Record)
    requires CollisionFree(sha) && AllBuilt(sha, actions) && Committed(actions, n) && r in actions[n].records
    ensures TrueRecord(sha, r)
  {
    var o :| BuiltBy(sha, o, actions[n]);
    BuiltFaithful(sha, o, actions[n]);
  }
}
