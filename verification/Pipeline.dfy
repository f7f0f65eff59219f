/**
  The durable history pipeline as one state machine: the journal, the Redis
  keys of a login, and any number of outbox dispatchers. Every SQL transaction
  and every Lua script is one step; a reply may be lost after its script ran,
  and a dispatcher may stop between any two steps.
 */
module Pipeline {
  import opened Wrappers
  import opened Canonical
  import opened JournalModel
  import opened RedisTransport

  type HistoryKeys = Keys<nat, Envelope>

  /** What a dispatcher still owes the journal for the message it just sent. */
  datatype Phase =
    | Ready
    | Delivered(eventId: EventId, entryId: nat)
    | Undelivered(eventId: EventId, error: string, retryable: bool)

  datatype Worker = Worker(credential: Credential, queue: seq<Claimed>, phase: Phase, leaseLost: bool)

  /** The fate of one append call. */
  datatype Reply =
    | Answered
    | ReplyLost
    | NeverSent
    | Invalid

  /** A row that some commit inserted under this window. */
  datatype Insertion = Insertion(windowId: WindowId, eventId: EventId)

  /** An append, with the window its row belonged to when it was claimed. */
  datatype Delivery = Delivery(eventId: EventId, windowId: WindowId, envelope: Envelope)

  /** The checkpoint fields the commit compares and swaps. */
  datatype Key = Key(profileId: ProfileId, generation: int, next: int, lastWindow: Option<WindowId>, policy: int)

  /**
    `log` pairs each stream entry with its window; `inserted`, `bounds` and
    `spent` record what no table keeps: the rows ever inserted, the lower bound
    in force, and the checkpoints that a forward commit has consumed.
   */
  datatype Sys = Sys(
    db: Db, keys: HistoryKeys, workers: map<nat, Worker>,
    log: seq<Delivery>, inserted: set<Insertion>, bounds: map<ProfileId, int>, spent: seq<Key>)

  const INITIAL := Sys(EMPTY, Fresh(), map[], [], {}, map[], [])

  datatype Action =
    | CommitWindow(expected: Checkpoint, window: Window, records: seq<Record>, messages: seq<Message>, mode: CommitMode)
    | RecoverBound(profileId: ProfileId, bound: int, now: Utc)
    | Start(worker: nat, owner: string, producer: string, ttl: int, candidate: nat, now: Utc)
    | Script(call: Call<nat, Envelope>, now: Utc)
    | ClaimBatch(worker: nat, owner: string, limit: int, now: Utc, leaseSeconds: int)
    | Send(worker: nat, now: Utc, reply: Reply)
    | Settle(worker: nat, now: Utc, delay: nat, maxAttempts: int)
    | Stop(worker: nat)
    | RequeueMessage(eventId: EventId, now: Utc)
    | CleanupPublished(cutoff: Utc)
    | ReserveSequence(profileId: ProfileId)

  function KeyOf(c: Checkpoint): Key {
    Key(c.profileId, c.generation, c.next, c.lastWindow, c.policy)
  }

  function Inserted(outbox: Outbox, messages: seq<Message>, w: WindowId): set<Insertion> {
    set m | m in messages && m.eventId !in outbox :: Insertion(w, m.eventId)
  }

  ghost function AfterCommit(s: Sys, a: Action): Sys
    requires a.CommitWindow?
  {
    var w := a.window;
    match Commit(s.db, a.expected, w, a.records, a.messages, a.mode)
    case Failure(_) => s
    case Success(db) =>
      var t := s.(db := db, inserted := s.inserted + Inserted(s.db.outbox, a.messages, w.id));
      if a.mode.Reconcile? then t
      else
        t.(spent := s.spent + [KeyOf(a.expected)],
           bounds := if w.profileId in s.db.checkpoints then s.bounds
                     else s.bounds[w.profileId := a.mode.lowerBound])
  }

  ghost function AfterRecovery(s: Sys, a: Action): Sys
    requires a.RecoverBound?
  {
    match Recover(s.db, a.profileId, a.bound, a.now)
    case Failure(_) => s
    case Success(db) =>
      if db == s.db then s else s.(db := db, bounds := s.bounds[a.profileId := a.bound])
  }

  function AfterStart(s: Sys, a: Action): Sys
    requires a.Start?
  {
    var call := Acquire(a.owner, a.producer, a.ttl, a.candidate);
    if a.worker in s.workers || !Accepted(s.keys, a.now, call) then s
    else
      s.(keys := Apply(s.keys, a.now, call),
         workers := s.workers[a.worker := Worker(Granted(s.keys, call), [], Ready, false)])
  }

  function AfterClaim(s: Sys, a: Action): Sys
    requires a.ClaimBatch?
  {
    if a.worker !in s.workers then s
    else
      var k := s.workers[a.worker];
      if k.queue != [] || k.phase != Ready then s
      else
        match ClaimTransaction(s.db.outbox, a.owner, a.limit, a.now, a.leaseSeconds)
        case Failure(_) => s
        case Success(claimed) =>
          s.(db := s.db.(outbox := claimed.0), workers := s.workers[a.worker := k.(queue := claimed.1)])
  }

  /** The call a dispatcher makes for a claimed message. */
  function AppendCall(k: Worker, m: Claimed): Call<nat, Envelope> {
    Append(k.credential, m.eventId, m.envelope)
  }

  predicate Arrives(reply: Reply) {
    reply == Answered || reply == ReplyLost
  }

  predicate Skipped(outbox: Outbox, m: Claimed) {
    IsMarker(m.envelope) && HasBlockingSibling(outbox, m.windowId, m.eventId)
  }

  /** The dispatcher after handling its first message, given the keys it appended to. */
  function WorkerAfterSend(k: Worker, outbox: Outbox, keys: HistoryKeys, now: Utc, reply: Reply): Worker
    requires k.queue != []
  {
    var m, rest := k.queue[0], k.queue[1..];
    if m.envelope.Undecodable? then k.(queue := rest, phase := Undelivered(m.eventId, "MalformedEnvelope", false))
    else if Skipped(outbox, m) then k.(queue := rest)
    else
      match reply
      case Invalid => k.(queue := rest, phase := Undelivered(m.eventId, "ValueError", false))
      case NeverSent => k.(queue := rest, phase := Undelivered(m.eventId, "RedisTransportError", true))
      case ReplyLost => k.(queue := rest, phase := Undelivered(m.eventId, "RedisTransportError", true))
      case Answered =>
        if Accepted(keys, now, AppendCall(k, m)) then k.(queue := rest, phase := Delivered(m.eventId, |keys.stream|))
        else k.(queue := [], leaseLost := true)
  }

  predicate Appends(k: Worker, outbox: Outbox, keys: HistoryKeys, now: Utc, reply: Reply)
    requires k.queue != []
  {
    var m := k.queue[0];
    && m.envelope.Decoded? && !Skipped(outbox, m) && Arrives(reply)
    && Accepted(keys, now, AppendCall(k, m))
  }

  function AfterSend(s: Sys, a: Action): Sys
    requires a.Send?
  {
    if a.worker !in s.workers then s
    else
      var k := s.workers[a.worker];
      if k.queue == [] || k.phase != Ready || k.leaseLost then s
      else
        var m := k.queue[0];
        var t := s.(workers := s.workers[a.worker := WorkerAfterSend(k, s.db.outbox, s.keys, a.now, a.reply)]);
        if Appends(k, s.db.outbox, s.keys, a.now, a.reply)
        then t.(keys := Apply(s.keys, a.now, AppendCall(k, m)),
                log := s.log + [Delivery(m.eventId, m.windowId, m.envelope)])
        else t
  }

  /** Acknowledges or fails the message just sent; a row resolved by someone else is left alone. */
  function Settled(outbox: Outbox, phase: Phase, now: Utc, delay: nat, maxAttempts: int): Outbox {
    match phase
    case Ready => outbox
    case Delivered(e, entryId) =>
      var r := Ack(outbox, e, entryId, now);
      if r.Success? then r.value else outbox
    case Undelivered(e, error, retryable) =>
      var r := Fail(outbox, e, error, retryable, now, delay, maxAttempts);
      if r.Success? then r.value.0 else outbox
  }

  function AfterSettle(s: Sys, a: Action): Sys
    requires a.Settle?
  {
    if a.worker !in s.workers then s
    else
      var k := s.workers[a.worker];
      s.(db := s.db.(outbox := Settled(s.db.outbox, k.phase, a.now, a.delay, a.maxAttempts)),
         workers := s.workers[a.worker := k.(phase := Ready)])
  }

  ghost function Step(s: Sys, a: Action): Sys {
    match a
    case CommitWindow(_, _, _, _, _) => AfterCommit(s, a)
    case RecoverBound(_, _, _) => AfterRecovery(s, a)
    case Start(_, _, _, _, _, _) => AfterStart(s, a)
    case Script(call, now) => if call.Append? then s else s.(keys := Apply(s.keys, now, call))
    case ClaimBatch(_, _, _, _, _) => AfterClaim(s, a)
    case Send(_, _, _) => AfterSend(s, a)
    case Settle(_, _, _, _) => AfterSettle(s, a)
    case Stop(worker) => s.(workers := s.workers - {worker})
    case RequeueMessage(e, now) =>
      var r := Requeue(s.db.outbox, e, now);
      if r.Success? then s.(db := s.db.(outbox := r.value)) else s
    case CleanupPublished(cutoff) => s.(db := s.db.(outbox := Cleanup(s.db.outbox, cutoff)))
    case ReserveSequence(p) =>
      s.(db := s.db.(sequences := s.db.sequences[p := NextSequence(s.db.sequences, p) + 1]))
  }

  ghost function Run(actions: seq<Action>): Sys {
    if actions == [] then INITIAL
    else Step(Run(actions[..|actions| - 1]), actions[|actions| - 1])
  }
}
