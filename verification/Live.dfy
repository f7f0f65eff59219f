/**
  The live publisher: numbers each observation, keeps one pending envelope per
  producer and retries it until Redis accepts it.
 */
module Live {
  import opened Wrappers
  import opened Canonical
  import opened RedisTransport
  import JournalModel
  import JournalRepository

  datatype Kind = Snapshot | LiveError

  datatype LiveEnvelope = LiveEnvelope(kind: Kind, profileId: ProfileId, epochId: string, sequence: int, body: nat)

  type LiveKeys = Keys<LiveEnvelope, nat>

  /** A pending envelope belongs to one journal profile and one producer epoch. */
  datatype Slot = Slot(profileId: ProfileId, epochId: string)

  type Pending = map<Slot, LiveEnvelope>

  datatype Fence = Fence(login: int, credential: Credential)

  datatype Producer = Producer(profileId: ProfileId, epochId: string, epoch: nat, token: int)

  datatype LiveSession = LiveSession(journalProfileId: ProfileId, login: int, producer: Producer)

  /** How one publication attempt goes between this process and Redis. */
  datatype Attempt = RevalidationFailed | NeverSent | ReplyLost | Answered

  /** What one poll observes: the terminal, the two builds' clocks, and the publication attempt. */
  datatype Observation = Observation(
    identified: bool, resourceFailed: bool, complete: bool, body: nat, errorBody: nat,
    clockOk: bool, errorClockOk: bool, attempt: Attempt, now: Millis)

  datatype LiveOutcome =
    | PUBLISHED(envelope: LiveEnvelope)
    | FENCE_REJECTED(rejected: Option<LiveEnvelope>)
    | FAILED(kept: Option<LiveEnvelope>)

  datatype World = World(pending: Pending, sequences: map<ProfileId, int>, keys: LiveKeys)

  predicate MatchesFence(session: LiveSession, fence: Fence) {
    && session.login == fence.login
    && session.producer.profileId == session.journalProfileId
    && session.producer.epochId == fence.credential.producer
    && session.producer.epoch == fence.credential.epoch
    && session.producer.token == fence.credential.token
  }

  function SlotOf(envelope: LiveEnvelope): Slot {
    Slot(envelope.profileId, envelope.epochId)
  }

  function SessionSlot(session: LiveSession): Slot {
    Slot(session.journalProfileId, session.producer.epochId)
  }

  /** Reserves a number, then builds the envelope. A failed build still consumes the number. */
  function Build(sequences: map<ProfileId, int>, session: LiveSession, kind: Kind, body: nat, clockOk: bool)
    : (map<ProfileId, int>, Result<LiveEnvelope>)
  {
    var p := session.journalProfileId;
    if p == "" || session.producer.epochId == "" then (sequences, Failure(ValueError))
    else
      var n := JournalModel.NextSequence(sequences, p);
      (sequences[p := n + 1],
       if n < 1 || !clockOk then Failure(ValueError)
       else Success(LiveEnvelope(kind, p, session.producer.epochId, n, body)))
  }

  function PublishPending(world: World, fence: Fence, envelope: LiveEnvelope, attempt: Attempt, now: Millis)
    : (World, LiveOutcome)
  {
    var call := Publish(fence.credential, envelope);
    if attempt.RevalidationFailed? then (world, FAILED(Some(envelope)))
    else if envelope.kind.LiveError? then
      (world.(pending := world.pending - {SlotOf(envelope)}), FAILED(Some(envelope)))
    else
      match attempt
      case NeverSent => (world, FAILED(Some(envelope)))
      case ReplyLost => (world.(keys := Apply(world.keys, now, call)), FAILED(Some(envelope)))
      case _ =>
        if Accepted(world.keys, now, call)
        then (world.(keys := Apply(world.keys, now, call), pending := world.pending - {SlotOf(envelope)}),
              PUBLISHED(envelope))
        else (world, FENCE_REJECTED(Some(envelope)))
  }

  /** Keeps a freshly built envelope as pending and tries to publish it. */
  function Launch(world: World, session: LiveSession, fence: Fence, envelope: LiveEnvelope, o: Observation)
    : (World, LiveOutcome)
  {
    PublishPending(world.(pending := world.pending[SessionSlot(session) := envelope]), fence, envelope, o.attempt, o.now)
  }

  function PublishError(world: World, session: LiveSession, fence: Fence, o: Observation): (World, LiveOutcome) {
    var built := Build(world.sequences, session, LiveError, o.errorBody, o.errorClockOk);
    var next := world.(sequences := built.0);
    if built.1.Failure? then (next, FAILED(None)) else Launch(next, session, fence, built.1.value, o)
  }

  function Poll(world: World, session: LiveSession, fence: Fence, o: Observation): (World, LiveOutcome) {
    if !MatchesFence(session, fence) then (world, FENCE_REJECTED(None))
    else if SessionSlot(session) in world.pending then
      PublishPending(world, fence, world.pending[SessionSlot(session)], o.attempt, o.now)
    else if !o.identified || o.resourceFailed || !o.complete then PublishError(world, session, fence, o)
    else
      var built := Build(world.sequences, session, Snapshot, o.body, o.clockOk);
      var next := world.(sequences := built.0);
      if built.1.Failure? then PublishError(next, session, fence, o)
      else Launch(next, session, fence, built.1.value, o)
  }

  /**
    A pending snapshot is retried as it is: it leaves exactly when Redis accepts
    it and says so, and a poll never replaces it.
   */
  lemma PendingLeavesOnlyWhenPublished(world: World, session: LiveSession, fence: Fence, o: Observation)
    requires MatchesFence(session, fence) && SessionSlot(session) in world.pending
    requires SlotOf(world.pending[SessionSlot(session)]) == SessionSlot(session)
    requires world.pending[SessionSlot(session)].kind.Snapshot?
    ensures var e, r := world.pending[SessionSlot(session)], Poll(world, session, fence, o);
            && r.0.sequences == world.sequences
            && (r.1 == PUBLISHED(e) <==> o.attempt == Answered && Accepted(world.keys, o.now, Publish(fence.credential, e)))
            && (SessionSlot(session) !in r.0.pending <==> r.1 == PUBLISHED(e))
            && (SessionSlot(session) in r.0.pending ==> r.0.pending == world.pending)
            && (r.1 == PUBLISHED(e) ==> r.0.keys.live.Some? && r.0.keys.live.value.envelope == e)
  {
  }

  /** A poll without a pending envelope uses one number, or two when the snapshot cannot be built. */
  lemma PollUsesNumbers(world: World, session: LiveSession, fence: Fence, o: Observation)
    requires MatchesFence(session, fence) && SessionSlot(session) !in world.pending
    requires session.journalProfileId != "" && session.producer.epochId != ""
    ensures var p, r := session.journalProfileId, Poll(world, session, fence, o);
            var n := JournalModel.NextSequence(world.sequences, p);
            && n < JournalModel.NextSequence(r.0.sequences, p) <= n + 2
            && (forall q | q != p :: JournalModel.NextSequence(r.0.sequences, q) == JournalModel.NextSequence(world.sequences, q))
            && (r.1.PUBLISHED? ==> r.1.envelope.sequence == n && r.1.envelope.body == o.body
                                   && o.identified && !o.resourceFailed && o.complete)
            && (r.0.keys != world.keys ==> o.identified && !o.resourceFailed && o.complete && o.clockOk)
  {
  }

  class LivePublisher {
    const transport: Server<LiveEnvelope, nat>
    const sequences: JournalRepository.Repository
    var pending: Pending

    constructor (transport: Server<LiveEnvelope, nat>, sequences: JournalRepository.Repository)
      ensures this.transport == transport && this.sequences == sequences && pending == map[]
    {
      this.transport, this.sequences, this.pending := transport, sequences, map[];
    }

    ghost function State(): World
      reads this, transport, sequences
    {
      World(pending, sequences.sequences, transport.State())
    }

    method BuildPending(session: LiveSession, kind: Kind, body: nat, clockOk: bool) returns (r: Result<LiveEnvelope>)
      modifies sequences`sequences
      ensures (sequences.sequences, r) == Build(old(sequences.sequences), session, kind, body, clockOk)
    {
      var n := sequences.Reserve(session.journalProfileId, session.producer.epochId);
      if n.Failure? {
        return Failure(n.error);
      }
      if n.value < 1 || !clockOk {
        return Failure(ValueError);
      }
      r := Success(LiveEnvelope(kind, session.journalProfileId, session.producer.epochId, n.value, body));
    }

    method PublishOne(fence: Fence, envelope: LiveEnvelope, attempt: Attempt, now: Millis) returns (r: LiveOutcome)
      requires transport.Valid()
      modifies this`pending, transport
      ensures transport.Valid()
      ensures (State(), r) == PublishPending(old(State()), fence, envelope, attempt, now)
    {
      if attempt.RevalidationFailed? {
        return FAILED(Some(envelope));
      }
      if envelope.kind.Snapshot? {
        if attempt.NeverSent? {
          return FAILED(Some(envelope));
        }
        var sent := transport.PublishLiveFenced(now, fence.credential, envelope);
        if attempt.ReplyLost? {
          return FAILED(Some(envelope));
        }
        if sent.Failure? {
          return FENCE_REJECTED(Some(envelope));
        }
      }
      pending := pending - {SlotOf(envelope)};
      r := if envelope.kind.Snapshot? then PUBLISHED(envelope) else FAILED(Some(envelope));
    }

    method PublishFailure(session: LiveSession, fence: Fence, o: Observation) returns (r: LiveOutcome)
      requires transport.Valid()
      modifies this`pending, transport, sequences`sequences
      ensures transport.Valid()
      ensures (State(), r) == PublishError(old(State()), session, fence, o)
    {
      var built := BuildPending(session, LiveError, o.errorBody, o.errorClockOk);
      if built.Failure? {
        return FAILED(None);
      }
      pending := pending[SessionSlot(session) := built.value];
      r := PublishOne(fence, built.value, o.attempt, o.now);
    }

    method PollOnce(session: LiveSession, fence: Fence, o: Observation) returns (r: LiveOutcome)
      requires transport.Valid()
      modifies this`pending, transport, sequences`sequences
      ensures transport.Valid()
      ensures (State(), r) == Poll(old(State()), session, fence, o)
    {
      if !MatchesFence(session, fence) {
        return FENCE_REJECTED(None);
      }
      var slot := SessionSlot(session);
      if slot in pending {
        r := PublishOne(fence, pending[slot], o.attempt, o.now);
        return;
      }
      if !o.identified || o.resourceFailed || !o.complete {
        r := PublishFailure(session, fence, o);
        return;
      }
      var built := BuildPending(session, Snapshot, o.body, o.clockOk);
      if built.Failure? {
        r := PublishFailure(session, fence, o);
        return;
      }
      pending := pending[slot := built.value];
      r := PublishOne(fence, built.value, o.attempt, o.now);
    }
  }
}
