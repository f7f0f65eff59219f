/**
  Live sequence numbers across fail-over: any number of worker processes of one
  login, each acquiring the lease once, publish through one journal profile.
 */
module LiveSequence {
  import opened Wrappers
  import opened Canonical
  import opened RedisTransport
  import opened Live
  import JournalModel

  /** One worker process, with the credential its lease was granted under. */
  datatype Publisher = Publisher(credential: Credential, pending: Pending)

  datatype LiveSys = LiveSys(keys: LiveKeys, sequences: map<ProfileId, int>, publishers: map<nat, Publisher>)

  datatype LiveAction =
    | Start(worker: nat, owner: string, producer: string, ttl: int, candidate: nat, now: Millis)
    | Observe(worker: nat, login: int, observation: Observation)
    | Script(call: Call<LiveEnvelope, nat>, now: Millis)
    | Reserve(profileId: ProfileId)
    | Stop(worker: nat)

  const INITIAL := LiveSys(Fresh(), map[], map[])

  function SessionOf(p: ProfileId, login: int, c: Credential): LiveSession {
    LiveSession(p, login, Producer(p, c.producer, c.epoch, c.token))
  }

  function WorldOf(s: LiveSys, k: Publisher): World {
    World(k.pending, s.sequences, s.keys)
  }

  function Observed(p: ProfileId, s: LiveSys, k: Publisher, login: int, o: Observation): World {
    Poll(WorldOf(s, k), SessionOf(p, login, k.credential), Fence(login, k.credential), o).0
  }

  /** Every worker shares the journal profile p. Publications and acquisitions happen only in workers. */
  function LiveStep(p: ProfileId, s: LiveSys, a: LiveAction): LiveSys {
    match a
    case Start(worker, owner, producer, ttl, candidate, now) =>
      var call := Acquire(owner, producer, ttl, candidate);
      if worker in s.publishers || !Accepted(s.keys, now, call) then s
      else s.(keys := Apply(s.keys, now, call),
              publishers := s.publishers[worker := Publisher(Granted(s.keys, call), map[])])
    case Observe(worker, login, o) =>
      if worker !in s.publishers then s
      else
        var k := s.publishers[worker];
        var after := Observed(p, s, k, login, o);
        LiveSys(after.keys, after.sequences, s.publishers[worker := k.(pending := after.pending)])
    case Script(call, now) => if call.Publish? || call.Acquire? then s else s.(keys := Apply(s.keys, now, call))
    case Reserve(q) => s.(sequences := s.sequences[q := JournalModel.NextSequence(s.sequences, q) + 1])
    case Stop(worker) => s.(publishers := s.publishers - {worker})
  }

  function LiveRun(p: ProfileId, actions: seq<LiveAction>): LiveSys {
    if actions == [] then INITIAL
    else LiveStep(p, LiveRun(p, actions[..|actions| - 1]), actions[|actions| - 1])
  }

  // ---------------------------------------------------------------------
  // One poll
  // ---------------------------------------------------------------------

  /** `after` carries no lower number than `before`, and the same number only on the same envelope. */
  predicate NotBehind(before: LiveEnvelope, after: LiveEnvelope) {
    before.sequence <= after.sequence && (before.sequence == after.sequence ==> before == after)
  }

  predicate LiveMoves(before: LiveKeys, after: LiveKeys) {
    before.live.Some? ==> after.live.Some? && NotBehind(before.live.value.envelope, after.live.value.envelope)
  }

  function Next(p: ProfileId, sequences: map<ProfileId, int>): int {
    JournalModel.NextSequence(sequences, p)
  }

  predicate LiveBelow(p: ProfileId, sequences: map<ProfileId, int>, keys: LiveKeys) {
    keys.live.Some? ==> keys.live.value.envelope.sequence < Next(p, sequences)
  }

  /** A publisher's pending envelope is its own, and while it is the last producer, not behind the live key. */
  ghost predicate PublisherOk(p: ProfileId, sequences: map<ProfileId, int>, keys: LiveKeys, k: Publisher) {
    && k.pending.Keys <= {Slot(p, k.credential.producer)}
    && forall slot | slot in k.pending ::
         && SlotOf(k.pending[slot]) == slot
         && k.pending[slot].sequence < Next(p, sequences)
         && (k.credential.token == keys.counter && keys.live.Some? ==>
               NotBehind(keys.live.value.envelope, k.pending[slot]))
  }

  ghost predicate WorldOk(p: ProfileId, c: Credential, world: World) {
    && PublisherOk(p, world.sequences, world.keys, Publisher(c, world.pending))
    && LiveBelow(p, world.sequences, world.keys)
    && Coordinated(world.keys)
  }

  predicate WorldMoves(p: ProfileId, c: Credential, before: World, after: World) {
    && LiveMoves(before.keys, after.keys)
    && Next(p, before.sequences) <= Next(p, after.sequences)
    && after.keys.counter == before.keys.counter && after.keys.issued == before.keys.issued
    && (after.keys.live != before.keys.live ==> c.token == before.keys.counter)
  }

  lemma PublishKeeps(p: ProfileId, c: Credential, login: int, world: World, e: LiveEnvelope, attempt: Attempt, now: Millis)
    requires WorldOk(p, c, world)
    requires Slot(p, c.producer) in world.pending && world.pending[Slot(p, c.producer)] == e
    ensures var after := PublishPending(world, Fence(login, c), e, attempt, now).0;
            WorldOk(p, c, after) && WorldMoves(p, c, world, after)
  {
    ApplyCoordinated(world.keys, now, Publish(c, e));
  }

  lemma BuildKeeps(p: ProfileId, c: Credential, login: int, world: World, kind: Kind, body: nat, clockOk: bool)
    requires WorldOk(p, c, world)
    ensures var built := Build(world.sequences, SessionOf(p, login, c), kind, body, clockOk);
            var next := world.(sequences := built.0);
            && WorldOk(p, c, next) && WorldMoves(p, c, world, next)
            && (built.1.Success? ==>
                  WorldOk(p, c, next.(pending := next.pending[Slot(p, c.producer) := built.1.value])))
  {
  }

  lemma MovesTwice(p: ProfileId, c: Credential, a: World, b: World, d: World)
    requires WorldMoves(p, c, a, b) && WorldMoves(p, c, b, d)
    ensures WorldMoves(p, c, a, d)
  {
  }

  lemma LaunchKeeps(p: ProfileId, c: Credential, login: int, world: World, e: LiveEnvelope, o: Observation)
    requires WorldOk(p, c, world.(pending := world.pending[Slot(p, c.producer) := e]))
    ensures var after := Launch(world, SessionOf(p, login, c), Fence(login, c), e, o).0;
            WorldOk(p, c, after) && WorldMoves(p, c, world, after)
  {
    PublishKeeps(p, c, login, world.(pending := world.pending[Slot(p, c.producer) := e]), e, o.attempt, o.now);
  }

  lemma ErrorKeeps(p: ProfileId, c: Credential, login: int, world: World, o: Observation)
    requires WorldOk(p, c, world)
    ensures var after := PublishError(world, SessionOf(p, login, c), Fence(login, c), o).0;
            WorldOk(p, c, after) && WorldMoves(p, c, world, after)
  {
    BuildKeeps(p, c, login, world, LiveError, o.errorBody, o.errorClockOk);
    var built := Build(world.sequences, SessionOf(p, login, c), LiveError, o.errorBody, o.errorClockOk);
    if built.1.Success? {
      var next := world.(sequences := built.0);
      LaunchKeeps(p, c, login, next, built.1.value, o);
      MovesTwice(p, c, world, next, Launch(next, SessionOf(p, login, c), Fence(login, c), built.1.value, o).0);
    }
  }

  lemma PollKeeps(p: ProfileId, c: Credential, login: int, world: World, o: Observation)
    requires WorldOk(p, c, world)
    ensures var after := Poll(world, SessionOf(p, login, c), Fence(login, c), o).0;
            WorldOk(p, c, after) && WorldMoves(p, c, world, after)
  {
    var session, fence := SessionOf(p, login, c), Fence(login, c);
    if SessionSlot(session) in world.pending {
      PublishKeeps(p, c, login, world, world.pending[SessionSlot(session)], o.attempt, o.now);
    } else if !o.identified || o.resourceFailed || !o.complete {
      ErrorKeeps(p, c, login, world, o);
    } else {
      BuildKeeps(p, c, login, world, Snapshot, o.body, o.clockOk);
      var built := Build(world.sequences, session, Snapshot, o.body, o.clockOk);
      var next := world.(sequences := built.0);
      if built.1.Failure? {
        ErrorKeeps(p, c, login, next, o);
        MovesTwice(p, c, world, next, PublishError(next, session, fence, o).0);
      } else {
        LaunchKeeps(p, c, login, next, built.1.value, o);
        MovesTwice(p, c, world, next, Launch(next, session, fence, built.1.value, o).0);
      }
    }
  }

  // ---------------------------------------------------------------------
  // Whole runs
  // ---------------------------------------------------------------------

  ghost predicate LiveInv(p: ProfileId, s: LiveSys) {
    && Coordinated(s.keys)
    && LiveBelow(p, s.sequences, s.keys)
    && (forall w | w in s.publishers ::
          PublisherOk(p, s.sequences, s.keys, s.publishers[w]) && s.publishers[w].credential.token <= s.keys.counter)
    && (forall w, v | w in s.publishers && v in s.publishers && w != v ::
          s.publishers[w].credential.token != s.publishers[v].credential.token)
  }

  lemma OthersKeep(p: ProfileId, c: Credential, before: World, after: World, k: Publisher)
    requires WorldMoves(p, c, before, after) && k.credential.token != c.token
    requires PublisherOk(p, before.sequences, before.keys, k)
    ensures PublisherOk(p, after.sequences, after.keys, k)
  {
  }

  lemma ObserveKeeps(p: ProfileId, s: LiveSys, a: LiveAction)
    requires LiveInv(p, s) && a.Observe? && a.worker in s.publishers
    ensures LiveInv(p, LiveStep(p, s, a)) && LiveMoves(s.keys, LiveStep(p, s, a).keys)
  {
    var k, t := s.publishers[a.worker], LiveStep(p, s, a);
    var before, after := WorldOf(s, k), Observed(p, s, k, a.login, a.observation);
    PollKeeps(p, k.credential, a.login, before, a.observation);
    forall w | w in t.publishers ensures PublisherOk(p, t.sequences, t.keys, t.publishers[w]) {
      if w != a.worker {
        OthersKeep(p, k.credential, before, after, s.publishers[w]);
      }
    }
  }

  lemma StartKeeps(p: ProfileId, s: LiveSys, a: LiveAction)
    requires LiveInv(p, s) && a.Start?
    ensures LiveInv(p, LiveStep(p, s, a)) && LiveMoves(s.keys, LiveStep(p, s, a).keys)
  {
    ApplyCoordinated(s.keys, a.now, Acquire(a.owner, a.producer, a.ttl, a.candidate));
  }

  lemma ScriptKeeps(p: ProfileId, s: LiveSys, a: LiveAction)
    requires LiveInv(p, s) && a.Script?
    ensures LiveInv(p, LiveStep(p, s, a)) && LiveMoves(s.keys, LiveStep(p, s, a).keys)
  {
    ApplyCoordinated(s.keys, a.now, a.call);
  }

  lemma ReserveKeeps(p: ProfileId, s: LiveSys, a: LiveAction)
    requires LiveInv(p, s) && a.Reserve?
    ensures LiveInv(p, LiveStep(p, s, a)) && LiveMoves(s.keys, LiveStep(p, s, a).keys)
  {
  }

  lemma LiveStepKeeps(p: ProfileId, s: LiveSys, a: LiveAction)
    requires LiveInv(p, s)
    ensures LiveInv(p, LiveStep(p, s, a)) && LiveMoves(s.keys, LiveStep(p, s, a).keys)
  {
    match a {
      case Start(_, _, _, _, _, _) => StartKeeps(p, s, a);
      case Observe(worker, _, _) =>
        if worker in s.publishers {
          ObserveKeeps(p, s, a);
        }
      case Script(_, _) => ScriptKeeps(p, s, a);
      case Reserve(_) => ReserveKeeps(p, s, a);
      case Stop(_) =>
    }
  }

  lemma {:induction false} LiveRunKeeps(p: ProfileId, actions: seq<LiveAction>)
    ensures LiveInv(p, LiveRun(p, actions))
  {
    if actions != [] {
      var n := |actions| - 1;
      LiveRunKeeps(p, actions[..n]);
      LiveStepKeeps(p, LiveRun(p, actions[..n]), actions[n]);
    }
  }

  /**
    Over whole runs of any number of workers, with any retries, lost replies and
    lease changes: the number under the live key never decreases, and two
    published envelopes with the same number are the same envelope.
   */
  lemma {:induction false} LiveNeverGoesBack(p: ProfileId, actions: seq<LiveAction>, n: nat)
    requires n <= |actions|
    ensures LiveMoves(LiveRun(p, actions[..n]).keys, LiveRun(p, actions).keys)
    decreases |actions|
  {
    if n == |actions| {
      assert actions[..n] == actions;
    } else {
      var k := |actions| - 1;
      assert actions[..k][..n] == actions[..n];
      LiveNeverGoesBack(p, actions[..k], n);
      LiveRunKeeps(p, actions[..k]);
      LiveStepKeeps(p, LiveRun(p, actions[..k]), actions[k]);
    }
  }
}
