/**
  The outbox dispatcher: claims a batch and drains it to Redis. Each message it
  handles is one Send step and one Settle step of the pipeline machine.
 */
module OutboxDispatcher {
  import opened Wrappers
  import opened Canonical
  import opened JournalModel
  import opened RedisTransport
  import opened Pipeline
  import JournalRepository

  /** What the outside world does while one message is handled. */
  datatype Weather = Weather(sentAt: Utc, reply: Reply, settledAt: Utc, delay: nat, stopping: bool)

  datatype World = World(outbox: Outbox, keys: HistoryKeys, worker: Worker)

  /** One message: send it, then settle what the send left open. */
  function Dispatched(world: World, w: Weather, maxAttempts: int): World
    requires world.worker.queue != []
  {
    var k := world.worker;
    var sent := WorkerAfterSend(k, world.outbox, world.keys, w.sentAt, w.reply);
    var keys := if Appends(k, world.outbox, world.keys, w.sentAt, w.reply)
                then Apply(world.keys, w.sentAt, AppendCall(k, k.queue[0])) else world.keys;
    World(Settled(world.outbox, sent.phase, w.settledAt, w.delay, maxAttempts), keys, sent.(phase := Ready))
  }

  /** The whole queue, until the lease is lost or a stop is requested. */
  function Drained(world: World, weather: nat -> Weather, i: nat, maxAttempts: int): World
    decreases |world.worker.queue|
  {
    if world.worker.queue == [] then world
    else if world.worker.leaseLost || weather(i).stopping then world.(worker := world.worker.(queue := []))
    else Drained(Dispatched(world, weather(i), maxAttempts), weather, i + 1, maxAttempts)
  }

  lemma DrainStep(world: World, weather: nat -> Weather, i: nat, maxAttempts: int)
    requires world.worker.queue != [] && !world.worker.leaseLost && !weather(i).stopping
    ensures Drained(world, weather, i, maxAttempts)
            == Drained(Dispatched(world, weather(i), maxAttempts), weather, i + 1, maxAttempts)
  {
  }

  lemma HeadAndTail(messages: seq<Claimed>, i: nat)
    requires i < |messages|
    ensures messages[i..] == [messages[i]] + messages[i + 1..]
  {
  }

  class Dispatcher {
    const repository: JournalRepository.Repository
    const transport: Server<nat, Envelope>
    const credential: Credential
    const ownerId: string
    const batchSize: int
    const claimLeaseSeconds: int
    const maxAttempts: int
    const cleanupInterval: int
    const retention: int
    var leaseLost: bool
    var lastCleanupAt: int

    constructor (
      repository: JournalRepository.Repository, transport: Server<nat, Envelope>, credential: Credential,
      ownerId: string, batchSize: int, claimLeaseSeconds: int, maxAttempts: int,
      cleanupInterval: int, retention: int, clock: int)
      ensures this.repository == repository && this.transport == transport && this.credential == credential
      ensures this.ownerId == ownerId && this.batchSize == batchSize
      ensures this.claimLeaseSeconds == claimLeaseSeconds && this.maxAttempts == maxAttempts
      ensures this.cleanupInterval == cleanupInterval && this.retention == retention
      ensures !leaseLost && lastCleanupAt == clock
    {
      this.repository, this.transport, this.credential := repository, transport, credential;
      this.ownerId, this.batchSize, this.claimLeaseSeconds := ownerId, batchSize, claimLeaseSeconds;
      this.maxAttempts, this.cleanupInterval, this.retention := maxAttempts, cleanupInterval, retention;
      leaseLost, lastCleanupAt := false, clock;
    }

    ghost predicate Valid()
      reads repository, transport
    {
      repository.Valid() && transport.Valid()
    }

    /** The dispatcher and what it works on, holding the given messages. */
    ghost function Holding(queue: seq<Claimed>): World
      reads this, repository, transport
    {
      World(repository.outbox, transport.State(), Worker(credential, queue, Ready, leaseLost))
    }

    method Fail(m: Claimed, error: string, retryable: bool, w: Weather)
      requires repository.Valid()
      modifies repository`outbox
      ensures repository.Valid()
      ensures repository.outbox
              == Settled(old(repository.outbox), Undelivered(m.eventId, error, retryable),
                         w.settledAt, w.delay, maxAttempts)
    {
      var _ := repository.FailOutbox(m.eventId, error, retryable, w.settledAt, w.delay, maxAttempts);
    }

    /** Decides which journal transition each way of failing leads to. */
    method DispatchOne(m: Claimed, w: Weather, ghost rest: seq<Claimed>)
      requires Valid() && !leaseLost
      modifies this`leaseLost, repository`outbox, transport
      ensures Valid()
      ensures var next := Dispatched(old(Holding([m] + rest)), w, maxAttempts);
              && next.worker.queue == (if leaseLost then [] else rest)
              && Holding(next.worker.queue) == next
    {
      assert ([m] + rest)[1..] == rest;
      if m.envelope.Undecodable? {
        Fail(m, "MalformedEnvelope", false, w);
        return;
      }
      if IsMarker(m.envelope) && HasBlockingSibling(repository.outbox, m.windowId, m.eventId) {
        return;
      }
      match w.reply {
        case Invalid =>
          Fail(m, "ValueError", false, w);
        case NeverSent =>
          Fail(m, "RedisTransportError", true, w);
        case ReplyLost =>
          var _ := transport.AppendStreamFenced(w.sentAt, credential, m.eventId, m.envelope);
          Fail(m, "RedisTransportError", true, w);
        case Answered =>
          var r := transport.AppendStreamFenced(w.sentAt, credential, m.eventId, m.envelope);
          if r.Failure? {
            leaseLost := true;
            return;
          }
          var _ := repository.AckOutbox(m.eventId, r.value, w.settledAt);
      }
    }

    /** One claim-and-drain cycle. */
    method DispatchOnce(now: Utc, weather: nat -> Weather) returns (r: Result<()>)
      requires Valid()
      modifies this`leaseLost, repository`outbox, transport
      ensures Valid()
      ensures match ClaimTransaction(old(repository.outbox), ownerId, batchSize, now, claimLeaseSeconds)
              case Failure(error) => r == Failure(error) && Holding([]) == old(Holding([]))
              case Success(claimed) =>
                && r == Success(())
                && Holding([]) == Drained(old(Holding(claimed.1)).(outbox := claimed.0), weather, 0, maxAttempts)
    {
      var claimed := repository.ClaimOutbox(ownerId, batchSize, now, claimLeaseSeconds);
      if claimed.Failure? {
        return Failure(claimed.error);
      }
      var messages := claimed.value;
      ghost var start := Holding(messages);
      ghost var world := if leaseLost then Holding([]) else start;
      var i := 0;
      while i < |messages| && !leaseLost && !weather(i).stopping
        invariant i <= |messages| && Valid()
        invariant world.worker.queue == (if leaseLost then [] else messages[i..]) && world == Holding(world.worker.queue)
        invariant Drained(start, weather, 0, maxAttempts) == Drained(world, weather, i, maxAttempts)
      {
        DrainStep(world, weather, i, maxAttempts);
        world := Dispatched(world, weather(i), maxAttempts);
        HeadAndTail(messages, i);
        DispatchOne(messages[i], weather(i), messages[i + 1..]);
        i := i + 1;
      }
      r := Success(());
    }

    /** Deletes published rows past their retention, at most once per interval. */
    method MaybeCleanup(clock: int, now: Utc)
      requires Valid()
      modifies this`lastCleanupAt, repository`outbox
      ensures Valid()
      ensures var due := clock - old(lastCleanupAt) >= cleanupInterval;
              && repository.outbox == (if due then Cleanup(old(repository.outbox), now - retention)
                                       else old(repository.outbox))
              && lastCleanupAt == (if due then clock else old(lastCleanupAt))
    {
      if clock - lastCleanupAt < cleanupInterval {
        return;
      }
      lastCleanupAt := clock;
      var _ := repository.CleanupPublishedOutbox(now - retention);
    }
  }

  // ---------------------------------------------------------------------
  // A dispatch cycle is a run of the pipeline machine
  // ---------------------------------------------------------------------

  ghost function StepAll(s: Sys, actions: seq<Action>): Sys
    decreases |actions|
  {
    if actions == [] then s else StepAll(Step(s, actions[0]), actions[1..])
  }

  ghost predicate Represents(s: Sys, k: nat, world: World) {
    k in s.workers && s.workers[k] == world.worker && s.db.outbox == world.outbox && s.keys == world.keys
  }

  lemma DispatchedIsTwoSteps(s: Sys, k: nat, world: World, w: Weather, maxAttempts: int)
    requires Represents(s, k, world) && world.worker.queue != [] && !world.worker.leaseLost
    requires world.worker.phase == Ready
    ensures var send, settle := Send(k, w.sentAt, w.reply), Settle(k, w.settledAt, w.delay, maxAttempts);
            Represents(Step(Step(s, send), settle), k, Dispatched(world, w, maxAttempts))
  {
  }

  /**
    Draining a queue is a sequence of Send and Settle steps, ended by a Stop when
    messages are left: every invariant of the machine holds of the dispatcher.
   */
  lemma {:induction false} DrainIsRun(
    s: Sys, k: nat, world: World, weather: nat -> Weather, i: nat, maxAttempts: int
  ) returns (actions: seq<Action>)
    requires Represents(s, k, world) && world.worker.phase == Ready
    ensures var t, end := StepAll(s, actions), Drained(world, weather, i, maxAttempts);
            && t.db.outbox == end.outbox && t.keys == end.keys
            && (k in t.workers ==> t.workers[k] == end.worker)
    decreases |world.worker.queue|
  {
    if world.worker.queue == [] {
      actions := [];
    } else if world.worker.leaseLost || weather(i).stopping {
      actions := [Stop(k)];
      assert StepAll(Step(s, Stop(k)), []) == Step(s, Stop(k));
    } else {
      var w := weather(i);
      var send, settle := Send(k, w.sentAt, w.reply), Settle(k, w.settledAt, w.delay, maxAttempts);
      DispatchedIsTwoSteps(s, k, world, w, maxAttempts);
      var next := Step(Step(s, send), settle);
      var rest := DrainIsRun(next, k, Dispatched(world, w, maxAttempts), weather, i + 1, maxAttempts);
      actions := [send, settle] + rest;
      assert actions[1..] == [settle] + rest && actions[1..][1..] == rest;
    }
  }

  // ---------------------------------------------------------------------
  // Which failure leads to which transition
  // ---------------------------------------------------------------------

  /** The row of the message after a failed delivery. */
  ghost predicate FailedAs(before: Row, after: Row, retryable: bool, w: Weather, maxAttempts: int) {
    && after.failures == before.failures + 1
    && (after.state == PENDING || after.state == QUARANTINED)
    && (after.state == PENDING <==> retryable && before.failures + 1 < maxAttempts)
    && (after.state == PENDING ==> after.nextAttemptAt == w.settledAt + w.delay)
  }

  /**
    A claimed message is published exactly when its append is accepted and the
    reply arrives. A stale credential stops the batch and leaves the row; every
    other failure counts once, and only transport errors are tried again.
   */
  lemma OutcomeOfMessage(world: World, w: Weather, maxAttempts: int)
    requires world.worker.queue != [] && world.worker.phase == Ready && !world.worker.leaseLost && maxAttempts > 0
    requires var m := world.worker.queue[0];
             m.eventId in world.outbox && world.outbox[m.eventId].state == INFLIGHT && !Skipped(world.outbox, m)
    ensures var m, after := world.worker.queue[0], Dispatched(world, w, maxAttempts);
            var row := world.outbox[m.eventId];
            var accepted := Accepted(world.keys, w.sentAt, AppendCall(world.worker, m));
            && m.eventId in after.outbox
            && (forall e | e in world.outbox && e != m.eventId :: e in after.outbox && after.outbox[e] == world.outbox[e])
            && (after.outbox[m.eventId].state == PUBLISHED <==> m.envelope.Decoded? && w.reply == Answered && accepted)
            && (after.worker.leaseLost <==> m.envelope.Decoded? && w.reply == Answered && !accepted)
            && (after.worker.leaseLost ==> after.outbox == world.outbox && after.worker.queue == [])
            && (!after.worker.leaseLost ==> after.worker.queue == world.worker.queue[1..])
            && (m.envelope.Undecodable? ==> FailedAs(row, after.outbox[m.eventId], false, w, maxAttempts))
            && (m.envelope.Decoded? && w.reply == Invalid ==> FailedAs(row, after.outbox[m.eventId], false, w, maxAttempts))
            && (m.envelope.Decoded? && (w.reply == NeverSent || w.reply == ReplyLost) ==>
                  FailedAs(row, after.outbox[m.eventId], true, w, maxAttempts))
            && (|after.keys.stream| == |world.keys.stream| + 1 <==> m.envelope.Decoded? && Arrives(w.reply) && accepted)
  {
  }

  /** A marker whose window still has an unpublished row is passed over: nothing is sent and no row changes. */
  lemma HeldMarkerPassedOver(world: World, w: Weather, maxAttempts: int)
    requires world.worker.queue != [] && world.worker.phase == Ready
    requires var m := world.worker.queue[0];
             && m.envelope.Decoded? && m.envelope.messageType == HistoryWindow
             && exists x | x in world.outbox ::
                  x != m.eventId && world.outbox[x].windowId == m.windowId && world.outbox[x].state != PUBLISHED
    ensures Dispatched(world, w, maxAttempts) == world.(worker := world.worker.(queue := world.worker.queue[1..]))
  {
  }

  /** A failed delivery leaves its name on the row. */
  lemma FailureIsNamed(world: World, w: Weather, maxAttempts: int)
    requires world.worker.queue != [] && world.worker.phase == Ready && !world.worker.leaseLost && maxAttempts > 0
    requires var m := world.worker.queue[0];
             m.eventId in world.outbox && world.outbox[m.eventId].state == INFLIGHT && !Skipped(world.outbox, m)
    ensures var m, after := world.worker.queue[0], Dispatched(world, w, maxAttempts);
            && m.eventId in after.outbox
            && (m.envelope.Undecodable? ==> after.outbox[m.eventId].lastError == "MalformedEnvelope")
            && (m.envelope.Decoded? && w.reply == Invalid ==> after.outbox[m.eventId].lastError == "ValueError")
            && (m.envelope.Decoded? && (w.reply == NeverSent || w.reply == ReplyLost) ==>
                  after.outbox[m.eventId].lastError == "RedisTransportError")
  {
  }

  /** A stop, or a lost lease, ends the batch at once: the messages left keep their rows. */
  lemma {:induction false} DrainStops(world: World, weather: nat -> Weather, i: nat, maxAttempts: int)
    requires world.worker.leaseLost || weather(i).stopping
    ensures Drained(world, weather, i, maxAttempts) == world.(worker := world.worker.(queue := []))
  {
  }

  /** How many messages a batch gets to: all of them, or those before the first stop or lost lease. */
  ghost predicate Handles(world: World, weather: nat -> Weather, i: nat, maxAttempts: int, n: nat, after: World)
    decreases n
  {
    if n == 0 then
      after == world.(worker := world.worker.(queue := []))
      && (world.worker.queue == [] || world.worker.leaseLost || weather(i).stopping)
    else
      && world.worker.queue != [] && !world.worker.leaseLost && !weather(i).stopping
      && Handles(Dispatched(world, weather(i), maxAttempts), weather, i + 1, maxAttempts, n - 1, after)
  }

  /** A batch is handled message by message, and ends only when it is empty, stopped or its lease is lost. */
  lemma {:induction false} DrainHandles(world: World, weather: nat -> Weather, i: nat, maxAttempts: int) returns (n: nat)
    ensures n <= |world.worker.queue|
    ensures Handles(world, weather, i, maxAttempts, n, Drained(world, weather, i, maxAttempts))
    decreases |world.worker.queue|
  {
    if world.worker.queue == [] || world.worker.leaseLost || weather(i).stopping {
      n := 0;
    } else {
      var rest := DrainHandles(Dispatched(world, weather(i), maxAttempts), weather, i + 1, maxAttempts);
      n := rest + 1;
    }
  }
}
