/** When a live poll is turned away, and when it puts a new snapshot into Redis. */
module LiveLaws {
  import opened Wrappers
  import opened RedisTransport
  import opened Live
  import JournalModel
  import TransportLaws

  /** The session publishes for the login, the epochs and the token of the fence, under its own profile. */
  predicate Own(session: LiveSession, fence: Fence) {
    && session.login == fence.login
    && session.producer.profileId == session.journalProfileId
    && session.producer.epochId == fence.credential.producer
    && session.producer.epoch == fence.credential.epoch
    && session.producer.token == fence.credential.token
  }

  /** A poll is turned away before it does anything exactly when the fence is not the session's own. */
  lemma RejectedExactly(world: World, session: LiveSession, fence: Fence, o: Observation)
    ensures Poll(world, session, fence, o).1 == FENCE_REJECTED(None) <==> !Own(session, fence)
    ensures !Own(session, fence) ==> Poll(world, session, fence, o).0 == world
  {
  }

  /** The terminal is identified and answers completely, and the number and the clock are good. */
  predicate Complete(world: World, session: LiveSession, o: Observation) {
    && o.identified && !o.resourceFailed && o.complete && o.clockOk
    && session.journalProfileId != "" && session.producer.epochId != ""
    && (session.journalProfileId in world.sequences ==> world.sequences[session.journalProfileId] >= 1)
  }

  /** The number of the next envelope of the profile. */
  function NextNumber(world: World, session: LiveSession): int {
    if session.journalProfileId in world.sequences then world.sequences[session.journalProfileId] else 1
  }

  /**
    Without a pending envelope a complete poll builds the snapshot under the next number and uses
    no other. It becomes the live key exactly when the call arrives while the lease is held by the
    fence; it is reported as published, and is no longer pending, exactly when the answer arrives too.
   */
  lemma NewSnapshotExactly(world: World, session: LiveSession, fence: Fence, o: Observation)
    requires Own(session, fence) && Complete(world, session, o)
    requires Slot(session.journalProfileId, session.producer.epochId) !in world.pending
    ensures var r := Poll(world, session, fence, o);
            var slot := Slot(session.journalProfileId, session.producer.epochId);
            var n := NextNumber(world, session);
            var e := LiveEnvelope(Snapshot, session.journalProfileId, session.producer.epochId, n, o.body);
            var held := TransportLaws.HeldBy(world.keys, o.now, fence.credential);
            var arrives := o.attempt == Answered || o.attempt == ReplyLost;
            && r.0.sequences == world.sequences[session.journalProfileId := n + 1]
            && r.0.keys == (if arrives && held then world.keys.(live := Some(RedisTransport.Live(e, o.now + 60_000)))
                            else world.keys)
            && r.1 == (if o.attempt == Answered && held then PUBLISHED(e)
                       else if o.attempt == Answered then FENCE_REJECTED(Some(e)) else FAILED(Some(e)))
            && (slot in r.0.pending <==> !(o.attempt == Answered && held))
            && (slot in r.0.pending ==> r.0.pending == world.pending[slot := e])
  {
  }

  /**
    A pending envelope: nothing happens when the terminal cannot be revalidated; an error report
    leaves without being sent; a snapshot becomes the live key exactly when its call arrives while
    the lease is held, and leaves exactly when the answer arrives too. No number is used.
   */
  lemma PendingExactly(world: World, session: LiveSession, fence: Fence, o: Observation, e: LiveEnvelope)
    requires Own(session, fence)
    requires Slot(session.journalProfileId, session.producer.epochId) in world.pending
    requires e == world.pending[Slot(session.journalProfileId, session.producer.epochId)]
    requires e.profileId == session.journalProfileId && e.epochId == session.producer.epochId
    ensures var r := Poll(world, session, fence, o);
            var without := world.pending - {Slot(session.journalProfileId, session.producer.epochId)};
            var held := TransportLaws.HeldBy(world.keys, o.now, fence.credential);
            if o.attempt == RevalidationFailed then r == (world, FAILED(Some(e)))
            else if e.kind == LiveError then r == (world.(pending := without), FAILED(Some(e)))
            else
              var sent := (o.attempt == Answered || o.attempt == ReplyLost) && held;
              && r.0.sequences == world.sequences
              && r.0.keys == (if sent then world.keys.(live := Some(RedisTransport.Live(e, o.now + 60_000))) else world.keys)
              && r.0.pending == (if o.attempt == Answered && held then without else world.pending)
              && r.1 == (if o.attempt == Answered && held then PUBLISHED(e)
                         else if o.attempt == Answered then FENCE_REJECTED(Some(e)) else FAILED(Some(e)))
  {
  }

  /**
    A poll that is not complete reports an error and leaves Redis alone; the report waits only
    when the terminal cannot be revalidated.
   */
  lemma IncompleteReportsError(world: World, session: LiveSession, fence: Fence, o: Observation)
    requires Own(session, fence) && !Complete(world, session, o)
    requires Slot(session.journalProfileId, session.producer.epochId) !in world.pending
    ensures var r := Poll(world, session, fence, o);
            && r.0.keys == world.keys && r.1.FAILED?
            && (r.1.kept.Some? ==> r.1.kept.value.kind == LiveError && r.1.kept.value.body == o.errorBody)
            && (Slot(session.journalProfileId, session.producer.epochId) in r.0.pending
                <==> r.1.kept.Some? && o.attempt == RevalidationFailed)
  {
  }
}
