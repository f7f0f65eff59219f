/**
  Nothing is lost, and a window's marker follows its records: invariants of
  every run of the pipeline.
 */
module DeliveryProof {
  import opened Wrappers
  import opened Canonical
  import opened JournalModel
  import opened RedisTransport
  import opened Pipeline
  import ClaimOrder
  import JournalRepository

  ghost predicate Logged(log: seq<Delivery>, e: EventId) {
    exists i | 0 <= i < |log| :: log[i].eventId == e
  }

  predicate Waiting(outbox: Outbox, w: WindowId, e: EventId) {
    e in outbox && outbox[e].windowId == w && outbox[e].state != PUBLISHED
  }

  /** The obligation to deliver an event is met or still recorded. */
  ghost predicate Safe(outbox: Outbox, log: seq<Delivery>, e: EventId) {
    Logged(log, e) || (e in outbox && outbox[e].state != PUBLISHED)
  }

  /** Every other row ever inserted under the window has been appended and resolved. */
  ghost predicate SiblingsDone(s: Sys, w: WindowId, e: EventId) {
    && w in s.db.windows
    && forall x | x in s.inserted && x.windowId == w && x.eventId != e ::
         Logged(s.log, x.eventId) && !Waiting(s.db.outbox, w, x.eventId)
  }

  ghost predicate PublishedLogged(s: Sys) {
    forall e | e in s.db.outbox && s.db.outbox[e].state == PUBLISHED :: Logged(s.log, e)
  }

  ghost predicate InsertedTracked(s: Sys) {
    && (forall x | x in s.inserted ::
          && x.windowId in s.db.windows
          && (Logged(s.log, x.eventId) || Waiting(s.db.outbox, x.windowId, x.eventId)))
    && (forall e | e in s.db.outbox :: Insertion(s.db.outbox[e].windowId, e) in s.inserted)
  }

  ghost predicate MarkersReady(s: Sys) {
    && (forall e | e in s.db.outbox && s.db.outbox[e].state == INFLIGHT && IsMarker(s.db.outbox[e].envelope) ::
          SiblingsDone(s, s.db.outbox[e].windowId, e))
    && (forall k, i | k in s.workers && 0 <= i < |s.workers[k].queue| && IsMarker(s.workers[k].queue[i].envelope) ::
          SiblingsDone(s, s.workers[k].queue[i].windowId, s.workers[k].queue[i].eventId))
  }

  ghost predicate DeliveriesLogged(s: Sys) {
    forall k | k in s.workers && s.workers[k].phase.Delivered? :: Logged(s.log, s.workers[k].phase.eventId)
  }

  /** The log mirrors the stream, and each logged marker comes after the rest of its window. */
  ghost predicate LogOrdered(s: Sys) {
    && |s.log| == |s.keys.stream|
    && (forall i | 0 <= i < |s.log| ::
          s.log[i].eventId == s.keys.stream[i].eventId && s.log[i].envelope == s.keys.stream[i].envelope)
    && (forall i | 0 <= i < |s.log| && IsMarker(s.log[i].envelope) ::
          && s.log[i].windowId in s.db.windows
          && forall x | x in s.inserted && x.windowId == s.log[i].windowId && x.eventId != s.log[i].eventId ::
               Logged(s.log[..i], x.eventId))
  }

  ghost predicate Inv(s: Sys) {
    && Coordinated(s.keys)
    && Decodable(s.db.outbox)
    && PublishedLogged(s)
    && InsertedTracked(s)
    && MarkersReady(s)
    && DeliveriesLogged(s)
    && LogOrdered(s)
  }

  // ---------------------------------------------------------------------
  // Steps on existing rows
  // ---------------------------------------------------------------------

  /** Rows keep their window and envelope, leave only when published, and publish only when logged. */
  ghost predicate RowsEvolve(before: Outbox, after: Outbox, log: seq<Delivery>) {
    && (forall e | e in after ::
          && e in before
          && after[e].windowId == before[e].windowId
          && after[e].envelope == before[e].envelope
          && (before[e].state == PUBLISHED ==> after[e].state == PUBLISHED)
          && (after[e].state == PUBLISHED ==> before[e].state == PUBLISHED || Logged(log, e)))
    && (forall e | e in before && e !in after :: before[e].state == PUBLISHED)
  }

  lemma RowsEvolveKeep(s: Sys, t: Sys)
    requires Inv(s)
    requires t == s.(db := s.db.(outbox := t.db.outbox))
    requires RowsEvolve(s.db.outbox, t.db.outbox, s.log)
    requires forall e | e in t.db.outbox && t.db.outbox[e].state == INFLIGHT && IsMarker(t.db.outbox[e].envelope) ::
               s.db.outbox[e].state == INFLIGHT || SiblingsDone(s, s.db.outbox[e].windowId, e)
    ensures Inv(t)
    ensures forall w, e | SiblingsDone(s, w, e) :: SiblingsDone(t, w, e)
  {
    forall w, x: EventId | Waiting(t.db.outbox, w, x) ensures Waiting(s.db.outbox, w, x) {
    }
    forall w, x: EventId | Waiting(s.db.outbox, w, x) ensures Waiting(t.db.outbox, w, x) || Logged(s.log, x) {
    }
    forall w, e | SiblingsDone(s, w, e) ensures SiblingsDone(t, w, e) {
    }
  }

  lemma UnblockedMarkerReady(s: Sys, e: EventId)
    requires Inv(s) && e in s.db.outbox && !Blocked(s.db.outbox, e) && IsMarker(s.db.outbox[e].envelope)
    ensures SiblingsDone(s, s.db.outbox[e].windowId, e)
  {
    var w := s.db.outbox[e].windowId;
    assert Insertion(w, e) in s.inserted;
    forall x | x in s.inserted && x.windowId == w && x.eventId != e
      ensures Logged(s.log, x.eventId) && !Waiting(s.db.outbox, w, x.eventId)
    {
      assert !Waiting(s.db.outbox, w, x.eventId);
    }
  }

  /** Only due, unblocked rows are handed out. */
  ghost predicate Claimable(outbox: Outbox, ids: seq<EventId>) {
    forall e | e in ids :: e in outbox && outbox[e].state != PUBLISHED && !Blocked(outbox, e)
  }

  lemma ClaimedClaimable(outbox: Outbox, limit: nat, now: Utc)
    ensures Claimable(outbox, ClaimedIds(outbox, limit, now))
  {
    var ids := ClaimedIds(outbox, limit, now);
    forall e | e in ids
      ensures e in outbox && outbox[e].state != PUBLISHED && !Blocked(outbox, e)
    {
      ClaimOrder.ClaimTakesDueRowsOnly(outbox, limit, now, e);
    }
  }

  lemma ClaimEvolves(outbox: Outbox, log: seq<Delivery>, ids: seq<EventId>, owner: string, expires: Utc)
    requires Claimable(outbox, ids)
    ensures var after := Claim(outbox, ids, owner, expires);
            && RowsEvolve(outbox, after, log)
            && (forall e | e in after && e !in ids :: after[e] == outbox[e])
  {
  }

  function WithClaim(s: Sys, k: nat, ids: seq<EventId>, owner: string, expires: Utc): Sys
    requires k in s.workers && forall e | e in ids :: e in s.db.outbox
  {
    var out := HandOut(s.db.outbox, ids, owner, expires);
    s.(db := s.db.(outbox := out.0), workers := s.workers[k := s.workers[k].(queue := out.1)])
  }

  ghost predicate Handed(s: Sys, t: Sys, k: nat, ids: seq<EventId>, owner: string, expires: Utc) {
    k in s.workers && Claimable(s.db.outbox, ids) && t == WithClaim(s, k, ids, owner, expires)
  }

  lemma TransactionShape(outbox: Outbox, owner: string, limit: int, now: Utc, leaseSeconds: int)
    returns (ids: seq<EventId>)
    ensures Claimable(outbox, ids)
    ensures var c := ClaimTransaction(outbox, owner, limit, now, leaseSeconds);
            c == Failure(ValueError) || c == Success(HandOut(outbox, ids, owner, now + 1000 * leaseSeconds))
  {
    if limit > 0 {
      ids := ClaimedIds(outbox, limit, now);
      ClaimedClaimable(outbox, limit, now);
    } else {
      ids := [];
    }
  }

  /** A claim that takes effect hands a dispatcher some claimable rows. */
  lemma ClaimShape(s: Sys, a: Action) returns (t: Sys, taken: bool, ids: seq<EventId>, expires: Utc)
    requires a.ClaimBatch?
    ensures t == Step(s, a)
    ensures !taken ==> t == s
    ensures taken ==> Handed(s, t, a.worker, ids, a.owner, expires)
  {
    t, expires := Step(s, a), a.now + 1000 * a.leaseSeconds;
    ids := TransactionShape(s.db.outbox, a.owner, a.limit, a.now, a.leaseSeconds);
    taken := && a.worker in s.workers
             && s.workers[a.worker].queue == [] && s.workers[a.worker].phase == Ready
             && ClaimTransaction(s.db.outbox, a.owner, a.limit, a.now, a.leaseSeconds).Success?;
  }

  lemma ClaimKeeps(s: Sys, a: Action)
    requires Inv(s) && a.ClaimBatch?
    ensures Inv(Step(s, a))
  {
    var t, taken, ids, expires := ClaimShape(s, a);
    ClaimEndsWell(s, t, taken, a.worker, ids, a.owner, expires);
  }

  lemma ClaimEndsWell(s: Sys, t: Sys, taken: bool, k: nat, ids: seq<EventId>, owner: string, expires: Utc)
    requires Inv(s) && (!taken ==> t == s) && (taken ==> Handed(s, t, k, ids, owner, expires))
    ensures Inv(t)
  {
    if taken {
      ClaimHandsOver(s, t, k, ids, owner, expires);
    }
  }

  lemma ClaimHandsOver(s: Sys, t: Sys, k: nat, ids: seq<EventId>, owner: string, expires: Utc)
    requires Inv(s) && Handed(s, t, k, ids, owner, expires)
    ensures Inv(t)
  {
    ClaimEvolves(s.db.outbox, s.log, ids, owner, expires);
    var mid := s.(db := s.db.(outbox := Claim(s.db.outbox, ids, owner, expires)));
    ClaimedRowsKeep(s, mid, ids);
    ClaimedReady(s, mid, ids);
    QueueKeeps(mid, t, k);
  }

  lemma ClaimedRowsKeep(s: Sys, t: Sys, ids: seq<EventId>)
    requires Inv(s) && t == s.(db := s.db.(outbox := t.db.outbox))
    requires RowsEvolve(s.db.outbox, t.db.outbox, s.log)
    requires forall e | e in ids :: e in s.db.outbox && !Blocked(s.db.outbox, e)
    requires forall e | e in t.db.outbox && e !in ids :: t.db.outbox[e] == s.db.outbox[e]
    ensures Inv(t)
    ensures forall w, e | SiblingsDone(s, w, e) :: SiblingsDone(t, w, e)
  {
    forall e | e in t.db.outbox && t.db.outbox[e].state == INFLIGHT && IsMarker(t.db.outbox[e].envelope)
      ensures s.db.outbox[e].state == INFLIGHT || SiblingsDone(s, s.db.outbox[e].windowId, e)
    {
      if e in ids {
        UnblockedMarkerReady(s, e);
      }
    }
    RowsEvolveKeep(s, t);
  }

  /** A dispatcher takes a queue of messages whose markers are ready. */
  lemma QueueKeeps(s: Sys, t: Sys, k: nat)
    requires Inv(s) && k in s.workers
    requires k in t.workers && t == s.(workers := s.workers[k := s.workers[k].(queue := t.workers[k].queue)])
    requires forall i | 0 <= i < |t.workers[k].queue| && IsMarker(t.workers[k].queue[i].envelope) ::
               SiblingsDone(s, t.workers[k].queue[i].windowId, t.workers[k].queue[i].eventId)
    ensures Inv(t)
  {
    forall w, e | SiblingsDone(s, w, e) ensures SiblingsDone(t, w, e) {
    }
  }

  lemma ClaimedReady(s: Sys, t: Sys, ids: seq<EventId>)
    requires Inv(s) && forall w, e | SiblingsDone(s, w, e) :: SiblingsDone(t, w, e)
    requires forall e | e in ids :: e in s.db.outbox && !Blocked(s.db.outbox, e) && e in t.db.outbox
    requires forall e | e in ids ::
               && t.db.outbox[e].windowId == s.db.outbox[e].windowId
               && t.db.outbox[e].envelope == s.db.outbox[e].envelope
    ensures forall i | 0 <= i < |ids| && IsMarker(ClaimedMessage(t.db.outbox, ids[i]).envelope) ::
              SiblingsDone(t, ClaimedMessage(t.db.outbox, ids[i]).windowId, ids[i])
  {
    forall i | 0 <= i < |ids| && IsMarker(ClaimedMessage(t.db.outbox, ids[i]).envelope)
      ensures SiblingsDone(t, ClaimedMessage(t.db.outbox, ids[i]).windowId, ids[i])
    {
      assert ids[i] in ids;
      UnblockedMarkerReady(s, ids[i]);
    }
  }

  lemma SettledEvolves(outbox: Outbox, log: seq<Delivery>, a: Action, phase: Phase)
    requires a.Settle? && (phase.Delivered? ==> Logged(log, phase.eventId))
    ensures var after := Settled(outbox, phase, a.now, a.delay, a.maxAttempts);
            && RowsEvolve(outbox, after, log)
            && (forall e | e in after && after[e].state == INFLIGHT :: outbox[e].state == INFLIGHT)
  {
  }

  lemma SettleKeeps(s: Sys, a: Action)
    requires Inv(s) && a.Settle?
    ensures Inv(Step(s, a))
  {
    if a.worker in s.workers {
      SettledEvolves(s.db.outbox, s.log, a, s.workers[a.worker].phase);
      var after := Settled(s.db.outbox, s.workers[a.worker].phase, a.now, a.delay, a.maxAttempts);
      var mid := s.(db := s.db.(outbox := after));
      RowsEvolveKeep(s, mid);
      PhaseKeeps(mid, Step(s, a), a.worker);
    }
  }

  lemma PhaseKeeps(s: Sys, t: Sys, k: nat)
    requires Inv(s) && k in s.workers
    requires t == s.(workers := s.workers[k := s.workers[k].(phase := Ready)])
    ensures Inv(t)
  {
    forall w, e | SiblingsDone(s, w, e) ensures SiblingsDone(t, w, e) {
    }
  }

  lemma RowStepEvolves(outbox: Outbox, log: seq<Delivery>, e: EventId, now: Utc, cutoff: Utc)
    ensures RowsEvolve(outbox, Cleanup(outbox, cutoff), log)
    ensures forall x | x in Cleanup(outbox, cutoff) :: Cleanup(outbox, cutoff)[x] == outbox[x]
    ensures Requeue(outbox, e, now).Success? ==>
              && RowsEvolve(outbox, Requeue(outbox, e, now).value, log)
              && forall x | x in outbox && Requeue(outbox, e, now).value[x].state == INFLIGHT ::
                   outbox[x].state == INFLIGHT
  {
  }

  lemma RowStepKeeps(s: Sys, a: Action)
    requires Inv(s) && (a.RequeueMessage? || a.CleanupPublished?)
    ensures Inv(Step(s, a))
  {
    match a {
      case RequeueMessage(e, now) => RowStepEvolves(s.db.outbox, s.log, e, now, 0);
      case CleanupPublished(cutoff) => RowStepEvolves(s.db.outbox, s.log, 0, 0, cutoff);
    }
    RowsEvolveKeep(s, Step(s, a));
  }

  // ---------------------------------------------------------------------
  // Appending
  // ---------------------------------------------------------------------

  lemma LogGrows(log: seq<Delivery>, d: Delivery)
    ensures Logged(log + [d], d.eventId)
    ensures forall e | Logged(log, e) :: Logged(log + [d], e)
  {
    var after := log + [d];
    assert after[|log|] == d;
    forall e | Logged(log, e) ensures Logged(after, e) {
      var i :| 0 <= i < |log| && log[i].eventId == e;
      assert after[i].eventId == e;
    }
  }

  /** An INFLIGHT marker in a dispatcher's hands passes the re-check before it is published. */
  lemma RecheckNeverFires(s: Sys, k: nat)
    requires Inv(s) && k in s.workers && s.workers[k].queue != []
    ensures s.workers[k].queue[0].envelope.Decoded? ==> !Skipped(s.db.outbox, s.workers[k].queue[0])
  {
    var m := s.workers[k].queue[0];
    if Skipped(s.db.outbox, m) {
      var x :| x in s.db.outbox && s.db.outbox[x].windowId == m.windowId && x != m.eventId
               && s.db.outbox[x].state != PUBLISHED;
      assert Insertion(m.windowId, x) in s.inserted;
      assert SiblingsDone(s, m.windowId, m.eventId);
      assert Waiting(s.db.outbox, m.windowId, x);
      assert false;
    }
  }

  lemma AppendKeeps(s: Sys, t: Sys, d: Delivery)
    requires Inv(s)
    requires t == s.(keys := t.keys, log := s.log + [d])
    requires Coordinated(t.keys) && t.keys.stream == s.keys.stream + [Entry(d.eventId, d.envelope)]
    requires IsMarker(d.envelope) ==> SiblingsDone(s, d.windowId, d.eventId)
    ensures Inv(t)
    ensures forall w, e | SiblingsDone(s, w, e) :: SiblingsDone(t, w, e)
  {
    LogGrows(s.log, d);
    forall w, e | SiblingsDone(s, w, e) ensures SiblingsDone(t, w, e) {
    }
    forall i | 0 <= i < |t.log| && IsMarker(t.log[i].envelope)
      ensures t.log[i].windowId in t.db.windows
      ensures forall x | x in t.inserted && x.windowId == t.log[i].windowId && x.eventId != t.log[i].eventId ::
                Logged(t.log[..i], x.eventId)
    {
      if i < |s.log| {
        assert t.log[..i] == s.log[..i] && t.log[i] == s.log[i];
      } else {
        assert t.log[..i] == s.log && t.log[i] == d;
      }
    }
  }

  lemma SendKeeps(s: Sys, a: Action)
    requires Inv(s) && a.Send?
    ensures Inv(Step(s, a))
  {
    var t := Step(s, a);
    if t != s {
      var k := s.workers[a.worker];
      var m := k.queue[0];
      var d := Delivery(m.eventId, m.windowId, m.envelope);
      RecheckNeverFires(s, a.worker);
      if Appends(k, s.db.outbox, s.keys, a.now, a.reply) {
        var mid := s.(keys := t.keys, log := t.log);
        ApplyCoordinated(s.keys, a.now, AppendCall(k, m));
        AppendKeeps(s, mid, d);
        LogGrows(s.log, d);
        WorkerChangeKeeps(mid, t, a.worker);
      } else {
        WorkerChangeKeeps(s, t, a.worker);
      }
    }
  }

  /** A dispatcher that drops messages from its queue keeps the invariant. */
  lemma WorkerChangeKeeps(s: Sys, t: Sys, k: nat)
    requires Inv(s) && k in s.workers
    requires k in t.workers && t == s.(workers := s.workers[k := t.workers[k]])
    requires t.workers[k].queue == [] || (s.workers[k].queue != [] && t.workers[k].queue == s.workers[k].queue[1..])
    requires t.workers[k].phase.Delivered? ==> Logged(s.log, t.workers[k].phase.eventId)
    ensures Inv(t)
  {
    forall w, e | SiblingsDone(s, w, e) ensures SiblingsDone(t, w, e) {
    }
    forall j, i | j in t.workers && 0 <= i < |t.workers[j].queue| && IsMarker(t.workers[j].queue[i].envelope)
      ensures SiblingsDone(t, t.workers[j].queue[i].windowId, t.workers[j].queue[i].eventId)
    {
      if j == k {
        assert t.workers[j].queue[i] == s.workers[j].queue[i + 1];
      }
    }
  }

  lemma StartKeeps(s: Sys, a: Action)
    requires Inv(s) && a.Start?
    ensures Inv(Step(s, a))
  {
    var call := Acquire(a.owner, a.producer, a.ttl, a.candidate);
    if a.worker !in s.workers && Accepted(s.keys, a.now, call) {
      ApplyCoordinated(s.keys, a.now, call);
      UntouchedKeeps(s, Step(s, a));
    }
  }

  lemma OtherShape(s: Sys, a: Action)
    requires a.RecoverBound? || a.Stop? || a.ReserveSequence?
    ensures var t := Step(s, a);
            && t.db.outbox == s.db.outbox && t.db.windows == s.db.windows && t.db.versions == s.db.versions
            && t.db.members == s.db.members && t.log == s.log && t.inserted == s.inserted && t.keys == s.keys
            && t.spent == s.spent
            && (forall k | k in t.workers :: k in s.workers && t.workers[k] == s.workers[k])
  {
  }

  /** Steps that touch neither the outbox nor the log. */
  lemma OtherStepKeeps(s: Sys, a: Action)
    requires Inv(s) && (a.RecoverBound? || a.Script? || a.Stop? || a.ReserveSequence?)
    ensures Inv(Step(s, a))
  {
    if a.Script? {
      ApplyCoordinated(s.keys, a.now, a.call);
    } else {
      OtherShape(s, a);
    }
    UntouchedKeeps(s, Step(s, a));
  }

  lemma UntouchedKeeps(s: Sys, t: Sys)
    requires Inv(s)
    requires t.db.outbox == s.db.outbox && t.db.windows == s.db.windows
    requires t.log == s.log && t.inserted == s.inserted
    requires Coordinated(t.keys) && t.keys.stream == s.keys.stream
    requires forall k | k in t.workers :: (k in s.workers && t.workers[k] == s.workers[k])
               || (t.workers[k].queue == [] && t.workers[k].phase == Ready)
    ensures Inv(t)
  {
    forall w, e | SiblingsDone(s, w, e) ensures SiblingsDone(t, w, e) {
    }
  }

  // ---------------------------------------------------------------------
  // Committing
  // ---------------------------------------------------------------------

  lemma CommittedOutbox(s: Sys, a: Action)
    requires a.CommitWindow? && Decodable(s.db.outbox)
    requires Commit(s.db, a.expected, a.window, a.records, a.messages, a.mode).Success?
    ensures var db := Commit(s.db, a.expected, a.window, a.records, a.messages, a.mode).value;
            && Decodable(db.outbox)
            && a.window.id !in s.db.windows && db.windows.Keys == s.db.windows.Keys + {a.window.id}
            && (forall e | e in s.db.outbox :: e in db.outbox && db.outbox[e] == s.db.outbox[e])
            && (forall e | e in db.outbox && e !in s.db.outbox ::
                  && Insertion(a.window.id, e) in Inserted(s.db.outbox, a.messages, a.window.id)
                  && db.outbox[e].windowId == a.window.id && db.outbox[e].state == PENDING)
            && (forall x | x in Inserted(s.db.outbox, a.messages, a.window.id) ::
                  && x.windowId == a.window.id && x.eventId in db.outbox && x.eventId !in s.db.outbox
                  && db.outbox[x.eventId].windowId == a.window.id && db.outbox[x.eventId].state == PENDING)
  {
    var w := a.window;
    JournalRepository.CommitDecodable(s.db, a.expected, w, a.records, a.messages, a.mode);
    EnqueueKeepsAndAdds(s.db.outbox, a.messages, w.committedAt);
    AdmittedMessages(s.db, a);
    var after := Enqueue(s.db.outbox, a.messages, w.committedAt);
    forall e | e in after && e !in s.db.outbox
      ensures Insertion(w.id, e) in Inserted(s.db.outbox, a.messages, w.id)
              && after[e].windowId == w.id && after[e].state == PENDING
    {
      var k :| 0 <= k < |a.messages| && a.messages[k].eventId == e;
      assert a.messages[k] in a.messages;
    }
  }

  lemma AdmittedMessages(db: Db, a: Action)
    requires a.CommitWindow? && Admit(db, a.expected, a.window, a.records, a.messages, a.mode) == None
    ensures forall m | m in a.messages :: m.windowId == a.window.id
    ensures a.window.id !in db.windows
  {
  }

  lemma CommitKeeps(s: Sys, a: Action)
    requires Inv(s) && a.CommitWindow?
    ensures Inv(Step(s, a))
  {
    var t := Step(s, a);
    if Commit(s.db, a.expected, a.window, a.records, a.messages, a.mode).Success? {
      CommittedOutbox(s, a);
      InsertKeeps(s, t, a.window.id, Inserted(s.db.outbox, a.messages, a.window.id));
    }
  }

  /** Inserting PENDING rows under a window id that was never used. */
  lemma InsertKeeps(s: Sys, t: Sys, w: WindowId, added: set<Insertion>)
    requires Inv(s)
    requires t.keys == s.keys && t.workers == s.workers && t.log == s.log && t.inserted == s.inserted + added
    requires w !in s.db.windows && t.db.windows.Keys == s.db.windows.Keys + {w}
    requires Decodable(t.db.outbox)
    requires forall e | e in s.db.outbox :: e in t.db.outbox && t.db.outbox[e] == s.db.outbox[e]
    requires forall e | e in t.db.outbox && e !in s.db.outbox ::
               Insertion(w, e) in added && t.db.outbox[e].windowId == w && t.db.outbox[e].state == PENDING
    requires forall x | x in added ::
               && x.windowId == w && x.eventId in t.db.outbox && x.eventId !in s.db.outbox
               && t.db.outbox[x.eventId].windowId == w && t.db.outbox[x.eventId].state == PENDING
    ensures Inv(t)
  {
    forall v, e: EventId | v != w ensures Waiting(t.db.outbox, v, e) <==> Waiting(s.db.outbox, v, e) {
    }
    forall x | x in t.inserted
      ensures x.windowId in t.db.windows
              && (Logged(t.log, x.eventId) || Waiting(t.db.outbox, x.windowId, x.eventId))
    {
    }
    forall v, e | SiblingsDone(s, v, e) ensures SiblingsDone(t, v, e) {
    }
    forall e | e in t.db.outbox ensures Insertion(t.db.outbox[e].windowId, e) in t.inserted {
    }
  }

  // ---------------------------------------------------------------------
  // Whole runs
  // ---------------------------------------------------------------------

  lemma StepKeeps(s: Sys, a: Action)
    requires Inv(s)
    ensures Inv(Step(s, a))
  {
    match a {
      case CommitWindow(_, _, _, _, _) => CommitKeeps(s, a);
      case ClaimBatch(_, _, _, _, _) => ClaimKeeps(s, a);
      case Start(_, _, _, _, _, _) => StartKeeps(s, a);
      case Send(_, _, _) => SendKeeps(s, a);
      case Settle(_, _, _, _) => SettleKeeps(s, a);
      case RequeueMessage(_, _) => RowStepKeeps(s, a);
      case CleanupPublished(_) => RowStepKeeps(s, a);
      case _ => OtherStepKeeps(s, a);
    }
  }

  lemma {:induction false} RunKeeps(actions: seq<Action>)
    ensures Inv(Run(actions))
    decreases |actions|
  {
    if actions != [] {
      RunKeeps(actions[..|actions| - 1]);
      StepKeeps(Run(actions[..|actions| - 1]), actions[|actions| - 1]);
    }
  }

  /**
    Marker after records: in every run, wherever a history.window message stands
    in the stream, every other row ever inserted under its window stands before
    it, and no dispatcher's re-check ever holds a message back.
   */
  lemma {:induction false} MarkerAfterRecords(actions: seq<Action>, i: nat, x: Insertion)
    requires i < |Run(actions).log| && IsMarker(Run(actions).log[i].envelope)
    requires x in Run(actions).inserted && x.windowId == Run(actions).log[i].windowId
    requires x.eventId != Run(actions).log[i].eventId
    ensures exists j | 0 <= j < i && j < |Run(actions).keys.stream| ::
              Run(actions).keys.stream[j].eventId == x.eventId
  {
    RunKeeps(actions);
    var s := Run(actions);
    assert Logged(s.log[..i], x.eventId);
    var j :| 0 <= j < i && s.log[..i][j].eventId == x.eventId;
    assert s.keys.stream[j].eventId == x.eventId;
  }

  lemma {:induction false} RecheckNeverFiresInAnyRun(actions: seq<Action>, k: nat)
    requires k in Run(actions).workers && Run(actions).workers[k].queue != []
    ensures !Skipped(Run(actions).db.outbox, Run(actions).workers[k].queue[0])
  {
    RunKeeps(actions);
    RecheckNeverFires(Run(actions), k);
  }

  /** An inserted row is delivered or still waiting, and a row is published only after its append. */
  lemma {:induction false} EveryInsertionDelivered(actions: seq<Action>, x: Insertion)
    requires x in Run(actions).inserted
    ensures var s := Run(actions);
            || (exists i | 0 <= i < |s.keys.stream| :: s.keys.stream[i].eventId == x.eventId)
            || Waiting(s.db.outbox, x.windowId, x.eventId)
    ensures var s := Run(actions);
            forall e | e in s.db.outbox && s.db.outbox[e].state == PUBLISHED ::
              exists i | 0 <= i < |s.keys.stream| :: s.keys.stream[i].eventId == e
  {
    RunKeeps(actions);
    LoggedInStream(Run(actions));
  }

  lemma LoggedInStream(s: Sys)
    requires LogOrdered(s)
    ensures forall e | Logged(s.log, e) :: exists i | 0 <= i < |s.keys.stream| :: s.keys.stream[i].eventId == e
  {
    forall e | Logged(s.log, e)
      ensures exists i | 0 <= i < |s.keys.stream| :: s.keys.stream[i].eventId == e
    {
      var i :| 0 <= i < |s.log| && s.log[i].eventId == e;
      assert s.keys.stream[i].eventId == e;
    }
  }
}
