/** The outbox transactions row by row, and how long a published row stays in every run. */
module OutboxLaws {
  import opened Wrappers
  import opened Canonical
  import opened Sequences
  import opened JournalModel
  import opened Pipeline
  import ClaimOrder
  import JournalRepository

  // ---------------------------------------------------------------------
  // Claims
  // ---------------------------------------------------------------------

  /** Waiting and due, or left behind by a claim that has run out. */
  predicate Claimable(row: Row, now: Utc) {
    || (row.state == PENDING && row.nextAttemptAt <= now)
    || (row.state == INFLIGHT && row.claimExpiresAt <= now)
  }

  /** A window marker whose window has another row that is not published. */
  ghost predicate HeldBack(outbox: Outbox, e: EventId)
    requires e in outbox
  {
    && outbox[e].envelope.Decoded? && outbox[e].envelope.messageType == HistoryWindow
    && exists x | x in outbox :: x != e && outbox[x].windowId == outbox[e].windowId && outbox[x].state != PUBLISHED
  }

  /** The row after its claim. */
  predicate ClaimedAs(before: Row, after: Row, owner: string, expires: Utc) {
    && after.state == INFLIGHT && after.attempts == before.attempts + 1
    && after.claimedBy == Some(owner) && after.claimExpiresAt == expires
    && after.(state := before.state, attempts := before.attempts, claimedBy := before.claimedBy,
              claimExpiresAt := before.claimExpiresAt) == before
  }

  /** The message handed out for a row. */
  predicate Carries(m: Claimed, e: EventId, row: Row) {
    && m.eventId == e && m.windowId == row.windowId && m.profileId == row.profileId && m.streamKey == row.streamKey
    && m.envelope == row.envelope && m.payloadDigest == row.payloadDigest
    && m.attempts == row.attempts && m.claimExpiresAt == row.claimExpiresAt
  }

  predicate Before(outbox: Outbox, a: EventId, b: EventId)
    requires a in outbox && b in outbox
  {
    outbox[a].nextAttemptAt < outbox[b].nextAttemptAt || (outbox[a].nextAttemptAt == outbox[b].nextAttemptAt && a < b)
  }

  ghost predicate HandedOut(outbox: Outbox, messages: seq<Claimed>, limit: nat, now: Utc) {
    && |messages| <= limit
    && (forall i | 0 <= i < |messages| ::
          var e := messages[i].eventId;
          e in outbox && Claimable(outbox[e], now) && !HeldBack(outbox, e))
    && (forall i, j | 0 <= i < j < |messages| ::
          && messages[i].eventId in outbox && messages[j].eventId in outbox
          && Before(outbox, messages[i].eventId, messages[j].eventId))
  }

  ghost predicate Taken(messages: seq<Claimed>, e: EventId) {
    exists i | 0 <= i < |messages| :: messages[i].eventId == e
  }

  /** Exactly the rows handed out change, each to its claimed form, and its message carries that form. */
  ghost predicate RowsClaimed(outbox: Outbox, after: Outbox, messages: seq<Claimed>, owner: string, expires: Utc) {
    && after.Keys == outbox.Keys
    && (forall e | e in outbox :: if Taken(messages, e) then ClaimedAs(outbox[e], after[e], owner, expires)
                                  else after[e] == outbox[e])
    && forall i | 0 <= i < |messages| ::
         messages[i].eventId in after && Carries(messages[i], messages[i].eventId, after[messages[i].eventId])
  }

  /** Nothing is passed over: a row that could be taken and was not came after a full batch. */
  ghost predicate NonePassedOver(outbox: Outbox, messages: seq<Claimed>, limit: nat, now: Utc) {
    forall e | e in outbox && Claimable(outbox[e], now) && !HeldBack(outbox, e) && !Taken(messages, e) ::
      |messages| == limit
      && forall i | 0 <= i < |messages| :: messages[i].eventId in outbox && Before(outbox, messages[i].eventId, e)
  }

  /** Due rows that are held back. */
  ghost function Waiting(outbox: Outbox, now: Utc): set<EventId> {
    set e | e in outbox && Claimable(outbox[e], now) && HeldBack(outbox, e)
  }

  lemma SameReady(outbox: Outbox, now: Utc, e: EventId)
    ensures e in ClaimOrder.Ready(outbox, now) <==> e in outbox && Claimable(outbox[e], now) && !HeldBack(outbox, e)
  {
    if e in outbox {
      assert Blocked(outbox, e) <==> HeldBack(outbox, e);
    }
  }

  lemma ClaimedInOrder(outbox: Outbox, limit: nat, now: Utc)
    ensures var ids := ClaimedIds(outbox, limit, now);
            && |ids| <= limit && ClaimOrder.Sorted(outbox, ids) && Distinct(ids)
            && (forall e | e in ids :: e in ClaimOrder.Ready(outbox, now))
  {
    var candidates := Candidates(outbox, limit, now);
    ClaimOrder.InOrderSorted(outbox, Due(outbox, now));
    JournalRepository.CandidatesDistinct(outbox, limit, now);
    assert ClaimOrder.Sorted(outbox, candidates);
    ClaimOrder.UnblockedKeepsOrder(outbox, candidates);
    forall e | e in ClaimedIds(outbox, limit, now) ensures e in ClaimOrder.Ready(outbox, now) {
      ClaimOrder.ClaimTakesDueRowsOnly(outbox, limit, now, e);
    }
  }

  lemma MessagesFor(outbox: Outbox, ids: seq<EventId>, owner: string, expires: Utc)
    requires (forall e | e in ids :: e in outbox)
    ensures var (after, messages) := HandOut(outbox, ids, owner, expires);
            && |messages| == |ids| && (forall i | 0 <= i < |ids| :: messages[i].eventId == ids[i])
            && (forall e :: Taken(messages, e) <==> e in ids)
            && RowsClaimed(outbox, after, messages, owner, expires)
  {
    var (after, messages) := HandOut(outbox, ids, owner, expires);
    forall e ensures Taken(messages, e) <==> e in ids {
      if e in ids {
        var i :| 0 <= i < |ids| && ids[i] == e;
        assert messages[i].eventId == e;
      }
    }
  }

  lemma OrderIsBefore(outbox: Outbox, ids: seq<EventId>)
    requires (forall e | e in ids :: e in outbox)
    requires ClaimOrder.Sorted(outbox, ids) && Distinct(ids)
    ensures forall i, j | 0 <= i < j < |ids| :: Before(outbox, ids[i], ids[j])
  {
    forall i, j | 0 <= i < j < |ids| ensures Before(outbox, ids[i], ids[j]) {
      assert Earlier(outbox, ids[i], ids[j]) && ids[i] != ids[j];
    }
  }

  /** A claim that considers enough candidates takes the first ready rows. */
  lemma FirstReady(outbox: Outbox, limit: nat, now: Utc, e: EventId)
    requires FewHeldBack(outbox, limit, now)
    requires e in ClaimOrder.Ready(outbox, now) && e !in ClaimedIds(outbox, limit, now)
    ensures var ids := ClaimedIds(outbox, limit, now);
            |ids| == limit && forall i | 0 <= i < |ids| :: ids[i] in outbox && Before(outbox, ids[i], e)
  {
    var ids, all := ClaimedIds(outbox, limit, now), InOrder(outbox, ClaimOrder.Ready(outbox, now));
    WaitingIs(outbox, now);
    ClaimOrder.ClaimComplete(outbox, limit, now);
    ClaimOrder.InOrderSorted(outbox, ClaimOrder.Ready(outbox, now));
    InOrderComplete(outbox, ClaimOrder.Ready(outbox, now));
    OrderIsBefore(outbox, all);
    AfterBatch(outbox, all, limit, ids, e);
  }

  lemma AfterBatch(outbox: Outbox, all: seq<EventId>, limit: nat, ids: seq<EventId>, e: EventId)
    requires forall x | x in all :: x in outbox
    requires forall i, j | 0 <= i < j < |all| :: Before(outbox, all[i], all[j])
    requires ids == Take(all, limit) && e in all && e !in ids
    ensures |ids| == limit && forall i | 0 <= i < |ids| :: ids[i] in outbox && Before(outbox, ids[i], e)
  {
    var k := NotTaken(all, limit, e);
    assert forall i | 0 <= i < |ids| :: ids[i] == all[i];
  }

  lemma NotTaken<T>(s: seq<T>, n: nat, e: T) returns (k: nat)
    requires e in s && e !in Take(s, n)
    ensures n <= k < |s| && s[k] == e && |Take(s, n)| == n
  {
    k :| 0 <= k < |s| && s[k] == e;
    if k < n {
      TakeHas(s, n, k);
    }
  }

  lemma TakeHas<T>(s: seq<T>, n: nat, k: nat)
    requires k < n && k < |s|
    ensures s[k] in Take(s, n)
  {
    assert Take(s, n)[k] == s[k];
  }

  lemma WaitingIs(outbox: Outbox, now: Utc)
    ensures Waiting(outbox, now) == Due(outbox, now) - ClaimOrder.Ready(outbox, now)
  {
    forall x ensures x in Waiting(outbox, now) <==> x in Due(outbox, now) - ClaimOrder.Ready(outbox, now) {
      SameReady(outbox, now, x);
    }
  }

  /**
    A claim hands out due rows that nothing holds back, in order, each once, and marks exactly
    those. Unless more due rows are held back than it looks past, it passes none over.
   */
  lemma ClaimExactly(outbox: Outbox, owner: string, limit: int, now: Utc, leaseSeconds: int)
    ensures var r := ClaimTransaction(outbox, owner, limit, now, leaseSeconds);
            if limit <= 0 || leaseSeconds <= 0 then r == Failure(ValueError)
            else
              && r.Success? && RowsClaimed(outbox, r.value.0, r.value.1, owner, now + 1000 * leaseSeconds)
              && HandedOut(outbox, r.value.1, limit, now)
              && (FewHeldBack(outbox, limit, now) ==> NonePassedOver(outbox, r.value.1, limit, now))
  {
    if limit > 0 && leaseSeconds > 0 {
      var ids, expires := ClaimedIds(outbox, limit, now), now + 1000 * leaseSeconds;
      var messages := HandOut(outbox, ids, owner, expires).1;
      assert ClaimTransaction(outbox, owner, limit, now, leaseSeconds) == Success(HandOut(outbox, ids, owner, expires));
      ClaimedInOrder(outbox, limit, now);
      BatchIs(outbox, ids, owner, limit, now, expires);
      BatchComplete(outbox, owner, limit, now, expires, messages);
    }
  }

  /** No more due rows are held back than a claim of this limit looks past. */
  ghost predicate FewHeldBack(outbox: Outbox, limit: nat, now: Utc) {
    |Waiting(outbox, now)| <= if 16 < 3 * limit then 3 * limit else 16
  }

  lemma BatchComplete(outbox: Outbox, owner: string, limit: nat, now: Utc, expires: Utc, messages: seq<Claimed>)
    requires messages == HandOut(outbox, ClaimedIds(outbox, limit, now), owner, expires).1
    ensures FewHeldBack(outbox, limit, now) ==> NonePassedOver(outbox, messages, limit, now)
  {
    if FewHeldBack(outbox, limit, now) {
      NoneLeft(outbox, owner, limit, now, expires);
    }
  }

  lemma BatchIs(outbox: Outbox, ids: seq<EventId>, owner: string, limit: nat, now: Utc, expires: Utc)
    requires (forall e | e in ids :: e in outbox) && |ids| <= limit && ClaimOrder.Sorted(outbox, ids) && Distinct(ids)
    requires forall e | e in ids :: e in ClaimOrder.Ready(outbox, now)
    ensures var (after, messages) := HandOut(outbox, ids, owner, expires);
            HandedOut(outbox, messages, limit, now) && RowsClaimed(outbox, after, messages, owner, expires)
  {
    var messages := HandOut(outbox, ids, owner, expires).1;
    MessagesFor(outbox, ids, owner, expires);
    OrderIsBefore(outbox, ids);
    forall i | 0 <= i < |messages|
      ensures messages[i].eventId in outbox && Claimable(outbox[messages[i].eventId], now)
              && !HeldBack(outbox, messages[i].eventId)
    {
      assert ids[i] in ids;
      SameReady(outbox, now, ids[i]);
    }
  }

  lemma NoneLeft(outbox: Outbox, owner: string, limit: nat, now: Utc, expires: Utc)
    requires FewHeldBack(outbox, limit, now)
    ensures NonePassedOver(outbox, HandOut(outbox, ClaimedIds(outbox, limit, now), owner, expires).1, limit, now)
  {
    var ids := ClaimedIds(outbox, limit, now);
    var messages := HandOut(outbox, ids, owner, expires).1;
    MessagesFor(outbox, ids, owner, expires);
    forall e | e in outbox && Claimable(outbox[e], now) && !HeldBack(outbox, e) && !Taken(messages, e)
      ensures |messages| == limit
              && forall i | 0 <= i < |messages| :: messages[i].eventId in outbox && Before(outbox, messages[i].eventId, e)
    {
      SameReady(outbox, now, e);
      FirstReady(outbox, limit, now, e);
    }
  }

  // ---------------------------------------------------------------------
  // Resolving rows
  // ---------------------------------------------------------------------

  /** Only this row differs. */
  ghost predicate OnlyRow(before: Outbox, after: Outbox, e: EventId) {
    e in before && e in after && after == before[e := after[e]]
  }

  lemma AckExactly(outbox: Outbox, e: EventId, entryId: nat, now: Utc)
    ensures var r := Ack(outbox, e, entryId, now);
            if e !in outbox || outbox[e].state != INFLIGHT then r == Failure(OutboxStateConflict)
            else
              && r.Success? && OnlyRow(outbox, r.value, e)
              && r.value[e].state == PUBLISHED && r.value[e].publishedAt == now && r.value[e].entryId == entryId
              && r.value[e].(state := outbox[e].state, publishedAt := outbox[e].publishedAt, entryId := outbox[e].entryId)
                 == outbox[e]
  {
  }

  lemma FailExactly(outbox: Outbox, e: EventId, error: string, retryable: bool, now: Utc, delay: nat, maxAttempts: int)
    ensures var r := Fail(outbox, e, error, retryable, now, delay, maxAttempts);
            if maxAttempts <= 0 then r == Failure(ValueError)
            else if e !in outbox || outbox[e].state != INFLIGHT then r == Failure(OutboxStateConflict)
            else
              var row := outbox[e];
              var again := retryable && row.failures + 1 < maxAttempts;
              && r.Success? && OnlyRow(outbox, r.value.0, e) && r.value.1 == (if again then REQUEUED else QUARANTINED_NOW)
              && r.value.0[e].failures == row.failures + 1 && r.value.0[e].lastError == error
              && r.value.0[e].state == (if again then PENDING else QUARANTINED)
              && r.value.0[e].nextAttemptAt == (if again then now + delay else row.nextAttemptAt)
              && r.value.0[e].quarantinedAt == (if again then row.quarantinedAt else Some(now))
              && r.value.0[e].(failures := row.failures, lastError := row.lastError, state := row.state,
                               nextAttemptAt := row.nextAttemptAt, quarantinedAt := row.quarantinedAt) == row
  {
  }

  lemma RequeueExactly(outbox: Outbox, e: EventId, now: Utc)
    ensures var r := Requeue(outbox, e, now);
            if e !in outbox || outbox[e].state != QUARANTINED then r == Failure(LookupError)
            else
              && r.Success? && OnlyRow(outbox, r.value, e)
              && r.value[e].state == PENDING && r.value[e].nextAttemptAt == now && r.value[e].quarantinedAt == None
              && r.value[e].(state := outbox[e].state, nextAttemptAt := outbox[e].nextAttemptAt,
                             quarantinedAt := outbox[e].quarantinedAt) == outbox[e]
  {
  }

  lemma CleanupExactly(outbox: Outbox, cutoff: Utc, e: EventId)
    ensures var after := Cleanup(outbox, cutoff);
            && (e in after <==> e in outbox && !(outbox[e].state == PUBLISHED && outbox[e].publishedAt < cutoff))
            && (e in after ==> after[e] == outbox[e])
  {
  }

  // ---------------------------------------------------------------------
  // Over runs
  // ---------------------------------------------------------------------

  /** The step acknowledges this event at that time. */
  predicate AcknowledgedBy(s: Sys, a: Action, e: EventId) {
    && a.Settle? && a.worker in s.workers && s.workers[a.worker].phase.Delivered?
    && s.workers[a.worker].phase.eventId == e
  }

  predicate PublishedIn(s: Sys, e: EventId) {
    e in s.db.outbox && s.db.outbox[e].state == PUBLISHED
  }

  /**
    In every state and step: a row becomes published only when a dispatcher acknowledges it,
    and is stamped with that time; a published row stays as it is, until a clean-up whose
    cut-off is past its stamp removes it.
   */
  lemma PublishedStays(s: Sys, a: Action, e: EventId)
    ensures var t := Step(s, a);
            && (PublishedIn(t, e) && !PublishedIn(s, e) ==>
                  AcknowledgedBy(s, a, e) && t.db.outbox[e].publishedAt == a.now)
            && (PublishedIn(s, e) ==>
                  (e in t.db.outbox && t.db.outbox[e] == s.db.outbox[e])
                  || (a.CleanupPublished? && s.db.outbox[e].publishedAt < a.cutoff && t.db.outbox == Cleanup(s.db.outbox, a.cutoff)))
  {
    if a.CommitWindow? {
      CommitPublishes(s, a, e);
    } else if a.ClaimBatch? {
      ClaimPublishes(s, a, e);
    }
  }

  lemma CommitPublishes(s: Sys, a: Action, e: EventId)
    requires a.CommitWindow?
    ensures PublishedIn(Step(s, a), e) ==> PublishedIn(s, e)
    ensures e in s.db.outbox ==> e in Step(s, a).db.outbox && Step(s, a).db.outbox[e] == s.db.outbox[e]
  {
    if Commit(s.db, a.expected, a.window, a.records, a.messages, a.mode).Success? {
      EnqueueKeepsAndAdds(s.db.outbox, a.messages, a.window.committedAt);
    }
  }

  lemma ClaimPublishes(s: Sys, a: Action, e: EventId)
    requires a.ClaimBatch?
    ensures PublishedIn(Step(s, a), e) ==> PublishedIn(s, e)
    ensures PublishedIn(s, e) ==> e in Step(s, a).db.outbox && Step(s, a).db.outbox[e] == s.db.outbox[e]
  {
    if ClaimTransaction(s.db.outbox, a.owner, a.limit, a.now, a.leaseSeconds).Success? {
      ClaimLeavesPublished(s.db.outbox, a.owner, a.limit, a.now, a.leaseSeconds, e);
    }
  }

  lemma ClaimLeavesPublished(outbox: Outbox, owner: string, limit: int, now: Utc, leaseSeconds: int, e: EventId)
    requires ClaimTransaction(outbox, owner, limit, now, leaseSeconds).Success?
    ensures var after := ClaimTransaction(outbox, owner, limit, now, leaseSeconds).value.0;
            && (e in after && after[e].state == PUBLISHED ==> e in outbox && outbox[e].state == PUBLISHED)
            && (e in outbox && outbox[e].state == PUBLISHED ==> e in after && after[e] == outbox[e])
  {
    ClaimExactly(outbox, owner, limit, now, leaseSeconds);
  }
}
