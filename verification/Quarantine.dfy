/** Only a real delivery failure counts against a message, and only failures quarantine it. */
module Quarantine {
  import opened Wrappers
  import opened Canonical
  import opened JournalModel
  import opened RedisTransport
  import opened Pipeline

  /** The step settles a failed delivery of this event. */
  predicate SettlesFailure(s: Sys, a: Action, e: EventId) {
    && a.Settle? && a.worker in s.workers
    && s.workers[a.worker].phase.Undelivered? && s.workers[a.worker].phase.eventId == e
    && e in s.db.outbox && s.db.outbox[e].state == INFLIGHT && a.maxAttempts > 0
  }

  predicate Failing(before: Row, after: Row, retryable: bool, maxAttempts: int) {
    && after.failures == before.failures + 1
    && (after.state == QUARANTINED <==> !retryable || before.failures + 1 >= maxAttempts)
  }

  /** The row keeps its failure count, and becomes quarantined in no other way. */
  predicate Spared(before: Row, after: Row) {
    after.failures == before.failures && (after.state == QUARANTINED ==> before.state == QUARANTINED)
  }

  lemma SettledSpares(outbox: Outbox, phase: Phase, now: Utc, delay: nat, maxAttempts: int, e: EventId)
    requires e in outbox
    ensures var after := Settled(outbox, phase, now, delay, maxAttempts);
            && e in after
            && (if phase.Undelivered? && phase.eventId == e && outbox[e].state == INFLIGHT && maxAttempts > 0
                then Failing(outbox[e], after[e], phase.retryable, maxAttempts)
                else Spared(outbox[e], after[e]))
  {
  }

  lemma EnqueueSpares(s: Sys, a: Action, e: EventId)
    requires a.CommitWindow? && e in s.db.outbox
    ensures e in Step(s, a).db.outbox && Step(s, a).db.outbox[e] == s.db.outbox[e]
  {
    EnqueueKeeps(s.db.outbox, a.messages, a.window.committedAt, e);
  }

  lemma ClaimSpares(outbox: Outbox, owner: string, limit: int, now: Utc, leaseSeconds: int, e: EventId)
    requires e in outbox && ClaimTransaction(outbox, owner, limit, now, leaseSeconds).Success?
    ensures var after := ClaimTransaction(outbox, owner, limit, now, leaseSeconds).value.0;
            e in after && Spared(outbox[e], after[e])
  {
  }

  ghost predicate CountsRightly(s: Sys, a: Action, e: EventId)
    requires e in s.db.outbox && e in Step(s, a).db.outbox
  {
    var before, after := s.db.outbox[e], Step(s, a).db.outbox[e];
    if SettlesFailure(s, a, e)
    then Failing(before, after, s.workers[a.worker].phase.retryable, a.maxAttempts)
    else Spared(before, after)
  }

  lemma ClaimCountsRightly(s: Sys, a: Action, e: EventId)
    requires a.ClaimBatch? && e in s.db.outbox && e in Step(s, a).db.outbox
    ensures CountsRightly(s, a, e)
  {
    if ClaimTransaction(s.db.outbox, a.owner, a.limit, a.now, a.leaseSeconds).Success? {
      ClaimSpares(s.db.outbox, a.owner, a.limit, a.now, a.leaseSeconds, e);
    }
  }

  lemma SettleCountsRightly(s: Sys, a: Action, e: EventId)
    requires a.Settle? && e in s.db.outbox && e in Step(s, a).db.outbox
    ensures CountsRightly(s, a, e)
  {
    if a.worker in s.workers {
      SettledSpares(s.db.outbox, s.workers[a.worker].phase, a.now, a.delay, a.maxAttempts, e);
    }
  }

  lemma OthersCountRightly(s: Sys, a: Action, e: EventId)
    requires !a.ClaimBatch? && !a.Settle? && !a.CommitWindow?
    requires e in s.db.outbox && e in Step(s, a).db.outbox
    ensures CountsRightly(s, a, e)
  {
  }

  /**
    Claims, reclaims after a crash, lost leases, commits and clean-up never count
    as failures: in every state and step a row's failure count grows, and the row
    becomes quarantined, only by a delivery that failed, and then exactly when the
    failure was final or the attempts are used up.
   */
  lemma OnlyFailuresQuarantine(s: Sys, a: Action, e: EventId)
    requires e in s.db.outbox && e in Step(s, a).db.outbox
    ensures CountsRightly(s, a, e)
  {
    match a {
      case CommitWindow(_, _, _, _, _) => EnqueueSpares(s, a, e);
      case ClaimBatch(_, _, _, _, _) => ClaimCountsRightly(s, a, e);
      case Settle(_, _, _, _) => SettleCountsRightly(s, a, e);
      case _ => OthersCountRightly(s, a, e);
    }
  }
}
