/** Exactly when an obsolete lower bound is raised, and that no record lies before the new one. */
module RecoveryLaws {
  import opened Wrappers
  import opened Canonical
  import opened JournalModel
  import opened Pipeline
  import DeliveryProof
  import NoLoss

  /** A stored window of the profile that reaches past the bound, or starts before it and saw a deal or an order. */
  ghost predicate WindowInTheWay(db: Db, p: ProfileId, bound: int) {
    exists id | id in db.windows ::
      && db.windows[id].window.profileId == p && db.windows[id].window.startRaw < bound
      && (|| db.windows[id].window.endRaw > bound
          || db.windows[id].window.dealCount != 0 || db.windows[id].window.orderCount != 0)
  }

  /** A deal or an order of the profile that has not been published, or something that cannot be told apart from one. */
  ghost predicate RecordInTheWay(db: Db, p: ProfileId) {
    exists e | e in db.outbox ::
      && db.outbox[e].profileId == p
      && (db.outbox[e].state == PENDING || db.outbox[e].state == INFLIGHT || db.outbox[e].state == QUARANTINED)
      && (|| db.outbox[e].envelope.Undecodable?
          || db.outbox[e].envelope.messageType == HistoryDeal || db.outbox[e].envelope.messageType == HistoryOrder)
  }

  /** The checkpoint is moved to the bound, forgets its last window, and keeps everything else. */
  predicate Raised(before: Db, after: Db, p: ProfileId, bound: int, now: Utc) {
    && p in before.checkpoints && p in after.checkpoints
    && after == before.(checkpoints := after.checkpoints)
    && after.checkpoints == before.checkpoints[p := after.checkpoints[p]]
    && after.checkpoints[p].next == bound && after.checkpoints[p].lastWindow == None
    && after.checkpoints[p].updatedAt == now
    && after.checkpoints[p].profileId == before.checkpoints[p].profileId
    && after.checkpoints[p].generation == before.checkpoints[p].generation
    && after.checkpoints[p].policy == before.checkpoints[p].policy
  }

  /**
    Recovery does nothing for a profile without a checkpoint or with one at or past the bound.
    Otherwise it needs a journal path and an unchanged checkpoint, and raises the bound exactly
    when no window and no record is in the way.
   */
  lemma RecoveryExactly(
    db: Db, p: ProfileId, bound: int, seen: Option<Checkpoint>, hasPath: bool, now: Utc)
    ensures var r := RecoverSeen(db, p, bound, seen, hasPath, now);
            if seen == None || seen.value.next >= bound then r == Success(db)
            else if !hasPath then r == Failure(RuntimeError)
            else if p !in db.checkpoints || db.checkpoints[p] != seen.value then r == Failure(CheckpointConflict)
            else if WindowInTheWay(db, p, bound) || RecordInTheWay(db, p) then r == Failure(RuntimeError)
            else r.Success? && Raised(db, r.value, p, bound, now) && r.value.checkpoints != db.checkpoints
  {
    if p in db.checkpoints && seen == Some(db.checkpoints[p]) && seen.value.next < bound {
      ClearExactly(db, p, bound);
      if Recoverable(db, p, bound) {
        var after := RecoverSeen(db, p, bound, seen, true, now).value;
        assert after.checkpoints[p].next != db.checkpoints[p].next;
      }
    }
  }

  lemma ClearExactly(db: Db, p: ProfileId, bound: int)
    ensures Recoverable(db, p, bound) <==> !WindowInTheWay(db, p, bound) && !RecordInTheWay(db, p)
  {
    if Recoverable(db, p, bound) {
      forall id | id in db.windows && db.windows[id].window.profileId == p && db.windows[id].window.startRaw < bound
        ensures var w := db.windows[id].window; w.endRaw <= bound && w.dealCount == 0 && w.orderCount == 0
      {
        assert PreBound(db, p, bound, id);
      }
      forall e | e in db.outbox && db.outbox[e].profileId == p
                 && (db.outbox[e].state == PENDING || db.outbox[e].state == INFLIGHT || db.outbox[e].state == QUARANTINED)
        ensures db.outbox[e].envelope.Decoded?
                && db.outbox[e].envelope.messageType != HistoryDeal && db.outbox[e].envelope.messageType != HistoryOrder
      {
        assert Unresolved(db.outbox[e]);
      }
    }
  }

  // ---------------------------------------------------------------------
  // Over runs
  // ---------------------------------------------------------------------

  /** Every member belongs to a stored window and is counted by it. */
  ghost predicate MembersCounted(db: Db) {
    forall s | s in db.members :: Counted(db, s)
  }

  ghost predicate Counted(db: Db, s: Slot) {
    s.windowId in db.windows && s.ordinal < NoLoss.RecordCount(db.windows[s.windowId].window, s.resource)
  }

  ghost predicate SlotsWithin(before: Ledger, after: Ledger, w: WindowId, records: seq<Record>) {
    forall s | s in after.members && s !in before.members ::
      s.windowId == w && s.ordinal < CountOf(records, s.resource)
  }

  lemma {:induction false} NewMembers(ledger: Ledger, w: Window, records: seq<Record>)
    requires AddRecords(ledger, w, records).Success?
    ensures SlotsWithin(ledger, AddRecords(ledger, w, records).value, w.id, records)
    decreases |records|
  {
    if records != [] {
      var n := |records| - 1;
      NewMembers(ledger, w, records[..n]);
      var before := AddRecords(ledger, w, records[..n]).value;
      NoLoss.LinkedRecord(before, w, records[n], CountOf(records[..n], records[n].resource));
    }
  }

  lemma CommitCounted(s: Sys, a: Action)
    requires MembersCounted(s.db) && a.CommitWindow?
    requires Commit(s.db, a.expected, a.window, a.records, a.messages, a.mode).Success?
    ensures MembersCounted(Step(s, a).db)
  {
    var t, start := Step(s, a), Ledger(s.db.versions, s.db.members);
    NewMembers(start, a.window, a.records);
    NoLoss.CommitCounts(s, a);
    var ledger := AddRecords(start, a.window, a.records).value;
    assert SlotsWithin(start, ledger, a.window.id, a.records);
    forall x | x in t.db.members ensures Counted(t.db, x) {
      if x in s.db.members {
        assert Counted(s.db, x);
      }
    }
  }

  lemma StepCounted(s: Sys, a: Action)
    requires MembersCounted(s.db)
    ensures MembersCounted(Step(s, a).db)
  {
    if a.CommitWindow? {
      if Commit(s.db, a.expected, a.window, a.records, a.messages, a.mode).Success? {
        CommitCounted(s, a);
      }
    } else {
      NoLoss.LedgerUntouched(s, a);
      var t := Step(s, a);
      forall x | x in t.db.members ensures Counted(t.db, x) {
        assert Counted(s.db, x);
      }
    }
  }

  lemma {:induction false} RunCounted(actions: seq<Action>)
    ensures MembersCounted(Run(actions).db)
    decreases |actions|
  {
    if actions != [] {
      RunCounted(actions[..|actions| - 1]);
      StepCounted(Run(actions[..|actions| - 1]), actions[|actions| - 1]);
    }
  }

  /**
    In every run, when a bound is raised no stored window of the profile that starts before it
    links a record, and no deal or order of the profile is unpublished.
   */
  lemma {:induction false} NothingBeforeTheBound(actions: seq<Action>, p: ProfileId, bound: int, now: Utc, s: Slot)
    requires Step(Run(actions), RecoverBound(p, bound, now)) != Run(actions)
    requires s in Run(actions).db.members
    ensures var db := Run(actions).db;
            && s.windowId in db.windows
            && !(db.windows[s.windowId].window.profileId == p && db.windows[s.windowId].window.startRaw < bound)
            && !RecordInTheWay(db, p)
  {
    RunCounted(actions);
    var db := Run(actions).db;
    assert Counted(db, s);
    RaisedWhenClear(Run(actions), p, bound, now);
  }

  lemma RaisedWhenClear(s: Sys, p: ProfileId, bound: int, now: Utc)
    requires Step(s, RecoverBound(p, bound, now)) != s
    ensures !WindowInTheWay(s.db, p, bound) && !RecordInTheWay(s.db, p)
  {
    ClearExactly(s.db, p, bound);
  }
}
