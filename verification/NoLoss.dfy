/**
  No loss over whole runs: every record of every stored window is linked to a
  version whose event has been appended to the stream, or whose outbox row is
  still unresolved.
 */
module NoLoss {
  import opened Wrappers
  import opened Canonical
  import opened JournalModel
  import opened RedisTransport
  import opened Pipeline
  import opened DeliveryProof

  function RecordCount(w: Window, r: Resource): int {
    if r == Deal then w.dealCount else w.orderCount
  }

  ghost predicate VersionsSafe(s: Sys) {
    forall i | 0 <= i < |s.db.versions| :: Safe(s.db.outbox, s.log, s.db.versions[i].record.eventId)
  }

  ghost predicate MembersBacked(s: Sys) {
    forall x | x in s.db.members :: HasVersion(s.db.versions, s.db.members[x])
  }

  ghost predicate MembersComplete(s: Sys) {
    forall w, r: Resource, i: nat | w in s.db.windows && i < RecordCount(s.db.windows[w].window, r) ::
      Slot(w, r, i) in s.db.members
  }

  ghost predicate Kept(s: Sys) {
    VersionsSafe(s) && MembersBacked(s) && MembersComplete(s)
  }

  // ---------------------------------------------------------------------
  // No step forgets an obligation
  // ---------------------------------------------------------------------

  lemma EvolveKeepsSafe(before: Outbox, after: Outbox, log: seq<Delivery>, e: EventId)
    requires RowsEvolve(before, after, log) && Safe(before, log, e)
    requires forall x | x in before && before[x].state == PUBLISHED :: Logged(log, x)
    ensures Safe(after, log, e)
  {
  }

  lemma ClaimKeepsSafe(s: Sys, a: Action, e: EventId)
    requires Inv(s) && a.ClaimBatch? && Safe(s.db.outbox, s.log, e)
    ensures Safe(Step(s, a).db.outbox, Step(s, a).log, e)
  {
    var _, taken, ids, expires := ClaimShape(s, a);
    if taken {
      ClaimEvolves(s.db.outbox, s.log, ids, a.owner, expires);
      EvolveKeepsSafe(s.db.outbox, Claim(s.db.outbox, ids, a.owner, expires), s.log, e);
    }
  }

  lemma RowStepKeepsSafe(s: Sys, a: Action, e: EventId)
    requires Inv(s) && (a.Settle? || a.RequeueMessage? || a.CleanupPublished?) && Safe(s.db.outbox, s.log, e)
    ensures Safe(Step(s, a).db.outbox, Step(s, a).log, e)
  {
    var t := Step(s, a);
    match a {
      case Settle(worker, _, _, _) =>
        if worker in s.workers {
          SettledEvolves(s.db.outbox, s.log, a, s.workers[worker].phase);
        }
      case RequeueMessage(x, now) => RowStepEvolves(s.db.outbox, s.log, x, now, 0);
      case CleanupPublished(cutoff) => RowStepEvolves(s.db.outbox, s.log, 0, 0, cutoff);
    }
    EvolveKeepsSafe(s.db.outbox, t.db.outbox, s.log, e);
  }

  lemma StepKeepsSafe(s: Sys, a: Action, e: EventId)
    requires Inv(s) && Safe(s.db.outbox, s.log, e)
    ensures Safe(Step(s, a).db.outbox, Step(s, a).log, e)
  {
    match a {
      case CommitWindow(_, _, _, _, _) =>
        if Commit(s.db, a.expected, a.window, a.records, a.messages, a.mode).Success? {
          CommittedOutbox(s, a);
        }
      case ClaimBatch(_, _, _, _, _) => ClaimKeepsSafe(s, a, e);
      case Send(worker, _, _) =>
        if Step(s, a).log != s.log {
          var m := s.workers[worker].queue[0];
          LogGrows(s.log, Delivery(m.eventId, m.windowId, m.envelope));
        }
      case Settle(_, _, _, _) => RowStepKeepsSafe(s, a, e);
      case RequeueMessage(_, _) => RowStepKeepsSafe(s, a, e);
      case CleanupPublished(_) => RowStepKeepsSafe(s, a, e);
      case RecoverBound(_, _, _) => OtherShape(s, a);
      case Stop(_) => OtherShape(s, a);
      case ReserveSequence(_) => OtherShape(s, a);
      case Start(_, _, _, _, _, _) =>
      case Script(_, _) =>
    }
  }

  // ---------------------------------------------------------------------
  // What a commit adds
  // ---------------------------------------------------------------------

  lemma {:induction false} LinkedVersions(ledger: Ledger, w: Window, records: seq<Record>)
    requires AddRecords(ledger, w, records).Success?
    ensures var after := AddRecords(ledger, w, records).value;
            && ledger.versions <= after.versions
            && (forall i | |ledger.versions| <= i < |after.versions| :: after.versions[i].record in records)
    decreases |records|
  {
    if records != [] {
      var n := |records| - 1;
      LinkedVersions(ledger, w, records[..n]);
      var before := AddRecords(ledger, w, records[..n]).value;
      LinkedRecord(before, w, records[n], CountOf(records[..n], records[n].resource));
      assert records[n] in records && forall r | r in records[..n] :: r in records;
    }
  }

  lemma {:induction false} LinkedMembers(ledger: Ledger, w: Window, records: seq<Record>)
    requires AddRecords(ledger, w, records).Success?
    requires forall x | x in ledger.members :: HasVersion(ledger.versions, ledger.members[x])
    ensures var after := AddRecords(ledger, w, records).value;
            && ledger.members.Keys <= after.members.Keys
            && (forall x | x in after.members :: HasVersion(after.versions, after.members[x]))
    decreases |records|
  {
    if records != [] {
      var n := |records| - 1;
      LinkedMembers(ledger, w, records[..n]);
      var before, after := AddRecords(ledger, w, records[..n]).value, AddRecords(ledger, w, records).value;
      LinkedRecord(before, w, records[n], CountOf(records[..n], records[n].resource));
      forall x | x in after.members
        ensures HasVersion(after.versions, after.members[x])
      {
        if x in before.members {
          VersionStays(before.versions, after.versions, before.members[x]);
        }
      }
    }
  }

  lemma {:induction false} LinkedSlots(ledger: Ledger, w: Window, records: seq<Record>, r: Resource, i: nat)
    requires AddRecords(ledger, w, records).Success? && i < CountOf(records, r)
    ensures Slot(w.id, r, i) in AddRecords(ledger, w, records).value.members
    decreases |records|
  {
    var n := |records| - 1;
    SlotAdded(AddRecords(ledger, w, records[..n]).value, w, records[n], CountOf(records[..n], records[n].resource));
    if i < CountOf(records[..n], r) {
      LinkedSlots(ledger, w, records[..n], r, i);
    }
  }

  lemma SlotAdded(ledger: Ledger, w: Window, r: Record, ordinal: nat)
    requires AddRecord(ledger, w, r, ordinal).Success?
    ensures var after := AddRecord(ledger, w, r, ordinal).value.members;
            Slot(w.id, r.resource, ordinal) in after && forall x | x in ledger.members :: x in after
  {
  }

  lemma LinkedRecord(ledger: Ledger, w: Window, r: Record, ordinal: nat)
    requires AddRecord(ledger, w, r, ordinal).Success?
    ensures var after := AddRecord(ledger, w, r, ordinal).value;
            var slot := Slot(w.id, r.resource, ordinal);
            && (after.versions == ledger.versions
                || (|after.versions| == |ledger.versions| + 1 && after.versions[..|ledger.versions|] == ledger.versions
                    && after.versions[|ledger.versions|].record == r))
            && after.members.Keys == ledger.members.Keys + {slot} && slot !in ledger.members
            && (forall x | x in ledger.members :: after.members[x] == ledger.members[x])
            && HasVersion(after.versions, after.members[slot])
  {
    var found := LatestVersion(ledger.versions, w.profileId, r, true);
    if found.None? {
      var after := AddRecord(ledger, w, r, ordinal).value;
      assert after.versions[|ledger.versions|].record.eventId == r.eventId;
    }
  }

  lemma VersionStays(before: seq<Version>, after: seq<Version>, e: EventId)
    requires before <= after && HasVersion(before, e)
    ensures HasVersion(after, e)
  {
    var i :| 0 <= i < |before| && before[i].record.eventId == e;
    assert after[i] == before[i];
  }

  /** After its commit every record of a window has an outbox row. */
  lemma RecordsEnqueued(s: Sys, a: Action, r: Record)
    requires a.CommitWindow? && Admit(s.db, a.expected, a.window, a.records, a.messages, a.mode) == None
    requires r in a.records
    ensures r.eventId in Enqueue(s.db.outbox, a.messages, a.window.committedAt)
  {
    EnqueueKeepsAndAdds(s.db.outbox, a.messages, a.window.committedAt);
    assert CoveredRecord(s.db.outbox, a.window, r, a.messages);
    if Announced(r, a.messages) {
      var m :| m in a.messages && m.eventId == r.eventId;
      var k :| 0 <= k < |a.messages| && a.messages[k] == m;
      assert a.messages[k].eventId == r.eventId;
    }
  }

  lemma CommitCounts(s: Sys, a: Action)
    requires a.CommitWindow? && Admit(s.db, a.expected, a.window, a.records, a.messages, a.mode) == None
    ensures forall r :: CountOf(a.records, r) == RecordCount(a.window, r)
  {
    forall r ensures CountOf(a.records, r) == RecordCount(a.window, r) {
      match r {
        case Deal =>
        case Order =>
      }
    }
  }

  lemma CommitKeepsMembers(s: Sys, a: Action)
    requires MembersBacked(s) && MembersComplete(s) && a.CommitWindow?
    ensures MembersBacked(Step(s, a)) && MembersComplete(Step(s, a))
  {
    var t := Step(s, a);
    if Commit(s.db, a.expected, a.window, a.records, a.messages, a.mode).Success? {
      LinkedMembers(Ledger(s.db.versions, s.db.members), a.window, a.records);
      CommitCounts(s, a);
      forall w, r: Resource, i: nat | w in t.db.windows && i < RecordCount(t.db.windows[w].window, r)
        ensures Slot(w, r, i) in t.db.members
      {
        if w == a.window.id {
          LinkedSlots(Ledger(s.db.versions, s.db.members), a.window, a.records, r, i);
        } else {
          assert w in s.db.windows && t.db.windows[w].window == s.db.windows[w].window;
        }
      }
    }
  }

  lemma CommitKeepsVersions(s: Sys, a: Action)
    requires Inv(s) && VersionsSafe(s) && a.CommitWindow?
    ensures VersionsSafe(Step(s, a))
  {
    var t := Step(s, a);
    if Commit(s.db, a.expected, a.window, a.records, a.messages, a.mode).Success? {
      LinkedVersions(Ledger(s.db.versions, s.db.members), a.window, a.records);
      CommitKeeps(s, a);
      forall i | 0 <= i < |t.db.versions|
        ensures Safe(t.db.outbox, t.log, t.db.versions[i].record.eventId)
      {
        if i < |s.db.versions| {
          assert t.db.versions[i] == s.db.versions[i];
          StepKeepsSafe(s, a, s.db.versions[i].record.eventId);
        } else {
          RecordsEnqueued(s, a, t.db.versions[i].record);
        }
      }
    }
  }

  lemma LedgerUntouched(s: Sys, a: Action)
    requires !a.CommitWindow?
    ensures var t := Step(s, a);
            t.db.versions == s.db.versions && t.db.members == s.db.members && t.db.windows == s.db.windows
  {
    match a {
      case ClaimBatch(_, _, _, _, _) =>
        var _, _, _, _ := ClaimShape(s, a);
      case _ =>
    }
  }

  lemma StepKeepsRecords(s: Sys, a: Action)
    requires Inv(s) && Kept(s)
    ensures Kept(Step(s, a))
  {
    if a.CommitWindow? {
      CommitKeepsMembers(s, a);
      CommitKeepsVersions(s, a);
    } else {
      LedgerUntouched(s, a);
      var t := Step(s, a);
      forall i | 0 <= i < |t.db.versions|
        ensures Safe(t.db.outbox, t.log, t.db.versions[i].record.eventId)
      {
        StepKeepsSafe(s, a, s.db.versions[i].record.eventId);
      }
    }
  }

  lemma {:induction false} RunKeepsRecords(actions: seq<Action>)
    ensures Kept(Run(actions))
    decreases |actions|
  {
    if actions != [] {
      var before := actions[..|actions| - 1];
      RunKeeps(before);
      RunKeepsRecords(before);
      StepKeepsRecords(Run(before), actions[|actions| - 1]);
    }
  }

  /**
    No loss: in every run, the i-th deal or order of every stored window is linked
    to an event that is in the stream, or whose outbox row still awaits delivery.
   */
  lemma {:induction false} NothingIsLost(actions: seq<Action>, w: WindowId, r: Resource, i: nat)
    requires w in Run(actions).db.windows && i < RecordCount(Run(actions).db.windows[w].window, r)
    ensures Slot(w, r, i) in Run(actions).db.members
    ensures var s := Run(actions);
            var e := s.db.members[Slot(w, r, i)];
            || (exists k | 0 <= k < |s.keys.stream| :: s.keys.stream[k].eventId == e)
            || (e in s.db.outbox && Unresolved(s.db.outbox[e]))
  {
    RunKeeps(actions);
    RunKeepsRecords(actions);
    var s := Run(actions);
    LoggedInStream(s);
    var e := s.db.members[Slot(w, r, i)];
    var k :| 0 <= k < |s.db.versions| && s.db.versions[k].record.eventId == e;
    assert Safe(s.db.outbox, s.log, s.db.versions[k].record.eventId);
  }
}
