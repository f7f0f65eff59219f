/**
  From the terminal to the journal over whole runs: a row that every read of its
  time returns is a record of a stored window as soon as the checkpoint has passed it.
 */
module TerminalRows {
  import opened Wrappers
  import opened Canonical
  import opened JournalModel
  import opened Pipeline
  import opened History
  import opened PlanCoverage
  import opened HonestJournal
  import opened WindowContents
  import opened BridgeRuns
  import NoLoss
  import Coverage

  /** The origin of every committed window of the run. */
  ghost predicate Origins(sha: Hash, actions: seq<Action>, origins: seq<Origin>) {
    && |origins| == |actions|
    && forall n | 0 <= n < |actions| :: actions[n].CommitWindow? ==> BuiltBy(sha, origins[n], actions[n])
  }

  /** The raw time that places a row. */
  predicate HappensAt(row: Payload, resource: Resource, t: int) {
    match resource
    case Deal => TIME in row && row[TIME] == Whole(t)
    case Order => TIME_DONE in row && row[TIME_DONE] == Whole(t)
  }

  predicate Spans(w: Window, p: ProfileId, t: int) {
    w.profileId == p && w.startRaw <= t < w.endRaw
  }

  /** Every read of a range of the profile around this time lists the row. */
  ghost predicate AlwaysListed(
    actions: seq<Action>, origins: seq<Origin>, p: ProfileId, t: int, resource: Resource, row: Payload)
  {
    forall n | 0 <= n < |actions| && n < |origins| && actions[n].CommitWindow? && Spans(actions[n].window, p, t) ::
      var answer := Answer(origins[n].reading, resource, actions[n].window.startRaw, actions[n].window.endRaw);
      answer.Rows? && row in answer.rows
  }

  /** Some member of the window is linked to a version with this payload. */
  ghost predicate HoldsRow(db: Db, id: WindowId, resource: Resource, row: Payload) {
    exists i: nat, record: Record :: Links(db.versions, db.members, Slot(id, resource, i), record) && record.payload == row
  }

  ghost predicate AllHold(db: Db, p: ProfileId, t: int, resource: Resource, row: Payload) {
    forall id | id in db.windows && Spans(db.windows[id].window, p, t) :: HoldsRow(db, id, resource, row)
  }

  // ---------------------------------------------------------------------
  // One commit
  // ---------------------------------------------------------------------

  lemma ListedIsHeld(
    sha: Hash, session: Session, reading: Reading, db: Db, w: Window, resource: Resource, records: seq<Record>, row: Payload)
    requires RecordsFor(sha, session, reading, resource, w.startRaw, w.endRaw, records)
    requires row in Answer(reading, resource, w.startRaw, w.endRaw).rows && HappensIn(row, resource, w.startRaw, w.endRaw)
    requires forall i | 0 <= i < |records| :: Links(db.versions, db.members, Slot(w.id, resource, i), records[i])
    ensures HoldsRow(db, w.id, resource, row)
  {
    assert row in multiset(Answer(reading, resource, w.startRaw, w.endRaw).rows);
    assert row in multiset(PayloadsOf(records));
    var i :| 0 <= i < |records| && PayloadsOf(records)[i] == row;
    assert Links(db.versions, db.members, Slot(w.id, resource, i), records[i]);
  }

  lemma CommitHoldsRow(sha: Hash, s: Sys, a: Action, o: Origin, p: ProfileId, t: int, resource: Resource, row: Payload)
    requires CollisionFree(sha) && HonestDb(sha, s.db) && Commits(s, a) && BuiltBy(sha, o, a)
    requires Spans(a.window, p, t) && HappensAt(row, resource, t)
    requires Answer(o.reading, resource, a.window.startRaw, a.window.endRaw).Rows?
    requires row in Answer(o.reading, resource, a.window.startRaw, a.window.endRaw).rows
    ensures HoldsRow(Step(s, a).db, a.window.id, resource, row)
  {
    var input := ReadFrom(sha, o, a.expected).value;
    BuiltIsPlanned(sha, o.session, o.policy, o.announced, a.expected, o.startRaw, o.endRaw, o.reading, o.revision, o.supersedes);
    var deals, orders := BuiltRecords(sha, o.session, o.policy, o.announced, a.expected, o.startRaw, o.endRaw, o.reading,
                                      o.revision, o.supersedes);
    CommitHolds(sha, o.session, o.policy, o.announced, s.db, input, a.mode, deals, orders);
    if resource == Deal {
      ListedIsHeld(sha, o.session, o.reading, Step(s, a).db, a.window, Deal, deals, row);
    } else {
      ListedIsHeld(sha, o.session, o.reading, Step(s, a).db, a.window, Order, orders, row);
    }
  }

  lemma InputGrows(
    sha: Hash, session: Session, policy: Policy, announced: set<EventId>, db: Db, input: Input, mode: CommitMode)
    returns (after: Db)
    requires CollisionFree(sha) && HonestDb(sha, db) && Planned(sha, session, policy, announced, input)
    requires Commit(db, input.expected, input.window, input.records, input.messages, mode).Success?
    ensures Commit(db, input.expected, input.window, input.records, input.messages, mode) == Success(after)
    ensures LedgerGrows(Ledger(db.versions, db.members), Ledger(after.versions, after.members))
    ensures after.windows == WithWindow(db.windows, input.window, mode) && NamedWindow(sha, input.window)
  {
    forall i | 0 <= i < |input.records|
      ensures TrueRecord(sha, input.records[i]) && input.records[i].naturalId.profileId == input.window.profileId
    {
      assert Named(sha, session, input.records[i]);
    }
    var ledger := CommittedParts(db, input, mode);
    var linked := LinkedRecords(sha, Ledger(db.versions, db.members), input.window, input.records);
    after := Commit(db, input.expected, input.window, input.records, input.messages, mode).value;
  }

  /** A commit keeps the earlier windows and what their members are linked to. */
  lemma CommitGrows(sha: Hash, s: Sys, a: Action, o: Origin)
    requires CollisionFree(sha) && HonestDb(sha, s.db) && Commits(s, a) && BuiltBy(sha, o, a)
    ensures var t := Step(s, a);
            && LedgerGrows(Ledger(s.db.versions, s.db.members), Ledger(t.db.versions, t.db.members))
            && (forall id | id in t.db.windows && id != a.window.id ::
                  id in s.db.windows && t.db.windows[id].window == s.db.windows[id].window)
            && a.window.id in t.db.windows && t.db.windows[a.window.id].window == a.window
  {
    var input := ReadFrom(sha, o, a.expected).value;
    BuiltIsPlanned(sha, o.session, o.policy, o.announced, a.expected, o.startRaw, o.endRaw, o.reading, o.revision, o.supersedes);
    var after := InputGrows(sha, o.session, o.policy, o.announced, s.db, input, a.mode);
    WithWindowNamed(sha, s.db.windows, a.window, a.mode);
  }

  lemma HeldStays(before: Db, after: Db, id: WindowId, resource: Resource, row: Payload)
    requires LedgerGrows(Ledger(before.versions, before.members), Ledger(after.versions, after.members))
    requires HoldsRow(before, id, resource, row)
    ensures HoldsRow(after, id, resource, row)
  {
    var i: nat, record: Record :|
      Links(before.versions, before.members, Slot(id, resource, i), record) && record.payload == row;
    LinksStay(Ledger(before.versions, before.members), Ledger(after.versions, after.members), Slot(id, resource, i), record);
  }

  lemma CommitAllHold(sha: Hash, s: Sys, a: Action, o: Origin, p: ProfileId, t: int, resource: Resource, row: Payload)
    requires CollisionFree(sha) && HonestDb(sha, s.db) && Commits(s, a) && BuiltBy(sha, o, a)
    requires AllHold(s.db, p, t, resource, row) && HappensAt(row, resource, t)
    requires Spans(a.window, p, t) ==>
               && Answer(o.reading, resource, a.window.startRaw, a.window.endRaw).Rows?
               && row in Answer(o.reading, resource, a.window.startRaw, a.window.endRaw).rows
    ensures AllHold(Step(s, a).db, p, t, resource, row)
  {
    var after := Step(s, a).db;
    CommitGrows(sha, s, a, o);
    forall id | id in after.windows && Spans(after.windows[id].window, p, t) ensures HoldsRow(after, id, resource, row) {
      if id == a.window.id {
        CommitHoldsRow(sha, s, a, o, p, t, resource, row);
      } else {
        HeldStays(s.db, after, id, resource, row);
      }
    }
  }

  lemma OtherAllHold(s: Sys, a: Action, p: ProfileId, t: int, resource: Resource, row: Payload)
    requires !Commits(s, a) && AllHold(s.db, p, t, resource, row)
    ensures AllHold(Step(s, a).db, p, t, resource, row)
  {
    var after := Step(s, a).db;
    if !a.CommitWindow? {
      NoLoss.LedgerUntouched(s, a);
    }
    forall id | id in after.windows && Spans(after.windows[id].window, p, t) ensures HoldsRow(after, id, resource, row) {
      HeldStays(s.db, after, id, resource, row);
    }
  }

  // ---------------------------------------------------------------------
  // Runs
  // ---------------------------------------------------------------------

  lemma OriginsPrefix(
    sha: Hash, actions: seq<Action>, origins: seq<Origin>, m: nat, p: ProfileId, t: int, resource: Resource, row: Payload)
    requires m <= |actions| && Origins(sha, actions, origins) && AlwaysListed(actions, origins, p, t, resource, row)
    ensures Origins(sha, actions[..m], origins[..m]) && AlwaysListed(actions[..m], origins[..m], p, t, resource, row)
    ensures AllBuilt(sha, actions[..m])
  {
    forall n | 0 <= n < m && actions[..m][n].CommitWindow? && Spans(actions[..m][n].window, p, t)
      ensures var answer := Answer(origins[..m][n].reading, resource, actions[..m][n].window.startRaw, actions[..m][n].window.endRaw);
              answer.Rows? && row in answer.rows
    {
      assert Spans(actions[n].window, p, t);
    }
  }

  lemma {:induction false} RunAllHold(
    sha: Hash, actions: seq<Action>, origins: seq<Origin>, p: ProfileId, t: int, resource: Resource, row: Payload)
    requires CollisionFree(sha) && Origins(sha, actions, origins) && HappensAt(row, resource, t)
    requires AlwaysListed(actions, origins, p, t, resource, row)
    ensures AllHold(Run(actions).db, p, t, resource, row)
    decreases |actions|
  {
    if actions != [] {
      var m := |actions| - 1;
      OriginsPrefix(sha, actions, origins, m, p, t, resource, row);
      RunAllHold(sha, actions[..m], origins[..m], p, t, resource, row);
      RunIsHonest(sha, actions[..m]);
      RunNext(actions, m);
      var s := Run(actions[..m]);
      if Commits(s, actions[m]) {
        assert BuiltBy(sha, origins[m], actions[m]);
        CommitAllHold(sha, s, actions[m], origins[m], p, t, resource, row);
      } else {
        OtherAllHold(s, actions[m], p, t, resource, row);
      }
    }
  }

  /**
    Nothing the terminal keeps listing is missed: in every run over built windows, once the
    checkpoint has passed a raw time from the bound in force on, a row of that time which every
    read of a range around it listed is held by a COMMITTED window of that range.
   */
  lemma {:induction false} ListedRowIsStored(
    sha: Hash, actions: seq<Action>, origins: seq<Origin>, p: ProfileId, t: int, resource: Resource, row: Payload)
    returns (id: WindowId)
    requires CollisionFree(sha) && Origins(sha, actions, origins) && HappensAt(row, resource, t)
    requires AlwaysListed(actions, origins, p, t, resource, row)
    requires p in Run(actions).db.checkpoints && p in Run(actions).bounds
    requires Run(actions).bounds[p] <= t < Run(actions).db.checkpoints[p].next
    ensures var db := Run(actions).db;
            && id in db.windows && db.windows[id].state == COMMITTED && Spans(db.windows[id].window, p, t)
            && HoldsRow(db, id, resource, row)
  {
    RunAllHold(sha, actions, origins, p, t, resource, row);
    Coverage.WindowsCoverHistory(actions, p, t);
    id :| Coverage.CoveredBy(Run(actions).db.windows, p, t, id);
  }

  // ---------------------------------------------------------------------
  // The commit behind a stored window
  // ---------------------------------------------------------------------

  lemma WindowsFrom(s: Sys, a: Action, id: WindowId)
    requires id in Step(s, a).db.windows
    ensures (Commits(s, a) && a.window.id == id && Step(s, a).db.windows[id].window == a.window)
            || (id in s.db.windows && Step(s, a).db.windows[id].window == s.db.windows[id].window)
  {
    if a.CommitWindow? {
      if Commits(s, a) {
        Coverage.CommitShape(s, a);
      }
    } else {
      NoLoss.LedgerUntouched(s, a);
    }
  }

  /** Every stored window was committed by some action of the run. */
  lemma {:induction false} CommitOf(actions: seq<Action>, id: WindowId) returns (n: nat)
    requires id in Run(actions).db.windows
    ensures BridgeRuns.Committed(actions, n) && actions[n].CommitWindow? && actions[n].window == Run(actions).db.windows[id].window
    decreases |actions|
  {
    var m := |actions| - 1;
    RunNext(actions, m);
    WindowsFrom(Run(actions[..m]), actions[m], id);
    if Commits(Run(actions[..m]), actions[m]) && actions[m].window.id == id {
      n := m;
    } else {
      n := CommitOf(actions[..m], id);
      assert actions[..m][..n] == actions[..n];
    }
  }

  /** A row that was listed for a committed window is one of its records. */
  lemma RecordOfRow(sha: Hash, a: Action, o: Origin, t: int, resource: Resource, row: Payload) returns (r: Record)
    requires a.CommitWindow? && BuiltBy(sha, o, a)
    requires a.window.startRaw <= t < a.window.endRaw && HappensAt(row, resource, t)
    requires Answer(o.reading, resource, a.window.startRaw, a.window.endRaw).Rows?
    requires row in Answer(o.reading, resource, a.window.startRaw, a.window.endRaw).rows
    ensures r in a.records && r.payload == row && r.resource == resource
  {
    BuiltIsPlanned(sha, o.session, o.policy, o.announced, a.expected, o.startRaw, o.endRaw, o.reading, o.revision, o.supersedes);
    var deals, orders := BuiltRecords(sha, o.session, o.policy, o.announced, a.expected, o.startRaw, o.endRaw, o.reading,
                                      o.revision, o.supersedes);
    r := ListedRecord(sha, o.session, o.reading, resource, a.window.startRaw, a.window.endRaw,
                      if resource == Deal then deals else orders, row);
  }

  lemma ListedRecord(
    sha: Hash, session: Session, reading: Reading, resource: Resource, startRaw: int, endRaw: int, records: seq<Record>,
    row: Payload) returns (r: Record)
    requires RecordsFor(sha, session, reading, resource, startRaw, endRaw, records)
    requires row in Answer(reading, resource, startRaw, endRaw).rows && HappensIn(row, resource, startRaw, endRaw)
    ensures r in records && r.payload == row && r.resource == resource
  {
    assert row in multiset(Answer(reading, resource, startRaw, endRaw).rows);
    assert row in multiset(PayloadsOf(records));
    var i :| 0 <= i < |records| && PayloadsOf(records)[i] == row;
    r := records[i];
    assert NamesRow(sha, session, resource, records[i]);
  }

  /** Once the checkpoint has passed its time, a row that is always listed is a record of some commit. */
  lemma ListedRowIsCommitted(
    sha: Hash, actions: seq<Action>, origins: seq<Origin>, p: ProfileId, t: int, resource: Resource, row: Payload)
    returns (n: nat, r: Record)
    requires CollisionFree(sha) && Origins(sha, actions, origins) && HappensAt(row, resource, t)
    requires AlwaysListed(actions, origins, p, t, resource, row)
    requires p in Run(actions).db.checkpoints && p in Run(actions).bounds
    requires Run(actions).bounds[p] <= t < Run(actions).db.checkpoints[p].next
    ensures BridgeRuns.Committed(actions, n) && actions[n].CommitWindow? && r in actions[n].records
    ensures r.payload == row && r.resource == resource
  {
    var id := ListedRowIsStored(sha, actions, origins, p, t, resource, row);
    n := CommitOf(actions, id);
    assert Spans(actions[n].window, p, t);
    assert BuiltBy(sha, origins[n], actions[n]);
    r := RecordOfRow(sha, actions[n], origins[n], t, resource, row);
  }
}
