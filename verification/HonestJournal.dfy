/**
  What a journal looks like when planned windows are all that is ever committed:
  windows, record versions and outbox rows carry the names derived from their
  own content.
 */
module HonestJournal {
  import opened Wrappers
  import opened Canonical
  import opened JournalModel
  import opened History
  import opened PlanCoverage

  predicate NamedWindow(sha: Hash, w: Window) {
    w.id == sha(WindowIdentity(w.profileId, w.generation, w.startRaw, w.endRaw, w.policy, w.revision))
  }

  ghost predicate WindowsNamed(sha: Hash, windows: map<WindowId, StoredWindow>) {
    forall id | id in windows :: windows[id].window.id == id && NamedWindow(sha, windows[id].window)
  }

  predicate NamedVersion(sha: Hash, v: Version) {
    v.profileId == v.record.naturalId.profileId && TrueRecord(sha, v.record)
  }

  ghost predicate VersionsNamed(sha: Hash, versions: seq<Version>) {
    forall i | 0 <= i < |versions| :: NamedVersion(sha, versions[i])
  }

  ghost predicate MembersOfWindows(members: map<Slot, EventId>, windows: map<WindowId, StoredWindow>) {
    forall s | s in members :: s.windowId in windows
  }

  function MarkerName(sha: Hash, w: WindowId, digest: Digest): EventId {
    sha(MarkerIdentity(w, digest))
  }

  /** A stored marker belongs to a stored window. */
  ghost predicate MarkersOfWindows(sha: Hash, outbox: Outbox, windows: map<WindowId, StoredWindow>) {
    forall w, digest | MarkerName(sha, w, digest) in outbox :: w in windows
  }

  /** No window reaches past the checkpoint of its profile. */
  ghost predicate WindowsBehind(windows: map<WindowId, StoredWindow>, checkpoints: map<ProfileId, Checkpoint>) {
    forall id | id in windows ::
      windows[id].window.profileId in checkpoints
      && windows[id].window.endRaw <= checkpoints[windows[id].window.profileId].next
  }

  ghost predicate HonestDb(sha: Hash, db: Db) {
    && Honest(sha, db.outbox)
    && WindowsNamed(sha, db.windows)
    && VersionsNamed(sha, db.versions)
    && MembersOfWindows(db.members, db.windows)
    && MarkersOfWindows(sha, db.outbox, db.windows)
    && WindowsBehind(db.windows, db.checkpoints)
  }

  // ---------------------------------------------------------------------
  // Built inputs
  // ---------------------------------------------------------------------

  /** What every built input satisfies. */
  ghost predicate Planned(sha: Hash, session: Session, policy: Policy, announced: set<EventId>, input: Input) {
    && PlannedMessages(sha, session, input.window, input.records, announced, input.messages)
    && UniqueRecords(input.records)
    && NamedWindow(sha, input.window)
    && input.lowerBound == session.lowerBound
    && input.window.profileId == input.expected.profileId == session.journalProfileId
    && input.window.policy == input.expected.policy == policy.version
    && input.window.generation == input.expected.generation
    && input.window.startRaw < input.window.endRaw
  }

  lemma BuiltIsPlanned(
    sha: Hash, session: Session, policy: Policy, announced: set<EventId>, expected: Checkpoint,
    startRaw: int, endRaw: int, reading: Reading, revision: int, supersedes: Option<WindowId>)
    requires ReadWindow(sha, session, policy, announced, expected, startRaw, endRaw, reading, revision, supersedes).0.Success?
    ensures var input := ReadWindow(
              sha, session, policy, announced, expected, startRaw, endRaw, reading, revision, supersedes).0.value;
            && Planned(sha, session, policy, announced, input)
            && input.expected == expected && input.supersedes == supersedes
            && input.window.startRaw == startRaw && input.window.endRaw == endRaw && input.window.revision == revision
  {
    BuiltInputPlanned(sha, session, policy, announced, expected, startRaw, endRaw, reading, revision, supersedes);
  }

  // ---------------------------------------------------------------------
  // The record ledger takes every planned record
  // ---------------------------------------------------------------------

  /** The ledger while the records of a new window are linked. */
  ghost predicate LedgerAt(sha: Hash, ledger: Ledger, w: WindowId, records: seq<Record>, n: nat) {
    && n <= |records|
    && VersionsNamed(sha, ledger.versions)
    && (forall s | s in ledger.members && s.windowId == w ::
          && s.ordinal < CountOf(records[..n], s.resource)
          && exists k | 0 <= k < n :: ledger.members[s] == records[k].eventId)
  }

  /** A self-named record finds a stored version under its own id, or under no version's id at all. */
  lemma {:induction false} VersionOfRecord(sha: Hash, versions: seq<Version>, profileId: ProfileId, r: Record)
    requires CollisionFree(sha) && VersionsNamed(sha, versions) && TrueRecord(sha, r) && r.naturalId.profileId == profileId
    ensures match LatestVersion(versions, profileId, r, true)
            case Some(v) => v == r.eventId
            case None => !HasVersion(versions, r.eventId)
  {
    if versions != [] {
      var n := |versions| - 1;
      var last := versions[n];
      VersionOfRecord(sha, versions[..n], profileId, r);
      assert NamedVersion(sha, last);
      if last.record.eventId == r.eventId {
        SameNameSameRecord(sha, last.record, r);
      }
      if SameRecord(last, profileId, r) && last.record.payloadDigest == r.payloadDigest {
        assert last.record.eventId == r.eventId;
      } else {
        HasVersionNext(versions, n, r.eventId);
      }
    }
  }

  lemma HasVersionNext(versions: seq<Version>, n: nat, e: EventId)
    requires |versions| == n + 1
    ensures HasVersion(versions, e) <==> HasVersion(versions[..n], e) || versions[n].record.eventId == e
  {
    if HasVersion(versions[..n], e) {
      var i :| 0 <= i < n && versions[..n][i].record.eventId == e;
      assert versions[i].record.eventId == e;
    }
  }

  lemma {:induction false} CountNext(records: seq<Record>, n: nat, m: nat, resource: Resource)
    requires m == n + 1 <= |records|
    ensures CountOf(records[..m], resource)
            == CountOf(records[..n], resource) + (if records[n].resource == resource then 1 else 0)
  {
    assert records[..m][..n] == records[..n];
  }

  lemma RecordFits(sha: Hash, ledger: Ledger, w: Window, records: seq<Record>, n: nat, r: Record, ordinal: nat)
    requires CollisionFree(sha) && UniqueRecords(records) && n < |records| && records[n] == r
    requires TrueRecord(sha, r) && r.naturalId.profileId == w.profileId
    requires LedgerAt(sha, ledger, w.id, records, n) && ordinal == CountOf(records[..n], r.resource)
    ensures AddRecord(ledger, w, r, ordinal).Success?
    ensures var after := AddRecord(ledger, w, r, ordinal).value;
            && after.members == ledger.members[Slot(w.id, r.resource, ordinal) := r.eventId]
            && (after.versions == ledger.versions
                || exists v :: after.versions == ledger.versions + [v] && v.profileId == w.profileId && v.record == r)
  {
    VersionOfRecord(sha, ledger.versions, w.profileId, r);
    assert !HasMember(ledger.members, w.id, r.eventId);
  }

  lemma RecordKeepsLedger(
    sha: Hash, ledger: Ledger, w: Window, records: seq<Record>, n: nat, m: nat, r: Record, ordinal: nat, after: Ledger)
    requires m == n + 1 <= |records| && records[n] == r && TrueRecord(sha, r) && r.naturalId.profileId == w.profileId
    requires LedgerAt(sha, ledger, w.id, records, n) && ordinal == CountOf(records[..n], r.resource)
    requires after.members == ledger.members[Slot(w.id, r.resource, ordinal) := r.eventId]
    requires after.versions == ledger.versions
             || exists v :: after.versions == ledger.versions + [v] && v.profileId == w.profileId && v.record == r
    ensures LedgerAt(sha, after, w.id, records, m)
  {
    forall x | x in after.members && x.windowId == w.id
      ensures x.ordinal < CountOf(records[..m], x.resource)
      ensures exists k | 0 <= k < m :: after.members[x] == records[k].eventId
    {
      CountNext(records, n, m, x.resource);
      if x == Slot(w.id, r.resource, ordinal) {
        assert after.members[x] == records[n].eventId;
      } else {
        assert x in ledger.members;
        var k :| 0 <= k < n && ledger.members[x] == records[k].eventId;
        assert after.members[x] == records[k].eventId;
      }
    }
  }

  /** Linking the records of a planned window never violates a constraint. */
  lemma {:induction false} RecordsFit(sha: Hash, ledger: Ledger, w: Window, records: seq<Record>, all: seq<Record>, n: nat)
    requires CollisionFree(sha) && UniqueRecords(all) && n <= |all| && records == all[..n]
    requires forall i | 0 <= i < |all| :: TrueRecord(sha, all[i]) && all[i].naturalId.profileId == w.profileId
    requires LedgerAt(sha, ledger, w.id, all, 0)
    ensures AddRecords(ledger, w, records).Success?
    ensures LedgerAt(sha, AddRecords(ledger, w, records).value, w.id, all, n)
    ensures forall x | x in AddRecords(ledger, w, records).value.members :: x in ledger.members || x.windowId == w.id
    decreases n
  {
    if n > 0 {
      var m := n - 1;
      assert records[..m] == all[..m] && records[m] == all[m];
      RecordsFit(sha, ledger, w, all[..m], all, m);
      var before := AddRecords(ledger, w, all[..m]).value;
      var ordinal := CountOf(all[..m], all[m].resource);
      RecordFits(sha, before, w, all, m, all[m], ordinal);
      AddRecordsNext(ledger, w, records, m);
      RecordKeepsLedger(sha, before, w, all, m, n, all[m], ordinal, AddRecord(before, w, all[m], ordinal).value);
    }
  }

  lemma {:induction false} AddRecordsNext(ledger: Ledger, w: Window, records: seq<Record>, m: nat)
    requires |records| == m + 1 && AddRecords(ledger, w, records[..m]).Success?
    ensures AddRecords(ledger, w, records)
            == AddRecord(AddRecords(ledger, w, records[..m]).value, w, records[m], CountOf(records[..m], records[m].resource))
  {
  }

  // ---------------------------------------------------------------------
  // When a planned commit is admitted and written
  // ---------------------------------------------------------------------

  /** A window of the same profile, generation, range and revision is stored. */
  ghost predicate RangeStored(windows: map<WindowId, StoredWindow>, w: Window) {
    exists o | o in windows :: SameRevision(windows[o].window, w)
  }

  lemma InsertableExactly(sha: Hash, windows: map<WindowId, StoredWindow>, w: Window)
    requires CollisionFree(sha) && WindowsNamed(sha, windows) && NamedWindow(sha, w)
    ensures Insertable(windows, w) <==> !RangeStored(windows, w)
  {
    if w.id in windows {
      var v := windows[w.id].window;
      assert WindowIdentity(v.profileId, v.generation, v.startRaw, v.endRaw, v.policy, v.revision)
          == WindowIdentity(w.profileId, w.generation, w.startRaw, w.endRaw, w.policy, w.revision);
      assert SameRevision(v, w);
    }
  }

  /** The messages of a plan are new, its marker included. */
  lemma PlannedMessagesNew(sha: Hash, session: Session, policy: Policy, db: Db, input: Input)
    requires CollisionFree(sha) && MarkersOfWindows(sha, db.outbox, db.windows)
    requires Planned(sha, session, policy, db.outbox.Keys, input) && input.window.id !in db.windows
    ensures forall k | 0 <= k < |input.messages| :: input.messages[k].eventId !in db.outbox
    ensures !Conflicting(db.outbox, input.messages)
  {
    var messages, n := input.messages, |input.messages| - 1;
    forall k | 0 <= k < |messages| ensures messages[k].eventId !in db.outbox {
      if k < n {
        assert messages[..n][k] == messages[k];
        assert messages[k] in messages[..n];
        assert AnnouncesSome(session, input.window.id, messages[k], input.records);
      } else {
        assert messages[n].eventId == MarkerName(sha, input.window.id, input.window.windowDigest);
      }
    }
  }

  lemma PlannedWrites(
    sha: Hash, session: Session, policy: Policy, db: Db, input: Input, mode: CommitMode)
    requires CollisionFree(sha) && HonestDb(sha, db) && Planned(sha, session, policy, db.outbox.Keys, input)
    requires input.window.id !in db.windows
    ensures Write(db, input.expected, input.window, input.records, input.messages, mode).Success?
  {
    var w, records := input.window, input.records;
    forall i | 0 <= i < |records| ensures TrueRecord(sha, records[i]) && records[i].naturalId.profileId == w.profileId {
      assert Named(sha, session, records[i]);
    }
    assert records == records[..|records|];
    RecordsFit(sha, Ledger(db.versions, db.members), w, records, records, |records|);
    PlannedMessagesNew(sha, session, policy, db, input);
  }

  /** How a planned forward commit ends. */
  lemma PlannedCommitExactly(sha: Hash, session: Session, policy: Policy, db: Db, input: Input)
    requires CollisionFree(sha) && HonestDb(sha, db) && Planned(sha, session, policy, db.outbox.Keys, input)
    requires input.window.startRaw <= input.expected.next
    ensures var r := Commit(db, input.expected, input.window, input.records, input.messages, Forward(input.lowerBound, true));
            if !Matches(CheckpointOf(db, input.window.profileId), input.expected, input.lowerBound)
            then r == Failure(CheckpointConflict)
            else if RangeStored(db.windows, input.window) then r == Failure(IntegrityError)
            else r.Success?
  {
    PlannedCovers(sha, session, input.window, input.records, db.outbox.Keys, input.messages, db.outbox);
    InsertableExactly(sha, db.windows, input.window);
    if Insertable(db.windows, input.window) {
      PlannedWrites(sha, session, policy, db, input, Forward(input.lowerBound, true));
    }
  }

  // ---------------------------------------------------------------------
  // Honest journals stay honest
  // ---------------------------------------------------------------------

  lemma {:induction false} AddRecordsKeepNames(sha: Hash, ledger: Ledger, w: Window, records: seq<Record>)
    requires VersionsNamed(sha, ledger.versions) && AddRecords(ledger, w, records).Success?
    requires forall r | r in records :: TrueRecord(sha, r) && r.naturalId.profileId == w.profileId
    ensures VersionsNamed(sha, AddRecords(ledger, w, records).value.versions)
    ensures forall x | x in AddRecords(ledger, w, records).value.members :: x in ledger.members || x.windowId == w.id
    decreases |records|
  {
    if records != [] {
      var n := |records| - 1;
      AddRecordsKeepNames(sha, ledger, w, records[..n]);
      assert records[n] in records;
    }
  }

  lemma RecordMessageNoMarker(
    sha: Hash, session: Session, id: WindowId, records: seq<Record>, m: Message, w: WindowId, digest: Digest)
    requires CollisionFree(sha) && SelfNamed(sha, session, records) && AnnouncesSome(session, id, m, records)
    ensures m.eventId != MarkerName(sha, w, digest)
  {
    var r :| r in records && Announces(session, id, m, r);
    assert Named(sha, session, r);
    assert RecordIdentity(r.resource, r.naturalId, r.payloadDigest) != MarkerIdentity(w, digest);
  }

  lemma NewMarkerIsOwn(
    sha: Hash, session: Session, policy: Policy, announced: set<EventId>, input: Input, m: Message, w: WindowId, digest: Digest)
    requires CollisionFree(sha) && Planned(sha, session, policy, announced, input)
    requires m in input.messages && m.eventId == MarkerName(sha, w, digest)
    ensures w == input.window.id
  {
    var n := |input.messages| - 1;
    assert input.messages == input.messages[..n] + [input.messages[n]];
    forall x | x in input.messages[..n] ensures x.eventId != MarkerName(sha, w, digest) {
      assert AnnouncesSome(session, input.window.id, x, input.records);
      RecordMessageNoMarker(sha, session, input.window.id, input.records, x, w, digest);
    }
    assert m == input.messages[n];
    assert MarkerIdentity(w, digest) == MarkerIdentity(input.window.id, input.window.windowDigest);
  }

  lemma {:induction false} EnqueueKeepsMarkers(
    sha: Hash, session: Session, policy: Policy, announced: set<EventId>, db: Db, input: Input,
    windows: map<WindowId, StoredWindow>)
    requires CollisionFree(sha) && Planned(sha, session, policy, announced, input)
    requires MarkersOfWindows(sha, db.outbox, db.windows)
    requires db.windows.Keys <= windows.Keys && input.window.id in windows
    ensures MarkersOfWindows(sha, Enqueue(db.outbox, input.messages, input.window.committedAt), windows)
  {
    var after := Enqueue(db.outbox, input.messages, input.window.committedAt);
    EnqueueKeepsAndAdds(db.outbox, input.messages, input.window.committedAt);
    forall w, digest | MarkerName(sha, w, digest) in after ensures w in windows {
      if MarkerName(sha, w, digest) !in db.outbox {
        var k :| 0 <= k < |input.messages| && input.messages[k].eventId == MarkerName(sha, w, digest);
        NewMarkerIsOwn(sha, session, policy, announced, input, input.messages[k], w, digest);
      }
    }
  }

  /** The parts of the tables after an admitted commit. */
  lemma CommittedParts(db: Db, input: Input, mode: CommitMode) returns (ledger: Ledger)
    requires Commit(db, input.expected, input.window, input.records, input.messages, mode).Success?
    ensures AddRecords(Ledger(db.versions, db.members), input.window, input.records) == Success(ledger)
    ensures var after := Commit(db, input.expected, input.window, input.records, input.messages, mode).value;
            && after.versions == ledger.versions && after.members == ledger.members
            && after.windows == WithWindow(db.windows, input.window, mode)
            && after.outbox == Enqueue(db.outbox, input.messages, input.window.committedAt)
            && after.checkpoints == if mode.Forward?
                                    then db.checkpoints[input.window.profileId := Advanced(input.expected, input.window)]
                                    else db.checkpoints
    ensures mode.Forward? ==> Matches(CheckpointOf(db, input.window.profileId), input.expected, mode.lowerBound)
    ensures mode.Reconcile? ==> mode.prior.Some? && PriorMatches(db.windows, mode.prior.value, input.window)
  {
    ledger := AddRecords(Ledger(db.versions, db.members), input.window, input.records).value;
  }

  lemma WithWindowNamed(sha: Hash, windows: map<WindowId, StoredWindow>, w: Window, mode: CommitMode)
    requires WindowsNamed(sha, windows) && NamedWindow(sha, w)
    ensures WindowsNamed(sha, WithWindow(windows, w, mode))
    ensures WithWindow(windows, w, mode).Keys == windows.Keys + {w.id}
    ensures forall id | id in windows && id != w.id :: WithWindow(windows, w, mode)[id].window == windows[id].window
    ensures WithWindow(windows, w, mode)[w.id].window == w
  {
  }

  lemma CommitKeepsBehind(sha: Hash, db: Db, input: Input, mode: CommitMode, after: Db)
    requires WindowsBehind(db.windows, db.checkpoints) && WindowsNamed(sha, db.windows) && NamedWindow(sha, input.window)
    requires after.windows == WithWindow(db.windows, input.window, mode)
    requires after.checkpoints == if mode.Forward?
                                  then db.checkpoints[input.window.profileId := Advanced(input.expected, input.window)]
                                  else db.checkpoints
    requires mode.Forward? ==> Matches(CheckpointOf(db, input.window.profileId), input.expected, mode.lowerBound)
    requires mode.Reconcile? ==> mode.prior.Some? && PriorMatches(db.windows, mode.prior.value, input.window)
    ensures WindowsBehind(after.windows, after.checkpoints)
  {
    WithWindowNamed(sha, db.windows, input.window, mode);
  }

  /** A planned commit keeps the journal honest, whatever was cleaned up since it was planned. */
  lemma CommitKeepsHonest(
    sha: Hash, session: Session, policy: Policy, announced: set<EventId>, db: Db, input: Input, mode: CommitMode)
    requires CollisionFree(sha) && HonestDb(sha, db) && Planned(sha, session, policy, announced, input)
    requires Commit(db, input.expected, input.window, input.records, input.messages, mode).Success?
    ensures HonestDb(sha, Commit(db, input.expected, input.window, input.records, input.messages, mode).value)
  {
    var after := Commit(db, input.expected, input.window, input.records, input.messages, mode).value;
    var ledger := CommittedParts(db, input, mode);
    forall r | r in input.records ensures TrueRecord(sha, r) && r.naturalId.profileId == input.window.profileId {
      assert Named(sha, session, r);
    }
    AddRecordsKeepNames(sha, Ledger(db.versions, db.members), input.window, input.records);
    WithWindowNamed(sha, db.windows, input.window, mode);
    PlannedKeepsHonest(sha, session, input.window, input.records, announced, input.messages, db.outbox,
                       input.window.committedAt);
    EnqueueKeepsMarkers(sha, session, policy, announced, db, input, after.windows);
    CommitKeepsBehind(sha, db, input, mode, after);
  }

  lemma RowsKeepHonest(sha: Hash, db: Db, outbox: Outbox)
    requires HonestDb(sha, db) && SameEnvelopes(db.outbox, outbox)
    ensures HonestDb(sha, db.(outbox := outbox))
  {
    SameEnvelopesKeepHonest(sha, db.outbox, outbox);
  }

  lemma RecoverKeepsHonest(sha: Hash, db: Db, profileId: ProfileId, bound: int, now: Utc)
    requires HonestDb(sha, db) && Recover(db, profileId, bound, now).Success?
    ensures HonestDb(sha, Recover(db, profileId, bound, now).value)
  {
  }
}
