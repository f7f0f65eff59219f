/** What a commit of any window demands of the tables, and what it leaves in them. */
module CommitLaws {
  import opened Wrappers
  import opened Canonical
  import opened JournalModel

  // ---------------------------------------------------------------------
  // Admission
  // ---------------------------------------------------------------------

  /** The window continues the checkpoint it was planned from. */
  predicate Continues(expected: Checkpoint, w: Window, mode: CommitMode) {
    && expected.profileId == w.profileId && expected.generation == w.generation && expected.policy == w.policy
    && w.startRaw < w.endRaw
    && (mode.Forward? ==> w.startRaw <= expected.next)
  }

  predicate IsRecordMessage(m: Message) {
    m.envelope.Decoded? && (m.envelope.messageType == HistoryDeal || m.envelope.messageType == HistoryOrder)
  }

  predicate SameKind(envelope: Envelope, resource: Resource) {
    envelope.Decoded? && envelope.messageType == (if resource == Deal then HistoryDeal else HistoryOrder)
  }

  /** Readable messages of this window, each named once. */
  predicate OwnMessages(w: Window, messages: seq<Message>) {
    && (forall k | 0 <= k < |messages| ::
          messages[k].windowId == w.id && messages[k].profileId == w.profileId && messages[k].envelope.Decoded?)
    && forall j, k | 0 <= j < k < |messages| :: messages[j].eventId != messages[k].eventId
  }

  /** One message is a marker, and it carries the digest of the window. */
  predicate MarkedOnce(w: Window, messages: seq<Message>) {
    exists k :: 0 <= k < |messages| && messages[k].payloadDigest == w.windowDigest
      && forall j | 0 <= j < |messages| ::
           (messages[j].envelope.Decoded? && messages[j].envelope.messageType == HistoryWindow) <==> j == k
  }

  /** Every deal or order message names a record of the window. */
  predicate NothingElse(records: seq<Record>, messages: seq<Message>) {
    forall k | 0 <= k < |messages| && IsRecordMessage(messages[k]) ::
      exists i :: 0 <= i < |records| && records[i].eventId == messages[k].eventId
  }

  /** The record has messages of its kind only, or none and a stored row of its kind and profile. */
  predicate Accounted(stored: Outbox, w: Window, r: Record, messages: seq<Message>) {
    && (forall k | 0 <= k < |messages| && messages[k].eventId == r.eventId :: SameKind(messages[k].envelope, r.resource))
    && ((forall k | 0 <= k < |messages| :: messages[k].eventId != r.eventId) ==>
          && r.eventId in stored && stored[r.eventId].profileId == w.profileId
          && SameKind(stored[r.eventId].envelope, r.resource))
  }

  predicate EveryRecord(stored: Outbox, w: Window, records: seq<Record>, messages: seq<Message>) {
    forall i | 0 <= i < |records| :: Accounted(stored, w, records[i], messages)
  }

  /** How many records are of a kind. */
  function HowMany(records: seq<Record>, resource: Resource): nat {
    |set i | 0 <= i < |records| && records[i].resource == resource|
  }

  /** A new profile starts at its bound; a known one is where the plan left it. */
  predicate Unmoved(db: Db, expected: Checkpoint, w: Window, mode: CommitMode)
    requires mode.Forward?
  {
    if w.profileId !in db.checkpoints
    then mode.allowInitial && expected.generation == 1 && expected.next == mode.lowerBound && expected.lastWindow == None
    else
      var c := db.checkpoints[w.profileId];
      c.generation == expected.generation && c.next == expected.next && c.lastWindow == expected.lastWindow
      && c.policy == expected.policy
  }

  /** The window that is superseded is in force, and is the previous revision of the range. */
  predicate Replaces(db: Db, w: Window, mode: CommitMode)
    requires mode.Reconcile?
  {
    && mode.prior.Some? && mode.prior.value in db.windows && db.windows[mode.prior.value].state == COMMITTED
    && var p := db.windows[mode.prior.value].window;
       && p.profileId == w.profileId && p.generation == w.generation
       && p.startRaw == w.startRaw && p.endRaw == w.endRaw && p.revision + 1 == w.revision
  }

  /** No stored window has the name, or the range and revision, of this one. */
  predicate NewWindow(db: Db, w: Window) {
    && w.id !in db.windows
    && forall o | o in db.windows ::
         var v := db.windows[o].window;
         !(v.profileId == w.profileId && v.generation == w.generation && v.startRaw == w.startRaw
           && v.endRaw == w.endRaw && v.revision == w.revision)
  }

  lemma {:induction false} CountIsSize(records: seq<Record>, resource: Resource)
    ensures CountOf(records, resource) == HowMany(records, resource)
  {
    var all := set i | 0 <= i < |records| && records[i].resource == resource;
    if records == [] {
      assert all == {};
    } else {
      var n := |records| - 1;
      CountIsSize(records[..n], resource);
      var before := set i | 0 <= i < n && records[..n][i].resource == resource;
      assert all == if records[n].resource == resource then before + {n} else before;
    }
  }

  lemma MarkedExactly(w: Window, messages: seq<Message>)
    ensures OneMarker(w, messages) <==> MarkedOnce(w, messages)
  {
    if OneMarker(w, messages) {
      var i :| 0 <= i < |messages| && IsMarker(messages[i].envelope) && messages[i].payloadDigest == w.windowDigest
        && forall j | 0 <= j < |messages| && j != i :: !IsMarker(messages[j].envelope);
      assert messages[i].payloadDigest == w.windowDigest;
    }
  }

  lemma BackedExactly(records: seq<Record>, messages: seq<Message>)
    ensures (forall m {:trigger Backed(records, m)} | m in messages :: Backed(records, m)) <==> NothingElse(records, messages)
  {
    if forall m {:trigger Backed(records, m)} | m in messages :: Backed(records, m) {
      forall k | 0 <= k < |messages| && IsRecordMessage(messages[k])
        ensures exists i :: 0 <= i < |records| && records[i].eventId == messages[k].eventId
      {
        assert Backed(records, messages[k]);
        var r :| r in records && r.eventId == messages[k].eventId;
        var i :| 0 <= i < |records| && records[i] == r;
        assert records[i].eventId == messages[k].eventId;
      }
    }
    if NothingElse(records, messages) {
      forall m | m in messages ensures Backed(records, m) {
        var k :| 0 <= k < |messages| && messages[k] == m;
        if IsRecordMessage(m) {
          var i :| 0 <= i < |records| && records[i].eventId == messages[k].eventId;
          assert records[i] in records;
        }
      }
    }
  }

  lemma AccountedExactly(stored: Outbox, w: Window, r: Record, messages: seq<Message>)
    ensures CoveredRecord(stored, w, r, messages) <==> Accounted(stored, w, r, messages)
  {
    assert Announced(r, messages) <==> (exists k :: 0 <= k < |messages| && messages[k].eventId == r.eventId) by {
      if Announced(r, messages) {
        var m :| m in messages && m.eventId == r.eventId;
        var k :| 0 <= k < |messages| && messages[k] == m;
        assert messages[k].eventId == r.eventId;
      }
    }
    assert (forall m | m in messages && m.eventId == r.eventId :: SameKind(m.envelope, r.resource))
        == (forall k | 0 <= k < |messages| && messages[k].eventId == r.eventId :: SameKind(messages[k].envelope, r.resource));
  }

  lemma EveryRecordExactly(stored: Outbox, w: Window, records: seq<Record>, messages: seq<Message>)
    ensures (forall r | r in records :: CoveredRecord(stored, w, r, messages)) <==> EveryRecord(stored, w, records, messages)
  {
    forall r: Record ensures CoveredRecord(stored, w, r, messages) <==> Accounted(stored, w, r, messages) {
      AccountedExactly(stored, w, r, messages);
    }
  }

  lemma OwnExactly(w: Window, messages: seq<Message>)
    ensures OwnMessages(w, messages)
            <==> UniqueEventIds(messages)
                 && forall m | m in messages :: m.windowId == w.id && m.profileId == w.profileId && m.envelope.Decoded?
  {
  }

  /** The coverage check of a commit. */
  lemma CoverageExactly(stored: Outbox, w: Window, records: seq<Record>, messages: seq<Message>)
    ensures OutboxCovers(stored, w, records, messages)
            <==> && OwnMessages(w, messages) && MarkedOnce(w, messages) && NothingElse(records, messages)
                 && EveryRecord(stored, w, records, messages)
                 && HowMany(records, Deal) == w.dealCount && HowMany(records, Order) == w.orderCount
  {
    CountIsSize(records, Deal);
    CountIsSize(records, Order);
    MarkedExactly(w, messages);
    BackedExactly(records, messages);
    OwnExactly(w, messages);
    EveryRecordExactly(stored, w, records, messages);
  }

  predicate CoveredBy(stored: Outbox, w: Window, records: seq<Record>, messages: seq<Message>) {
    && OwnMessages(w, messages) && MarkedOnce(w, messages) && NothingElse(records, messages)
    && EveryRecord(stored, w, records, messages)
    && HowMany(records, Deal) == w.dealCount && HowMany(records, Order) == w.orderCount
  }

  /**
    When a commit is admitted, and the first thing that refuses it: a window that does not
    continue its plan, messages that do not cover it, a checkpoint that moved, a prior window
    that is not the one it replaces, and a window that is stored already.
   */
  lemma AdmittedExactly(
    db: Db, expected: Checkpoint, w: Window, records: seq<Record>, messages: seq<Message>, mode: CommitMode)
    ensures Admit(db, expected, w, records, messages, mode)
            == if !Continues(expected, w, mode) || !CoveredBy(db.outbox, w, records, messages) then Some(ValueError)
               else if mode.Forward? && !Unmoved(db, expected, w, mode) then Some(CheckpointConflict)
               else if mode.Reconcile? && !Replaces(db, w, mode) then Some(ValueError)
               else if !NewWindow(db, w) then Some(IntegrityError)
               else None
  {
    CoverageExactly(db.outbox, w, records, messages);
  }

  // ---------------------------------------------------------------------
  // What it writes
  // ---------------------------------------------------------------------

  /** A fresh row for a message. */
  predicate FreshRow(row: Row, m: Message, now: Utc) {
    && row.windowId == m.windowId && row.profileId == m.profileId && row.streamKey == m.streamKey
    && row.envelope == m.envelope && row.payloadDigest == m.payloadDigest
    && row.state == PENDING && row.attempts == 0 && row.nextAttemptAt == now && row.failures == 0
    && row.claimedBy == None && row.quarantinedAt == None
  }

  /** Stored rows stay, each message without one gets a fresh row, and no other row appears. */
  ghost predicate RowsAdded(before: Outbox, after: Outbox, messages: seq<Message>, now: Utc) {
    && (forall e | e in before :: e in after && after[e] == before[e])
    && (forall k | 0 <= k < |messages| ::
          messages[k].eventId in after
          && (messages[k].eventId !in before ==> FreshRow(after[messages[k].eventId], messages[k], now)))
    && forall e | e in after && e !in before :: exists k :: 0 <= k < |messages| && messages[k].eventId == e
  }

  /** A forward commit moves the checkpoint of the profile past the window; a reconciliation moves none. */
  predicate CheckpointMoved(db: Db, after: Db, expected: Checkpoint, w: Window, mode: CommitMode) {
    if mode.Reconcile? then after.checkpoints == db.checkpoints
    else
      && w.profileId in after.checkpoints
      && after.checkpoints == db.checkpoints[w.profileId := after.checkpoints[w.profileId]]
      && var c := after.checkpoints[w.profileId];
         && c.profileId == w.profileId && c.generation == w.generation && c.policy == w.policy
         && c.lastWindow == Some(w.id) && c.updatedAt == w.committedAt
         && c.next >= expected.next && c.next >= w.endRaw && (c.next == expected.next || c.next == w.endRaw)
  }

  /** The window is stored COMMITTED, and the window it replaces is SUPERSEDED. */
  predicate WindowStored(db: Db, after: Db, w: Window, mode: CommitMode) {
    && after.windows.Keys == db.windows.Keys + {w.id}
    && after.windows[w.id] == StoredWindow(w, COMMITTED)
    && forall o | o in db.windows ::
         o in after.windows
         && after.windows[o] == if mode.Reconcile? && mode.prior == Some(o) then StoredWindow(db.windows[o].window, SUPERSEDED)
                                else db.windows[o]
  }

  /** The version a new one corrects: the last earlier one of the same record. */
  ghost predicate Corrects(versions: seq<Version>, k: int)
    requires 0 <= k < |versions|
  {
    match versions[k].correctionOf
    case None => forall j | 0 <= j < k :: !SameThing(versions[j], versions[k])
    case Some(e) =>
      exists j :: 0 <= j < k && SameThing(versions[j], versions[k]) && versions[j].record.eventId == e
        && forall i | j < i < k :: !SameThing(versions[i], versions[k])
  }

  predicate SameThing(a: Version, b: Version) {
    a.profileId == b.profileId && a.record.resource == b.record.resource && a.record.naturalId == b.record.naturalId
  }

  /** Versions are only added, each for a record of the window, and each names the version it corrects. */
  ghost predicate VersionsAdded(before: seq<Version>, after: seq<Version>, p: ProfileId, records: seq<Record>) {
    && before <= after
    && forall k | |before| <= k < |after| :: after[k].profileId == p && after[k].record in records && Corrects(after, k)
  }

  lemma {:induction false} LatestIs(versions: seq<Version>, p: ProfileId, r: Record)
    ensures match LatestVersion(versions, p, r, false)
            case None => forall j | 0 <= j < |versions| :: !SameRecord(versions[j], p, r)
            case Some(e) =>
              exists j :: 0 <= j < |versions| && SameRecord(versions[j], p, r) && versions[j].record.eventId == e
                && forall i | j < i < |versions| :: !SameRecord(versions[i], p, r)
    decreases |versions|
  {
    if versions != [] {
      var n := |versions| - 1;
      LatestIs(versions[..n], p, r);
      if SameRecord(versions[n], p, r) {
        assert versions[n].record.eventId == LatestVersion(versions, p, r, false).value;
      } else if LatestVersion(versions, p, r, false).Some? {
        var j :| 0 <= j < n && SameRecord(versions[..n][j], p, r)
          && versions[..n][j].record.eventId == LatestVersion(versions, p, r, false).value
          && forall i | j < i < n :: !SameRecord(versions[..n][i], p, r);
        assert SameRecord(versions[j], p, r);
        forall i | j < i < |versions| ensures !SameRecord(versions[i], p, r) {
          assert i < n ==> versions[..n][i] == versions[i];
        }
      } else {
        forall j | 0 <= j < |versions| ensures !SameRecord(versions[j], p, r) {
          assert j < n ==> versions[..n][j] == versions[j];
        }
      }
    }
  }

  lemma {:induction false} NewVersionCorrects(versions: seq<Version>, p: ProfileId, r: Record, after: seq<Version>)
    requires after == versions + [Version(p, r, LatestVersion(versions, p, r, false))]
    ensures Corrects(after, |versions|)
  {
    LatestIs(versions, p, r);
    var k := |versions|;
    forall j | 0 <= j < k ensures SameThing(after[j], after[k]) <==> SameRecord(versions[j], p, r) {
    }
    if after[k].correctionOf.Some? {
      var e := after[k].correctionOf.value;
      var j :| 0 <= j < |versions| && SameRecord(versions[j], p, r) && versions[j].record.eventId == e
        && forall i | j < i < |versions| :: !SameRecord(versions[i], p, r);
      assert SameThing(after[j], after[k]) && after[j].record.eventId == e;
    }
  }

  lemma CorrectsStays(versions: seq<Version>, after: seq<Version>, k: nat)
    requires versions <= after && k < |versions| && Corrects(versions, k)
    ensures Corrects(after, k)
  {
    assert forall j | 0 <= j <= k :: after[j] == versions[j];
    if versions[k].correctionOf.Some? {
      var e := versions[k].correctionOf.value;
      var j :| 0 <= j < k && SameThing(versions[j], versions[k]) && versions[j].record.eventId == e
        && forall i | j < i < k :: !SameThing(versions[i], versions[k]);
      assert SameThing(after[j], after[k]) && after[j].record.eventId == e;
    }
  }

  lemma {:induction false} RecordAdds(ledger: Ledger, w: Window, r: Record, ordinal: nat)
    requires AddRecord(ledger, w, r, ordinal).Success?
    ensures var after := AddRecord(ledger, w, r, ordinal).value.versions;
            after == ledger.versions
            || after == ledger.versions + [Version(w.profileId, r, LatestVersion(ledger.versions, w.profileId, r, false))]
  {
  }

  lemma {:induction false} RecordsAdd(ledger: Ledger, w: Window, records: seq<Record>)
    requires AddRecords(ledger, w, records).Success?
    ensures VersionsAdded(ledger.versions, AddRecords(ledger, w, records).value.versions, w.profileId, records)
    decreases |records|
  {
    if records != [] {
      var n := |records| - 1;
      RecordsAdd(ledger, w, records[..n]);
      var before := AddRecords(ledger, w, records[..n]).value;
      var after := AddRecords(ledger, w, records).value.versions;
      RecordAdds(before, w, records[n], CountOf(records[..n], records[n].resource));
      VersionsGrow(ledger.versions, before.versions, after, w.profileId, records, n);
    }
  }

  lemma {:induction false} VersionsGrow(start: seq<Version>, before: seq<Version>, after: seq<Version>, p: ProfileId, records: seq<Record>, n: nat)
    requires |records| == n + 1 && VersionsAdded(start, before, p, records[..n])
    requires after == before || after == before + [Version(p, records[n], LatestVersion(before, p, records[n], false))]
    ensures VersionsAdded(start, after, p, records)
  {
    forall k | |start| <= k < |after| ensures after[k].profileId == p && after[k].record in records && Corrects(after, k) {
      if k < |before| {
        CorrectsStays(before, after, k);
        assert after[k] == before[k] && before[k].record in records[..n];
      } else {
        NewVersionCorrects(before, p, records[n], after);
      }
    }
  }

  lemma {:induction false} RowsAre(stored: Outbox, messages: seq<Message>, now: Utc)
    requires UniqueEventIds(messages)
    ensures RowsAdded(stored, Enqueue(stored, messages, now), messages, now)
  {
    EnqueueKeepsAndAdds(stored, messages, now);
  }

  /** What a commit that takes effect leaves in every table. */
  lemma CommitWritesExactly(
    db: Db, expected: Checkpoint, w: Window, records: seq<Record>, messages: seq<Message>, mode: CommitMode)
    requires Commit(db, expected, w, records, messages, mode).Success?
    ensures var after := Commit(db, expected, w, records, messages, mode).value;
            && CheckpointMoved(db, after, expected, w, mode) && WindowStored(db, after, w, mode)
            && RowsAdded(db.outbox, after.outbox, messages, w.committedAt)
            && VersionsAdded(db.versions, after.versions, w.profileId, records)
            && after.sequences == db.sequences
  {
    RowsAre(db.outbox, messages, w.committedAt);
    RecordsAdd(Ledger(db.versions, db.members), w, records);
    WindowsAre(db, w, mode);
  }

  lemma WindowsAre(db: Db, w: Window, mode: CommitMode)
    requires w.id !in db.windows && (mode.Reconcile? ==> mode.prior.Some? && mode.prior.value in db.windows)
    ensures var after := JournalModel.WithWindow(db.windows, w, mode);
            && after.Keys == db.windows.Keys + {w.id} && after[w.id] == StoredWindow(w, COMMITTED)
            && forall o | o in db.windows ::
                 o in after
                 && after[o] == if mode.Reconcile? && mode.prior == Some(o) then StoredWindow(db.windows[o].window, SUPERSEDED)
                                else db.windows[o]
  {
  }
}
