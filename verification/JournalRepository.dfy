/**
  The journal repository: each public method is one SQLite transaction. It
  writes table by table, and on an error restores what it read at BEGIN.
 */
module JournalRepository {
  import opened Wrappers
  import opened Canonical
  import opened JournalModel
  import opened Sequences

  /** A transaction that failed left every table as it was. */
  ghost predicate Outcome(before: Db, planned: Result<Db>, after: Db) {
    after == if planned.Success? then planned.value else before
  }

  ghost function Answer<T>(planned: Result<Db>, value: T): Result<T> {
    if planned.Success? then Success(value) else Failure(planned.error)
  }

  class Repository {
    var checkpoints: map<ProfileId, Checkpoint>
    var windows: map<WindowId, StoredWindow>
    var versions: seq<Version>
    var members: map<Slot, EventId>
    var outbox: Outbox
    var sequences: map<ProfileId, int>

    function State(): Db
      reads this
    {
      Db(checkpoints, windows, versions, members, outbox, sequences)
    }

    ghost predicate Valid()
      reads this
    {
      Decodable(outbox)
    }

    constructor ()
      ensures Valid() && State() == EMPTY
    {
      checkpoints, windows, versions := map[], map[], [];
      members, outbox, sequences := map[], map[], map[];
    }

    method Rollback(saved: Db)
      modifies this
      ensures State() == saved
    {
      checkpoints, windows, versions := saved.checkpoints, saved.windows, saved.versions;
      members, outbox, sequences := saved.members, saved.outbox, saved.sequences;
    }

    /** Allocates one durable live sequence number for the profile. */
    method Reserve(profileId: ProfileId, epochId: string) returns (r: Result<int>)
      modifies this`sequences
      ensures profileId == "" || epochId == "" ==> r == Failure(ValueError) && sequences == old(sequences)
      ensures profileId != "" && epochId != "" ==>
                && r == Success(NextSequence(old(sequences), profileId))
                && sequences == old(sequences)[profileId := r.value + 1]
    {
      if profileId == "" || epochId == "" {
        return Failure(ValueError);
      }
      var next := if profileId in sequences then sequences[profileId] + 1 else 2;
      sequences := sequences[profileId := next];
      r := Success(next - 1);
    }

    method MessagesBelong(w: Window, messages: seq<Message>) returns (ok: bool)
      ensures ok <==>
              && (forall m | m in messages ::
                    m.windowId == w.id && m.profileId == w.profileId && m.envelope.Decoded?)
              && UniqueEventIds(messages)
    {
      var seen: set<EventId> := {};
      for i := 0 to |messages|
        invariant seen == set j | 0 <= j < i :: messages[j].eventId
        invariant forall j | 0 <= j < i ::
            messages[j].windowId == w.id && messages[j].profileId == w.profileId && messages[j].envelope.Decoded?
        invariant forall j, k | 0 <= j < k < i :: messages[j].eventId != messages[k].eventId
      {
        var m := messages[i];
        if m.windowId != w.id || m.profileId != w.profileId || m.envelope.Undecodable? || m.eventId in seen {
          return false;
        }
        seen := seen + {m.eventId};
      }
      ok := true;
    }

    method HasOneMarker(w: Window, messages: seq<Message>) returns (ok: bool)
      ensures ok <==> OneMarker(w, messages)
    {
      var marker: Option<nat> := None;
      for i := 0 to |messages|
        invariant marker.None? ==> forall j | 0 <= j < i :: !IsMarker(messages[j].envelope)
        invariant marker.Some? ==>
            && marker.value < i && IsMarker(messages[marker.value].envelope)
            && forall j | 0 <= j < i && j != marker.value :: !IsMarker(messages[j].envelope)
      {
        if IsMarker(messages[i].envelope) {
          if marker.Some? {
            return false;
          }
          marker := Some(i);
        }
      }
      ok := marker.Some? && messages[marker.value].payloadDigest == w.windowDigest;
    }

    method MessagesBacked(records: seq<Record>, messages: seq<Message>) returns (ok: bool)
      ensures ok <==> forall m {:trigger Backed(records, m)} | m in messages :: Backed(records, m)
    {
      var ids := set r | r in records :: r.eventId;
      for i := 0 to |messages|
        invariant forall j | 0 <= j < i && messages[j].envelope.Decoded?
                             && IsRecordType(messages[j].envelope.messageType) :: messages[j].eventId in ids
      {
        var m := messages[i];
        if m.envelope.Decoded? && IsRecordType(m.envelope.messageType) && m.eventId !in ids {
          assert !Backed(records, m);
          return false;
        }
      }
      ok := true;
    }

    method RecordCovered(w: Window, r: Record, messages: seq<Message>) returns (ok: bool)
      requires UniqueEventIds(messages)
      ensures ok <==> CoveredRecord(outbox, w, r, messages)
    {
      for i := 0 to |messages|
        invariant forall j | 0 <= j < i :: messages[j].eventId != r.eventId
      {
        var m := messages[i];
        if m.eventId == r.eventId {
          assert Announced(r, messages);
          return m.envelope.Decoded? && m.envelope.messageType == TypeOf(r.resource);
        }
      }
      assert !Announced(r, messages);
      ok := && r.eventId in outbox
            && outbox[r.eventId].profileId == w.profileId
            && outbox[r.eventId].envelope.Decoded?
            && outbox[r.eventId].envelope.messageType == TypeOf(r.resource);
    }

    /** Validates the messages of a window against its records and the stored outbox. */
    method ValidateOutboxCoverage(w: Window, records: seq<Record>, messages: seq<Message>) returns (ok: bool)
      ensures ok <==> OutboxCovers(outbox, w, records, messages)
    {
      var belong := MessagesBelong(w, messages);
      if !belong {
        return false;
      }
      var marked := HasOneMarker(w, messages);
      var backed := MessagesBacked(records, messages);
      if !marked || !backed {
        return false;
      }
      var deals, orders := 0, 0;
      for i := 0 to |records|
        invariant forall j | 0 <= j < i :: CoveredRecord(outbox, w, records[j], messages)
        invariant deals == CountOf(records[..i], Deal) && orders == CountOf(records[..i], Order)
      {
        assert records[..i + 1][..i] == records[..i];
        if records[i].resource == Deal {
          deals := deals + 1;
        } else {
          orders := orders + 1;
        }
        var covered := RecordCovered(w, records[i], messages);
        if !covered {
          return false;
        }
      }
      assert records[..|records|] == records;
      ok := deals == w.dealCount && orders == w.orderCount;
    }

    /** Inserts a PENDING row, or keeps the identical row that is already there. */
    method InsertOrReuseOutbox(m: Message, now: Utc) returns (ok: bool)
      modifies this`outbox
      ensures ok <==> !(m.eventId in old(outbox) && !SameMessage(old(outbox)[m.eventId], m))
      ensures outbox == if m.eventId in old(outbox) then old(outbox)
                        else old(outbox)[m.eventId := NewRow(m, now)]
    {
      if m.eventId in outbox {
        return SameMessage(outbox[m.eventId], m);
      }
      outbox := outbox[m.eventId := NewRow(m, now)];
      ok := true;
    }

    method InsertOutbox(messages: seq<Message>, now: Utc) returns (ok: bool)
      requires UniqueEventIds(messages)
      modifies this`outbox
      ensures ok <==> !Conflicting(old(outbox), messages)
      ensures ok ==> outbox == Enqueue(old(outbox), messages, now)
    {
      for i := 0 to |messages|
        invariant forall k | 0 <= k < i ::
            !(messages[k].eventId in old(outbox) && !SameMessage(old(outbox)[messages[k].eventId], messages[k]))
        invariant outbox == Enqueue(old(outbox), messages[..i], now)
      {
        assert messages[..i + 1][..i] == messages[..i];
        NotYetEnqueued(old(outbox), messages, now, i);
        ok := InsertOrReuseOutbox(messages[i], now);
        if !ok {
          assert Conflicting(old(outbox), messages);
          return;
        }
      }
      assert messages[..|messages|] == messages;
      ok := true;
    }

    method LinkRecords(w: Window, records: seq<Record>) returns (ok: bool)
      modifies this`versions, this`members
      ensures ok <==> AddRecords(Ledger(old(versions), old(members)), w, records).Success?
      ensures ok ==> AddRecords(Ledger(old(versions), old(members)), w, records)
                     == Success(Ledger(versions, members))
    {
      var deals, orders := 0, 0;
      for i := 0 to |records|
        invariant deals == CountOf(records[..i], Deal) && orders == CountOf(records[..i], Order)
        invariant AddRecords(Ledger(old(versions), old(members)), w, records[..i])
                  == Success(Ledger(versions, members))
      {
        assert records[..i + 1][..i] == records[..i];
        var r := records[i];
        var ordinal := if r.resource == Deal then deals else orders;
        var slot := Slot(w.id, r.resource, ordinal);
        var found := LatestVersion(versions, w.profileId, r, true);
        var id := if found.Some? then found.value else r.eventId;
        if (found.None? && HasVersion(versions, r.eventId)) || slot in members || HasMember(members, w.id, id) {
          AddRecordsFailsEarly(Ledger(old(versions), old(members)), w, records, i + 1);
          return false;
        }
        if found.None? {
          var correction := LatestVersion(versions, w.profileId, r, false);
          versions := versions + [Version(w.profileId, r, correction)];
        }
        members := members[slot := id];
        if r.resource == Deal {
          deals := deals + 1;
        } else {
          orders := orders + 1;
        }
      }
      assert records[..|records|] == records;
      ok := true;
    }

    /** The checks of the commit transaction, in the order it makes them. */
    method Refusal(
      expected: Checkpoint, w: Window, records: seq<Record>, messages: seq<Message>, mode: CommitMode
    ) returns (error: Option<Error>)
      ensures error == Admit(State(), expected, w, records, messages, mode)
    {
      if !Plausible(expected, w, mode) {
        return Some(ValueError);
      }
      var covered := ValidateOutboxCoverage(w, records, messages);
      if !covered {
        return Some(ValueError);
      }
      if mode.Forward? {
        var actual := CheckpointOf(State(), w.profileId);
        if (actual.None? && !mode.allowInitial) || !Matches(actual, expected, mode.lowerBound) {
          return Some(CheckpointConflict);
        }
      } else if mode.prior.None? || !PriorMatches(windows, mode.prior.value, w) {
        return Some(ValueError);
      }
      error := if Insertable(windows, w) then None else Some(IntegrityError);
    }

    /** The writes of an admitted commit, undone when a constraint fails. */
    method WriteWindow(
      expected: Checkpoint, w: Window, records: seq<Record>, messages: seq<Message>, mode: CommitMode
    ) returns (r: Result<Checkpoint>)
      requires UniqueEventIds(messages)
      requires mode.Reconcile? ==> mode.prior.Some? && mode.prior.value in windows
      modifies this
      ensures Outcome(old(State()), Write(old(State()), expected, w, records, messages, mode), State())
      ensures r == Answer(Write(old(State()), expected, w, records, messages, mode),
                          if mode.Forward? then Advanced(expected, w) else expected)
    {
      var saved := State();
      windows := windows[w.id := StoredWindow(w, COMMITTED)];
      if mode.Reconcile? {
        windows := windows[mode.prior.value := windows[mode.prior.value].(state := SUPERSEDED)];
      }
      var linked := LinkRecords(w, records);
      if !linked {
        Rollback(saved);
        return Failure(IntegrityError);
      }
      var inserted := InsertOutbox(messages, w.committedAt);
      if !inserted {
        Rollback(saved);
        return Failure(ValueError);
      }
      var next := expected;
      if mode.Forward? {
        next := Advanced(expected, w);
        checkpoints := checkpoints[w.profileId := next];
      }
      r := Success(next);
    }

    /** The commit transaction behind both public commit methods. */
    method CommitTransaction(
      expected: Checkpoint, w: Window, records: seq<Record>, messages: seq<Message>, mode: CommitMode
    ) returns (r: Result<Checkpoint>)
      requires Valid()
      modifies this
      ensures Valid()
      ensures Outcome(old(State()), Commit(old(State()), expected, w, records, messages, mode), State())
      ensures r == Answer(Commit(old(State()), expected, w, records, messages, mode),
                          if mode.Forward? then Advanced(expected, w) else expected)
    {
      var refusal := Refusal(expected, w, records, messages, mode);
      if refusal.Some? {
        return Failure(refusal.value);
      }
      CommitDecodable(State(), expected, w, records, messages, mode);
      r := WriteWindow(expected, w, records, messages, mode);
    }

    /** commit_window with precomputed input, which may create the first checkpoint. */
    method CommitWindow(
      expected: Checkpoint, lowerBound: int, w: Window, records: seq<Record>, messages: seq<Message>
    ) returns (r: Result<Checkpoint>)
      requires Valid()
      modifies this
      ensures Valid()
      ensures Outcome(old(State()), Commit(old(State()), expected, w, records, messages, Forward(lowerBound, true)), State())
      ensures r == Answer(Commit(old(State()), expected, w, records, messages, Forward(lowerBound, true)),
                          Advanced(expected, w))
    {
      r := CommitTransaction(expected, w, records, messages, Forward(lowerBound, true));
    }

    method CommitReconciliation(
      expected: Checkpoint, w: Window, records: seq<Record>, messages: seq<Message>, prior: Option<WindowId>
    ) returns (r: Result<()>)
      requires Valid()
      modifies this
      ensures Valid()
      ensures Outcome(old(State()), Commit(old(State()), expected, w, records, messages, Reconcile(prior)), State())
      ensures r == Answer(Commit(old(State()), expected, w, records, messages, Reconcile(prior)), ())
    {
      if prior.None? {
        return Failure(ValueError);
      }
      var c := CommitTransaction(expected, w, records, messages, Reconcile(prior));
      r := if c.Success? then Success(()) else Failure(c.error);
    }

    /**
      Raises an obsolete empty-history checkpoint to the required lower bound, unless
      the checkpoint has changed since it was seen.
     */
    method RecoverHistoryLowerBound(
      profileId: ProfileId, bound: int, seen: Option<Checkpoint>, hasPath: bool, now: Utc) returns (r: Result<bool>)
      requires Valid()
      modifies this`checkpoints
      ensures Valid()
      ensures match RecoverSeen(old(State()), profileId, bound, seen, hasPath, now)
              case Failure(error) => r == Failure(error) && State() == old(State())
              case Success(db) => State() == db && r == Success(checkpoints != old(checkpoints))
    {
      if seen.None? || bound <= seen.value.next {
        return Success(false);
      }
      if !hasPath {
        return Failure(RuntimeError);
      }
      var c := CheckpointOf(State(), profileId);
      if c != seen {
        return Failure(CheckpointConflict);
      }
      var before := set id | id in windows && windows[id].window.profileId == profileId
                             && windows[id].window.startRaw < bound;
      while before != {}
        invariant before <= windows.Keys
        invariant forall id | PreBound(State(), profileId, bound, id) && id !in before ::
            var w := windows[id].window;
            w.endRaw <= bound && w.dealCount == 0 && w.orderCount == 0
        invariant forall id | id in before :: PreBound(State(), profileId, bound, id)
        decreases before
      {
        var id :| id in before;
        var w := windows[id].window;
        if bound < w.endRaw || w.dealCount != 0 || w.orderCount != 0 {
          return Failure(RuntimeError);
        }
        before := before - {id};
      }
      if exists e | e in outbox ::
          outbox[e].profileId == profileId && outbox[e].state != PUBLISHED
          && IsRecordType(outbox[e].envelope.messageType) {
        return Failure(RuntimeError);
      }
      checkpoints := checkpoints[profileId :=
        c.value.(next := bound, lastWindow := None, updatedAt := now)];
      assert checkpoints[profileId] != old(checkpoints)[profileId];
      r := Success(true);
    }

    method ClaimCandidates(
      candidates: seq<EventId>, owner: string, limit: nat, expires: Utc, ghost planned: seq<EventId>
    ) returns (claimed: seq<Claimed>)
      requires Distinct(candidates)
      requires forall x | x in candidates :: x in outbox && outbox[x].state != PUBLISHED
      requires planned == Take(Unblocked(outbox, candidates), limit)
      modifies this`outbox
      ensures outbox == Claim(old(outbox), planned, owner, expires)
      ensures claimed == ClaimedMessages(outbox, planned)
    {
      ghost var before := outbox;
      claimed := [];
      ghost var ids: seq<EventId> := [];
      var i := 0;
      while i < |candidates| && |claimed| < limit
        invariant i <= |candidates| && |ids| == |claimed| <= limit
        invariant ids == Unblocked(before, candidates[..i])
        invariant outbox == Claim(before, ids, owner, expires)
        invariant claimed == ClaimedMessages(outbox, ids)
      {
        var e := candidates[i];
        ClaimStep(before, candidates, i, owner, expires);
        i := i + 1;
        if Blocked(outbox, e) {
          continue;
        }
        ids := ids + [e];
        outbox := outbox[e := ClaimRow(outbox[e], owner, expires)];
        claimed := claimed + [ClaimedMessage(outbox, e)];
      }
      UnblockedPrefix(before, candidates, i);
      assert candidates[..|candidates|] == candidates;
      assert ids == planned;
    }

    /** Claims due messages in order, passing over markers with unpublished siblings. */
    method ClaimOutbox(owner: string, limit: int, now: Utc, leaseSeconds: int) returns (r: Result<seq<Claimed>>)
      requires Valid()
      modifies this`outbox
      ensures Valid()
      ensures match ClaimTransaction(old(outbox), owner, limit, now, leaseSeconds)
              case Success(after) => r == Success(after.1) && outbox == after.0
              case Failure(error) => r == Failure(error) && outbox == old(outbox)
    {
      if limit <= 0 || leaseSeconds <= 0 {
        return Failure(ValueError);
      }
      var candidates := Candidates(outbox, limit, now);
      CandidatesDistinct(outbox, limit, now);
      var claimed := ClaimCandidates(
        candidates, owner, limit, now + 1000 * leaseSeconds, ClaimedIds(outbox, limit, now));
      r := Success(claimed);
    }

    method AckOutbox(e: EventId, entryId: nat, now: Utc) returns (r: Result<()>)
      requires Valid()
      modifies this`outbox
      ensures Valid()
      ensures match Ack(old(outbox), e, entryId, now)
              case Success(after) => r == Success(()) && outbox == after
              case Failure(error) => r == Failure(error) && outbox == old(outbox)
    {
      if e !in outbox || outbox[e].state != INFLIGHT {
        return Failure(OutboxStateConflict);
      }
      outbox := outbox[e := outbox[e].(state := PUBLISHED, publishedAt := now, entryId := entryId)];
      r := Success(());
    }

    method FailOutbox(e: EventId, error: string, retryable: bool, now: Utc, delay: nat, maxAttempts: int)
      returns (r: Result<FailOutcome>)
      requires Valid()
      modifies this`outbox
      ensures Valid()
      ensures match Fail(old(outbox), e, error, retryable, now, delay, maxAttempts)
              case Success(after) => r == Success(after.1) && outbox == after.0
              case Failure(error) => r == Failure(error) && outbox == old(outbox)
    {
      if maxAttempts <= 0 {
        return Failure(ValueError);
      }
      if e !in outbox || outbox[e].state != INFLIGHT {
        return Failure(OutboxStateConflict);
      }
      var row := outbox[e].(failures := outbox[e].failures + 1, lastError := error);
      if retryable && row.failures < maxAttempts {
        outbox := outbox[e := row.(state := PENDING, nextAttemptAt := now + delay)];
        r := Success(REQUEUED);
      } else {
        outbox := outbox[e := row.(state := QUARANTINED, quarantinedAt := Some(now))];
        r := Success(QUARANTINED_NOW);
      }
    }

    method RequeueOutbox(e: EventId, now: Utc) returns (r: Result<()>)
      requires Valid()
      modifies this`outbox
      ensures Valid()
      ensures match Requeue(old(outbox), e, now)
              case Success(after) => r == Success(()) && outbox == after
              case Failure(error) => r == Failure(error) && outbox == old(outbox)
    {
      if e !in outbox || outbox[e].state != QUARANTINED {
        return Failure(LookupError);
      }
      outbox := outbox[e := outbox[e].(state := PENDING, nextAttemptAt := now, quarantinedAt := None)];
      r := Success(());
    }

    method CleanupPublishedOutbox(cutoff: Utc) returns (deleted: nat)
      requires Valid()
      modifies this`outbox
      ensures Valid()
      ensures outbox == Cleanup(old(outbox), cutoff)
      ensures deleted == |old(outbox)| - |outbox|
    {
      var gone := set e | e in outbox && outbox[e].state == PUBLISHED && outbox[e].publishedAt < cutoff;
      var kept := outbox - gone;
      assert kept.Keys == outbox.Keys - gone;
      deleted := |outbox| - |kept|;
      outbox := kept;
    }
  }

  lemma {:induction false} NotYetEnqueued(stored: Outbox, messages: seq<Message>, now: Utc, i: nat)
    requires i < |messages| && UniqueEventIds(messages)
    ensures var before, e := Enqueue(stored, messages[..i], now), messages[i].eventId;
            && (e in before <==> e in stored)
            && (e in stored ==> before[e] == stored[e])
  {
    EnqueueKeepsAndAdds(stored, messages[..i], now);
  }

  lemma {:induction false} CommitDecodable(
    db: Db, expected: Checkpoint, w: Window, records: seq<Record>, messages: seq<Message>, mode: CommitMode)
    requires Decodable(db.outbox)
    requires Admit(db, expected, w, records, messages, mode) == None
    ensures UniqueEventIds(messages)
    ensures Decodable(Enqueue(db.outbox, messages, w.committedAt))
  {
    var after := Enqueue(db.outbox, messages, w.committedAt);
    EnqueueKeepsAndAdds(db.outbox, messages, w.committedAt);
    forall e | e in after ensures after[e].envelope.Decoded? {
      if e !in db.outbox {
        var k :| 0 <= k < |messages| && messages[k].eventId == e;
        assert messages[k] in messages;
      }
    }
  }

  lemma {:induction false} AddRecordsFailsEarly(ledger: Ledger, w: Window, records: seq<Record>, n: nat)
    requires n <= |records| && AddRecords(ledger, w, records[..n]).Failure?
    ensures AddRecords(ledger, w, records) == AddRecords(ledger, w, records[..n])
    decreases |records|
  {
    if n == |records| {
      assert records[..n] == records;
    } else {
      var k := |records| - 1;
      assert records[..k][..n] == records[..n];
      AddRecordsFailsEarly(ledger, w, records[..k], n);
    }
  }

  /** One step of the claim loop over distinct candidates. */
  lemma {:induction false} ClaimStep(outbox: Outbox, candidates: seq<EventId>, i: nat, owner: string, expires: Utc)
    requires i < |candidates| && Distinct(candidates)
    requires forall x | x in candidates :: x in outbox && outbox[x].state != PUBLISHED
    ensures var e, ids := candidates[i], Unblocked(outbox, candidates[..i]);
            var after := Claim(outbox, ids, owner, expires);
            var next := after[e := ClaimRow(after[e], owner, expires)];
            && (Blocked(after, e) <==> Blocked(outbox, e))
            && Unblocked(outbox, candidates[..i + 1]) == (if Blocked(outbox, e) then ids else ids + [e])
            && next == Claim(outbox, ids + [e], owner, expires)
            && ClaimedMessages(next, ids + [e]) == ClaimedMessages(after, ids) + [ClaimedMessage(next, e)]
  {
    var e, ids := candidates[i], Unblocked(outbox, candidates[..i]);
    assert candidates[..i + 1][..i] == candidates[..i];
    assert e !in candidates[..i];
    BlockedUnchanged(outbox, ids, owner, expires, e);
    ClaimOneMore(outbox, ids, owner, expires, e);
  }

  lemma ClaimOneMore(outbox: Outbox, ids: seq<EventId>, owner: string, expires: Utc, e: EventId)
    requires e in outbox && e !in ids
    requires forall x | x in ids :: x in outbox
    ensures var after := Claim(outbox, ids, owner, expires);
            var next := after[e := ClaimRow(after[e], owner, expires)];
            && next == Claim(outbox, ids + [e], owner, expires)
            && ClaimedMessages(next, ids + [e]) == ClaimedMessages(after, ids) + [ClaimedMessage(next, e)]
  {
    var after, next := Claim(outbox, ids, owner, expires), Claim(outbox, ids + [e], owner, expires);
    forall x | x in outbox ensures x in ids + [e] <==> x in ids || x == e {
    }
    assert next == after[e := ClaimRow(after[e], owner, expires)];
    forall k | 0 <= k < |ids|
      ensures ClaimedMessage(next, ids[k]) == ClaimedMessage(after, ids[k])
    {
      assert ids[k] in ids;
    }
  }

  lemma BlockedUnchanged(outbox: Outbox, ids: seq<EventId>, owner: string, expires: Utc, e: EventId)
    requires e in outbox
    requires forall x | x in ids :: x in outbox && outbox[x].state != PUBLISHED
    ensures Blocked(Claim(outbox, ids, owner, expires), e) <==> Blocked(outbox, e)
  {
    var after := Claim(outbox, ids, owner, expires);
    forall x | x in outbox
      ensures (after[x].state != PUBLISHED <==> outbox[x].state != PUBLISHED)
              && after[x].windowId == outbox[x].windowId
    {
    }
  }

  lemma {:induction false} InOrderDistinct(outbox: Outbox, ids: set<EventId>)
    requires ids <= outbox.Keys
    ensures Distinct(InOrder(outbox, ids))
    decreases ids
  {
    if ids != {} {
      var m := Earliest(outbox, ids);
      InOrderDistinct(outbox, ids - {m});
      var s, rest := InOrder(outbox, ids), InOrder(outbox, ids - {m});
      forall i, j | 0 <= i < j < |s|
        ensures s[i] != s[j]
      {
        assert s[j] == rest[j - 1] && rest[j - 1] in rest;
      }
    }
  }

  lemma CandidatesDistinct(outbox: Outbox, limit: nat, now: Utc)
    ensures Distinct(Candidates(outbox, limit, now))
    ensures forall e | e in Candidates(outbox, limit, now) :: outbox[e].state != PUBLISHED
  {
    InOrderDistinct(outbox, Due(outbox, now));
    var s, all := Candidates(outbox, limit, now), InOrder(outbox, Due(outbox, now));
    forall e | e in s ensures outbox[e].state != PUBLISHED {
      assert e in all;
    }
  }

  lemma {:induction false} UnblockedPrefix(outbox: Outbox, ids: seq<EventId>, n: nat)
    requires n <= |ids| && forall e | e in ids :: e in outbox
    ensures Unblocked(outbox, ids[..n]) <= Unblocked(outbox, ids)
    decreases |ids|
  {
    if n == |ids| {
      assert ids[..n] == ids;
    } else {
      var k := |ids| - 1;
      assert ids[..k][..n] == ids[..n];
      UnblockedPrefix(outbox, ids[..k], n);
    }
  }
}
