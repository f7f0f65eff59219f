/**
  A run of the pipeline that ends in starvation: for every claim limit, as many
  windows with a quarantined record as a claim looks at candidates hide a ready record.
 */
module Starvation {
  import opened Wrappers
  import opened Sequences
  import opened Canonical
  import opened JournalModel
  import opened RedisTransport
  import opened Pipeline
  import opened ClaimOrder

  datatype Names = Names(profileId: ProfileId, streamKey: string, owner: string, producer: string)

  // ---------------------------------------------------------------------
  // Windows of one deal
  // ---------------------------------------------------------------------

  /** The k-th window covers raw time k and holds one deal. */
  function Win(x: Names, k: nat): Window {
    Window(k, x.profileId, 1, 1, k, k + 1, 1, 1, 0, 0, 0, 0, 0)
  }

  function DealId(k: nat): EventId {
    2 * k + 1
  }

  function MarkerId(k: nat): EventId {
    2 * k
  }

  function DealOf(x: Names, k: nat): Record {
    Record(Deal, NaturalId(x.profileId, 0, "", k), DealId(k), map[], 0)
  }

  function DealMessage(x: Names, k: nat): Message {
    Message(DealId(k), k, x.profileId, x.streamKey, Decoded(HistoryDeal, 0), 0)
  }

  function MarkerMessage(x: Names, k: nat): Message {
    Message(MarkerId(k), k, x.profileId, x.streamKey, Decoded(HistoryWindow, 0), 0)
  }

  function Messages(x: Names, k: nat): seq<Message> {
    [DealMessage(x, k), MarkerMessage(x, k)]
  }

  function CheckpointAt(x: Names, n: nat): Checkpoint {
    Checkpoint(x.profileId, 1, n, if n == 0 then None else Some(n - 1), 1, 0)
  }

  // ---------------------------------------------------------------------
  // Stuck journals
  // ---------------------------------------------------------------------

  /** A deal whose one delivery was found invalid. */
  function QuarantinedRow(x: Names, k: nat): Row {
    NewRow(DealMessage(x, k), 0).(
      state := QUARANTINED, attempts := 1, claimedBy := Some(x.owner), claimExpiresAt := 1001, failures := 1,
      quarantinedAt := Some(1), lastError := "ValueError")
  }

  /** n windows, each with a quarantined deal and a marker that waits for it. */
  function StuckRows(x: Names, n: nat): Outbox {
    map e: EventId | 0 <= e < 2 * n ::
      if e % 2 == 0 then NewRow(MarkerMessage(x, e / 2), 0) else QuarantinedRow(x, e / 2)
  }

  /** One more window, just committed. */
  function NewWindow(x: Names, n: nat): Outbox {
    StuckRows(x, n)[DealId(n) := NewRow(DealMessage(x, n), 0)][MarkerId(n) := NewRow(MarkerMessage(x, n), 0)]
  }

  ghost predicate Ledgered(x: Names, n: nat, db: Db) {
    && CheckpointOf(db, x.profileId) == (if n == 0 then None else Some(CheckpointAt(x, n)))
    && (forall w | w in db.windows :: w < n && db.windows[w].window == Win(x, w))
    && (forall i | 0 <= i < |db.versions| ::
          db.versions[i].record.naturalId.ticket < n && db.versions[i].record.eventId < 2 * n)
    && forall s | s in db.members :: s.windowId < n
  }

  ghost predicate Idle(s: Sys) {
    0 in s.workers && s.workers[0].queue == [] && s.workers[0].phase == Ready && !s.workers[0].leaseLost
  }

  ghost predicate Stuck(x: Names, n: nat, s: Sys) {
    Ledgered(x, n, s.db) && s.db.outbox == StuckRows(x, n) && Idle(s)
  }

  // ---------------------------------------------------------------------
  // The commit of one more window
  // ---------------------------------------------------------------------

  function CommitAction(x: Names, n: nat): Action {
    CommitWindow(CheckpointAt(x, n), Win(x, n), [DealOf(x, n)], Messages(x, n), Forward(0, true))
  }

  lemma Counted(x: Names, n: nat)
    ensures CountOf([DealOf(x, n)], Deal) == 1 && CountOf([DealOf(x, n)], Order) == 0
  {
    assert [DealOf(x, n)][..0] == [];
  }

  lemma Covered(x: Names, n: nat, stored: Outbox)
    ensures OutboxCovers(stored, Win(x, n), [DealOf(x, n)], Messages(x, n))
  {
    var messages, records := Messages(x, n), [DealOf(x, n)];
    Counted(x, n);
    assert messages[0] == DealMessage(x, n) && messages[1] == MarkerMessage(x, n) && |messages| == 2;
    assert messages[0] in messages && records[0] in records;
    assert IsMarker(messages[1].envelope) && !IsMarker(messages[0].envelope);
    assert OneMarker(Win(x, n), messages);
    forall m | m in messages ensures Backed(records, m) {
      assert m == messages[0] || m == messages[1];
    }
    forall r | r in records ensures CoveredRecord(stored, Win(x, n), r, messages) {
      assert r == DealOf(x, n);
      assert Announced(r, messages);
    }
  }

  lemma {:induction false} NoVersion(x: Names, n: nat, versions: seq<Version>, exact: bool)
    requires forall i | 0 <= i < |versions| :: versions[i].record.naturalId.ticket < n
    ensures LatestVersion(versions, x.profileId, DealOf(x, n), exact) == None
  {
    if versions != [] {
      NoVersion(x, n, versions[..|versions| - 1], exact);
    }
  }

  lemma {:induction false} Linked(x: Names, n: nat, db: Db) returns (ledger: Ledger)
    requires Ledgered(x, n, db)
    ensures AddRecords(Ledger(db.versions, db.members), Win(x, n), [DealOf(x, n)]) == Success(ledger)
    ensures ledger.versions == db.versions + [Version(x.profileId, DealOf(x, n), None)]
    ensures ledger.members == db.members[Slot(n, Deal, 0) := DealId(n)]
  {
    var before, w, records := Ledger(db.versions, db.members), Win(x, n), [DealOf(x, n)];
    NoVersion(x, n, db.versions, true);
    NoVersion(x, n, db.versions, false);
    assert records[..0] == [];
    assert AddRecords(before, w, records[..0]) == Success(before);
    assert AddRecords(before, w, records) == AddRecord(before, w, DealOf(x, n), 0);
    ledger := AddRecord(before, w, DealOf(x, n), 0).value;
  }

  lemma {:induction false} Enqueued(x: Names, n: nat)
    ensures Enqueue(StuckRows(x, n), Messages(x, n), 0) == NewWindow(x, n)
    ensures !Conflicting(StuckRows(x, n), Messages(x, n))
  {
    var messages := Messages(x, n);
    assert messages[..1] == [DealMessage(x, n)] && messages[..1][..0] == [];
    assert Enqueue(StuckRows(x, n), messages[..1][..0], 0) == StuckRows(x, n);
    assert Enqueue(StuckRows(x, n), messages[..1], 0) == StuckRows(x, n)[DealId(n) := NewRow(DealMessage(x, n), 0)];
  }

  lemma Admitted(x: Names, n: nat, db: Db)
    requires Ledgered(x, n, db)
    ensures Admit(db, CheckpointAt(x, n), Win(x, n), [DealOf(x, n)], Messages(x, n), Forward(0, true)) == None
  {
    Covered(x, n, db.outbox);
  }

  lemma CommitWrites(x: Names, n: nat, m: nat, db: Db) returns (after: Db)
    requires Ledgered(x, n, db) && db.outbox == StuckRows(x, n) && m == n + 1
    ensures Commit(db, CheckpointAt(x, n), Win(x, n), [DealOf(x, n)], Messages(x, n), Forward(0, true)) == Success(after)
    ensures Ledgered(x, m, after) && after.outbox == NewWindow(x, n)
  {
    Admitted(x, n, db);
    Enqueued(x, n);
    var ledger := Linked(x, n, db);
    after := Write(db, CheckpointAt(x, n), Win(x, n), [DealOf(x, n)], Messages(x, n), Forward(0, true)).value;
  }

  lemma CommitAdds(x: Names, n: nat, m: nat, s: Sys)
    requires Stuck(x, n, s) && m == n + 1
    ensures var t := Step(s, CommitAction(x, n));
            Ledgered(x, m, t.db) && t.db.outbox == NewWindow(x, n) && t.workers == s.workers
  {
    var after := CommitWrites(x, n, m, s.db);
  }

  // ---------------------------------------------------------------------
  // The deal is claimed alone and quarantined
  // ---------------------------------------------------------------------

  function MarkerIds(n: nat): (s: set<EventId>)
    ensures forall e :: e in s <==> 0 <= e < 2 * n && e % 2 == 0
  {
    set e: EventId | 0 <= e < 2 * n && e % 2 == 0
  }

  lemma {:induction false} MarkerCount(n: nat)
    ensures |MarkerIds(n)| == n
  {
    if n > 0 {
      MarkerCount(n - 1);
      assert MarkerIds(n) == MarkerIds(n - 1) + {2 * n - 2};
    }
  }

  lemma DealBlocks(x: Names, n: nat, e: EventId)
    requires e in NewWindow(x, n)
    ensures Blocked(NewWindow(x, n), e) <==> e % 2 == 0
  {
    var rows := NewWindow(x, n);
    if e % 2 == 0 {
      assert e + 1 in rows && rows[e + 1].windowId == rows[e].windowId && rows[e + 1].state != PUBLISHED;
    }
  }

  lemma DueRows(x: Names, n: nat, m: nat)
    requires m == n + 1
    ensures Due(NewWindow(x, n), 1) == MarkerIds(m) + {DealId(n)}
    ensures ClaimOrder.Ready(NewWindow(x, n), 1) == {DealId(n)}
  {
    var rows := NewWindow(x, n);
    forall e ensures e in Due(rows, 1) <==> e in MarkerIds(m) + {DealId(n)} {
      if e in rows && e != DealId(n) && e != MarkerId(n) {
        assert rows[e] == StuckRows(x, n)[e];
      }
    }
    forall e ensures e in ClaimOrder.Ready(rows, 1) <==> e == DealId(n) {
      if e in rows {
        DealBlocks(x, n, e);
      }
    }
  }

  lemma {:induction false} OneInOrder(outbox: Outbox, e: EventId)
    requires e in outbox
    ensures InOrder(outbox, {e}) == [e]
  {
    var s := InOrder(outbox, {e});
    assert |{e}| == 1;
    assert s[0] in s;
  }

  /** A claim with enough candidates takes the one ready deal. */
  lemma {:induction false} DealClaimed(x: Names, n: nat, limit: nat)
    requires n < limit
    ensures ClaimedIds(NewWindow(x, n), limit, 1) == [DealId(n)]
  {
    var rows, m := NewWindow(x, n), n + 1;
    DueRows(x, n, m);
    MarkerCount(m);
    assert Due(rows, 1) - ClaimOrder.Ready(rows, 1) == MarkerIds(m);
    ClaimComplete(rows, limit, 1);
    OneInOrder(rows, DealId(n));
  }

  function ClaimedDeal(x: Names, n: nat): Row {
    ClaimRow(NewRow(DealMessage(x, n), 0), x.owner, 1001)
  }

  function ClaimedWindow(x: Names, n: nat): Outbox {
    NewWindow(x, n)[DealId(n) := ClaimedDeal(x, n)]
  }

  ghost predicate WithRows(s: Sys, t: Sys, rows: Outbox) {
    t.db == s.db.(outbox := rows)
  }

  lemma DealHandedOut(x: Names, n: nat, limit: nat)
    requires n < limit
    ensures ClaimTransaction(NewWindow(x, n), x.owner, limit, 1, 1)
            == Success((ClaimedWindow(x, n), [ClaimedMessage(ClaimedWindow(x, n), DealId(n))]))
  {
    DealClaimed(x, n, limit);
    assert Claim(NewWindow(x, n), [DealId(n)], x.owner, 1001) == ClaimedWindow(x, n);
    assert ClaimedMessages(ClaimedWindow(x, n), [DealId(n)]) == [ClaimedMessage(ClaimedWindow(x, n), DealId(n))];
  }

  lemma ClaimTakes(x: Names, n: nat, limit: nat, s: Sys)
    requires s.db.outbox == NewWindow(x, n) && Idle(s) && n < limit
    ensures var t := Step(s, ClaimBatch(0, x.owner, limit, 1, 1));
            && WithRows(s, t, ClaimedWindow(x, n)) && 0 in t.workers && t.workers[0].phase == Ready && !t.workers[0].leaseLost
            && t.workers[0].queue == [ClaimedMessage(ClaimedWindow(x, n), DealId(n))]
  {
    DealHandedOut(x, n, limit);
  }

  lemma SendRefused(x: Names, n: nat, s: Sys)
    requires 0 in s.workers && s.workers[0].phase == Ready && !s.workers[0].leaseLost
    requires s.workers[0].queue == [ClaimedMessage(ClaimedWindow(x, n), DealId(n))]
    ensures var t := Step(s, Send(0, 1, Invalid));
            && t.db == s.db && 0 in t.workers && t.workers[0].queue == [] && !t.workers[0].leaseLost
            && t.workers[0].phase == Undelivered(DealId(n), "ValueError", false)
  {
    var m := s.workers[0].queue[0];
    assert m.envelope == Decoded(HistoryDeal, 0);
  }

  lemma StuckNext(x: Names, n: nat, m: nat, e: EventId)
    requires m == n + 1
    ensures e in StuckRows(x, m) <==> e in StuckRows(x, n) || e == DealId(n) || e == MarkerId(n)
    ensures e in StuckRows(x, n) ==> StuckRows(x, m)[e] == StuckRows(x, n)[e]
  {
  }

  lemma NewestStuck(x: Names, n: nat, m: nat)
    requires m == n + 1
    ensures StuckRows(x, m)[DealId(n)] == QuarantinedRow(x, n)
    ensures StuckRows(x, m)[MarkerId(n)] == NewRow(MarkerMessage(x, n), 0)
  {
    assert DealId(n) / 2 == n && DealId(n) % 2 == 1 && MarkerId(n) / 2 == n && MarkerId(n) % 2 == 0;
  }

  lemma DealQuarantined(x: Names, n: nat, m: nat)
    requires m == n + 1
    ensures ClaimedWindow(x, n)[DealId(n) := QuarantinedRow(x, n)] == StuckRows(x, m)
  {
    var after, stuck := ClaimedWindow(x, n)[DealId(n) := QuarantinedRow(x, n)], StuckRows(x, m);
    NewestStuck(x, n, m);
    forall e ensures (e in after <==> e in stuck) && (e in after ==> after[e] == stuck[e]) {
      StuckNext(x, n, m, e);
    }
  }

  lemma FailQuarantines(x: Names, n: nat)
    ensures Fail(ClaimedWindow(x, n), DealId(n), "ValueError", false, 1, 0, 1)
            == Success((ClaimedWindow(x, n)[DealId(n) := QuarantinedRow(x, n)], QUARANTINED_NOW))
  {
  }

  lemma SettleQuarantines(x: Names, n: nat, m: nat, s: Sys)
    requires m == n + 1 && s.db.outbox == ClaimedWindow(x, n)
    requires 0 in s.workers && s.workers[0].queue == [] && !s.workers[0].leaseLost
    requires s.workers[0].phase == Undelivered(DealId(n), "ValueError", false)
    ensures var t := Step(s, Settle(0, 1, 0, 1));
            WithRows(s, t, StuckRows(x, m)) && Idle(t)
  {
    FailQuarantines(x, n);
    DealQuarantined(x, n, m);
  }

  // ---------------------------------------------------------------------
  // The run
  // ---------------------------------------------------------------------

  /** Commit a window, claim its deal, find the delivery invalid, quarantine it; n times. */
  function StarvingRun(x: Names, n: nat, limit: nat): seq<Action> {
    if n == 0 then [Start(0, x.owner, x.producer, 1, 0, 0)]
    else
      StarvingRun(x, n - 1, limit)
      + [CommitAction(x, n - 1)] + [ClaimBatch(0, x.owner, limit, 1, 1)] + [Send(0, 1, Invalid)] + [Settle(0, 1, 0, 1)]
  }

  lemma {:induction false} RunMore(actions: seq<Action>, a: Action)
    ensures Run(actions + [a]) == Step(Run(actions), a)
  {
    assert (actions + [a])[..|actions|] == actions;
  }

  lemma StartedStuck(x: Names)
    requires x.owner != "" && x.producer != ""
    ensures Stuck(x, 0, Step(INITIAL, Start(0, x.owner, x.producer, 1, 0, 0)))
  {
  }

  /** The state after one cycle. */
  ghost function AfterCycle(x: Names, n: nat, limit: nat, s: Sys): Sys {
    var claimed := Step(Step(s, CommitAction(x, n)), ClaimBatch(0, x.owner, limit, 1, 1));
    Step(Step(claimed, Send(0, 1, Invalid)), Settle(0, 1, 0, 1))
  }

  lemma CycleStuck(x: Names, n: nat, m: nat, limit: nat, s: Sys)
    requires Stuck(x, n, s) && m == n + 1 && n < limit
    ensures Stuck(x, m, AfterCycle(x, n, limit, s))
  {
    CommitAdds(x, n, m, s);
    var t := Step(s, CommitAction(x, n));
    ClaimTakes(x, n, limit, t);
    var u := Step(t, ClaimBatch(0, x.owner, limit, 1, 1));
    SendRefused(x, n, u);
    SettleQuarantines(x, n, m, Step(u, Send(0, 1, Invalid)));
  }

  lemma {:induction false} RunFourMore(actions: seq<Action>, a: Action, b: Action, c: Action, d: Action)
    ensures Run(actions + [a] + [b] + [c] + [d]) == Step(Step(Step(Step(Run(actions), a), b), c), d)
  {
    RunMore(actions, a);
    RunMore(actions + [a], b);
    RunMore(actions + [a] + [b], c);
    RunMore(actions + [a] + [b] + [c], d);
  }

  lemma {:induction false} RunCycle(x: Names, k: nat, n: nat, limit: nat)
    requires n == k + 1
    ensures Run(StarvingRun(x, n, limit)) == AfterCycle(x, k, limit, Run(StarvingRun(x, k, limit)))
  {
    RunFourMore(StarvingRun(x, k, limit), CommitAction(x, k), ClaimBatch(0, x.owner, limit, 1, 1), Send(0, 1, Invalid),
                Settle(0, 1, 0, 1));
  }

  lemma {:induction false} RunStart(x: Names, limit: nat)
    requires x.owner != "" && x.producer != ""
    ensures Stuck(x, 0, Run(StarvingRun(x, 0, limit)))
  {
    var start := Start(0, x.owner, x.producer, 1, 0, 0);
    StartedStuck(x);
    assert Run([]) == INITIAL;
    RunMore([], start);
    assert [] + [start] == [start];
  }

  lemma {:induction false} RunStuck(x: Names, n: nat, limit: nat)
    requires x.owner != "" && x.producer != "" && n <= limit
    ensures Stuck(x, n, Run(StarvingRun(x, n, limit)))
  {
    if n == 0 {
      RunStart(x, limit);
    } else {
      var k := n - 1;
      RunStuck(x, k, limit);
      RunCycle(x, k, n, limit);
      CycleStuck(x, k, n, limit, Run(StarvingRun(x, k, limit)));
    }
  }

  // ---------------------------------------------------------------------
  // Starvation
  // ---------------------------------------------------------------------

  /** A row that comes before no other is the last one listed. */
  lemma LatestIsLast(outbox: Outbox, s: seq<EventId>, e: EventId, k: nat)
    requires (forall x | x in s :: x in outbox) && e in outbox
    requires Sorted(outbox, s) && Distinct(s) && k < |s| - 1
    requires forall x | x in s && x != e :: !Earlier(outbox, e, x)
    ensures s[k] != e
  {
    var last := s[|s| - 1];
    assert last in s && Earlier(outbox, s[k], last) && s[k] != last;
  }

  lemma DealLatest(x: Names, n: nat, e: EventId)
    requires e in NewWindow(x, n) && e != DealId(n)
    ensures NewWindow(x, n)[e].nextAttemptAt == 0 && !Earlier(NewWindow(x, n), DealId(n), e)
  {
  }

  lemma {:induction false} DueCount(x: Names, n: nat)
    ensures |InOrder(NewWindow(x, n), Due(NewWindow(x, n), 1))| == n + 2
  {
    var m := n + 1;
    DueRows(x, n, m);
    MarkerCount(m);
    assert DealId(n) !in MarkerIds(m);
  }

  /** The ready deal has the greatest id, so it is the last of the due rows. */
  lemma {:induction false} DealNotCandidate(x: Names, n: nat, limit: nat)
    requires n == CandidateLimit(limit)
    ensures DealId(n) !in Candidates(NewWindow(x, n), limit, 1)
  {
    var rows := NewWindow(x, n);
    var all := InOrder(rows, Due(rows, 1));
    DueCount(x, n);
    InOrderSorted(rows, Due(rows, 1));
    forall e | e in all && e != DealId(n) ensures !Earlier(rows, DealId(n), e) {
      DealLatest(x, n, e);
    }
    forall k | 0 <= k < n ensures all[k] != DealId(n) {
      LatestIsLast(rows, all, DealId(n), k);
    }
  }

  lemma OnlyMarkersConsidered(x: Names, n: nat, limit: nat)
    requires n == CandidateLimit(limit)
    ensures ClaimedIds(NewWindow(x, n), limit, 1) == []
  {
    var rows, m := NewWindow(x, n), n + 1;
    var candidates := Candidates(rows, limit, 1);
    DueRows(x, n, m);
    DealNotCandidate(x, n, limit);
    forall k | 0 <= k < |candidates| ensures Blocked(rows, candidates[k]) {
      assert candidates[k] in candidates && candidates[k] in InOrder(rows, Due(rows, 1));
      DealBlocks(x, n, candidates[k]);
    }
    AllBlocked(rows, candidates);
  }

  /**
    For every claim limit there is a run after which a deal is ready and no claim of that
    limit takes anything: as many windows with a quarantined deal as a claim considers
    candidates, then one more window.
   */
  lemma {:induction false} StarvationReached(x: Names, limit: nat) returns (actions: seq<Action>, ready: EventId)
    requires x.owner != "" && x.producer != "" && limit > 0
    ensures var s := Run(actions);
            && ready in ClaimOrder.Ready(s.db.outbox, 1)
            && Idle(s)
            && Run(actions + [ClaimBatch(0, x.owner, limit, 1, 1)]) == s
  {
    var n := CandidateLimit(limit);
    var before := StarvingRun(x, n, n);
    RunStuck(x, n, n);
    actions, ready := before + [CommitAction(x, n)], DealId(n);
    RunMore(before, CommitAction(x, n));
    CommitAdds(x, n, n + 1, Run(before));
    DueRows(x, n, n + 1);
    RunMore(actions, ClaimBatch(0, x.owner, limit, 1, 1));
    NothingHandedOut(x, n, limit);
    EmptyClaim(x.owner, limit, Run(actions));
  }

  lemma NothingHandedOut(x: Names, n: nat, limit: nat)
    requires n == CandidateLimit(limit) && limit > 0
    ensures ClaimTransaction(NewWindow(x, n), x.owner, limit, 1, 1) == Success((NewWindow(x, n), []))
  {
    OnlyMarkersConsidered(x, n, limit);
    assert Claim(NewWindow(x, n), [], x.owner, 1001) == NewWindow(x, n);
    assert ClaimedMessages(NewWindow(x, n), []) == [];
  }

  lemma EmptyClaim(owner: string, limit: nat, s: Sys)
    requires Idle(s) && ClaimTransaction(s.db.outbox, owner, limit, 1, 1) == Success((s.db.outbox, []))
    ensures Step(s, ClaimBatch(0, owner, limit, 1, 1)) == s
  {
    var k := s.workers[0];
    assert k.(queue := []) == k;
    assert s.workers[0 := k] == s.workers;
    assert s.db.(outbox := s.db.outbox) == s.db;
  }
}
