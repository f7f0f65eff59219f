/** What window planning and reconciliation promise. */
module HistoryLaws {
  import opened Wrappers
  import opened Canonical
  import opened JournalModel
  import opened Sorting
  import opened History
  import opened Sequences

  // ---------------------------------------------------------------------
  // Backfill progress
  // ---------------------------------------------------------------------

  function Current(session: Session, db: Db): Option<Checkpoint> {
    CheckpointOf(db, session.journalProfileId)
  }

  /** The raw time the next window starts to add coverage from. */
  function Frontier(session: Session, db: Db): int {
    match Current(session, db)
    case None => session.lowerBound
    case Some(c) => Max(c.next, session.lowerBound)
  }

  /** A plan covers the frontier without a gap and reaches past it by at least one net window. */
  lemma PlanReaches(session: Session, policy: Policy, db: Db, safeEnd: int, observed: Utc)
    requires policy.Valid()
    requires NextPlan(session, policy, db, Current(session, db), safeEnd, observed).Success?
    ensures var plan := NextPlan(session, policy, db, Current(session, db), safeEnd, observed).value;
            && plan.expected.next == Frontier(session, db)
            && session.lowerBound <= plan.startRaw <= plan.expected.next
            && plan.endRaw <= safeEnd
            && (safeEnd > plan.expected.next ==>
                  plan.endRaw >= plan.expected.next
                                 + Min(safeEnd - plan.expected.next, policy.maximumWindow - policy.overlap))
  {
  }

  /** The window committed last is stored and covered no deal and no order, or there is none yet. */
  predicate NothingSeen(db: Db, expected: Checkpoint) {
    expected.lastWindow == None
    || (GetWindow(db, expected.lastWindow.value).Some?
        && GetWindow(db, expected.lastWindow.value).value.dealCount == 0
        && GetWindow(db, expected.lastWindow.value).value.orderCount == 0)
  }

  /** A plan is wider than the maximum only over an empty region, and only as wide as the policy allows. */
  lemma WidensOnlyOverEmpty(session: Session, policy: Policy, db: Db, safeEnd: int, observed: Utc)
    requires policy.Valid()
    requires NextPlan(session, policy, db, Current(session, db), safeEnd, observed).Success?
    ensures var plan := NextPlan(session, policy, db, Current(session, db), safeEnd, observed).value;
            && (plan.endRaw - plan.startRaw > policy.maximumWindow ==>
                  policy.emptyWindow.Some? && NothingSeen(db, plan.expected)
                  && plan.endRaw - plan.startRaw <= policy.emptyWindow.value)
            && (plan.endRaw < safeEnd ==>
                  plan.endRaw - plan.startRaw == if policy.emptyWindow.Some? && NothingSeen(db, plan.expected)
                                                 then policy.emptyWindow.value else policy.maximumWindow)
  {
  }

  ghost predicate CommitsNext(sha: Hash, session: Session, policy: Policy, before: Db, after: Db, reading: Reading) {
    var r := RunNextWindow(sha, session, policy, before, Current(session, before), reading);
    r.1.Committed? && r.0.checkpoints == after.checkpoints
  }

  /** Each committed window moves the frontier, and never past the safe end. */
  lemma CommitAdvances(sha: Hash, session: Session, policy: Policy, before: Db, after: Db, reading: Reading)
    requires policy.Valid() && CommitsNext(sha, session, policy, before, after, reading)
    ensures reading.safeEnd > Frontier(session, before) ==>
              Frontier(session, after)
              >= Frontier(session, before)
                 + Min(reading.safeEnd - Frontier(session, before), policy.maximumWindow - policy.overlap)
    ensures Frontier(session, before) <= Frontier(session, after) <= Max(Frontier(session, before), reading.safeEnd)
    ensures session.journalProfileId in after.checkpoints
  {
    var plan := NextPlan(session, policy, before, Current(session, before), reading.safeEnd, reading.observed);
    PlanReaches(session, policy, before, reading.safeEnd, reading.observed);
    var p := plan.value;
    var built := ReadWindow(sha, session, policy, before.outbox.Keys, p.expected, p.startRaw, p.endRaw, reading, 1, None);
    BuiltRange(sha, session, policy, before.outbox.Keys, p.expected, p.startRaw, p.endRaw, reading, 1, None);
    CommitInputAdvances(before, built.0.value);
  }

  lemma BuiltRange(
    sha: Hash, session: Session, policy: Policy, announced: set<EventId>, expected: Checkpoint,
    startRaw: int, endRaw: int, reading: Reading, revision: int, supersedes: Option<WindowId>)
    requires ReadWindow(sha, session, policy, announced, expected, startRaw, endRaw, reading, revision, supersedes).0.Success?
    ensures var input := ReadWindow(
              sha, session, policy, announced, expected, startRaw, endRaw, reading, revision, supersedes).0.value;
            && input.expected == expected
            && input.window.profileId == session.journalProfileId
            && input.window.startRaw == startRaw && input.window.endRaw == endRaw
            && input.window.generation == expected.generation && input.window.revision == revision
  {
  }

  lemma CommitInputAdvances(db: Db, input: Input)
    requires CommitInput(db, input).1.Committed?
    ensures CommitInput(db, input).0.checkpoints
            == db.checkpoints[input.window.profileId := Advanced(input.expected, input.window)]
    ensures Matches(CheckpointOf(db, input.window.profileId), input.expected, input.lowerBound)
  {
  }

  /** While the safe end is ahead of the frontier, a plan is never idle. */
  lemma NeverIdleBelowSafeEnd(sha: Hash, session: Session, policy: Policy, db: Db, reading: Reading)
    requires policy.Valid() && reading.safeEnd > Frontier(session, db)
    ensures !RunNextWindow(sha, session, policy, db, Current(session, db), reading).1.Idle?
  {
    if NextPlan(session, policy, db, Current(session, db), reading.safeEnd, reading.observed).Success? {
      PlanReaches(session, policy, db, reading.safeEnd, reading.observed);
    }
  }

  /** k committed windows towards one safe end, with anything between them that keeps the checkpoints. */
  ghost predicate Backfill(
    sha: Hash, session: Session, policy: Policy, dbs: seq<Db>, readings: seq<Reading>, safeEnd: int)
  {
    && |dbs| == |readings| + 1
    && (forall i | 0 <= i < |readings| :: readings[i].safeEnd == safeEnd)
    && (forall i | 0 <= i < |readings| :: CommitsNext(sha, session, policy, dbs[i], dbs[i + 1], readings[i]))
  }

  /** One commit from `before` to `after` on the way to the safe end. */
  predicate NetStep(before: int, after: int, safeEnd: int, net: int) {
    before <= after && after >= Min(safeEnd, before + net)
  }

  lemma {:induction false} NetSteps(frontiers: seq<int>, safeEnd: int, net: int)
    requires frontiers != [] && net > 0
    requires forall i | 0 <= i < |frontiers| - 1 :: NetStep(frontiers[i], frontiers[i + 1], safeEnd, net)
    ensures frontiers[|frontiers| - 1] >= Min(safeEnd, frontiers[0] + (|frontiers| - 1) * net)
  {
    var n := |frontiers| - 1;
    if n > 0 {
      NetSteps(frontiers[..n], safeEnd, net);
      assert NetStep(frontiers[n - 1], frontiers[n - 1 + 1], safeEnd, net);
      assert n * net == (n - 1) * net + net;
    }
  }

  /**
    Backfill with a bound: after k commits the frontier has moved by k net windows
    or reached the safe end, for every choice of widening over empty regions.
   */
  lemma BackfillBound(
    sha: Hash, session: Session, policy: Policy, dbs: seq<Db>, readings: seq<Reading>, safeEnd: int)
    requires policy.Valid() && Backfill(sha, session, policy, dbs, readings, safeEnd)
    ensures Frontier(session, dbs[|readings|])
            >= Min(safeEnd, Frontier(session, dbs[0]) + |readings| * (policy.maximumWindow - policy.overlap))
  {
    var net := policy.maximumWindow - policy.overlap;
    var frontiers := seq(|dbs|, i requires 0 <= i < |dbs| => Frontier(session, dbs[i]));
    forall i | 0 <= i < |frontiers| - 1 ensures NetStep(frontiers[i], frontiers[i + 1], safeEnd, net) {
      CommitSteps(sha, session, policy, dbs[i], dbs[i + 1], readings[i]);
    }
    NetSteps(frontiers, safeEnd, net);
  }

  lemma CommitSteps(sha: Hash, session: Session, policy: Policy, before: Db, after: Db, reading: Reading)
    requires policy.Valid() && CommitsNext(sha, session, policy, before, after, reading)
    ensures NetStep(Frontier(session, before), Frontier(session, after), reading.safeEnd,
                    policy.maximumWindow - policy.overlap)
  {
    CommitAdvances(sha, session, policy, before, after, reading);
  }

  /** At most ceil((safe_end - frontier) / (maximum - overlap)) commits reach the safe end. */
  lemma BackfillTerminates(
    sha: Hash, session: Session, policy: Policy, dbs: seq<Db>, readings: seq<Reading>, safeEnd: int)
    requires policy.Valid() && Backfill(sha, session, policy, dbs, readings, safeEnd)
    requires |readings| >= (safeEnd - Frontier(session, dbs[0]) + policy.maximumWindow - policy.overlap - 1)
                           / (policy.maximumWindow - policy.overlap)
    ensures Frontier(session, dbs[|readings|]) >= safeEnd
  {
    BackfillBound(sha, session, policy, dbs, readings, safeEnd);
    var net, gap := policy.maximumWindow - policy.overlap, safeEnd - Frontier(session, dbs[0]);
    CeilingCovers(gap, net, |readings|);
  }

  lemma CeilingCovers(gap: int, net: int, k: nat)
    requires net > 0 && k >= (gap + net - 1) / net
    ensures k * net >= gap
  {
    var q := (gap + net - 1) / net;
    assert gap + net - 1 == q * net + (gap + net - 1) % net;
    assert k * net >= q * net by {
      assert (k - q) * net >= 0;
    }
  }

  /** A checkpoint below a raised bound never commits: only recovery moves it. */
  lemma BelowBoundNeverCommits(sha: Hash, session: Session, policy: Policy, db: Db, reading: Reading)
    requires Current(session, db).Some? && Current(session, db).value.next < session.lowerBound
    ensures var r := RunNextWindow(sha, session, policy, db, Current(session, db), reading);
            !r.1.Committed? && r.0 == db
  {
    var r := RunNextWindow(sha, session, policy, db, Current(session, db), reading);
    var plan := NextPlan(session, policy, db, Current(session, db), reading.safeEnd, reading.observed);
    if plan.Success? && plan.value.startRaw < plan.value.endRaw {
      var p := plan.value;
      var built := ReadWindow(sha, session, policy, db.outbox.Keys, p.expected, p.startRaw, p.endRaw, reading, 1, None);
      if built.0.Success? {
        BuiltRange(sha, session, policy, db.outbox.Keys, p.expected, p.startRaw, p.endRaw, reading, 1, None);
        if CommitInput(db, built.0.value).1.Committed? {
          CommitInputAdvances(db, built.0.value);
        }
      }
    }
  }

  /**
    A plan whose range was already committed once, such as one for an unmoved safe
    end, is refused by the uniqueness constraint of the window table.
   */
  lemma RepeatedPlanRefused(sha: Hash, session: Session, policy: Policy, db: Db, reading: Reading, o: WindowId)
    requires NextPlan(session, policy, db, Current(session, db), reading.safeEnd, reading.observed).Success?
    requires o in db.windows && db.windows[o].window.revision == 1
    requires db.windows[o].window.profileId == session.journalProfileId
    requires var plan := NextPlan(session, policy, db, Current(session, db), reading.safeEnd, reading.observed).value;
             && db.windows[o].window.startRaw == plan.startRaw && db.windows[o].window.endRaw == plan.endRaw
             && db.windows[o].window.generation == plan.expected.generation
    ensures var r := RunNextWindow(sha, session, policy, db, Current(session, db), reading);
            !r.1.Committed? && r.0 == db
  {
    var p := NextPlan(session, policy, db, Current(session, db), reading.safeEnd, reading.observed).value;
    if p.startRaw < p.endRaw {
      var built := ReadWindow(sha, session, policy, db.outbox.Keys, p.expected, p.startRaw, p.endRaw, reading, 1, None);
      if built.0.Success? {
        BuiltRange(sha, session, policy, db.outbox.Keys, p.expected, p.startRaw, p.endRaw, reading, 1, None);
        SameRangeRefused(db, built.0.value, o);
      }
    }
  }

  lemma SameRangeRefused(db: Db, input: Input, o: WindowId)
    requires o in db.windows && SameRevision(db.windows[o].window, input.window)
    ensures !CommitInput(db, input).1.Committed? && CommitInput(db, input).0 == db
  {
    assert !Insertable(db.windows, input.window);
  }

  // ---------------------------------------------------------------------
  // Order-free windows
  // ---------------------------------------------------------------------

  predicate DistinctTickets(rows: seq<Payload>) {
    forall i, j | 0 <= i < j < |rows| :: Raw(rows[i], TICKET) != Raw(rows[j], TICKET)
  }

  /** The same set of rows, each ticket once, in any order. */
  ghost predicate SameRows(a: CallResult, b: CallResult) {
    match (a, b)
    case (FAILED, FAILED) => true
    case (Rows(x), Rows(y)) => multiset(x) == multiset(y) && DistinctTickets(x)
    case _ => false
  }

  ghost predicate SameReading(a: Reading, b: Reading) {
    && a.identified == b.identified && a.stillIdentified == b.stillIdentified
    && a.safeEndKnown == b.safeEndKnown && a.safeEnd == b.safeEnd && a.observed == b.observed
    && (forall s, e :: SameRows(a.deals(s, e), b.deals(s, e)))
    && (forall s, e :: SameRows(a.orders(s, e), b.orders(s, e)))
  }

  lemma {:induction false} AcceptedMultiset(rows: seq<Payload>, startRaw: int, endRaw: int, boundary: Field, x: Payload)
    ensures multiset(Accepted(rows, startRaw, endRaw, boundary))[x]
            == if InWindow(x, startRaw, endRaw, boundary) then multiset(rows)[x] else 0
  {
    if rows != [] {
      var n := |rows| - 1;
      AcceptedMultiset(rows[..n], startRaw, endRaw, boundary, x);
      assert rows == rows[..n] + [rows[n]];
    }
  }

  lemma {:induction false} AcceptedDistinct(rows: seq<Payload>, startRaw: int, endRaw: int, boundary: Field)
    requires DistinctTickets(rows)
    ensures DistinctTickets(Accepted(rows, startRaw, endRaw, boundary))
    ensures forall row | row in Accepted(rows, startRaw, endRaw, boundary) :: row in rows
  {
    if rows != [] {
      var n := |rows| - 1;
      AcceptedDistinct(rows[..n], startRaw, endRaw, boundary);
      var before := Accepted(rows[..n], startRaw, endRaw, boundary);
      forall i | 0 <= i < |before| ensures Raw(before[i], TICKET) != Raw(rows[n], TICKET) {
        assert before[i] in rows[..n];
      }
    }
  }

  lemma {:induction false} AcceptedSame(a: seq<Payload>, b: seq<Payload>, startRaw: int, endRaw: int, boundary: Field)
    requires multiset(a) == multiset(b)
    ensures multiset(Accepted(a, startRaw, endRaw, boundary)) == multiset(Accepted(b, startRaw, endRaw, boundary))
    ensures HalfOpenRows(a, startRaw, endRaw, boundary).Success? <==> HalfOpenRows(b, startRaw, endRaw, boundary).Success?
  {
    var x, y := Accepted(a, startRaw, endRaw, boundary), Accepted(b, startRaw, endRaw, boundary);
    forall row ensures multiset(x)[row] == multiset(y)[row] {
      AcceptedMultiset(a, startRaw, endRaw, boundary, row);
      AcceptedMultiset(b, startRaw, endRaw, boundary, row);
    }
    SameMembers(a, b);
    ReadableEach(a, boundary);
    ReadableEach(b, boundary);
  }

  lemma {:induction false} ReadableEach(rows: seq<Payload>, boundary: Field)
    ensures AllReadable(rows, boundary) <==> forall row | row in rows :: Readable(row, boundary)
  {
    if rows != [] {
      ReadableEach(rows[1..], boundary);
      assert rows == [rows[0]] + rows[1..];
    }
  }

  lemma {:induction false} SortableEach(rows: seq<Payload>, resource: Resource)
    ensures AllSortable(rows, resource) <==> forall row | row in rows :: Sortable(row, resource)
  {
    if rows != [] {
      SortableEach(rows[1..], resource);
      assert rows == [rows[0]] + rows[1..];
    }
  }

  lemma {:induction false} SortableSame(a: seq<Payload>, b: seq<Payload>, resource: Resource)
    requires multiset(a) == multiset(b)
    ensures AllSortable(a, resource) <==> AllSortable(b, resource)
  {
    SameMembers(a, b);
    SortableEach(a, resource);
    SortableEach(b, resource);
  }

  lemma SameMembers<T>(a: seq<T>, b: seq<T>)
    requires multiset(a) == multiset(b)
    ensures forall x :: x in a <==> x in b
  {
    forall x ensures x in a <==> x in b {
      assert x in a <==> x in multiset(a);
      assert x in b <==> x in multiset(b);
    }
  }

  /** The ticket closes the sort key, so distinct tickets leave one sorted order. */
  lemma SortedRowsSame(resource: Resource, a: seq<Payload>, b: seq<Payload>)
    requires multiset(a) == multiset(b) && DistinctTickets(a)
    ensures SortedRows(resource, a) == SortedRows(resource, b)
  {
    var key := SortKey(resource);
    var n := if resource == Deal then 2 else 4;
    forall i, j | 0 <= i < j < |a| ensures key(a[i]) != key(a[j]) {
      assert key(a[i])[n] == Raw(a[i], TICKET) && key(a[j])[n] == Raw(a[j], TICKET);
    }
    SortByKeyOrderFree(a, b, key);
  }

  lemma BuildSame(
    sha: Hash, session: Session, policy: Policy, announced: set<EventId>, expected: Checkpoint,
    startRaw: int, endRaw: int, deals: seq<Payload>, orders: seq<Payload>, deals': seq<Payload>, orders': seq<Payload>,
    revision: int, supersedes: Option<WindowId>, observed: Utc)
    requires multiset(deals) == multiset(deals') && DistinctTickets(deals)
    requires multiset(orders) == multiset(orders') && DistinctTickets(orders)
    ensures BuildInput(sha, session, policy, announced, expected, startRaw, endRaw, deals, orders, revision, supersedes, observed)
            == BuildInput(sha, session, policy, announced, expected, startRaw, endRaw, deals', orders', revision, supersedes, observed)
  {
    SortedRowsSame(Deal, deals, deals');
    SortedRowsSame(Order, orders, orders');
    SortableSame(deals, deals', Deal);
    SortableSame(orders, orders', Order);
    assert Assembled(sha, session, policy, announced, expected, startRaw, endRaw, deals, orders, revision, supersedes, observed)
        == Assembled(sha, session, policy, announced, expected, startRaw, endRaw, deals', orders', revision, supersedes, observed);
  }

  /** Two adapter answers that pass the same checks and leave the same rows. */
  ghost predicate SameAccepted(a: CallResult, b: CallResult, startRaw: int, endRaw: int, boundary: Field) {
    && (a.FAILED? <==> b.FAILED?)
    && (a.Rows? ==>
          var x, y := HalfOpenRows(a.rows, startRaw, endRaw, boundary), HalfOpenRows(b.rows, startRaw, endRaw, boundary);
          && (x.Success? <==> y.Success?)
          && (x.Success? ==> multiset(x.value) == multiset(y.value) && DistinctTickets(x.value)))
  }

  lemma SameRowsAccepted(a: CallResult, b: CallResult, startRaw: int, endRaw: int, boundary: Field)
    requires SameRows(a, b)
    ensures SameAccepted(a, b, startRaw, endRaw, boundary)
  {
    if a.Rows? {
      AcceptedSame(a.rows, b.rows, startRaw, endRaw, boundary);
      AcceptedDistinct(a.rows, startRaw, endRaw, boundary);
    }
  }

  lemma BuildWindowSame(
    sha: Hash, session: Session, policy: Policy, announced: set<EventId>, expected: Checkpoint,
    startRaw: int, endRaw: int, d: CallResult, d': CallResult, o: CallResult, o': CallResult,
    revision: int, supersedes: Option<WindowId>, observed: Utc)
    requires SameAccepted(d, d', startRaw, endRaw, BoundaryField(Deal))
    requires SameAccepted(o, o', startRaw, endRaw, BoundaryField(Order))
    ensures BuildWindow(sha, session, policy, announced, expected, startRaw, endRaw, d, o, revision, supersedes, observed)
            == BuildWindow(sha, session, policy, announced, expected, startRaw, endRaw, d', o', revision, supersedes, observed)
  {
    if d.Rows? && o.Rows? {
      var deals, deals' := HalfOpenRows(d.rows, startRaw, endRaw, BoundaryField(Deal)),
                           HalfOpenRows(d'.rows, startRaw, endRaw, BoundaryField(Deal));
      var orders, orders' := HalfOpenRows(o.rows, startRaw, endRaw, BoundaryField(Order)),
                             HalfOpenRows(o'.rows, startRaw, endRaw, BoundaryField(Order));
      if deals.Success? && orders.Success? {
        BuildSame(sha, session, policy, announced, expected, startRaw, endRaw, deals.value, orders.value,
                  deals'.value, orders'.value, revision, supersedes, observed);
      }
    }
  }

  lemma ReadSame(
    sha: Hash, session: Session, policy: Policy, announced: set<EventId>, expected: Checkpoint,
    startRaw: int, endRaw: int, a: Reading, b: Reading, revision: int, supersedes: Option<WindowId>)
    requires SameReading(a, b)
    ensures ReadWindow(sha, session, policy, announced, expected, startRaw, endRaw, a, revision, supersedes)
            == ReadWindow(sha, session, policy, announced, expected, startRaw, endRaw, b, revision, supersedes)
  {
    var d, d' := a.deals(startRaw, endRaw), b.deals(startRaw, endRaw);
    var o, o' := a.orders(startRaw, endRaw), b.orders(startRaw, endRaw);
    SameRowsAccepted(d, d', startRaw, endRaw, BoundaryField(Deal));
    SameRowsAccepted(o, o', startRaw, endRaw, BoundaryField(Order));
    BuildWindowSame(sha, session, policy, announced, expected, startRaw, endRaw, d, d', o, o', revision, supersedes, a.observed);
  }

  /** The order in which the terminal lists rows changes nothing: not the tables, not the outcome. */
  lemma RowOrderIrrelevant(
    sha: Hash, session: Session, policy: Policy, db: Db, checkpoint: Option<Checkpoint>, a: Reading, b: Reading)
    requires SameReading(a, b)
    ensures RunNextWindow(sha, session, policy, db, checkpoint, a) == RunNextWindow(sha, session, policy, db, checkpoint, b)
  {
    var plan := NextPlan(session, policy, db, checkpoint, a.safeEnd, a.observed);
    if plan.Success? {
      ReadSame(sha, session, policy, db.outbox.Keys, plan.value.expected, plan.value.startRaw, plan.value.endRaw, a, b, 1, None);
    }
  }

  lemma ReviseSame(
    sha: Hash, session: Session, policy: Policy, db: Db, prior: Window, a: Reading, b: Reading)
    requires SameReading(a, b)
    ensures Revise(sha, session, policy, db, prior, a) == Revise(sha, session, policy, db, prior, b)
  {
    ReadSame(sha, session, policy, db.outbox.Keys, PriorCheckpoint(prior), prior.startRaw, prior.endRaw, a, b,
             NextRevision(prior), Some(prior.id));
  }

  lemma ReconcileOrderIrrelevant(
    sha: Hash, session: Session, policy: Policy, db: Db, id: WindowId, a: Reading, b: Reading)
    requires SameReading(a, b)
    ensures ReconcileWindow(sha, session, policy, db, id, a) == ReconcileWindow(sha, session, policy, db, id, b)
  {
    var prior := GetWindow(db, id);
    if prior.Some? {
      var w := prior.value;
      ReviseSame(sha, session, policy, db, w, a, b);
      ReadSame(sha, session, policy, db.outbox.Keys, PriorCheckpoint(w), w.startRaw, w.endRaw, a, b, w.revision, None);
    }
  }
}
