/** What the stored tables are after any run of the handler. */
module IngestionLaws {
  import opened Wrappers
  import opened HistoryConsumer
  import PositionReconstructor
  import PositionLaws
  import opened Sequences

  /** One delivery of an event, with the query's answer and whether the database works. */
  datatype Feed = Feed(event: Event, rows: seq<Deal>, dbOk: bool)

  const NOTHING := Tables(map[], map[], map[])

  function Ingest(registry: Registry, feeds: seq<Feed>): Tables {
    if feeds == [] then NOTHING
    else
      var last := feeds[|feeds| - 1];
      Handled(Ingest(registry, feeds[..|feeds| - 1]), registry, last.event, last.rows, last.dbOk).0
  }

  predicate Acks(registry: Registry, t: Tables, f: Feed) {
    Handled(t, registry, f.event, f.rows, f.dbOk).1 == ACK
  }

  // ---------------------------------------------------------------------
  // Confluence
  // ---------------------------------------------------------------------

  function Acked(registry: Registry, t: Tables, f: Feed): (set<Upsert<DealRow>>, set<Upsert<OrderRow>>) {
    var deal, order := DealOf(registry, f.event), OrderOf(registry, f.event);
    (if Acks(registry, t, f) && deal.Some? then {deal.value} else {},
     if Acks(registry, t, f) && order.Some? then {order.value} else {})
  }

  /** The well-formed deals and orders a run acknowledged. */
  function AckedDeals(registry: Registry, feeds: seq<Feed>): set<Upsert<DealRow>> {
    if feeds == [] then {}
    else
      var n := |feeds| - 1;
      AckedDeals(registry, feeds[..n]) + Acked(registry, Ingest(registry, feeds[..n]), feeds[n]).0
  }

  function AckedOrders(registry: Registry, feeds: seq<Feed>): set<Upsert<OrderRow>> {
    if feeds == [] then {}
    else
      var n := |feeds| - 1;
      AckedOrders(registry, feeds[..n]) + Acked(registry, Ingest(registry, feeds[..n]), feeds[n]).1
  }

  /** Each ticket has one payload. */
  ghost predicate OnePayload<R(!new)>(upserts: set<Upsert<R>>) {
    forall u, v | u in upserts && v in upserts && u.key == v.key :: u == v
  }

  /** The table holds exactly these rows. */
  ghost predicate Holds<R(!new)>(table: map<Key, R>, upserts: set<Upsert<R>>) {
    forall k, r :: (k in table && table[k] == r) <==> Upsert(k, r) in upserts
  }

  lemma HoldsOneMore<R(!new)>(table: map<Key, R>, upserts: set<Upsert<R>>, u: Upsert<R>)
    requires Holds(table, upserts) && OnePayload(upserts + {u})
    ensures Holds(table[u.key := u.row], upserts + {u})
  {
    var after := table[u.key := u.row];
    forall k, r ensures (k in after && after[k] == r) <==> Upsert(k, r) in upserts + {u} {
      if k == u.key && Upsert(k, r) in upserts {
        assert Upsert(k, r) == u;
      }
    }
  }

  lemma HandledDeals(t: Tables, registry: Registry, f: Feed)
    ensures Handled(t, registry, f.event, f.rows, f.dbOk).0.deals
            == if Acked(registry, t, f).0 != {}
               then t.deals[DealOf(registry, f.event).value.key := DealOf(registry, f.event).value.row]
               else t.deals
  {
  }

  lemma HandledOrders(t: Tables, registry: Registry, f: Feed)
    ensures Handled(t, registry, f.event, f.rows, f.dbOk).0.orders
            == if Acked(registry, t, f).1 != {}
               then t.orders[OrderOf(registry, f.event).value.key := OrderOf(registry, f.event).value.row]
               else t.orders
  {
  }

  /** An acknowledged well-formed event is stored, and an event left pending changes nothing. */
  lemma HandledStores(t: Tables, registry: Registry, f: Feed)
    ensures var after := Handled(t, registry, f.event, f.rows, f.dbOk).0;
            && (!Acks(registry, t, f) ==> after == t)
            && after.deals == (if Acked(registry, t, f).0 != {}
                               then t.deals[DealOf(registry, f.event).value.key := DealOf(registry, f.event).value.row]
                               else t.deals)
            && after.orders == (if Acked(registry, t, f).1 != {}
                                then t.orders[OrderOf(registry, f.event).value.key := OrderOf(registry, f.event).value.row]
                                else t.orders)
  {
    HandledDeals(t, registry, f);
    HandledOrders(t, registry, f);
  }

  /** The event asks for a row to be stored. */
  predicate IsRecord(e: Event) {
    e.DealEvent? || e.OrderEvent?
  }

  predicate WellFormed(registry: Registry, e: Event) {
    DealOf(registry, e).Some? || OrderOf(registry, e).Some?
  }

  /** The deal's position can be represented with this deal in it. */
  predicate Representable(registry: Registry, f: Feed) {
    DealOf(registry, f.event).Some? && HasPosition(DealOf(registry, f.event).value.row) ==>
      !PositionReconstructor.LifecycleOf(f.rows).Corrupted? && !PositionReconstructor.LifecycleOf(f.rows).AmbiguousReopen?
  }

  /**
    An event stays pending exactly when its account is not ready, the database
    fails, or its position would be corrupted or reopened. What is acknowledged
    is stored, or is nothing to store.
   */
  lemma PendingExactly(t: Tables, registry: Registry, f: Feed)
    ensures !Acks(registry, t, f) <==>
              IsRecord(f.event)
              && (Ready(registry, f.event.login) == None
                  || (WellFormed(registry, f.event) && !(f.dbOk && Representable(registry, f))))
    ensures Acks(registry, t, f) && IsRecord(f.event) && WellFormed(registry, f.event) ==>
              var after := Handled(t, registry, f.event, f.rows, f.dbOk).0;
              match f.event
              case DealEvent(_, _) =>
                var u := DealOf(registry, f.event).value;
                u.key in after.deals && after.deals[u.key] == u.row
              case OrderEvent(_, _) =>
                var u := OrderOf(registry, f.event).value;
                u.key in after.orders && after.orders[u.key] == u.row
  {
  }

  lemma {:induction false} DealsAreAcked(registry: Registry, feeds: seq<Feed>)
    requires OnePayload(AckedDeals(registry, feeds))
    ensures Holds(Ingest(registry, feeds).deals, AckedDeals(registry, feeds))
  {
    if feeds != [] {
      var n := |feeds| - 1;
      var t := Ingest(registry, feeds[..n]);
      DealsAreAcked(registry, feeds[..n]);
      HandledStores(t, registry, feeds[n]);
      if Acked(registry, t, feeds[n]).0 != {} {
        HoldsOneMore(t.deals, AckedDeals(registry, feeds[..n]), DealOf(registry, feeds[n].event).value);
      }
    }
  }

  lemma {:induction false} OrdersAreAcked(registry: Registry, feeds: seq<Feed>)
    requires OnePayload(AckedOrders(registry, feeds))
    ensures Holds(Ingest(registry, feeds).orders, AckedOrders(registry, feeds))
  {
    if feeds != [] {
      var n := |feeds| - 1;
      var t := Ingest(registry, feeds[..n]);
      OrdersAreAcked(registry, feeds[..n]);
      HandledStores(t, registry, feeds[n]);
      if Acked(registry, t, feeds[n]).1 != {} {
        HoldsOneMore(t.orders, AckedOrders(registry, feeds[..n]), OrderOf(registry, feeds[n].event).value);
      }
    }
  }

  lemma HoldsDetermines<R(!new)>(a: map<Key, R>, b: map<Key, R>, upserts: set<Upsert<R>>)
    requires Holds(a, upserts) && Holds(b, upserts)
    ensures a == b
  {
    forall k ensures k in a <==> k in b {
      if k in a {
        assert Upsert(k, a[k]) in upserts;
      }
      if k in b {
        assert Upsert(k, b[k]) in upserts;
      }
    }
    forall k | k in a ensures a[k] == b[k] {
      assert Upsert(k, a[k]) in upserts;
    }
  }

  /**
    Confluence: two runs that acknowledge the same deals and orders, in any order
    and with any duplicates and failures between, end with the same tables.
   */
  lemma {:induction false} Confluence(registry: Registry, a: seq<Feed>, b: seq<Feed>)
    requires AckedDeals(registry, a) == AckedDeals(registry, b) && OnePayload(AckedDeals(registry, a))
    requires AckedOrders(registry, a) == AckedOrders(registry, b) && OnePayload(AckedOrders(registry, a))
    ensures Ingest(registry, a).deals == Ingest(registry, b).deals
    ensures Ingest(registry, a).orders == Ingest(registry, b).orders
  {
    DealsAreAcked(registry, a);
    DealsAreAcked(registry, b);
    OrdersAreAcked(registry, a);
    OrdersAreAcked(registry, b);
    HoldsDetermines(Ingest(registry, a).deals, Ingest(registry, b).deals, AckedDeals(registry, a));
    HoldsDetermines(Ingest(registry, a).orders, Ingest(registry, b).orders, AckedOrders(registry, a));
  }

  // ---------------------------------------------------------------------
  // Closed positions
  // ---------------------------------------------------------------------

  /** Different tickets of one account have different numbers. */
  ghost predicate Numbered(upserts: set<Upsert<DealRow>>) {
    forall u, v | u in upserts && v in upserts && u.key.account == v.key.account
                  && PositionReconstructor.Ticket(u.row.deal) == PositionReconstructor.Ticket(v.row.deal) :: u.key == v.key
  }

  ghost predicate TicketsDiffer(deals: map<Key, DealRow>) {
    forall k, l | k in deals && l in deals && k.account == l.account && k != l ::
      PositionReconstructor.Ticket(deals[k].deal) != PositionReconstructor.Ticket(deals[l].deal)
  }

  lemma HeldTicketsDiffer(deals: map<Key, DealRow>, upserts: set<Upsert<DealRow>>)
    requires Holds(deals, upserts) && Numbered(upserts)
    ensures TicketsDiffer(deals)
  {
    forall k, l | k in deals && l in deals && k.account == l.account && k != l
      ensures PositionReconstructor.Ticket(deals[k].deal) != PositionReconstructor.Ticket(deals[l].deal)
    {
      assert Upsert(k, deals[k]) in upserts && Upsert(l, deals[l]) in upserts;
    }
  }

  lemma {:induction false} DistinctCounts<T>(s: seq<T>, x: T)
    requires Distinct(s)
    ensures multiset(s)[x] == if x in s then 1 else 0
  {
    if s != [] {
      var n := |s| - 1;
      assert s == s[..n] + [s[n]];
      DistinctCounts(s[..n], x);
    }
  }

  /** Whatever order the query answers in, the reconstruction is the same. */
  lemma AnswerOrderFree(deals: map<Key, DealRow>, account: string, positionId: string, a: seq<Deal>, b: seq<Deal>)
    requires TicketsDiffer(deals) && Lists(a, deals, account, positionId) && Lists(b, deals, account, positionId)
    ensures PositionReconstructor.LifecycleOf(a) == PositionReconstructor.LifecycleOf(b)
  {
    forall d ensures multiset(a)[d] == multiset(b)[d] {
      DistinctCounts(a, d);
      DistinctCounts(b, d);
      assert d in a <==> d in b;
    }
    forall i, j | 0 <= i < j < |a| ensures PositionReconstructor.Ticket(a[i]) != PositionReconstructor.Ticket(a[j]) {
      assert a[i] in GroupSet(deals, account, positionId) && a[j] in GroupSet(deals, account, positionId);
      var k :| k in deals && k.account == account && deals[k].deal == a[i];
      var l :| l in deals && l.account == account && deals[l].deal == a[j];
      assert k != l;
    }
    PositionLaws.OrderFree(a, b);
  }

  /** The stored deals of a position are consistent, and once they close it, its row is exact. */
  ghost predicate GroupSettled(t: Tables, account: string, positionId: string) {
    forall rows | Lists(rows, t.deals, account, positionId) && rows != [] ::
      Settled(t, account, positionId, PositionReconstructor.LifecycleOf(rows))
  }

  predicate Settled(t: Tables, account: string, positionId: string, r: Lifecycle) {
    && !r.Corrupted? && !r.AmbiguousReopen?
    && (r.Closed? ==> Key(account, positionId) in t.positions && t.positions[Key(account, positionId)] == r.fields)
  }

  ghost predicate AllSettled(t: Tables) {
    forall account, positionId | positionId != "" :: GroupSettled(t, account, positionId)
  }

  /** The query of every deal transaction answered with the deals of its position. */
  predicate Answerable(f: Feed, registry: Registry) {
    DealOf(registry, f.event).Some? && HasPosition(DealOf(registry, f.event).value.row)
  }

  ghost predicate HonestAnswer(registry: Registry, t: Tables, f: Feed) {
    Answerable(f, registry) ==>
      var u := DealOf(registry, f.event).value;
      Lists(f.rows, t.deals[u.key := u.row], u.key.account, u.row.positionId.value)
  }

  ghost predicate Honest(registry: Registry, feeds: seq<Feed>) {
    forall n | 0 <= n < |feeds| :: HonestAnswer(registry, Ingest(registry, feeds[..n]), feeds[n])
  }

  lemma OtherGroupsStay(t: Tables, u: Upsert<DealRow>, account: string, positionId: string)
    requires u.key in t.deals ==> t.deals[u.key] == u.row
    requires account != u.key.account || u.row.positionId != Some(positionId)
    ensures GroupSet(t.deals[u.key := u.row], account, positionId) == GroupSet(t.deals, account, positionId)
  {
    var after := t.deals[u.key := u.row];
    forall d ensures d in GroupSet(after, account, positionId) <==> d in GroupSet(t.deals, account, positionId) {
      if d in GroupSet(after, account, positionId) {
        var k :| k in after && k.account == account && after[k].positionId == Some(positionId) && after[k].deal == d;
        assert k in t.deals && t.deals[k] == after[k];
      }
      if d in GroupSet(t.deals, account, positionId) {
        var k :| k in t.deals && k.account == account && t.deals[k].positionId == Some(positionId) && t.deals[k].deal == d;
        assert after[k] == t.deals[k];
      }
    }
  }

  lemma OtherGroupsSettled(t: Tables, after: Tables, u: Upsert<DealRow>, account: string, positionId: string)
    requires GroupSettled(t, account, positionId)
    requires u.key in t.deals ==> t.deals[u.key] == u.row
    requires after.deals == t.deals[u.key := u.row]
    requires account != u.key.account || u.row.positionId != Some(positionId)
    requires Key(account, positionId) in t.positions ==>
               Key(account, positionId) in after.positions
               && after.positions[Key(account, positionId)] == t.positions[Key(account, positionId)]
    ensures GroupSettled(after, account, positionId)
  {
    OtherGroupsStay(t, u, account, positionId);
    forall rows | Lists(rows, after.deals, account, positionId) && rows != []
      ensures Settled(after, account, positionId, PositionReconstructor.LifecycleOf(rows))
    {
      assert Lists(rows, t.deals, account, positionId);
    }
  }

  lemma OwnGroupSettled(t: Tables, u: Upsert<DealRow>, rows: seq<Deal>)
    requires HasPosition(u.row) && StoreDeal(t, u, rows, true).1 == ACK
    requires TicketsDiffer(t.deals[u.key := u.row])
    requires Lists(rows, t.deals[u.key := u.row], u.key.account, u.row.positionId.value)
    ensures GroupSettled(StoreDeal(t, u, rows, true).0, u.key.account, u.row.positionId.value)
  {
    var after, account, positionId := StoreDeal(t, u, rows, true).0, u.key.account, u.row.positionId.value;
    assert Settled(after, account, positionId, PositionReconstructor.LifecycleOf(rows));
    forall other | Lists(other, after.deals, account, positionId) && other != []
      ensures Settled(after, account, positionId, PositionReconstructor.LifecycleOf(other))
    {
      AnswerOrderFree(after.deals, account, positionId, rows, other);
    }
  }

  lemma DealKeepsSettled(t: Tables, u: Upsert<DealRow>, rows: seq<Deal>)
    requires AllSettled(t) && StoreDeal(t, u, rows, true).1 == ACK
    requires u.key in t.deals ==> t.deals[u.key] == u.row
    requires TicketsDiffer(t.deals[u.key := u.row])
    requires HasPosition(u.row) ==> Lists(rows, t.deals[u.key := u.row], u.key.account, u.row.positionId.value)
    ensures AllSettled(StoreDeal(t, u, rows, true).0)
  {
    var after := StoreDeal(t, u, rows, true).0;
    forall account, positionId | positionId != "" ensures GroupSettled(after, account, positionId) {
      if account == u.key.account && u.row.positionId == Some(positionId) {
        OwnGroupSettled(t, u, rows);
      } else {
        OtherGroupsSettled(t, after, u, account, positionId);
      }
    }
  }

  lemma EmptyOrMember<T(!new)>(s: seq<T>)
    ensures s == [] || exists x :: x in s
  {
    if s != [] {
      assert s[0] in s;
    }
  }

  lemma NothingListed(rows: seq<Deal>, account: string, positionId: string)
    requires Lists(rows, map[], account, positionId)
    ensures rows == []
  {
    EmptyOrMember(rows);
    assert GroupSet(map[], account, positionId) == {};
  }

  lemma NothingSettled()
    ensures AllSettled(NOTHING)
  {
    forall account, positionId, rows | Lists(rows, NOTHING.deals, account, positionId) ensures rows == [] {
      NothingListed(rows, account, positionId);
    }
  }

  /**
    In every run the stored deals of a position never reconstruct as corrupted or
    reopened, and whenever they close it, the position row is the reconstruction.
   */
  lemma {:induction false} ClosedPositionsExact(registry: Registry, feeds: seq<Feed>)
    requires OnePayload(AckedDeals(registry, feeds)) && Numbered(AckedDeals(registry, feeds))
    requires Honest(registry, feeds)
    ensures AllSettled(Ingest(registry, feeds))
  {
    if feeds == [] {
      NothingSettled();
    } else {
      var n := |feeds| - 1;
      var t, f := Ingest(registry, feeds[..n]), feeds[n];
      assert forall k | 0 <= k < n :: feeds[..n][..k] == feeds[..k];
      ClosedPositionsExact(registry, feeds[..n]);
      DealsAreAcked(registry, feeds[..n]);
      DealsAreAcked(registry, feeds);
      HeldTicketsDiffer(Ingest(registry, feeds).deals, AckedDeals(registry, feeds));
      LastFeedKeeps(registry, t, f, AckedDeals(registry, feeds[..n]));
    }
  }

  lemma LastFeedKeeps(registry: Registry, t: Tables, f: Feed, before: set<Upsert<DealRow>>)
    requires AllSettled(t) && HonestAnswer(registry, t, f) && Holds(t.deals, before)
    requires OnePayload(before + Acked(registry, t, f).0)
    requires TicketsDiffer(Handled(t, registry, f.event, f.rows, f.dbOk).0.deals)
    ensures AllSettled(Handled(t, registry, f.event, f.rows, f.dbOk).0)
  {
    var after := Handled(t, registry, f.event, f.rows, f.dbOk).0;
    if Acked(registry, t, f).0 != {} {
      var u := DealOf(registry, f.event).value;
      if u.key in t.deals {
        assert Upsert(u.key, t.deals[u.key]) in before;
      }
      DealKeepsSettled(t, u, f.rows);
    } else {
      assert after.deals == t.deals && after.positions == t.positions;
      forall account, positionId | positionId != "" ensures GroupSettled(after, account, positionId) {
        assert GroupSettled(t, account, positionId);
      }
    }
  }

  // ---------------------------------------------------------------------
  // When a position row is exact
  // ---------------------------------------------------------------------

  /** There is a row exactly when the stored deals close the position, and it is their reconstruction. */
  predicate RowExact(positions: map<Key, Fields>, k: Key, r: Lifecycle) {
    && (k in positions <==> r.Closed?)
    && (r.Closed? ==> positions[k] == r.fields)
  }

  /** After an acknowledged deal its row is exact unless it was there before and the position is not closed now. */
  lemma StoredRowExactly(t: Tables, u: Upsert<DealRow>, rows: seq<Deal>)
    requires HasPosition(u.row) && StoreDeal(t, u, rows, true).1 == ACK
    ensures var k, r := Key(u.key.account, u.row.positionId.value), PositionReconstructor.LifecycleOf(rows);
            RowExact(StoreDeal(t, u, rows, true).0.positions, k, r) <==> !(k in t.positions && !r.Closed?)
  {
  }

  /** The n-th feed is an acknowledged deal that closed this position. */
  ghost predicate ClosesAt(registry: Registry, feeds: seq<Feed>, n: nat, k: Key) {
    && n < |feeds| && Acks(registry, Ingest(registry, feeds[..n]), feeds[n])
    && Answerable(feeds[n], registry)
    && var u := DealOf(registry, feeds[n].event).value;
       k == Key(u.key.account, u.row.positionId.value) && PositionReconstructor.LifecycleOf(feeds[n].rows).Closed?
  }

  ghost predicate EverClosed(registry: Registry, feeds: seq<Feed>, k: Key) {
    exists n | 0 <= n < |feeds| :: ClosesAt(registry, feeds, n, k)
  }

  lemma ClosesInPrefix(registry: Registry, feeds: seq<Feed>, m: nat, n: nat, k: Key)
    requires n < m <= |feeds|
    ensures ClosesAt(registry, feeds[..m], n, k) <==> ClosesAt(registry, feeds, n, k)
  {
    assert feeds[..m][..n] == feeds[..n];
  }

  lemma EverClosedNext(registry: Registry, feeds: seq<Feed>, m: nat, k: Key)
    requires |feeds| == m + 1
    ensures EverClosed(registry, feeds, k) <==> EverClosed(registry, feeds[..m], k) || ClosesAt(registry, feeds, m, k)
  {
    if EverClosed(registry, feeds[..m], k) {
      var n :| 0 <= n < m && ClosesAt(registry, feeds[..m], n, k);
      ClosesInPrefix(registry, feeds, m, n, k);
    }
    if EverClosed(registry, feeds, k) {
      var n :| 0 <= n < |feeds| && ClosesAt(registry, feeds, n, k);
      if n < m {
        ClosesInPrefix(registry, feeds, m, n, k);
      }
    }
  }

  lemma RowsWritten(registry: Registry, t: Tables, f: Feed, k: Key)
    ensures k in Handled(t, registry, f.event, f.rows, f.dbOk).0.positions <==>
              k in t.positions
              || (Acks(registry, t, f) && Answerable(f, registry)
                  && k == Key(DealOf(registry, f.event).value.key.account,
                              DealOf(registry, f.event).value.row.positionId.value)
                  && PositionReconstructor.LifecycleOf(f.rows).Closed?)
  {
  }

  /** A position has a row exactly when some acknowledged deal once closed it: rows are never deleted. */
  lemma {:induction false} RowIffEverClosed(registry: Registry, feeds: seq<Feed>, k: Key)
    ensures k in Ingest(registry, feeds).positions <==> EverClosed(registry, feeds, k)
  {
    if feeds != [] {
      var m := |feeds| - 1;
      RowIffEverClosed(registry, feeds[..m], k);
      EverClosedNext(registry, feeds, m, k);
      RowsWritten(registry, Ingest(registry, feeds[..m]), feeds[m], k);
    }
  }

  /**
    In every run a position row is exact unless an acknowledged deal once closed
    the position and the deals stored now do not.
   */
  lemma {:induction false} PositionRowsExactly(
    registry: Registry, feeds: seq<Feed>, account: string, positionId: string, rows: seq<Deal>)
    requires OnePayload(AckedDeals(registry, feeds)) && Numbered(AckedDeals(registry, feeds))
    requires Honest(registry, feeds) && positionId != ""
    requires Lists(rows, Ingest(registry, feeds).deals, account, positionId)
    ensures var k, r := Key(account, positionId), PositionReconstructor.LifecycleOf(rows);
            RowExact(Ingest(registry, feeds).positions, k, r) <==> !(EverClosed(registry, feeds, k) && !r.Closed?)
  {
    var t := Ingest(registry, feeds);
    ClosedPositionsExact(registry, feeds);
    RowIffEverClosed(registry, feeds, Key(account, positionId));
    assert GroupSettled(t, account, positionId);
    if rows != [] {
      assert Settled(t, account, positionId, PositionReconstructor.LifecycleOf(rows));
    }
  }
}
