/** Runs in which a late deal reopens a closed position and its row stays. */
module ReopenExample {
  import opened Wrappers
  import opened Sorting
  import opened HistoryConsumer
  import opened IngestionLaws
  import PR = PositionReconstructor
  import PositionLaws

  /** One priced lot of a named symbol. */
  predicate Lot(d: Deal, time: int, side: PR.Side) {
    && d.time == time && PR.SideOf(d) == Some(side) && PR.Volume(d) == 1.0
    && d.price.Some? && d.symbol.Some? && d.symbol.value != ""
  }

  lemma EarlierFirst(x: Deal, y: Deal)
    requires x.time < y.time
    ensures ByKey(PR.SortKey)(x, y) && !ByKey(PR.SortKey)(y, x)
  {
    assert PR.SortKey(x) == [x.time, PR.Ticket(x)] && PR.SortKey(y) == [y.time, PR.Ticket(y)];
    assert PR.SortKey(x)[0] < PR.SortKey(y)[0];
    assert LexLe(PR.SortKey(x), PR.SortKey(y)) && !LexLe(PR.SortKey(y), PR.SortKey(x));
  }

  lemma SortsTo(rows: seq<Deal>, v: seq<Deal>)
    requires multiset(rows) == multiset(v) && forall i, j | 0 <= i < j < |v| :: v[i].time < v[j].time
    ensures PR.SortDeals(rows) == v
  {
    var le := ByKey(PR.SortKey);
    ByKeyPreorder(PR.SortKey);
    SortSorted(rows, le);
    forall i, j | 0 <= i < j < |v| ensures le(v[i], v[j]) && !le(v[j], v[i]) {
      EarlierFirst(v[i], v[j]);
    }
    forall x, y | x in v && y in v && le(x, y) && le(y, x) ensures x == y {
      var i :| 0 <= i < |v| && v[i] == x;
      var j :| 0 <= j < |v| && v[j] == y;
      assert i == j;
    }
    SortedUnique(v, PR.SortDeals(rows), le);
  }

  lemma {:induction false} AllCarry(v: seq<Deal>)
    requires forall d | d in v :: PR.Volume(d) != 0.0
    ensures PR.Carrying(v) == v
  {
    if v != [] {
      AllCarry(v[..|v| - 1]);
    }
  }

  lemma {:induction false} NetNext(v: seq<Deal>, d: Deal, w: seq<Deal>)
    requires w == v + [d]
    ensures PR.Net(w) == PR.Net(v) + PR.Signed(d)
    ensures PR.Entries(PR.Priced, w) == PR.Entries(PR.Priced, v) + PR.Weigh(PR.Priced, d, PR.EntryPart(PR.Net(v), d))
    ensures PR.Exits(PR.Priced, w) == PR.Exits(PR.Priced, v) + PR.Weigh(PR.Priced, d, PR.ExitPart(PR.Net(v), d))
  {
    assert w[..|v|] == v;
  }

  lemma OneLotOpen(b: Deal)
    requires Lot(b, 1000, PR.Buy)
    ensures PR.LifecycleOf([b]).Open?
  {
    SortsTo([b], [b]);
    AllCarry([b]);
    NetNext([], b, [b]);
    PositionLaws.StatusByPrefixSums([b]);
  }

  lemma TwoLotsBalance(b: Deal, s: Deal)
    requires Lot(b, 1000, PR.Buy) && Lot(s, 3000, PR.Sell)
    ensures PR.Net([b]) == 1.0 && PR.Net([b, s]) == 0.0
    ensures PR.Entries(PR.Priced, [b, s]) == 1.0 && PR.Exits(PR.Priced, [b, s]) == 1.0
  {
    NetNext([], b, [b]);
    NetNext([b], s, [b, s]);
  }

  lemma BothLotsClosed(b: Deal, s: Deal)
    requires Lot(b, 1000, PR.Buy) && Lot(s, 3000, PR.Sell)
    ensures PR.LifecycleOf([b, s]).Closed?
  {
    var v := [b, s];
    SortsTo(v, v);
    AllCarry(v);
    TwoLotsBalance(b, s);
    assert v[..1] == [b];
    assert forall i :: PositionLaws.FlatBefore(v, i) ==> i == 1;
    PositionLaws.StatusByPrefixSums(v);
    assert v[1] == s;
    PositionLaws.ClosedOrCorrupted(v);
  }

  lemma ThreeLotsOpen(b: Deal, s: Deal, late: Deal)
    requires Lot(b, 1000, PR.Buy) && Lot(s, 3000, PR.Sell) && Lot(late, 2000, PR.Buy)
    ensures PR.Net([b]) == 1.0 && PR.Net([b, late]) == 2.0 && PR.Net([b, late, s]) == 1.0
  {
    NetNext([], b, [b]);
    NetNext([b], late, [b, late]);
    NetNext([b, late], s, [b, late, s]);
  }

  lemma ThreeLotsWalk(b: Deal, s: Deal, late: Deal)
    requires Lot(b, 1000, PR.Buy) && Lot(s, 3000, PR.Sell) && Lot(late, 2000, PR.Buy)
    ensures PositionLaws.Walk([b, s, late]) == [b, late, s]
  {
    var rows, v := [b, s, late], [b, late, s];
    assert multiset(rows) == multiset{b, s, late} && multiset(v) == multiset{b, late, s};
    SortsTo(rows, v);
    AllCarry(v);
  }

  lemma NeverFlat(b: Deal, s: Deal, late: Deal)
    requires Lot(b, 1000, PR.Buy) && Lot(s, 3000, PR.Sell) && Lot(late, 2000, PR.Buy)
    ensures forall i :: !PositionLaws.FlatBefore([b, late, s], i)
  {
    var v := [b, late, s];
    ThreeLotsOpen(b, s, late);
    assert v[..1] == [b] && v[..2] == [b, late];
    forall i ensures !PositionLaws.FlatBefore(v, i) {
      assert i <= 0 || i == 1 || i == 2 || i >= 3;
    }
  }

  lemma LateLotReopens(b: Deal, s: Deal, late: Deal)
    requires Lot(b, 1000, PR.Buy) && Lot(s, 3000, PR.Sell) && Lot(late, 2000, PR.Buy)
    ensures PR.LifecycleOf([b, s, late]).Open?
  {
    ThreeLotsWalk(b, s, late);
    NeverFlat(b, s, late);
    ThreeLotsOpen(b, s, late);
    PositionLaws.StatusByPrefixSums([b, s, late]);
  }

  // ---------------------------------------------------------------------
  // The run
  // ---------------------------------------------------------------------

  /** A well-formed deal event of one position, stored under the given key. */
  predicate Delivers(registry: Registry, f: Feed, k: Key, positionId: string, d: Deal) {
    && DealOf(registry, f.event) == Some(Upsert(k, DealRow(Some(positionId), d)))
    && positionId != "" && f.dbOk
  }

  lemma {:induction false} RunOf(registry: Registry, feeds: seq<Feed>, f: Feed, all: seq<Feed>)
    requires all == feeds + [f]
    ensures Ingest(registry, all) == Handled(Ingest(registry, feeds), registry, f.event, f.rows, f.dbOk).0
  {
    assert all[..|feeds|] == feeds;
  }

  lemma DeliveredIs(registry: Registry, t: Tables, f: Feed, k: Key, positionId: string, d: Deal)
    requires Delivers(registry, f, k, positionId, d)
    ensures Handled(t, registry, f.event, f.rows, f.dbOk) == StoreDeal(t, Upsert(k, DealRow(Some(positionId), d)), f.rows, true)
  {
  }

  lemma MemberOfTwo<T>(a: T, b: T, x: T)
    ensures x in [a, b] <==> x == a || x == b
  {
  }

  lemma MemberOfThree<T>(a: T, b: T, c: T, x: T)
    ensures x in [a, b, c] <==> x == a || x == b || x == c
  {
  }

  /** The tables after storing these deals of one position. */
  lemma ListsTwo(deals: map<Key, DealRow>, account: string, positionId: string, j: Key, k: Key, x: Deal, y: Deal)
    requires deals == map[j := DealRow(Some(positionId), x), k := DealRow(Some(positionId), y)]
    requires j != k && j.account == k.account == account && x.time != y.time
    ensures Lists([x, y], deals, account, positionId)
  {
    forall d ensures d in [x, y] <==> d in GroupSet(deals, account, positionId) {
      MemberOfTwo(x, y, d);
      assert deals[j].deal == x && deals[k].deal == y;
    }
  }

  lemma ListsThree(
    deals: map<Key, DealRow>, account: string, positionId: string, j: Key, k: Key, l: Key, x: Deal, y: Deal, z: Deal)
    requires deals == map[j := DealRow(Some(positionId), x), k := DealRow(Some(positionId), y),
                          l := DealRow(Some(positionId), z)]
    requires j != k && j != l && k != l && j.account == k.account == l.account == account
    requires x.time != y.time && x.time != z.time && y.time != z.time
    ensures Lists([x, y, z], deals, account, positionId)
  {
    forall d ensures d in [x, y, z] <==> d in GroupSet(deals, account, positionId) {
      MemberOfThree(x, y, z, d);
      assert deals[j].deal == x && deals[k].deal == y && deals[l].deal == z;
    }
  }

  /** A deal that leaves its position open or closes it. */
  lemma Stored(registry: Registry, t: Tables, f: Feed, k: Key, positionId: string, d: Deal)
    requires Delivers(registry, f, k, positionId, d)
    requires PR.LifecycleOf(f.rows).Open? || PR.LifecycleOf(f.rows).Closed?
    ensures Acks(registry, t, f)
    ensures var after, r := Handled(t, registry, f.event, f.rows, f.dbOk).0, PR.LifecycleOf(f.rows);
            && after.deals == t.deals[k := DealRow(Some(positionId), d)]
            && after.positions == if r.Closed? then t.positions[Key(k.account, positionId) := r.fields] else t.positions
  {
    DeliveredIs(registry, t, f, k, positionId, d);
  }

  lemma {:induction false} TwoFeedsClose(
    registry: Registry, account: string, positionId: string, no: string, no': string, b: Deal, s: Deal, f: Feed, f': Feed)
    requires Lot(b, 1000, PR.Buy) && Lot(s, 3000, PR.Sell) && no != no'
    requires Delivers(registry, f, Key(account, no), positionId, b) && f.rows == [b]
    requires Delivers(registry, f', Key(account, no'), positionId, s) && f'.rows == [b, s]
    ensures var k, closed, r := Key(account, positionId), Ingest(registry, [f, f']), PR.LifecycleOf([b, s]);
            && closed.deals == map[Key(account, no) := DealRow(Some(positionId), b),
                                   Key(account, no') := DealRow(Some(positionId), s)]
            && r.Closed? && closed.positions == map[k := r.fields]
  {
    OneLotOpen(b);
    BothLotsClosed(b, s);
    RunOf(registry, [], f, [f]);
    RunOf(registry, [f], f', [f, f']);
    Stored(registry, NOTHING, f, Key(account, no), positionId, b);
    Stored(registry, Ingest(registry, [f]), f', Key(account, no'), positionId, s);
  }

  /**
    For every account and position: a buy at one second and a sell at three close
    it, a buy at two seconds that arrives last is acknowledged and reopens it, and
    the row of the closed position is still there.
   */
  lemma {:induction false} LateDealLeavesRow(
    registry: Registry, account: string, positionId: string, no: string, no': string, no'': string,
    b: Deal, s: Deal, late: Deal, f: Feed, f': Feed, f'': Feed)
    requires Lot(b, 1000, PR.Buy) && Lot(s, 3000, PR.Sell) && Lot(late, 2000, PR.Buy)
    requires no != no' && no != no'' && no' != no''
    requires Delivers(registry, f, Key(account, no), positionId, b) && f.rows == [b]
    requires Delivers(registry, f', Key(account, no'), positionId, s) && f'.rows == [b, s]
    requires Delivers(registry, f'', Key(account, no''), positionId, late) && f''.rows == [b, s, late]
    ensures var k, closed := Key(account, positionId), Ingest(registry, [f, f']);
            && Lists([b, s], closed.deals, account, positionId) && PR.LifecycleOf([b, s]).Closed?
            && RowExact(closed.positions, k, PR.LifecycleOf([b, s]))
            && Acks(registry, closed, f'')
    ensures var k, reopened := Key(account, positionId), Ingest(registry, [f, f', f'']);
            && Lists([b, s, late], reopened.deals, account, positionId) && PR.LifecycleOf([b, s, late]).Open?
            && k in reopened.positions && reopened.positions[k] == PR.LifecycleOf([b, s]).fields
  {
    TwoFeedsClose(registry, account, positionId, no, no', b, s, f, f');
    LateLotReopens(b, s, late);
    RunOf(registry, [f, f'], f'', [f, f', f'']);
    var closed := Ingest(registry, [f, f']);
    Stored(registry, closed, f'', Key(account, no''), positionId, late);
    ListsTwo(closed.deals, account, positionId, Key(account, no), Key(account, no'), b, s);
    ListsThree(Ingest(registry, [f, f', f'']).deals, account, positionId,
               Key(account, no), Key(account, no'), Key(account, no''), b, s, late);
  }

  // ---------------------------------------------------------------------
  // One such run
  // ---------------------------------------------------------------------

  function LotOf(no: string, ticket: int, time: int, kind: string): Deal {
    PR.Deal(PR.DealNo(no, Some(ticket)), time, Some("X"), kind, Some(1.0), Some(2.0),
            0.0, 0.0, 0.0, 0.0, None, None, None)
  }

  function Deliver(no: string, ticket: int, seconds: int, kind: string, rows: seq<Deal>): Feed {
    Feed(DealEvent("7", DealRecord(Some("P"), LotOf(no, ticket, seconds, kind), true)), rows, true)
  }

  lemma DeliverDelivers(no: string, ticket: int, seconds: int, kind: string, rows: seq<Deal>)
    requires no != ""
    ensures Delivers(map["7" := Account("a", "7", Some(0))], Deliver(no, ticket, seconds, kind, rows), Key("a", no), "P",
                     LotOf(no, ticket, seconds * 1000, kind))
  {
  }

  /** Account a, position P: buy one lot at 1 s, sell it at 3 s, then learn of a buy at 2 s. */
  lemma LateDealExample()
    ensures var b, s, late := LotOf("1", 1, 1000, "buy"), LotOf("2", 2, 3000, "sell"), LotOf("3", 3, 2000, "buy");
            var feeds := [Deliver("1", 1, 1, "buy", [b]), Deliver("2", 2, 3, "sell", [b, s]),
                          Deliver("3", 3, 2, "buy", [b, s, late])];
            var t := Ingest(map["7" := Account("a", "7", Some(0))], feeds);
            && Lists([b, s, late], t.deals, "a", "P") && PR.LifecycleOf([b, s, late]).Open?
            && Key("a", "P") in t.positions
  {
    var registry := map["7" := Account("a", "7", Some(0))];
    var b, s, late := LotOf("1", 1, 1000, "buy"), LotOf("2", 2, 3000, "sell"), LotOf("3", 3, 2000, "buy");
    DeliverDelivers("1", 1, 1, "buy", [b]);
    DeliverDelivers("2", 2, 3, "sell", [b, s]);
    DeliverDelivers("3", 3, 2, "buy", [b, s, late]);
    LateDealLeavesRow(registry, "a", "P", "1", "2", "3", b, s, late, Deliver("1", 1, 1, "buy", [b]),
                      Deliver("2", 2, 3, "sell", [b, s]), Deliver("3", 3, 2, "buy", [b, s, late]));
  }
}
