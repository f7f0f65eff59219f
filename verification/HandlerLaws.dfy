/** The handler in terms of the records it is given: what is stored, how it is stored, and what is left. */
module HandlerLaws {
  import opened Wrappers
  import opened HistoryConsumer
  import opened IngestionLaws
  import PositionReconstructor

  // ---------------------------------------------------------------------
  // Records and rows
  // ---------------------------------------------------------------------

  /** The account of the login is known and its broker's offset is configured. */
  predicate Configured(registry: Registry, login: string) {
    login in registry && registry[login].offsetMinutes.Some?
  }

  /** A deal of its own account, with a ticket, well-typed fields and no negative volume. */
  predicate GoodDeal(registry: Registry, e: Event) {
    && e.DealEvent? && Configured(registry, e.login) && e.login == registry[e.login].accountNo
    && e.dealRecord.deal.dealNo.text != "" && e.dealRecord.fieldsOk
    && (e.dealRecord.deal.volume.Some? ==> e.dealRecord.deal.volume.value >= 0.0)
  }

  /** An order of its own account, with a ticket, a time, well-typed fields and no negative volume. */
  predicate GoodOrder(registry: Registry, e: Event) {
    && e.OrderEvent? && Configured(registry, e.login) && e.login == registry[e.login].accountNo
    && e.orderRecord.ticket != "" && e.orderRecord.fieldsOk
    && (e.orderRecord.timeSetup != None || e.orderRecord.timeDone != None)
    && (e.orderRecord.volumeInitial.Some? ==> e.orderRecord.volumeInitial.value >= 0.0)
    && (e.orderRecord.volumeCurrent.Some? ==> e.orderRecord.volumeCurrent.value >= 0.0)
  }

  /** The stored time is the broker's time in milliseconds, less its offset from UTC. */
  predicate SameInstant(seconds: int, offsetMinutes: int, stored: int) {
    stored + offsetMinutes * 60000 == 1000 * seconds
  }

  predicate SameInstantIfAny(seconds: Option<int>, offsetMinutes: int, stored: Option<int>) {
    && (stored.Some? <==> seconds.Some?)
    && (seconds.Some? ==> SameInstant(seconds.value, offsetMinutes, stored.value))
  }

  /** The row is the deal as it was listed, but for its time. */
  predicate KeepsDeal(r: DealRecord, offsetMinutes: int, row: DealRow) {
    && row.positionId == r.positionId
    && SameInstant(r.deal.time, offsetMinutes, row.deal.time)
    && row.deal.(time := r.deal.time) == r.deal
  }

  predicate KeepsOrder(r: OrderRecord, offsetMinutes: int, row: OrderRow) {
    && SameInstantIfAny(r.timeSetup, offsetMinutes, row.timeSetup)
    && SameInstantIfAny(r.timeDone, offsetMinutes, row.timeDone)
    && (row.timeExpiration.Some? <==> r.timeExpiration.Some? && r.timeExpiration.value > 0)
    && (row.timeExpiration.Some? ==> SameInstant(r.timeExpiration.value, offsetMinutes, row.timeExpiration.value))
    && row.volume == (if r.volumeInitial != None then r.volumeInitial else r.volumeCurrent)
    && row.body == r.body
  }

  function DealKey(registry: Registry, e: Event): Key
    requires e.DealEvent? && e.login in registry
  {
    Key(registry[e.login].id, e.dealRecord.deal.dealNo.text)
  }

  function OrderKey(registry: Registry, e: Event): Key
    requires e.OrderEvent? && e.login in registry
  {
    Key(registry[e.login].id, e.orderRecord.ticket)
  }

  // ---------------------------------------------------------------------
  // One event
  // ---------------------------------------------------------------------

  /** The position of the deal would be corrupted or reopened. */
  predicate Unrepresentable(e: Event, rows: seq<Deal>)
    requires e.DealEvent?
  {
    && e.dealRecord.positionId != None && e.dealRecord.positionId != Some("")
    && (PositionReconstructor.LifecycleOf(rows).Corrupted? || PositionReconstructor.LifecycleOf(rows).AmbiguousReopen?)
  }

  predicate DealStored(registry: Registry, t: Tables, f: Feed, after: Tables, row: DealRow)
    requires GoodDeal(registry, f.event)
  {
    var e := f.event;
    var account, positionId := registry[e.login], e.dealRecord.positionId;
    && KeepsDeal(e.dealRecord, account.offsetMinutes.value, row)
    && after.deals == t.deals[DealKey(registry, e) := row] && after.orders == t.orders
    && after.positions
       == if positionId != None && positionId != Some("") && PositionReconstructor.LifecycleOf(f.rows).Closed?
          then t.positions[Key(account.id, positionId.value) := PositionReconstructor.LifecycleOf(f.rows).fields]
          else t.positions
  }

  predicate OrderStored(registry: Registry, t: Tables, f: Feed, after: Tables, row: OrderRow)
    requires GoodOrder(registry, f.event)
  {
    && KeepsOrder(f.event.orderRecord, registry[f.event.login].offsetMinutes.value, row)
    && after == t.(orders := t.orders[OrderKey(registry, f.event) := row])
  }

  /**
    What one event comes to: anything but a deal or an order is acknowledged, and so is a bad
    record; an account that is not configured, a failing database and a position that cannot be
    represented leave it pending; nothing of this changes a table. Any other deal or order is
    acknowledged and stored under its account and ticket.
   */
  lemma HandledExactly(registry: Registry, t: Tables, f: Feed) returns (deal: Option<DealRow>, order: Option<OrderRow>)
    ensures var (after, outcome) := Handled(t, registry, f.event, f.rows, f.dbOk);
            var e := f.event;
            if !e.DealEvent? && !e.OrderEvent? then after == t && outcome == ACK
            else if !Configured(registry, e.login) then after == t && outcome == LEAVE_PENDING
            else if !GoodDeal(registry, e) && !GoodOrder(registry, e) then after == t && outcome == ACK
            else if !f.dbOk || (e.DealEvent? && Unrepresentable(e, f.rows)) then after == t && outcome == LEAVE_PENDING
            else
              && outcome == ACK
              && (e.DealEvent? ==> deal.Some? && DealStored(registry, t, f, after, deal.value))
              && (e.OrderEvent? ==> order.Some? && OrderStored(registry, t, f, after, order.value))
  {
    var e := f.event;
    deal, order := None, None;
    if GoodDeal(registry, e) {
      var row := GoodDealHandled(registry, t, f);
      deal := Some(row);
    } else if GoodOrder(registry, e) {
      var row := GoodOrderHandled(registry, t, f);
      order := Some(row);
    }
  }

  lemma GoodDealHandled(registry: Registry, t: Tables, f: Feed) returns (row: DealRow)
    requires GoodDeal(registry, f.event)
    ensures var (after, outcome) := Handled(t, registry, f.event, f.rows, f.dbOk);
            if !f.dbOk || Unrepresentable(f.event, f.rows) then after == t && outcome == LEAVE_PENDING
            else outcome == ACK && DealStored(registry, t, f, after, row)
  {
    row := MapDeal(f.event.dealRecord, registry[f.event.login].offsetMinutes.value);
  }

  lemma GoodOrderHandled(registry: Registry, t: Tables, f: Feed) returns (row: OrderRow)
    requires GoodOrder(registry, f.event)
    ensures var (after, outcome) := Handled(t, registry, f.event, f.rows, f.dbOk);
            if !f.dbOk then after == t && outcome == LEAVE_PENDING
            else outcome == ACK && OrderStored(registry, t, f, after, row)
  {
    row := MapOrder(f.event.orderRecord, registry[f.event.login].offsetMinutes.value);
  }

  // ---------------------------------------------------------------------
  // Runs
  // ---------------------------------------------------------------------

  /** The n-th feed was a good deal of this key, and was acknowledged. */
  ghost predicate DealAckedAt(registry: Registry, feeds: seq<Feed>, n: nat, k: Key) {
    && n < |feeds| && GoodDeal(registry, feeds[n].event) && k == DealKey(registry, feeds[n].event)
    && Acks(registry, Ingest(registry, feeds[..n]), feeds[n])
  }

  lemma AckedInPrefix(registry: Registry, feeds: seq<Feed>, m: nat, n: nat, k: Key)
    requires n < m <= |feeds|
    ensures DealAckedAt(registry, feeds[..m], n, k) <==> DealAckedAt(registry, feeds, n, k)
  {
    assert feeds[..m][..n] == feeds[..n];
  }

  /** A deal row is stored by the last acknowledged deal of its key, and there is one for every such deal. */
  ghost predicate LastDeal(registry: Registry, feeds: seq<Feed>, k: Key, n: nat, row: DealRow) {
    && DealAckedAt(registry, feeds, n, k)
    && KeepsDeal(feeds[n].event.dealRecord, registry[feeds[n].event.login].offsetMinutes.value, row)
    && forall m: nat | n < m :: !DealAckedAt(registry, feeds, m, k)
  }

  lemma LastDealStays(registry: Registry, feeds: seq<Feed>, m: nat, k: Key, n: nat, row: DealRow)
    requires |feeds| == m + 1 && LastDeal(registry, feeds[..m], k, n, row) && !DealAckedAt(registry, feeds, m, k)
    ensures LastDeal(registry, feeds, k, n, row)
  {
    AckedInPrefix(registry, feeds, m, n, k);
    forall l: nat | n < l ensures !DealAckedAt(registry, feeds, l, k) {
      if l < m {
        AckedInPrefix(registry, feeds, m, l, k);
      }
    }
  }

  lemma StoredByLast(registry: Registry, t: Tables, f: Feed, k: Key)
    ensures var after := Handled(t, registry, f.event, f.rows, f.dbOk).0;
            if GoodDeal(registry, f.event) && k == DealKey(registry, f.event) && Acks(registry, t, f)
            then k in after.deals
                 && KeepsDeal(f.event.dealRecord, registry[f.event.login].offsetMinutes.value, after.deals[k])
            else (k in after.deals <==> k in t.deals) && (k in t.deals ==> after.deals[k] == t.deals[k])
  {
    var _, _ := HandledExactly(registry, t, f);
  }

  /**
    After any deliveries of any events, in any order: a deal row is there exactly when a good
    deal of its account and ticket was acknowledged, and it is the last such deal as listed,
    but for its time, which is the broker's time less the account's offset.
   */
  lemma {:induction false} StoredDealsExactly(registry: Registry, feeds: seq<Feed>, k: Key) returns (n: nat)
    ensures if k in Ingest(registry, feeds).deals then LastDeal(registry, feeds, k, n, Ingest(registry, feeds).deals[k])
            else forall m: nat :: !DealAckedAt(registry, feeds, m, k)
    decreases |feeds|
  {
    n := 0;
    if feeds != [] {
      var m := |feeds| - 1;
      var t := Ingest(registry, feeds[..m]);
      n := StoredDealsExactly(registry, feeds[..m], k);
      StoredByLast(registry, t, feeds[m], k);
      if DealAckedAt(registry, feeds, m, k) {
        n := m;
      } else if k in t.deals {
        LastDealStays(registry, feeds, m, k, n, t.deals[k]);
      } else {
        forall l: nat ensures !DealAckedAt(registry, feeds, l, k) {
          if l < m {
            AckedInPrefix(registry, feeds, m, l, k);
          }
        }
      }
    }
  }

  /** Two stored deals of one login are as far apart, in the same order, as they were listed. */
  lemma DistancesKept(registry: Registry, feeds: seq<Feed>, j: Key, k: Key) returns (m: nat, n: nat)
    requires j in Ingest(registry, feeds).deals && k in Ingest(registry, feeds).deals
    ensures DealAckedAt(registry, feeds, m, j) && DealAckedAt(registry, feeds, n, k)
    ensures feeds[m].event.login == feeds[n].event.login ==>
              var deals := Ingest(registry, feeds).deals;
              deals[j].deal.time - deals[k].deal.time
              == 1000 * (feeds[m].event.dealRecord.deal.time - feeds[n].event.dealRecord.deal.time)
  {
    m := StoredDealsExactly(registry, feeds, j);
    n := StoredDealsExactly(registry, feeds, k);
  }
}
