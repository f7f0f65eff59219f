/**
  The handler of the history stream: stores each deal and order once per ticket
  and rebuilds the position a deal belongs to, inside one transaction.
 */
module HistoryConsumer {
  import opened Wrappers
  import PositionReconstructor
  import opened Sequences

  type Deal = PositionReconstructor.Deal
  type Lifecycle = PositionReconstructor.Lifecycle
  type Fields = PositionReconstructor.Fields

  datatype Account = Account(id: string, accountNo: string, offsetMinutes: Option<int>)

  type Registry = map<string, Account>

  /** A raw deal: its time is in epoch seconds. The remaining field checks are one flag. */
  datatype DealRecord = DealRecord(positionId: Option<string>, deal: Deal, fieldsOk: bool)

  /** A raw order: its times are in epoch seconds. What is stored as it is listed is one number. */
  datatype OrderRecord = OrderRecord(
    ticket: string, timeSetup: Option<int>, timeDone: Option<int>, timeExpiration: Option<int>,
    volumeInitial: Option<real>, volumeCurrent: Option<real>, body: nat, fieldsOk: bool)

  datatype Event =
    | MalformedEnvelope
    | WindowMarker
    | UnexpectedType
    | DealEvent(login: string, dealRecord: DealRecord)
    | OrderEvent(login: string, orderRecord: OrderRecord)

  datatype Key = Key(account: string, no: string)

  datatype DealRow = DealRow(positionId: Option<string>, deal: Deal)

  datatype OrderRow = OrderRow(
    timeSetup: Option<int>, timeDone: Option<int>, timeExpiration: Option<int>, volume: Option<real>, body: nat)

  datatype Tables = Tables(deals: map<Key, DealRow>, orders: map<Key, OrderRow>, positions: map<Key, Fields>)

  datatype Outcome = ACK | LEAVE_PENDING

  predicate ValidDeal(login: string, r: DealRecord, accountNo: string) {
    login == accountNo && r.deal.dealNo.text != "" && r.fieldsOk && PositionReconstructor.Volume(r.deal) >= 0.0
  }

  predicate Unsigned(volume: Option<real>) {
    volume.Some? ==> volume.value >= 0.0
  }

  predicate ValidOrder(login: string, r: OrderRecord, accountNo: string) {
    && login == accountNo && r.ticket != "" && r.fieldsOk
    && (r.timeSetup.Some? || r.timeDone.Some?)
    && Unsigned(r.volumeInitial) && Unsigned(r.volumeCurrent)
  }

  /** Epoch seconds on the clock of the broker, as UTC milliseconds. */
  function UtcMillis(seconds: int, offsetMinutes: int): int {
    seconds * 1000 - offsetMinutes * 60 * 1000
  }

  function UtcIfAny(seconds: Option<int>, offsetMinutes: int): Option<int> {
    if seconds.Some? then Some(UtcMillis(seconds.value, offsetMinutes)) else None
  }

  function MapDeal(r: DealRecord, offsetMinutes: int): DealRow {
    DealRow(r.positionId, r.deal.(time := UtcMillis(r.deal.time, offsetMinutes)))
  }

  /** No expiration is given as zero; the volume of an order is its initial one. */
  function MapOrder(r: OrderRecord, offsetMinutes: int): OrderRow {
    OrderRow(
      UtcIfAny(r.timeSetup, offsetMinutes), UtcIfAny(r.timeDone, offsetMinutes),
      if r.timeExpiration.Some? && r.timeExpiration.value > 0 then UtcIfAny(r.timeExpiration, offsetMinutes) else None,
      if r.volumeInitial.Some? then r.volumeInitial else r.volumeCurrent, r.body)
  }

  /** The account that is ready to store events of this login. */
  function Ready(registry: Registry, login: string): Option<Account> {
    if login in registry && registry[login].offsetMinutes.Some? then Some(registry[login]) else None
  }

  datatype Upsert<R> = Upsert(key: Key, row: R)

  /** The row a well-formed deal event stands for. */
  function DealOf(registry: Registry, e: Event): Option<Upsert<DealRow>> {
    if !e.DealEvent? then None
    else
      match Ready(registry, e.login)
      case None => None
      case Some(a) =>
        if ValidDeal(e.login, e.dealRecord, a.accountNo)
        then Some(Upsert(Key(a.id, e.dealRecord.deal.dealNo.text), MapDeal(e.dealRecord, a.offsetMinutes.value)))
        else None
  }

  function OrderOf(registry: Registry, e: Event): Option<Upsert<OrderRow>> {
    if !e.OrderEvent? then None
    else
      match Ready(registry, e.login)
      case None => None
      case Some(a) =>
        if ValidOrder(e.login, e.orderRecord, a.accountNo)
        then Some(Upsert(Key(a.id, e.orderRecord.ticket), MapOrder(e.orderRecord, a.offsetMinutes.value)))
        else None
  }

  // ---------------------------------------------------------------------
  // The deals of one position
  // ---------------------------------------------------------------------

  ghost function GroupSet(deals: map<Key, DealRow>, account: string, positionId: string): set<Deal> {
    set k | k in deals && k.account == account && deals[k].positionId == Some(positionId) :: deals[k].deal
  }

  /** An answer of the query for the deals of a position, in whatever order. */
  ghost predicate Lists(rows: seq<Deal>, deals: map<Key, DealRow>, account: string, positionId: string) {
    Distinct(rows) && forall d :: d in rows <==> d in GroupSet(deals, account, positionId)
  }

  predicate HasPosition(row: DealRow) {
    row.positionId.Some? && row.positionId.value != ""
  }

  // ---------------------------------------------------------------------
  // One event
  // ---------------------------------------------------------------------

  /** The transaction of one deal, given what the query inside it answers. */
  function StoreDeal(t: Tables, u: Upsert<DealRow>, rows: seq<Deal>, dbOk: bool): (Tables, Outcome) {
    var stored := t.(deals := t.deals[u.key := u.row]);
    if !dbOk then (t, LEAVE_PENDING)
    else if !HasPosition(u.row) then (stored, ACK)
    else
      match PositionReconstructor.LifecycleOf(rows)
      case Corrupted(_, _) => (t, LEAVE_PENDING)
      case AmbiguousReopen(_) => (t, LEAVE_PENDING)
      case Closed(fields) =>
        (stored.(positions := stored.positions[Key(u.key.account, u.row.positionId.value) := fields]), ACK)
      case _ => (stored, ACK)
  }

  function StoreOrder(t: Tables, u: Upsert<OrderRow>, dbOk: bool): (Tables, Outcome) {
    if dbOk then (t.(orders := t.orders[u.key := u.row]), ACK) else (t, LEAVE_PENDING)
  }

  function Handled(t: Tables, registry: Registry, e: Event, rows: seq<Deal>, dbOk: bool): (Tables, Outcome) {
    if !e.DealEvent? && !e.OrderEvent? then (t, ACK)
    else if Ready(registry, e.login) == None then (t, LEAVE_PENDING)
    else if DealOf(registry, e).Some? then StoreDeal(t, DealOf(registry, e).value, rows, dbOk)
    else if OrderOf(registry, e).Some? then StoreOrder(t, OrderOf(registry, e).value, dbOk)
    else (t, ACK)
  }

  ghost predicate RowsOk(deals: map<Key, DealRow>) {
    forall k | k in deals ::
      deals[k].deal.dealNo.text == k.no && PositionReconstructor.Volume(deals[k].deal) >= 0.0
  }

  class Database {
    var deals: map<Key, DealRow>
    var orders: map<Key, OrderRow>
    var positions: map<Key, Fields>

    ghost function State(): Tables
      reads this
    {
      Tables(deals, orders, positions)
    }

    /** Rows sit under their own ticket, and no volume is negative. */
    ghost predicate Valid()
      reads this
    {
      RowsOk(deals)
    }

    constructor ()
      ensures Valid() && State() == Tables(map[], map[], map[])
    {
      deals, orders, positions := map[], map[], map[];
    }

    method FindDeals(account: string, positionId: string) returns (rows: seq<Deal>)
      requires Valid()
      ensures Lists(rows, deals, account, positionId) && PositionReconstructor.NonNegative(rows)
    {
      rows := [];
      var left := deals.Keys;
      while left != {}
        invariant left <= deals.Keys && Distinct(rows)
        invariant forall d | d in rows :: Key(account, d.dealNo.text) in deals.Keys - left
        invariant forall d :: d in rows <==>
                    exists k | k in deals.Keys - left && k.account == account && deals[k].positionId == Some(positionId) ::
                      deals[k].deal == d
        decreases left
      {
        var k :| k in left;
        if k.account == account && deals[k].positionId == Some(positionId) {
          rows := rows + [deals[k].deal];
        }
        left := left - {k};
      }
    }

    /** Stores one event, or leaves it pending. */
    method Handle(registry: Registry, e: Event, dbOk: bool) returns (outcome: Outcome, ghost rows: seq<Deal>)
      requires Valid()
      modifies this
      ensures Valid()
      ensures (State(), outcome) == Handled(old(State()), registry, e, rows, dbOk)
      ensures forall u: Upsert<DealRow> | DealOf(registry, e) == Some(u) && HasPosition(u.row) ::
                Lists(rows, old(deals)[u.key := u.row], u.key.account, u.row.positionId.value)
    {
      rows := [];
      if !e.DealEvent? && !e.OrderEvent? {
        return ACK, rows;
      }
      var account := Ready(registry, e.login);
      if account.None? {
        return LEAVE_PENDING, rows;
      }
      if e.DealEvent? {
        var u := DealOf(registry, e);
        if u.None? {
          return ACK, rows;
        }
        outcome, rows := HandleDeal(u.value, dbOk);
      } else {
        var u := OrderOf(registry, e);
        if u.None? {
          return ACK, rows;
        }
        if !dbOk {
          return LEAVE_PENDING, rows;
        }
        orders := orders[u.value.key := u.value.row];
        outcome := ACK;
      }
    }

    method HandleDeal(u: Upsert<DealRow>, dbOk: bool) returns (outcome: Outcome, ghost rows: seq<Deal>)
      requires Valid() && RowsOk(map[u.key := u.row])
      modifies this
      ensures Valid()
      ensures (State(), outcome) == StoreDeal(old(State()), u, rows, dbOk)
      ensures HasPosition(u.row) ==> Lists(rows, old(deals)[u.key := u.row], u.key.account, u.row.positionId.value)
    {
      var before, positionsBefore := deals, positions;
      deals := deals[u.key := u.row];
      rows := [];
      if HasPosition(u.row) {
        var found := FindDeals(u.key.account, u.row.positionId.value);
        rows := found;
        if dbOk {
          var r := PositionReconstructor.ComputePositionLifecycle(found);
          if r.Corrupted? || r.AmbiguousReopen? {
            deals := before;
            return LEAVE_PENDING, rows;
          }
          if r.Closed? {
            positions := positions[Key(u.key.account, u.row.positionId.value) := r.fields];
          }
          return ACK, rows;
        }
      }
      if !dbOk {
        deals := before;
        return LEAVE_PENDING, rows;
      }
      outcome := ACK;
    }
  }

  /** Polls the registry and starts one consumer loop for each login, the first time it is seen. */
  method RunFleet(polls: seq<set<string>>) returns (started: seq<string>)
    ensures Distinct(started)
    ensures forall login :: login in started <==> exists i | 0 <= i < |polls| :: login in polls[i]
  {
    started := [];
    var active: set<string> := {};
    for i := 0 to |polls|
      invariant Distinct(started) && forall login :: login in started <==> login in active
      invariant forall login :: login in active <==> exists k | 0 <= k < i :: login in polls[k]
    {
      var left := polls[i];
      while left != {}
        invariant left <= polls[i]
        invariant Distinct(started) && forall login :: login in started <==> login in active
        invariant forall login :: login in active <==>
                    login in polls[i] - left || exists k | 0 <= k < i :: login in polls[k]
        decreases left
      {
        var login :| login in left;
        if login !in active {
          active := active + {login};
          started := started + [login];
        }
        left := left - {login};
      }
    }
  }
}
