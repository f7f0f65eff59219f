/**
  Every field of a closed position in terms of its deals in time and ticket order,
  read off the running exposure.
 */
module PositionFields {
  import opened Wrappers
  import opened Sorting
  import opened PositionReconstructor
  import opened PositionLaws

  // ---------------------------------------------------------------------
  // The order of the deals
  // ---------------------------------------------------------------------

  /** The ticket as a number, or 0 when its text is none. */
  function Number(d: Deal): int {
    if d.dealNo.value.Some? then d.dealNo.value.value else 0
  }

  /** These are the deals by time, and by ticket at equal times. */
  ghost predicate InTimeOrder(deals: seq<Deal>, rawDeals: seq<Deal>) {
    && multiset(deals) == multiset(rawDeals)
    && forall i, j | 0 <= i < j < |deals| ::
         deals[i].time < deals[j].time || (deals[i].time == deals[j].time && Number(deals[i]) <= Number(deals[j]))
  }

  lemma SortedInTimeOrder(rawDeals: seq<Deal>)
    ensures InTimeOrder(SortDeals(rawDeals), rawDeals)
  {
    var s := SortDeals(rawDeals);
    ByKeyPreorder(SortKey);
    SortSorted(rawDeals, ByKey(SortKey));
    forall i, j | 0 <= i < j < |s|
      ensures s[i].time < s[j].time || (s[i].time == s[j].time && Number(s[i]) <= Number(s[j]))
    {
      var x, y := SortKey(s[i]), SortKey(s[j]);
      assert ByKey(SortKey)(s[i], s[j]) && LexLe(x, y);
      assert x == [s[i].time, Number(s[i])] && y == [s[j].time, Number(s[j])];
      assert LexLe(x[1..], y[1..]) ==> x[1] <= y[1];
    }
  }

  // ---------------------------------------------------------------------
  // The exposure
  // ---------------------------------------------------------------------

  function Lots(d: Deal): real {
    if d.volume.Some? then d.volume.value else 0.0
  }

  /** What the deals bought less what they sold. */
  function Flow(deals: seq<Deal>): real {
    if deals == [] then 0.0
    else
      var n := |deals| - 1;
      Flow(deals[..n])
      + (if deals[n].kind == "buy" then Lots(deals[n]) else if deals[n].kind == "sell" then -Lots(deals[n]) else 0.0)
  }

  function Size(x: real): real {
    if x < 0.0 then -x else x
  }

  /** By how much the last deal enlarged the exposure. */
  function Growth(deals: seq<Deal>): real
    requires deals != []
  {
    Size(Flow(deals)) - Size(Flow(deals[..|deals| - 1]))
  }

  /** The part of the last deal that opened exposure: half of what it traded and enlarged. */
  function OpeningLots(deals: seq<Deal>): real
    requires deals != []
  {
    (Lots(deals[|deals| - 1]) + Growth(deals)) / 2.0
  }

  /** The part of it that closed exposure. */
  function ClosingLots(deals: seq<Deal>): real
    requires deals != []
  {
    (Lots(deals[|deals| - 1]) - Growth(deals)) / 2.0
  }

  /** Some lots of a deal, when it has a price, and what they cost. */
  function PricedLots(d: Deal, lots: real): real {
    if d.price.Some? then lots else 0.0
  }

  function Cost(d: Deal, lots: real): real {
    if d.price.Some? then d.price.value * lots else 0.0
  }

  function Opened(deals: seq<Deal>): real {
    if deals == [] then 0.0 else Opened(deals[..|deals| - 1]) + OpeningLots(deals)
  }

  function OpenedPriced(deals: seq<Deal>): real {
    if deals == [] then 0.0
    else OpenedPriced(deals[..|deals| - 1]) + PricedLots(deals[|deals| - 1], OpeningLots(deals))
  }

  function OpenedCost(deals: seq<Deal>): real {
    if deals == [] then 0.0
    else OpenedCost(deals[..|deals| - 1]) + Cost(deals[|deals| - 1], OpeningLots(deals))
  }

  function ClosedPriced(deals: seq<Deal>): real {
    if deals == [] then 0.0
    else ClosedPriced(deals[..|deals| - 1]) + PricedLots(deals[|deals| - 1], ClosingLots(deals))
  }

  function ClosedCost(deals: seq<Deal>): real {
    if deals == [] then 0.0
    else ClosedCost(deals[..|deals| - 1]) + Cost(deals[|deals| - 1], ClosingLots(deals))
  }

  function Earned(deals: seq<Deal>): real {
    if deals == [] then 0.0 else Earned(deals[..|deals| - 1]) + deals[|deals| - 1].profit
  }

  function Commissions(deals: seq<Deal>): real {
    if deals == [] then 0.0 else Commissions(deals[..|deals| - 1]) + deals[|deals| - 1].commission
  }

  function Swaps(deals: seq<Deal>): real {
    if deals == [] then 0.0 else Swaps(deals[..|deals| - 1]) + deals[|deals| - 1].swap
  }

  function Fees(deals: seq<Deal>): real {
    if deals == [] then 0.0 else Fees(deals[..|deals| - 1]) + deals[|deals| - 1].fee
  }

  // ---------------------------------------------------------------------
  // The sums of the reconstruction
  // ---------------------------------------------------------------------

  /** A deal that has no volume, or has a positive one and a known type. */
  predicate Plain(d: Deal) {
    Volume(d) == 0.0 || (Volume(d) > 0.0 && SideOf(d) != None)
  }

  predicate AllPlain(deals: seq<Deal>) {
    forall i | 0 <= i < |deals| :: Plain(deals[i])
  }

  lemma Halves(net: real, d: Deal)
    requires Volume(d) > 0.0 && SideOf(d) != None
    ensures EntryPart(net, d) == (Volume(d) + (Size(net + Signed(d)) - Size(net))) / 2.0
    ensures ExitPart(net, d) == (Volume(d) - (Size(net + Signed(d)) - Size(net))) / 2.0
  {
  }

  /** The sums of the specification over the walk are those read off the exposure. */
  predicate Agree(v: seq<Deal>, deals: seq<Deal>) {
    && Net(v) == Flow(deals)
    && Entries(Unit, v) == Opened(deals)
    && Entries(Priced, v) == OpenedPriced(deals) && Entries(Notional, v) == OpenedCost(deals)
    && Exits(Priced, v) == ClosedPriced(deals) && Exits(Notional, v) == ClosedCost(deals)
  }

  lemma {:induction false} PartsAre(before: seq<Deal>, deals: seq<Deal>, n: nat)
    requires |deals| == n + 1 && Plain(deals[n]) && Volume(deals[n]) != 0.0 && Net(before) == Flow(deals[..n])
    ensures EntryPart(Net(before), deals[n]) == OpeningLots(deals)
    ensures ExitPart(Net(before), deals[n]) == ClosingLots(deals)
  {
    FlowNext(deals, n);
    Halves(Net(before), deals[n]);
    assert Lots(deals[n]) == Volume(deals[n]);
  }

  lemma {:induction false} SumsGrow(deals: seq<Deal>, n: nat)
    requires |deals| == n + 1
    ensures var x, y := OpeningLots(deals), ClosingLots(deals);
            && Opened(deals) == Opened(deals[..n]) + x
            && OpenedPriced(deals) == OpenedPriced(deals[..n]) + PricedLots(deals[n], x)
            && OpenedCost(deals) == OpenedCost(deals[..n]) + Cost(deals[n], x)
            && ClosedPriced(deals) == ClosedPriced(deals[..n]) + PricedLots(deals[n], y)
            && ClosedCost(deals) == ClosedCost(deals[..n]) + Cost(deals[n], y)
  {
  }

  lemma WeighIs(d: Deal, x: real)
    ensures Weigh(Unit, d, x) == x && Weigh(Priced, d, x) == PricedLots(d, x) && Weigh(Notional, d, x) == Cost(d, x)
  {
  }

  lemma {:induction false} WalkGrows(before: seq<Deal>, d: Deal, v: seq<Deal>, x: real, y: real)
    requires v == before + [d] && x == EntryPart(Net(before), d) && y == ExitPart(Net(before), d)
    ensures Net(v) == Net(before) + Signed(d)
    ensures Entries(Unit, v) == Entries(Unit, before) + x
    ensures Entries(Priced, v) == Entries(Priced, before) + PricedLots(d, x)
    ensures Entries(Notional, v) == Entries(Notional, before) + Cost(d, x)
    ensures Exits(Priced, v) == Exits(Priced, before) + PricedLots(d, y)
    ensures Exits(Notional, v) == Exits(Notional, before) + Cost(d, y)
  {
    Extended(before, d);
    WeighIs(d, x);
    WeighIs(d, y);
  }

  lemma TradeAgrees(before: seq<Deal>, v: seq<Deal>, deals: seq<Deal>, n: nat)
    requires |deals| == n + 1 && Plain(deals[n]) && Volume(deals[n]) != 0.0
    requires Agree(before, deals[..n]) && v == before + [deals[n]]
    ensures Agree(v, deals)
  {
    FlowNext(deals, n);
    PartsAre(before, deals, n);
    SumsGrow(deals, n);
    WalkGrows(before, deals[n], v, OpeningLots(deals), ClosingLots(deals));
  }

  lemma IdleAgrees(v: seq<Deal>, deals: seq<Deal>, n: nat)
    requires |deals| == n + 1 && Volume(deals[n]) == 0.0 && Agree(v, deals[..n])
    ensures Agree(v, deals)
  {
    NothingMoves(deals, n);
    SumsGrow(deals, n);
  }

  lemma {:induction false} SumsAgree(deals: seq<Deal>)
    requires AllPlain(deals)
    ensures Agree(Carrying(deals), deals)
    decreases |deals|
  {
    if deals != [] {
      var n := |deals| - 1;
      SumsAgree(deals[..n]);
      assert Plain(deals[n]);
      if Volume(deals[n]) == 0.0 {
        IdleAgrees(Carrying(deals[..n]), deals, n);
        assert Carrying(deals) == Carrying(deals[..n]);
      } else {
        TradeAgrees(Carrying(deals[..n]), Carrying(deals), deals, n);
      }
    }
  }

  lemma {:induction false} FlowNext(deals: seq<Deal>, n: nat)
    requires |deals| == n + 1 && Plain(deals[n])
    ensures Flow(deals) == Flow(deals[..n]) + Signed(deals[n])
  {
  }

  lemma {:induction false} NothingMoves(deals: seq<Deal>, n: nat)
    requires |deals| == n + 1 && Volume(deals[n]) == 0.0
    ensures OpeningLots(deals) == 0.0 && ClosingLots(deals) == 0.0 && Flow(deals) == Flow(deals[..n])
  {
    assert Lots(deals[n]) == 0.0;
  }

  lemma {:induction false} MoneyAgrees(deals: seq<Deal>)
    ensures Total(GrossProfit, deals) == Earned(deals) && Total(Commission, deals) == Commissions(deals)
    ensures Total(Swap, deals) == Swaps(deals) && Total(Fee, deals) == Fees(deals)
    decreases |deals|
  {
    if deals != [] {
      MoneyAgrees(deals[..|deals| - 1]);
    }
  }

  // ---------------------------------------------------------------------
  // First and last deals
  // ---------------------------------------------------------------------

  /** The first deal that trades. */
  predicate FirstTrade(deals: seq<Deal>, a: int) {
    0 <= a < |deals| && Lots(deals[a]) != 0.0 && forall i | 0 <= i < a :: Lots(deals[i]) == 0.0
  }

  /** The last one. */
  predicate LastTrade(deals: seq<Deal>, b: int) {
    0 <= b < |deals| && Lots(deals[b]) != 0.0 && forall i | b < i < |deals| :: Lots(deals[i]) == 0.0
  }

  lemma {:induction false} NoTrades(deals: seq<Deal>)
    requires forall i | 0 <= i < |deals| :: Lots(deals[i]) == 0.0
    ensures Carrying(deals) == []
  {
    if deals != [] {
      assert Lots(deals[|deals| - 1]) == 0.0;
      NoTrades(deals[..|deals| - 1]);
    }
  }

  lemma {:induction false} WalkEnds(deals: seq<Deal>) returns (a: int, b: int)
    requires Carrying(deals) != []
    ensures FirstTrade(deals, a) && LastTrade(deals, b) && a <= b
    ensures Carrying(deals)[0] == deals[a] && Carrying(deals)[|Carrying(deals)| - 1] == deals[b]
    decreases |deals|
  {
    var n := |deals| - 1;
    var before := Carrying(deals[..n]);
    if before == [] {
      a, b := n, n;
      forall i | 0 <= i < n ensures Lots(deals[i]) == 0.0 {
        CarryingMembers(deals[..n]);
        assert deals[..n][i] in deals[..n];
      }
      assert Lots(deals[n]) == Volume(deals[n]);
    } else {
      a, b := WalkEnds(deals[..n]);
      if Volume(deals[n]) != 0.0 {
        b := n;
      }
      assert Lots(deals[n]) == Volume(deals[n]);
    }
  }

  /** The symbol is the last one that is given and not empty. */
  predicate LastNamed(deals: seq<Deal>, symbol: string) {
    exists k :: 0 <= k < |deals| && deals[k].symbol == Some(symbol) && symbol != ""
      && forall i | k < i < |deals| :: deals[i].symbol == None || deals[i].symbol == Some("")
  }

  /** The magic number is the first one that is given, if any is. */
  predicate FirstNumbered(deals: seq<Deal>, magic: Option<int>) {
    match magic
    case None => forall i | 0 <= i < |deals| :: deals[i].magic == None
    case Some(_) => exists k :: 0 <= k < |deals| && deals[k].magic == magic && forall i | 0 <= i < k :: deals[i].magic == None
  }

  lemma {:induction false} SymbolIs(deals: seq<Deal>)
    ensures LastSymbol(deals).Some? ==> LastNamed(deals, LastSymbol(deals).value)
    ensures LastSymbol(deals).None? ==> forall i | 0 <= i < |deals| :: deals[i].symbol == None || deals[i].symbol == Some("")
    decreases |deals|
  {
    if deals != [] {
      var n := |deals| - 1;
      SymbolIs(deals[..n]);
      if deals[n].symbol.Some? && deals[n].symbol.value != "" {
        assert deals[n].symbol == Some(LastSymbol(deals).value);
      } else if LastSymbol(deals).Some? {
        var k :| 0 <= k < n && deals[..n][k].symbol == Some(LastSymbol(deals).value)
          && forall i | k < i < n :: deals[..n][i].symbol == None || deals[..n][i].symbol == Some("");
        assert deals[k].symbol == Some(LastSymbol(deals).value);
        forall i | k < i < |deals| ensures deals[i].symbol == None || deals[i].symbol == Some("") {
          assert i < n ==> deals[..n][i].symbol == deals[i].symbol;
        }
      }
    }
  }

  lemma {:induction false} MagicIs(deals: seq<Deal>)
    ensures FirstNumbered(deals, FirstMagic(deals))
    decreases |deals|
  {
    if deals != [] {
      var n := |deals| - 1;
      MagicIs(deals[..n]);
      if FirstMagic(deals[..n]).Some? {
        var k :| 0 <= k < n && deals[..n][k].magic == FirstMagic(deals) && forall i | 0 <= i < k :: deals[..n][i].magic == None;
        assert deals[k].magic == FirstMagic(deals);
        assert forall i | 0 <= i < k :: deals[i].magic == deals[..n][i].magic;
      } else {
        forall i | 0 <= i < n ensures deals[i].magic == None {
          assert deals[..n][i].magic == None;
        }
      }
    }
  }

  // ---------------------------------------------------------------------
  // The fields
  // ---------------------------------------------------------------------

  /** To the nearest second, half a second up. */
  predicate RoundsTo(milliseconds: int, seconds: int) {
    1000 * seconds - 500 <= milliseconds < 1000 * seconds + 500
  }

  predicate MoneyIs(f: Fields, deals: seq<Deal>) {
    && f.grossProfit == Earned(deals) && f.commission == Commissions(deals)
    && f.swap == Swaps(deals) && f.fee == Fees(deals)
    && f.netPnl == Earned(deals) + Commissions(deals) + Swaps(deals)
  }

  predicate Mean(price: real, cost: real, lots: real) {
    lots != 0.0 && price * lots == cost
  }

  /** Opened volume, and the volume-weighted means over what opened and what closed. */
  predicate PricesAre(f: Fields, deals: seq<Deal>) {
    && f.totalOpenedVolume == Opened(deals)
    && Mean(f.openPrice, OpenedCost(deals), OpenedPriced(deals))
    && Mean(f.closePrice, ClosedCost(deals), ClosedPriced(deals))
  }

  /** Times, comment and reason of the first and the last deal that traded, and the side the last one closed. */
  predicate EndsAre(f: Fields, first: Deal, last: Deal) {
    && f.openTime == first.time && f.closeTime == last.time && RoundsTo(last.time - first.time, f.durationSeconds)
    && f.comment == first.comment && f.reason == first.reason
    && ((last.kind == "sell" && f.side == Buy) || (last.kind == "buy" && f.side == Sell))
  }

  lemma {:induction false} SideIs(v: seq<Deal>)
    requires Tradable(v) && v != [] && Net(v) == 0.0
    ensures var n := |v| - 1;
            && (v[n].kind == "sell" ==> Net(v[..n]) > 0.0) && (v[n].kind == "buy" ==> Net(v[..n]) < 0.0)
            && (v[n].kind == "sell" || v[n].kind == "buy")
  {
    var n := |v| - 1;
    assert Net(v) == Net(v[..n]) + Signed(v[n]);
  }

  lemma QuotientIs(a: real, b: real, q: real)
    requires b != 0.0 && q == a / b
    ensures Mean(q, a, b)
  {
  }

  lemma {:induction false} SummaryIs(deals: seq<Deal>, v: seq<Deal>)
    requires deals != [] && v != [] && Summary(deals, v).Closed?
    ensures var f, n := Summary(deals, v).fields, |v| - 1;
            && f.side == (if Net(v[..n]) < 0.0 then Sell else Buy)
            && f.symbol == LastSymbol(deals).value && LastSymbol(deals).Some? && f.magic == FirstMagic(deals)
            && f.openTime == v[0].time && f.closeTime == v[n].time
            && f.durationSeconds == Seconds(v[0].time, v[n].time)
            && f.comment == v[0].comment && f.reason == v[0].reason
            && f.totalOpenedVolume == Entries(Unit, v)
            && Entries(Priced, v) != 0.0 && f.openPrice == Entries(Notional, v) / Entries(Priced, v)
            && Exits(Priced, v) != 0.0 && f.closePrice == Exits(Notional, v) / Exits(Priced, v)
            && f.grossProfit == Total(GrossProfit, deals) && f.commission == Total(Commission, deals)
            && f.swap == Total(Swap, deals) && f.fee == Total(Fee, deals)
            && f.netPnl == Total(GrossProfit, deals) + Total(Swap, deals) + Total(Commission, deals)
  {
  }

  lemma ClosedShape(rawDeals: seq<Deal>)
    requires NonNegative(rawDeals) && LifecycleOf(rawDeals).Closed?
    ensures var deals, v := SortDeals(rawDeals), Walk(rawDeals);
            && deals != [] && v != [] && Net(v) == 0.0 && Tradable(v) && AllPlain(deals)
            && LifecycleOf(rawDeals) == Summary(deals, v)
  {
    var deals, v := SortDeals(rawDeals), Walk(rawDeals);
    ClosedTradable(rawDeals);
    CarryingMembers(deals);
    forall i | 0 <= i < |deals| ensures Plain(deals[i]) {
      assert deals[i] in deals && deals[i] in multiset(rawDeals);
      if Volume(deals[i]) != 0.0 {
        assert deals[i] in v;
        var k :| 0 <= k < |v| && v[k] == deals[i];
      }
    }
  }

  lemma SecondsRound(openTime: int, closeTime: int)
    requires openTime <= closeTime
    ensures RoundsTo(closeTime - openTime, Seconds(openTime, closeTime))
  {
  }

  /**
    Every field of a closed position, over its deals by time and ticket: the side is opposite to
    the last deal that traded; times, comment and reason are those of the first and the last;
    the prices are the volume-weighted means over what enlarged and what reduced the exposure;
    the money counts every deal; the symbol is the last one given and the magic number the first.
   */
  lemma ClosedFieldsExact(rawDeals: seq<Deal>) returns (deals: seq<Deal>, a: nat, b: nat)
    requires NonNegative(rawDeals) && LifecycleOf(rawDeals).Closed?
    ensures deals == SortDeals(rawDeals) && InTimeOrder(deals, rawDeals)
    ensures FirstTrade(deals, a) && LastTrade(deals, b)
    ensures var f := LifecycleOf(rawDeals).fields;
            && EndsAre(f, deals[a], deals[b]) && PricesAre(f, deals) && MoneyIs(f, deals)
            && LastNamed(deals, f.symbol) && FirstNumbered(deals, f.magic)
  {
    deals := SortDeals(rawDeals);
    var v := Walk(rawDeals);
    SortedInTimeOrder(rawDeals);
    ClosedShape(rawDeals);
    a, b := WalkEnds(deals);
    var f := Summary(deals, v).fields;
    EndsExact(deals, v, f, a, b);
    SumsExact(deals, v, f);
  }

  lemma {:induction false} EndsExact(deals: seq<Deal>, v: seq<Deal>, f: Fields, a: nat, b: nat)
    requires deals != [] && v != [] && Summary(deals, v) == Closed(f) && Tradable(v) && Net(v) == 0.0
    requires a < |deals| && b < |deals| && deals[a] == v[0] && deals[b] == v[|v| - 1] && deals[a].time <= deals[b].time
    ensures EndsAre(f, deals[a], deals[b]) && LastNamed(deals, f.symbol) && FirstNumbered(deals, f.magic)
  {
    SummaryIs(deals, v);
    SecondsRound(deals[a].time, deals[b].time);
    SideIs(v);
    SymbolIs(deals);
    MagicIs(deals);
  }

  lemma {:induction false} SumsExact(deals: seq<Deal>, v: seq<Deal>, f: Fields)
    requires deals != [] && v != [] && Summary(deals, v) == Closed(f) && AllPlain(deals) && v == Carrying(deals)
    ensures PricesAre(f, deals) && MoneyIs(f, deals)
  {
    SummaryIs(deals, v);
    SumsAgree(deals);
    MoneyAgrees(deals);
    QuotientIs(Entries(Notional, v), Entries(Priced, v), f.openPrice);
    QuotientIs(Exits(Notional, v), Exits(Priced, v), f.closePrice);
  }

  // ---------------------------------------------------------------------
  // Without a reversal
  // ---------------------------------------------------------------------

  /** The exposure is never on the side opposite to this type. */
  predicate NeverTurns(deals: seq<Deal>, kind: string) {
    forall i | 0 <= i <= |deals| :: if kind == "buy" then Flow(deals[..i]) >= 0.0 else Flow(deals[..i]) <= 0.0
  }

  function Opposite(kind: string): string {
    if kind == "buy" then "sell" else "buy"
  }

  /** Lots of the deals of one type that have a price, and what they cost. */
  function PricedOf(deals: seq<Deal>, kind: string): real {
    if deals == [] then 0.0
    else
      var n := |deals| - 1;
      PricedOf(deals[..n], kind) + (if deals[n].kind == kind then PricedLots(deals[n], Lots(deals[n])) else 0.0)
  }

  function CostOf(deals: seq<Deal>, kind: string): real {
    if deals == [] then 0.0
    else
      var n := |deals| - 1;
      CostOf(deals[..n], kind) + (if deals[n].kind == kind then Cost(deals[n], Lots(deals[n])) else 0.0)
  }

  predicate BuyOrSell(kind: string) {
    kind == "buy" || kind == "sell"
  }

  lemma WholeLots(deals: seq<Deal>, n: nat, kind: string)
    requires |deals| == n + 1 && Plain(deals[n]) && NeverTurns(deals, kind) && BuyOrSell(kind)
    ensures deals[n].kind == kind ==> OpeningLots(deals) == Lots(deals[n]) && ClosingLots(deals) == 0.0
    ensures deals[n].kind == Opposite(kind) ==> OpeningLots(deals) == 0.0 && ClosingLots(deals) == Lots(deals[n])
    ensures !BuyOrSell(deals[n].kind) ==> OpeningLots(deals) == 0.0 && ClosingLots(deals) == 0.0
  {
    assert deals[..|deals|] == deals;
    assert Lots(deals[n]) == Volume(deals[n]);
  }

  lemma {:induction false} TypesSplit(deals: seq<Deal>, kind: string)
    requires AllPlain(deals) && NeverTurns(deals, kind) && BuyOrSell(kind)
    ensures OpenedPriced(deals) == PricedOf(deals, kind) && OpenedCost(deals) == CostOf(deals, kind)
    ensures ClosedPriced(deals) == PricedOf(deals, Opposite(kind)) && ClosedCost(deals) == CostOf(deals, Opposite(kind))
    decreases |deals|
  {
    if deals != [] {
      var n := |deals| - 1;
      forall i | 0 <= i <= n ensures deals[..n][..i] == deals[..i] {
      }
      TypesSplit(deals[..n], kind);
      WholeLots(deals, n, kind);
      SumsGrow(deals, n);
      NoLots(deals[n]);
    }
  }

  lemma NoLots(d: Deal)
    ensures PricedLots(d, 0.0) == 0.0 && Cost(d, 0.0) == 0.0
  {
  }

  /**
    When the exposure never changes side, the side is the type of the first deal that traded,
    and the prices are the volume-weighted means over the deals of that type and of the other.
   */
  lemma UnturnedPrices(rawDeals: seq<Deal>, a: nat)
    requires NonNegative(rawDeals) && LifecycleOf(rawDeals).Closed?
    requires FirstTrade(SortDeals(rawDeals), a) && NeverTurns(SortDeals(rawDeals), SortDeals(rawDeals)[a].kind)
    ensures var deals, f := SortDeals(rawDeals), LifecycleOf(rawDeals).fields;
            var kind := deals[a].kind;
            && f.side == (if kind == "buy" then Buy else Sell)
            && Mean(f.openPrice, CostOf(deals, kind), PricedOf(deals, kind))
            && Mean(f.closePrice, CostOf(deals, Opposite(kind)), PricedOf(deals, Opposite(kind)))
  {
    var deals := SortDeals(rawDeals);
    ClosedShape(rawDeals);
    assert Plain(deals[a]) && Lots(deals[a]) == Volume(deals[a]);
    NetIsFlow(deals);
    var _, _, b := ClosedFieldsExact(rawDeals);
    UnturnedIs(deals, LifecycleOf(rawDeals).fields, a, b, deals[a].kind);
  }

  lemma {:induction false} UnturnedIs(deals: seq<Deal>, f: Fields, a: nat, b: nat, kind: string)
    requires AllPlain(deals) && NeverTurns(deals, kind) && BuyOrSell(kind) && LastTrade(deals, b) && Flow(deals) == 0.0
    requires a < |deals| && EndsAre(f, deals[a], deals[b]) && PricesAre(f, deals)
    ensures f.side == (if kind == "buy" then Buy else Sell)
    ensures Mean(f.openPrice, CostOf(deals, kind), PricedOf(deals, kind))
    ensures Mean(f.closePrice, CostOf(deals, Opposite(kind)), PricedOf(deals, Opposite(kind)))
  {
    TypesSplit(deals, kind);
    LastTurns(deals, kind, b);
  }

  /** The last deal that traded brought the exposure to zero, so it is of the other type. */
  lemma {:induction false} LastTurns(deals: seq<Deal>, kind: string, b: nat)
    requires AllPlain(deals) && NeverTurns(deals, kind) && BuyOrSell(kind) && LastTrade(deals, b) && Flow(deals) == 0.0
    ensures deals[b].kind == Opposite(kind)
    decreases |deals|
  {
    var n := |deals| - 1;
    if b == n {
      assert deals[..|deals|] == deals && Plain(deals[n]);
      assert Flow(deals[..n]) >= 0.0 || Flow(deals[..n]) <= 0.0;
    } else {
      assert Lots(deals[n]) == 0.0;
      forall i | 0 <= i <= n ensures deals[..n][..i] == deals[..i] {
      }
      LastTurns(deals[..n], kind, b);
    }
  }

  // ---------------------------------------------------------------------
  // Status
  // ---------------------------------------------------------------------

  /** The deal trades with an unknown type, or after trading has brought the exposure back to zero. */
  predicate Offends(deals: seq<Deal>, i: int) {
    && 0 <= i < |deals| && Lots(deals[i]) != 0.0
    && (|| !BuyOrSell(deals[i].kind)
        || (Flow(deals[..i]) == 0.0 && exists k :: 0 <= k < i && Lots(deals[k]) != 0.0))
  }

  predicate FirstOffence(deals: seq<Deal>, i: int) {
    Offends(deals, i) && forall k | 0 <= k < i :: !Offends(deals, k)
  }

  lemma {:induction false} NetIsFlow(deals: seq<Deal>)
    ensures Net(Carrying(deals)) == Flow(deals)
    decreases |deals|
  {
    if deals != [] {
      var n := |deals| - 1;
      NetIsFlow(deals[..n]);
      assert Lots(deals[n]) == Volume(deals[n]);
      if Volume(deals[n]) == 0.0 {
        assert Carrying(deals) == Carrying(deals[..n]);
      } else {
        Extended(Carrying(deals[..n]), deals[n]);
      }
    }
  }

  lemma {:induction false} TradedBefore(deals: seq<Deal>, n: nat)
    requires n <= |deals|
    ensures Carrying(deals[..n]) != [] <==> exists k :: 0 <= k < n && Lots(deals[k]) != 0.0
  {
    CarryingMembers(deals[..n]);
    if Carrying(deals[..n]) != [] {
      assert Carrying(deals[..n])[0] in Carrying(deals[..n]);
      var k :| 0 <= k < n && deals[..n][k] == Carrying(deals[..n])[0];
      assert Lots(deals[k]) == Volume(deals[k]);
    }
    if k :| 0 <= k < n && Lots(deals[k]) != 0.0 {
      assert deals[..n][k] in deals[..n] && Lots(deals[k]) == Volume(deals[k]);
    }
  }

  lemma LastOffends(deals: seq<Deal>, n: nat, v: seq<Deal>)
    requires |deals| == n + 1 && v == Carrying(deals[..n]) && Volume(deals[n]) != 0.0
    ensures Offends(deals, n) <==> Stops(v + [deals[n]], |v|)
  {
    NetIsFlow(deals[..n]);
    TradedBefore(deals, n);
    assert (v + [deals[n]])[..|v|] == v;
    assert Lots(deals[n]) == Volume(deals[n]);
  }

  lemma OffenceInPrefix(deals: seq<Deal>, n: nat, i: int)
    requires n <= |deals| && i < n
    ensures Offends(deals[..n], i) <==> Offends(deals, i)
  {
    if 0 <= i {
      assert deals[..n][..i] == deals[..i];
    }
  }

  /** The first offence, or that there is none. */
  ghost predicate OffenceIs(deals: seq<Deal>, offence: Option<int>) {
    if offence.Some? then FirstOffence(deals, offence.value) else forall i :: !Offends(deals, i)
  }

  lemma OffenceNext(deals: seq<Deal>, n: nat, before: Option<int>) returns (offence: Option<int>)
    requires |deals| == n + 1 && OffenceIs(deals[..n], before)
    ensures OffenceIs(deals, offence)
    ensures offence == if before.Some? then before else if Offends(deals, n) then Some(n) else None
  {
    offence := if before.Some? then before else if Offends(deals, n) then Some(n) else None;
    forall i | i < n ensures Offends(deals[..n], i) <==> Offends(deals, i) {
      OffenceInPrefix(deals, n, i);
    }
    forall i | i > n ensures !Offends(deals, i) {
    }
  }

  /** The first stop of the walk after one more deal. */
  lemma {:induction false} StopNext(v: seq<Deal>, d: Deal, u: seq<Deal>)
    requires u == v + [d]
    ensures FirstStop(u) == if FirstStop(v).Some? then FirstStop(v) else if Stops(u, |v|) then Some(|v|) else None
  {
    assert u[..|v|] == v;
  }

  predicate StopIs(deals: seq<Deal>, stop: Option<nat>, offence: Option<int>) {
    && (stop.Some? <==> offence.Some?)
    && (stop.Some? ==>
          stop.value < |Carrying(deals)| && 0 <= offence.value < |deals| && Carrying(deals)[stop.value] == deals[offence.value])
  }

  lemma {:induction false} StopAfterTrade(deals: seq<Deal>, n: nat, v: seq<Deal>, u: seq<Deal>, before: Option<int>, offence: Option<int>)
    requires |deals| == n + 1 && v == Carrying(deals[..n]) && u == Carrying(deals) && Volume(deals[n]) != 0.0
    requires StopIs(deals[..n], FirstStop(v), before)
    requires offence == if before.Some? then before else if Offends(deals, n) then Some(n) else None
    ensures StopIs(deals, FirstStop(u), offence)
  {
    assert u == v + [deals[n]];
    LastOffends(deals, n, v);
    StopNext(v, deals[n], u);
  }

  lemma {:induction false} IdleNeverOffends(deals: seq<Deal>, n: nat)
    requires |deals| == n + 1 && Volume(deals[n]) == 0.0
    ensures !Offends(deals, n) && Carrying(deals) == Carrying(deals[..n])
  {
    assert Lots(deals[n]) == Volume(deals[n]);
  }

  /** The walk stops at the first offence. */
  lemma {:induction false} StopsAtOffence(deals: seq<Deal>) returns (offence: Option<int>)
    ensures OffenceIs(deals, offence) && StopIs(deals, FirstStop(Carrying(deals)), offence)
    decreases |deals|
  {
    if deals == [] {
      offence := None;
    } else {
      var n := |deals| - 1;
      var before := StopsAtOffence(deals[..n]);
      offence := OffenceNext(deals, n, before);
      if Volume(deals[n]) == 0.0 {
        IdleNeverOffends(deals, n);
      } else {
        StopAfterTrade(deals, n, Carrying(deals[..n]), Carrying(deals), before, offence);
      }
    }
  }

  lemma {:induction false} NoSymbol(deals: seq<Deal>)
    ensures LastSymbol(deals) == None
            <==> forall i | 0 <= i < |deals| :: deals[i].symbol == None || deals[i].symbol == Some("")
  {
    SymbolIs(deals);
  }

  predicate Untraded(deals: seq<Deal>) {
    forall i | 0 <= i < |deals| :: Lots(deals[i]) == 0.0
  }

  predicate Unnamed(deals: seq<Deal>) {
    forall i | 0 <= i < |deals| :: deals[i].symbol == None || deals[i].symbol == Some("")
  }

  predicate Verdict(r: Lifecycle, deals: seq<Deal>, offence: Option<int>)
    requires deals != [] && (offence.Some? ==> 0 <= offence.value < |deals|)
  {
    var last := deals[|deals| - 1].dealNo;
    if offence.Some? then
      var d := deals[offence.value];
      r == if BuyOrSell(d.kind) then AmbiguousReopen(d.dealNo) else Corrupted(UnknownDirection(d.kind), d.dealNo)
    else if Untraded(deals) || Flow(deals) != 0.0 then r == Open
    else if Unnamed(deals) then r == Corrupted(MissingSymbol, last)
    else if OpenedPriced(deals) == 0.0 || ClosedPriced(deals) == 0.0 then r == Corrupted(MissingPrice, last)
    else r.Closed?
  }

  lemma {:induction false} CompleteVerdict(deals: seq<Deal>, v: seq<Deal>)
    requires AllPlain(deals) && deals != [] && v == Carrying(deals) && v != [] && Flow(deals) == 0.0 && !Untraded(deals)
    ensures Verdict(Summary(deals, v), deals, None)
  {
    NoSymbol(deals);
    SumsAgree(deals);
  }

  lemma {:induction false} TradedExactly(deals: seq<Deal>)
    ensures Carrying(deals) == [] <==> Untraded(deals)
  {
    TradedBefore(deals, |deals|);
    assert deals[..|deals|] == deals;
  }

  lemma {:induction false} VerdictOf(deals: seq<Deal>, v: seq<Deal>, offence: Option<int>, r: Lifecycle)
    requires deals != [] && v == Carrying(deals) && StopIs(deals, FirstStop(v), offence)
    requires offence.None? ==> AllPlain(deals)
    requires r == match FirstStop(v)
                  case Some(i) =>
                    if SideOf(v[i]) == None then Corrupted(UnknownDirection(v[i].kind), v[i].dealNo)
                    else AmbiguousReopen(v[i].dealNo)
                  case None => if v == [] || Net(v) != 0.0 then Open else Summary(deals, v)
    ensures Verdict(r, deals, offence)
  {
    NetIsFlow(deals);
    TradedExactly(deals);
    if offence.None? && v != [] && Net(v) == 0.0 {
      CompleteVerdict(deals, v);
    }
  }

  /**
    The verdict, for every list of deals with non-negative volumes: no deals; the first deal
    that offends decides; else open while nothing traded or the exposure is not zero; else
    closed, unless no deal names a symbol or nothing with a price opened or closed.
   */
  lemma VerdictExactly(rawDeals: seq<Deal>) returns (deals: seq<Deal>, offence: Option<int>)
    requires NonNegative(rawDeals)
    ensures InTimeOrder(deals, rawDeals) && (rawDeals == [] ==> LifecycleOf(rawDeals) == NoDeals)
    ensures OffenceIs(deals, offence)
    ensures rawDeals != [] ==> deals != [] && Verdict(LifecycleOf(rawDeals), deals, offence)
  {
    deals := SortDeals(rawDeals);
    SortedInTimeOrder(rawDeals);
    offence := StopsAtOffence(deals);
    if offence.None? {
      PlainWithout(rawDeals, deals);
    }
    if rawDeals != [] {
      VerdictOf(deals, Carrying(deals), offence, LifecycleOf(rawDeals));
    }
  }

  lemma PlainWithout(rawDeals: seq<Deal>, deals: seq<Deal>)
    requires NonNegative(rawDeals) && multiset(deals) == multiset(rawDeals) && forall i :: !Offends(deals, i)
    ensures AllPlain(deals)
  {
    forall i | 0 <= i < |deals| ensures Plain(deals[i]) {
      assert deals[i] in multiset(rawDeals);
      assert !Offends(deals, i) && Lots(deals[i]) == Volume(deals[i]);
    }
  }
}
