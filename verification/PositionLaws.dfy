/** What the reconstruction promises: status by prefix sums, order freedom, conservation. */
module PositionLaws {
  import opened Wrappers
  import opened Sorting
  import opened PositionReconstructor

  // ---------------------------------------------------------------------
  // Status
  // ---------------------------------------------------------------------

  predicate KnownTypes(deals: seq<Deal>) {
    forall d | d in deals && Volume(d) != 0.0 :: SideOf(d) != None
  }

  /** The volume-carrying deals in time and ticket order. */
  function Walk(rawDeals: seq<Deal>): seq<Deal> {
    Carrying(SortDeals(rawDeals))
  }

  predicate FlatBefore(v: seq<Deal>, i: int) {
    0 < i < |v| && Net(v[..i]) == 0.0
  }

  lemma {:induction false} CarryingMembers(deals: seq<Deal>)
    ensures forall d :: d in Carrying(deals) <==> d in deals && Volume(d) != 0.0
  {
    if deals != [] {
      var n := |deals| - 1;
      CarryingMembers(deals[..n]);
      assert deals == deals[..n] + [deals[n]];
    }
  }

  lemma {:induction false} FirstStopIsLeast(v: seq<Deal>)
    ensures match FirstStop(v)
            case None => forall i | 0 <= i < |v| :: !Stops(v, i)
            case Some(k) => Stops(v, k) && forall i | 0 <= i < k :: !Stops(v, i)
    decreases |v|
  {
    if v != [] {
      var n := |v| - 1;
      FirstStopIsLeast(v[..n]);
      forall i | 0 <= i < n ensures Stops(v[..n], i) <==> Stops(v, i) {
        assert v[..n][..i] == v[..i];
      }
    }
  }

  lemma WalkStops(rawDeals: seq<Deal>)
    requires KnownTypes(rawDeals)
    ensures var v := Walk(rawDeals);
            && (FirstStop(v).Some? <==> exists i :: FlatBefore(v, i))
            && (FirstStop(v).Some? ==> SideOf(v[FirstStop(v).value]) != None)
  {
    var v := Walk(rawDeals);
    CarryingMembers(SortDeals(rawDeals));
    FirstStopIsLeast(v);
    forall i | 0 <= i < |v| ensures SideOf(v[i]) != None {
      assert v[i] in v && v[i] in multiset(rawDeals);
    }
    forall i | 0 <= i < |v| ensures Stops(v, i) <==> FlatBefore(v, i) {
    }
    if FirstStop(v).Some? {
      assert FlatBefore(v, FirstStop(v).value);
    }
  }

  /**
    The status read off the signed prefix sums: ambiguous when a zero sum is
    followed by another volume-carrying deal, complete when zero is first reached
    at the last one, and open otherwise.
   */
  lemma StatusByPrefixSums(rawDeals: seq<Deal>)
    requires rawDeals != [] && KnownTypes(rawDeals)
    ensures var v, r := Walk(rawDeals), LifecycleOf(rawDeals);
            && (r.AmbiguousReopen? <==> exists i :: FlatBefore(v, i))
            && (r.Closed? || r.Corrupted? <==> v != [] && Net(v) == 0.0 && forall i :: !FlatBefore(v, i))
            && (r.Open? <==> (forall i :: !FlatBefore(v, i)) && (v == [] || Net(v) != 0.0))
  {
    WalkStops(rawDeals);
  }

  /** A complete position is closed unless a symbol or a price is missing. */
  lemma ClosedOrCorrupted(rawDeals: seq<Deal>)
    requires rawDeals != [] && KnownTypes(rawDeals)
    requires LifecycleOf(rawDeals).Closed? || LifecycleOf(rawDeals).Corrupted?
    ensures var deals, v := SortDeals(rawDeals), Walk(rawDeals);
            LifecycleOf(rawDeals).Closed? <==>
              LastSymbol(deals) != None && Entries(Priced, v) != 0.0 && Exits(Priced, v) != 0.0
  {
    WalkStops(rawDeals);
  }

  // ---------------------------------------------------------------------
  // Order freedom
  // ---------------------------------------------------------------------

  /** With distinct (time, ticket) keys the verdict does not depend on the order of the rows. */
  lemma OrderFree(a: seq<Deal>, b: seq<Deal>)
    requires multiset(a) == multiset(b)
    requires forall i, j | 0 <= i < j < |a| :: a[i].time != a[j].time || Ticket(a[i]) != Ticket(a[j])
    ensures LifecycleOf(a) == LifecycleOf(b)
  {
    assert |multiset(a)| == |a| && |multiset(b)| == |b|;
    forall i, j | 0 <= i < j < |a| ensures SortKey(a[i]) != SortKey(a[j]) {
      assert SortKey(a[i])[0] == a[i].time && SortKey(a[i])[1] == Ticket(a[i]);
      assert SortKey(a[j])[0] == a[j].time && SortKey(a[j])[1] == Ticket(a[j]);
    }
    SortByKeyOrderFree(a, b, SortKey);
  }

  // ---------------------------------------------------------------------
  // Conservation
  // ---------------------------------------------------------------------

  function Traded(side: Side, v: seq<Deal>): real {
    if v == [] then 0.0
    else
      var n := |v| - 1;
      Traded(side, v[..n]) + (if SideOf(v[n]) == Some(side) then Volume(v[n]) else 0.0)
  }

  function Turnover(v: seq<Deal>): real {
    if v == [] then 0.0
    else
      var n := |v| - 1;
      Turnover(v[..n]) + Weigh(Notional, v[n], Volume(v[n]))
  }

  /** Buy, sell or flat, with positive volume: what the walk contains when all types are known. */
  predicate Tradable(v: seq<Deal>) {
    forall i | 0 <= i < |v| :: SideOf(v[i]) != None && Volume(v[i]) > 0.0
  }

  predicate AllPriced(v: seq<Deal>) {
    forall i | 0 <= i < |v| :: v[i].price.Some?
  }

  lemma {:induction false} VolumesBalance(v: seq<Deal>)
    requires Tradable(v)
    ensures Net(v) == Traded(Buy, v) - Traded(Sell, v)
    ensures Entries(Unit, v) + Exits(Unit, v) == Traded(Buy, v) + Traded(Sell, v)
    ensures Entries(Unit, v) - Exits(Unit, v) == Abs(Net(v))
    decreases |v|
  {
    if v != [] {
      VolumesBalance(v[..|v| - 1]);
    }
  }

  lemma PartsAddUp(d: Deal, net: real)
    requires d.price.Some?
    ensures Weigh(Notional, d, EntryPart(net, d)) + Weigh(Notional, d, ExitPart(net, d))
            == Weigh(Notional, d, Volume(d))
  {
  }

  lemma {:induction false} PricedBalance(v: seq<Deal>)
    requires AllPriced(v)
    ensures Entries(Priced, v) == Entries(Unit, v) && Exits(Priced, v) == Exits(Unit, v)
    ensures Entries(Notional, v) + Exits(Notional, v) == Turnover(v)
    decreases |v|
  {
    if v != [] {
      var n := |v| - 1;
      PricedBalance(v[..n]);
      PartsAddUp(v[n], Net(v[..n]));
    }
  }

  /** Every deal that has a price has one between lo and hi. */
  predicate PricesWithin(v: seq<Deal>, lo: real, hi: real) {
    forall i | 0 <= i < |v| && v[i].price.Some? :: lo <= v[i].price.value <= hi
  }

  predicate Within(lo: real, notional: real, hi: real, volume: real) {
    lo * volume <= notional <= hi * volume
  }

  lemma WeightedWithin(lo: real, hi: real, notional: real, volume: real, d: Deal, x: real)
    requires Within(lo, notional, hi, volume) && x >= 0.0
    requires d.price.Some? ==> lo <= d.price.value <= hi
    ensures Within(lo, notional + Weigh(Notional, d, x), hi, volume + Weigh(Priced, d, x))
  {
    if d.price.Some? {
      var price := d.price.value;
      assert lo * x <= price * x <= hi * x;
      assert lo * (volume + x) == lo * volume + lo * x;
      assert hi * (volume + x) == hi * volume + hi * x;
    }
  }

  lemma {:induction false} EntriesWithin(v: seq<Deal>, lo: real, hi: real)
    requires Tradable(v) && PricesWithin(v, lo, hi)
    ensures Within(lo, Entries(Notional, v), hi, Entries(Priced, v))
    ensures Entries(Priced, v) >= 0.0
    decreases |v|
  {
    if v != [] {
      var n := |v| - 1;
      EntriesWithin(v[..n], lo, hi);
      WeightedWithin(
        lo, hi, Entries(Notional, v[..n]), Entries(Priced, v[..n]), v[n], EntryPart(Net(v[..n]), v[n]));
    }
  }

  lemma {:induction false} ExitsWithin(v: seq<Deal>, lo: real, hi: real)
    requires Tradable(v) && PricesWithin(v, lo, hi)
    ensures Within(lo, Exits(Notional, v), hi, Exits(Priced, v))
    ensures Exits(Priced, v) >= 0.0
    decreases |v|
  {
    if v != [] {
      var n := |v| - 1;
      ExitsWithin(v[..n], lo, hi);
      WeightedWithin(
        lo, hi, Exits(Notional, v[..n]), Exits(Priced, v[..n]), v[n], ExitPart(Net(v[..n]), v[n]));
    }
  }

  lemma Cancel(a: real, b: real, x: real)
    requires x > 0.0 && a * x <= b * x
    ensures a <= b
  {
  }

  lemma QuotientWithin(lo: real, sum: real, hi: real, x: real, q: real)
    requires x > 0.0 && Within(lo, sum, hi, x) && q == sum / x
    ensures lo <= q <= hi
  {
    assert q * x == sum;
    Cancel(lo, q, x);
    Cancel(q, hi, x);
  }

  lemma WalkTradable(rawDeals: seq<Deal>)
    requires NonNegative(rawDeals) && KnownTypes(rawDeals)
    ensures Tradable(Walk(rawDeals))
  {
    var v := Walk(rawDeals);
    CarryingMembers(SortDeals(rawDeals));
    forall i | 0 <= i < |v| ensures SideOf(v[i]) != None && Volume(v[i]) > 0.0 {
      assert v[i] in v && v[i] in multiset(rawDeals);
    }
  }

  lemma ClosedTradable(rawDeals: seq<Deal>)
    requires NonNegative(rawDeals) && LifecycleOf(rawDeals).Closed?
    ensures Tradable(Walk(rawDeals))
  {
    var v := Walk(rawDeals);
    FirstStopIsLeast(v);
    CarryingMembers(SortDeals(rawDeals));
    forall i | 0 <= i < |v| ensures SideOf(v[i]) != None && Volume(v[i]) > 0.0 {
      assert !Stops(v, i);
      assert v[i] in v && v[i] in multiset(rawDeals);
    }
  }

  /**
    Conservation at close: what was bought was sold, and it is what was opened;
    with every deal priced, entry and exit notional add up to the turnover.
   */
  lemma ConservedAtClose(rawDeals: seq<Deal>)
    requires NonNegative(rawDeals) && LifecycleOf(rawDeals).Closed?
    ensures var v, f := Walk(rawDeals), LifecycleOf(rawDeals).fields;
            && f.totalOpenedVolume == Traded(Buy, v) == Traded(Sell, v) > 0.0
            && (AllPriced(v) ==>
                  f.openPrice * f.totalOpenedVolume + f.closePrice * f.totalOpenedVolume == Turnover(v))
  {
    var v, f := Walk(rawDeals), LifecycleOf(rawDeals).fields;
    ClosedTradable(rawDeals);
    VolumesBalance(v);
    FirstDealOpens(v);
    if AllPriced(v) {
      PricedBalance(v);
      var x := f.totalOpenedVolume;
      assert (Entries(Notional, v) / x) * x == Entries(Notional, v);
      assert (Exits(Notional, v) / x) * x == Exits(Notional, v);
    }
  }

  lemma {:induction false} FirstDealOpens(v: seq<Deal>)
    requires Tradable(v) && v != []
    ensures Traded(Buy, v) + Traded(Sell, v) > 0.0
    ensures Traded(Buy, v) >= 0.0 && Traded(Sell, v) >= 0.0
    decreases |v|
  {
    var n := |v| - 1;
    if n > 0 {
      FirstDealOpens(v[..n]);
    } else {
      assert v[..n] == [];
    }
  }

  lemma ClosedQuotients(rawDeals: seq<Deal>)
    requires LifecycleOf(rawDeals).Closed?
    ensures var v, f := Walk(rawDeals), LifecycleOf(rawDeals).fields;
            && Entries(Priced, v) != 0.0 && Exits(Priced, v) != 0.0
            && f.openPrice == Entries(Notional, v) / Entries(Priced, v)
            && f.closePrice == Exits(Notional, v) / Exits(Priced, v)
  {
  }

  /** Open and close price lie between any bounds on the priced deals. */
  lemma PricesBounded(rawDeals: seq<Deal>, lo: real, hi: real)
    requires NonNegative(rawDeals) && LifecycleOf(rawDeals).Closed?
    requires PricesWithin(Walk(rawDeals), lo, hi)
    ensures lo <= LifecycleOf(rawDeals).fields.openPrice <= hi
    ensures lo <= LifecycleOf(rawDeals).fields.closePrice <= hi
  {
    var v := Walk(rawDeals);
    ClosedTradable(rawDeals);
    EntriesWithin(v, lo, hi);
    ExitsWithin(v, lo, hi);
    ClosedQuotients(rawDeals);
    var f := LifecycleOf(rawDeals).fields;
    QuotientWithin(lo, Entries(Notional, v), hi, Entries(Priced, v), f.openPrice);
    QuotientWithin(lo, Exits(Notional, v), hi, Exits(Priced, v), f.closePrice);
  }

  /** A complete position whose deals are all priced is never reported as missing a price. */
  lemma PricedNeverCorrupted(rawDeals: seq<Deal>)
    requires NonNegative(rawDeals) && KnownTypes(rawDeals) && AllPriced(Walk(rawDeals))
    ensures LifecycleOf(rawDeals).Corrupted? ==> LifecycleOf(rawDeals).cause == MissingSymbol
  {
    if LifecycleOf(rawDeals).Corrupted? {
      var v := Walk(rawDeals);
      ClosedOrCorrupted(rawDeals);
      StatusByPrefixSums(rawDeals);
      WalkTradable(rawDeals);
      VolumesBalance(v);
      FirstDealOpens(v);
      PricedBalance(v);
    }
  }

  function Sum(s: seq<real>): real {
    if s == [] then 0.0 else Sum(s[..|s| - 1]) + s[|s| - 1]
  }

  function Pnl(d: Deal): real {
    d.profit + d.swap + d.commission
  }

  lemma {:induction false} TotalsAdd(deals: seq<Deal>)
    ensures Total(GrossProfit, deals) + Total(Swap, deals) + Total(Commission, deals)
            == Sum(seq(|deals|, i requires 0 <= i < |deals| => Pnl(deals[i])))
    decreases |deals|
  {
    var s := seq(|deals|, i requires 0 <= i < |deals| => Pnl(deals[i]));
    if deals != [] {
      var n := |deals| - 1;
      TotalsAdd(deals[..n]);
      assert s[..n] == seq(n, i requires 0 <= i < n => Pnl(deals[..n][i]));
    }
  }

  /** Net profit counts every deal once, those without volume included; fees are not part of it. */
  lemma NetPnlCountsEveryDeal(rawDeals: seq<Deal>)
    requires LifecycleOf(rawDeals).Closed?
    ensures var deals := SortDeals(rawDeals);
            LifecycleOf(rawDeals).fields.netPnl == Sum(seq(|deals|, i requires 0 <= i < |deals| => Pnl(deals[i])))
  {
    TotalsAdd(SortDeals(rawDeals));
  }
}
