/**
  Reconstructing a closed position from its deals. The specification reads the
  signed volumes as prefix sums; the method is the loop over a dozen variables.
  Prices and volumes are exact reals, times are integer milliseconds.
 */
module PositionReconstructor {
  import opened Wrappers
  import opened Sorting

  /** A ticket as text, with its value when the text is an integer. */
  datatype DealNo = DealNo(text: string, value: Option<int>)

  datatype Deal = Deal(
    dealNo: DealNo, time: int, symbol: Option<string>, kind: string, volume: Option<real>, price: Option<real>,
    commission: real, swap: real, profit: real, fee: real,
    comment: Option<string>, magic: Option<int>, reason: Option<string>)

  datatype Side = Buy | Sell

  datatype Fields = Fields(
    symbol: string, side: Side, totalOpenedVolume: real, openPrice: real, closePrice: real,
    openTime: int, closeTime: int, durationSeconds: int,
    grossProfit: real, commission: real, swap: real, fee: real, netPnl: real,
    comment: Option<string>, magic: Option<int>, reason: Option<string>)

  datatype Reason = UnknownDirection(kind: string) | MissingSymbol | MissingPrice

  datatype Lifecycle =
    | NoDeals
    | Open
    | Closed(fields: Fields)
    | AmbiguousReopen(lastDealNo: DealNo)
    | Corrupted(cause: Reason, lastDealNo: DealNo)

  function Ticket(d: Deal): int {
    match d.dealNo.value
    case Some(n) => n
    case None => 0
  }

  function SortKey(d: Deal): seq<int> {
    [d.time, Ticket(d)]
  }

  function SortDeals(deals: seq<Deal>): (s: seq<Deal>)
    ensures multiset(s) == multiset(deals) && |s| == |deals|
  {
    Sort(deals, ByKey(SortKey))
  }

  // ---------------------------------------------------------------------
  // The specification
  // ---------------------------------------------------------------------

  function Volume(d: Deal): real {
    match d.volume
    case Some(v) => v
    case None => 0.0
  }

  function SideOf(d: Deal): Option<Side> {
    if d.kind == "buy" then Some(Buy) else if d.kind == "sell" then Some(Sell) else None
  }

  /** The volume-carrying deals. */
  function Carrying(deals: seq<Deal>): (v: seq<Deal>) {
    if deals == [] then []
    else
      var n := |deals| - 1;
      Carrying(deals[..n]) + (if Volume(deals[n]) == 0.0 then [] else [deals[n]])
  }

  function Signed(d: Deal): real {
    match SideOf(d)
    case Some(Buy) => Volume(d)
    case Some(Sell) => -Volume(d)
    case None => 0.0
  }

  function Net(v: seq<Deal>): real {
    if v == [] then 0.0 else Net(v[..|v| - 1]) + Signed(v[|v| - 1])
  }

  function Abs(x: real): real {
    if x < 0.0 then -x else x
  }

  function MinReal(x: real, y: real): real {
    if x < y then x else y
  }

  /** The part of a deal that closes existing exposure; the rest opens. */
  function ExitPart(net: real, d: Deal): real {
    if (net > 0.0 && SideOf(d) == Some(Sell)) || (net < 0.0 && SideOf(d) == Some(Buy))
    then MinReal(Volume(d), Abs(net)) else 0.0
  }

  function EntryPart(net: real, d: Deal): real {
    Volume(d) - ExitPart(net, d)
  }

  /** Sums over all deals of a part, weighted by nothing, by having a price, or by the price. */
  datatype Weight = Unit | Priced | Notional

  function Weigh(w: Weight, d: Deal, x: real): real {
    match w
    case Unit => x
    case Priced => if d.price.Some? then x else 0.0
    case Notional => if d.price.Some? then d.price.value * x else 0.0
  }

  function Entries(w: Weight, v: seq<Deal>): real {
    if v == [] then 0.0
    else
      var n := |v| - 1;
      Entries(w, v[..n]) + Weigh(w, v[n], EntryPart(Net(v[..n]), v[n]))
  }

  function Exits(w: Weight, v: seq<Deal>): real {
    if v == [] then 0.0
    else
      var n := |v| - 1;
      Exits(w, v[..n]) + Weigh(w, v[n], ExitPart(Net(v[..n]), v[n]))
  }

  /** A deal that ends the walk: its type is unknown, or the position was flat before it. */
  predicate Stops(v: seq<Deal>, i: nat)
    requires i < |v|
  {
    SideOf(v[i]) == None || (i > 0 && Net(v[..i]) == 0.0)
  }

  function FirstStop(v: seq<Deal>): (i: Option<nat>)
    ensures i.Some? ==> i.value < |v|
  {
    if v == [] then None
    else
      var n := |v| - 1;
      var earlier := FirstStop(v[..n]);
      if earlier.Some? then earlier
      else if Stops(v, n) then Some(n)
      else None
  }

  datatype Money = GrossProfit | Commission | Swap | Fee

  function Total(m: Money, deals: seq<Deal>): real {
    if deals == [] then 0.0
    else
      var n := |deals| - 1;
      Total(m, deals[..n]) + Amount(m, deals[n])
  }

  function Amount(m: Money, d: Deal): real {
    match m
    case GrossProfit => d.profit
    case Commission => d.commission
    case Swap => d.swap
    case Fee => d.fee
  }

  /** The last non-empty symbol of any deal. */
  function LastSymbol(deals: seq<Deal>): Option<string> {
    if deals == [] then None
    else
      var n := |deals| - 1;
      if deals[n].symbol.Some? && deals[n].symbol.value != "" then deals[n].symbol
      else LastSymbol(deals[..n])
  }

  function FirstMagic(deals: seq<Deal>): Option<int> {
    if deals == [] then None
    else
      var n := |deals| - 1;
      var earlier := FirstMagic(deals[..n]);
      if earlier.Some? then earlier else deals[n].magic
  }

  function Seconds(openTime: int, closeTime: int): int {
    var rounded := (closeTime - openTime + 500) / 1000;
    if rounded < 0 then 0 else rounded
  }

  /** A position that first becomes flat at its last volume-carrying deal. */
  function Summary(deals: seq<Deal>, v: seq<Deal>): Lifecycle
    requires deals != [] && v != []
  {
    var n := |v| - 1;
    var last := deals[|deals| - 1].dealNo;
    if LastSymbol(deals) == None then Corrupted(MissingSymbol, last)
    else if Entries(Priced, v) == 0.0 || Exits(Priced, v) == 0.0 then Corrupted(MissingPrice, last)
    else
      Closed(Fields(
        LastSymbol(deals).value,
        if Net(v[..n]) < 0.0 then Sell else Buy,
        Entries(Unit, v),
        Entries(Notional, v) / Entries(Priced, v),
        Exits(Notional, v) / Exits(Priced, v),
        v[0].time, v[n].time, Seconds(v[0].time, v[n].time),
        Total(GrossProfit, deals), Total(Commission, deals), Total(Swap, deals), Total(Fee, deals),
        Total(GrossProfit, deals) + Total(Swap, deals) + Total(Commission, deals),
        v[0].comment, FirstMagic(deals), v[0].reason))
  }

  function LifecycleOf(rawDeals: seq<Deal>): Lifecycle {
    if rawDeals == [] then NoDeals
    else
      var deals := SortDeals(rawDeals);
      var v := Carrying(deals);
      match FirstStop(v)
      case Some(i) =>
        if SideOf(v[i]) == None then Corrupted(UnknownDirection(v[i].kind), v[i].dealNo)
        else AmbiguousReopen(v[i].dealNo)
      case None =>
        if v == [] || Net(v) != 0.0 then Open
        else Summary(deals, v)
  }

  predicate NonNegative(deals: seq<Deal>) {
    forall d | d in deals :: Volume(d) >= 0.0
  }

  // ---------------------------------------------------------------------
  // The loop
  // ---------------------------------------------------------------------

  /** The loop variables that only volume-carrying deals change. */
  datatype Exposure = Exposure(
    openVolume: real, openSide: Option<Side>, openTime: Option<int>, closeTime: Option<int>,
    entryWeightedSum: real, entryVolumeSum: real, exitWeightedSum: real, exitVolumeSum: real,
    totalOpenedVolume: real, closedOnceAlready: bool,
    entryComment: Option<string>, entryReason: Option<string>)

  const FLAT := Exposure(0.0, None, None, None, 0.0, 0.0, 0.0, 0.0, 0.0, false, None, None)

  ghost predicate Sums(e: Exposure, v: seq<Deal>) {
    && e.openVolume == Abs(Net(v))
    && e.entryWeightedSum == Entries(Notional, v) && e.entryVolumeSum == Entries(Priced, v)
    && e.exitWeightedSum == Exits(Notional, v) && e.exitVolumeSum == Exits(Priced, v)
    && e.totalOpenedVolume == Entries(Unit, v)
  }

  /** The side of the exposure, or of the exposure the last deal closed. */
  function CurrentSide(v: seq<Deal>): Side
    requires v != []
  {
    if Net(v) < 0.0 || (Net(v) == 0.0 && Net(v[..|v| - 1]) < 0.0) then Sell else Buy
  }

  ghost predicate Marks(e: Exposure, v: seq<Deal>) {
    && (e.closedOnceAlready <==> v != [] && Net(v) == 0.0)
    && (v == [] ==> e.openSide == None && e.openTime == None)
    && (v != [] ==>
          && e.openTime == Some(v[0].time)
          && e.openSide == Some(CurrentSide(v))
          && e.entryComment == v[0].comment
          && e.entryReason == v[0].reason)
    && (v != [] && Net(v) == 0.0 ==> e.closeTime == Some(v[|v| - 1].time))
  }

  ghost predicate Tracks(e: Exposure, v: seq<Deal>) {
    FirstStop(v) == None && Sums(e, v) && Marks(e, v)
  }

  function Priceable(d: Deal, sum: real, x: real): real {
    if d.price.Some? then sum + d.price.value * x else sum
  }

  function Countable(d: Deal, sum: real, x: real): real {
    if d.price.Some? then sum + x else sum
  }

  /** One volume-carrying deal: open, add, or close and perhaps reverse. */
  method Trade(e: Exposure, d: Deal, ghost v: seq<Deal>) returns (next: Exposure, stop: Option<Lifecycle>)
    ensures Tracks(e, v) && Volume(d) > 0.0 ==>
              && (stop.Some? <==> Stops(v + [d], |v|))
              && (stop.Some? && SideOf(d) == None ==> stop.value == Corrupted(UnknownDirection(d.kind), d.dealNo))
              && (stop.Some? && SideOf(d) != None ==> stop.value == AmbiguousReopen(d.dealNo))
              && (stop.None? ==> Tracks(next, v + [d]))
  {
    next, stop := e, None;
    Extended(v, d);
    ghost var net := Net(v);
    var vol := Volume(d);
    var side := SideOf(d);
    if side.None? {
      stop := Some(Corrupted(UnknownDirection(d.kind), d.dealNo));
      return;
    }
    if next.openTime.None? {
      next := next.(openTime := Some(d.time));
    }
    if next.openVolume == 0.0 && next.closedOnceAlready {
      stop := Some(AmbiguousReopen(d.dealNo));
      return;
    }
    if next.openVolume == 0.0 {
      next := next.(
        openSide := side, openVolume := vol,
        entryWeightedSum := Priceable(d, next.entryWeightedSum, vol),
        entryVolumeSum := Countable(d, next.entryVolumeSum, vol),
        totalOpenedVolume := next.totalOpenedVolume + vol,
        entryComment := d.comment, entryReason := d.reason);
      assert Tracks(e, v) && vol > 0.0 ==> ExitPart(net, d) == 0.0;
      return;
    }
    if side == next.openSide {
      next := next.(
        openVolume := next.openVolume + vol,
        entryWeightedSum := Priceable(d, next.entryWeightedSum, vol),
        entryVolumeSum := Countable(d, next.entryVolumeSum, vol),
        totalOpenedVolume := next.totalOpenedVolume + vol);
      assert Tracks(e, v) && vol > 0.0 ==> ExitPart(net, d) == 0.0;
      return;
    }
    var closingPortion := if vol < next.openVolume then vol else next.openVolume;
    assert Tracks(e, v) && vol > 0.0 ==> ExitPart(net, d) == closingPortion;
    next := next.(
      exitWeightedSum := Priceable(d, next.exitWeightedSum, closingPortion),
      exitVolumeSum := Countable(d, next.exitVolumeSum, closingPortion),
      openVolume := next.openVolume - closingPortion,
      closeTime := Some(d.time));
    if next.openVolume == 0.0 {
      next := next.(closedOnceAlready := true);
    }
    var remainder := vol - closingPortion;
    if remainder > 0.0 {
      next := next.(
        openSide := side, openVolume := remainder, closedOnceAlready := false,
        entryWeightedSum := Priceable(d, next.entryWeightedSum, remainder),
        entryVolumeSum := Countable(d, next.entryVolumeSum, remainder),
        totalOpenedVolume := next.totalOpenedVolume + remainder);
    }
  }

  /** How every sum of the specification grows by one deal. */
  lemma {:induction false} Extended(v: seq<Deal>, d: Deal)
    ensures var u := v + [d];
            && u[..|v|] == v
            && Net(u) == Net(v) + Signed(d)
            && (forall w :: Entries(w, u) == Entries(w, v) + Weigh(w, d, EntryPart(Net(v), d)))
            && (forall w :: Exits(w, u) == Exits(w, v) + Weigh(w, d, ExitPart(Net(v), d)))
            && (FirstStop(v) == None ==> FirstStop(u) == (if Stops(u, |v|) then Some(|v|) else None))
  {
    assert (v + [d])[..|v|] == v;
  }

  lemma OneMoreDeal(deals: seq<Deal>, i: nat)
    requires i < |deals|
    ensures Carrying(deals[..i + 1])
            == Carrying(deals[..i]) + (if Volume(deals[i]) == 0.0 then [] else [deals[i]])
    ensures forall m :: Total(m, deals[..i + 1]) == Total(m, deals[..i]) + Amount(m, deals[i])
    ensures LastSymbol(deals[..i + 1])
            == (if deals[i].symbol.Some? && deals[i].symbol.value != "" then deals[i].symbol
                else LastSymbol(deals[..i]))
    ensures FirstMagic(deals[..i + 1])
            == (if FirstMagic(deals[..i]).Some? then FirstMagic(deals[..i]) else deals[i].magic)
  {
    assert deals[..i + 1][..i] == deals[..i];
  }

  /** A stop found by the loop is the first stop of the whole walk. */
  lemma {:induction false} StopDecides(deals: seq<Deal>, i: nat, v: seq<Deal>)
    requires i < |deals| && v == Carrying(deals[..i]) && Volume(deals[i]) != 0.0
    ensures |v| < |Carrying(deals)| && Carrying(deals)[|v|] == deals[i]
    ensures FirstStop(v) == None && Stops(v + [deals[i]], |v|) ==> FirstStop(Carrying(deals)) == Some(|v|)
  {
    var all := Carrying(deals);
    OneMoreDeal(deals, i);
    CarryingPrefix(deals, i + 1);
    StopsAtPrefix(all, |v| + 1);
    assert all[..|v| + 1] == v + [deals[i]];
    Extended(v, deals[i]);
  }

  /** The loop variables that every deal changes. */
  datatype Book = Book(
    grossProfit: real, commission: real, swap: real, fee: real, symbol: Option<string>, magic: Option<int>)

  function BookOf(deals: seq<Deal>): Book {
    Book(Total(GrossProfit, deals), Total(Commission, deals), Total(Swap, deals), Total(Fee, deals),
         LastSymbol(deals), FirstMagic(deals))
  }

  method Enter(b: Book, deals: seq<Deal>, i: nat) returns (next: Book)
    requires i < |deals| && b == BookOf(deals[..i])
    ensures next == BookOf(deals[..i + 1])
  {
    var d := deals[i];
    OneMoreDeal(deals, i);
    next := b.(grossProfit := b.grossProfit + d.profit, commission := b.commission + d.commission,
               swap := b.swap + d.swap, fee := b.fee + d.fee);
    if d.symbol.Some? && d.symbol.value != "" {
      next := next.(symbol := d.symbol);
    }
    if next.magic.None? && d.magic.Some? {
      next := next.(magic := d.magic);
    }
  }

  method ComputePositionLifecycle(rawDeals: seq<Deal>) returns (r: Lifecycle)
    ensures NonNegative(rawDeals) ==> r == LifecycleOf(rawDeals)
  {
    if rawDeals == [] {
      return NoDeals;
    }
    var deals := SortDeals(rawDeals);
    var e, b := FLAT, Book(0.0, 0.0, 0.0, 0.0, None, None);
    ghost var v: seq<Deal> := [];
    for i := 0 to |deals|
      invariant v == Carrying(deals[..i])
      invariant NonNegative(rawDeals) ==> Tracks(e, v)
      invariant b == BookOf(deals[..i])
    {
      b := Enter(b, deals, i);
      OneMoreDeal(deals, i);
      if Volume(deals[i]) == 0.0 {
        continue;
      }
      assert deals[i] in multiset(rawDeals);
      var next, stop := Trade(e, deals[i], v);
      Extended(v, deals[i]);
      if stop.Some? {
        StopDecides(deals, i, v);
        return stop.value;
      }
      v := v + [deals[i]];
      e := next;
    }
    assert deals[..|deals|] == deals;
    r := Finished(deals, v, e, b);
  }

  /** The verdict after the last deal. */
  method Finished(deals: seq<Deal>, ghost v: seq<Deal>, e: Exposure, b: Book) returns (r: Lifecycle)
    requires deals != [] && b == BookOf(deals)
    ensures Tracks(e, v) ==> r == (if v == [] || Net(v) != 0.0 then Open else Summary(deals, v))
  {
    if e.openVolume != 0.0 || e.openTime.None? || e.closeTime.None? || e.openSide.None? {
      return Open;
    }
    var lastDealNo := deals[|deals| - 1].dealNo;
    if b.symbol.None? {
      return Corrupted(MissingSymbol, lastDealNo);
    }
    if e.entryVolumeSum == 0.0 || e.exitVolumeSum == 0.0 {
      return Corrupted(MissingPrice, lastDealNo);
    }
    r := Closed(Fields(
      b.symbol.value, e.openSide.value, e.totalOpenedVolume,
      e.entryWeightedSum / e.entryVolumeSum, e.exitWeightedSum / e.exitVolumeSum,
      e.openTime.value, e.closeTime.value, Seconds(e.openTime.value, e.closeTime.value),
      b.grossProfit, b.commission, b.swap, b.fee, b.grossProfit + b.swap + b.commission,
      e.entryComment, b.magic, e.entryReason));
  }

  lemma {:induction false} CarryingPrefix(deals: seq<Deal>, n: nat)
    requires n <= |deals|
    ensures Carrying(deals[..n]) <= Carrying(deals)
    decreases |deals|
  {
    if n == |deals| {
      assert deals[..n] == deals;
    } else {
      var k := |deals| - 1;
      assert deals[..k][..n] == deals[..n];
      CarryingPrefix(deals[..k], n);
    }
  }

  lemma {:induction false} StopsAtPrefix(v: seq<Deal>, n: nat)
    requires n <= |v|
    ensures FirstStop(v[..n]).Some? ==> FirstStop(v) == FirstStop(v[..n])
    decreases |v|
  {
    if n == |v| {
      assert v[..n] == v;
    } else {
      var k := |v| - 1;
      assert v[..k][..n] == v[..n];
      StopsAtPrefix(v[..k], n);
    }
  }
}
