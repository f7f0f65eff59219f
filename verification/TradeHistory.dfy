/**
  Keyset pagination of closed positions: a cursor names the last row of a page,
  and the next page holds the rows strictly after it.
 */
module TradeHistory {
  import opened Wrappers
  import opened Sorting
  import opened Sequences

  const DEFAULT_TRADE_HISTORY_LIMIT := 150
  const MAX_TRADE_HISTORY_LIMIT := 250

  /** A JavaScript number: a finite real, or NaN or an infinity. */
  datatype Num = Finite(value: real) | NotFinite

  function Truncated(x: real): int {
    if x >= 0.0 then x.Floor else -((-x).Floor)
  }

  function ClampLimit(x: Num): (limit: int)
    ensures 1 <= limit <= MAX_TRADE_HISTORY_LIMIT
    ensures x.NotFinite? ==> limit == DEFAULT_TRADE_HISTORY_LIMIT
    ensures x.Finite? && 1.0 <= x.value < 251.0 ==> limit as real <= x.value < limit as real + 1.0
    ensures x.Finite? && x.value < 1.0 ==> limit == 1
    ensures x.Finite? && x.value >= 251.0 ==> limit == MAX_TRADE_HISTORY_LIMIT
  {
    match x
    case NotFinite => DEFAULT_TRADE_HISTORY_LIMIT
    case Finite(value) =>
      var n := Truncated(value);
      var top := if n < MAX_TRADE_HISTORY_LIMIT then n else MAX_TRADE_HISTORY_LIMIT;
      if top < 1 then 1 else top
  }

  // ---------------------------------------------------------------------
  // The cursor
  // ---------------------------------------------------------------------

  function Digit(n: nat): char
    requires n < 10
  {
    "0123456789"[n]
  }

  function Digits(n: nat): string {
    if n < 10 then [Digit(n)] else Digits(n / 10) + [Digit(n % 10)]
  }

  /** An integer as a template literal prints it. */
  function Numeral(n: int): string {
    if n < 0 then "-" + Digits(-n) else Digits(n)
  }

  /** The two text conversions the cursor relies on, and the parser of numbers. */
  datatype Texts = Texts(encode: string -> string, decode: string -> Option<string>, parse: string -> Option<int>)

  /** Percent-encoding is undone by its inverse and never yields a colon; printed integers parse back. */
  ghost predicate Lawful(x: Texts) {
    && (forall s :: x.decode(x.encode(s)) == Some(s) && ':' !in x.encode(s) && (x.encode(s) == "" <==> s == ""))
    && (forall n: int :: x.parse(Numeral(n)) == Some(n))
  }

  datatype Cursor = Cursor(closeTime: int, positionNo: string)

  /** The range of a Date in milliseconds (section 21.4.1.1 of ECMA-262). */
  const MAX_DATE := 8_640_000_000_000_000

  predicate ValidDate(ms: int) {
    -MAX_DATE <= ms <= MAX_DATE
  }

  function EncodeCursor(x: Texts, closeTime: int, positionNo: string): string {
    Numeral(closeTime) + ":" + x.encode(positionNo)
  }

  function IndexOfColon(s: string): (i: Option<nat>)
    ensures match i
            case None => ':' !in s
            case Some(k) => k < |s| && s[k] == ':' && ':' !in s[..k]
  {
    if s == "" then None
    else if s[0] == ':' then Some(0)
    else
      match IndexOfColon(s[1..])
      case None => None
      case Some(k) =>
        assert s[..k + 1] == [s[0]] + s[1..][..k];
        Some(k + 1)
  }

  function DecodeCursor(x: Texts, cursor: Option<string>): Option<Cursor> {
    if cursor == None || cursor.value == "" then None
    else
      match IndexOfColon(cursor.value)
      case None => None
      case Some(k) =>
        match x.parse(cursor.value[..k])
        case None => None
        case Some(ms) =>
          var encoded := cursor.value[k + 1..];
          if !ValidDate(ms) || encoded == "" then None
          else
            match x.decode(encoded)
            case None => None
            case Some(positionNo) => Some(Cursor(ms, positionNo))
  }

  lemma {:induction false} DigitsHaveNoColon(n: nat)
    ensures ':' !in Digits(n)
  {
    if n >= 10 {
      DigitsHaveNoColon(n / 10);
    }
  }

  lemma {:induction false} FirstColon(a: string, b: string)
    requires ':' !in a
    ensures IndexOfColon(a + ":" + b) == Some(|a|)
    ensures (a + ":" + b)[..|a|] == a && (a + ":" + b)[|a| + 1..] == b
  {
    if a != "" {
      assert (a + ":" + b)[1..] == a[1..] + ":" + b;
      FirstColon(a[1..], b);
    } else {
      assert (a + ":" + b)[0] == ':';
    }
  }

  /** A cursor round-trips exactly when its position number is non-empty and its time is a valid date. */
  lemma CursorRoundTrip(x: Texts, closeTime: int, positionNo: string)
    requires Lawful(x)
    ensures DecodeCursor(x, Some(EncodeCursor(x, closeTime, positionNo)))
            == if positionNo != "" && -8_640_000_000_000_000 <= closeTime <= 8_640_000_000_000_000
               then Some(Cursor(closeTime, positionNo)) else None
  {
    DigitsHaveNoColon(if closeTime < 0 then -closeTime else closeTime);
    FirstColon(Numeral(closeTime), x.encode(positionNo));
  }

  // ---------------------------------------------------------------------
  // The query
  // ---------------------------------------------------------------------

  /** A position row; an open one has no close time. */
  datatype Row = Row(positionNo: string, closeTime: Option<int>, body: nat)

  function Codes(s: string): seq<int> {
    seq(|s|, i requires 0 <= i < |s| => s[i] as int)
  }

  predicate TextBelow(a: string, b: string) {
    a != b && LexLe(Codes(a), Codes(b))
  }

  function Matches(row: Row, cursor: Option<Cursor>): bool {
    && row.closeTime.Some?
    && (cursor.Some? ==>
          || row.closeTime.value < cursor.value.closeTime
          || (row.closeTime.value == cursor.value.closeTime && TextBelow(row.positionNo, cursor.value.positionNo)))
  }

  function Select(table: seq<Row>, cursor: Option<Cursor>): (s: seq<Row>)
    ensures forall r | r in s :: r.closeTime.Some?
  {
    if table == [] then []
    else (if Matches(table[0], cursor) then [table[0]] else []) + Select(table[1..], cursor)
  }

  function Key(row: Row): seq<int> {
    [if row.closeTime.Some? then row.closeTime.value else 0] + Codes(row.positionNo)
  }

  /** ORDER BY closeTime DESC, positionNo DESC. */
  function Newest(): (Row, Row) -> bool {
    (a: Row, b: Row) => LexLe(Key(b), Key(a))
  }

  /** The closed rows in the order of the report. */
  function Report(table: seq<Row>): seq<Row> {
    Sort(Select(table, None), Newest())
  }

  datatype Page = Page(rows: seq<Row>, total: nat, limit: nat, hasMore: bool, nextCursor: Option<string>)

  /** The cursor that names the last row of a page. */
  function CursorAfter(x: Texts, rows: seq<Row>): Option<string> {
    if rows == [] || rows[|rows| - 1].closeTime == None then None
    else Some(EncodeCursor(x, rows[|rows| - 1].closeTime.value, rows[|rows| - 1].positionNo))
  }

  function QueryPage(x: Texts, table: seq<Row>, limit: nat, cursor: Option<string>): Page {
    var rows := Take(Sort(Select(table, DecodeCursor(x, cursor)), Newest()), limit + 1);
    var hasMore := |rows| > limit;
    var pageRows := if hasMore then rows[..limit] else rows;
    Page(pageRows, |Select(table, None)|, limit, hasMore, if hasMore then CursorAfter(x, pageRows) else None)
  }
}
