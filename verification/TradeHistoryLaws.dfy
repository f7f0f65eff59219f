/** Following the cursors lists every closed position once, in order. */
module TradeHistoryLaws {
  import opened Wrappers
  import opened Sorting
  import opened TradeHistory
  import PercentEncoding
  import opened Sequences

  /** Percent-encoding has the laws the cursor relies on. */
  lemma PercentTextsLawful(parse: string -> Option<int>)
    requires forall n: int :: parse(Numeral(n)) == Some(n)
    ensures Lawful(Texts(PercentEncoding.Encode, PercentEncoding.Decode, parse))
  {
    forall s: string
      ensures PercentEncoding.Decode(PercentEncoding.Encode(s)) == Some(s)
      ensures ':' !in PercentEncoding.Encode(s) && (PercentEncoding.Encode(s) == "" <==> s == "")
    {
      PercentEncoding.RoundTrip(s);
      PercentEncoding.EncodedHasNoColon(s);
    }
  }

  /** Position numbers are unique within an account. */
  ghost predicate Unique(table: seq<Row>) {
    forall i, j | 0 <= i < j < |table| :: table[i].positionNo != table[j].positionNo
  }

  lemma NewestPreorder()
    ensures TotalPreorder(Newest())
  {
    var le := Newest();
    forall a, b ensures le(a, b) || le(b, a) {
      LexTotal(Key(a), Key(b));
    }
    forall a, b, c | le(a, b) && le(b, c) ensures le(a, c) {
      LexTransitive(Key(c), Key(b), Key(a));
    }
  }

  lemma SameKeySamePosition(a: Row, b: Row)
    requires Key(a) == Key(b)
    ensures a.positionNo == b.positionNo
  {
    var p, q := a.positionNo, b.positionNo;
    assert Key(a)[1..] == Codes(p) && Key(b)[1..] == Codes(q);
    assert |p| == |Codes(p)| && |q| == |Codes(q)|;
    forall i | 0 <= i < |p| ensures p[i] == q[i] {
      assert Codes(p)[i] == Codes(q)[i];
    }
  }

  lemma KeyTail(a: Row)
    ensures Key(a)[1..] == Codes(a.positionNo)
  {
  }

  lemma SameCodesSameText(a: string, b: string)
    requires Codes(a) == Codes(b)
    ensures a == b
  {
    assert |a| == |Codes(a)| && |b| == |Codes(b)|;
    forall i | 0 <= i < |a| ensures a[i] == b[i] {
      assert Codes(a)[i] == Codes(b)[i];
    }
  }

  /** The cursor predicate is the strict lexicographic order on (close time, position number). */
  lemma MatchesIsStrictlyBelow(row: Row, last: Row)
    requires row.closeTime.Some? && last.closeTime.Some?
    ensures Matches(row, Some(Cursor(last.closeTime.value, last.positionNo)))
            <==> LexLe(Key(row), Key(last)) && Key(row) != Key(last)
  {
    KeyTail(row);
    KeyTail(last);
    if Codes(row.positionNo) == Codes(last.positionNo) {
      SameCodesSameText(row.positionNo, last.positionNo);
    }
    assert Key(row)[0] == row.closeTime.value && Key(last)[0] == last.closeTime.value;
    assert Key(row) == [Key(row)[0]] + Codes(row.positionNo) && Key(last) == [Key(last)[0]] + Codes(last.positionNo);
  }

  lemma {:induction false} SelectMembers(table: seq<Row>, cursor: Option<Cursor>, r: Row)
    ensures r in Select(table, cursor) <==> r in table && Matches(r, cursor)
  {
    if table != [] {
      SelectMembers(table[1..], cursor, r);
      assert table == [table[0]] + table[1..];
    }
  }

  lemma {:induction false} SelectUnique(table: seq<Row>, cursor: Option<Cursor>)
    requires Unique(table)
    ensures Unique(Select(table, cursor))
  {
    if table != [] {
      SelectUnique(table[1..], cursor);
      var rest := Select(table[1..], cursor);
      forall r | r in rest ensures r.positionNo != table[0].positionNo {
        SelectMembers(table[1..], cursor, r);
        var i :| 0 <= i < |table[1..]| && table[1..][i] == r;
        assert table[i + 1] == r;
      }
    }
  }

  lemma {:induction false} UniqueCounts(s: seq<Row>, r: Row)
    requires Unique(s)
    ensures multiset(s)[r] == if r in s then 1 else 0
  {
    if s != [] {
      var n := |s| - 1;
      assert s == s[..n] + [s[n]];
      UniqueCounts(s[..n], r);
    }
  }

  lemma UniqueFromCounts(a: seq<Row>, b: seq<Row>)
    requires multiset(a) == multiset(b) && Unique(a)
    ensures Unique(b)
  {
    forall i, j | 0 <= i < j < |b| ensures b[i].positionNo != b[j].positionNo {
      if b[i] == b[j] {
        TwiceCounts(b, i, j);
        UniqueCounts(a, b[i]);
        assert false;
      }
      assert b[i] in multiset(a) && b[j] in multiset(a);
    }
  }

  lemma TwiceCounts(s: seq<Row>, i: nat, j: nat)
    requires i < j < |s| && s[i] == s[j]
    ensures multiset(s)[s[i]] >= 2
  {
    assert s == s[..i] + [s[i]] + s[i + 1..j] + [s[j]] + s[j + 1..];
  }

  /** Text order by character code: at the first difference, or a shorter text before its extensions. */
  ghost predicate TextBefore(a: string, b: string) {
    exists k: nat :: k <= |a| && k <= |b| && TextSplits(a, b, k)
  }

  predicate TextSplits(a: string, b: string, k: nat)
    requires k <= |a| && k <= |b|
  {
    a[..k] == b[..k] && k < |b| && (k == |a| || a[k] < b[k])
  }

  lemma {:induction false} CodesInOrder(a: string, b: string)
    ensures LexLe(Codes(a), Codes(b)) ==> a == b || TextBefore(a, b)
    decreases |a|
  {
    if LexLe(Codes(a), Codes(b)) && a != b {
      if a == "" {
        assert TextSplits(a, b, 0);
      } else if a[0] < b[0] {
        assert TextSplits(a, b, 0);
      } else {
        CodesTail(a);
        CodesTail(b);
        assert a == [a[0]] + a[1..] && b == [b[0]] + b[1..];
        CodesInOrder(a[1..], b[1..]);
        var k: nat :| k <= |a[1..]| && k <= |b[1..]| && TextSplits(a[1..], b[1..], k);
        SplitsLater(a, b, k, k + 1);
      }
    }
  }

  lemma CodesTail(a: string)
    requires a != ""
    ensures Codes(a) != [] && Codes(a)[0] == a[0] as int && Codes(a)[1..] == Codes(a[1..])
  {
  }

  lemma SplitsLater(a: string, b: string, k: nat, m: nat)
    requires a != "" && b != "" && a[0] == b[0] && m == k + 1
    requires k <= |a[1..]| && k <= |b[1..]| && TextSplits(a[1..], b[1..], k)
    ensures m <= |a| && m <= |b| && TextSplits(a, b, m)
  {
    assert a[..m] == [a[0]] + a[1..][..k] && b[..m] == [b[0]] + b[1..][..k];
  }

  /** The report lists the last closed position first, and at equal times the greatest number first. */
  lemma {:induction false} ReportNewestFirst(table: seq<Row>, i: nat, j: nat)
    requires Unique(table) && i < j < |Report(table)|
    ensures var a, b := Report(table)[i], Report(table)[j];
            && a.closeTime.Some? && b.closeTime.Some?
            && (a.closeTime.value > b.closeTime.value
                || (a.closeTime.value == b.closeTime.value && TextBefore(b.positionNo, a.positionNo)))
  {
    ReportIsStrict(table);
    var all := Report(table);
    var a, b := all[i], all[j];
    assert a in all && b in all && Newest()(a, b) && a.positionNo != b.positionNo;
    KeyTail(a);
    KeyTail(b);
    assert Key(a)[0] == a.closeTime.value && Key(b)[0] == b.closeTime.value;
    CodesInOrder(b.positionNo, a.positionNo);
  }

  // ---------------------------------------------------------------------
  // Pages
  // ---------------------------------------------------------------------

  /** The report is strictly descending and holds the closed rows, each once. */
  lemma {:induction false} ReportIsStrict(table: seq<Row>)
    requires Unique(table)
    ensures var all := Report(table);
            && Unique(all) && Sorted(all, Newest())
            && (forall r :: r in all <==> r in table && r.closeTime.Some?)
            && |all| == |Select(table, None)|
  {
    NewestPreorder();
    var closed := Select(table, None);
    SelectUnique(table, None);
    SortSorted(closed, Newest());
    UniqueFromCounts(closed, Report(table));
    forall r ensures r in Report(table) <==> r in table && r.closeTime.Some? {
      SelectMembers(table, None, r);
      assert r in Report(table) <==> r in multiset(closed);
    }
  }

  function CursorOf(last: Row): Option<Cursor>
    requires last.closeTime.Some?
  {
    Some(Cursor(last.closeTime.value, last.positionNo))
  }

  /** The rows after the cursor of a report row are the rest of the report. */
  lemma {:induction false} RestAfterCursor(table: seq<Row>, m: nat, last: Row)
    requires Unique(table) && 0 < m <= |Report(table)| && Report(table)[m - 1] == last && last.closeTime.Some?
    ensures Sort(Select(table, CursorOf(last)), Newest()) == Report(table)[m..]
  {
    var some, rest := Select(table, CursorOf(last)), Report(table)[m..];
    ReportIsStrict(table);
    SuffixOrdered(Report(table), m);
    SelectUnique(table, CursorOf(last));
    forall r ensures r in some <==> r in rest {
      SelectMembers(table, CursorOf(last), r);
      RestMembers(table, m, last, r);
    }
    SortIs(some, rest);
  }

  lemma SuffixOrdered(all: seq<Row>, m: nat)
    requires m <= |all| && Unique(all) && Sorted(all, Newest())
    ensures Unique(all[m..]) && Sorted(all[m..], Newest())
  {
  }

  /** A strictly ordered list of the same rows is what sorting yields. */
  lemma {:induction false} SortIs(some: seq<Row>, rest: seq<Row>)
    requires Unique(some) && Unique(rest) && Sorted(rest, Newest())
    requires forall r :: r in some <==> r in rest
    ensures Sort(some, Newest()) == rest
  {
    forall r ensures multiset(some)[r] == multiset(rest)[r] {
      UniqueCounts(some, r);
      UniqueCounts(rest, r);
      assert r in some <==> r in rest;
    }
    NewestPreorder();
    SortSorted(some, Newest());
    SortedSame(rest, Sort(some, Newest()));
  }

  lemma RestMembers(table: seq<Row>, m: nat, last: Row, r: Row)
    requires Unique(table) && 0 < m <= |Report(table)| && Report(table)[m - 1] == last && last.closeTime.Some?
    ensures r in Report(table)[m..] <==> r in table && Matches(r, CursorOf(last))
  {
    ReportIsStrict(table);
    RowAfter(Report(table), m, last, r);
    if r in Report(table) {
      MatchesIsStrictlyBelow(r, last);
    }
  }

  lemma RowAfter(all: seq<Row>, m: nat, last: Row, r: Row)
    requires Unique(all) && Sorted(all, Newest()) && 0 < m <= |all| && all[m - 1] == last
    ensures r in all[m..] <==> r in all && LexLe(Key(r), Key(last)) && Key(r) != Key(last)
  {
    if r in all {
      var j :| 0 <= j < |all| && all[j] == r;
      PlaceInReport(all, m, j);
    } else {
      assert all == all[..m] + all[m..];
    }
  }

  lemma PlaceInReport(all: seq<Row>, m: nat, j: nat)
    requires Unique(all) && Sorted(all, Newest()) && 0 < m <= |all| && j < |all|
    ensures all[j] in all[m..] <==> j >= m
    ensures LexLe(Key(all[j]), Key(all[m - 1])) && Key(all[j]) != Key(all[m - 1]) <==> j >= m
  {
    if j >= m {
      assert all[m..][j - m] == all[j];
      assert Newest()(all[m - 1], all[j]);
      if Key(all[j]) == Key(all[m - 1]) {
        SameKeySamePosition(all[m - 1], all[j]);
      }
    } else {
      forall i | 0 <= i < |all[m..]| ensures all[m..][i] != all[j] {
        assert all[m..][i] == all[m + i];
      }
      if j < m - 1 {
        assert Newest()(all[j], all[m - 1]);
        if LexLe(Key(all[j]), Key(all[m - 1])) {
          LexAntisymmetric(Key(all[j]), Key(all[m - 1]));
        }
      }
    }
  }

  lemma SortedSame(a: seq<Row>, b: seq<Row>)
    requires multiset(a) == multiset(b) && Sorted(a, Newest()) && Sorted(b, Newest()) && Unique(a)
    ensures a == b
  {
    NewestPreorder();
    var le := Newest();
    forall x, y | x in a && y in a && le(x, y) && le(y, x) ensures x == y {
      LexAntisymmetric(Key(x), Key(y));
      SameKeySamePosition(x, y);
    }
    SortedUnique(a, b, le);
  }

  predicate Nameable(row: Row) {
    row.positionNo != "" && row.closeTime.Some? && ValidDate(row.closeTime.value)
  }

  /** The page holds the report rows from `start` up to `end`. */
  ghost predicate Covers(x: Texts, all: seq<Row>, limit: nat, page: Page, start: nat, end: nat) {
    && start <= end <= |all| && page.rows == all[start..end]
    && page.total == |all| && page.limit == limit
    && (page.hasMore <==> end < |all|)
    && (page.hasMore ==> end - start == limit && page.nextCursor == CursorAfter(x, page.rows))
    && (!page.hasMore ==> page.nextCursor == None)
  }

  function EndOf(all: seq<Row>, limit: nat, start: nat): (end: nat)
    requires start <= |all|
    ensures start <= end <= |all|
  {
    if start + limit < |all| then start + limit else |all|
  }

  /** The cursor decodes to the place before `start`, or to nothing at the beginning. */
  ghost predicate PointsAt(x: Texts, all: seq<Row>, cursor: Option<string>, start: nat) {
    && start <= |all|
    && (start == 0 ==> DecodeCursor(x, cursor) == None)
    && (start > 0 ==> all[start - 1].closeTime.Some? && DecodeCursor(x, cursor) == CursorOf(all[start - 1]))
  }

  lemma PageFrom(x: Texts, table: seq<Row>, limit: nat, start: nat, cursor: Option<string>)
    requires limit >= 1 && Unique(table) && PointsAt(x, Report(table), cursor, start)
    ensures Covers(x, Report(table), limit, QueryPage(x, table, limit, cursor), start, EndOf(Report(table), limit, start))
  {
    var all := Report(table);
    ReportIsStrict(table);
    if start > 0 {
      RestAfterCursor(table, start, all[start - 1]);
    } else {
      assert all[0..] == all;
    }
    PageOfRest(x, table, limit, cursor, all, start);
  }

  lemma {:induction false} PageOfRest(x: Texts, table: seq<Row>, limit: nat, cursor: Option<string>, all: seq<Row>, start: nat)
    requires limit >= 1 && start <= |all| && |Select(table, None)| == |all|
    requires Sort(Select(table, DecodeCursor(x, cursor)), Newest()) == all[start..]
    ensures Covers(x, all, limit, QueryPage(x, table, limit, cursor), start, EndOf(all, limit, start))
  {
    TakeOfRest(all, start, limit);
  }

  lemma TakeOfRest<T>(all: seq<T>, start: nat, limit: nat)
    requires start <= |all|
    ensures var rows := Take(all[start..], limit + 1);
            if start + limit < |all| then |rows| > limit && rows[..limit] == all[start..start + limit]
            else |rows| <= limit && rows == all[start..|all|]
  {
  }

  lemma LastOfSlice<T>(all: seq<T>, start: nat, end: nat)
    requires start < end <= |all|
    ensures all[start..end] != [] && all[start..end][|all[start..end]| - 1] == all[end - 1]
  {
  }

  /** The cursor after a page with more rows behind it. */
  lemma CursorDecodes(x: Texts, table: seq<Row>, limit: nat, page: Page, start: nat, end: nat, last: Row)
    requires Lawful(x) && limit >= 1 && Unique(table)
    requires Covers(x, Report(table), limit, page, start, end) && page.hasMore && Report(table)[end - 1] == last
    ensures page.nextCursor.Some? && last.closeTime.Some?
    ensures DecodeCursor(x, page.nextCursor) == if Nameable(last) then CursorOf(last) else None
  {
    ReportIsStrict(table);
    assert last in Report(table);
    LastOfSlice(Report(table), start, end);
    CursorRoundTrip(x, last.closeTime.value, last.positionNo);
  }

  ghost predicate Continues(x: Texts, table: seq<Row>, limit: nat, cursor: Option<string>, start: nat)
    requires start <= |Report(table)|
  {
    Covers(x, Report(table), limit, QueryPage(x, table, limit, cursor), start, EndOf(Report(table), limit, start))
  }

  lemma NamedContinues(x: Texts, table: seq<Row>, limit: nat, page: Page, start: nat, end: nat, last: Row)
    requires Lawful(x) && limit >= 1 && Unique(table) && Nameable(last)
    requires Covers(x, Report(table), limit, page, start, end) && page.hasMore && Report(table)[end - 1] == last
    ensures Continues(x, table, limit, page.nextCursor, end)
  {
    CursorDecodes(x, table, limit, page, start, end, last);
    PageFrom(x, table, limit, end, page.nextCursor);
  }

  lemma SameDecodingSamePage(x: Texts, table: seq<Row>, limit: nat, a: Option<string>, b: Option<string>)
    requires DecodeCursor(x, a) == DecodeCursor(x, b)
    ensures QueryPage(x, table, limit, a) == QueryPage(x, table, limit, b)
  {
  }

  lemma UnnamedRestarts(x: Texts, table: seq<Row>, limit: nat, page: Page, start: nat, end: nat, last: Row)
    requires Lawful(x) && limit >= 1 && Unique(table) && !Nameable(last)
    requires Covers(x, Report(table), limit, page, start, end) && page.hasMore && Report(table)[end - 1] == last
    ensures QueryPage(x, table, limit, page.nextCursor) == QueryPage(x, table, limit, None)
    ensures !Continues(x, table, limit, page.nextCursor, end)
  {
    CursorDecodes(x, table, limit, page, start, end, last);
    SameDecodingSamePage(x, table, limit, page.nextCursor, None);
    PageFrom(x, table, limit, 0, None);
    ReportIsStrict(table);
    StartsElsewhere(x, Report(table), limit, QueryPage(x, table, limit, None), end);
  }

  /**
    A cursor continues the report exactly when the row it names has a usable
    name. Otherwise the client is sent back to the first page.
   */
  lemma NextPageExactly(x: Texts, table: seq<Row>, limit: nat, page: Page, start: nat, end: nat, last: Row)
    requires Lawful(x) && limit >= 1 && Unique(table)
    requires Covers(x, Report(table), limit, page, start, end) && page.hasMore && Report(table)[end - 1] == last
    ensures Nameable(last) <==> Continues(x, table, limit, page.nextCursor, end)
    ensures !Nameable(last) ==> QueryPage(x, table, limit, page.nextCursor) == QueryPage(x, table, limit, None)
  {
    if Nameable(last) {
      NamedContinues(x, table, limit, page, start, end, last);
    } else {
      UnnamedRestarts(x, table, limit, page, start, end, last);
    }
  }

  /** A page that starts at 0 does not start at a later place. */
  lemma StartsElsewhere(x: Texts, all: seq<Row>, limit: nat, page: Page, start: nat)
    requires Unique(all) && limit >= 1 && 0 < start < |all|
    requires Covers(x, all, limit, page, 0, EndOf(all, limit, 0))
    ensures !Covers(x, all, limit, page, start, EndOf(all, limit, start))
  {
    assert page.rows[0] == all[0] && all[0].positionNo != all[start].positionNo;
    assert all[start..EndOf(all, limit, start)][0] == all[start];
  }

  const RESTARTING: seq<Row> := [Row("", Some(5), 0), Row("A", Some(3), 0)]

  /** The newest of two rows has an empty number: with one row a page, the first page follows itself forever. */
  lemma RestartExample(x: Texts)
    requires Lawful(x)
    ensures Unique(RESTARTING)
    ensures var first := QueryPage(x, RESTARTING, 1, None);
            && first.rows == [RESTARTING[0]] && first.hasMore
            && QueryPage(x, RESTARTING, 1, first.nextCursor) == first
  {
    var newest, older := RESTARTING[0], RESTARTING[1];
    assert RESTARTING[1..] == [older] && [older][1..] == [];
    assert Select([older], None) == [older] && Select(RESTARTING, None) == RESTARTING;
    assert Key(newest)[0] == 5 && Key(older)[0] == 3;
    assert LexLe(Key(older), Key(newest));
    SortIs(Select(RESTARTING, None), RESTARTING);
    PageFrom(x, RESTARTING, 1, 0, None);
    UnnamedRestarts(x, RESTARTING, 1, QueryPage(x, RESTARTING, 1, None), 0, 1, newest);
  }

  // ---------------------------------------------------------------------
  // Following the cursors
  // ---------------------------------------------------------------------

  /** The pages a client sees when it starts without a cursor and follows each next cursor. */
  ghost predicate Follows(x: Texts, table: seq<Row>, limit: nat, pages: seq<Page>)
    decreases |pages|
  {
    if |pages| <= 1 then |pages| == 1 && pages[0] == QueryPage(x, table, limit, None)
    else
      var n := |pages| - 1;
      && Follows(x, table, limit, pages[..n])
      && pages[n - 1].nextCursor.Some?
      && pages[n] == QueryPage(x, table, limit, pages[n - 1].nextCursor)
  }

  function AllRows(pages: seq<Page>): seq<Row> {
    if pages == [] then [] else AllRows(pages[..|pages| - 1]) + pages[|pages| - 1].rows
  }

  ghost predicate AllNameable(table: seq<Row>) {
    forall r | r in table && r.closeTime.Some? :: Nameable(r)
  }

  lemma {:induction false} FollowsPrefix(x: Texts, table: seq<Row>, limit: nat, pages: seq<Page>, n: nat, m: nat)
    requires Follows(x, table, limit, pages) && n == m + 1 == |pages| - 1
    ensures Follows(x, table, limit, pages[..n]) && pages[..n][m] == pages[m]
    ensures pages[m].nextCursor.Some? && pages[n] == QueryPage(x, table, limit, pages[m].nextCursor)
  {
  }

  /** The rows in n full pages. */
  function Full(n: nat, limit: nat): nat {
    n * limit
  }

  lemma FullNext(n: nat, limit: nat)
    ensures Full(n + 1, limit) == Full(n, limit) + limit
  {
  }

  ghost predicate SoFar(x: Texts, table: seq<Row>, limit: nat, pages: seq<Page>, n: nat, start: nat, end: nat) {
    && |pages| == n + 1
    && Covers(x, Report(table), limit, pages[n], start, end)
    && AllRows(pages) == Report(table)[..end]
    && start == Full(n, limit)
  }

  lemma {:induction false} FollowedSoFar(x: Texts, table: seq<Row>, limit: nat, pages: seq<Page>, n: nat)
    returns (start: nat, end: nat)
    requires Lawful(x) && limit >= 1 && Unique(table) && AllNameable(table) && Follows(x, table, limit, pages)
    requires |pages| == n + 1
    ensures SoFar(x, table, limit, pages, n, start, end)
    decreases n
  {
    if n == 0 {
      start, end := 0, EndOf(Report(table), limit, 0);
      FirstSoFar(x, table, limit, pages);
    } else {
      var m := n - 1;
      FollowsPrefix(x, table, limit, pages, n, m);
      var before, mid := FollowedSoFar(x, table, limit, pages[..n], m);
      start, end := OneMoreSoFar(x, table, limit, pages, n, m, before, mid);
    }
  }

  lemma {:induction false} FirstSoFar(x: Texts, table: seq<Row>, limit: nat, pages: seq<Page>)
    requires Lawful(x) && limit >= 1 && Unique(table) && |pages| == 1 && pages[0] == QueryPage(x, table, limit, None)
    ensures SoFar(x, table, limit, pages, 0, 0, EndOf(Report(table), limit, 0))
  {
    PageFrom(x, table, limit, 0, None);
    AllRowsNext(pages, 0);
  }

  lemma {:induction false} OneMoreSoFar(
    x: Texts, table: seq<Row>, limit: nat, pages: seq<Page>, n: nat, m: nat, before: nat, mid: nat)
    returns (start: nat, end: nat)
    requires Lawful(x) && limit >= 1 && Unique(table) && AllNameable(table) && n == m + 1 == |pages| - 1
    requires SoFar(x, table, limit, pages[..n], m, before, mid) && pages[m].nextCursor.Some?
    requires pages[n] == QueryPage(x, table, limit, pages[m].nextCursor)
    ensures SoFar(x, table, limit, pages, n, start, end)
  {
    start, end := FollowOne(x, table, limit, pages[m], before, mid);
    FullNext(m, limit);
    AllRowsNext(pages, n);
    JoinSlices(Report(table), mid, end);
  }

  lemma {:induction false} AllRowsNext(pages: seq<Page>, n: nat)
    requires |pages| == n + 1
    ensures AllRows(pages) == AllRows(pages[..n]) + pages[n].rows
    ensures AllRows(pages[..0]) == []
  {
  }

  lemma JoinSlices<T>(all: seq<T>, mid: nat, end: nat)
    requires mid <= end <= |all|
    ensures all[..mid] + all[mid..end] == all[..end]
  {
  }

  lemma FollowOne(x: Texts, table: seq<Row>, limit: nat, page: Page, before: nat, mid: nat) returns (start: nat, end: nat)
    requires Lawful(x) && limit >= 1 && Unique(table) && AllNameable(table)
    requires Covers(x, Report(table), limit, page, before, mid) && page.nextCursor.Some?
    ensures start == mid && start == before + limit
    ensures Covers(x, Report(table), limit, QueryPage(x, table, limit, page.nextCursor), start, end)
  {
    var all := Report(table);
    ReportIsStrict(table);
    assert all[mid - 1] in all;
    NextPageExactly(x, table, limit, page, before, mid, all[mid - 1]);
    start, end := mid, EndOf(all, limit, mid);
  }

  /**
    Pagination is exact: however far a client follows the cursors, it has read a
    prefix of the report; at the end, and only then, it has read the whole
    report, and the end comes with the page that fills it.
   */
  lemma {:induction false} PaginationExact(x: Texts, table: seq<Row>, limit: nat, pages: seq<Page>, n: nat)
    requires Lawful(x) && limit >= 1 && Unique(table) && AllNameable(table) && Follows(x, table, limit, pages)
    requires |pages| == n + 1
    ensures AllRows(pages) <= Report(table)
    ensures pages[n].nextCursor == None <==> AllRows(pages) == Report(table)
    ensures n * limit <= |Report(table)|
    ensures (n + 1) * limit >= |Report(table)| <==> pages[n].nextCursor == None
  {
    var start, end := FollowedSoFar(x, table, limit, pages, n);
    FullNext(n, limit);
    WholeAtEnd(x, table, limit, pages[n], start, end);
  }

  lemma WholeAtEnd(x: Texts, table: seq<Row>, limit: nat, page: Page, start: nat, end: nat)
    requires Lawful(x) && limit >= 1 && Unique(table) && Covers(x, Report(table), limit, page, start, end)
    ensures page.nextCursor == None <==> end == |Report(table)|
    ensures page.nextCursor == None <==> Report(table)[..end] == Report(table)
    ensures end < |Report(table)| ==> end == start + limit
  {
    if page.hasMore {
      CursorDecodes(x, table, limit, page, start, end, Report(table)[end - 1]);
      assert |Report(table)[..end]| == end;
    }
  }
}
