/**
  A Redis stream with one consumer group: the entries, the last-delivered id and
  the pending entries, as the commands of the consumer change them.
 */
module StreamGroup {
  import opened Sequences

  type Millis = int

  datatype Id = Id(ms: nat, no: nat)

  const ZERO := Id(0, 0)

  predicate Lt(a: Id, b: Id) {
    a.ms < b.ms || (a.ms == b.ms && a.no < b.no)
  }

  /** The smallest id above this one. */
  function Successor(a: Id): Id {
    Id(a.ms, a.no + 1)
  }

  datatype Entry<M> = Entry(id: Id, message: M)

  /** A delivered entry that has not been acknowledged. */
  datatype Pend = Pend(id: Id, deliveredAt: Millis)

  /** With two histories Redis does not keep: every entry ever appended, and every id acknowledged. */
  datatype Group<M> = Group(
    entries: seq<Entry<M>>, lastDelivered: Id, pending: seq<Pend>, appended: seq<Entry<M>>, acked: set<Id>)

  function Empty<M>(): Group<M> {
    Group([], ZERO, [], [], {})
  }

  // ---------------------------------------------------------------------
  // The commands
  // ---------------------------------------------------------------------

  /** The entries after an id. */
  function After<M>(entries: seq<Entry<M>>, id: Id): seq<Entry<M>> {
    if entries == [] || Lt(id, entries[0].id) then entries else After(entries[1..], id)
  }

  /** The entries that are not before an id. */
  function NotBefore<M>(entries: seq<Entry<M>>, id: Id): seq<Entry<M>> {
    if entries == [] || !Lt(entries[0].id, id) then entries else NotBefore(entries[1..], id)
  }

  function PendingFrom(pending: seq<Pend>, start: Id): seq<Pend> {
    if pending == [] || !Lt(pending[0].id, start) then pending else PendingFrom(pending[1..], start)
  }

  function Without(pending: seq<Pend>, id: Id): seq<Pend> {
    if pending == [] then []
    else (if pending[0].id == id then [] else [pending[0]]) + Without(pending[1..], id)
  }

  function Touch(pending: seq<Pend>, id: Id, now: Millis): seq<Pend> {
    seq(|pending|, i requires 0 <= i < |pending| =>
      if pending[i].id == id then pending[i].(deliveredAt := now) else pending[i])
  }

  function Delivered<M>(batch: seq<Entry<M>>, now: Millis): seq<Pend> {
    seq(|batch|, i requires 0 <= i < |batch| => Pend(batch[i].id, now))
  }

  predicate IsPending(pending: seq<Pend>, id: Id) {
    exists i | 0 <= i < |pending| :: pending[i].id == id
  }

  /** XADD. */
  function Add<M>(g: Group<M>, e: Entry<M>): Group<M> {
    g.(entries := g.entries + [e], appended := g.appended + [e])
  }

  function Undelivered<M>(g: Group<M>): seq<Entry<M>> {
    After(g.entries, g.lastDelivered)
  }

  /** XREADGROUP with id `>`. */
  function Read<M>(g: Group<M>, count: nat, now: Millis): Group<M> {
    var batch := Take(Undelivered(g), count);
    if batch == [] then g
    else g.(lastDelivered := batch[|batch| - 1].id, pending := g.pending + Delivered(batch, now))
  }

  /** XACK. */
  function Ack<M>(g: Group<M>, id: Id): Group<M> {
    if IsPending(g.pending, id) then g.(pending := Without(g.pending, id), acked := g.acked + {id}) else g
  }

  /** XCLAIM of one pending entry by the reader itself. */
  function Claim<M>(g: Group<M>, id: Id, now: Millis): Group<M> {
    g.(pending := Touch(g.pending, id, now))
  }

  /** XTRIM MINID. */
  function Trim<M>(g: Group<M>, floor: Id): Group<M> {
    g.(entries := NotBefore(g.entries, floor))
  }

  /** The floor the consumer trims to: the first pending id, else the last delivered one. */
  function TrimFloor<M>(g: Group<M>): Id {
    if g.pending != [] then g.pending[0].id else g.lastDelivered
  }

  // ---------------------------------------------------------------------
  // What every command keeps
  // ---------------------------------------------------------------------

  ghost predicate Ordered<M>(entries: seq<Entry<M>>) {
    forall i, j | 0 <= i < j < |entries| :: Lt(entries[i].id, entries[j].id)
  }

  ghost predicate PendingOrdered(pending: seq<Pend>) {
    forall i, j | 0 <= i < j < |pending| :: Lt(pending[i].id, pending[j].id)
  }

  /** Entries leave the stream from the front only, and only once acknowledged. */
  ghost predicate TrimmedAcked<M>(g: Group<M>) {
    && |g.entries| <= |g.appended|
    && g.entries == g.appended[|g.appended| - |g.entries|..]
    && forall i | 0 <= i < |g.appended| - |g.entries| :: g.appended[i].id in g.acked
  }

  predicate Known<M>(appended: seq<Entry<M>>, id: Id) {
    exists i | 0 <= i < |appended| :: appended[i].id == id
  }

  /** A delivered entry is pending or acknowledged, and never both; an undelivered one is neither. */
  ghost predicate Accounted<M>(g: Group<M>) {
    && (forall id {:trigger Known(g.appended, id)} | Known(g.appended, id) ::
          (IsPending(g.pending, id) || id in g.acked) <==> !Lt(g.lastDelivered, id))
    && (forall id {:trigger IsPending(g.pending, id)} | IsPending(g.pending, id) ::
          Known(g.appended, id) && !Lt(g.lastDelivered, id))
    && (forall id {:trigger id in g.acked} | id in g.acked :: !Lt(g.lastDelivered, id) && !IsPending(g.pending, id))
  }

  ghost predicate GroupOk<M>(g: Group<M>) {
    && Ordered(g.appended) && (forall i | 0 <= i < |g.appended| :: Lt(ZERO, g.appended[i].id))
    && PendingOrdered(g.pending)
    && TrimmedAcked(g) && Accounted(g)
    && (g.lastDelivered == ZERO || Known(g.appended, g.lastDelivered))
  }

  predicate Fresh<M>(g: Group<M>, e: Entry<M>) {
    && Lt(ZERO, e.id)
    && forall i | 0 <= i < |g.appended| :: Lt(g.appended[i].id, e.id)
  }

  lemma AddKeeps<M>(g: Group<M>, e: Entry<M>)
    requires GroupOk(g) && Fresh(g, e)
    ensures GroupOk(Add(g, e))
  {
    var h := Add(g, e);
    forall id ensures Known(h.appended, id) <==> Known(g.appended, id) || id == e.id {
      KnownJoined(g.appended, [e], id);
      assert [e][0].id == e.id;
    }
    assert Lt(g.lastDelivered, e.id);
  }

  lemma KnownJoined<M>(a: seq<Entry<M>>, b: seq<Entry<M>>, id: Id)
    ensures Known(a + b, id) <==> Known(a, id) || Known(b, id)
  {
    if Known(a + b, id) {
      var i :| 0 <= i < |a + b| && (a + b)[i].id == id;
      if i < |a| {
        assert a[i].id == id;
      } else {
        assert b[i - |a|].id == id;
      }
    }
    if Known(a, id) {
      var i :| 0 <= i < |a| && a[i].id == id;
      assert (a + b)[i].id == id;
    }
    if Known(b, id) {
      var i :| 0 <= i < |b| && b[i].id == id;
      assert (a + b)[|a| + i].id == id;
    }
  }

  lemma {:induction false} WithoutIs(pending: seq<Pend>, id: Id, x: Id)
    ensures IsPending(Without(pending, id), x) <==> IsPending(pending, x) && x != id
    ensures forall p | p in Without(pending, id) :: p in pending
  {
    if pending != [] {
      var rest := Without(pending[1..], id);
      WithoutIs(pending[1..], id, x);
      var kept := Without(pending, id);
      if IsPending(kept, x) {
        var i :| 0 <= i < |kept| && kept[i].id == x;
        if kept[i] == pending[0] {
        } else {
          assert kept[i] in rest;
          var k :| 0 <= k < |rest| && rest[k] == kept[i];
          assert IsPending(rest, x);
          var m :| 0 <= m < |pending[1..]| && pending[1..][m].id == x;
          assert pending[m + 1].id == x;
        }
      }
      if IsPending(pending, x) && x != id {
        var i :| 0 <= i < |pending| && pending[i].id == x;
        if i == 0 {
          assert kept[0] == pending[0];
        } else {
          assert pending[1..][i - 1].id == x;
          var k :| 0 <= k < |rest| && rest[k].id == x;
          assert kept[|kept| - |rest| + k] == rest[k];
        }
      }
    }
  }

  lemma {:induction false} WithoutOrdered(pending: seq<Pend>, id: Id)
    requires PendingOrdered(pending)
    ensures PendingOrdered(Without(pending, id))
  {
    if pending != [] {
      WithoutOrdered(pending[1..], id);
      WithoutIs(pending[1..], id, id);
      forall p | p in Without(pending[1..], id) ensures Lt(pending[0].id, p.id) {
        assert p in pending[1..];
      }
    }
  }

  lemma AckKeeps<M>(g: Group<M>, id: Id)
    requires GroupOk(g)
    ensures GroupOk(Ack(g, id))
  {
    var h := Ack(g, id);
    if IsPending(g.pending, id) {
      WithoutOrdered(g.pending, id);
      forall x ensures IsPending(h.pending, x) <==> IsPending(g.pending, x) && x != id {
        WithoutIs(g.pending, id, x);
      }
    }
  }

  lemma ClaimKeeps<M>(g: Group<M>, id: Id, now: Millis)
    requires GroupOk(g)
    ensures GroupOk(Claim(g, id, now))
  {
    var h := Claim(g, id, now);
    SameIdsPending(g.pending, h.pending);
  }

  lemma SameIdsPending(a: seq<Pend>, b: seq<Pend>)
    requires |a| == |b| && forall i | 0 <= i < |a| :: a[i].id == b[i].id
    ensures forall x :: IsPending(a, x) <==> IsPending(b, x)
  {
    forall x ensures IsPending(a, x) <==> IsPending(b, x) {
      if IsPending(a, x) {
        var i :| 0 <= i < |a| && a[i].id == x;
        assert b[i].id == x;
      }
      if IsPending(b, x) {
        var i :| 0 <= i < |b| && b[i].id == x;
        assert a[i].id == x;
      }
    }
  }

  // ---------------------------------------------------------------------
  // Reading
  // ---------------------------------------------------------------------

  lemma {:induction false} AfterIsSuffix<M>(entries: seq<Entry<M>>, id: Id) returns (k: nat)
    requires Ordered(entries)
    ensures k <= |entries| && After(entries, id) == entries[k..]
    ensures forall i | 0 <= i < k :: !Lt(id, entries[i].id)
    ensures forall i | k <= i < |entries| :: Lt(id, entries[i].id)
  {
    if entries == [] || Lt(id, entries[0].id) {
      k := 0;
    } else {
      var rest := entries[1..];
      k := AfterIsSuffix(rest, id);
      assert rest[k..] == entries[k + 1..];
      k := k + 1;
    }
  }

  lemma {:induction false} NotBeforeIsSuffix<M>(entries: seq<Entry<M>>, id: Id) returns (k: nat)
    requires Ordered(entries)
    ensures k <= |entries| && NotBefore(entries, id) == entries[k..]
    ensures forall i | 0 <= i < k :: Lt(entries[i].id, id)
    ensures forall i | k <= i < |entries| :: !Lt(entries[i].id, id)
  {
    if entries == [] || !Lt(entries[0].id, id) {
      k := 0;
    } else {
      var rest := entries[1..];
      k := NotBeforeIsSuffix(rest, id);
      assert rest[k..] == entries[k + 1..];
      k := k + 1;
    }
  }

  lemma SuffixOfSuffix<T>(all: seq<T>, t: nat, m: nat)
    requires t + m <= |all|
    ensures all[t..][m..] == all[t + m..]
    ensures forall i | t <= i < |all| :: all[i] == all[t..][i - t]
  {
  }

  lemma TakeOfSuffix<T>(all: seq<T>, k: nat, count: nat)
    requires k <= |all|
    ensures k + |Take(all[k..], count)| <= |all|
    ensures Take(all[k..], count) == all[k..k + |Take(all[k..], count)|]
  {
  }

  lemma AfterInWhole<M>(all: seq<Entry<M>>, t: nat, id: Id) returns (k: nat)
    requires Ordered(all) && t <= |all| && forall i | 0 <= i < t :: !Lt(id, all[i].id)
    ensures k <= |all| && After(all[t..], id) == all[k..]
    ensures forall i | 0 <= i < k :: !Lt(id, all[i].id)
    ensures forall i | k <= i < |all| :: Lt(id, all[i].id)
  {
    SuffixOfSuffix(all, t, 0);
    var m := AfterIsSuffix(all[t..], id);
    k := t + m;
    SuffixOfSuffix(all, t, m);
  }

  lemma TrimmedDelivered<M>(g: Group<M>)
    requires TrimmedAcked(g) && Accounted(g)
    ensures forall i | 0 <= i < |g.appended| - |g.entries| :: !Lt(g.lastDelivered, g.appended[i].id)
  {
  }

  /** The next batch is the next stretch of the stream. */
  lemma BatchPlace<M>(g: Group<M>, count: nat) returns (k: nat)
    requires GroupOk(g)
    ensures var batch := Take(Undelivered(g), count);
            k + |batch| <= |g.appended| && batch == g.appended[k..k + |batch|]
    ensures forall i | 0 <= i < k :: !Lt(g.lastDelivered, g.appended[i].id)
    ensures forall i | k <= i < |g.appended| :: Lt(g.lastDelivered, g.appended[i].id)
  {
    TrimmedDelivered(g);
    k := AfterInWhole(g.appended, |g.appended| - |g.entries|, g.lastDelivered);
    TakeOfSuffix(g.appended, k, count);
  }

  lemma EntriesOrdered<M>(g: Group<M>)
    requires Ordered(g.appended) && TrimmedAcked(g)
    ensures Ordered(g.entries)
  {
    SuffixOfSuffix(g.appended, |g.appended| - |g.entries|, 0);
  }

  lemma ReadKeeps<M>(g: Group<M>, count: nat, now: Millis)
    requires GroupOk(g)
    ensures GroupOk(Read(g, count, now))
  {
    var batch, h := Take(Undelivered(g), count), Read(g, count, now);
    if batch != [] {
      var k := BatchPlace(g, count);
      var n := |batch|;
      assert forall i | 0 <= i < n :: batch[i] == g.appended[k + i];
      assert h.lastDelivered == g.appended[k + n - 1].id;
      ReadAccounted(g, h, k, n, now);
    }
  }

  lemma ReadAccounted<M>(g: Group<M>, h: Group<M>, k: nat, n: nat, now: Millis)
    requires GroupOk(g) && 0 < n && k + n <= |g.appended|
    requires h == g.(lastDelivered := g.appended[k + n - 1].id,
                     pending := g.pending + Delivered(g.appended[k..k + n], now))
    requires forall i | 0 <= i < k :: !Lt(g.lastDelivered, g.appended[i].id)
    requires forall i | k <= i < |g.appended| :: Lt(g.lastDelivered, g.appended[i].id)
    ensures GroupOk(h)
  {
    ReadPending(g, h, k, n, now);
    ReadOrdered(g, k, n, now);
    StretchAccounted(g, h, k, n);
    assert Known(h.appended, h.lastDelivered);
  }

  /** The batch moves from undelivered to pending. */
  lemma StretchAccounted<M>(g: Group<M>, h: Group<M>, k: nat, n: nat)
    requires Ordered(g.appended) && Accounted(g) && 0 < n && k + n <= |g.appended|
    requires h.appended == g.appended && h.acked == g.acked && h.lastDelivered == g.appended[k + n - 1].id
    requires forall id :: IsPending(h.pending, id) <==> IsPending(g.pending, id) || InStretch(g.appended, k, n, id)
    requires forall i | 0 <= i < k :: !Lt(g.lastDelivered, g.appended[i].id)
    requires forall i | k <= i < |g.appended| :: Lt(g.lastDelivered, g.appended[i].id)
    ensures Accounted(h)
  {
    forall id | Known(h.appended, id)
      ensures (IsPending(h.pending, id) || id in h.acked) <==> !Lt(h.lastDelivered, id)
    {
      var i :| 0 <= i < |g.appended| && g.appended[i].id == id;
      if k <= i < k + n {
        assert InStretch(g.appended, k, n, id);
      }
    }
    assert Lt(g.lastDelivered, h.lastDelivered);
  }

  ghost predicate InStretch<M>(appended: seq<Entry<M>>, k: nat, n: nat, id: Id)
    requires k + n <= |appended|
  {
    exists i | k <= i < k + n :: appended[i].id == id
  }

  lemma ReadPending<M>(g: Group<M>, h: Group<M>, k: nat, n: nat, now: Millis)
    requires k + n <= |g.appended| && h.pending == g.pending + Delivered(g.appended[k..k + n], now)
    ensures forall id :: IsPending(h.pending, id) <==> IsPending(g.pending, id) || InStretch(g.appended, k, n, id)
  {
    var more := Delivered(g.appended[k..k + n], now);
    forall id ensures IsPending(h.pending, id) <==> IsPending(g.pending, id) || InStretch(g.appended, k, n, id) {
      PendingJoined(g.pending, more, id);
      if IsPending(more, id) {
        var i :| 0 <= i < |more| && more[i].id == id;
        assert g.appended[k + i].id == id;
      }
      if InStretch(g.appended, k, n, id) {
        var i :| k <= i < k + n && g.appended[i].id == id;
        assert more[i - k].id == id;
      }
    }
  }

  lemma ReadOrdered<M>(g: Group<M>, k: nat, n: nat, now: Millis)
    requires k + n <= |g.appended| && Ordered(g.appended) && PendingOrdered(g.pending)
    requires forall i | k <= i < |g.appended| :: Lt(g.lastDelivered, g.appended[i].id)
    requires forall id | IsPending(g.pending, id) :: !Lt(g.lastDelivered, id)
    ensures PendingOrdered(g.pending + Delivered(g.appended[k..k + n], now))
  {
    forall i | 0 <= i < |g.pending| ensures !Lt(g.lastDelivered, g.pending[i].id) {
      assert IsPending(g.pending, g.pending[i].id);
    }
  }

  lemma PendingJoined(a: seq<Pend>, b: seq<Pend>, x: Id)
    ensures IsPending(a + b, x) <==> IsPending(a, x) || IsPending(b, x)
  {
    if IsPending(a + b, x) {
      var i :| 0 <= i < |a + b| && (a + b)[i].id == x;
      if i < |a| {
        assert a[i].id == x;
      } else {
        assert b[i - |a|].id == x;
      }
    }
    if IsPending(a, x) {
      var i :| 0 <= i < |a| && a[i].id == x;
      assert (a + b)[i].id == x;
    }
    if IsPending(b, x) {
      var i :| 0 <= i < |b| && b[i].id == x;
      assert (a + b)[|a| + i].id == x;
    }
  }

  // ---------------------------------------------------------------------
  // Trimming
  // ---------------------------------------------------------------------

  /** No pending entry lies before the floor, and nothing undelivered does. */
  ghost predicate SafeFloor<M>(g: Group<M>, floor: Id) {
    !Lt(g.lastDelivered, floor) && forall i | 0 <= i < |g.pending| :: !Lt(g.pending[i].id, floor)
  }

  lemma FloorIsSafe<M>(g: Group<M>)
    requires GroupOk(g)
    ensures SafeFloor(g, TrimFloor(g))
  {
    forall i | 0 <= i < |g.pending| ensures !Lt(g.pending[i].id, TrimFloor(g)) {
    }
    if g.pending != [] {
      assert IsPending(g.pending, g.pending[0].id);
    }
  }

  /** A trim to a safe floor removes acknowledged entries and nothing else. */
  lemma TrimRemovesOnlyAcked<M>(g: Group<M>, floor: Id)
    requires GroupOk(g) && SafeFloor(g, floor)
    ensures GroupOk(Trim(g, floor))
    ensures forall e: Entry<M> | e in g.entries && e !in Trim(g, floor).entries :: e.id in g.acked
  {
    var t := |g.appended| - |g.entries|;
    EntriesOrdered(g);
    var k := NotBeforeIsSuffix(g.entries, floor);
    SuffixOfSuffix(g.appended, t, 0);
    forall i | t <= i < t + k ensures g.appended[i].id in g.acked {
      BelowFloorAcked(g, floor, i);
    }
    TrimmedStays(g, Trim(g, floor), k);
    forall e: Entry<M> | e in g.entries && e !in Trim(g, floor).entries ensures e.id in g.acked {
      FrontOrBack(g.entries, k, e);
    }
  }

  lemma TrimmedStays<M>(g: Group<M>, h: Group<M>, k: nat)
    requires TrimmedAcked(g) && k <= |g.entries| && h == g.(entries := g.entries[k..])
    requires forall i | |g.appended| - |g.entries| <= i < |g.appended| - |g.entries| + k :: g.appended[i].id in g.acked
    ensures TrimmedAcked(h)
  {
    SuffixOfSuffix(g.appended, |g.appended| - |g.entries|, k);
  }

  lemma FrontOrBack<T>(s: seq<T>, k: nat, x: T)
    requires k <= |s| && x in s && x !in s[k..]
    ensures exists i | 0 <= i < k :: s[i] == x
  {
    assert s == s[..k] + s[k..];
    assert x in s[..k];
  }

  lemma BelowFloorAcked<M>(g: Group<M>, floor: Id, i: nat)
    requires GroupOk(g) && SafeFloor(g, floor) && i < |g.appended| && Lt(g.appended[i].id, floor)
    ensures g.appended[i].id in g.acked
  {
    var id := g.appended[i].id;
    assert Known(g.appended, id) && !Lt(g.lastDelivered, id);
    assert !IsPending(g.pending, id);
  }
}
