/**
  The consumer of one stream: reads new entries, retries idle pending ones,
  acknowledges what the handler accepted, and trims what is acknowledged.
 */
module StreamConsumer {
  import opened Wrappers
  import opened StreamGroup
  import opened Sequences

  /** How handling one entry ends. An acknowledgement may fail on its way to Redis or on its way back. */
  datatype Visit = Acked | AckFailed(executed: bool) | LeftPending | Threw

  datatype Call = Call(id: Id, visit: Visit)

  /** The handler accepted the entry in one of these calls. */
  ghost predicate AcceptedIn(visits: seq<Call>, id: Id) {
    exists c | c in visits :: c.id == id && Accepts(c.visit)
  }

  /** The handler's answer may depend on everything handled before it. */
  type Handler<!M> = (nat, Entry<M>) -> Visit

  predicate Accepts(v: Visit) {
    v.Acked? || v.AckFailed?
  }

  /** The visit ends in an exception. */
  predicate Aborts(v: Visit) {
    v.AckFailed? || v.Threw?
  }

  const RECLAIM_PAGE_SIZE := 100
  const RECLAIM_MAX_PAGES := 10
  const TRIM_EVERY_ITERATIONS := 100

  // ---------------------------------------------------------------------
  // Handling a list of entries
  // ---------------------------------------------------------------------

  /** The calls of the handler, in order, up to the first that aborts. */
  function VisitLog<M>(batch: seq<Entry<M>>, handler: Handler<M>, calls: nat): seq<Call> {
    if batch == [] then []
    else
      var v := handler(calls, batch[0]);
      [Call(batch[0].id, v)] + (if Aborts(v) then [] else VisitLog(batch[1..], handler, calls + 1))
  }

  /** One visit: a retried entry is claimed first, and an accepted one is acknowledged. */
  function AfterVisit<M>(g: Group<M>, e: Entry<M>, v: Visit, claimedAt: Option<Millis>): Group<M> {
    var h := if claimedAt.Some? then Claim(g, e.id, claimedAt.value) else g;
    if v == Acked || v == AckFailed(true) then Ack(h, e.id) else h
  }

  /** Some visit ends in an exception. */
  function PassAborts<M>(batch: seq<Entry<M>>, handler: Handler<M>, calls: nat): bool {
    batch != [] && (Aborts(handler(calls, batch[0])) || PassAborts(batch[1..], handler, calls + 1))
  }

  function AfterVisits<M>(
    g: Group<M>, batch: seq<Entry<M>>, handler: Handler<M>, calls: nat, claimedAt: Option<Millis>): Group<M>
    decreases |batch|
  {
    if batch == [] then g
    else
      var v := handler(calls, batch[0]);
      var h := AfterVisit(g, batch[0], v, claimedAt);
      if Aborts(v) then h else AfterVisits(h, batch[1..], handler, calls + 1, claimedAt)
  }

  function Find<M>(entries: seq<Entry<M>>, id: Id): Option<Entry<M>> {
    if entries == [] then None else if entries[0].id == id then Some(entries[0]) else Find(entries[1..], id)
  }

  /** The entries among these pending ones that have been idle for long enough. */
  function Idle<M>(pending: seq<Pend>, entries: seq<Entry<M>>, idleMs: int, now: Millis): seq<Entry<M>> {
    if pending == [] then []
    else
      var e := Find(entries, pending[0].id);
      (if now - pending[0].deliveredAt >= idleMs && e.Some? then [e.value] else [])
      + Idle(pending[1..], entries, idleMs, now)
  }

  // ---------------------------------------------------------------------
  // Redis, as the consumer sees it
  // ---------------------------------------------------------------------

  class Stream<M(==)> {
    var entries: seq<Entry<M>>
    var lastDelivered: Id
    var pending: seq<Pend>
    ghost var appended: seq<Entry<M>>
    ghost var acked: set<Id>
    ghost var visits: seq<Call>

    ghost function State(): Group<M>
      reads this
    {
      Group(entries, lastDelivered, pending, appended, acked)
    }

    /** Acknowledged only after the handler accepted it. */
    ghost predicate AckedByHandler()
      reads this
    {
      forall id | id in acked :: AcceptedIn(visits, id)
    }

    ghost predicate Valid()
      reads this
    {
      GroupOk(State()) && AckedByHandler()
    }

    constructor ()
      ensures Valid() && State() == Empty<M>() && visits == []
    {
      entries, lastDelivered, pending := [], ZERO, [];
      appended, acked, visits := [], {}, [];
    }

    method XAdd(e: Entry<M>)
      requires Valid() && Fresh(State(), e)
      modifies this
      ensures Valid() && State() == Add(old(State()), e) && visits == old(visits)
    {
      AddKeeps(State(), e);
      entries, appended := entries + [e], appended + [e];
    }

    method XReadGroup(count: nat, now: Millis) returns (batch: seq<Entry<M>>)
      requires Valid()
      modifies this
      ensures Valid() && State() == Read(old(State()), count, now) && visits == old(visits)
      ensures batch == Take(Undelivered(old(State())), count)
    {
      ReadKeeps(State(), count, now);
      batch := Take(After(entries, lastDelivered), count);
      if batch != [] {
        lastDelivered, pending := batch[|batch| - 1].id, pending + Delivered(batch, now);
      }
    }

    method XAck(e: Entry<M>)
      requires Valid() && AcceptedIn(visits, e.id)
      modifies this
      ensures Valid() && State() == Ack(old(State()), e.id) && visits == old(visits)
    {
      AckKeeps(State(), e.id);
      if IsPending(pending, e.id) {
        acked := acked + {e.id};
        pending := Without(pending, e.id);
      }
    }

    method XClaim(id: Id, now: Millis) returns (e: Option<Entry<M>>)
      requires Valid()
      modifies this
      ensures Valid() && State() == Claim(old(State()), id, now) && visits == old(visits)
      ensures e == Find(old(entries), id)
    {
      ClaimKeeps(State(), id, now);
      pending := Touch(pending, id, now);
      e := Find(entries, id);
    }

    method XTrim(floor: Id)
      requires Valid() && SafeFloor(State(), floor)
      modifies this
      ensures Valid() && State() == Trim(old(State()), floor) && visits == old(visits)
    {
      TrimRemovesOnlyAcked(State(), floor);
      entries := NotBefore(entries, floor);
    }

    /** The handler runs. */
    ghost method Handled(e: Entry<M>, v: Visit)
      requires Valid()
      modifies this`visits
      ensures Valid() && visits == old(visits) + [Call(e.id, v)]
    {
      visits := visits + [Call(e.id, v)];
    }
  }

  // ---------------------------------------------------------------------
  // The consumer
  // ---------------------------------------------------------------------

  /** What a list of visits still leads to, from the state and the calls so far, and whether it is cut short. */
  ghost function Outlook<M>(
    g: Group<M>, visits: seq<Call>, rest: seq<Entry<M>>, handler: Handler<M>, claimedAt: Option<Millis>, aborted: bool
  ): (Group<M>, seq<Call>, bool) {
    (AfterVisits(g, rest, handler, |visits|, claimedAt), visits + VisitLog(rest, handler, |visits|),
     aborted || PassAborts(rest, handler, |visits|))
  }

  function Left<M>(rest: seq<Entry<M>>, v: Visit): seq<Entry<M>>
    requires rest != []
  {
    if Aborts(v) then [] else rest[1..]
  }

  lemma VisitsStep<M>(
    g: Group<M>, visits: seq<Call>, rest: seq<Entry<M>>, handler: Handler<M>, claimedAt: Option<Millis>)
    requires rest != []
    ensures var v := handler(|visits|, rest[0]);
            Outlook(g, visits, rest, handler, claimedAt, false)
            == Outlook(AfterVisit(g, rest[0], v, claimedAt), visits + [Call(rest[0].id, v)], Left(rest, v), handler, claimedAt,
                       Aborts(v))
  {
    var v := handler(|visits|, rest[0]);
    assert visits + VisitLog(rest, handler, |visits|)
        == visits + [Call(rest[0].id, v)] + VisitLog(Left(rest, v), handler, |visits| + 1);
  }

  lemma NothingLeft<M>(g: Group<M>, visits: seq<Call>, handler: Handler<M>, claimedAt: Option<Millis>, aborted: bool)
    ensures Outlook(g, visits, [], handler, claimedAt, aborted) == (g, visits, aborted)
  {
    assert visits + VisitLog([], handler, |visits|) == visits;
  }

  lemma Tail<T>(s: seq<T>, k: nat)
    requires k < |s|
    ensures s[k..] == [s[k]] + s[k + 1..] && s[k..][0] == s[k] && s[k..][1..] == s[k + 1..]
  {
  }

  /** The end of one visit: an accepted entry is acknowledged. */
  method Settle<M(==)>(redis: Stream<M>, e: Entry<M>, v: Visit) returns (aborted: bool)
    requires redis.Valid()
    modifies redis
    ensures redis.Valid() && aborted == Aborts(v)
    ensures redis.State() == AfterVisit(old(redis.State()), e, v, None)
    ensures redis.visits == old(redis.visits) + [Call(e.id, v)]
  {
    redis.Handled(e, v);
    if v == Acked || v == AckFailed(true) {
      assert redis.visits[|redis.visits| - 1] == Call(e.id, v);
      redis.XAck(e);
    }
    aborted := Aborts(v);
  }

  /** Reads the next batch, handles its entries in order, and acknowledges each accepted one. */
  method ConsumeOnce<M(==)>(redis: Stream<M>, batchSize: nat, now: Millis, handler: Handler<M>, calls: nat)
    returns (count: nat, aborted: bool, next: nat)
    requires redis.Valid() && calls == |redis.visits|
    modifies redis
    ensures redis.Valid() && next == |redis.visits|
    ensures var batch := Take(Undelivered(old(redis.State())), batchSize);
            && (redis.State(), redis.visits, aborted)
               == Outlook(Read(old(redis.State()), batchSize, now), old(redis.visits), batch, handler, None, false)
            && next == calls + count && (!aborted ==> count == |batch|)
  {
    var batch := redis.XReadGroup(batchSize, now);
    ghost var start, before, rest := redis.State(), redis.visits, batch;
    count, aborted, next := 0, false, calls;
    while count < |batch|
      invariant count <= |batch| && redis.Valid() && next == |redis.visits| && next == calls + count && !aborted
      invariant rest == batch[count..]
      invariant Outlook(start, before, batch, handler, None, false)
                == Outlook(redis.State(), redis.visits, rest, handler, None, false)
    {
      VisitsStep(redis.State(), redis.visits, rest, handler, None);
      Tail(batch, count);
      var v := handler(next, batch[count]);
      rest := Left(rest, v);
      aborted := Settle(redis, batch[count], v);
      count, next := count + 1, next + 1;
      if aborted {
        break;
      }
    }
    NothingLeft(redis.State(), redis.visits, handler, None, aborted);
  }

  // ---------------------------------------------------------------------
  // Reclaiming
  // ---------------------------------------------------------------------

  lemma {:induction false} FindFinds<M>(entries: seq<Entry<M>>, i: nat)
    requires i < |entries|
    ensures Find(entries, entries[i].id).Some?
    ensures forall id :: Find(entries, id).Some? ==> Find(entries, id).value.id == id
  {
    if i > 0 {
      FindFinds(entries[1..], i - 1);
    }
    forall id ensures Find(entries, id).Some? ==> Find(entries, id).value.id == id {
      FoundHasId(entries, id);
    }
  }

  lemma {:induction false} FoundHasId<M>(entries: seq<Entry<M>>, id: Id)
    ensures Find(entries, id).Some? ==> Find(entries, id).value.id == id
  {
    if entries != [] {
      FoundHasId(entries[1..], id);
    }
  }

  /** A pending entry has not been trimmed: its claim returns it. */
  lemma {:induction false} PendingFound<M>(g: Group<M>, id: Id)
    requires GroupOk(g) && IsPending(g.pending, id)
    ensures Find(g.entries, id).Some? && Find(g.entries, id).value.id == id
  {
    assert Known(g.appended, id);
    var i :| 0 <= i < |g.appended| && g.appended[i].id == id;
    var t := |g.appended| - |g.entries|;
    SuffixOfSuffix(g.appended, t, 0);
    assert i >= t;
    FindFinds(g.entries, i - t);
  }

  lemma TouchMiddle(kept: seq<Pend>, p: Pend, rest: seq<Pend>, now: Millis)
    requires PendingOrdered(kept + [p] + rest)
    ensures Touch(kept + [p] + rest, p.id, now) == kept + [p.(deliveredAt := now)] + rest
  {
    var all := kept + [p] + rest;
    forall i | 0 <= i < |all| && i != |kept| ensures all[i].id != p.id {
      assert all[|kept|] == p;
    }
  }

  lemma {:induction false} WithoutMiddle(kept: seq<Pend>, p: Pend, rest: seq<Pend>)
    requires forall x | x in kept || x in rest :: x.id != p.id
    ensures Without(kept + [p] + rest, p.id) == kept + rest
  {
    var all := kept + [p] + rest;
    if kept == [] {
      assert all[1..] == rest;
      WithoutNone(rest, p.id);
    } else {
      assert all[1..] == kept[1..] + [p] + rest;
      WithoutMiddle(kept[1..], p, rest);
    }
  }

  lemma {:induction false} WithoutNone(rest: seq<Pend>, id: Id)
    requires forall x | x in rest :: x.id != id
    ensures Without(rest, id) == rest
  {
    if rest != [] {
      WithoutNone(rest[1..], id);
    }
  }

  lemma OthersDiffer(kept: seq<Pend>, p: Pend, rest: seq<Pend>)
    requires PendingOrdered(kept + [p] + rest)
    ensures forall x | x in kept || x in rest :: x.id != p.id
    ensures IsPending(kept + [p] + rest, p.id)
  {
    var all := kept + [p] + rest;
    assert all[|kept|] == p;
    forall x | x in kept ensures x.id != p.id {
      var i :| 0 <= i < |kept| && kept[i] == x;
      assert all[i] == x;
    }
    forall x | x in rest ensures x.id != p.id {
      var i :| 0 <= i < |rest| && rest[i] == x;
      assert all[|kept| + 1 + i] == x;
    }
  }

  lemma {:induction false} PendingFromSplit(kept: seq<Pend>, rest: seq<Pend>, start: Id)
    requires forall x | x in kept :: Lt(x.id, start)
    requires rest == [] || !Lt(rest[0].id, start)
    ensures PendingFrom(kept + rest, start) == rest
  {
    if kept == [] {
      assert kept + rest == rest;
    } else {
      assert (kept + rest)[1..] == kept[1..] + rest;
      PendingFromSplit(kept[1..], rest, start);
    }
  }

  /** Retries one pending entry, if it has been idle for long enough. */
  method RetryOne<M(==)>(
    redis: Stream<M>, p: Pend, idleMs: int, now: Millis, handler: Handler<M>, calls: nat,
    ghost kept: seq<Pend>, ghost rest: seq<Pend>, ghost more: seq<Pend>)
    returns (next: nat, aborted: bool, ghost kept': seq<Pend>)
    requires redis.Valid() && calls == |redis.visits| && redis.pending == kept + [p] + rest
    modifies redis
    ensures redis.Valid() && next == |redis.visits|
    ensures redis.entries == old(redis.entries) && redis.pending == kept' + rest
    ensures forall x | x in kept' :: x in kept || x.id == p.id
    ensures Outlook(old(redis.State()), old(redis.visits), Idle([p] + more, redis.entries, idleMs, now),
                    handler, Some(now), false)
            == Outlook(redis.State(), redis.visits, if aborted then [] else Idle(more, redis.entries, idleMs, now),
                       handler, Some(now), aborted)
  {
    assert ([p] + more)[1..] == more;
    OthersDiffer(kept, p, rest);
    PendingFound(redis.State(), p.id);
    if now - p.deliveredAt < idleMs {
      assert Idle([p] + more, redis.entries, idleMs, now) == Idle(more, redis.entries, idleMs, now);
      return calls, false, kept + [p];
    }
    ghost var before, visits := redis.State(), redis.visits;
    ghost var todo := Idle([p] + more, redis.entries, idleMs, now);
    VisitsStep(before, visits, todo, handler, Some(now));
    var claimed := redis.XClaim(p.id, now);
    var e := claimed.value;
    TouchMiddle(kept, p, rest, now);
    var v := handler(calls, e);
    assert todo == [e] + Idle(more, redis.entries, idleMs, now);
    assert todo[1..] == Idle(more, redis.entries, idleMs, now);
    aborted := Settle(redis, e, v);
    next := calls + 1;
    ghost var touched := p.(deliveredAt := now);
    if v == Acked || v == AckFailed(true) {
      OthersDiffer(kept, touched, rest);
      WithoutMiddle(kept, touched, rest);
      kept' := kept;
    } else {
      kept' := kept + [touched];
    }
  }

  ghost predicate AllBelow(kept: seq<Pend>, id: Id) {
    forall x | x in kept :: Lt(x.id, id)
  }

  /** The entries a reclaim pass retries: the idle ones among the first thousand pending. */
  function Retried<M>(g: Group<M>, idleMs: int, now: Millis): seq<Entry<M>> {
    Idle(FirstPages(g.pending), g.entries, idleMs, now)
  }

  /** Retries the idle entries of one page. */
  method RetryPage<M(==)>(
    redis: Stream<M>, page: seq<Pend>, idleMs: int, now: Millis, handler: Handler<M>, calls: nat,
    ghost kept: seq<Pend>, ghost rest: seq<Pend>, ghost more: seq<Pend>)
    returns (next: nat, aborted: bool, ghost kept': seq<Pend>)
    requires redis.Valid() && calls == |redis.visits| && redis.pending == kept + page + rest
    modifies redis
    ensures redis.Valid() && next == |redis.visits|
    ensures redis.entries == old(redis.entries)
    ensures !aborted ==>
              && redis.pending == kept' + rest
              && forall x | x in kept' :: x in kept || exists p | p in page :: p.id == x.id
    ensures Outlook(old(redis.State()), old(redis.visits), Idle(page + more, redis.entries, idleMs, now),
                    handler, Some(now), false)
            == Outlook(redis.State(), redis.visits, if aborted then [] else Idle(more, redis.entries, idleMs, now),
                       handler, Some(now), aborted)
  {
    next, aborted, kept' := calls, false, kept;
    ghost var start, before := redis.State(), redis.visits;
    ghost var entries := redis.entries;
    ghost var todo := Idle(page + more, entries, idleMs, now);
    assert page[0..] == page;
    for i := 0 to |page|
      invariant redis.Valid() && next == |redis.visits| && redis.entries == entries && !aborted
      invariant redis.pending == kept' + page[i..] + rest
      invariant forall x | x in kept' :: x in kept || exists p | p in page :: p.id == x.id
      invariant Outlook(start, before, todo, handler, Some(now), false)
                == Outlook(redis.State(), redis.visits, Idle(page[i..] + more, entries, idleMs, now), handler, Some(now), false)
    {
      HeadOfJoin(page, i, kept', rest);
      HeadOfJoin(page, i, [], more);
      next, aborted, kept' := RetryOne(redis, page[i], idleMs, now, handler, next,
                                       kept', page[i + 1..] + rest, page[i + 1..] + more);
      if aborted {
        return;
      }
      JoinAssociates(kept', page[i + 1..], rest);
    }
    assert page[|page|..] + more == more && kept' + page[|page|..] + rest == kept' + rest;
  }

  lemma HeadOfJoin<T>(page: seq<T>, i: nat, kept: seq<T>, rest: seq<T>)
    requires i < |page|
    ensures kept + page[i..] + rest == kept + [page[i]] + (page[i + 1..] + rest)
    ensures page[i..] + rest == [page[i]] + (page[i + 1..] + rest)
  {
  }

  lemma JoinAssociates<T>(a: seq<T>, b: seq<T>, c: seq<T>)
    ensures a + (b + c) == a + b + c
  {
  }

  /** One page of the first thousand pending entries. */
  lemma PageOf(all: seq<Pend>, m: nat)
    requires m <= |all| && m + RECLAIM_PAGE_SIZE <= RECLAIM_PAGE_SIZE * RECLAIM_MAX_PAGES
    ensures var page, first := Take(all[m..], RECLAIM_PAGE_SIZE), FirstPages(all);
            && m + |page| <= |first| && page == all[m..m + |page|]
            && all[m..] == page + all[m + |page|..]
            && first[m..] == page + first[m + |page|..]
            && (|page| < RECLAIM_PAGE_SIZE ==> m + |page| == |all| == |first|)
  {
  }

  /** After a full page the cursor is past it, and not past what follows. */
  lemma CursorAdvances(
    all: seq<Pend>, m: nat, m': nat, page: seq<Pend>, kept: seq<Pend>, cursor: Id, kept': seq<Pend>)
    requires PendingOrdered(all) && page != [] && m' == m + |page| <= |all| && page == all[m..m']
    requires AllBelow(kept, cursor) && !Lt(page[0].id, cursor)
    requires forall x | x in kept' :: x in kept || exists p | p in page :: p.id == x.id
    ensures var next := Successor(page[|page| - 1].id);
            AllBelow(kept', next) && (m' < |all| ==> !Lt(all[m'].id, next))
  {
    var n := |page|;
    assert forall i | 0 <= i < n :: page[i] == all[m + i];
    var last := page[n - 1].id;
    forall x | x in kept' ensures Lt(x.id, Successor(last)) {
      if x in kept {
        assert Lt(x.id, cursor);
        assert n > 1 ==> Lt(all[m].id, all[m + n - 1].id);
      } else {
        var p :| p in page && p.id == x.id;
        var i :| 0 <= i < n && page[i] == p;
        assert i < n - 1 ==> Lt(all[m + i].id, all[m + n - 1].id);
      }
    }
    if m' < |all| {
      assert Lt(all[m' - 1].id, all[m'].id);
    }
  }

  /** What a reclaim pass has left after m of the pending entries it started with. */
  ghost predicate AtPage(pending: seq<Pend>, all: seq<Pend>, m: nat, kept: seq<Pend>, cursor: Id) {
    && m <= |all|
    && pending == kept + all[m..]
    && AllBelow(kept, cursor)
    && (m < |all| ==> !Lt(all[m].id, cursor))
  }

  function FirstPages(pending: seq<Pend>): seq<Pend> {
    Take(pending, RECLAIM_PAGE_SIZE * RECLAIM_MAX_PAGES)
  }

  lemma NoneAfter<T>(s: seq<T>)
    ensures s[|s|..] == []
  {
  }

  /** Lists the next page of pending entries and retries the idle ones. */
  method ReclaimPage<M(==)>(
    redis: Stream<M>, cursor: Id, idleMs: int, now: Millis, handler: Handler<M>, calls: nat,
    ghost all: seq<Pend>, ghost m: nat, ghost kept: seq<Pend>)
    returns (next: nat, aborted: bool, full: bool, cursor': Id, ghost m': nat, ghost kept': seq<Pend>)
    requires redis.Valid() && calls == |redis.visits| && PendingOrdered(all)
    requires AtPage(redis.pending, all, m, kept, cursor) && m + RECLAIM_PAGE_SIZE <= RECLAIM_PAGE_SIZE * RECLAIM_MAX_PAGES
    modifies redis
    ensures redis.Valid() && next == |redis.visits| && redis.entries == old(redis.entries)
    ensures m' <= |FirstPages(all)| && (if full then m' == m + RECLAIM_PAGE_SIZE else m' == |FirstPages(all)|)
    ensures !aborted && full ==> AtPage(redis.pending, all, m', kept', cursor')
    ensures Outlook(old(redis.State()), old(redis.visits), Idle(FirstPages(all)[m..], redis.entries, idleMs, now),
                    handler, Some(now), false)
            == Outlook(redis.State(), redis.visits,
                       if aborted then [] else Idle(FirstPages(all)[m'..], redis.entries, idleMs, now),
                       handler, Some(now), aborted)
  {
    PendingFromSplit(kept, all[m..], cursor);
    PageOf(all, m);
    var listing := Take(PendingFrom(redis.pending, cursor), RECLAIM_PAGE_SIZE);
    full, cursor', m' := |listing| == RECLAIM_PAGE_SIZE, cursor, m + |listing|;
    JoinAssociates(kept, listing, all[m'..]);
    next, aborted, kept' := RetryPage(redis, listing, idleMs, now, handler, calls, kept, all[m'..], FirstPages(all)[m'..]);
    if !aborted && full {
      CursorAdvances(all, m, m', listing, kept, cursor, kept');
      cursor' := Successor(listing[|listing| - 1].id);
    }
  }

  /** Retries idle pending entries, page by page, with an exclusive cursor. */
  method ReclaimPending<M(==)>(redis: Stream<M>, idleMs: int, now: Millis, handler: Handler<M>, calls: nat)
    returns (next: nat, aborted: bool)
    requires redis.Valid() && calls == |redis.visits|
    modifies redis
    ensures redis.Valid() && next == |redis.visits| && redis.entries == old(redis.entries)
    ensures (redis.State(), redis.visits, aborted)
            == Outlook(old(redis.State()), old(redis.visits), Retried(old(redis.State()), idleMs, now), handler, Some(now), false)
  {
    next, aborted := calls, false;
    var cursor := ZERO;
    ghost var start, before, all, entries := redis.State(), redis.visits, redis.pending, redis.entries;
    ghost var first := FirstPages(all);
    ghost var kept, m := [], 0;
    assert all[0..] == all && first[0..] == first && kept + all[0..] == all;
    for page := 0 to RECLAIM_MAX_PAGES
      invariant redis.Valid() && next == |redis.visits| && redis.entries == entries && !aborted
      invariant m == RECLAIM_PAGE_SIZE * page && m <= |first| && AtPage(redis.pending, all, m, kept, cursor)
      invariant Outlook(start, before, Idle(first, entries, idleMs, now), handler, Some(now), false)
                == Outlook(redis.State(), redis.visits, Idle(first[m..], entries, idleMs, now), handler, Some(now), false)
    {
      var full;
      next, aborted, full, cursor, m, kept := ReclaimPage(redis, cursor, idleMs, now, handler, next, all, m, kept);
      if aborted || !full {
        NothingLeft(redis.State(), redis.visits, handler, Some(now), aborted);
        NoneAfter(first);
        return;
      }
    }
    NoneAfter(first);
    NothingLeft(redis.State(), redis.visits, handler, Some(now), aborted);
  }

  // ---------------------------------------------------------------------
  // Trimming and the loop
  // ---------------------------------------------------------------------

  /** Trims to the first pending id, or to the last delivered one when nothing is pending. */
  method TrimAckedEntries<M(==)>(redis: Stream<M>)
    requires redis.Valid()
    modifies redis
    ensures redis.Valid() && redis.visits == old(redis.visits)
    ensures redis.State() == Trim(old(redis.State()), TrimFloor(old(redis.State())))
    ensures forall e: Entry<M> | e in old(redis.entries) && e !in redis.entries :: e.id in redis.acked
  {
    FloorIsSafe(redis.State());
    TrimRemovesOnlyAcked(redis.State(), TrimFloor(redis.State()));
    if redis.pending != [] {
      redis.XTrim(redis.pending[0].id);
    } else {
      redis.XTrim(redis.lastDelivered);
    }
  }

  /**
    What one iteration of the loop meets: what producers append before its pass,
    before its read and before its trim, the time, and which commands fail.
   */
  datatype Iteration<M> = Iteration(
    early: seq<Entry<M>>, late: seq<Entry<M>>, last: seq<Entry<M>>, now: Millis, readLost: bool, trimFails: bool)

  function Arrivals<M>(it: Iteration<M>): seq<Entry<M>> {
    it.early + it.late + it.last
  }

  function AllArrivals<M>(iterations: seq<Iteration<M>>): seq<Entry<M>> {
    if iterations == [] then [] else Arrivals(iterations[0]) + AllArrivals(iterations[1..])
  }

  /** Redis hands out increasing ids. */
  ghost predicate Increasing<M>(entries: seq<Entry<M>>) {
    Ordered(entries) && forall i | 0 <= i < |entries| :: Lt(ZERO, entries[i].id)
  }

  lemma IncreasingPrefix<M>(a: seq<Entry<M>>, b: seq<Entry<M>>)
    requires Increasing(a + b)
    ensures Increasing(a)
  {
    assert forall i | 0 <= i < |a| :: (a + b)[i] == a[i];
  }

  function Added<M>(g: Group<M>, arrivals: seq<Entry<M>>): Group<M> {
    if arrivals == [] then g else Add(Added(g, arrivals[..|arrivals| - 1]), arrivals[|arrivals| - 1])
  }

  lemma {:induction false} AddedNext<M>(g: Group<M>, arrivals: seq<Entry<M>>, i: nat)
    requires i < |arrivals|
    ensures Added(g, arrivals[..i + 1]) == Add(Added(g, arrivals[..i]), arrivals[i])
  {
    assert arrivals[..i + 1][..i] == arrivals[..i];
  }

  lemma ArrivalsLeft<M>(appended: seq<Entry<M>>, iterations: seq<Iteration<M>>, i: nat)
    requires i < |iterations| && Increasing(appended + AllArrivals(iterations[i..]))
    ensures Increasing(appended + Arrivals(iterations[i]))
    ensures appended + AllArrivals(iterations[i..])
            == appended + Arrivals(iterations[i]) + AllArrivals(iterations[i + 1..])
  {
    Tail(iterations, i);
    JoinAssociates(appended, Arrivals(iterations[i]), AllArrivals(iterations[i + 1..]));
    IncreasingPrefix(appended + Arrivals(iterations[i]), AllArrivals(iterations[i + 1..]));
  }

  method Arrive<M(==)>(redis: Stream<M>, arrivals: seq<Entry<M>>)
    requires redis.Valid() && Increasing(redis.appended + arrivals)
    modifies redis
    ensures redis.Valid() && redis.appended == old(redis.appended) + arrivals && redis.visits == old(redis.visits)
    ensures redis.State() == Added(old(redis.State()), arrivals)
  {
    ghost var before := redis.appended;
    for i := 0 to |arrivals|
      invariant redis.Valid() && redis.appended == before + arrivals[..i] && redis.visits == old(redis.visits)
      invariant redis.State() == Added(old(redis.State()), arrivals[..i])
    {
      AddedNext(old(redis.State()), arrivals, i);
      assert arrivals[..i + 1] == arrivals[..i] + [arrivals[i]];
      ghost var all := before + arrivals;
      assert all[|before| + i] == arrivals[i];
      assert forall k | 0 <= k < |redis.appended| :: redis.appended[k] == all[k];
      redis.XAdd(arrivals[i]);
    }
    assert arrivals[..|arrivals|] == arrivals;
  }

  const INITIAL_BACKOFF_MS := 1000
  const MAX_BACKOFF_MS := 30_000

  /** What the loop keeps between iterations. */
  datatype Loop<M> = Loop(group: Group<M>, visits: seq<Call>, iter: nat, trims: nat, failures: seq<bool>)

  /** Reclaim, then read: the group, the calls of the handler, and whether an exception ended it. */
  ghost function AfterWork<M>(
    g: Group<M>, visits: seq<Call>, batchSize: nat, idleMs: int, it: Iteration<M>, handler: Handler<M>
  ): (Group<M>, seq<Call>, bool) {
    var reclaimed := Outlook(g, visits, Retried(g, idleMs, it.now), handler, Some(it.now), false);
    var h := Added(reclaimed.0, it.late);
    if reclaimed.2 then (h, reclaimed.1, true)
    else if it.readLost then (Read(h, batchSize, it.now), reclaimed.1, true)
    else Outlook(Read(h, batchSize, it.now), reclaimed.1, Take(Undelivered(h), batchSize), handler, None, false)
  }

  predicate TrimDue(failed: bool, done: nat) {
    !failed && (done + 1) % TRIM_EVERY_ITERATIONS == 0
  }

  /** Work between the arrivals before and after it, and the trim when it is due. */
  ghost function AfterTurn<M>(
    g: Group<M>, visits: seq<Call>, batchSize: nat, idleMs: int, it: Iteration<M>, done: nat, handler: Handler<M>
  ): (Group<M>, seq<Call>, bool) {
    var work := AfterWork(Added(g, it.early), visits, batchSize, idleMs, it, handler);
    var h := Added(work.0, it.last);
    (if TrimDue(work.2, done) && !it.trimFails then Trim(h, TrimFloor(h)) else h, work.1, work.2)
  }

  ghost function AfterIteration<M>(
    s: Loop<M>, batchSize: nat, idleMs: int, it: Iteration<M>, handler: Handler<M>): Loop<M>
  {
    var turn := AfterTurn(s.group, s.visits, batchSize, idleMs, it, s.iter, handler);
    Loop(turn.0, turn.1, if turn.2 then s.iter else s.iter + 1,
         if TrimDue(turn.2, s.iter) then s.trims + 1 else s.trims, s.failures + [turn.2])
  }

  ghost function AfterLoop<M>(
    s: Loop<M>, batchSize: nat, idleMs: int, iterations: seq<Iteration<M>>, handler: Handler<M>): Loop<M>
  {
    if iterations == [] then s
    else
      AfterIteration(AfterLoop(s, batchSize, idleMs, iterations[..|iterations| - 1], handler),
                     batchSize, idleMs, iterations[|iterations| - 1], handler)
  }

  lemma {:induction false} AfterLoopNext<M>(
    s: Loop<M>, batchSize: nat, idleMs: int, iterations: seq<Iteration<M>>, handler: Handler<M>, i: nat)
    requires i < |iterations|
    ensures AfterLoop(s, batchSize, idleMs, iterations[..i + 1], handler)
            == AfterIteration(AfterLoop(s, batchSize, idleMs, iterations[..i], handler), batchSize, idleMs, iterations[i], handler)
  {
    assert iterations[..i + 1][..i] == iterations[..i];
  }

  /** Reclaim, then read. A lost read reply leaves its entries pending. */
  method Work<M(==)>(
    redis: Stream<M>, batchSize: nat, idleMs: int, it: Iteration<M>, handler: Handler<M>, calls: nat)
    returns (next: nat, failed: bool)
    requires redis.Valid() && calls == |redis.visits| && Increasing(redis.appended + it.late)
    modifies redis
    ensures redis.Valid() && next == |redis.visits|
    ensures redis.appended == old(redis.appended) + it.late && old(redis.visits) <= redis.visits
    ensures (redis.State(), redis.visits, failed)
            == AfterWork(old(redis.State()), old(redis.visits), batchSize, idleMs, it, handler)
  {
    next, failed := ReclaimPending(redis, idleMs, it.now, handler, calls);
    OutlookExtends(old(redis.State()), old(redis.visits), Retried(old(redis.State()), idleMs, it.now), handler, Some(it.now), false);
    Arrive(redis, it.late);
    if failed {
      return;
    }
    if it.readLost {
      var _ := redis.XReadGroup(batchSize, it.now);
      failed := true;
      return;
    }
    ghost var before, visits := redis.State(), redis.visits;
    var _, aborted, n := ConsumeOnce(redis, batchSize, it.now, handler, next);
    OutlookExtends(Read(before, batchSize, it.now), visits, Take(Undelivered(before), batchSize), handler, None, false);
    next, failed := n, aborted;
  }

  lemma ArrivalsInTurn<M>(appended: seq<Entry<M>>, it: Iteration<M>)
    requires Increasing(appended + Arrivals(it))
    ensures Increasing(appended + it.early) && Increasing(appended + it.early + it.late)
    ensures appended + it.early + it.late + it.last == appended + Arrivals(it)
  {
    JoinAssociates(appended, it.early + it.late, it.last);
    JoinAssociates(appended, it.early, it.late);
    IncreasingPrefix(appended + it.early + it.late, it.last);
    IncreasingPrefix(appended + it.early, it.late);
  }

  /** One iteration: reclaim, read, and every hundredth time trim. */
  method Iterate<M(==)>(
    redis: Stream<M>, batchSize: nat, idleMs: int, it: Iteration<M>, done: nat, handler: Handler<M>, calls: nat)
    returns (next: nat, failed: bool, trimmed: bool)
    requires redis.Valid() && calls == |redis.visits| && Increasing(redis.appended + Arrivals(it))
    modifies redis
    ensures redis.Valid() && next == |redis.visits|
    ensures redis.appended == old(redis.appended) + Arrivals(it) && old(redis.visits) <= redis.visits
    ensures trimmed == TrimDue(failed, done)
    ensures (redis.State(), redis.visits, failed)
            == AfterTurn(old(redis.State()), old(redis.visits), batchSize, idleMs, it, done, handler)
  {
    ArrivalsInTurn(redis.appended, it);
    Arrive(redis, it.early);
    next, failed := Work(redis, batchSize, idleMs, it, handler, calls);
    Arrive(redis, it.last);
    trimmed := !failed && (done + 1) % TRIM_EVERY_ITERATIONS == 0;
    if trimmed && !it.trimFails {
      TrimAckedEntries(redis);
    }
  }

  /** The delay after k failed iterations in a row. */
  function Backoff(k: nat): nat {
    if k == 0 then INITIAL_BACKOFF_MS else Min(2 * Backoff(k - 1), MAX_BACKOFF_MS)
  }

  function Power(k: nat): nat {
    if k == 0 then 1 else 2 * Power(k - 1)
  }

  /** The delay doubles with each failure in a row, from one second up to thirty. */
  lemma {:induction false} BackoffDoubles(k: nat)
    ensures Backoff(k) == Min(1000 * Power(k), 30_000)
  {
    if k > 0 {
      BackoffDoubles(k - 1);
    }
  }

  function Trailing(failures: seq<bool>): nat {
    if failures == [] || !failures[|failures| - 1] then 0 else 1 + Trailing(failures[..|failures| - 1])
  }

  function Successes(failures: seq<bool>): nat {
    if failures == [] then 0 else Successes(failures[..|failures| - 1]) + (if failures[|failures| - 1] then 0 else 1)
  }

  lemma {:induction false} VisitsAppendNothing<M>(
    g: Group<M>, batch: seq<Entry<M>>, handler: Handler<M>, calls: nat, claimedAt: Option<Millis>)
    ensures AfterVisits(g, batch, handler, calls, claimedAt).appended == g.appended
    decreases |batch|
  {
    if batch != [] {
      var v := handler(calls, batch[0]);
      if !Aborts(v) {
        VisitsAppendNothing(AfterVisit(g, batch[0], v, claimedAt), batch[1..], handler, calls + 1, claimedAt);
      }
    }
  }

  lemma OutlookExtends<M>(
    g: Group<M>, visits: seq<Call>, rest: seq<Entry<M>>, handler: Handler<M>, claimedAt: Option<Millis>, aborted: bool)
    ensures Outlook(g, visits, rest, handler, claimedAt, aborted).0.appended == g.appended
    ensures visits <= Outlook(g, visits, rest, handler, claimedAt, aborted).1
  {
    VisitsAppendNothing(g, rest, handler, |visits|, claimedAt);
  }

  /** One iteration, with the counters and the back-off of the loop. */
  method Advance<M(==)>(
    redis: Stream<M>, batchSize: nat, idleMs: int, it: Iteration<M>, handler: Handler<M>, calls: nat,
    iter: nat, trims: nat, backoffMs: nat, failures: seq<bool>)
    returns (next: nat, iter': nat, trims': nat, backoffMs': nat, failures': seq<bool>)
    requires redis.Valid() && calls == |redis.visits| && Increasing(redis.appended + Arrivals(it))
    requires backoffMs == Backoff(Trailing(failures))
    modifies redis
    ensures redis.Valid() && next == |redis.visits|
    ensures redis.appended == old(redis.appended) + Arrivals(it) && old(redis.visits) <= redis.visits
    ensures Loop(redis.State(), redis.visits, iter', trims', failures')
            == AfterIteration(Loop(old(redis.State()), old(redis.visits), iter, trims, failures), batchSize, idleMs, it, handler)
    ensures backoffMs' == Backoff(Trailing(failures'))
  {
    var failed, trimmed;
    next, failed, trimmed := Iterate(redis, batchSize, idleMs, it, iter, handler, calls);
    OneMore(failures, failed);
    iter', trims', failures' := iter, trims, failures + [failed];
    if failed {
      backoffMs' := if backoffMs * 2 < MAX_BACKOFF_MS then backoffMs * 2 else MAX_BACKOFF_MS;
    } else {
      iter', backoffMs' := iter + 1, INITIAL_BACKOFF_MS;
      if trimmed {
        trims' := trims + 1;
      }
    }
  }

  /**
    The consumer loop over any iterations and any handler: the group, the calls of the
    handler, the failed iterations and the trims are those of the loop it refines.
    Whatever fails and whenever, at its end each appended entry is undelivered, pending
    or acknowledged, and nothing is acknowledged that the handler did not accept.
   */
  method RunConsumerLoop<M(==)>(
    redis: Stream<M>, batchSize: nat, idleMs: int, iterations: seq<Iteration<M>>, handler: Handler<M>, calls: nat)
    returns (next: nat, iter: nat, trims: nat, backoffMs: nat, failures: seq<bool>)
    requires redis.Valid() && calls == |redis.visits|
    requires Increasing(redis.appended + AllArrivals(iterations))
    modifies redis
    ensures redis.Valid() && next == |redis.visits| && old(redis.visits) <= redis.visits
    ensures redis.appended == old(redis.appended) + AllArrivals(iterations)
    ensures Loop(redis.State(), redis.visits, iter, trims, failures)
            == AfterLoop(Loop(old(redis.State()), old(redis.visits), 0, 0, []), batchSize, idleMs, iterations, handler)
    ensures |failures| == |iterations| && iter == Successes(failures) && trims == iter / TRIM_EVERY_ITERATIONS
    ensures backoffMs == Backoff(Trailing(failures))
  {
    next, iter, trims, backoffMs, failures := calls, 0, 0, INITIAL_BACKOFF_MS, [];
    ghost var start := Loop(redis.State(), redis.visits, 0, 0, []);
    ghost var all := redis.appended + AllArrivals(iterations);
    assert iterations[0..] == iterations;
    for i := 0 to |iterations|
      invariant redis.Valid() && next == |redis.visits| && old(redis.visits) <= redis.visits
      invariant redis.appended + AllArrivals(iterations[i..]) == all
      invariant backoffMs == Backoff(Trailing(failures))
      invariant Loop(redis.State(), redis.visits, iter, trims, failures)
                == AfterLoop(start, batchSize, idleMs, iterations[..i], handler)
    {
      AfterLoopNext(start, batchSize, idleMs, iterations, handler, i);
      ArrivalsLeft(redis.appended, iterations, i);
      next, iter, trims, backoffMs, failures :=
        Advance(redis, batchSize, idleMs, iterations[i], handler, next, iter, trims, backoffMs, failures);
    }
    NoneAfter(iterations);
    assert iterations[..|iterations|] == iterations;
    LoopCounts(start, batchSize, idleMs, iterations, handler);
  }

  lemma {:induction false} AbortsAtLast<M>(batch: seq<Entry<M>>, handler: Handler<M>, calls: nat)
    ensures var log := VisitLog(batch, handler, calls);
            && (PassAborts(batch, handler, calls) <==> log != [] && Aborts(log[|log| - 1].visit))
            && (!PassAborts(batch, handler, calls) ==> Visits(log, batch))
  {
    if batch != [] && !Aborts(handler(calls, batch[0])) {
      AbortsAtLast(batch[1..], handler, calls + 1);
    }
  }

  /** The calls name these entries in turn, and none ends in an exception. */
  ghost predicate Visits<M>(calls: seq<Call>, entries: seq<Entry<M>>) {
    |calls| == |entries| && forall i | 0 <= i < |calls| :: calls[i].id == entries[i].id && !Excepted(calls[i])
  }

  /** The handler threw, or its acknowledgement did not come back. */
  predicate Excepted(c: Call) {
    c.visit.Threw? || c.visit.AckFailed?
  }

  /** Handed over since these calls: every one of the entries, or the last call ended in an exception. */
  ghost predicate HandedOver<M>(before: seq<Call>, after: seq<Call>, entries: seq<Entry<M>>, aborted: bool) {
    && before <= after
    && (aborted <==> |before| < |after| && Excepted(after[|after| - 1]))
    && (!aborted ==> Visits(after[|before|..], entries))
  }

  lemma PassExactly<M>(
    g: Group<M>, visits: seq<Call>, batch: seq<Entry<M>>, handler: Handler<M>, claimedAt: Option<Millis>)
    ensures var after := Outlook(g, visits, batch, handler, claimedAt, false);
            HandedOver(visits, after.1, batch, after.2)
  {
    AbortsAtLast(batch, handler, |visits|);
    var log := VisitLog(batch, handler, |visits|);
    assert (visits + log)[|visits|..] == log;
  }

  lemma TwoPasses<M>(
    a: seq<Call>, b: seq<Call>, c: seq<Call>, x: seq<Entry<M>>, y: seq<Entry<M>>, aborted: bool)
    requires HandedOver(a, b, x, false) && HandedOver(b, c, y, aborted)
    ensures HandedOver(a, c, x + y, aborted)
  {
    assert c[..|b|] == b;
    if |c| == |b| {
      assert c == b;
    }
    if !aborted {
      assert c[|a|..] == b[|a|..] + c[|b|..];
    }
  }

  /** The entries a turn reads, when its pass over the pending ones is not cut short. */
  ghost function BatchRead<M>(
    g: Group<M>, visits: seq<Call>, batchSize: nat, idleMs: int, it: Iteration<M>, handler: Handler<M>): seq<Entry<M>>
  {
    var reclaimed := Outlook(g, visits, Retried(g, idleMs, it.now), handler, Some(it.now), false);
    Take(Undelivered(Added(reclaimed.0, it.late)), batchSize)
  }

  lemma WorkExactly<M>(
    g: Group<M>, visits: seq<Call>, batchSize: nat, idleMs: int, it: Iteration<M>, handler: Handler<M>)
    ensures var after := AfterWork(g, visits, batchSize, idleMs, it, handler);
            && visits <= after.1
            && (after.2 <==> it.readLost || (|visits| < |after.1| && Excepted(after.1[|after.1| - 1])))
            && (!after.2 ==> Visits(after.1[|visits|..], Retried(g, idleMs, it.now)
                                                         + BatchRead(g, visits, batchSize, idleMs, it, handler)))
  {
    var retried, batch := Retried(g, idleMs, it.now), BatchRead(g, visits, batchSize, idleMs, it, handler);
    var reclaimed := Outlook(g, visits, retried, handler, Some(it.now), false);
    PassExactly(g, visits, retried, handler, Some(it.now));
    if !reclaimed.2 && !it.readLost {
      var read := Read(Added(reclaimed.0, it.late), batchSize, it.now);
      PassExactly(read, reclaimed.1, batch, handler, None);
      var after := Outlook(read, reclaimed.1, batch, handler, None, false);
      TwoPasses(visits, reclaimed.1, after.1, retried, batch, after.2);
    }
  }

  /**
    An iteration fails exactly when its read is lost or the last visit of the handler ends
    in an exception. One that does not fail hands the handler every idle entry of the first
    thousand pending, then every entry of the next batch, each once and in order.
   */
  lemma IterationExactly<M>(s: Loop<M>, batchSize: nat, idleMs: int, it: Iteration<M>, handler: Handler<M>)
    returns (failed: bool)
    ensures var g, t := Added(s.group, it.early), AfterIteration(s, batchSize, idleMs, it, handler);
            && t.failures == s.failures + [failed] && s.visits <= t.visits
            && (failed <==> it.readLost || (|s.visits| < |t.visits| && Excepted(t.visits[|t.visits| - 1])))
            && (!failed ==> Visits(t.visits[|s.visits|..], Retried(g, idleMs, it.now)
                                                           + BatchRead(g, s.visits, batchSize, idleMs, it, handler)))
  {
    WorkExactly(Added(s.group, it.early), s.visits, batchSize, idleMs, it, handler);
    failed := AfterWork(Added(s.group, it.early), s.visits, batchSize, idleMs, it, handler).2;
  }

  /** Each iteration fails or succeeds; every hundredth success trims. */
  lemma {:induction false} LoopCounts<M>(
    s: Loop<M>, batchSize: nat, idleMs: int, iterations: seq<Iteration<M>>, handler: Handler<M>)
    requires s.iter == 0 && s.trims == 0 && s.failures == []
    ensures var t := AfterLoop(s, batchSize, idleMs, iterations, handler);
            && |t.failures| == |iterations| && t.iter == Successes(t.failures)
            && t.trims == t.iter / TRIM_EVERY_ITERATIONS
    decreases |iterations|
  {
    if iterations != [] {
      var n := |iterations| - 1;
      LoopCounts(s, batchSize, idleMs, iterations[..n], handler);
      var before := AfterLoop(s, batchSize, idleMs, iterations[..n], handler);
      CountsStep(before, batchSize, idleMs, iterations[n], handler);
    }
  }

  lemma {:induction false} CountsStep<M>(
    s: Loop<M>, batchSize: nat, idleMs: int, it: Iteration<M>, handler: Handler<M>)
    requires s.iter == Successes(s.failures) && s.trims == s.iter / TRIM_EVERY_ITERATIONS
    ensures var t := AfterIteration(s, batchSize, idleMs, it, handler);
            && |t.failures| == |s.failures| + 1 && t.iter == Successes(t.failures)
            && t.trims == t.iter / TRIM_EVERY_ITERATIONS
  {
    var failed := AfterWork(Added(s.group, it.early), s.visits, batchSize, idleMs, it, handler).2;
    OneMore(s.failures, failed);
  }

  lemma {:induction false} OneMore(failures: seq<bool>, failed: bool)
    ensures Trailing(failures + [failed]) == (if failed then 1 + Trailing(failures) else 0)
    ensures Successes(failures + [failed]) == Successes(failures) + (if failed then 0 else 1)
  {
    assert (failures + [failed])[..|failures|] == failures;
  }

  // ---------------------------------------------------------------------
  // What a pass visits
  // ---------------------------------------------------------------------

  /** Every appended entry is in exactly one place. */
  lemma ExactlyOnePlace<M>(g: Group<M>, i: nat)
    requires GroupOk(g) && i < |g.appended|
    ensures var e := g.appended[i];
            && (e in Undelivered(g) <==> !IsPending(g.pending, e.id) && e.id !in g.acked)
            && !(IsPending(g.pending, e.id) && e.id in g.acked)
  {
    var e := g.appended[i];
    assert Known(g.appended, e.id);
    TrimmedDelivered(g);
    var k := AfterInWhole(g.appended, |g.appended| - |g.entries|, g.lastDelivered);
    if i >= k {
      SuffixOfSuffix(g.appended, k, 0);
    }
  }

  /** Some call on this id was accepted by the handler and its acknowledgement arrived. */
  ghost predicate AckArrivedIn(calls: seq<Call>, id: Id) {
    exists i | 0 <= i < |calls| :: calls[i].id == id && (calls[i].visit == Acked || calls[i].visit == AckFailed(true))
  }

  lemma ArrivedNext(first: Call, rest: seq<Call>, id: Id)
    ensures AckArrivedIn([first] + rest, id)
            <==> (first.id == id && (first.visit == Acked || first.visit == AckFailed(true))) || AckArrivedIn(rest, id)
  {
    var all := [first] + rest;
    if AckArrivedIn(rest, id) {
      var i :| 0 <= i < |rest| && rest[i].id == id && (rest[i].visit == Acked || rest[i].visit == AckFailed(true));
      assert all[i + 1] == rest[i];
    }
    if i :| 0 <= i < |all| && all[i].id == id && (all[i].visit == Acked || all[i].visit == AckFailed(true)) {
      assert i > 0 ==> rest[i - 1] == all[i];
    }
    assert all[0] == first;
  }

  /** A pass acknowledges exactly the pending entries that the handler accepted and whose acknowledgement arrived. */
  lemma {:induction false} PassAcksExactly<M>(
    g: Group<M>, batch: seq<Entry<M>>, handler: Handler<M>, calls: nat, claimedAt: Option<Millis>, id: Id)
    ensures var after, log := AfterVisits(g, batch, handler, calls, claimedAt), VisitLog(batch, handler, calls);
            && (id in after.acked <==> id in g.acked || (IsPending(g.pending, id) && AckArrivedIn(log, id)))
            && (IsPending(after.pending, id) <==> IsPending(g.pending, id) && !AckArrivedIn(log, id))
            && after.entries == g.entries && after.lastDelivered == g.lastDelivered && after.appended == g.appended
    decreases |batch|
  {
    if batch != [] {
      var v := handler(calls, batch[0]);
      VisitAcks(g, batch[0], v, claimedAt, id);
      var rest := if Aborts(v) then [] else VisitLog(batch[1..], handler, calls + 1);
      ArrivedNext(Call(batch[0].id, v), rest, id);
      if !Aborts(v) {
        PassAcksExactly(AfterVisit(g, batch[0], v, claimedAt), batch[1..], handler, calls + 1, claimedAt, id);
      }
    }
  }

  lemma VisitAcks<M>(g: Group<M>, e: Entry<M>, v: Visit, claimedAt: Option<Millis>, id: Id)
    ensures var after := AfterVisit(g, e, v, claimedAt);
            var arrives := id == e.id && (v == Acked || v == AckFailed(true));
            && (id in after.acked <==> id in g.acked || (IsPending(g.pending, id) && arrives))
            && (IsPending(after.pending, id) <==> IsPending(g.pending, id) && !arrives)
            && after.entries == g.entries && after.lastDelivered == g.lastDelivered && after.appended == g.appended
  {
    var h := if claimedAt.Some? then StreamGroup.Claim(g, e.id, claimedAt.value) else g;
    if claimedAt.Some? {
      TouchKeeps(g.pending, e.id, claimedAt.value, id);
    }
    WithoutKeeps(h.pending, e.id, id);
  }

  lemma TouchKeeps(pending: seq<Pend>, id: Id, now: Millis, other: Id)
    ensures IsPending(Touch(pending, id, now), other) <==> IsPending(pending, other)
  {
    var after := Touch(pending, id, now);
    forall i | 0 <= i < |pending| ensures after[i].id == pending[i].id {
    }
  }

  lemma {:induction false} WithoutKeeps(pending: seq<Pend>, id: Id, other: Id)
    ensures IsPending(Without(pending, id), other) <==> IsPending(pending, other) && other != id
  {
    if pending != [] {
      WithoutKeeps(pending[1..], id, other);
      PendingNext(pending, other);
      if pending[0].id != id {
        PendingNext(Without(pending, id), other);
        assert Without(pending, id)[1..] == Without(pending[1..], id);
      } else {
        assert Without(pending, id) == Without(pending[1..], id);
      }
    }
  }

  lemma PendingNext(pending: seq<Pend>, id: Id)
    requires pending != []
    ensures IsPending(pending, id) <==> pending[0].id == id || IsPending(pending[1..], id)
  {
    if i :| 0 <= i < |pending| && pending[i].id == id && i > 0 {
      assert pending[1..][i - 1].id == id;
    }
    if i :| 0 <= i < |pending[1..]| && pending[1..][i].id == id {
      assert pending[i + 1].id == id;
    }
  }

  /** A retry restarts the idle time of its entry, and of no other. */
  lemma RetryRestartsIdleTime<M>(g: Group<M>, id: Id, now: Millis, i: nat)
    requires i < |g.pending|
    ensures var after := StreamGroup.Claim(g, id, now);
            && |after.pending| == |g.pending| && after.pending[i].id == g.pending[i].id
            && after.pending[i].deliveredAt == (if g.pending[i].id == id then now else g.pending[i].deliveredAt)
  {
  }

  /** The ids of a pass are those of its entries, in order, up to the one that aborts it. */
  lemma {:induction false} LogFollows<M>(batch: seq<Entry<M>>, handler: Handler<M>, calls: nat)
    ensures var log := VisitLog(batch, handler, calls);
            && |log| <= |batch|
            && (forall i | 0 <= i < |log| :: log[i].id == batch[i].id)
            && (forall i | 0 <= i < |log| - 1 :: !Aborts(log[i].visit))
            && (|log| < |batch| ==> log != [] && Aborts(log[|log| - 1].visit))
  {
    if batch != [] && !Aborts(handler(calls, batch[0])) {
      LogFollows(batch[1..], handler, calls + 1);
    }
  }

  /** The retried entries are the idle ones among the first thousand pending, each once, in id order. */
  lemma RetriedExactly<M>(g: Group<M>, idleMs: int, now: Millis, id: Id)
    requires GroupOk(g)
    ensures Ordered(Retried(g, idleMs, now))
    ensures (exists e | e in Retried(g, idleMs, now) :: e.id == id)
            <==> exists i | 0 <= i < |g.pending| && i < 1000 ::
                   g.pending[i].id == id && now - g.pending[i].deliveredAt >= idleMs
  {
    var first := FirstPages(g.pending);
    assert forall i | 0 <= i < |first| :: first[i] == g.pending[i];
    IdleOrdered(first, g.entries, idleMs, now);
    IdleExactly(first, g.entries, idleMs, now, id);
    if i :| 0 <= i < |first| && first[i].id == id {
      assert g.pending[i].id == id;
      PendingFound(g, id);
    }
  }

  lemma {:induction false} IdleOrdered<M>(pending: seq<Pend>, entries: seq<Entry<M>>, idleMs: int, now: Millis)
    requires PendingOrdered(pending)
    ensures Ordered(Idle(pending, entries, idleMs, now))
  {
    if pending != [] {
      IdleOrdered(pending[1..], entries, idleMs, now);
      var rest := Idle(pending[1..], entries, idleMs, now);
      FoundHasId(entries, pending[0].id);
      forall e | e in rest ensures Lt(pending[0].id, e.id) {
        IdleExactly(pending[1..], entries, idleMs, now, e.id);
      }
    }
  }

  lemma {:induction false} IdleExactly<M>(pending: seq<Pend>, entries: seq<Entry<M>>, idleMs: int, now: Millis, id: Id)
    ensures (exists e | e in Idle(pending, entries, idleMs, now) :: e.id == id)
            <==> exists p | p in pending :: p.id == id && now - p.deliveredAt >= idleMs && Find(entries, id).Some?
  {
    if pending != [] {
      IdleExactly(pending[1..], entries, idleMs, now, id);
      FoundHasId(entries, pending[0].id);
      assert pending == [pending[0]] + pending[1..];
    }
  }

  /** A trim to the last-delivered id, after another reader's batch. */
  function RacedTrim<M>(g: Group<M>, count: nat, now: Millis): Group<M> {
    var read := Read(g, count, now);
    Trim(read, read.lastDelivered)
  }

  /** Everything the trim removed had been acknowledged. */
  ghost predicate LosesNothing<M>(g: Group<M>, after: Group<M>) {
    forall e: Entry<M> | e in g.entries && e !in after.entries :: e.id in g.acked
  }

  /** Without pending entries, an entry that is not undelivered is acknowledged. */
  lemma DeliveredAcked<M>(g: Group<M>, e: Entry<M>)
    requires GroupOk(g) && g.pending == [] && e in g.appended && !Lt(g.lastDelivered, e.id)
    ensures e.id in g.acked
  {
    var i :| 0 <= i < |g.appended| && g.appended[i] == e;
    assert Known(g.appended, e.id);
    assert !IsPending(g.pending, e.id);
  }

  /** Which entries a trim leaves. */
  lemma TrimLeaves<M>(g: Group<M>, floor: Id, e: Entry<M>)
    requires GroupOk(g) && e in g.entries
    ensures e in g.appended
    ensures e !in Trim(g, floor).entries <==> Lt(e.id, floor)
  {
    var t := |g.appended| - |g.entries|;
    SuffixOfSuffix(g.appended, t, 0);
    EntriesOrdered(g);
    var k := NotBeforeIsSuffix(g.entries, floor);
    var i :| 0 <= i < |g.entries| && g.entries[i] == e;
    assert g.appended[t + i] == e;
    SuffixOfSuffix(g.entries, k, 0);
    assert g.entries[k..] == NotBefore(g.entries, floor);
    if i >= k {
      assert g.entries[k..][i - k] == e;
    }
  }

  /** A trim keeps exactly the entries from the first pending one on, or from the last delivered one when none is. */
  lemma TrimExactly<M>(g: Group<M>, e: Entry<M>)
    requires GroupOk(g) && e in g.entries
    ensures var after := Trim(g, TrimFloor(g));
            && (e in after.entries <==> !Lt(e.id, if g.pending != [] then g.pending[0].id else g.lastDelivered))
            && after == g.(entries := after.entries)
  {
    TrimLeaves(g, TrimFloor(g), e);
  }

  /** The floor of a raced trim: the last entry of the other reader's batch, if it got any. */
  lemma RacedFloor<M>(g: Group<M>, count: nat, now: Millis) returns (k: nat, n: nat)
    requires GroupOk(g)
    ensures n == |Take(Undelivered(g), count)| && k + n <= |g.appended|
    ensures forall i | 0 <= i < k :: !Lt(g.lastDelivered, g.appended[i].id)
    ensures forall i | k <= i < |g.appended| :: Lt(g.lastDelivered, g.appended[i].id)
    ensures Read(g, count, now).lastDelivered == if n == 0 then g.lastDelivered else g.appended[k + n - 1].id
    ensures RacedTrim(g, count, now).entries == Trim(g, Read(g, count, now).lastDelivered).entries
  {
    k := BatchPlace(g, count);
    n := |Take(Undelivered(g), count)|;
  }

  /** The floor of a small batch is past no entry that was undelivered before it. */
  lemma SmallBatchFloor<M>(appended: seq<Entry<M>>, k: nat, n: nat, floor: Id, i: nat)
    requires Ordered(appended) && n <= 1 && k + n <= |appended| && k <= i < |appended|
    requires n == 1 ==> floor == appended[k].id
    requires n == 0 ==> Lt(floor, appended[i].id)
    ensures !Lt(appended[i].id, floor)
  {
    if n == 1 && i > k {
      assert Lt(appended[k].id, appended[i].id);
    }
  }

  lemma SmallBatchKeeps<M>(g: Group<M>, k: nat, n: nat, floor: Id, e: Entry<M>)
    requires GroupOk(g) && g.pending == [] && n <= 1 && k + n <= |g.appended|
    requires forall i | 0 <= i < k :: !Lt(g.lastDelivered, g.appended[i].id)
    requires forall i | k <= i < |g.appended| :: Lt(g.lastDelivered, g.appended[i].id)
    requires floor == if n == 0 then g.lastDelivered else g.appended[k + n - 1].id
    requires e in g.entries && e !in Trim(g, floor).entries
    ensures e.id in g.acked
  {
    TrimLeaves(g, floor, e);
    var i :| 0 <= i < |g.appended| && g.appended[i] == e;
    if i >= k {
      SmallBatchFloor(g.appended, k, n, floor, i);
    }
    DeliveredAcked(g, e);
  }

  lemma SmallBatchHarmless<M>(g: Group<M>, count: nat, now: Millis)
    requires GroupOk(g) && g.pending == [] && |Take(Undelivered(g), count)| <= 1
    ensures LosesNothing(g, RacedTrim(g, count, now))
  {
    var k, n := RacedFloor(g, count, now);
    var floor := Read(g, count, now).lastDelivered;
    forall e: Entry<M> | e in g.entries && e !in RacedTrim(g, count, now).entries ensures e.id in g.acked {
      SmallBatchKeeps(g, k, n, floor, e);
    }
  }

  lemma LargeBatchLoses<M>(g: Group<M>, count: nat, now: Millis)
    requires GroupOk(g) && g.pending == [] && |Take(Undelivered(g), count)| >= 2
    ensures !LosesNothing(g, RacedTrim(g, count, now))
  {
    var k, n := RacedFloor(g, count, now);
    var e := g.appended[k];
    TrimmedDelivered(g);
    var t := |g.appended| - |g.entries|;
    assert k >= t;
    SuffixOfSuffix(g.appended, t, 0);
    assert g.entries[k - t] == e;
    assert Lt(e.id, g.appended[k + n - 1].id);
    TrimLeaves(g, Read(g, count, now).lastDelivered, e);
    assert e.id !in g.acked;
  }

  /**
    Why one loop per stream: when another loop reads between the two calls that
    find the floor, the trim is harmless exactly when that read got at most one entry.
   */
  lemma RacedTrimHarmlessExactly<M>(g: Group<M>, count: nat, now: Millis)
    requires GroupOk(g) && g.pending == []
    ensures LosesNothing(g, RacedTrim(g, count, now)) <==> |Take(Undelivered(g), count)| <= 1
  {
    if |Take(Undelivered(g), count)| <= 1 {
      SmallBatchHarmless(g, count, now);
    } else {
      LargeBatchLoses(g, count, now);
    }
  }

  /** Two fresh entries read by the other loop: the first one is lost while it is pending. */
  lemma RacingTrimLosesPending<M>(a: Entry<M>, b: Entry<M>, count: nat, now: Millis)
    requires Lt(ZERO, a.id) && Lt(a.id, b.id) && count >= 2
    ensures var g := Group([a, b], ZERO, [], [a, b], {});
            && GroupOk(g)
            && a in g.entries && a !in RacedTrim(g, count, now).entries
            && IsPending(RacedTrim(g, count, now).pending, a.id)
  {
    var both := [a, b];
    var g := Group(both, ZERO, [], both, {});
    assert forall id | Known(both, id) :: id == a.id || id == b.id;
    assert both[1..] == [b];
    assert Undelivered(g) == both && Take(both, count) == both;
    var read := Read(g, count, now);
    assert read.pending[0].id == a.id;
    assert NotBefore([b], b.id) == [b];
    assert NotBefore(both, b.id) == [b];
    assert RacedTrim(g, count, now).entries == [b];
  }
}
