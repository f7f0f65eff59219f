/**
  The process-local cache of report views: one entry per account, bounded by
  entry count and bytes, oldest account evicted first, versioned by two keys.
 */
module ReportViewCache {
  import opened Wrappers

  type Millis = int

  /** Both version keys of a report. */
  datatype Version = Version(aggregate: string, equity: string)

  datatype View<T> = View(timeframe: string, value: T, bytes: nat)

  /** The views of one version, in the order they were first set. */
  datatype Entry<T> = Entry(version: Version, lastCheckedAt: Millis, views: seq<View<T>>)

  datatype Slot<T> = Slot(account: string, entry: Entry<T>)

  datatype Hit<T> = Hit(version: Version, view: Option<T>)

  datatype Limits = Limits(ttlMs: int, maxEntries: int, maxBytes: Option<int>)

  // ---------------------------------------------------------------------
  // Insertion-ordered maps
  // ---------------------------------------------------------------------

  function FindView<T>(views: seq<View<T>>, timeframe: string): Option<View<T>> {
    if views == [] then None
    else if views[0].timeframe == timeframe then Some(views[0])
    else FindView(views[1..], timeframe)
  }

  /** A new timeframe goes to the end; a known one keeps its place. */
  function PutView<T>(views: seq<View<T>>, v: View<T>): seq<View<T>> {
    if views == [] then [v]
    else if views[0].timeframe == v.timeframe then [v] + views[1..]
    else [views[0]] + PutView(views[1..], v)
  }

  function FindEntry<T>(slots: seq<Slot<T>>, account: string): Option<Entry<T>> {
    if slots == [] then None
    else if slots[0].account == account then Some(slots[0].entry)
    else FindEntry(slots[1..], account)
  }

  function Drop<T>(slots: seq<Slot<T>>, account: string): seq<Slot<T>> {
    if slots == [] then []
    else if slots[0].account == account then slots[1..]
    else [slots[0]] + Drop(slots[1..], account)
  }

  ghost predicate DistinctAccounts<T>(slots: seq<Slot<T>>) {
    forall i, j | 0 <= i < j < |slots| :: slots[i].account != slots[j].account
  }

  function ViewBytes<T>(views: seq<View<T>>): nat {
    if views == [] then 0 else views[0].bytes + ViewBytes(views[1..])
  }

  function Bytes<T>(slots: seq<Slot<T>>): nat {
    if slots == [] then 0 else ViewBytes(slots[0].entry.views) + Bytes(slots[1..])
  }

  function BytesOf<T>(e: Option<Entry<T>>): nat {
    if e.Some? then ViewBytes(e.value.views) else 0
  }

  function SizeOf<T>(v: Option<View<T>>): nat {
    if v.Some? then v.value.bytes else 0
  }

  lemma {:induction false} PutBytes<T>(views: seq<View<T>>, v: View<T>)
    ensures ViewBytes(PutView(views, v)) == ViewBytes(views) - SizeOf(FindView(views, v.timeframe)) + v.bytes
    ensures SizeOf(FindView(views, v.timeframe)) <= ViewBytes(views)
  {
    if views != [] && views[0].timeframe != v.timeframe {
      PutBytes(views[1..], v);
      assert PutView(views, v)[1..] == PutView(views[1..], v);
    } else if views != [] {
      assert PutView(views, v)[1..] == views[1..];
    }
  }

  lemma {:induction false} PutFinds<T>(views: seq<View<T>>, v: View<T>, timeframe: string)
    ensures FindView(PutView(views, v), timeframe) == if timeframe == v.timeframe then Some(v) else FindView(views, timeframe)
  {
    if views != [] && views[0].timeframe != v.timeframe {
      PutFinds(views[1..], v, timeframe);
      assert PutView(views, v)[1..] == PutView(views[1..], v);
    } else if views != [] {
      assert PutView(views, v)[1..] == views[1..];
    }
  }

  lemma {:induction false} DropBytes<T>(slots: seq<Slot<T>>, account: string)
    ensures Bytes(Drop(slots, account)) == Bytes(slots) - BytesOf(FindEntry(slots, account))
    ensures BytesOf(FindEntry(slots, account)) <= Bytes(slots)
    ensures |Drop(slots, account)| <= |slots|
  {
    if slots != [] && slots[0].account != account {
      DropBytes(slots[1..], account);
      assert Drop(slots, account)[1..] == Drop(slots[1..], account);
    }
  }

  lemma {:induction false} DropMember<T>(slots: seq<Slot<T>>, account: string, s: Slot<T>)
    requires DistinctAccounts(slots) && s in Drop(slots, account)
    ensures s in slots && s.account != account
  {
    if slots[0].account != account {
      if s != slots[0] {
        assert s in Drop(slots[1..], account);
        DropMember(slots[1..], account, s);
      }
    }
  }

  lemma {:induction false} DropKeeps<T>(slots: seq<Slot<T>>, account: string)
    requires DistinctAccounts(slots)
    ensures DistinctAccounts(Drop(slots, account))
    ensures forall s | s in Drop(slots, account) :: s in slots && s.account != account
  {
    if slots != [] && slots[0].account != account {
      DropKeeps(slots[1..], account);
    }
    forall s | s in Drop(slots, account) ensures s in slots && s.account != account {
      DropMember(slots, account, s);
    }
  }

  lemma {:induction false} DropFinds<T>(slots: seq<Slot<T>>, account: string, other: string)
    requires DistinctAccounts(slots)
    ensures FindEntry(Drop(slots, account), other) == if other == account then None else FindEntry(slots, other)
  {
    if slots != [] && slots[0].account != account {
      DropFinds(slots[1..], account, other);
      assert Drop(slots, account)[1..] == Drop(slots[1..], account);
    } else if slots != [] {
      AbsentAccount(slots[1..], account);
    }
  }

  lemma {:induction false} AbsentAccount<T>(slots: seq<Slot<T>>, account: string)
    requires forall s | s in slots :: s.account != account
    ensures FindEntry(slots, account) == None
  {
    if slots != [] {
      AbsentAccount(slots[1..], account);
    }
  }

  lemma {:induction false} AppendFinds<T>(slots: seq<Slot<T>>, s: Slot<T>, account: string)
    requires forall x | x in slots :: x.account != s.account
    ensures FindEntry(slots + [s], account) == if account == s.account then Some(s.entry) else FindEntry(slots, account)
    ensures Bytes(slots + [s]) == Bytes(slots) + ViewBytes(s.entry.views)
  {
    if slots == [] {
      assert slots + [s] == [s];
    } else {
      assert (slots + [s])[1..] == slots[1..] + [s];
      AppendFinds(slots[1..], s, account);
    }
  }

  // ---------------------------------------------------------------------
  // Eviction
  // ---------------------------------------------------------------------

  predicate WithinBytes(limits: Limits, bytes: int) {
    limits.maxBytes.Some? ==> bytes <= limits.maxBytes.value
  }

  predicate Fits<T>(limits: Limits, slots: seq<Slot<T>>) {
    |slots| <= limits.maxEntries && WithinBytes(limits, Bytes(slots))
  }

  /** Accounts go in the order they were last set, until the rest fits. */
  function Evicted<T>(limits: Limits, slots: seq<Slot<T>>): (r: seq<Slot<T>>)
    ensures |r| <= |slots|
  {
    if slots == [] || Fits(limits, slots) then slots else Evicted(limits, slots[1..])
  }

  lemma {:induction false} SuffixBytes<T>(slots: seq<Slot<T>>, k: nat)
    requires k <= |slots|
    ensures Bytes(slots[k..]) <= Bytes(slots)
  {
    if k > 0 {
      SuffixBytes(slots[1..], k - 1);
      assert slots[k..] == slots[1..][k - 1..];
    }
  }

  /** Eviction keeps the longest run of most recently set accounts that fits: the first suffix that does. */
  lemma {:induction false} EvictedIsLongest<T>(limits: Limits, slots: seq<Slot<T>>) returns (j: nat)
    ensures j <= |slots| && Evicted(limits, slots) == slots[j..]
    ensures j < |slots| ==> Fits(limits, slots[j..])
    ensures forall k | 0 <= k < j :: !Fits(limits, slots[k..])
  {
    assert slots[0..] == slots;
    if slots == [] || Fits(limits, slots) {
      j := 0;
    } else {
      var i := EvictedIsLongest(limits, slots[1..]);
      j := i + 1;
      assert slots[j..] == slots[1..][i..];
      forall k | 0 <= k < j ensures !Fits(limits, slots[k..]) {
        if k > 0 {
          assert slots[k..] == slots[1..][k - 1..];
        }
      }
    }
  }

  /** The account set last survives exactly when its own views fit alone. */
  lemma LastSurvives<T>(limits: Limits, slots: seq<Slot<T>>, s: Slot<T>) returns (j: nat)
    ensures j <= |slots| + 1 && Evicted(limits, slots + [s]) == (slots + [s])[j..]
    ensures j <= |slots| <==> limits.maxEntries >= 1 && WithinBytes(limits, ViewBytes(s.entry.views))
  {
    var all := slots + [s];
    j := EvictedIsLongest(limits, all);
    assert all[|slots|..] == [s];
    assert [s][1..] == [] && Bytes([s]) == ViewBytes(s.entry.views);
    if j <= |slots| {
      SuffixBytes(all[j..], |slots| - j);
      assert all[j..][|slots| - j..] == [s];
    }
  }

  lemma {:induction false} SuffixFinds<T>(slots: seq<Slot<T>>, k: nat, account: string)
    requires k <= |slots| && DistinctAccounts(slots)
    ensures DistinctAccounts(slots[k..])
    ensures FindEntry(slots[k..], account).Some? ==> FindEntry(slots[k..], account) == FindEntry(slots, account)
  {
    if k > 0 {
      SuffixFinds(slots[1..], k - 1, account);
      assert slots[k..] == slots[1..][k - 1..];
      FoundIsMember(slots[1..], account);
    }
  }

  lemma {:induction false} FoundIsMember<T>(slots: seq<Slot<T>>, account: string)
    ensures FindEntry(slots, account).Some? ==> exists i | 0 <= i < |slots| :: slots[i].account == account
  {
    if slots != [] && slots[0].account != account {
      FoundIsMember(slots[1..], account);
      if FindEntry(slots, account).Some? {
        var i :| 0 <= i < |slots[1..]| && slots[1..][i].account == account;
        assert slots[i + 1].account == account;
      }
    }
  }

  /** A set value can be read back exactly when its account's views fit alone. */
  lemma {:induction false} SetSurvivesExactly<T>(limits: Limits, others: seq<Slot<T>>, s: Slot<T>)
    requires DistinctAccounts(others + [s])
    ensures FindEntry(Evicted(limits, others + [s]), s.account)
            == if limits.maxEntries >= 1 && WithinBytes(limits, ViewBytes(s.entry.views)) then Some(s.entry) else None
  {
    var all := others + [s];
    var j := LastSurvives(limits, others, s);
    if j <= |others| {
      SuffixFinds(all, j, s.account);
      assert all[j..] == all[j..|others|] + [s];
      forall x | x in all[j..|others|] ensures x.account != s.account {
        var i :| j <= i < |others| && all[i] == x;
        assert all[i].account != all[|others|].account;
      }
      AppendFinds(all[j..|others|], s, s.account);
    }
  }

  // ---------------------------------------------------------------------
  // The cache
  // ---------------------------------------------------------------------

  /** Everything that identifies a view. */
  datatype Name = Name(account: string, timeframe: string, version: Version)

  datatype Stamped<T> = Stamped(value: T, at: Millis)

  function Place<T>(slots: seq<Slot<T>>, account: string, version: Version, v: View<T>, now: Millis): seq<Slot<T>> {
    var e := FindEntry(slots, account);
    Drop(slots, account)
    + [Slot(account, if e.Some? && e.value.version == version then e.value.(views := PutView(e.value.views, v))
                     else Entry(version, now, [v]))]
  }

  ghost predicate Current<T(!new)>(s: Slot<T>, latest: map<Name, Stamped<T>>, size: T -> nat, clock: Millis) {
    && s.entry.lastCheckedAt <= clock
    && forall timeframe | FindView(s.entry.views, timeframe).Some? ::
         var v, name := FindView(s.entry.views, timeframe).value, Name(s.account, timeframe, s.entry.version);
         && name in latest && latest[name].value == v.value && latest[name].at >= s.entry.lastCheckedAt
         && v.bytes == size(v.value)
  }

  /** What a lookup answers. */
  function Peek<T>(limits: Limits, slots: seq<Slot<T>>, account: string, timeframe: string, now: Millis): Option<Hit<T>> {
    match FindEntry(slots, account)
    case None => None
    case Some(e) =>
      if now - e.lastCheckedAt >= limits.ttlMs then None
      else
        Some(Hit(e.version, if FindView(e.views, timeframe).Some? then Some(FindView(e.views, timeframe).value.value)
                            else None))
  }

  /** The entry of the account, when it holds this version. */
  function SameVersion<T>(slots: seq<Slot<T>>, account: string, version: Version): Option<Entry<T>> {
    var e := FindEntry(slots, account);
    if e.Some? && e.value.version == version then e else None
  }

  /** The bytes of the account's other views of this version. */
  function OtherBytes<T>(slots: seq<Slot<T>>, account: string, version: Version, timeframe: string): int {
    match SameVersion(slots, account, version)
    case None => 0
    case Some(e) => ViewBytes(e.views) - SizeOf(FindView(e.views, timeframe))
  }

  /** When the account's entry of this version was created. */
  function CreatedAt<T>(slots: seq<Slot<T>>, account: string, version: Version, now: Millis): Millis {
    match SameVersion(slots, account, version)
    case None => now
    case Some(e) => e.lastCheckedAt
  }

  /** The slots after a set: a value too large on its own is dropped before anything is touched. */
  function AfterSet<T>(
    limits: Limits, slots: seq<Slot<T>>, account: string, version: Version, v: View<T>, now: Millis): seq<Slot<T>>
  {
    if !WithinBytes(limits, v.bytes) then slots else Evicted(limits, Place(slots, account, version, v, now))
  }

  /**
    What a read after a set answers. A value over the byte limit changes no answer. Any
    other is read back exactly when an entry is allowed at all, the value fits together
    with the account's other views of its version, and that version's entry, which a
    further set does not refresh, is young enough; if not, the account reads as a miss.
   */
  lemma {:induction false} SetReadBackExactly<T>(
    limits: Limits, slots: seq<Slot<T>>, account: string, version: Version, v: View<T>, now: Millis, later: Millis)
    requires DistinctAccounts(slots)
    ensures Peek(limits, AfterSet(limits, slots, account, version, v, now), account, v.timeframe, later)
            == if !WithinBytes(limits, v.bytes) then Peek(limits, slots, account, v.timeframe, later)
               else if && limits.maxEntries >= 1
                       && WithinBytes(limits, v.bytes + OtherBytes(slots, account, version, v.timeframe))
                       && later - CreatedAt(slots, account, version, now) < limits.ttlMs
               then Some(Hit(version, Some(v.value))) else None
  {
    if WithinBytes(limits, v.bytes) {
      PlacedReadBack(limits, slots, account, version, v, now, later);
    }
  }

  lemma {:induction false} PlacedReadBack<T>(
    limits: Limits, slots: seq<Slot<T>>, account: string, version: Version, v: View<T>, now: Millis, later: Millis)
    requires DistinctAccounts(slots)
    ensures Peek(limits, Evicted(limits, Place(slots, account, version, v, now)), account, v.timeframe, later)
            == if && limits.maxEntries >= 1
                  && WithinBytes(limits, v.bytes + OtherBytes(slots, account, version, v.timeframe))
                  && later - CreatedAt(slots, account, version, now) < limits.ttlMs
               then Some(Hit(version, Some(v.value))) else None
  {
    var others := Drop(slots, account);
    var placed := Place(slots, account, version, v, now);
    var s := placed[|placed| - 1];
    DropKeeps(slots, account);
    assert placed == others + [s];
    SetSurvivesExactly(limits, others, s);
    match SameVersion(slots, account, version) {
      case None =>
        assert s.entry.views == [v];
      case Some(e) =>
        PutBytes(e.views, v);
        PutFinds(e.views, v, v.timeframe);
    }
  }

  /** Two views of one version that fit alone but not together: setting the second loses both. */
  lemma OwnSetEvicts<T>(x: T, y: T)
    ensures var limits, version := Limits(1000, 10, Some(3)), Version("v", "w");
            var slots := [Slot("a", Entry(version, 0, [View("1D", x, 2)]))];
            var after := AfterSet(limits, slots, "a", version, View("1W", y, 2), 1);
            && Peek(limits, slots, "a", "1D", 1) == Some(Hit(version, Some(x)))
            && WithinBytes(limits, 2)
            && Peek(limits, after, "a", "1W", 1) == None && Peek(limits, after, "a", "1D", 1) == None
  {
    var limits, version := Limits(1000, 10, Some(3)), Version("v", "w");
    var d, w := View("1D", x, 2), View("1W", y, 2);
    var slots := [Slot("a", Entry(version, 0, [d]))];
    SetReadBackExactly(limits, slots, "a", version, w, 1, 1);
    assert [d][1..] == [] && PutView([d], w) == [d, w];
    assert ViewBytes([d]) == 2;
    var placed := Place(slots, "a", version, w, 1);
    assert slots[1..] == [];
    assert placed == [Slot("a", Entry(version, 0, [d, w]))];
    var both := [d, w];
    assert both[1..] == [w] && [w][1..] == [] && ViewBytes([w]) == 2 && ViewBytes(both) == 4;
    assert !Fits(limits, placed) && placed[1..] == [];
    assert Evicted(limits, placed) == [];
  }

  /** A value of five bytes where three are allowed: it is not read back, and the view of the old version still is. */
  lemma OversizedLeavesOld<T>(x: T, y: T)
    ensures var limits, version, version' := Limits(1000, 10, Some(3)), Version("v", "w"), Version("v", "z");
            var slots := [Slot("a", Entry(version, 0, [View("1D", x, 2)]))];
            var after := AfterSet(limits, slots, "a", version', View("1D", y, 5), 1);
            Peek(limits, after, "a", "1D", 1) == Some(Hit(version, Some(x)))
  {
    var limits, version, version' := Limits(1000, 10, Some(3)), Version("v", "w"), Version("v", "z");
    var slots := [Slot("a", Entry(version, 0, [View("1D", x, 2)]))];
    SetReadBackExactly(limits, slots, "a", version', View("1D", y, 5), 1, 1);
  }

  /** A set does not refresh its entry: a value set a millisecond before the entry expires reads as a miss at once. */
  lemma SetDoesNotRefresh<T>(x: T, y: T)
    ensures var limits, version := Limits(1000, 10, None), Version("v", "w");
            var slots := [Slot("a", Entry(version, 0, [View("1D", x, 2)]))];
            var after := AfterSet(limits, slots, "a", version, View("1D", y, 2), 999);
            && Peek(limits, after, "a", "1D", 999) == Some(Hit(version, Some(y)))
            && Peek(limits, after, "a", "1D", 1000) == None
  {
    var limits, version := Limits(1000, 10, None), Version("v", "w");
    var slots := [Slot("a", Entry(version, 0, [View("1D", x, 2)]))];
    SetReadBackExactly(limits, slots, "a", version, View("1D", y, 2), 999, 999);
    SetReadBackExactly(limits, slots, "a", version, View("1D", y, 2), 999, 1000);
  }

  /** What a placement retains: the other accounts, and the new view with the others of its version. */
  lemma {:induction false} PlacedBytes<T>(
    slots: seq<Slot<T>>, account: string, version: Version, v: View<T>, now: Millis)
    requires DistinctAccounts(slots)
    ensures DistinctAccounts(Place(slots, account, version, v, now))
    ensures Bytes(Place(slots, account, version, v, now))
            == Bytes(Drop(slots, account)) + v.bytes + OtherBytes(slots, account, version, v.timeframe)
  {
    var others, placed := Drop(slots, account), Place(slots, account, version, v, now);
    var s := placed[|placed| - 1];
    DropKeeps(slots, account);
    assert placed == others + [s];
    AppendFinds(others, s, account);
    match SameVersion(slots, account, version) {
      case None =>
        assert s.entry.views == [v];
      case Some(e) =>
        PutBytes(e.views, v);
    }
  }

  class Cache<T(==,!new)> {
    const limits: Limits
    const size: T -> nat
    var entries: seq<Slot<T>>
    var retainedBytes: int
    /** The last value set under each name, of those small enough to be retained. */
    ghost var latest: map<Name, Stamped<T>>
    ghost var clock: Millis

    ghost predicate Valid()
      reads this
    {
      && DistinctAccounts(entries)
      && retainedBytes == Bytes(entries)
      && (entries != [] ==> Fits(limits, entries))
      && forall s | s in entries :: Current(s, latest, size, clock)
    }

    constructor (limits: Limits, size: T -> nat)
      ensures Valid() && entries == [] && this.limits == limits && this.size == size
    {
      this.limits, this.size := limits, size;
      entries, retainedBytes, latest, clock := [], 0, map[], 0;
    }

    method DeleteEntry(account: string)
      requires DistinctAccounts(entries) && retainedBytes == Bytes(entries)
      modifies this`entries, this`retainedBytes
      ensures entries == Drop(old(entries), account)
      ensures DistinctAccounts(entries) && retainedBytes == Bytes(entries)
    {
      DropBytes(entries, account);
      DropKeeps(entries, account);
      var entry := FindEntry(entries, account);
      if entry.None? {
        DropAbsent(entries, account);
        return;
      }
      var views := entry.value.views;
      for i := 0 to |views|
        invariant entries == old(entries) && retainedBytes == Bytes(entries) - ViewBytes(views) + ViewBytes(views[i..])
      {
        assert views[i..][1..] == views[i + 1..];
        retainedBytes := retainedBytes - views[i].bytes;
      }
      entries := Drop(entries, account);
    }

    /** The versions and the view of an account that was confirmed less than a time to live ago. */
    method Get(account: string, timeframe: string, now: Millis) returns (hit: Option<Hit<T>>)
      requires Valid() && clock <= now
      modifies this
      ensures Valid() && latest == old(latest) && clock == now
      ensures hit == Peek(limits, old(entries), account, timeframe, now)
      ensures entries == if hit.Some? then old(entries) else Drop(old(entries), account)
      ensures hit.Some? && hit.value.view.Some? ==>
                var name := Name(account, timeframe, hit.value.version);
                name in latest && latest[name].value == hit.value.view.value && now - latest[name].at < limits.ttlMs
    {
      clock := now;
      var entry := FindEntry(entries, account);
      if entry.None? {
        DropAbsent(entries, account);
        return None;
      }
      if now - entry.value.lastCheckedAt >= limits.ttlMs {
        DropKeeps(entries, account);
        DropBytes(entries, account);
        DropFits(limits, entries, account);
        DeleteEntry(account);
        return None;
      }
      FoundSlot(entries, account);
      var view := FindView(entry.value.views, timeframe);
      hit := Some(Hit(entry.value.version, if view.Some? then Some(view.value.value) else None));
    }

    /** Sets one view; other versions of the account go, then the oldest accounts go until the rest fits. */
    method Set(account: string, timeframe: string, version: Version, value: T, now: Millis)
      requires Valid() && clock <= now
      modifies this
      ensures Valid() && clock == now
      ensures entries == AfterSet(limits, old(entries), account, version, View(timeframe, value, size(value)), now)
      ensures latest == if WithinBytes(limits, size(value))
                        then old(latest)[Name(account, timeframe, version) := Stamped(value, now)] else old(latest)
    {
      clock := now;
      var bytes := size(value);
      if limits.maxBytes.Some? && bytes > limits.maxBytes.value {
        return;
      }
      ghost var slots := Place(entries, account, version, View(timeframe, value, bytes), now);
      var existing := FindEntry(entries, account);
      var same := existing.Some? && existing.value.version == version;
      var entry := if same then existing.value else Entry(version, now, []);
      DropBytes(entries, account);
      PlacedBytes(entries, account, version, View(timeframe, value, bytes), now);
      PlaceCurrent(entries, account, version, View(timeframe, value, bytes), now, latest, size);
      if existing.Some? && !same {
        DeleteEntry(account);
        DropTwice(old(entries), account);
      }
      var was := FindView(entry.views, timeframe);
      retainedBytes := retainedBytes - (if was.Some? then was.value.bytes else 0);
      entry := entry.(views := PutView(entry.views, View(timeframe, value, bytes)));
      retainedBytes := retainedBytes + bytes;
      entries := Drop(entries, account) + [Slot(account, entry)];
      latest := latest[Name(account, timeframe, version) := Stamped(value, now)];
      assert entries == slots;
      Evict();
    }

    method Evict()
      requires DistinctAccounts(entries) && retainedBytes == Bytes(entries)
      requires forall s | s in entries :: Current(s, latest, size, clock)
      modifies this`entries, this`retainedBytes
      ensures Valid() && entries == Evicted(limits, old(entries))
    {
      while |entries| > limits.maxEntries || (limits.maxBytes.Some? && retainedBytes > limits.maxBytes.value)
        invariant DistinctAccounts(entries) && retainedBytes == Bytes(entries)
        invariant forall s | s in entries :: Current(s, latest, size, clock)
        invariant Evicted(limits, entries) == Evicted(limits, old(entries))
        decreases |entries|
      {
        if entries == [] {
          break;
        }
        DeleteEntry(entries[0].account);
      }
    }

    method Delete(account: string)
      requires Valid()
      modifies this
      ensures Valid() && entries == Drop(old(entries), account) && latest == old(latest)
    {
      DropKeeps(entries, account);
      DropBytes(entries, account);
      DropFits(limits, entries, account);
      DeleteEntry(account);
    }
  }

  lemma {:induction false} FoundSlot<T>(slots: seq<Slot<T>>, account: string)
    requires FindEntry(slots, account).Some?
    ensures Slot(account, FindEntry(slots, account).value) in slots
  {
    if slots[0].account != account {
      FoundSlot(slots[1..], account);
    }
  }

  lemma {:induction false} DropFits<T>(limits: Limits, slots: seq<Slot<T>>, account: string)
    requires slots != [] ==> Fits(limits, slots)
    ensures Drop(slots, account) != [] ==> Fits(limits, Drop(slots, account))
  {
    DropBytes(slots, account);
  }

  lemma {:induction false} DropTwice<T>(slots: seq<Slot<T>>, account: string)
    requires DistinctAccounts(slots)
    ensures Drop(Drop(slots, account), account) == Drop(slots, account)
    ensures FindEntry(Drop(slots, account), account) == None
  {
    DropKeeps(slots, account);
    AbsentAccount(Drop(slots, account), account);
    DropAbsent(Drop(slots, account), account);
  }

  /** After a set every retained view is still the last one set under its name. */
  lemma PlaceCurrent<T(!new)>(
    slots: seq<Slot<T>>, account: string, version: Version, v: View<T>, now: Millis,
    latest: map<Name, Stamped<T>>, size: T -> nat)
    requires DistinctAccounts(slots) && v.bytes == size(v.value)
    requires forall s | s in slots :: Current(s, latest, size, now)
    ensures var after := latest[Name(account, v.timeframe, version) := Stamped(v.value, now)];
            var placed := Place(slots, account, version, v, now);
            DistinctAccounts(placed) && forall s | s in placed :: Current(s, after, size, now)
  {
    DropKeeps(slots, account);
    var after := latest[Name(account, v.timeframe, version) := Stamped(v.value, now)];
    var placed := Place(slots, account, version, v, now);
    forall s | s in Drop(slots, account) ensures Current(s, after, size, now) {
      assert Current(s, latest, size, now);
    }
    var e := FindEntry(slots, account);
    var last := placed[|placed| - 1];
    if e.Some? && e.value.version == version {
      FoundSlot(slots, account);
      forall timeframe ensures FindView(last.entry.views, timeframe)
                               == if timeframe == v.timeframe then Some(v) else FindView(e.value.views, timeframe) {
        PutFinds(e.value.views, v, timeframe);
      }
    }
    assert Current(last, after, size, now);
  }

  lemma {:induction false} DropAbsent<T>(slots: seq<Slot<T>>, account: string)
    requires FindEntry(slots, account) == None
    ensures Drop(slots, account) == slots
  {
    if slots != [] {
      DropAbsent(slots[1..], account);
    }
  }
}
