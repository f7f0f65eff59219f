/**
  What claim_outbox hands out: the due, unblocked rows in order, as long as
  blocked markers do not fill the over-fetched candidate list.
 */
module ClaimOrder {
  import opened Canonical
  import opened JournalModel
  import JournalRepository
  import opened Wrappers
  import opened Sequences

  ghost predicate Sorted(outbox: Outbox, s: seq<EventId>)
    requires forall e | e in s :: e in outbox
  {
    forall i, j | 0 <= i < j < |s| :: Earlier(outbox, s[i], s[j])
  }

  lemma {:induction false} InOrderSorted(outbox: Outbox, ids: set<EventId>)
    requires ids <= outbox.Keys
    ensures Sorted(outbox, InOrder(outbox, ids)) && Distinct(InOrder(outbox, ids))
    decreases ids
  {
    JournalRepository.InOrderDistinct(outbox, ids);
    if ids != {} {
      var m := Earliest(outbox, ids);
      InOrderSorted(outbox, ids - {m});
      var s, rest := InOrder(outbox, ids), InOrder(outbox, ids - {m});
      forall i, j | 0 <= i < j < |s|
        ensures Earlier(outbox, s[i], s[j])
      {
        assert s[j] == rest[j - 1] && rest[j - 1] in rest;
        assert i > 0 ==> Earlier(outbox, rest[i - 1], rest[j - 1]);
      }
    }
  }

  lemma HasElement<T>(s: seq<T>)
    ensures s != [] <==> exists e :: e in s
  {
    if s != [] {
      assert s[0] in s;
    }
  }

  /** The ORDER BY clause determines the listing of a set of rows. */
  lemma {:induction false} OrderUnique(outbox: Outbox, s: seq<EventId>, t: seq<EventId>)
    requires forall e | e in s + t :: e in outbox
    requires Sorted(outbox, s) && Distinct(s) && Sorted(outbox, t) && Distinct(t)
    requires forall e :: e in s <==> e in t
    ensures s == t
    decreases |s|
  {
    HasElement(s);
    HasElement(t);
    if s != [] {
      assert s[0] in s && t[0] in t;
      assert forall e | e in s :: Earlier(outbox, s[0], e);
      assert forall e | e in t :: Earlier(outbox, t[0], e);
      assert s[0] == t[0];
      forall e ensures e in s[1..] <==> e in t[1..] {
        assert e in s <==> e == s[0] || e in s[1..];
        assert e in t <==> e == t[0] || e in t[1..];
        assert s[0] !in s[1..] && t[0] !in t[1..];
      }
      assert forall e | e in s[1..] + t[1..] :: e in s + t;
      OrderUnique(outbox, s[1..], t[1..]);
    }
  }

  lemma {:induction false} UnblockedMembers(outbox: Outbox, s: seq<EventId>)
    requires forall e | e in s :: e in outbox
    ensures forall e :: e in Unblocked(outbox, s) <==> e in s && !Blocked(outbox, e)
    decreases |s|
  {
    if s != [] {
      UnblockedMembers(outbox, s[..|s| - 1]);
      assert s == s[..|s| - 1] + [s[|s| - 1]];
    }
  }

  lemma SortedSnoc(outbox: Outbox, s: seq<EventId>, e: EventId)
    requires e in outbox && forall x | x in s :: x in outbox
    requires Sorted(outbox, s) && Distinct(s)
    requires forall x | x in s :: x != e && Earlier(outbox, x, e)
    ensures Sorted(outbox, s + [e]) && Distinct(s + [e])
  {
    var t := s + [e];
    forall i, j | 0 <= i < j < |t| ensures t[i] != t[j] && Earlier(outbox, t[i], t[j]) {
      assert t[i] == s[i] && t[i] in s;
      assert j < |s| ==> t[j] == s[j];
    }
  }

  lemma SortedPrefix(outbox: Outbox, s: seq<EventId>, n: nat)
    requires forall x | x in s :: x in outbox
    requires n == |s| - 1 && Sorted(outbox, s) && Distinct(s)
    ensures Sorted(outbox, s[..n]) && Distinct(s[..n])
    ensures forall x | x in s[..n] :: x != s[n] && Earlier(outbox, x, s[n])
  {
    forall x | x in s[..n] ensures x != s[n] && Earlier(outbox, x, s[n]) {
      var i :| 0 <= i < n && s[i] == x;
    }
  }

  lemma {:induction false} UnblockedKeepsOrder(outbox: Outbox, s: seq<EventId>)
    requires forall e | e in s :: e in outbox
    requires Sorted(outbox, s) && Distinct(s)
    ensures var u := Unblocked(outbox, s);
            && Sorted(outbox, u) && Distinct(u)
            && (forall e :: e in u <==> e in s && !Blocked(outbox, e))
    decreases |s|
  {
    UnblockedMembers(outbox, s);
    if s != [] {
      var n := |s| - 1;
      SortedPrefix(outbox, s, n);
      UnblockedKeepsOrder(outbox, s[..n]);
      if !Blocked(outbox, s[n]) {
        SortedSnoc(outbox, Unblocked(outbox, s[..n]), s[n]);
      }
    }
  }

  /** The due rows that no unpublished sibling blocks. */
  function Ready(outbox: Outbox, now: Utc): (r: set<EventId>)
    ensures r <= outbox.Keys
  {
    set e | e in Due(outbox, now) && !Blocked(outbox, e)
  }

  lemma {:induction false} ReadyInOrder(outbox: Outbox, now: Utc)
    ensures Unblocked(outbox, InOrder(outbox, Due(outbox, now))) == InOrder(outbox, Ready(outbox, now))
  {
    var all := InOrder(outbox, Due(outbox, now));
    var u, ready := Unblocked(outbox, all), InOrder(outbox, Ready(outbox, now));
    InOrderSorted(outbox, Due(outbox, now));
    InOrderSorted(outbox, Ready(outbox, now));
    InOrderComplete(outbox, Due(outbox, now));
    InOrderComplete(outbox, Ready(outbox, now));
    UnblockedKeepsOrder(outbox, all);
    OrderUnique(outbox, u, ready);
  }

  function CountBlocked(outbox: Outbox, s: seq<EventId>): (n: nat)
    requires forall e | e in s :: e in outbox
    ensures n == |s| - |Unblocked(outbox, s)|
  {
    if s == [] then 0
    else CountBlocked(outbox, s[..|s| - 1]) + (if Blocked(outbox, s[|s| - 1]) then 1 else 0)
  }

  lemma TakeOfPrefix<T>(p: seq<T>, s: seq<T>, limit: nat)
    requires p <= s
    ensures Take(p, limit) == Take(s, limit) <==> Min(limit, |s|) <= |p|
  {
    if Min(limit, |s|) > |p| {
      assert |Take(p, limit)| < |Take(s, limit)|;
    }
  }

  lemma {:induction false} CandidatesPrefix(outbox: Outbox, limit: nat, now: Utc)
    ensures Unblocked(outbox, Candidates(outbox, limit, now)) <= InOrder(outbox, Ready(outbox, now))
  {
    var all := InOrder(outbox, Due(outbox, now));
    ReadyInOrder(outbox, now);
    if CandidateLimit(limit) < |all| {
      JournalRepository.UnblockedPrefix(outbox, all, CandidateLimit(limit));
    }
  }

  /**
    Exactly when a claim is complete: the blocked markers among the candidates
    leave room for every row it should take.
   */
  lemma {:induction false} ClaimCompleteExactly(outbox: Outbox, limit: nat, now: Utc)
    ensures ClaimedIds(outbox, limit, now) == Take(InOrder(outbox, Ready(outbox, now)), limit)
            <==>
            CountBlocked(outbox, Candidates(outbox, limit, now)) + Min(limit, |Ready(outbox, now)|)
              <= |Candidates(outbox, limit, now)|
  {
    var candidates := Candidates(outbox, limit, now);
    CandidatesPrefix(outbox, limit, now);
    TakeOfPrefix(Unblocked(outbox, candidates), InOrder(outbox, Ready(outbox, now)), limit);
    var _ := CountBlocked(outbox, candidates);
  }

  lemma {:induction false} BlockedCardinality(outbox: Outbox, s: seq<EventId>, blocked: set<EventId>)
    requires forall e | e in s :: e in outbox
    requires Distinct(s) && forall e | e in s && Blocked(outbox, e) :: e in blocked
    ensures CountBlocked(outbox, s) <= |blocked|
    decreases |s|
  {
    if s != [] {
      var n := |s| - 1;
      assert s[n] in s && s[n] !in s[..n];
      if Blocked(outbox, s[n]) {
        BlockedCardinality(outbox, s[..n], blocked - {s[n]});
      } else {
        BlockedCardinality(outbox, s[..n], blocked);
      }
    }
  }

  lemma {:induction false} FewBlockedCandidates(outbox: Outbox, limit: nat, now: Utc)
    ensures CountBlocked(outbox, Candidates(outbox, limit, now)) <= |Due(outbox, now) - Ready(outbox, now)|
  {
    var all, candidates := InOrder(outbox, Due(outbox, now)), Candidates(outbox, limit, now);
    InOrderSorted(outbox, Due(outbox, now));
    forall e | e in candidates && Blocked(outbox, e)
      ensures e in Due(outbox, now) - Ready(outbox, now)
    {
      assert e in all;
    }
    BlockedCardinality(outbox, candidates, Due(outbox, now) - Ready(outbox, now));
  }

  /** At most max(3 * limit, 16) blocked due rows never make a claim incomplete. */
  lemma {:induction false} ClaimComplete(outbox: Outbox, limit: nat, now: Utc)
    requires |Due(outbox, now) - Ready(outbox, now)| <= (if 16 < 3 * limit then 3 * limit else 16)
    ensures ClaimedIds(outbox, limit, now) == Take(InOrder(outbox, Ready(outbox, now)), limit)
  {
    var all, candidates := InOrder(outbox, Due(outbox, now)), Candidates(outbox, limit, now);
    FewBlockedCandidates(outbox, limit, now);
    if |all| <= CandidateLimit(limit) {
      ReadyInOrder(outbox, now);
      var _ := CountBlocked(outbox, all);
    }
    ClaimCompleteExactly(outbox, limit, now);
  }

  /** A claim takes only due rows: a row under an unexpired claim stays with its owner. */
  lemma ClaimTakesDueRowsOnly(outbox: Outbox, limit: nat, now: Utc, e: EventId)
    requires e in ClaimedIds(outbox, limit, now)
    ensures e in outbox && IsDue(outbox[e], now) && !Blocked(outbox, e)
    ensures outbox[e].state == INFLIGHT ==> outbox[e].claimExpiresAt <= now
    ensures outbox[e].state != PUBLISHED && outbox[e].state != QUARANTINED
  {
    var all, candidates := InOrder(outbox, Due(outbox, now)), Candidates(outbox, limit, now);
    InOrderSorted(outbox, Due(outbox, now));
    JournalRepository.CandidatesDistinct(outbox, limit, now);
    assert Sorted(outbox, candidates);
    UnblockedKeepsOrder(outbox, candidates);
    assert e in candidates && e in all;
  }

  /**
    Markers that stay blocked can starve every other row: a full candidate list
    of them makes the claim empty, and an empty claim changes nothing, so the
    next claim at that time finds the same candidates.
   */
  lemma {:induction false} BlockedMarkersStarve(outbox: Outbox, owner: string, limit: nat, now: Utc, expires: Utc)
    requires |Candidates(outbox, limit, now)| == CountBlocked(outbox, Candidates(outbox, limit, now))
    ensures ClaimedIds(outbox, limit, now) == []
    ensures Claim(outbox, ClaimedIds(outbox, limit, now), owner, expires) == outbox
  {
  }

  lemma {:induction false} AllBlocked(outbox: Outbox, s: seq<EventId>)
    requires forall e | e in s :: e in outbox
    requires forall k | 0 <= k < |s| :: Blocked(outbox, s[k])
    ensures Unblocked(outbox, s) == []
    decreases |s|
  {
    if s != [] {
      AllBlocked(outbox, s[..|s| - 1]);
    }
  }
}
