/**
  When the lease watchdog is sound: a timed run of one worker beside any other
  callers of Redis.
 */
module Watchdog {
  import opened Wrappers
  import opened RedisTransport
  import opened Worker

  /**
    `open` is the time Redis executed the acquire or renewal whose success has
    not been stamped yet; `basis` is that time for the current stamp.
   */
  datatype Timed = Timed(
    now: Millis, keys: LeaseKeys, open: Option<Millis>, stamp: Option<Millis>, basis: Millis, leaseLost: bool)

  datatype Event =
    | Tick(d: nat)
    | Other(call: Call<nat, nat>)
    | Request(reply: Reply)
    | Stamp

  /** Nobody else renews or releases under this worker's credential. */
  predicate Foreign(c: Credential, call: Call<nat, nat>) {
    !((call.Renew? || call.Release?) && call.credential == c)
  }

  function Happens(c: Credential, ttl: int, s: Timed, e: Event): Timed {
    match e
    case Tick(d) => s.(now := s.now + d)
    case Other(call) => if Foreign(c, call) then s.(keys := Apply(s.keys, s.now, call)) else s
    case Request(reply) =>
      var call := Renew(c, ttl);
      if s.open.Some? || reply.NeverSent? then s
      else
        var t := s.(keys := Apply(s.keys, s.now, call));
        if reply.ReplyLost? then t
        else if Accepted(s.keys, s.now, call) then t.(open := Some(s.now))
        else t.(leaseLost := true)
    case Stamp =>
      if s.open.None? then s else s.(stamp := Some(s.now), basis := s.open.value, open := None)
  }

  function Unfold(c: Credential, ttl: int, s: Timed, events: seq<Event>): Timed {
    if events == [] then s
    else Happens(c, ttl, Unfold(c, ttl, s, events[..|events| - 1]), events[|events| - 1])
  }

  /** Redis has just granted the lease; the renewal thread does not exist yet. */
  function Granting(keys: LeaseKeys, now: Millis, call: Call<nat, nat>): Timed
    requires call.Acquire?
  {
    Timed(now, Apply(keys, now, call), Some(now), None, now, false)
  }

  /** A poll cycle that starts now would pass both lease checks. */
  predicate Passes(s: Timed, ttl: int, margin: int) {
    s.stamp.Some? && PassesLeaseChecks(Config(ttl, margin, 1),
                                       Cycle(false, false, s.leaseLost, s.stamp.value, s.now, Ready, Polled(false)))
  }

  predicate Holds(s: Timed, c: Credential) {
    Held(s.keys.lease, s.now) == Some(c)
  }

  /** The stamp was taken less than the margin after Redis executed the call it stands for. */
  predicate Prompt(s: Timed, margin: int) {
    s.stamp.Some? ==> s.stamp.value - s.basis < margin
  }

  /** Every stamp along the way is prompt. */
  ghost predicate AllPrompt(c: Credential, ttl: int, margin: int, s: Timed, events: seq<Event>) {
    forall n | 0 < n <= |events| && events[n - 1].Stamp? :: Prompt(Unfold(c, ttl, s, events[..n]), margin)
  }

  // ---------------------------------------------------------------------
  // What every event keeps
  // ---------------------------------------------------------------------

  /** The lease granted or renewed at `from` is still held, or its time has passed. */
  predicate LastsFrom(s: Timed, c: Credential, ttl: int, from: Millis) {
    && from <= s.now
    && ((s.keys.lease.Some? && s.keys.lease.value.credential == c && s.keys.lease.value.expiresAt >= from + ttl)
        || s.now >= from + ttl)
  }

  predicate TimedInv(s: Timed, c: Credential, ttl: int) {
    && c.token <= s.keys.counter
    && (s.keys.lease.Some? && s.keys.lease.value.credential == c ==> s.keys.lease.value.expiresAt <= s.now + ttl)
    && (s.open.Some? ==> LastsFrom(s, c, ttl, s.open.value))
    && (s.stamp.Some? ==> s.basis <= s.stamp.value <= s.now && LastsFrom(s, c, ttl, s.basis))
  }

  lemma HappensKeeps(c: Credential, ttl: int, s: Timed, e: Event)
    requires ttl > 0 && TimedInv(s, c, ttl)
    ensures TimedInv(Happens(c, ttl, s, e), c, ttl)
  {
  }

  lemma {:induction false} UnfoldKeeps(c: Credential, ttl: int, s: Timed, events: seq<Event>)
    requires ttl > 0 && TimedInv(s, c, ttl)
    ensures TimedInv(Unfold(c, ttl, s, events), c, ttl)
  {
    if events != [] {
      var n := |events| - 1;
      UnfoldKeeps(c, ttl, s, events[..n]);
      HappensKeeps(c, ttl, Unfold(c, ttl, s, events[..n]), events[n]);
    }
  }

  lemma {:induction false} StaysPrompt(c: Credential, ttl: int, margin: int, s: Timed, events: seq<Event>)
    requires Prompt(s, margin) && AllPrompt(c, ttl, margin, s, events)
    ensures Prompt(Unfold(c, ttl, s, events), margin)
    decreases |events|
  {
    if events != [] {
      var n := |events| - 1;
      if events[n].Stamp? {
        assert events[..n + 1] == events;
      } else {
        forall k | 0 < k <= n && events[..n][k - 1].Stamp? ensures Prompt(Unfold(c, ttl, s, events[..n][..k]), margin) {
          assert events[..n][..k] == events[..k];
        }
        StaysPrompt(c, ttl, margin, s, events[..n]);
      }
    }
  }

  lemma PassingHolds(c: Credential, ttl: int, margin: int, s: Timed)
    requires TimedInv(s, c, ttl) && Prompt(s, margin) && Passes(s, ttl, margin)
    ensures Holds(s, c)
  {
  }

  // ---------------------------------------------------------------------
  // Soundness, and its exact condition
  // ---------------------------------------------------------------------

  /**
    Soundness over whole runs: when every stamp is prompt, the first one
    included, each cycle that passes the checks starts while this worker holds
    the lease, so no other worker can have acquired it.
   */
  lemma {:induction false} WatchdogSound(
    keys: LeaseKeys, acquired: Millis, call: Call<nat, nat>, ttl: int, margin: int, events: seq<Event>,
    other: Call<nat, nat>)
    requires call.Acquire? && call.ttl == ttl && Accepted(keys, acquired, call)
    requires AllPrompt(Granted(keys, call), ttl, margin, Granting(keys, acquired, call), events)
    ensures var s := Unfold(Granted(keys, call), ttl, Granting(keys, acquired, call), events);
            Passes(s, ttl, margin) ==>
              Holds(s, Granted(keys, call)) && (other.Acquire? ==> !Accepted(s.keys, s.now, other))
  {
    var c, start := Granted(keys, call), Granting(keys, acquired, call);
    UnfoldKeeps(c, ttl, start, events);
    StaysPrompt(c, ttl, margin, start, events);
    if Passes(Unfold(c, ttl, start, events), ttl, margin) {
      PassingHolds(c, ttl, margin, Unfold(c, ttl, start, events));
    }
  }

  lemma {:induction false} UnfoldOne(c: Credential, ttl: int, s: Timed, events: seq<Event>, e: Event)
    ensures Unfold(c, ttl, s, events + [e]) == Happens(c, ttl, Unfold(c, ttl, s, events), e)
  {
    assert (events + [e])[..|events|] == events;
  }

  /** Right after a stamp, with no newer renewal executed. */
  predicate JustStamped(s: Timed, c: Credential, ttl: int) {
    && s.stamp == Some(s.now) && s.open == None && !s.leaseLost
    && s.keys.lease == Some(Lease(c, s.basis + ttl))
  }

  ghost predicate SoundAfter(s: Timed, c: Credential, ttl: int, margin: int) {
    forall events: seq<Event> | AllPrompt(c, ttl, margin, s, events) ::
      Passes(Unfold(c, ttl, s, events), ttl, margin) ==> Holds(Unfold(c, ttl, s, events), c)
  }

  /**
    The condition is exact: after a stamp taken a margin or more behind its
    call, waiting alone leads to a cycle that passes without the lease.
   */
  lemma SoundExactlyWhenPrompt(s: Timed, c: Credential, ttl: int, margin: int)
    requires 0 < ttl && margin <= ttl && TimedInv(s, c, ttl) && JustStamped(s, c, ttl)
    ensures SoundAfter(s, c, ttl, margin) <==> Prompt(s, margin)
  {
    if Prompt(s, margin) {
      forall events: seq<Event> | AllPrompt(c, ttl, margin, s, events) && Passes(Unfold(c, ttl, s, events), ttl, margin)
        ensures Holds(Unfold(c, ttl, s, events), c)
      {
        UnfoldKeeps(c, ttl, s, events);
        StaysPrompt(c, ttl, margin, s, events);
        PassingHolds(c, ttl, margin, Unfold(c, ttl, s, events));
      }
    } else {
      var wait := [Tick(ttl - margin)];
      UnfoldOne(c, ttl, s, [], Tick(ttl - margin));
      assert [] + wait == wait;
      var late := Unfold(c, ttl, s, wait);
      assert late == s.(now := s.now + (ttl - margin));
      assert AllPrompt(c, ttl, margin, s, wait);
      assert Passes(late, ttl, margin) && !Holds(late, c);
    }
  }

  /** A start-up of at least the margin between acquiring and building the thread loses the guarantee. */
  lemma {:induction false} SlowStartUnsound(keys: LeaseKeys, acquired: Millis, call: Call<nat, nat>, ttl: int, margin: int, delay: nat)
    requires call.Acquire? && call.ttl == ttl && Accepted(keys, acquired, call)
    requires margin <= delay && margin <= ttl
    ensures var s := Unfold(Granted(keys, call), ttl, Granting(keys, acquired, call), [Tick(delay), Stamp]);
            !SoundAfter(s, Granted(keys, call), ttl, margin)
  {
    var c, start := Granted(keys, call), Granting(keys, acquired, call);
    var events := [Tick(delay), Stamp];
    UnfoldOne(c, ttl, start, [], Tick(delay));
    UnfoldOne(c, ttl, start, [Tick(delay)], Stamp);
    assert [] + [Tick(delay)] == [Tick(delay)] && [Tick(delay)] + [Stamp] == events;
    var s := Unfold(c, ttl, start, events);
    UnfoldKeeps(c, ttl, start, events);
    assert s == Happens(c, ttl, Happens(c, ttl, start, Tick(delay)), Stamp);
    SoundExactlyWhenPrompt(s, c, ttl, margin);
  }

  // ---------------------------------------------------------------------
  // The renewal thread
  // ---------------------------------------------------------------------

  /** The timed run and the renewal thread agree. */
  predicate Tracks(s: Timed, r: Renewal) {
    s.keys == r.keys && s.stamp == Some(r.lastSuccessAt) && s.leaseLost == r.leaseLost && s.open == None
  }

  /**
    Every turn of the renewal thread outside shutdown is a stretch of the timed run: the request,
    and after an answered success the wait until the stamp and the stamp. So what is proved of
    timed runs holds of the thread.
   */
  lemma {:induction false} TurnIsEvents(c: Credential, ttl: int, s: Timed, r: Renewal, t: Turn) returns (events: seq<Event>)
    requires Tracks(s, r) && r.running && s.now == t.executedAt <= t.stampedAt && !t.stopping && !t.stoppingAfter
    ensures Tracks(Unfold(c, ttl, s, events), AfterTurn(r, c, ttl, t))
    ensures AfterTurn(r, c, ttl, t).running <==> !(t.reply.Answered? && !Accepted(s.keys, s.now, Renew(c, ttl)))
    ensures AfterTurn(r, c, ttl, t).lastSuccessAt
            == if t.reply.Answered? && Accepted(s.keys, s.now, Renew(c, ttl)) then t.stampedAt else r.lastSuccessAt
  {
    var request := Request(t.reply);
    UnfoldOne(c, ttl, s, [], request);
    assert [] + [request] == [request];
    events := [request];
    if t.reply.Answered? && Accepted(s.keys, s.now, Renew(c, ttl)) {
      var wait := Tick(t.stampedAt - t.executedAt);
      UnfoldOne(c, ttl, s, [request], wait);
      UnfoldOne(c, ttl, s, [request] + [wait], Stamp);
      events := [request] + [wait] + [Stamp];
    }
  }

  /** In shutdown a turn does nothing but end the loop, and a rejection met on the way down is no lost lease. */
  lemma ShutdownTurn(c: Credential, ttl: int, r: Renewal, t: Turn)
    ensures t.stopping ==> AfterTurn(r, c, ttl, t) == r.(running := false)
    ensures t.stoppingAfter ==> AfterTurn(r, c, ttl, t).leaseLost == r.leaseLost
  {
  }
}
