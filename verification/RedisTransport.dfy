/**
  The per-login Redis keys of the bridge and the five Lua scripts over them:
  a lease with fencing tokens, a live snapshot and a history stream.
 */
module RedisTransport {
  import opened Wrappers

  type Millis = int

  datatype Credential = Credential(owner: string, producer: string, epoch: nat, token: int)

  /** The lease value is the credential it was granted to. */
  datatype Lease = Lease(credential: Credential, expiresAt: Millis)

  datatype Live<V> = Live(envelope: V, expiresAt: Millis)

  datatype Entry<E> = Entry(eventId: nat, envelope: E)

  /**
    The keys of one login, with two histories the scripts do not store: the
    credentials issued so far, and the token each stream entry was appended with.
   */
  datatype Keys<V, E> = Keys(
    lease: Option<Lease>, epoch: Option<nat>, counter: int, live: Option<Live<V>>,
    stream: seq<Entry<E>>, issued: seq<Credential>, appenders: seq<int>)

  const DEFAULT_LIVE_SNAPSHOT_TTL_MS := 60_000

  function Fresh<V, E>(): Keys<V, E> {
    Keys(None, None, 0, None, [], [], [])
  }

  /** GET on a key with a time to live. */
  function Held(lease: Option<Lease>, now: Millis): Option<Credential> {
    if lease.Some? && now < lease.value.expiresAt then Some(lease.value.credential) else None
  }

  datatype Call<V, E> =
    | Acquire(owner: string, producer: string, ttl: int, candidate: nat)
    | Renew(credential: Credential, ttl: int)
    | Release(credential: Credential)
    | Publish(credential: Credential, envelope: V)
    | Append(credential: Credential, eventId: nat, entry: E)

  /** The arguments the Python wrapper lets through to the script. */
  predicate WellFormed<V, E>(call: Call<V, E>) {
    match call
    case Acquire(owner, producer, ttl, _) => owner != "" && producer != "" && ttl > 0
    case Renew(_, ttl) => ttl > 0
    case _ => true
  }

  predicate Accepted<V, E>(keys: Keys<V, E>, now: Millis, call: Call<V, E>) {
    && WellFormed(call)
    && match call
       case Acquire(_, _, _, _) => Held(keys.lease, now) == None
       case _ => Held(keys.lease, now) == Some(call.credential)
  }

  function Granted<V, E>(keys: Keys<V, E>, call: Call<V, E>): Credential
    requires call.Acquire?
  {
    Credential(call.owner, call.producer, if keys.epoch.Some? then keys.epoch.value else call.candidate,
               keys.counter + 1)
  }

  /** One script, executed atomically at `now`. A rejected call changes nothing. */
  function Apply<V, E>(keys: Keys<V, E>, now: Millis, call: Call<V, E>): Keys<V, E> {
    if !Accepted(keys, now, call) then keys
    else
      match call
      case Acquire(_, _, ttl, _) =>
        var c := Granted(keys, call);
        keys.(lease := Some(Lease(c, now + ttl)), epoch := Some(c.epoch), counter := c.token,
              issued := keys.issued + [c])
      case Renew(c, ttl) => keys.(lease := Some(Lease(c, now + ttl)))
      case Release(_) => keys.(lease := None)
      case Publish(_, envelope) =>
        keys.(live := Some(Live(envelope, now + DEFAULT_LIVE_SNAPSHOT_TTL_MS)))
      case Append(c, eventId, envelope) =>
        keys.(stream := keys.stream + [Entry(eventId, envelope)], appenders := keys.appenders + [c.token])
  }

  class Server<V, E> {
    var lease: Option<Lease>
    var epoch: Option<nat>
    var counter: int
    var live: Option<Live<V>>
    var stream: seq<Entry<E>>
    ghost var issued: seq<Credential>
    ghost var appenders: seq<int>

    ghost function State(): Keys<V, E>
      reads this
    {
      Keys(lease, epoch, counter, live, stream, issued, appenders)
    }

    ghost predicate Valid()
      reads this
    {
      Coordinated(State())
    }

    constructor ()
      ensures Valid() && State() == Fresh()
    {
      lease, epoch, counter := None, None, 0;
      live, stream, issued, appenders := None, [], [], [];
    }

    method Fenced(now: Millis, c: Credential) returns (ok: bool)
      ensures ok <==> Held(lease, now) == Some(c)
    {
      if lease.None? || lease.value.expiresAt <= now {
        return false;
      }
      var held := lease.value.credential;
      ok := held.owner == c.owner && held.producer == c.producer && held.epoch == c.epoch && held.token == c.token;
    }

    method AcquireLease(now: Millis, owner: string, producer: string, ttl: int, candidate: nat)
      returns (r: Result<Credential>)
      requires Valid()
      modifies this
      ensures Valid()
      ensures var call: Call<V, E> := Acquire(owner, producer, ttl, candidate);
              && State() == Apply(old(State()), now, call)
              && r == (if !WellFormed(call) then Failure(ValueError)
                       else if !Accepted(old(State()), now, call) then Failure(LeaseUnavailable)
                       else Success(Granted(old(State()), call)))
    {
      ApplyCoordinated(State(), now, Acquire(owner, producer, ttl, candidate));
      if owner == "" || producer == "" || ttl <= 0 {
        return Failure(ValueError);
      }
      if lease.Some? && now < lease.value.expiresAt {
        return Failure(LeaseUnavailable);
      }
      if epoch.None? {
        epoch := Some(candidate);
      }
      counter := counter + 1;
      var c := Credential(owner, producer, epoch.value, counter);
      lease := Some(Lease(c, now + ttl));
      issued := issued + [c];
      r := Success(c);
    }

    method RenewLease(now: Millis, c: Credential, ttl: int) returns (r: Result<bool>)
      requires Valid()
      modifies this
      ensures Valid()
      ensures var call: Call<V, E> := Renew(c, ttl);
              && State() == Apply(old(State()), now, call)
              && r == (if !WellFormed(call) then Failure(ValueError)
                       else if !Accepted(old(State()), now, call) then Failure(LeaseUnavailable)
                       else Success(true))
    {
      ApplyCoordinated(State(), now, Renew(c, ttl));
      if ttl <= 0 {
        return Failure(ValueError);
      }
      var ok := Fenced(now, c);
      if !ok {
        return Failure(LeaseUnavailable);
      }
      lease := Some(lease.value.(expiresAt := now + ttl));
      r := Success(true);
    }

    method ReleaseLease(now: Millis, c: Credential) returns (r: Result<()>)
      requires Valid()
      modifies this
      ensures Valid()
      ensures var call: Call<V, E> := Release(c);
              && State() == Apply(old(State()), now, call)
              && r == (if Accepted(old(State()), now, call) then Success(()) else Failure(LeaseUnavailable))
    {
      ApplyCoordinated(State(), now, Release(c));
      var ok := Fenced(now, c);
      if !ok {
        return Failure(LeaseUnavailable);
      }
      lease := None;
      r := Success(());
    }

    method PublishLiveFenced(now: Millis, c: Credential, envelope: V) returns (r: Result<()>)
      requires Valid()
      modifies this
      ensures Valid()
      ensures var call: Call<V, E> := Publish(c, envelope);
              && State() == Apply(old(State()), now, call)
              && r == (if Accepted(old(State()), now, call) then Success(()) else Failure(LeaseUnavailable))
    {
      ApplyCoordinated(State(), now, Publish(c, envelope));
      var ok := Fenced(now, c);
      if !ok {
        return Failure(LeaseUnavailable);
      }
      live := Some(Live(envelope, now + DEFAULT_LIVE_SNAPSHOT_TTL_MS));
      r := Success(());
    }

    /** Appends to the history stream and returns the position of the new entry. */
    method AppendStreamFenced(now: Millis, c: Credential, eventId: nat, envelope: E) returns (r: Result<nat>)
      requires Valid()
      modifies this
      ensures Valid()
      ensures var call: Call<V, E> := Append(c, eventId, envelope);
              && State() == Apply(old(State()), now, call)
              && r == (if Accepted(old(State()), now, call) then Success(|old(stream)|)
                       else Failure(LeaseUnavailable))
    {
      ApplyCoordinated(State(), now, Append(c, eventId, envelope));
      var ok := Fenced(now, c);
      if !ok {
        return Failure(LeaseUnavailable);
      }
      r := Success(|stream|);
      stream := stream + [Entry(eventId, envelope)];
      appenders := appenders + [c.token];
    }
  }

  // ---------------------------------------------------------------------
  // Fencing over whole runs
  // ---------------------------------------------------------------------

  ghost predicate NonDecreasing(s: seq<int>) {
    forall i, j | 0 <= i < j < |s| :: s[i] <= s[j]
  }

  /** Tokens are issued in order, and a stored lease is always the last one issued. */
  ghost predicate Coordinated<V, E>(keys: Keys<V, E>) {
    && |keys.issued| == keys.counter
    && (forall i | 0 <= i < |keys.issued| ::
          keys.issued[i].token == i + 1 && keys.epoch == Some(keys.issued[i].epoch))
    && (keys.lease.Some? ==>
          keys.issued != [] && keys.lease.value.credential == keys.issued[|keys.issued| - 1])
    && |keys.appenders| == |keys.stream|
    && NonDecreasing(keys.appenders)
    && (forall i | 0 <= i < |keys.appenders| :: 1 <= keys.appenders[i] <= keys.counter)
  }

  lemma ApplyCoordinated<V, E>(keys: Keys<V, E>, now: Millis, call: Call<V, E>)
    requires Coordinated(keys)
    ensures Coordinated(Apply(keys, now, call))
  {
  }

  function RunCalls<V, E>(keys: Keys<V, E>, calls: seq<(Millis, Call<V, E>)>): Keys<V, E> {
    if calls == [] then keys
    else
      var n := |calls| - 1;
      Apply(RunCalls(keys, calls[..n]), calls[n].0, calls[n].1)
  }

  lemma {:induction false} RunCoordinated<V, E>(calls: seq<(Millis, Call<V, E>)>)
    ensures Coordinated(RunCalls(Fresh<V, E>(), calls))
    decreases |calls|
  {
    if calls != [] {
      var n := |calls| - 1;
      RunCoordinated(calls[..n]);
      ApplyCoordinated(RunCalls(Fresh<V, E>(), calls[..n]), calls[n].0, calls[n].1);
    }
  }

  lemma {:induction false} RunOfPrefix<V, E>(keys: Keys<V, E>, calls: seq<(Millis, Call<V, E>)>, n: nat)
    requires n <= |calls|
    ensures RunCalls(keys, calls[..n]).issued <= RunCalls(keys, calls).issued
    ensures RunCalls(keys, calls[..n]).stream <= RunCalls(keys, calls).stream
    ensures RunCalls(keys, calls[..n]).appenders <= RunCalls(keys, calls).appenders
    decreases |calls|
  {
    if n == |calls| {
      assert calls[..n] == calls;
    } else {
      var k := |calls| - 1;
      assert calls[..k][..n] == calls[..n];
      RunOfPrefix(keys, calls[..k], n);
    }
  }

  /**
    Fencing, for any callers, any presented credentials and any times: in every
    run no token is issued twice, every accepted fenced call carries the last
    credential issued before it, and tokens never decrease along the stream.
   */
  lemma {:induction false} Fencing<V, E>(calls: seq<(Millis, Call<V, E>)>)
    ensures var keys := RunCalls(Fresh<V, E>(), calls);
            && (forall i, j | 0 <= i < j < |keys.issued| :: keys.issued[i].token < keys.issued[j].token)
            && (keys.lease.Some? ==> keys.lease.value.credential.token == keys.counter)
            && NonDecreasing(keys.appenders) && |keys.appenders| == |keys.stream|
    ensures forall n | 0 <= n < |calls| && !calls[n].1.Acquire? ::
              var before := RunCalls(Fresh<V, E>(), calls[..n]);
              Accepted(before, calls[n].0, calls[n].1) ==>
                && before.issued != []
                && calls[n].1.credential == before.issued[|before.issued| - 1]
                && calls[n].1.credential.token == before.counter
  {
    RunCoordinated(calls);
    forall n | 0 <= n < |calls| && !calls[n].1.Acquire?
      ensures var before := RunCalls(Fresh<V, E>(), calls[..n]);
              Accepted(before, calls[n].0, calls[n].1) ==>
                && before.issued != []
                && calls[n].1.credential == before.issued[|before.issued| - 1]
                && calls[n].1.credential.token == before.counter
    {
      RunCoordinated(calls[..n]);
    }
  }

  /** Once a later credential is issued, the earlier one is rejected forever. */
  lemma {:induction false} Superseded<V, E>(calls: seq<(Millis, Call<V, E>)>, c: Credential, now: Millis, n: nat, call: Call<V, E>)
    requires n <= |calls|
    requires c.token < RunCalls(Fresh<V, E>(), calls[..n]).counter
    requires !call.Acquire? && call.credential == c
    ensures !Accepted(RunCalls(Fresh<V, E>(), calls), now, call)
    ensures Apply(RunCalls(Fresh<V, E>(), calls), now, call) == RunCalls(Fresh<V, E>(), calls)
  {
    RunCoordinated(calls);
    RunCoordinated(calls[..n]);
    RunOfPrefix(Fresh<V, E>(), calls, n);
  }
}
