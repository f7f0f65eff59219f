/** The five scripts key by key. */
module TransportLaws {
  import opened Wrappers
  import opened RedisTransport

  /** The lease has not run out and was granted to exactly this credential. */
  predicate HeldBy<V, E>(keys: Keys<V, E>, now: Millis, c: Credential) {
    keys.lease.Some? && now < keys.lease.value.expiresAt && keys.lease.value.credential == c
  }

  predicate Free<V, E>(keys: Keys<V, E>, now: Millis) {
    keys.lease.None? || keys.lease.value.expiresAt <= now
  }

  /** A grant numbers its credential after the last one, in the epoch in force or the offered one. */
  ghost predicate GrantedTo<V, E>(before: Keys<V, E>, after: Keys<V, E>, owner: string, producer: string, candidate: nat, until: Millis) {
    && after.lease.Some? && after.lease.value.expiresAt == until
    && var c := after.lease.value.credential;
       && c.owner == owner && c.producer == producer && c.token == before.counter + 1
       && c.epoch == (if before.epoch == None then candidate else before.epoch.value)
       && after.epoch == Some(c.epoch) && after.counter == c.token && after.issued == before.issued + [c]
       && after == before.(lease := after.lease, epoch := after.epoch, counter := after.counter, issued := after.issued)
  }

  /**
    A lease is granted when none is in force, and every other script does its work exactly for
    the credential that holds it; nothing else changes anything.
   */
  lemma ScriptExactly<V, E>(keys: Keys<V, E>, now: Millis, call: Call<V, E>)
    ensures var after := Apply(keys, now, call);
            match call
            case Acquire(owner, producer, ttl, candidate) =>
              if owner != "" && producer != "" && ttl > 0 && Free(keys, now)
              then GrantedTo(keys, after, owner, producer, candidate, now + ttl) else after == keys
            case Renew(c, ttl) =>
              if ttl > 0 && HeldBy(keys, now, c)
              then after.lease == Some(Lease(c, now + ttl)) && after == keys.(lease := after.lease) else after == keys
            case Release(c) =>
              if HeldBy(keys, now, c) then after == keys.(lease := None) else after == keys
            case Publish(c, envelope) =>
              if HeldBy(keys, now, c)
              then after.live == Some(Live(envelope, now + 60_000)) && after == keys.(live := after.live) else after == keys
            case Append(c, eventId, entry) =>
              if HeldBy(keys, now, c)
              then after.stream == keys.stream + [Entry(eventId, entry)] && after.appenders == keys.appenders + [c.token]
                   && after == keys.(stream := after.stream, appenders := after.appenders)
              else after == keys
  {
  }
}
