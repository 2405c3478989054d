/** The in-process memory cache both services share: string keys, entries
    with an absolute expiration time. */
module Cache {
  import opened Wrappers
  import opened Calendar

  datatype CacheEntry<V> = CacheEntry(value: V, expiresAt: Instant)

  /** The value stored under `key` if it has not expired at `now`: an entry
      is live strictly before its expiration instant. */
  function Live<V>(entries: map<string, CacheEntry<V>>, key: string, now: Instant): Option<V>
  {
    if key in entries && now < entries[key].expiresAt then Some(entries[key].value) else None
  }

  /** A value stored at `storedAt` with a time-to-live `ttl` is returned
      unchanged until `storedAt + ttl` and not at or after it. */
  lemma LiveUntilExpiry<V>(entries: map<string, CacheEntry<V>>, key: string, value: V,
                           storedAt: Instant, ttl: nat, now: Instant)
    requires storedAt <= now
    ensures Live(entries[key := CacheEntry(value, storedAt + ttl)], key, now)
         == if now - storedAt < ttl then Some(value) else None
  {
  }

  /** What a `GetOrCreateAsync` call returns and leaves in the cache. */
  datatype Lookup<V> = Lookup(value: V, entries: map<string, CacheEntry<V>>)

  /** `GetOrCreateAsync` with the factory's answer `created`: a live entry
      under `key` is returned as stored and nothing changes; otherwise
      `created` is returned and stored to expire `ttl` after `now`. */
  function GetOrCreate<V>(entries: map<string, CacheEntry<V>>, key: string, now: Instant, ttl: nat, created: V): (r: Lookup<V>)
    ensures key in r.entries && r.entries[key].value == r.value
    ensures Live(entries, key, now).Some? ==> r.value == entries[key].value && r.entries == entries
    ensures Live(entries, key, now).None? ==> r.value == created && r.entries[key].expiresAt == now + ttl
    ensures r.entries.Keys == entries.Keys + {key}
    ensures forall k :: k != key && k in entries ==> r.entries[k] == entries[k]
  {
    match Live(entries, key, now)
    case Some(v) => Lookup(v, entries)
    case None => Lookup(created, entries[key := CacheEntry(created, now + ttl)])
  }

  /** A miss returns and stores the factory's answer. */
  lemma GetOrCreateMiss<V>(entries: map<string, CacheEntry<V>>, key: string, now: Instant, ttl: nat, created: V)
    requires Live(entries, key, now).None?
    ensures GetOrCreate(entries, key, now, ttl, created) == Lookup(created, entries[key := CacheEntry(created, now + ttl)])
  {
  }

  /** With a positive `ttl`, the answer returned is live under `key`
      right after the call, whether it was a hit or a miss. */
  lemma GetOrCreateStores<V>(entries: map<string, CacheEntry<V>>, key: string, now: Instant, ttl: nat, created: V)
    requires ttl > 0
    ensures var r := GetOrCreate(entries, key, now, ttl, created);
      Live(r.entries, key, now) == Some(r.value)
  {
  }

  /** After a miss at `t1`, every call with the same key before `t1 + ttl`
      returns the stored answer, whatever its own factory would give, and
      changes nothing. */
  lemma CachedUntilExpiry<V>(entries: map<string, CacheEntry<V>>, key: string, ttl: nat,
                             t1: Instant, created1: V, t2: Instant, created2: V)
    requires Live(entries, key, t1).None? && t1 <= t2 < t1 + ttl
    ensures var r1 := GetOrCreate(entries, key, t1, ttl, created1);
      GetOrCreate(r1.entries, key, t2, ttl, created2) == r1
  {
    LiveUntilExpiry(entries, key, created1, t1, ttl, t2);
  }

  /** From `t1 + ttl` on, the same key misses again and the new factory
      answer is returned and stored. */
  lemma ExpiresAfterTtl<V>(entries: map<string, CacheEntry<V>>, key: string, ttl: nat,
                           t1: Instant, created1: V, t2: Instant, created2: V)
    requires Live(entries, key, t1).None? && t1 + ttl <= t2
    ensures var r1 := GetOrCreate(entries, key, t1, ttl, created1);
      GetOrCreate(r1.entries, key, t2, ttl, created2) == Lookup(created2, r1.entries[key := CacheEntry(created2, t2 + ttl)])
  {
    LiveUntilExpiry(entries, key, created1, t1, ttl, t2);
  }

  class MemoryCache<V> {
    var entries: map<string, CacheEntry<V>>

    constructor ()
      ensures entries == map[]
    {
      entries := map[];
    }

    /** `TryGetValue`: a hit exactly when a live entry is stored under `key`. */
    method TryGetValue(key: string, now: Instant) returns (hit: Option<V>)
      ensures hit == Live(entries, key, now)
    {
      if key in entries && now < entries[key].expiresAt {
        hit := Some(entries[key].value);
      } else {
        hit := None;
      }
    }

    /** Stores `value` under `key`, replacing any earlier entry, to expire
      `ttl` ticks after `now` (`AbsoluteExpirationRelativeToNow`). */
    method Set(key: string, value: V, now: Instant, ttl: nat)
      modifies this
      ensures entries == old(entries)[key := CacheEntry(value, now + ttl)]
    {
      entries := entries[key := CacheEntry(value, now + ttl)];
    }
  }
}
