/**
 * The in-process memory cache both caches of the core write to: a map from string
 * keys to entries with an absolute expiry. An entry is visible until its expiry
 * instant (it counts as expired once `absoluteExpiration <= now`); reading never
 * extends it. Time is measured in .NET ticks (100 ns).
 */
module MemoryCache {
  import opened Wrappers

  type Time = int

  const TicksPerSecond: int := 10_000_000
  const TicksPerHour: int := 3600 * TicksPerSecond

  datatype Entry<V> = Entry(value: V, absoluteExpiration: Time)

  datatype Store<V> = Store(entries: map<string, Entry<V>>)

  /** A cache nothing has been written to. */
  function Empty<V>(): Store<V> {
    Store(map[])
  }

  /** `TryGetValue`: the value under `key` if it has not expired at `now`. */
  function TryGet<V>(s: Store<V>, key: string, now: Time): (r: Option<V>)
    ensures r.Some? <==> key in s.entries && now < s.entries[key].absoluteExpiration
    ensures r.Some? ==> r.value == s.entries[key].value
  {
    if key in s.entries && now < s.entries[key].absoluteExpiration
    then Some(s.entries[key].value)
    else None
  }

  /** `Set` with `SetAbsoluteExpiration(ttl)`: replaces whatever was under `key`. */
  function Set<V>(s: Store<V>, key: string, value: V, now: Time, ttl: nat): (s': Store<V>)
    ensures s'.entries.Keys == s.entries.Keys + {key}
    ensures s'.entries[key] == Entry(value, now + ttl)
    ensures forall k :: k in s.entries && k != key ==> s'.entries[k] == s.entries[k]
  {
    Store(s.entries[key := Entry(value, now + ttl)])
  }

  /** A value just set is read back unchanged until its expiry, and not after. */
  lemma SetThenGet<V>(s: Store<V>, key: string, value: V, now: Time, ttl: nat, t: Time)
    requires now <= t
    ensures TryGet(Set(s, key, value, now, ttl), key, t) == (if t < now + ttl then Some(value) else None)
  {
  }

  /** Setting one key is invisible under every other key. */
  lemma SetOtherKey<V>(s: Store<V>, key: string, value: V, now: Time, ttl: nat, other: string, t: Time)
    requires other != key
    ensures TryGet(Set(s, key, value, now, ttl), other, t) == TryGet(s, other, t)
  {
  }
}
