/**
 * The country cache: the whole normalised country list stored as one snapshot
 * under a single key, for 24 hours from the time it was written. Lookup by code
 * scans that snapshot; it has no key of its own.
 */
module CountryCache {
  import opened Wrappers
  import opened Domain
  import MemoryCache

  const CacheKey: string := "countries"
  const Expiration: nat := 24 * MemoryCache.TicksPerHour

  /** `GetAllAsync`: the snapshot, or null on a miss (never written, expired, or another kind of value). */
  function GetAll(cache: Cache, now: MemoryCache.Time): (r: Option<seq<Country>>)
    ensures r.Some? ==> CacheKey in cache.entries && now < cache.entries[CacheKey].absoluteExpiration
  {
    match MemoryCache.TryGet<CachedValue>(cache, CacheKey, now)
    case Some(CountryList(countries)) => Some(countries)
    case _ => None
  }

  /** `SetAllAsync`: replaces the snapshot, expiring 24 hours from `now`. */
  function SetAll(cache: Cache, countries: seq<Country>, now: MemoryCache.Time): (r: Cache)
    ensures r.entries.Keys == cache.entries.Keys + {CacheKey}
    ensures r.entries[CacheKey] == MemoryCache.Entry(CountryList(countries), now + Expiration)
    ensures forall k :: k in cache.entries && k != CacheKey ==> r.entries[k] == cache.entries[k]
    ensures GetAll(r, now) == Some(countries)
  {
    MemoryCache.Set(cache, CacheKey, CountryList(countries), now, Expiration)
  }

  /** `GetByCodeAsync`: the first snapshot entry whose code matches ignoring case. */
  function GetByCode(cache: Cache, code: Option<string>, now: MemoryCache.Time): (r: Option<Country>)
    ensures GetAll(cache, now).None? ==> r.None?
  {
    match GetAll(cache, now)
    case None => None
    case Some(countries) => FindByCode(countries, code)
  }

  /** Before any `SetAll` the cache misses, for the list and for every code. */
  lemma NeverSetMisses(cache: Cache, code: Option<string>, now: MemoryCache.Time)
    requires CacheKey !in cache.entries
    ensures GetAll(cache, now) == None
    ensures GetByCode(cache, code, now) == None
  {
  }

  /**
   * `SetAll` then `GetAll` returns exactly the list written, same order, empty
   * lists included, whatever was cached before; from 24 hours after the write it misses.
   */
  lemma SetAllThenGetAll(cache: Cache, countries: seq<Country>, now: MemoryCache.Time, t: MemoryCache.Time)
    requires now <= t
    ensures t < now + Expiration ==> GetAll(SetAll(cache, countries, now), t) == Some(countries)
    ensures t >= now + Expiration ==> GetAll(SetAll(cache, countries, now), t) == None
  {
    MemoryCache.SetThenGet(cache, CacheKey, CountryList(countries), now, Expiration, t);
  }

  /**
   * After `SetAll`, lookup by code is the first case-insensitive match in the
   * written list (so entries of an earlier snapshot are gone), and null if none matches.
   */
  lemma SetAllThenGetByCode(cache: Cache, countries: seq<Country>, now: MemoryCache.Time, t: MemoryCache.Time,
                            code: Option<string>)
    requires now <= t < now + Expiration
    ensures GetByCode(SetAll(cache, countries, now), code, t) == FindByCode(countries, code)
    ensures GetByCode(SetAll(cache, countries, now), code, t).None? <==>
              forall i :: 0 <= i < |countries| ==> !CodeMatches(countries[i], code)
  {
    SetAllThenGetAll(cache, countries, now, t);
  }

  /** Lookup by code misses exactly when the list misses or holds no matching entry. */
  lemma GetByCodeMissesWithList(cache: Cache, code: Option<string>, now: MemoryCache.Time)
    ensures GetByCode(cache, code, now).None? <==>
              || GetAll(cache, now).None?
              || forall i :: 0 <= i < |GetAll(cache, now).value| ==> !CodeMatches(GetAll(cache, now).value[i], code)
  {
  }

  /** Lookup ignores the case of the requested code. */
  lemma GetByCodeIgnoresCase(cache: Cache, a: string, b: string, now: MemoryCache.Time)
    requires Text.EqualsIgnoreCase(a, b)
    ensures GetByCode(cache, Some(a), now) == GetByCode(cache, Some(b), now)
  {
    if GetAll(cache, now).Some? {
      var cs := GetAll(cache, now).value;
      assert forall c :: CodeMatches(c, Some(a)) <==> CodeMatches(c, Some(b));
      FindByCodeRespectsMatching(cs, Some(a), Some(b));
    }
  }

  lemma {:induction false} FindByCodeRespectsMatching(cs: seq<Country>, a: Option<string>, b: Option<string>)
    requires forall c :: CodeMatches(c, a) <==> CodeMatches(c, b)
    ensures FindByCode(cs, a) == FindByCode(cs, b)
  {
    if cs != [] {
      FindByCodeRespectsMatching(cs[1..], a, b);
    }
  }
}
