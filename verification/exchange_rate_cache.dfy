/**
 * The exchange-rate cache: one rate table per base currency, stored under
 * "exchange_rate_" followed by the upper-cased base, for one hour from the
 * time it was written.
 */
module ExchangeRateCache {
  import opened Wrappers
  import opened Text
  import opened Domain
  import MemoryCache

  const KeyPrefix: string := "exchange_rate_"
  const Expiration: nat := MemoryCache.TicksPerHour

  /** The slot of a base: the prefix, then the base with every letter upper-cased. */
  function CacheKey(baseCurrency: string): (k: string)
    ensures |k| == |KeyPrefix| + |baseCurrency|
    ensures k[..|KeyPrefix|] == KeyPrefix
    ensures forall i :: 0 <= i < |baseCurrency| ==> k[|KeyPrefix| + i] == UpperChar(baseCurrency[i])
  {
    KeyPrefix + ToUpper(baseCurrency)
  }

  /** `GetRatesAsync`: the table for the base, or null on a miss. */
  function GetRates(cache: Cache, baseCurrency: string, now: MemoryCache.Time): (r: Option<map<string, real>>)
    ensures r.Some? ==> CacheKey(baseCurrency) in cache.entries
  {
    match MemoryCache.TryGet<CachedValue>(cache, CacheKey(baseCurrency), now)
    case Some(RateTable(rates)) => Some(rates)
    case _ => None
  }

  /** `SetRatesAsync`: replaces the table for the base, expiring one hour from `now`. */
  function SetRates(cache: Cache, baseCurrency: string, rates: map<string, real>, now: MemoryCache.Time): (r: Cache)
    ensures r.entries.Keys == cache.entries.Keys + {CacheKey(baseCurrency)}
    ensures r.entries[CacheKey(baseCurrency)] == MemoryCache.Entry(RateTable(rates), now + Expiration)
    ensures forall k :: k in cache.entries && k != CacheKey(baseCurrency) ==> r.entries[k] == cache.entries[k]
    ensures GetRates(r, baseCurrency, now) == Some(rates)
  {
    MemoryCache.Set(cache, CacheKey(baseCurrency), RateTable(rates), now, Expiration)
  }

  lemma PrefixCancels(p: string, a: string, b: string)
    ensures p + a == p + b <==> a == b
  {
    if p + a == p + b {
      assert a == (p + a)[|p|..];
      assert b == (p + b)[|p|..];
    }
  }

  /** Two bases share a cache slot exactly when they are equal ignoring case. */
  lemma CacheKeyIgnoresCase(a: string, b: string)
    ensures CacheKey(a) == CacheKey(b) <==> EqualsIgnoreCase(a, b)
  {
    PrefixCancels(KeyPrefix, ToUpper(a), ToUpper(b));
  }

  /** A base whose slot was never written misses. */
  lemma NeverSetMisses(cache: Cache, baseCurrency: string, now: MemoryCache.Time)
    requires CacheKey(baseCurrency) !in cache.entries
    ensures GetRates(cache, baseCurrency, now) == None
  {
  }

  /**
   * Set then Get, with the base in any case on either side, returns exactly the
   * table written (an empty one included, earlier tables replaced wholesale)
   * until one hour after the write, and misses from then on.
   */
  lemma SetThenGet(cache: Cache, setBase: string, getBase: string, rates: map<string, real>,
                   now: MemoryCache.Time, t: MemoryCache.Time)
    requires EqualsIgnoreCase(setBase, getBase)
    requires now <= t
    ensures t < now + Expiration ==> GetRates(SetRates(cache, setBase, rates, now), getBase, t) == Some(rates)
    ensures t >= now + Expiration ==> GetRates(SetRates(cache, setBase, rates, now), getBase, t) == None
  {
    CacheKeyIgnoresCase(setBase, getBase);
    MemoryCache.SetThenGet(cache, CacheKey(setBase), RateTable(rates), now, Expiration, t);
  }

  /** Setting one base leaves every base that differs ignoring case as it was. */
  lemma SetLeavesOtherBases(cache: Cache, setBase: string, otherBase: string, rates: map<string, real>,
                            now: MemoryCache.Time, t: MemoryCache.Time)
    requires !EqualsIgnoreCase(setBase, otherBase)
    ensures GetRates(SetRates(cache, setBase, rates, now), otherBase, t) == GetRates(cache, otherBase, t)
  {
    CacheKeyIgnoresCase(setBase, otherBase);
    MemoryCache.SetOtherKey(cache, CacheKey(setBase), RateTable(rates), now, Expiration, CacheKey(otherBase), t);
  }
}
