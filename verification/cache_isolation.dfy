/**
 * The country cache and the exchange-rate cache share one memory cache but
 * never each other's keys, so writing one never changes what the other returns.
 */
module CacheIsolation {
  import opened Domain
  import MemoryCache
  import CountryCache
  import ExchangeRateCache

  lemma KeysDisjoint(baseCurrency: string)
    ensures ExchangeRateCache.CacheKey(baseCurrency) != CountryCache.CacheKey
  {
    assert ExchangeRateCache.CacheKey(baseCurrency)[0] == 'e';
    assert CountryCache.CacheKey[0] == 'c';
  }

  /** Writing a rate table leaves the country snapshot, and every by-code lookup, as they were. */
  lemma SetRatesLeavesCountries(cache: Cache, baseCurrency: string, rates: map<string, real>,
                                now: MemoryCache.Time, t: MemoryCache.Time, code: Wrappers.Option<string>)
    ensures CountryCache.GetAll(ExchangeRateCache.SetRates(cache, baseCurrency, rates, now), t) == CountryCache.GetAll(cache, t)
    ensures CountryCache.GetByCode(ExchangeRateCache.SetRates(cache, baseCurrency, rates, now), code, t)
            == CountryCache.GetByCode(cache, code, t)
  {
    KeysDisjoint(baseCurrency);
    MemoryCache.SetOtherKey(cache, ExchangeRateCache.CacheKey(baseCurrency), RateTable(rates), now,
                            ExchangeRateCache.Expiration, CountryCache.CacheKey, t);
  }

  /** Writing the country snapshot leaves every rate table as it was. */
  lemma SetAllLeavesRates(cache: Cache, countries: seq<Country>, now: MemoryCache.Time, t: MemoryCache.Time,
                          baseCurrency: string)
    ensures ExchangeRateCache.GetRates(CountryCache.SetAll(cache, countries, now), baseCurrency, t)
            == ExchangeRateCache.GetRates(cache, baseCurrency, t)
  {
    KeysDisjoint(baseCurrency);
    MemoryCache.SetOtherKey(cache, CountryCache.CacheKey, CountryList(countries), now,
                            CountryCache.Expiration, ExchangeRateCache.CacheKey(baseCurrency), t);
  }
}
