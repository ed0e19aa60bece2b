/**
 * The country-list handler: cache-aside over the country snapshot. A hit
 * (even an empty list) is returned as is; a miss fetches the catalog once,
 * writes exactly that list to the cache and returns it.
 */
module CountryGetAllQueryHandler {
  import opened Wrappers
  import opened Domain
  import MemoryCache
  import CountryCache
  import CountryApiService
  import ExchangeRateCache
  import CacheIsolation

  /** The country list: the cached snapshot, or else the source's list, which is then cached. */
  function Handle(cache: Cache, now: MemoryCache.Time, up: Upstream): (r: Step<seq<Country>>)
    // A hit answers from the snapshot alone.
    ensures CountryCache.GetAll(cache, now).Some? ==> r == Step(Ok(CountryCache.GetAll(cache, now).value), cache, [])
    // A miss asks the source exactly once, and the cache then holds exactly what was returned.
    ensures CountryCache.GetAll(cache, now).None? ==>
              && r.calls == [CatalogFetch]
              && (r.result.Ok? ==> CountryCache.GetAll(r.cache, now) == Some(r.result.value))
              && (r.result.Err? ==> r.cache == cache)
  {
    match CountryCache.GetAll(cache, now)
    case Some(countries) => Step(Ok(countries), cache, [])
    case None =>
      match CountryApiService.GetAllCountries(up.catalog, up.collation)
      case Err(e) => Step(Err(e), cache, [CatalogFetch])
      case Ok(countries) =>
        CountryCache.SetAllThenGetAll(cache, countries, now, now);
        Step(Ok(countries), CountryCache.SetAll(cache, countries, now), [CatalogFetch])
  }

  /** On a miss the list returned is the source's list, and a source failure comes back unchanged. */
  lemma MissReturnsSourceList(cache: Cache, now: MemoryCache.Time, up: Upstream)
    requires CountryCache.GetAll(cache, now).None?
    ensures Handle(cache, now, up).result == CountryApiService.GetAllCountries(up.catalog, up.collation)
  {
  }

  /**
   * After a miss, a second call within 24 hours is a hit returning the same
   * list with no further fetch, whatever the catalog would say by then.
   */
  lemma SecondCallHits(cache: Cache, now: MemoryCache.Time, up: Upstream, later: Upstream, t: MemoryCache.Time)
    requires CountryCache.GetAll(cache, now).None?
    requires Handle(cache, now, up).result.Ok?
    requires now <= t < now + CountryCache.Expiration
    ensures var first := Handle(cache, now, up);
            Handle(first.cache, t, later) == Step(first.result, first.cache, [])
  {
    var first := Handle(cache, now, up);
    CountryCache.SetAllThenGetAll(cache, first.result.value, now, t);
  }

  /** Once the written snapshot has expired, the next call misses and fetches again. */
  lemma ExpiredSnapshotRefetches(cache: Cache, now: MemoryCache.Time, up: Upstream, later: Upstream, t: MemoryCache.Time)
    requires CountryCache.GetAll(cache, now).None?
    requires Handle(cache, now, up).result.Ok?
    requires t >= now + CountryCache.Expiration
    ensures Handle(Handle(cache, now, up).cache, t, later).calls == [CatalogFetch]
  {
    var first := Handle(cache, now, up);
    CountryCache.SetAllThenGetAll(cache, first.result.value, now, t);
  }

  /** The list handler never changes a cached rate table. */
  lemma LeavesRateTables(cache: Cache, now: MemoryCache.Time, up: Upstream, baseCurrency: string, t: MemoryCache.Time)
    ensures ExchangeRateCache.GetRates(Handle(cache, now, up).cache, baseCurrency, t)
            == ExchangeRateCache.GetRates(cache, baseCurrency, t)
  {
    var r := Handle(cache, now, up);
    if r.cache != cache {
      CacheIsolation.SetAllLeavesRates(cache, r.result.value, now, t, baseCurrency);
    }
  }
}
