/**
 * Exchange-rate resolution: equal currencies give exactly 1; otherwise the
 * cached table for the base is used when it holds the upper-cased target;
 * otherwise the whole table for the base is fetched, cached, and then searched.
 * "Rates unavailable" (no body, or result other than "success") and "rate not
 * found" are different failures; transport and parse failures pass through.
 */
module ExchangeRateApiService {
  import opened Wrappers
  import opened Text
  import opened Domain
  import MemoryCache
  import ExchangeRateCache
  import CountryCache
  import CacheIsolation

  const SuccessResult: string := "success"

  /** The rate table of a fetch that reported success; none for a failure or a null body. */
  function SuccessfulTable(fetched: FetchOutcome<ExchangeRateResponse>): Option<map<string, real>> {
    if fetched.Received? && fetched.body.Some? && fetched.body.value.result == SuccessResult
    then Some(fetched.body.value.rates)
    else None
  }

  /** The cached table for `from` answers for `to`. */
  predicate CachedHit(cache: Cache, from: string, to: string, now: MemoryCache.Time) {
    var cached := ExchangeRateCache.GetRates(cache, from, now);
    cached.Some? && ToUpper(to) in cached.value
  }

  /** `GetExchangeRateAsync(from, to)`; the provider is asked for the upper-cased base. */
  function GetExchangeRate(cache: Cache, now: MemoryCache.Time,
                           rateTables: string -> FetchOutcome<ExchangeRateResponse>,
                           from: string, to: string): (r: Step<real>)
    // No external call without a fetch of exactly the upper-cased base, and only when neither shortcut applies.
    ensures r.calls == (if EqualsIgnoreCase(from, to) || CachedHit(cache, from, to, now) then []
                        else [RatesFetch(ToUpper(from))])
    // The cache changes only by a successful fetch storing the whole table under `from`.
    ensures r.cache == cache ||
            (var table := SuccessfulTable(rateTables(ToUpper(from)));
             table.Some? && r.cache == ExchangeRateCache.SetRates(cache, from, table.value, now))
  {
    if EqualsIgnoreCase(from, to) then
      Step(Ok(1.0), cache, [])
    else
      var cached := ExchangeRateCache.GetRates(cache, from, now);
      if cached.Some? && ToUpper(to) in cached.value then
        Step(Ok(cached.value[ToUpper(to)]), cache, [])
      else
        var calls := [RatesFetch(ToUpper(from))];
        match rateTables(ToUpper(from))
        case TransportFailure(reason) => Step(Err(UpstreamFailure(reason)), cache, calls)
        case Received(None) => Step(Err(RatesUnavailable(from)), cache, calls)
        case Received(Some(response)) =>
          if response.result != SuccessResult then
            Step(Err(RatesUnavailable(from)), cache, calls)
          else
            var cache' := ExchangeRateCache.SetRates(cache, from, response.rates, now);
            if ToUpper(to) in response.rates then
              Step(Ok(response.rates[ToUpper(to)]), cache', calls)
            else
              Step(Err(RateNotFound(to)), cache', calls)
  }

  /** Equal currencies (any case) give exactly 1, touching neither the cache nor the provider. */
  lemma SameCurrencyIsOne(cache: Cache, now: MemoryCache.Time,
                          rateTables: string -> FetchOutcome<ExchangeRateResponse>, from: string, to: string)
    requires EqualsIgnoreCase(from, to)
    ensures GetExchangeRate(cache, now, rateTables, from, to) == Step(Ok(1.0), cache, [])
  {
  }

  /** A cached table holding the upper-cased target answers, with no fetch. */
  lemma CachedTableAnswers(cache: Cache, now: MemoryCache.Time,
                           rateTables: string -> FetchOutcome<ExchangeRateResponse>, from: string, to: string)
    requires !EqualsIgnoreCase(from, to)
    requires CachedHit(cache, from, to, now)
    ensures GetExchangeRate(cache, now, rateTables, from, to)
            == Step(Ok(ExchangeRateCache.GetRates(cache, from, now).value[ToUpper(to)]), cache, [])
  {
  }

  /**
   * Without a usable cached table the provider is asked: a missing body or a
   * result other than "success" fails as "rates unavailable" for `from` and
   * leaves the cache alone; a transport failure passes through unchanged.
   */
  lemma FetchFailures(cache: Cache, now: MemoryCache.Time,
                      rateTables: string -> FetchOutcome<ExchangeRateResponse>, from: string, to: string)
    requires !EqualsIgnoreCase(from, to) && !CachedHit(cache, from, to, now)
    ensures var r := GetExchangeRate(cache, now, rateTables, from, to);
            var fetched := rateTables(ToUpper(from));
            && (fetched.TransportFailure? ==> r.result == Err(UpstreamFailure(fetched.reason)) && r.cache == cache)
            && (fetched == Received(None) ==> r.result == Err(RatesUnavailable(from)) && r.cache == cache)
            && (fetched.Received? && fetched.body.Some? && fetched.body.value.result != SuccessResult ==>
                  r.result == Err(RatesUnavailable(from)) && r.cache == cache)
  {
  }

  /**
   * A successful fetch stores the whole table under `from` before looking up the
   * target, so the table is cached even when the target is missing, which then
   * fails as "rate not found" for `to`.
   */
  lemma SuccessfulFetchCachesWholeTable(cache: Cache, now: MemoryCache.Time,
                                        rateTables: string -> FetchOutcome<ExchangeRateResponse>,
                                        from: string, to: string, t: MemoryCache.Time)
    requires !EqualsIgnoreCase(from, to) && !CachedHit(cache, from, to, now)
    requires SuccessfulTable(rateTables(ToUpper(from))).Some?
    requires now <= t < now + ExchangeRateCache.Expiration
    ensures var r := GetExchangeRate(cache, now, rateTables, from, to);
            var rates := SuccessfulTable(rateTables(ToUpper(from))).value;
            && ExchangeRateCache.GetRates(r.cache, from, t) == Some(rates)
            && r.result == (if ToUpper(to) in rates then Ok(rates[ToUpper(to)]) else Err(RateNotFound(to)))
  {
    var rates := SuccessfulTable(rateTables(ToUpper(from))).value;
    ExchangeRateCache.SetThenGet(cache, from, from, rates, now, t);
  }

  /**
   * No rate is ever made up: a returned rate is 1 for equal currencies, or the
   * entry for the upper-cased target in the cached or the freshly fetched table.
   */
  lemma RateComesFromATable(cache: Cache, now: MemoryCache.Time,
                            rateTables: string -> FetchOutcome<ExchangeRateResponse>, from: string, to: string)
    ensures var r := GetExchangeRate(cache, now, rateTables, from, to);
            r.result.Ok? ==>
              || (EqualsIgnoreCase(from, to) && r.result.value == 1.0)
              || (CachedHit(cache, from, to, now) &&
                  r.result.value == ExchangeRateCache.GetRates(cache, from, now).value[ToUpper(to)])
              || (var table := SuccessfulTable(rateTables(ToUpper(from)));
                  table.Some? && ToUpper(to) in table.value && r.result.value == table.value[ToUpper(to)])
  {
  }

  /**
   * Warm cache: after a call that fetched the table for `from`, any later call
   * within the hour for a target in that table is answered from the cache
   * without contacting the provider, whatever the provider would now say.
   */
  lemma FetchedTableServesLaterCalls(cache: Cache, now: MemoryCache.Time,
                                     rateTables: string -> FetchOutcome<ExchangeRateResponse>,
                                     later: string -> FetchOutcome<ExchangeRateResponse>,
                                     from: string, to: string, from2: string, to2: string, t: MemoryCache.Time)
    requires !EqualsIgnoreCase(from, to) && !CachedHit(cache, from, to, now)
    requires SuccessfulTable(rateTables(ToUpper(from))).Some?
    requires EqualsIgnoreCase(from, from2)
    requires ToUpper(to2) in SuccessfulTable(rateTables(ToUpper(from))).value
    requires now <= t < now + ExchangeRateCache.Expiration
    ensures var first := GetExchangeRate(cache, now, rateTables, from, to);
            var second := GetExchangeRate(first.cache, t, later, from2, to2);
            && second.calls == []
            && second.cache == first.cache
            && second.result == (if EqualsIgnoreCase(from2, to2) then Ok(1.0)
                                 else Ok(SuccessfulTable(rateTables(ToUpper(from))).value[ToUpper(to2)]))
  {
    var rates := SuccessfulTable(rateTables(ToUpper(from))).value;
    ExchangeRateCache.SetThenGet(cache, from, from2, rates, now, t);
  }

  /** Rate resolution never changes what the country cache returns. */
  lemma LeavesCountryCache(cache: Cache, now: MemoryCache.Time,
                           rateTables: string -> FetchOutcome<ExchangeRateResponse>,
                           from: string, to: string, t: MemoryCache.Time, code: Option<string>)
    ensures var r := GetExchangeRate(cache, now, rateTables, from, to);
            && CountryCache.GetAll(r.cache, t) == CountryCache.GetAll(cache, t)
            && CountryCache.GetByCode(r.cache, code, t) == CountryCache.GetByCode(cache, code, t)
  {
    var fetched := rateTables(ToUpper(from));
    if fetched.Received? && fetched.body.Some? {
      CacheIsolation.SetRatesLeavesCountries(cache, from, fetched.body.value.rates, now, t, code);
    }
  }
}
