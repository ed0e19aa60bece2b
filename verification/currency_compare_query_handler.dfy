/**
 * The comparison handler: resolve the home country and then the destination
 * country (each from the country cache, else from the country source), fail
 * naming the home code before the destination code, ask for the rate from the
 * home currency to the destination currency, and build the result with the
 * rate rounded to four digits and the strength hint taken from the raw rate.
 */
module CurrencyCompareQueryHandler {
  import opened Wrappers
  import opened Text
  import opened Domain
  import opened Rounding
  import MemoryCache
  import CountryCache
  import CountryApiService
  import ExchangeRateApiService
  import ExchangeRateCache
  import CacheIsolation

  const SameCurrencyHint: string := "Same currency"
  const StrongerHint: string := "Your money is stronger"
  const WeakerHint: string := "Your money is weaker"
  const EqualHint: string := "Currencies are equal"

  const HomeParam: string := "HomeCountryCode"
  const DestinationParam: string := "DestinationCountryCode"

  /**
   * The strength hint: equal currency codes (ignoring case) always give
   * "Same currency"; otherwise exactly one of stronger / weaker / equal, by
   * comparing the rate with 1.
   */
  function DetermineStrengthHint(rate: real, homeCurrency: string, destinationCurrency: string): (h: string)
    ensures h == SameCurrencyHint <==> EqualsIgnoreCase(homeCurrency, destinationCurrency)
    ensures !EqualsIgnoreCase(homeCurrency, destinationCurrency) ==>
              && (h == StrongerHint <==> rate > 1.0)
              && (h == WeakerHint <==> rate < 1.0)
              && (h == EqualHint <==> rate == 1.0)
  {
    if EqualsIgnoreCase(homeCurrency, destinationCurrency) then SameCurrencyHint
    else if rate > 1.0 then StrongerHint
    else if rate < 1.0 then WeakerHint
    else EqualHint
  }

  /**
   * A country is taken from the country cache when it holds a match, and
   * otherwise from the source; the cache is only read, never written.
   */
  function ResolveCountry(cache: Cache, now: MemoryCache.Time, up: Upstream, code: Option<string>)
    : (r: Step<Option<Country>>)
    ensures r.cache == cache
    ensures r.calls == (if CountryCache.GetByCode(cache, code, now).Some? then [] else [CatalogFetch])
    ensures r.result.Ok? && r.result.value.Some? ==> CodeMatches(r.result.value.value, code)
  {
    match CountryCache.GetByCode(cache, code, now)
    case Some(c) => Step(Ok(Some(c)), cache, [])
    case None => Step(CountryApiService.GetCountryByCode(up.catalog, up.collation, code), cache, [CatalogFetch])
  }

  /** The code as the not-found message renders it (a null code renders as nothing). */
  function Rendered(code: Option<string>): string {
    code.GetOr("")
  }

  /**
   * Resolve both countries, fail with the first unresolved one, otherwise ask
   * for the rate from the home currency to the destination currency and report
   * it rounded to four digits with its strength hint.
   */
  function Handle(q: CompareQuery, cache: Cache, now: MemoryCache.Time, up: Upstream): (r: Step<ComparisonResult>)
    ensures r.result.Ok? ==> r.result.value.strengthHint in {SameCurrencyHint, StrongerHint, WeakerHint, EqualHint}
    ensures r.result.Ok? ==>
              (r.result.value.strengthHint == SameCurrencyHint <==>
                 EqualsIgnoreCase(r.result.value.homeCurrency, r.result.value.destinationCurrency))
  {
    var home := ResolveCountry(cache, now, up, q.homeCountryCode);
    if home.result.Err? then Step(Err(home.result.error), cache, home.calls)
    else
      var destination := ResolveCountry(cache, now, up, q.destinationCountryCode);
      var calls := home.calls + destination.calls;
      if destination.result.Err? then Step(Err(destination.result.error), cache, calls)
      else if home.result.value.None? then
        Step(Err(CountryNotFound(Rendered(q.homeCountryCode), HomeParam)), cache, calls)
      else if destination.result.value.None? then
        Step(Err(CountryNotFound(Rendered(q.destinationCountryCode), DestinationParam)), cache, calls)
      else
        var h := home.result.value.value;
        var d := destination.result.value.value;
        var rate := ExchangeRateApiService.GetExchangeRate(cache, now, up.rateTables, h.currencyCode, d.currencyCode);
        if rate.result.Err? then Step(Err(rate.result.error), rate.cache, calls + rate.calls)
        else
          Step(Ok(Compared(h, d, rate.result.value)), rate.cache, calls + rate.calls)
  }

  /**
   * The response for two resolved countries and the unrounded rate: names and
   * currency codes copied, the rate rounded for display, the hint from the raw rate.
   */
  function Compared(h: Country, d: Country, raw: real): (c: ComparisonResult)
    ensures c.homeCountry == h.name && c.destinationCountry == d.name
    ensures c.homeCurrency == h.currencyCode && c.destinationCurrency == d.currencyCode
    ensures (c.exchangeRate * Scale).Floor as real == c.exchangeRate * Scale
    ensures -0.00005 <= c.exchangeRate - raw <= 0.00005
    ensures c.strengthHint in {SameCurrencyHint, StrongerHint, WeakerHint, EqualHint}
    ensures c.strengthHint == SameCurrencyHint <==> EqualsIgnoreCase(c.homeCurrency, c.destinationCurrency)
  {
    ComparisonResult(h.name, h.currencyCode, d.name, d.currencyCode, Round4(raw),
                     DetermineStrengthHint(raw, h.currencyCode, d.currencyCode))
  }

  /** The calls hold no rate fetch. */
  predicate NoRateFetch(calls: seq<Call>) {
    forall i :: 0 <= i < |calls| ==> !calls[i].RatesFetch?
  }

  /** Countries found in the cache are never fetched from the source. */
  lemma CachedCountriesAreNotFetched(q: CompareQuery, cache: Cache, now: MemoryCache.Time, up: Upstream)
    requires CountryCache.GetByCode(cache, q.homeCountryCode, now).Some?
    requires CountryCache.GetByCode(cache, q.destinationCountryCode, now).Some?
    ensures CatalogFetch !in Handle(q, cache, now, up).calls
  {
  }

  /**
   * Not-found errors: both lookups happen before either is checked; an
   * unresolved home code wins over an unresolved destination; the error names
   * the offending code; the rate provider is never asked.
   */
  lemma NotFoundNamesTheCode(q: CompareQuery, cache: Cache, now: MemoryCache.Time, up: Upstream)
    requires ResolveCountry(cache, now, up, q.homeCountryCode).result.Ok?
    requires ResolveCountry(cache, now, up, q.destinationCountryCode).result.Ok?
    ensures var r := Handle(q, cache, now, up);
            var home := ResolveCountry(cache, now, up, q.homeCountryCode).result.value;
            var destination := ResolveCountry(cache, now, up, q.destinationCountryCode).result.value;
            && (home.None? ==> r.result == Err(CountryNotFound(Rendered(q.homeCountryCode), HomeParam)))
            && (home.Some? && destination.None? ==>
                  r.result == Err(CountryNotFound(Rendered(q.destinationCountryCode), DestinationParam)))
            && (home.None? || destination.None? ==>
                  && r.cache == cache
                  && NoRateFetch(r.calls)
                  && r.calls == ResolveCountry(cache, now, up, q.homeCountryCode).calls
                                + ResolveCountry(cache, now, up, q.destinationCountryCode).calls)
  {
    LookupsFetchNoRates(cache, now, up, q.homeCountryCode, q.destinationCountryCode);
  }

  /** A failure of the country source ends the request with that failure, before any rate fetch. */
  lemma SourceFailureEndsRequest(q: CompareQuery, cache: Cache, now: MemoryCache.Time, up: Upstream)
    requires up.catalog.TransportFailure?
    requires CountryCache.GetByCode(cache, q.homeCountryCode, now).None?
    ensures Handle(q, cache, now, up) == Step(Err(UpstreamFailure(up.catalog.reason)), cache, [CatalogFetch])
  {
  }

  /**
   * The rate provider is consulted only once both countries resolved, and the
   * rate is asked from the home currency to the destination currency; its
   * failures come back unchanged, and a successful rate is rounded to four
   * digits for display while the hint is taken from the unrounded rate; names
   * and currency codes are copied from the resolved countries.
   */
  lemma RateAfterBothCountries(q: CompareQuery, cache: Cache, now: MemoryCache.Time, up: Upstream)
    ensures var r := Handle(q, cache, now, up);
            var home := ResolveCountry(cache, now, up, q.homeCountryCode);
            var destination := ResolveCountry(cache, now, up, q.destinationCountryCode);
            && (!NoRateFetch(r.calls) || r.result.Ok? ==>
                  home.result.Ok? && home.result.value.Some? &&
                  destination.result.Ok? && destination.result.value.Some?)
            && (home.result.Ok? && home.result.value.Some? &&
                destination.result.Ok? && destination.result.value.Some? ==>
                  var h := home.result.value.value;
                  var d := destination.result.value.value;
                  var rate := ExchangeRateApiService.GetExchangeRate(cache, now, up.rateTables, h.currencyCode, d.currencyCode);
                  && r.cache == rate.cache
                  && r.calls == home.calls + destination.calls + rate.calls
                  && (rate.result.Err? ==> r.result == Err(rate.result.error))
                  && (rate.result.Ok? ==>
                        r.result == Ok(ComparisonResult(h.name, h.currencyCode, d.name, d.currencyCode,
                                                        Round4(rate.result.value),
                                                        DetermineStrengthHint(rate.result.value, h.currencyCode, d.currencyCode)))))
  {
    var r := Handle(q, cache, now, up);
    var home := ResolveCountry(cache, now, up, q.homeCountryCode);
    var destination := ResolveCountry(cache, now, up, q.destinationCountryCode);
    if !(home.result.Ok? && home.result.value.Some? && destination.result.Ok? && destination.result.value.Some?) {
      assert NoRateFetch(r.calls) by {
        if home.result.Err? {
        } else {
          assert forall i :: 0 <= i < |home.calls + destination.calls| ==> (home.calls + destination.calls)[i] == CatalogFetch;
        }
      }
    }
  }

  /** Countries sharing a currency compare at exactly 1 with "Same currency", without a rate fetch. */
  lemma SharedCurrency(q: CompareQuery, cache: Cache, now: MemoryCache.Time, up: Upstream, h: Country, d: Country)
    requires ResolveCountry(cache, now, up, q.homeCountryCode).result == Ok(Some(h))
    requires ResolveCountry(cache, now, up, q.destinationCountryCode).result == Ok(Some(d))
    requires EqualsIgnoreCase(h.currencyCode, d.currencyCode)
    ensures var r := Handle(q, cache, now, up);
            && r.result == Ok(ComparisonResult(h.name, h.currencyCode, d.name, d.currencyCode, 1.0, SameCurrencyHint))
            && r.cache == cache
            && NoRateFetch(r.calls)
  {
    ExchangeRateApiService.SameCurrencyIsOne(cache, now, up.rateTables, h.currencyCode, d.currencyCode);
    RateAfterBothCountries(q, cache, now, up);
    Round4KeepsFourDigits(1.0);
    LookupsFetchNoRates(cache, now, up, q.homeCountryCode, q.destinationCountryCode);
    var calls := ResolveCountry(cache, now, up, q.homeCountryCode).calls
                 + ResolveCountry(cache, now, up, q.destinationCountryCode).calls;
    assert calls + [] == calls;
  }

  /** Resolving two countries fetches no rate table. */
  lemma LookupsFetchNoRates(cache: Cache, now: MemoryCache.Time, up: Upstream, a: Option<string>, b: Option<string>)
    ensures NoRateFetch(ResolveCountry(cache, now, up, a).calls + ResolveCountry(cache, now, up, b).calls)
  {
    var calls := ResolveCountry(cache, now, up, a).calls + ResolveCountry(cache, now, up, b).calls;
    assert forall i :: 0 <= i < |calls| ==> calls[i] == CatalogFetch;
  }

  /** The handler never changes what the country cache holds. */
  lemma NeverWritesCountryCache(q: CompareQuery, cache: Cache, now: MemoryCache.Time, up: Upstream,
                                t: MemoryCache.Time, code: Option<string>)
    ensures CountryCache.GetAll(Handle(q, cache, now, up).cache, t) == CountryCache.GetAll(cache, t)
    ensures CountryCache.GetByCode(Handle(q, cache, now, up).cache, code, t) == CountryCache.GetByCode(cache, code, t)
  {
    var home := ResolveCountry(cache, now, up, q.homeCountryCode);
    var destination := ResolveCountry(cache, now, up, q.destinationCountryCode);
    if home.result.Ok? && home.result.value.Some? && destination.result.Ok? && destination.result.value.Some? {
      ExchangeRateApiService.LeavesCountryCache(cache, now, up.rateTables,
        home.result.value.value.currencyCode, destination.result.value.value.currencyCode, t, code);
    }
  }

  /** A rate that displays as 1.0000 but is not 1 is still stronger or weaker. */
  lemma HintUsesRawRate()
    ensures Round4(1.00001) == 1.0 && DetermineStrengthHint(1.00001, "USD", "EUR") == StrongerHint
    ensures Round4(0.99999) == 1.0 && DetermineStrengthHint(0.99999, "USD", "EUR") == WeakerHint
    ensures DetermineStrengthHint(1.0, "USD", "EUR") == EqualHint
    ensures DetermineStrengthHint(83.0, "usd", "USD") == SameCurrencyHint
  {
    assert (1.00001 * Scale).Floor == 10000;
    assert (0.99999 * Scale).Floor == 9999;
    assert ToUpper("USD") != ToUpper("EUR") by { assert ToUpper("USD")[0] != ToUpper("EUR")[0]; }
    assert ToUpper("usd") == ToUpper("USD");
  }

  /** The two countries of the example below, as the cache holds them. */
  function ExampleCountries(): seq<Country> {
    [Country("US", "United States", "USD", "US Dollar", "$", ""),
     Country("GB", "United Kingdom", "GBP", "British Pound", "£", "")]
  }

  function ExampleCache(): Cache {
    ExchangeRateCache.SetRates(CountryCache.SetAll(MemoryCache.Empty(), ExampleCountries(), 0),
                               "USD", map["GBP" := 0.7912345678], 0)
  }

  /** In the example cache, a code is looked up in the two-country snapshot. */
  lemma ExampleLookup(code: string)
    ensures CountryCache.GetByCode(ExampleCache(), Some(code), 5) == FindByCode(ExampleCountries(), Some(code))
  {
    var countries := CountryCache.SetAll(MemoryCache.Empty(), ExampleCountries(), 0);
    CacheIsolation.SetRatesLeavesCountries(countries, "USD", map["GBP" := 0.7912345678], 0, 5, Some(code));
    CountryCache.SetAllThenGetByCode(MemoryCache.Empty(), ExampleCountries(), 0, 5, Some(code));
  }

  lemma ExampleLookups()
    ensures CountryCache.GetByCode(ExampleCache(), Some("us"), 5) == Some(ExampleCountries()[0])
    ensures CountryCache.GetByCode(ExampleCache(), Some("GB"), 5) == Some(ExampleCountries()[1])
  {
    ExampleLookup("us");
    ExampleLookup("GB");
    ExampleCodes();
  }

  /** "us" matches the first example country and "GB" only the second. */
  lemma ExampleCodes()
    ensures FindByCode(ExampleCountries(), Some("us")) == Some(ExampleCountries()[0])
    ensures FindByCode(ExampleCountries(), Some("GB")) == Some(ExampleCountries()[1])
  {
    var cs := ExampleCountries();
    assert CodeMatches(cs[0], Some("us")) by { assert ToUpper("us") == ToUpper("US"); }
    assert !CodeMatches(cs[0], Some("GB")) by { assert ToUpper("US")[0] != ToUpper("GB")[0]; }
    assert CodeMatches(cs[1], Some("GB"));
  }

  lemma ExampleRate(up: Upstream)
    ensures ExchangeRateApiService.GetExchangeRate(ExampleCache(), 5, up.rateTables, "USD", "GBP")
            == Step(Ok(0.7912345678), ExampleCache(), [])
  {
    var countries := CountryCache.SetAll(MemoryCache.Empty(), ExampleCountries(), 0);
    ExchangeRateCache.SetThenGet(countries, "USD", "USD", map["GBP" := 0.7912345678], 0, 5);
    assert ToUpper("USD") != ToUpper("GBP") by { assert ToUpper("USD")[0] != ToUpper("GBP")[0]; }
    assert ToUpper("GBP") == "GBP";
  }

  /**
   * The United States against the United Kingdom, both countries and the USD
   * table cached, at a raw rate of 0.7912345678: shown as 0.7912, "weaker",
   * with no external call.
   */
  lemma UsAgainstGbExample(up: Upstream)
    ensures Handle(CompareQuery(Some("us"), Some("GB")), ExampleCache(), 5, up)
            == Step(Ok(ComparisonResult("United States", "USD", "United Kingdom", "GBP", 0.7912, WeakerHint)),
                    ExampleCache(), [])
  {
    ExampleLookups();
    ExampleRate(up);
    Round4Example();
    var q := CompareQuery(Some("us"), Some("GB"));
    RateAfterBothCountries(q, ExampleCache(), 5, up);
  }
}
