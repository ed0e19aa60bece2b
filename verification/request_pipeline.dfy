/**
 * The request pipeline as a caller sees it: the comparison request passes the
 * validation step (with the comparison validator registered) before its
 * handler; the country-list request has no validator and goes straight through.
 */
module RequestPipeline {
  import opened Wrappers
  import opened Domain
  import MemoryCache
  import CountryCache
  import ValidationBehavior
  import CurrencyCompareQueryValidator
  import CurrencyCompareQueryHandler
  import CountryGetAllQueryHandler

  /** The comparison validator as the validation step runs it. */
  function CompareValidator(q: CompareQuery): seq<Option<ValidationFailure>> {
    var fs := CurrencyCompareQueryValidator.Validate(q);
    seq(|fs|, i requires 0 <= i < |fs| => Some(fs[i]))
  }

  /** Sending a comparison request: a rejection surfaces as a validation failure. */
  function SendCompare(q: CompareQuery, cache: Cache, now: MemoryCache.Time, up: Upstream): Step<ComparisonResult> {
    match ValidationBehavior.Handle([CompareValidator], q, () => CurrencyCompareQueryHandler.Handle(q, cache, now, up))
    case Rejected(failures) => Step(Err(ValidationFailed(failures)), cache, [])
    case Proceeded(s) => s
  }

  /**
   * An invalid request fails with every validation failure and never reaches
   * the handler: no external call, no cache change. A valid one gets exactly
   * the handler's answer.
   */
  lemma ValidationGuardsHandler(q: CompareQuery, cache: Cache, now: MemoryCache.Time, up: Upstream)
    ensures var fs := CurrencyCompareQueryValidator.Validate(q);
            && (fs != [] ==> SendCompare(q, cache, now, up) == Step(Err(ValidationFailed(fs)), cache, []))
            && (fs == [] ==> SendCompare(q, cache, now, up) == CurrencyCompareQueryHandler.Handle(q, cache, now, up))
  {
    var fs := CurrencyCompareQueryValidator.Validate(q);
    var next := () => CurrencyCompareQueryHandler.Handle(q, cache, now, up);
    ValidationBehavior.SingleValidator(CompareValidator, q, next, fs);
  }

  /** A code of the wrong length, or a missing one, is rejected before any work. */
  lemma BadCodesRejected(q: CompareQuery, cache: Cache, now: MemoryCache.Time, up: Upstream)
    requires !CurrencyCompareQueryValidator.IsCountryCode(q.homeCountryCode)
             || !CurrencyCompareQueryValidator.IsCountryCode(q.destinationCountryCode)
    ensures SendCompare(q, cache, now, up).result.Err?
    ensures SendCompare(q, cache, now, up).result.error.ValidationFailed?
    ensures SendCompare(q, cache, now, up).calls == []
    ensures SendCompare(q, cache, now, up).cache == cache
  {
    assert CurrencyCompareQueryValidator.Validate(q) != [];
    ValidationGuardsHandler(q, cache, now, up);
  }

  /** Sending the country-list request: no validator is registered for it. */
  function SendCountryList(cache: Cache, now: MemoryCache.Time, up: Upstream): Step<seq<Country>> {
    match ValidationBehavior.Handle([], (), () => CountryGetAllQueryHandler.Handle(cache, now, up))
    case Rejected(failures) => Step(Err(ValidationFailed(failures)), cache, [])
    case Proceeded(s) => s
  }

  lemma CountryListGoesStraightThrough(cache: Cache, now: MemoryCache.Time, up: Upstream)
    ensures SendCountryList(cache, now, up) == CountryGetAllQueryHandler.Handle(cache, now, up)
  {
    ValidationBehavior.NoValidatorsPassThrough((), () => CountryGetAllQueryHandler.Handle(cache, now, up));
  }

  /**
   * The country cache is filled only by the list request; once it has been,
   * comparing countries in the list within 24 hours needs no catalog fetch.
   */
  lemma ListWarmsComparison(cache: Cache, now: MemoryCache.Time, up: Upstream, later: Upstream,
                            q: CompareQuery, t: MemoryCache.Time)
    requires CountryCache.GetAll(cache, now).None?
    requires CountryGetAllQueryHandler.Handle(cache, now, up).result.Ok?
    requires now <= t < now + CountryCache.Expiration
    requires var list := CountryGetAllQueryHandler.Handle(cache, now, up).result.value;
             && FindByCode(list, q.homeCountryCode).Some?
             && FindByCode(list, q.destinationCountryCode).Some?
    ensures CatalogFetch !in CurrencyCompareQueryHandler.Handle(q, CountryGetAllQueryHandler.Handle(cache, now, up).cache, t, later).calls
  {
    var first := CountryGetAllQueryHandler.Handle(cache, now, up);
    CountryCache.SetAllThenGetByCode(cache, first.result.value, now, t, q.homeCountryCode);
    CountryCache.SetAllThenGetByCode(cache, first.result.value, now, t, q.destinationCountryCode);
    CurrencyCompareQueryHandler.CachedCountriesAreNotFetched(q, first.cache, t, later);
  }
}
