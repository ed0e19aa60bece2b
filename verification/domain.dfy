/**
 * The data shapes of the currency-comparison API: the country entity, the
 * comparison result, the two external response shapes, the inbound query, the
 * failures a request can end in, and the state threaded through every operation
 * (the memory cache and the log of external calls).
 */
module Domain {
  import opened Wrappers
  import opened Text
  import MemoryCache

  // ---------------------------------------------------------------------------
  // Entities and results

  /** A country with its (first) currency. */
  datatype Country = Country(
    code: string,            // ISO 3166-1 alpha-2, e.g. "US"
    name: string,            // common name
    currencyCode: string,    // ISO 4217, e.g. "USD"
    currencyName: string,
    currencySymbol: string,
    flagUrl: string)

  /** Result of comparing the currencies of two countries. */
  datatype ComparisonResult = ComparisonResult(
    homeCountry: string,
    homeCurrency: string,
    destinationCountry: string,
    destinationCurrency: string,
    exchangeRate: real,
    strengthHint: string)

  /** The comparison request; either code may be null. */
  datatype CompareQuery = CompareQuery(homeCountryCode: Option<string>, destinationCountryCode: Option<string>)

  // ---------------------------------------------------------------------------
  // External response shapes (already deserialised)

  datatype CountryName = CountryName(common: string, official: string)

  /** A currency of the catalog; the symbol may be missing. */
  datatype CurrencyInfo = CurrencyInfo(name: string, symbol: Option<string>)

  /** One entry of the catalog's currency dictionary, in document order. */
  datatype CurrencyEntry = CurrencyEntry(code: string, info: CurrencyInfo)

  datatype FlagInfo = FlagInfo(png: Option<string>, svg: string)

  /** One element of the country catalog. */
  datatype RestCountryResponse = RestCountryResponse(
    name: CountryName,
    cca2: string,
    currencies: Option<seq<CurrencyEntry>>,
    flags: Option<FlagInfo>)

  /** A rate table as the provider returns it; keys are stored as the provider spells them. */
  datatype ExchangeRateResponse = ExchangeRateResponse(
    result: string,
    baseCode: string,
    timeLastUpdateUtc: string,
    rates: map<string, real>)

  /** What an HTTP GET with JSON deserialisation yields: a (possibly null) body, or a thrown exception. */
  datatype FetchOutcome<T> = Received(body: Option<T>) | TransportFailure(reason: string)

  /**
   * The external world as one request sees it: the country catalog, the rate
   * table for each upper-cased base currency, and the culture-sensitive order
   * on country names (`collation(a, b)` means a sorts no later than b).
   */
  datatype Upstream = Upstream(
    catalog: FetchOutcome<seq<RestCountryResponse>>,
    rateTables: string -> FetchOutcome<ExchangeRateResponse>,
    collation: (string, string) -> bool)

  /** An external HTTP request the core issued. */
  datatype Call = CatalogFetch | RatesFetch(baseCode: string)

  // ---------------------------------------------------------------------------
  // Failures

  /** A failed validation rule: property, message and the rule's error code. */
  datatype ValidationFailure = ValidationFailure(propertyName: string, errorMessage: string, errorCode: string)

  datatype Error =
    | ValidationFailed(failures: seq<ValidationFailure>)    // ValidationException
    | CountryNotFound(code: string, paramName: string)      // ArgumentException
    | RatesUnavailable(baseCurrency: string)                // InvalidOperationException
    | RateNotFound(targetCurrency: string)                  // InvalidOperationException
    | UpstreamFailure(reason: string)                       // transport/parse exception, rethrown

  /** The line a validation failure contributes to the rejection message: newline, property, message, severity. */
  function FailureLine(f: ValidationFailure): string {
    FailureLead + f.propertyName + ": " + f.errorMessage + " Severity: Error"
  }

  /** The failure lines in failure order. */
  function FailureLines(fs: seq<ValidationFailure>): (r: string)
    ensures fs == [] <==> r == []
  {
    if fs == [] then [] else FailureLine(fs[0]) + FailureLines(fs[1..])
  }

  const ValidationHeader: string := "Validation failed: "
  const FailureLead: string := "\n -- "

  /** The exception message each failure carries. */
  function Message(e: Error): string {
    match e
    case ValidationFailed(fs) => ValidationHeader + FailureLines(fs)
    case CountryNotFound(code, param) => "Country not found: " + code + " (Parameter '" + param + "')"
    case RatesUnavailable(b) => "Failed to get exchange rates for " + b
    case RateNotFound(t) => "Exchange rate not found for " + t
    case UpstreamFailure(reason) => reason
  }

  /** `part` occurs in `s` starting at index `i`. */
  predicate OccursAt(s: string, part: string, i: int) {
    0 <= i <= |s| - |part| && s[i..i + |part|] == part
  }

  ghost predicate ContainsText(s: string, part: string) {
    exists i :: OccursAt(s, part, i)
  }

  /** The not-found message names the offending code (the tests match "*XX*"). */
  lemma CountryNotFoundNamesCode(code: string, param: string)
    ensures ContainsText(Message(CountryNotFound(code, param)), code)
  {
    var m := Message(CountryNotFound(code, param));
    var p := |"Country not found: "|;
    assert OccursAt(m, code, p);
  }

  /** An occurrence in either half of a concatenation is an occurrence in the whole, shifted past the left half. */
  lemma OccursInConcat(a: string, b: string, part: string, i: int)
    ensures OccursAt(a, part, i) ==> OccursAt(a + b, part, i)
    ensures OccursAt(b, part, i) ==> OccursAt(a + b, part, |a| + i)
  {
    if OccursAt(a, part, i) {
      assert (a + b)[i..i + |part|] == a[i..i + |part|];
    }
    if OccursAt(b, part, i) {
      assert (a + b)[|a| + i..|a| + i + |part|] == b[i..i + |part|];
    }
  }

  /** An occurrence inside an occurrence is an occurrence, at the summed offset. */
  lemma OccursWithin(s: string, outer: string, i: int, part: string, j: int)
    requires OccursAt(s, outer, i) && OccursAt(outer, part, j)
    ensures OccursAt(s, part, i + j)
  {
    var inS, inOuter := s[i + j..i + j + |part|], outer[j..j + |part|];
    forall k | 0 <= k < |part|
      ensures inS[k] == inOuter[k]
    {
      assert s[i + j + k] == s[i..i + |outer|][j + k];
    }
    assert inS == inOuter;
  }

  /** A failure's line holds its property name after the lead and its message after the colon. */
  lemma FailureLineNamesFailure(f: ValidationFailure)
    ensures OccursAt(FailureLine(f), f.propertyName, |FailureLead|)
    ensures OccursAt(FailureLine(f), f.errorMessage, |FailureLead| + |f.propertyName| + 2)
  {
    var p, m := f.propertyName, f.errorMessage;
    assert OccursAt(p, p, 0);
    OccursInConcat(FailureLead, p, p, 0);
    OccursInConcat(FailureLead + p, ": ", p, |FailureLead|);
    OccursInConcat(FailureLead + p + ": ", m, p, |FailureLead|);
    OccursInConcat(FailureLead + p + ": " + m, " Severity: Error", p, |FailureLead|);
    assert OccursAt(m, m, 0);
    OccursInConcat(FailureLead + p + ": ", m, m, 0);
    OccursInConcat(FailureLead + p + ": " + m, " Severity: Error", m, |FailureLead| + |p| + 2);
  }

  /** Every failure's line occurs in the failure lines. */
  lemma {:induction false} FailureLineOccurs(fs: seq<ValidationFailure>, k: nat)
    requires k < |fs|
    ensures exists i :: OccursAt(FailureLines(fs), FailureLine(fs[k]), i)
  {
    var head := FailureLine(fs[0]);
    assert FailureLines(fs) == head + FailureLines(fs[1..]);
    if k == 0 {
      assert OccursAt(head, head, 0);
      OccursInConcat(head, FailureLines(fs[1..]), head, 0);
    } else {
      FailureLineOccurs(fs[1..], k - 1);
      assert fs[1..][k - 1] == fs[k];
      var i :| OccursAt(FailureLines(fs[1..]), FailureLine(fs[k]), i);
      OccursInConcat(head, FailureLines(fs[1..]), FailureLine(fs[k]), i);
    }
  }

  /**
   * The rejection message starts with the header and names the property and
   * the message of every failure.
   */
  lemma ValidationMessageNamesEveryFailure(fs: seq<ValidationFailure>, k: nat)
    requires k < |fs|
    ensures OccursAt(Message(ValidationFailed(fs)), ValidationHeader, 0)
    ensures ContainsText(Message(ValidationFailed(fs)), fs[k].propertyName)
    ensures ContainsText(Message(ValidationFailed(fs)), fs[k].errorMessage)
  {
    var lines := FailureLines(fs);
    var line := FailureLine(fs[k]);
    var m := ValidationHeader + lines;
    assert OccursAt(ValidationHeader, ValidationHeader, 0);
    OccursInConcat(ValidationHeader, lines, ValidationHeader, 0);
    FailureLineOccurs(fs, k);
    var i :| OccursAt(lines, line, i);
    OccursInConcat(ValidationHeader, lines, line, i);
    FailureLineNamesFailure(fs[k]);
    OccursWithin(m, line, |ValidationHeader| + i, fs[k].propertyName, |FailureLead|);
    OccursWithin(m, line, |ValidationHeader| + i, fs[k].errorMessage, |FailureLead| + |fs[k].propertyName| + 2);
  }

  /** "Rates unavailable" and "rate not found" share an exception type but never a message. */
  lemma RateFailuresDistinguishable(b: string, t: string)
    ensures Message(RatesUnavailable(b)) != Message(RateNotFound(t))
  {
    assert Message(RatesUnavailable(b))[0] == 'F';
    assert Message(RateNotFound(t))[0] == 'E';
  }

  // ---------------------------------------------------------------------------
  // Lookup by code, shared by the country cache and the country source

  /** A country matches a code equal to its own ignoring letter case; a null code matches nothing. */
  predicate CodeMatches(c: Country, code: Option<string>) {
    code.Some? && EqualsIgnoreCase(c.code, code.value)
  }

  /** The first country that matches the code, or none. */
  function FindByCode(countries: seq<Country>, code: Option<string>): (r: Option<Country>)
    ensures r.Some? ==> r.value in countries && CodeMatches(r.value, code)
    ensures r.None? <==> forall i :: 0 <= i < |countries| ==> !CodeMatches(countries[i], code)
    ensures forall i :: 0 <= i < |countries| && CodeMatches(countries[i], code) &&
                        (forall j :: 0 <= j < i ==> !CodeMatches(countries[j], code))
                     ==> r == Some(countries[i])
  {
    if countries == [] then None
    else if CodeMatches(countries[0], code) then Some(countries[0])
    else FindByCode(countries[1..], code)
  }

  // ---------------------------------------------------------------------------
  // Threaded state

  /** What the shared memory cache holds under a key. */
  datatype CachedValue = CountryList(countries: seq<Country>) | RateTable(rates: map<string, real>)

  type Cache = MemoryCache.Store<CachedValue>

  /** What an operation produced, the cache after it, and the external calls it made, in order. */
  datatype Step<T> = Step(result: Result<T, Error>, cache: Cache, calls: seq<Call>)
}
