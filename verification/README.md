# TravelGuideApi currency comparison, modelled in Dafny

The model covers the request-resolution core of TravelGuideApi, an API that compares the currencies of two countries. A comparison request names a home and a destination country by their two-letter codes. It passes the validation step first. The handler then resolves each country, from the country cache or else from the REST Countries catalog. It asks the exchange-rate service for the home-to-destination rate. That service answers equal currencies with 1, serves a cached table for the base currency, or fetches and caches the base currency's whole table. The handler returns the rate rounded to four digits, with a strength hint computed from the unrounded rate. The country-list request is cache-aside over the same country snapshot.

How the model is built:

- Everything is a pure function. The state an operation touches is passed in and returned.
- `Step<T>` carries three things: the result (a value or an `Error`), the memory cache after the operation, and the list of external HTTP calls made (`CatalogFetch` or `RatesFetch(base)`). "No call to the provider" is therefore a statement about that list.
- Both caches live in one `MemoryCache.Store`, keyed by string, with absolute expiry times in .NET ticks. The country snapshot is stored under `"countries"` for 24 hours. A rate table is stored under `"exchange_rate_" + base.ToUpper()` for one hour.
- The outside world is an `Upstream` value passed into each request. It holds the catalog fetch outcome, the rate table per upper-cased base, and the name collation used by `OrderBy`.
- Exceptions become `Error` values. `ArgumentException` becomes `CountryNotFound`. The two `InvalidOperationException`s become `RatesUnavailable` and `RateNotFound`. A rethrown transport or parse exception becomes `UpstreamFailure`. `ValidationException` becomes `ValidationFailed`.
- `decimal` becomes `real`. `Math.Round(x, 4)` is half-even rounding, proved against a reference definition of "nearest integer, ties to even".

Modules, one per source class plus shared pieces:

- `Wrappers` and `Text`: options, results, case folding and whitespace.
- `MemoryCache`: the shared store.
- `Domain`: entities, response shapes, errors, and lookup by code.
- `Rounding` and `NameOrder`: `Math.Round`, and the stable `OrderBy`.
- `CountryCache` and `ExchangeRateCache`, plus `CacheIsolation` for the two caches sharing one store.
- `CountryApiService` and `ExchangeRateApiService`.
- `CurrencyCompareQueryValidator` and `ValidationBehavior`.
- `CurrencyCompareQueryHandler` and `CountryGetAllQueryHandler`.
- `RequestPipeline`: the validation step composed with the handlers.

Three behaviours of the code worth knowing:

- The comparison handler only reads the country cache. Only the country-list handler writes it (see `CurrencyCompareQueryHandler.NeverWritesCountryCache`).
- A rate table is stored with the provider's keys as received. Only the looked-up target currency is upper-cased.
- A code's length is the .NET string length, which counts UTF-16 code units: a character outside the Basic Multilingual Plane counts twice (see `Text.Utf16Length`).

## Model

| member | source | states |
|---|---|---|
| Text.UpperChar | TravelGuideApi/Src/TravelGuideApi.Infrastructure/Services/ExchangeRateCache.cs:28 | lower-case ASCII letters map to their capitals; every other character is unchanged |
| Text.Utf16Units | TravelGuideApi/Src/TravelGuideApi.Application/Features/CurrencyComparison/Queries/Compare/CurrencyCompareQueryValidator.cs:15 | a character takes two UTF-16 code units iff it lies beyond the Basic Multilingual Plane, otherwise one |
| Text.Utf16Length | TravelGuideApi/Src/TravelGuideApi.Application/Features/CurrencyComparison/Queries/Compare/CurrencyCompareQueryValidator.cs:15 | a string is at least as many code units long as it has characters and at most twice as many |
| Text.Utf16LengthIsCountIffBmp | TravelGuideApi/Src/TravelGuideApi.Application/Features/CurrencyComparison/Queries/Compare/CurrencyCompareQueryValidator.cs:15 | the code-unit length equals the character count iff no character lies beyond the Basic Multilingual Plane |
| Text.Utf16LengthAppend | TravelGuideApi/Src/TravelGuideApi.Application/Features/CurrencyComparison/Queries/Compare/CurrencyCompareQueryValidator.cs:15 | the code-unit length of a concatenation is the sum of the lengths |
| Text.ToUpperKeepsUtf16Length | TravelGuideApi/Src/TravelGuideApi.Application/Features/CurrencyComparison/Queries/Compare/CurrencyCompareQueryValidator.cs:15 | upper-casing never changes the code-unit length |
| Text.Utf16LengthExamples | TravelGuideApi/Src/TravelGuideApi.Application/Features/CurrencyComparison/Queries/Compare/CurrencyCompareQueryValidator.cs:15 | an emoji is two code units, a letter and an emoji three, "US" two |
| Text.EqualsIgnoreCase | TravelGuideApi/Src/TravelGuideApi.Infrastructure/Services/CountryCache.cs:55 | two strings are equal ignoring case iff their upper-cased forms are equal; EqualsIgnoreCaseCharwise gives the character-by-character form |
| Text.IsWhiteSpace | TravelGuideApi/Src/TravelGuideApi.Application/Features/CurrencyComparison/Queries/Compare/CurrencyCompareQueryValidator.cs:13 | the characters .NET treats as whitespace: the Unicode space separators, line and paragraph separators, and the controls 0x09-0x0D and 0x85 |
| Text.IsBlank | TravelGuideApi/Src/TravelGuideApi.Application/Features/CurrencyComparison/Queries/Compare/CurrencyCompareQueryValidator.cs:13 | a string is blank iff every character is whitespace (the empty string included); ToUpperKeepsBlank relates it to upper-casing |
| Text.ToUpper | TravelGuideApi/Src/TravelGuideApi.Infrastructure/Services/ExchangeRateCache.cs:28 | upper-casing keeps the length and upper-cases each character in place |
| Text.EqualsIgnoreCaseCharwise | TravelGuideApi/Src/TravelGuideApi.Infrastructure/Services/CountryCache.cs:55 | ordinal case-insensitive equality holds iff the lengths agree and the characters agree after upper-casing |
| Text.ToUpperIdempotent | TravelGuideApi/Src/TravelGuideApi.Infrastructure/Services/ExchangeRateApiService.cs:46 | upper-casing an upper-cased string changes nothing |
| Text.EqualsIgnoreCaseOfUpper | TravelGuideApi/Src/TravelGuideApi.Infrastructure/Services/ExchangeRateApiService.cs:46 | upper-casing either side never changes a case-insensitive comparison |
| Text.ToUpperKeepsBlank | TravelGuideApi/Src/TravelGuideApi.Application/Features/CurrencyComparison/Queries/Compare/CurrencyCompareQueryValidator.cs:13 | a code is blank after upper-casing iff it was blank before |
| MemoryCache.TryGet | TravelGuideApi/Src/TravelGuideApi.Infrastructure/Services/CountryCache.cs:30 | a read hits iff the key is present and its absolute expiry is still ahead, and returns the stored value |
| MemoryCache.Set | TravelGuideApi/Src/TravelGuideApi.Infrastructure/Services/CountryCache.cs:43-46 | a write replaces the entry under its key, expiring ttl after now, and keeps every other entry |
| MemoryCache.SetThenGet | TravelGuideApi/Src/TravelGuideApi.Infrastructure/Services/CountryCache.cs:43-46 | a value just written is read back unchanged before its expiry and missed from then on |
| MemoryCache.SetOtherKey | TravelGuideApi/Src/TravelGuideApi.Infrastructure/Services/ExchangeRateCache.cs:42-46 | a write under one key is invisible under every other key |
| Domain.CountryNotFoundNamesCode | TravelGuideApi/Src/TravelGuideApi.Application/Features/CurrencyComparison/Queries/Compare/CurrencyCompareQueryHandler.cs:46 | the not-found message contains the requested code |
| Domain.RateFailuresDistinguishable | TravelGuideApi/Src/TravelGuideApi.Infrastructure/Services/ExchangeRateApiService.cs:62-74 | "rates unavailable" and "rate not found" never carry the same message |
| Domain.FailureLines | TravelGuideApi/Src/TravelGuideApi.Application/Behaviors/ValidationBehavior.cs:38-41 | the failure lines are empty iff there are no failures |
| Domain.Message | TravelGuideApi/Src/TravelGuideApi.Application/Behaviors/ValidationBehavior.cs:38-41 | the message of each error; for a validation failure, the header followed by one line per failure in order (see ValidationMessageNamesEveryFailure) |
| Domain.OccursInConcat | TravelGuideApi/Src/TravelGuideApi.Application/Behaviors/ValidationBehavior.cs:38-41 | text found in either half of a concatenation is found in the whole, shifted past the left half |
| Domain.OccursWithin | TravelGuideApi/Src/TravelGuideApi.Application/Behaviors/ValidationBehavior.cs:38-41 | text found inside a found piece is found in the whole at the summed offset |
| Domain.FailureLineNamesFailure | TravelGuideApi/Src/TravelGuideApi.Application/Behaviors/ValidationBehavior.cs:38-41 | a failure's line holds its property name after the lead and its message after the colon |
| Domain.FailureLineOccurs | TravelGuideApi/Src/TravelGuideApi.Application/Behaviors/ValidationBehavior.cs:38-41 | every failure's line occurs in the failure lines |
| Domain.ValidationMessageNamesEveryFailure | TravelGuideApi/Src/TravelGuideApi.Application/Behaviors/ValidationBehavior.cs:38-41 | the rejection message starts with "Validation failed: " and contains the property name and the message of every failure |
| Domain.CodeMatches | TravelGuideApi/Src/TravelGuideApi.Infrastructure/Services/CountryCache.cs:55 | a country matches a code iff its own code equals it ignoring case; a null code matches nothing |
| Domain.FindByCode | TravelGuideApi/Src/TravelGuideApi.Infrastructure/Services/CountryCache.cs:55 | lookup returns a listed country whose code matches ignoring case; it returns none iff nothing matches; otherwise it returns the first match |
| CountryCache.GetAll | TravelGuideApi/Src/TravelGuideApi.Infrastructure/Services/CountryCache.cs:28-38 | a snapshot is returned only while the "countries" entry has not expired |
| CountryCache.GetByCode | TravelGuideApi/Src/TravelGuideApi.Infrastructure/Services/CountryCache.cs:52-56 | lookup by code misses whenever the snapshot misses |
| CountryCache.SetAll | TravelGuideApi/Src/TravelGuideApi.Infrastructure/Services/CountryCache.cs:40-50 | the write adds or replaces only the "countries" entry, with the list and an expiry 24 hours after now, keeps every other entry, and the list is read back at once |
| CountryCache.NeverSetMisses | TravelGuideApi/Src/TravelGuideApi.Infrastructure/Services/CountryCache.cs:30-37 | before any write, both the list and every lookup by code miss |
| CountryCache.SetAllThenGetAll | TravelGuideApi/Src/TravelGuideApi.Infrastructure/Services/CountryCache.cs:40-50 | after a write, the list read back is exactly the list written (empty included) for 24 hours, and misses afterwards |
| CountryCache.SetAllThenGetByCode | TravelGuideApi/Src/TravelGuideApi.Infrastructure/Services/CountryCache.cs:52-56 | after a write, lookup is the first case-insensitive match in the written list, and null iff none matches |
| CountryCache.GetByCodeMissesWithList | TravelGuideApi/Src/TravelGuideApi.Infrastructure/Services/CountryCache.cs:52-56 | lookup misses iff the snapshot misses or holds no matching code |
| CountryCache.GetByCodeIgnoresCase | TravelGuideApi/Src/TravelGuideApi.Infrastructure/Services/CountryCache.cs:55 | codes that differ only in case find the same country |
| CountryCache.FindByCodeRespectsMatching | TravelGuideApi/Src/TravelGuideApi.Infrastructure/Services/CountryCache.cs:55 | two codes that match the same countries give the same lookup result |
| ExchangeRateCache.GetRates | TravelGuideApi/Src/TravelGuideApi.Infrastructure/Services/ExchangeRateCache.cs:26-38 | a table is returned only when the upper-cased base's slot exists |
| ExchangeRateCache.CacheKey | TravelGuideApi/Src/TravelGuideApi.Infrastructure/Services/ExchangeRateCache.cs:28 | the key is "exchange_rate_" followed by the base with each character upper-cased in place |
| ExchangeRateCache.SetRates | TravelGuideApi/Src/TravelGuideApi.Infrastructure/Services/ExchangeRateCache.cs:40-54 | the write adds or replaces only the base's slot, with the table and an expiry one hour after now, keeps every other entry, and the table is read back at once |
| ExchangeRateCache.PrefixCancels | TravelGuideApi/Src/TravelGuideApi.Infrastructure/Services/ExchangeRateCache.cs:28 | a common key prefix never makes distinct suffixes collide |
| ExchangeRateCache.CacheKeyIgnoresCase | TravelGuideApi/Src/TravelGuideApi.Infrastructure/Services/ExchangeRateCache.cs:28 | two bases share a slot iff they are equal ignoring case |
| ExchangeRateCache.NeverSetMisses | TravelGuideApi/Src/TravelGuideApi.Infrastructure/Services/ExchangeRateCache.cs:36-37 | an unwritten base misses |
| ExchangeRateCache.SetThenGet | TravelGuideApi/Src/TravelGuideApi.Infrastructure/Services/ExchangeRateCache.cs:40-54 | a table written under a base, in any case, is read back exactly under any casing of that base for one hour, then misses |
| ExchangeRateCache.SetLeavesOtherBases | TravelGuideApi/Src/TravelGuideApi.Infrastructure/Services/ExchangeRateCache.cs:42-46 | writing one base leaves every base that differs ignoring case unchanged |
| CacheIsolation.KeysDisjoint | TravelGuideApi/Src/TravelGuideApi.Infrastructure/Services/ExchangeRateCache.cs:17 | no rate-table key equals the country key |
| CacheIsolation.SetRatesLeavesCountries | TravelGuideApi/Src/TravelGuideApi.Infrastructure/Services/ExchangeRateCache.cs:46 | writing a rate table changes neither the country list nor any lookup by code |
| CacheIsolation.SetAllLeavesRates | TravelGuideApi/Src/TravelGuideApi.Infrastructure/Services/CountryCache.cs:46 | writing the country snapshot changes no rate table |
| Rounding.RoundHalfEven | TravelGuideApi/Src/TravelGuideApi.Application/Features/CurrencyComparison/Queries/Compare/CurrencyCompareQueryHandler.cs:70 | the result is the nearest integer, and the even one at exact midpoints |
| Rounding.NearestEvenIsUnique | TravelGuideApi/Src/TravelGuideApi.Application/Features/CurrencyComparison/Queries/Compare/CurrencyCompareQueryHandler.cs:70 | any nearest-even integer is the one computed, so the rounding is uniquely determined |
| Rounding.Round4 | TravelGuideApi/Src/TravelGuideApi.Application/Features/CurrencyComparison/Queries/Compare/CurrencyCompareQueryHandler.cs:70 | the result has at most four fractional digits, lies within 0.00005 of the input, and is the half-even rounding |
| Rounding.Round4KeepsFourDigits | TravelGuideApi/Src/TravelGuideApi.Application/Features/CurrencyComparison/Queries/Compare/CurrencyCompareQueryHandler.cs:70 | a value with at most four fractional digits is unchanged |
| Rounding.Round4Idempotent | TravelGuideApi/Src/TravelGuideApi.Application/Features/CurrencyComparison/Queries/Compare/CurrencyCompareQueryHandler.cs:70 | rounding twice equals rounding once |
| Rounding.RoundHalfEvenMonotone | TravelGuideApi/Src/TravelGuideApi.Application/Features/CurrencyComparison/Queries/Compare/CurrencyCompareQueryHandler.cs:70 | integer rounding preserves order |
| Rounding.Round4Monotone | TravelGuideApi/Src/TravelGuideApi.Application/Features/CurrencyComparison/Queries/Compare/CurrencyCompareQueryHandler.cs:70 | a larger raw rate never displays smaller |
| Rounding.Round4Example | TravelGuideApi/Src/TravelGuideApi.Application/Features/CurrencyComparison/Queries/Compare/CurrencyCompareQueryHandler.cs:70 | 0.7912345678 displays as 0.7912; 83.1234 and 0.79 are unchanged |
| Rounding.Round4MidpointExamples | TravelGuideApi/Src/TravelGuideApi.Application/Features/CurrencyComparison/Queries/Compare/CurrencyCompareQueryHandler.cs:70 | the midpoints 0.00005, 0.00015 and -0.00005 go to the even neighbour |
| NameOrder.InsertByName | TravelGuideApi/Src/TravelGuideApi.Infrastructure/Services/CountryApiService.cs:48 | insertion adds exactly the one element |
| NameOrder.SortByName | TravelGuideApi/Src/TravelGuideApi.Infrastructure/Services/CountryApiService.cs:48 | the sort is a permutation of its input |
| NameOrder.InsertKeepsSorted | TravelGuideApi/Src/TravelGuideApi.Infrastructure/Services/CountryApiService.cs:48 | inserting into a name-ordered list keeps it ordered |
| NameOrder.SortIsSorted | TravelGuideApi/Src/TravelGuideApi.Infrastructure/Services/CountryApiService.cs:48 | the output is ordered by name under any total preorder |
| NameOrder.InsertKeepsRankOrder | TravelGuideApi/Src/TravelGuideApi.Infrastructure/Services/CountryApiService.cs:48 | insertion puts the element before equal-ranked ones that were already there, keeping their order |
| NameOrder.ConsKeepsSorted | TravelGuideApi/Src/TravelGuideApi.Infrastructure/Services/CountryApiService.cs:48 | a country sorting no later than every element of a sorted list can be put in front of it |
| NameOrder.RankOrderPastHead | TravelGuideApi/Src/TravelGuideApi.Infrastructure/Services/CountryApiService.cs:48 | when insertion passes a head that sorts before the new element, the two never rank alike, so the rank order is kept |
| NameOrder.SortIsStable | TravelGuideApi/Src/TravelGuideApi.Infrastructure/Services/CountryApiService.cs:48 | countries whose names rank the same keep their input order |
| CountryApiService.HasCurrency | TravelGuideApi/Src/TravelGuideApi.Infrastructure/Services/CountryApiService.cs:46 | an entry is kept iff its currency dictionary is present and non-empty |
| CountryApiService.MapToCountry | TravelGuideApi/Src/TravelGuideApi.Infrastructure/Services/CountryApiService.cs:67-79 | the country takes the entry's code and common name and its first currency's code and name; a missing symbol, missing flags or a missing PNG become "" |
| CountryApiService.SelectKept | TravelGuideApi/Src/TravelGuideApi.Infrastructure/Services/CountryApiService.cs:45-47 | no more countries than catalog entries, and every entry with a currency is mapped into the list; with SelectKeptOne and SelectKeptConcatenates this fixes catalog order and one country per kept entry |
| CountryApiService.SelectKeptOne | TravelGuideApi/Src/TravelGuideApi.Infrastructure/Services/CountryApiService.cs:45-47 | one entry is selected as its mapping iff it has a currency, and dropped otherwise |
| CountryApiService.SelectKeptConcatenates | TravelGuideApi/Src/TravelGuideApi.Infrastructure/Services/CountryApiService.cs:45-47 | selecting from a concatenation is the concatenation of the selections, so catalog order and multiplicity are kept |
| CountryApiService.SelectedFromKeptEntries | TravelGuideApi/Src/TravelGuideApi.Infrastructure/Services/CountryApiService.cs:46-47 | every selected country is the mapping of a catalog entry that has a currency |
| CountryApiService.GetAllCountries | TravelGuideApi/Src/TravelGuideApi.Infrastructure/Services/CountryApiService.cs:32-59 | a transport failure passes through; a null body gives the empty list; otherwise the list is a permutation of the kept, mapped entries |
| CountryApiService.GetCountryByCode | TravelGuideApi/Src/TravelGuideApi.Infrastructure/Services/CountryApiService.cs:61-65 | a fetch failure passes through; otherwise the result is none iff no code matches, and is the first match otherwise |
| CountryApiService.ListIsTheKeptEntries | TravelGuideApi/Src/TravelGuideApi.Infrastructure/Services/CountryApiService.cs:45-49 | the list holds exactly the mappings of the entries with currencies |
| CountryApiService.ListIsSortedStably | TravelGuideApi/Src/TravelGuideApi.Infrastructure/Services/CountryApiService.cs:48 | the list is ordered by name, and equal-ranked names keep catalog order |
| CountryApiService.MappingExample | TravelGuideApi/Src/TravelGuideApi.Infrastructure/Services/CountryApiService.cs:67-79 | an entry without currencies is dropped; the first currency is used; a null symbol and missing flags become "" |
| ExchangeRateApiService.GetExchangeRate | TravelGuideApi/Src/TravelGuideApi.Infrastructure/Services/ExchangeRateApiService.cs:37-81 | the provider is asked for the upper-cased base exactly when the currencies differ and no cached table answers; the cache changes only by storing a successfully fetched table |
| ExchangeRateApiService.SameCurrencyIsOne | TravelGuideApi/Src/TravelGuideApi.Infrastructure/Services/ExchangeRateApiService.cs:39-42 | equal currencies, ignoring case, give exactly 1, with no cache change and no call |
| ExchangeRateApiService.CachedTableAnswers | TravelGuideApi/Src/TravelGuideApi.Infrastructure/Services/ExchangeRateApiService.cs:45-50 | a cached table holding the upper-cased target answers with no call |
| ExchangeRateApiService.FetchFailures | TravelGuideApi/Src/TravelGuideApi.Infrastructure/Services/ExchangeRateApiService.cs:57-63 | a null body or a non-"success" result fails as rates unavailable for the base; a transport failure passes through; the cache is unchanged in all three |
| ExchangeRateApiService.SuccessfulFetchCachesWholeTable | TravelGuideApi/Src/TravelGuideApi.Infrastructure/Services/ExchangeRateApiService.cs:65-74 | a successful fetch caches the whole table even when the target is missing, which then fails as rate not found |
| ExchangeRateApiService.RateComesFromATable | TravelGuideApi/Src/TravelGuideApi.Infrastructure/Services/ExchangeRateApiService.cs:37-75 | every rate returned is 1 for equal currencies, or an entry of the cached or the fetched table |
| ExchangeRateApiService.FetchedTableServesLaterCalls | TravelGuideApi/Src/TravelGuideApi.Infrastructure/Services/ExchangeRateApiService.cs:44-50 | after a fetch, later calls within the hour for any target in the table make no call and leave the cache as it is |
| ExchangeRateApiService.LeavesCountryCache | TravelGuideApi/Src/TravelGuideApi.Infrastructure/Services/ExchangeRateApiService.cs:66 | rate resolution never changes what the country cache returns |
| CurrencyCompareQueryValidator.PassesNotEmpty | TravelGuideApi/Src/TravelGuideApi.Application/Features/CurrencyComparison/Queries/Compare/CurrencyCompareQueryValidator.cs:13 | NotEmpty passes iff the code is present and not blank |
| CurrencyCompareQueryValidator.PassesNotNull | TravelGuideApi/Src/TravelGuideApi.Application/Features/CurrencyComparison/Queries/Compare/CurrencyCompareQueryValidator.cs:14 | NotNull passes iff the code is present |
| CurrencyCompareQueryValidator.PassesLength | TravelGuideApi/Src/TravelGuideApi.Application/Features/CurrencyComparison/Queries/Compare/CurrencyCompareQueryValidator.cs:15 | Length(2) passes iff the code is absent or exactly two UTF-16 code units long |
| CurrencyCompareQueryValidator.RuleFailures | TravelGuideApi/Src/TravelGuideApi.Application/Features/CurrencyComparison/Queries/Compare/CurrencyCompareQueryValidator.cs:12-15 | a property gets at most three failures, all against that property, and none iff the code is present, two UTF-16 code units long and not blank |
| CurrencyCompareQueryValidator.Validate | TravelGuideApi/Src/TravelGuideApi.Application/Features/CurrencyComparison/Queries/Compare/CurrencyCompareQueryValidator.cs:12-20 | a query gets at most six failures, each against one of the two codes, and none iff both codes are present, two UTF-16 code units long and not blank |
| CurrencyCompareQueryValidator.IsCountryCode | TravelGuideApi/Src/TravelGuideApi.Application/Features/CurrencyComparison/Queries/Compare/CurrencyCompareQueryValidator.cs:12-15 | a valid code is present, two UTF-16 code units long and not blank |
| CurrencyCompareQueryValidator.FailuresFor | TravelGuideApi/Src/TravelGuideApi.Application/Features/CurrencyComparison/Queries/Compare/CurrencyCompareQueryValidator.cs:12-20 | the failures kept are exactly those reported against the given property |
| CurrencyCompareQueryValidator.FailuresForAppend | TravelGuideApi/Src/TravelGuideApi.Application/Features/CurrencyComparison/Queries/Compare/CurrencyCompareQueryValidator.cs:12-20 | filtering by property distributes over concatenation |
| CurrencyCompareQueryValidator.FailuresForUniform | TravelGuideApi/Src/TravelGuideApi.Application/Features/CurrencyComparison/Queries/Compare/CurrencyCompareQueryValidator.cs:12-15 | a list whose failures all name one property is kept whole for it and emptied for any other |
| CurrencyCompareQueryValidator.RuleFailuresAreOwn | TravelGuideApi/Src/TravelGuideApi.Application/Features/CurrencyComparison/Queries/Compare/CurrencyCompareQueryValidator.cs:12-15 | a property's rules report only against that property |
| CurrencyCompareQueryValidator.PropertiesIndependent | TravelGuideApi/Src/TravelGuideApi.Application/Features/CurrencyComparison/Queries/Compare/CurrencyCompareQueryValidator.cs:12-20 | each code's failures are its own rule failures, and they are empty iff that code is present, two UTF-16 code units long and not blank, whatever the other code is |
| CurrencyCompareQueryValidator.WrongLengthReported | TravelGuideApi/Src/TravelGuideApi.Application/Features/CurrencyComparison/Queries/Compare/CurrencyCompareQueryValidator.cs:15 | a present code whose UTF-16 length is not 2 gets the length failure for its property |
| CurrencyCompareQueryValidator.NullOrEmptyReported | TravelGuideApi/Src/TravelGuideApi.Application/Features/CurrencyComparison/Queries/Compare/CurrencyCompareQueryValidator.cs:13-15 | a null code fails the required and not-null rules; an empty code fails the required and length rules |
| CurrencyCompareQueryValidator.CaseDoesNotMatter | TravelGuideApi/Src/TravelGuideApi.Application/Features/CurrencyComparison/Queries/Compare/CurrencyCompareQueryValidator.cs:12-20 | upper-casing the codes never changes the failures |
| CurrencyCompareQueryValidator.BothEmptyAggregates | TravelGuideApi/Src/TravelGuideApi.Application/Features/CurrencyComparison/Queries/Compare/CurrencyCompareQueryValidator.cs:12-20 | all rules run, so two empty codes give four failures |
| CurrencyCompareQueryValidator.WellFormedCodePasses | TravelGuideApi/Src/TravelGuideApi.Application/Features/CurrencyComparison/Queries/Compare/CurrencyCompareQueryValidator.cs:12-15 | a code two UTF-16 code units long that does not start with whitespace produces no failure |
| CurrencyCompareQueryValidator.OnlyLengthFails | TravelGuideApi/Src/TravelGuideApi.Application/Features/CurrencyComparison/Queries/Compare/CurrencyCompareQueryValidator.cs:13-15 | a present, non-blank code of the wrong length fails only the length rule |
| CurrencyCompareQueryValidator.WrongLengthOnlyFailsLength | TravelGuideApi/Src/TravelGuideApi.Application/Features/CurrencyComparison/Queries/Compare/CurrencyCompareQueryValidator.cs:13-15 | a wrong-length code not starting with whitespace passes NotEmpty and fails Length |
| CurrencyCompareQueryValidator.WrongLengthFailsOnlyLength | TravelGuideApi/Src/TravelGuideApi.Application/Features/CurrencyComparison/Queries/Compare/CurrencyCompareQueryValidator.cs:13-15 | a wrong-length code not starting with whitespace gets exactly the length failure |
| CurrencyCompareQueryValidator.BlankCodeFailsOnlyRequired | TravelGuideApi/Src/TravelGuideApi.Application/Features/CurrencyComparison/Queries/Compare/CurrencyCompareQueryValidator.cs:13-15 | a blank code two code units long gets exactly the required failure |
| CurrencyCompareQueryValidator.AsciiLength | TravelGuideApi/Src/TravelGuideApi.Application/Features/CurrencyComparison/Queries/Compare/CurrencyCompareQueryValidator.cs:15 | an ASCII code is as many UTF-16 code units long as it has characters |
| CurrencyCompareQueryValidator.AsciiCodePasses | TravelGuideApi/Src/TravelGuideApi.Application/Features/CurrencyComparison/Queries/Compare/CurrencyCompareQueryValidator.cs:12-15 | a two-letter ASCII code not starting with whitespace passes |
| CurrencyCompareQueryValidator.AsciiPairPasses | TravelGuideApi/Src/TravelGuideApi.Application/Features/CurrencyComparison/Queries/Compare/CurrencyCompareQueryValidator.cs:12-20 | a query of two such codes passes |
| CurrencyCompareQueryValidator.ValidatorAcceptsExamples | TravelGuideApi/Src/TravelGuideApi.Application/Features/CurrencyComparison/Queries/Compare/CurrencyCompareQueryValidator.cs:12-20 | two-letter codes pass in upper, lower and mixed case |
| CurrencyCompareQueryValidator.ValidatorRejectsExamples | TravelGuideApi/Src/TravelGuideApi.Application/Features/CurrencyComparison/Queries/Compare/CurrencyCompareQueryValidator.cs:12-20 | one or three letters fail only the length rule, with its message; two spaces fail only the required rule |
| CurrencyCompareQueryValidator.ValidatorCountsCodeUnits | TravelGuideApi/Src/TravelGuideApi.Application/Features/CurrencyComparison/Queries/Compare/CurrencyCompareQueryValidator.cs:15 | a single emoji passes the length rule (two code units) and a letter followed by an emoji fails it (three) |
| ValidationBehavior.NonNull | TravelGuideApi/Src/TravelGuideApi.Application/Behaviors/ValidationBehavior.cs:35-36 | a failure is kept iff it is a non-null entry; with NonNullOne and NonNullConcatenates this fixes order and multiplicity too |
| ValidationBehavior.Collect | TravelGuideApi/Src/TravelGuideApi.Application/Behaviors/ValidationBehavior.cs:35-36 | a failure is collected iff some validator reported it |
| ValidationBehavior.RunAll | TravelGuideApi/Src/TravelGuideApi.Application/Behaviors/ValidationBehavior.cs:32-33 | every validator runs once on the request, in registration order |
| ValidationBehavior.Handle | TravelGuideApi/Src/TravelGuideApi.Application/Behaviors/ValidationBehavior.cs:23-45 | the request is rejected iff some validator reports a failure, with exactly the failures reported; otherwise the response is the next handler's |
| ValidationBehavior.NoValidatorsPassThrough | TravelGuideApi/Src/TravelGuideApi.Application/Behaviors/ValidationBehavior.cs:28-44 | with no validators the handler's response comes back unchanged |
| ValidationBehavior.CollectConcatenates | TravelGuideApi/Src/TravelGuideApi.Application/Behaviors/ValidationBehavior.cs:35 | failures are concatenated in validator order |
| ValidationBehavior.NonNullOne | TravelGuideApi/Src/TravelGuideApi.Application/Behaviors/ValidationBehavior.cs:36 | a present failure is kept and a null entry dropped |
| ValidationBehavior.NonNullConcatenates | TravelGuideApi/Src/TravelGuideApi.Application/Behaviors/ValidationBehavior.cs:36 | dropping nulls from a concatenation concatenates the results, so order and duplicates are kept |
| ValidationBehavior.TwoValidators | TravelGuideApi/Src/TravelGuideApi.Application/Behaviors/ValidationBehavior.cs:28-44 | with two validators the rejection carries the first one's non-null failures then the second one's, and no failures means the handler runs |
| ValidationBehavior.SingleValidator | TravelGuideApi/Src/TravelGuideApi.Application/Behaviors/ValidationBehavior.cs:28-44 | one validator's failures are passed on exactly and in order, and no failures means the handler runs |
| ValidationBehavior.NonNullOfPresent | TravelGuideApi/Src/TravelGuideApi.Application/Behaviors/ValidationBehavior.cs:36 | dropping nulls from a list with none keeps it intact |
| CurrencyCompareQueryHandler.DetermineStrengthHint | TravelGuideApi/Src/TravelGuideApi.Application/Features/CurrencyComparison/Queries/Compare/CurrencyCompareQueryHandler.cs:75-91 | "Same currency" iff the codes are equal ignoring case; otherwise stronger, weaker or equal iff the rate is above, below or at 1 |
| CurrencyCompareQueryHandler.ResolveCountry | TravelGuideApi/Src/TravelGuideApi.Application/Features/CurrencyComparison/Queries/Compare/CurrencyCompareQueryHandler.cs:38-42 | the cache is only read; the source is asked iff the cache has no match; a found country matches the code |
| CurrencyCompareQueryHandler.Compared | TravelGuideApi/Src/TravelGuideApi.Application/Features/CurrencyComparison/Queries/Compare/CurrencyCompareQueryHandler.cs:59-70 | the response copies names and currency codes, shows the rate with at most four fractional digits within 0.00005 of the raw rate, and says "Same currency" iff the codes are equal ignoring case |
| CurrencyCompareQueryHandler.Handle | TravelGuideApi/Src/TravelGuideApi.Application/Features/CurrencyComparison/Queries/Compare/CurrencyCompareQueryHandler.cs:28-73 | a successful comparison carries one of the four hints, and "Same currency" iff its two currency codes are equal ignoring case |
| CurrencyCompareQueryHandler.CachedCountriesAreNotFetched | TravelGuideApi/Src/TravelGuideApi.Application/Features/CurrencyComparison/Queries/Compare/CurrencyCompareQueryHandler.cs:38-42 | countries found in the cache are never fetched from the catalog |
| CurrencyCompareQueryHandler.NotFoundNamesTheCode | TravelGuideApi/Src/TravelGuideApi.Application/Features/CurrencyComparison/Queries/Compare/CurrencyCompareQueryHandler.cs:44-52 | both lookups happen first; an unresolved home code is reported before the destination code, naming the code and parameter; no rate fetch and no cache change follow |
| CurrencyCompareQueryHandler.SourceFailureEndsRequest | TravelGuideApi/Src/TravelGuideApi.Application/Features/CurrencyComparison/Queries/Compare/CurrencyCompareQueryHandler.cs:38-39 | a catalog failure on the home lookup ends the request with that failure after one call |
| CurrencyCompareQueryHandler.RateAfterBothCountries | TravelGuideApi/Src/TravelGuideApi.Application/Features/CurrencyComparison/Queries/Compare/CurrencyCompareQueryHandler.cs:54-72 | a rate fetch or a success needs both countries; the rate is asked home to destination; its failure propagates; a result copies names and codes and shows the rounded rate with the hint from the raw rate |
| CurrencyCompareQueryHandler.SharedCurrency | TravelGuideApi/Src/TravelGuideApi.Application/Features/CurrencyComparison/Queries/Compare/CurrencyCompareQueryHandler.cs:80-83 | countries sharing a currency compare at exactly 1 with "Same currency", with no rate fetch |
| CurrencyCompareQueryHandler.LookupsFetchNoRates | TravelGuideApi/Src/TravelGuideApi.Application/Features/CurrencyComparison/Queries/Compare/CurrencyCompareQueryHandler.cs:38-42 | resolving the two countries never fetches a rate table |
| CurrencyCompareQueryHandler.NeverWritesCountryCache | TravelGuideApi/Src/TravelGuideApi.Application/Features/CurrencyComparison/Queries/Compare/CurrencyCompareQueryHandler.cs:37-42 | the comparison never changes what the country cache returns |
| CurrencyCompareQueryHandler.HintUsesRawRate | TravelGuideApi/Src/TravelGuideApi.Application/Features/CurrencyComparison/Queries/Compare/CurrencyCompareQueryHandler.cs:59-70 | rates that display as 1.0000 but are not 1 are still stronger or weaker |
| CurrencyCompareQueryHandler.ExampleLookup | TravelGuideApi/Src/TravelGuideApi.Application/Features/CurrencyComparison/Queries/Compare/CurrencyCompareQueryHandler.cs:38 | in the example cache a code is looked up in the two-country snapshot |
| CurrencyCompareQueryHandler.ExampleLookups | TravelGuideApi/Src/TravelGuideApi.Application/Features/CurrencyComparison/Queries/Compare/CurrencyCompareQueryHandler.cs:38-41 | "us" finds the United States and "GB" the United Kingdom |
| CurrencyCompareQueryHandler.ExampleCodes | TravelGuideApi/Src/TravelGuideApi.Application/Features/CurrencyComparison/Queries/Compare/CurrencyCompareQueryHandler.cs:38-41 | "us" matches the United States ignoring case, and "GB" matches only the United Kingdom |
| CurrencyCompareQueryHandler.ExampleRate | TravelGuideApi/Src/TravelGuideApi.Application/Features/CurrencyComparison/Queries/Compare/CurrencyCompareQueryHandler.cs:55-57 | USD to GBP is served from the cached table with no call |
| CurrencyCompareQueryHandler.UsAgainstGbExample | TravelGuideApi/Src/TravelGuideApi.Application/Features/CurrencyComparison/Queries/Compare/CurrencyCompareQueryHandler.cs:28-73 | "us" against "GB" at a raw 0.7912345678 gives 0.7912 and "weaker", with no external call |
| CountryGetAllQueryHandler.Handle | TravelGuideApi/Src/TravelGuideApi.Application/Features/Country/Queries/GetAll/CountryGetAllQueryHandler.cs:25-45 | a hit returns the snapshot with no call; a miss makes one catalog call; a successful list is then cached as returned, and a failure leaves the cache alone |
| CountryGetAllQueryHandler.MissReturnsSourceList | TravelGuideApi/Src/TravelGuideApi.Application/Features/Country/Queries/GetAll/CountryGetAllQueryHandler.cs:37-44 | on a miss the result is the source's result, failures included |
| CountryGetAllQueryHandler.SecondCallHits | TravelGuideApi/Src/TravelGuideApi.Application/Features/Country/Queries/GetAll/CountryGetAllQueryHandler.cs:29-44 | after a successful miss, a call within 24 hours returns the same list from the cache with no call, whatever the catalog says |
| CountryGetAllQueryHandler.ExpiredSnapshotRefetches | TravelGuideApi/Src/TravelGuideApi.Application/Features/Country/Queries/GetAll/CountryGetAllQueryHandler.cs:29-39 | once the written snapshot has expired, the next call fetches again |
| CountryGetAllQueryHandler.LeavesRateTables | TravelGuideApi/Src/TravelGuideApi.Application/Features/Country/Queries/GetAll/CountryGetAllQueryHandler.cs:42 | listing countries never changes a cached rate table |
| RequestPipeline.ValidationGuardsHandler | TravelGuideApi/Src/TravelGuideApi.Application/Behaviors/ValidationBehavior.cs:28-44 | an invalid comparison fails with all its validation failures, with no call and no cache change; a valid one gets exactly the handler's answer |
| RequestPipeline.SendCompare | TravelGuideApi/Src/TravelGuideApi.Application/Behaviors/ValidationBehavior.cs:28-44 | a comparison request runs the validation step with the comparison validator, then the handler; ValidationGuardsHandler states the outcome |
| RequestPipeline.SendCountryList | TravelGuideApi/Src/TravelGuideApi.Application/Behaviors/ValidationBehavior.cs:28-44 | the country-list request runs the validation step with no validator, then its handler; CountryListGoesStraightThrough states the outcome |
| RequestPipeline.BadCodesRejected | TravelGuideApi/Src/TravelGuideApi.Application/Features/CurrencyComparison/Queries/Compare/CurrencyCompareQueryValidator.cs:12-20 | a code that is missing, blank, or not two UTF-16 code units long is rejected with a validation failure, before any external call and with no cache change |
| RequestPipeline.CountryListGoesStraightThrough | TravelGuideApi/Src/TravelGuideApi.Application/Behaviors/ValidationBehavior.cs:28 | the country-list request has no validator and reaches its handler unchanged |
| RequestPipeline.ListWarmsComparison | TravelGuideApi/Src/TravelGuideApi.Application/Features/Country/Queries/GetAll/CountryGetAllQueryHandler.cs:42 | after the list is cached, comparing listed countries within 24 hours makes no catalog call |

## Left out

- HTTP, JSON deserialisation, URLs and configuration are abstracted. A fetch is an `Upstream` value that yields a body, a null body, or a transport or parse failure.
- The `Upstream` value is a fixed snapshot for the whole request. Two catalog fetches in one request see the same catalog.
- Logging, `async`/`await`, cancellation tokens, dependency injection, controllers, the UI and the health endpoints are left out; none affects results.
- Concurrency is left out. Requests are modelled one at a time, so two concurrent misses writing the same key are not modelled.
- The `IMemoryCache` implementation is not part of this model. It is assumed to keep an entry until its absolute expiry, with no size-based or memory-pressure eviction.
- Text.ToUpper: folds only ASCII letters. .NET's culture-sensitive `ToUpper` and `OrdinalIgnoreCase` also fold non-ASCII letters; codes here are ISO letter codes.
- NameOrder.SortByName: the culture-sensitive name comparer is a parameter. Sortedness and stability are proved for any total preorder, not for a specific culture.
- Rounding.Round4: `decimal` is modelled as an exact real. The 28-digit precision limit and overflow of `decimal` are not modelled.
- Fields the source dereferences without a null check are non-null in the model, because a null there throws a `NullReferenceException` the code does not handle. These are each catalog element (its currencies are read at CountryApiService.cs:46), the name object (CountryApiService.cs:72), the `CurrencyInfo` object of the first currency (CountryApiService.cs:75), and `cca2`, which becomes the country code and is dereferenced by the case-insensitive comparison (CountryCache.cs:55, CountryApiService.cs:64).
- Domain.Message: the validation message follows FluentValidation 10 and later: "Validation failed: ", then for each failure a newline, " -- ", the property name, ": ", the message and " Severity: Error". The newline is "\n", as on Linux; on Windows it is "\r\n". The FluentValidation version is not pinned by the code here, and earlier versions omit the severity.
- Text.Utf16Length: strings are sequences of Unicode scalar values, so a string holding an unpaired surrogate cannot be written in the model.
- A provider response with a null rates dictionary is left out. The source would store null and then fail while logging the count.
- The validator is modelled with FluentValidation's defaults: every rule of a property runs, and the not-null rule uses its default message and error code. FluentValidation itself is not part of this model.
