/**
 * The country source: fetches the catalog, drops entries without currencies,
 * maps each remaining entry through its first currency, and sorts by name.
 * Lookup by code re-fetches the whole catalog and takes the first match.
 */
module CountryApiService {
  import opened Wrappers
  import opened Domain
  import opened NameOrder

  /** An entry is kept when its currency dictionary is present and holds at least one currency. */
  predicate HasCurrency(r: RestCountryResponse) {
    r.currencies.Some? && |r.currencies.value| > 0
  }

  /**
   * The normalised country of a kept entry: its code and common name, its
   * first currency, and "" for a missing symbol, missing flags or a missing PNG.
   */
  function MapToCountry(r: RestCountryResponse): (c: Country)
    requires HasCurrency(r)
    ensures c.code == r.cca2 && c.name == r.name.common
    ensures c.currencyCode == r.currencies.value[0].code
    ensures c.currencyName == r.currencies.value[0].info.name
    ensures r.currencies.value[0].info.symbol.Some? ==> c.currencySymbol == r.currencies.value[0].info.symbol.value
    ensures r.currencies.value[0].info.symbol.None? ==> c.currencySymbol == ""
    ensures r.flags.Some? && r.flags.value.png.Some? ==> c.flagUrl == r.flags.value.png.value
    ensures r.flags.None? || r.flags.value.png.None? ==> c.flagUrl == ""
  {
    var currency := r.currencies.value[0];
    Country(
      r.cca2,
      r.name.common,
      currency.code,
      currency.info.name,
      currency.info.symbol.GetOr(""),
      if r.flags.Some? then r.flags.value.png.GetOr("") else "")
  }

  /** The kept entries, each mapped, in catalog order. */
  function SelectKept(rs: seq<RestCountryResponse>): (r: seq<Country>)
    ensures |r| <= |rs|
    ensures forall i :: 0 <= i < |rs| && HasCurrency(rs[i]) ==> MapToCountry(rs[i]) in r
  {
    if rs == [] then []
    else
      var rest := SelectKept(rs[1..]);
      assert forall i :: 1 <= i < |rs| ==> rs[i] == rs[1..][i - 1];
      (if HasCurrency(rs[0]) then [MapToCountry(rs[0])] else []) + rest
  }

  /** One entry is selected as its mapping when it has a currency, and dropped otherwise. */
  lemma SelectKeptOne(x: RestCountryResponse)
    ensures HasCurrency(x) ==> SelectKept([x]) == [MapToCountry(x)]
    ensures !HasCurrency(x) ==> SelectKept([x]) == []
  {
    assert [x][1..] == [];
  }

  /**
   * Selection distributes over concatenation; with `SelectKeptOne` this fixes
   * both the order (catalog order) and the multiplicity (one country per kept entry).
   */
  lemma {:induction false} SelectKeptConcatenates(a: seq<RestCountryResponse>, b: seq<RestCountryResponse>)
    ensures SelectKept(a + b) == SelectKept(a) + SelectKept(b)
  {
    if a == [] {
      assert a + b == b;
    } else {
      assert (a + b)[1..] == a[1..] + b;
      SelectKeptConcatenates(a[1..], b);
    }
  }

  /** Every country selected comes from an entry that has a currency. */
  lemma {:induction false} SelectedFromKeptEntries(rs: seq<RestCountryResponse>, c: Country)
    requires c in SelectKept(rs)
    ensures exists i :: 0 <= i < |rs| && HasCurrency(rs[i]) && MapToCountry(rs[i]) == c
  {
    var rest := SelectKept(rs[1..]);
    if HasCurrency(rs[0]) && c == MapToCountry(rs[0]) {
    } else {
      assert c in rest;
      SelectedFromKeptEntries(rs[1..], c);
      var i :| 0 <= i < |rs[1..]| && HasCurrency(rs[1..][i]) && MapToCountry(rs[1..][i]) == c;
      assert rs[i + 1] == rs[1..][i];
    }
  }

  /** The catalog's kept entries, mapped and sorted by name; a null body is an empty list. */
  function GetAllCountries(catalog: FetchOutcome<seq<RestCountryResponse>>, le: (string, string) -> bool)
    : (r: Result<seq<Country>, Error>)
    ensures catalog.TransportFailure? ==> r == Err(UpstreamFailure(catalog.reason))
    ensures catalog == Received(None) ==> r == Ok([])
    ensures catalog.Received? && catalog.body.Some? ==>
              r.Ok? && multiset(r.value) == multiset(SelectKept(catalog.body.value))
  {
    match catalog
    case TransportFailure(reason) => Err(UpstreamFailure(reason))
    case Received(None) => Ok([])
    case Received(Some(rs)) => Ok(SortByName(SelectKept(rs), le))
  }

  /** Lookup by code: the first country of the full list whose code matches ignoring case. */
  function GetCountryByCode(catalog: FetchOutcome<seq<RestCountryResponse>>, le: (string, string) -> bool,
                            code: Option<string>): (r: Result<Option<Country>, Error>)
    ensures GetAllCountries(catalog, le).Err? ==> r == Err(GetAllCountries(catalog, le).error)
    ensures GetAllCountries(catalog, le).Ok? ==>
              var all := GetAllCountries(catalog, le).value;
              && r.Ok?
              && (r.value.None? <==> forall i :: 0 <= i < |all| ==> !CodeMatches(all[i], code))
              && forall i :: 0 <= i < |all| && CodeMatches(all[i], code) &&
                             (forall j :: 0 <= j < i ==> !CodeMatches(all[j], code))
                          ==> r.value == Some(all[i])
  {
    match GetAllCountries(catalog, le)
    case Err(e) => Err(e)
    case Ok(all) => Ok(FindByCode(all, code))
  }

  /**
   * Entries without currencies never reach the list, every entry with one
   * does, and nothing else is in it.
   */
  lemma ListIsTheKeptEntries(rs: seq<RestCountryResponse>, le: (string, string) -> bool)
    ensures var all := GetAllCountries(Received(Some(rs)), le).value;
            && |all| <= |rs|
            && (forall c :: c in all <==> exists i :: 0 <= i < |rs| && HasCurrency(rs[i]) && MapToCountry(rs[i]) == c)
  {
    var all := GetAllCountries(Received(Some(rs)), le).value;
    var kept := SelectKept(rs);
    assert forall c :: c in all <==> c in multiset(kept);
    forall c | c in all
      ensures exists i :: 0 <= i < |rs| && HasCurrency(rs[i]) && MapToCountry(rs[i]) == c
    {
      assert c in multiset(kept);
      SelectedFromKeptEntries(rs, c);
    }
  }

  /** The list is ordered by name, and countries whose names rank the same keep catalog order. */
  lemma ListIsSortedStably(rs: seq<RestCountryResponse>, le: (string, string) -> bool, n: string)
    requires TotalPreorder(le)
    ensures SortedByName(GetAllCountries(Received(Some(rs)), le).value, le)
    ensures SameRankAs(GetAllCountries(Received(Some(rs)), le).value, le, n) == SameRankAs(SelectKept(rs), le, n)
  {
    SortIsSorted(SelectKept(rs), le);
    SortIsStable(SelectKept(rs), le, n);
  }

  /** A catalog entry with a null symbol and no flags keeps its first currency and gets "" defaults. */
  lemma MappingExample()
    ensures
      var usd := CurrencyEntry("USD", CurrencyInfo("United States dollar", None));
      var eur := CurrencyEntry("EUR", CurrencyInfo("Euro", Some("€")));
      var us := RestCountryResponse(CountryName("United States", "United States of America"), "US",
                                    Some([usd, eur]), None);
      var aq := RestCountryResponse(CountryName("Antarctica", "Antarctica"), "AQ", None, None);
      GetAllCountries(Received(Some([aq, us])), (a, b) => true)
        == Ok([Country("US", "United States", "USD", "United States dollar", "", "")])
  {
  }
}
