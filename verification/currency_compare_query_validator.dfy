/**
 * The comparison request's validation rules. Each country code runs three
 * rules, all of them (a failing rule does not stop the next one):
 * NotEmpty (fails on null, "" and whitespace-only), NotNull, and an exact
 * length of 2 (which a null value passes).
 */
module CurrencyCompareQueryValidator {
  import opened Wrappers
  import opened Text
  import opened Domain

  const HomeProperty: string := "HomeCountryCode"
  const HomeDisplayName: string := "Home Country Code"
  const DestinationProperty: string := "DestinationCountryCode"
  const DestinationDisplayName: string := "Destination Country Code"

  const NotEmptyErrorCode: string := "NotEmptyValidator"
  const NotNullErrorCode: string := "NotNullValidator"
  const LengthErrorCode: string := "ExactLengthValidator"

  const CodeLength: nat := 2

  /** NotEmpty: present and not empty or whitespace only. */
  predicate PassesNotEmpty(v: Option<string>) { v.Some? && !IsBlank(v.value) }
  /** NotNull: present. */
  predicate PassesNotNull(v: Option<string>) { v.Some? }
  /** Length(2): absent, or exactly two UTF-16 code units long. */
  predicate PassesLength(v: Option<string>) { v.None? || Utf16Length(v.value) == CodeLength }

  function RequiredMessage(displayName: string): string { displayName + " is required." }
  function NotNullMessage(displayName: string): string { "'" + displayName + "' must not be empty." }
  function LengthMessage(displayName: string): string { displayName + " must be a 2-character ISO country code." }

  /** The failures of the three rules of one property, in rule order. */
  function RuleFailures(property: string, displayName: string, v: Option<string>): (r: seq<ValidationFailure>)
    ensures |r| <= 3
    ensures forall i :: 0 <= i < |r| ==> r[i].propertyName == property
    ensures r == [] <==> IsCountryCode(v)
  {
    (if PassesNotEmpty(v) then [] else [ValidationFailure(property, RequiredMessage(displayName), NotEmptyErrorCode)])
    + (if PassesNotNull(v) then [] else [ValidationFailure(property, NotNullMessage(displayName), NotNullErrorCode)])
    + (if PassesLength(v) then [] else [ValidationFailure(property, LengthMessage(displayName), LengthErrorCode)])
  }

  /** Validating a query: the home code's failures, then the destination code's. */
  function Validate(q: CompareQuery): (r: seq<ValidationFailure>)
    ensures |r| <= 6
    ensures forall i :: 0 <= i < |r| ==> r[i].propertyName == HomeProperty || r[i].propertyName == DestinationProperty
    ensures r == [] <==> IsCountryCode(q.homeCountryCode) && IsCountryCode(q.destinationCountryCode)
  {
    RuleFailures(HomeProperty, HomeDisplayName, q.homeCountryCode)
    + RuleFailures(DestinationProperty, DestinationDisplayName, q.destinationCountryCode)
  }

  /** What a country code must be: present, two UTF-16 code units long, not blank. */
  predicate IsCountryCode(v: Option<string>) {
    v.Some? && Utf16Length(v.value) == CodeLength && !IsBlank(v.value)
  }

  /** The failures reported against one property. */
  function FailuresFor(fs: seq<ValidationFailure>, property: string): (r: seq<ValidationFailure>)
    ensures forall f :: f in r <==> f in fs && f.propertyName == property
  {
    if fs == [] then []
    else (if fs[0].propertyName == property then [fs[0]] else []) + FailuresFor(fs[1..], property)
  }

  lemma {:induction false} FailuresForAppend(a: seq<ValidationFailure>, b: seq<ValidationFailure>, property: string)
    ensures FailuresFor(a + b, property) == FailuresFor(a, property) + FailuresFor(b, property)
  {
    if a == [] {
      assert a + b == b;
    } else {
      assert (a + b)[1..] == a[1..] + b;
      FailuresForAppend(a[1..], b, property);
    }
  }

  /** Filtering a list whose failures all name one property keeps it whole for that property and empties it for any other. */
  lemma {:induction false} FailuresForUniform(fs: seq<ValidationFailure>, property: string, other: string)
    requires forall i :: 0 <= i < |fs| ==> fs[i].propertyName == property
    ensures FailuresFor(fs, property) == fs
    ensures other != property ==> FailuresFor(fs, other) == []
  {
    if fs != [] {
      FailuresForUniform(fs[1..], property, other);
      assert [fs[0]] + fs[1..] == fs;
    }
  }

  /** A property's rules only ever report against that property. */
  lemma RuleFailuresAreOwn(property: string, displayName: string, v: Option<string>, other: string)
    ensures FailuresFor(RuleFailures(property, displayName, v), property) == RuleFailures(property, displayName, v)
    ensures other != property ==> FailuresFor(RuleFailures(property, displayName, v), other) == []
  {
    FailuresForUniform(RuleFailures(property, displayName, v), property, other);
  }

  /**
   * The two codes are checked independently: the failures against each
   * property are that property's own rule failures, and there are none
   * exactly when that code is a valid country code, whatever the other one is.
   */
  lemma PropertiesIndependent(q: CompareQuery)
    ensures FailuresFor(Validate(q), HomeProperty) == RuleFailures(HomeProperty, HomeDisplayName, q.homeCountryCode)
    ensures FailuresFor(Validate(q), DestinationProperty)
            == RuleFailures(DestinationProperty, DestinationDisplayName, q.destinationCountryCode)
    ensures FailuresFor(Validate(q), HomeProperty) == [] <==> IsCountryCode(q.homeCountryCode)
    ensures FailuresFor(Validate(q), DestinationProperty) == [] <==> IsCountryCode(q.destinationCountryCode)
  {
    var h := RuleFailures(HomeProperty, HomeDisplayName, q.homeCountryCode);
    var d := RuleFailures(DestinationProperty, DestinationDisplayName, q.destinationCountryCode);
    FailuresForAppend(h, d, HomeProperty);
    FailuresForAppend(h, d, DestinationProperty);
    RuleFailuresAreOwn(HomeProperty, HomeDisplayName, q.homeCountryCode, DestinationProperty);
    RuleFailuresAreOwn(DestinationProperty, DestinationDisplayName, q.destinationCountryCode, HomeProperty);
  }

  /** A present code of any UTF-16 length other than 2 (1 or 3, say) gets the length message for its property. */
  lemma WrongLengthReported(q: CompareQuery)
    ensures q.homeCountryCode.Some? && Utf16Length(q.homeCountryCode.value) != CodeLength ==>
              ValidationFailure(HomeProperty, LengthMessage(HomeDisplayName), LengthErrorCode) in Validate(q)
    ensures q.destinationCountryCode.Some? && Utf16Length(q.destinationCountryCode.value) != CodeLength ==>
              ValidationFailure(DestinationProperty, LengthMessage(DestinationDisplayName), LengthErrorCode) in Validate(q)
  {
  }

  /** A null code fails NotEmpty and NotNull, an empty one NotEmpty and the length rule. */
  lemma NullOrEmptyReported(property: string, displayName: string)
    ensures RuleFailures(property, displayName, None)
            == [ValidationFailure(property, RequiredMessage(displayName), NotEmptyErrorCode),
                ValidationFailure(property, NotNullMessage(displayName), NotNullErrorCode)]
    ensures RuleFailures(property, displayName, Some(""))
            == [ValidationFailure(property, RequiredMessage(displayName), NotEmptyErrorCode),
                ValidationFailure(property, LengthMessage(displayName), LengthErrorCode)]
  {
  }

  function UpperCode(v: Option<string>): Option<string> {
    match v
    case None => None
    case Some(s) => Some(ToUpper(s))
  }

  /** Letter case never changes the outcome: an upper-cased query gets exactly the same failures. */
  lemma CaseDoesNotMatter(q: CompareQuery)
    ensures Validate(CompareQuery(UpperCode(q.homeCountryCode), UpperCode(q.destinationCountryCode))) == Validate(q)
  {
    if q.homeCountryCode.Some? {
      ToUpperKeepsBlank(q.homeCountryCode.value);
      ToUpperKeepsUtf16Length(q.homeCountryCode.value);
    }
    if q.destinationCountryCode.Some? {
      ToUpperKeepsBlank(q.destinationCountryCode.value);
      ToUpperKeepsUtf16Length(q.destinationCountryCode.value);
    }
  }

  /** Failures are aggregated: two empty codes give four, not one. */
  lemma BothEmptyAggregates()
    ensures |Validate(CompareQuery(Some(""), Some("")))| == 4
  {
    NullOrEmptyReported(HomeProperty, HomeDisplayName);
    NullOrEmptyReported(DestinationProperty, DestinationDisplayName);
  }

  /** A code two UTF-16 code units long that does not start with whitespace produces no failure. */
  lemma WellFormedCodePasses(property: string, displayName: string, s: string)
    requires Utf16Length(s) == CodeLength && !IsWhiteSpace(s[0])
    ensures RuleFailures(property, displayName, Some(s)) == []
  {
  }

  /** When only the length rule fails, its failure is the only one. */
  lemma OnlyLengthFails(property: string, displayName: string, v: Option<string>)
    requires PassesNotEmpty(v) && !PassesLength(v)
    ensures RuleFailures(property, displayName, v) == [ValidationFailure(property, LengthMessage(displayName), LengthErrorCode)]
  {
  }

  /** A wrong-length code that does not start with whitespace passes NotEmpty and fails Length. */
  lemma WrongLengthOnlyFailsLength(s: string)
    requires Utf16Length(s) != CodeLength && |s| > 0 && !IsWhiteSpace(s[0])
    ensures PassesNotEmpty(Some(s)) && !PassesLength(Some(s))
  {
  }

  /** A present code of the wrong UTF-16 length that does not start with whitespace fails only the length rule. */
  lemma WrongLengthFailsOnlyLength(property: string, displayName: string, s: string)
    requires Utf16Length(s) != CodeLength && |s| > 0 && !IsWhiteSpace(s[0])
    ensures RuleFailures(property, displayName, Some(s)) == [ValidationFailure(property, LengthMessage(displayName), LengthErrorCode)]
  {
    WrongLengthOnlyFailsLength(s);
    OnlyLengthFails(property, displayName, Some(s));
  }

  /** A blank code of the right length fails only the required rule. */
  lemma BlankCodeFailsOnlyRequired(property: string, displayName: string, s: string)
    requires Utf16Length(s) == CodeLength && IsBlank(s)
    ensures RuleFailures(property, displayName, Some(s)) == [ValidationFailure(property, RequiredMessage(displayName), NotEmptyErrorCode)]
  {
    assert !PassesNotEmpty(Some(s)) && PassesNotNull(Some(s)) && PassesLength(Some(s));
  }

  /** An ASCII string is as many code units long as it has characters. */
  lemma AsciiLength(s: string)
    requires forall i :: 0 <= i < |s| ==> s[i] as int < 0x80
    ensures Utf16Length(s) == |s|
  {
    Utf16LengthIsCountIffBmp(s);
  }

  /** A two-letter ASCII code that does not start with whitespace passes. */
  lemma AsciiCodePasses(property: string, displayName: string, s: string)
    requires |s| == 2 && s[0] as int < 0x80 && s[1] as int < 0x80 && !IsWhiteSpace(s[0])
    ensures RuleFailures(property, displayName, Some(s)) == []
  {
    assert Utf16Length(s) == CodeLength by {
      AsciiLength(s);
    }
    WellFormedCodePasses(property, displayName, s);
  }

  /** A query of two two-letter ASCII codes that do not start with whitespace passes. */
  lemma AsciiPairPasses(home: string, destination: string)
    requires |home| == 2 && home[0] as int < 0x80 && home[1] as int < 0x80 && !IsWhiteSpace(home[0])
    requires |destination| == 2 && destination[0] as int < 0x80 && destination[1] as int < 0x80
    requires !IsWhiteSpace(destination[0])
    ensures Validate(CompareQuery(Some(home), Some(destination))) == []
  {
    AsciiCodePasses(HomeProperty, HomeDisplayName, home);
    AsciiCodePasses(DestinationProperty, DestinationDisplayName, destination);
  }

  /** Two-letter codes pass in any case. */
  lemma ValidatorAcceptsExamples()
    ensures Validate(CompareQuery(Some("US"), Some("GB"))) == []
    ensures Validate(CompareQuery(Some("us"), Some("gb"))) == []
    ensures Validate(CompareQuery(Some("Us"), Some("Gb"))) == []
  {
    AsciiPairPasses("US", "GB");
    AsciiPairPasses("us", "gb");
    AsciiPairPasses("Us", "Gb");
  }

  /** One or three letters fail only the length rule; whitespace fails only the required rule. */
  lemma ValidatorRejectsExamples()
    ensures Validate(CompareQuery(Some("U"), Some("GB")))
            == [ValidationFailure(HomeProperty, LengthMessage(HomeDisplayName), LengthErrorCode)]
    ensures Validate(CompareQuery(Some("US"), Some("GBR")))
            == [ValidationFailure(DestinationProperty, LengthMessage(DestinationDisplayName), LengthErrorCode)]
    ensures Validate(CompareQuery(Some("  "), Some("GB")))
            == [ValidationFailure(HomeProperty, RequiredMessage(HomeDisplayName), NotEmptyErrorCode)]
  {
    AsciiCodePasses(HomeProperty, HomeDisplayName, "US");
    AsciiCodePasses(DestinationProperty, DestinationDisplayName, "GB");
    assert Utf16Length("U") == 1 && Utf16Length("GBR") == 3 && Utf16Length("  ") == 2 by {
      AsciiLength("U");
      AsciiLength("GBR");
      AsciiLength("  ");
    }
    WrongLengthFailsOnlyLength(HomeProperty, HomeDisplayName, "U");
    WrongLengthFailsOnlyLength(DestinationProperty, DestinationDisplayName, "GBR");
    BlankCodeFailsOnlyRequired(HomeProperty, HomeDisplayName, "  ");
  }

  /** Length counts UTF-16 code units: one emoji is a two-unit code, a letter and an emoji are three units. */
  lemma ValidatorCountsCodeUnits()
    ensures Validate(CompareQuery(Some("\U{1F600}"), Some("GB"))) == []
    ensures Validate(CompareQuery(Some("A\U{1F600}"), Some("GB")))
            == [ValidationFailure(HomeProperty, LengthMessage(HomeDisplayName), LengthErrorCode)]
  {
    AsciiCodePasses(DestinationProperty, DestinationDisplayName, "GB");
    assert Utf16Length("\U{1F600}") == 2 && Utf16Length("A\U{1F600}") == 3 by {
      Utf16LengthExamples();
    }
    WellFormedCodePasses(HomeProperty, HomeDisplayName, "\U{1F600}");
    WrongLengthFailsOnlyLength(HomeProperty, HomeDisplayName, "A\U{1F600}");
  }
}
