/**
 * The validation step in front of every request handler: run every registered
 * validator, gather all their failures (skipping null entries), and reject the
 * request with all of them before the handler runs; with no failures, or no
 * validators, the handler's response is returned as is.
 */
module ValidationBehavior {
  import opened Wrappers
  import opened Domain

  /** Either the request was rejected (the handler never ran) or the handler's response. */
  datatype Outcome<R> = Rejected(failures: seq<ValidationFailure>) | Proceeded(response: R)

  /** A validator maps a request to its failure list, whose entries may be null. */
  type Validator<!Q> = Q -> seq<Option<ValidationFailure>>

  /** One validator's failures with the null entries dropped, in order. */
  function NonNull(errors: seq<Option<ValidationFailure>>): (r: seq<ValidationFailure>)
    ensures forall f :: f in r <==> Some(f) in errors
  {
    if errors == [] then []
    else (if errors[0].Some? then [errors[0].value] else []) + NonNull(errors[1..])
  }

  /** All validators' non-null failures, flattened in validator order. */
  function Collect(results: seq<seq<Option<ValidationFailure>>>): (r: seq<ValidationFailure>)
    ensures forall f :: f in r <==> exists i :: 0 <= i < |results| && Some(f) in results[i]
  {
    if results == [] then []
    else
      var rest := Collect(results[1..]);
      assert forall i :: 1 <= i < |results| ==> results[i] == results[1..][i - 1];
      NonNull(results[0]) + rest
  }

  /** The failure lists of all validators, in registration order. */
  function RunAll<Q>(validators: seq<Validator<Q>>, request: Q): (r: seq<seq<Option<ValidationFailure>>>)
    ensures |r| == |validators|
    ensures forall i :: 0 <= i < |validators| ==> r[i] == validators[i](request)
  {
    seq(|validators|, i requires 0 <= i < |validators| => validators[i](request))
  }

  /** Run the validators; reject with every failure if there is one, otherwise call the handler. */
  function Handle<Q, R>(validators: seq<Validator<Q>>, request: Q, next: () -> R): (o: Outcome<R>)
    ensures o.Rejected? <==> exists i :: 0 <= i < |validators| && exists f :: Some(f) in validators[i](request)
    ensures o.Rejected? ==> forall f :: f in o.failures <==>
                              exists i :: 0 <= i < |validators| && Some(f) in validators[i](request)
    ensures o.Proceeded? ==> o.response == next()
  {
    if |validators| > 0 then
      var failures := Collect(RunAll(validators, request));
      if |failures| != 0 then
        assert failures[0] in failures;
        Rejected(failures)
      else
        Proceeded(next())
    else
      Proceeded(next())
  }

  /** With no validators registered the handler's response comes back unchanged. */
  lemma NoValidatorsPassThrough<Q, R>(request: Q, next: () -> R)
    ensures Handle([], request, next) == Proceeded(next())
  {
  }

  /** A present failure is kept and a null entry dropped. */
  lemma NonNullOne(x: Option<ValidationFailure>)
    ensures x.Some? ==> NonNull([x]) == [x.value]
    ensures x.None? ==> NonNull([x]) == []
  {
    assert [x][1..] == [];
  }

  /**
   * Dropping nulls distributes over concatenation; with `NonNullOne` this fixes
   * the order and multiplicity of the kept failures, not just their set.
   */
  lemma {:induction false} NonNullConcatenates(a: seq<Option<ValidationFailure>>, b: seq<Option<ValidationFailure>>)
    ensures NonNull(a + b) == NonNull(a) + NonNull(b)
  {
    if a == [] {
      assert a + b == b;
    } else {
      assert (a + b)[1..] == a[1..] + b;
      NonNullConcatenates(a[1..], b);
    }
  }

  /** Failures are concatenated in validator order: what each validator reports, nulls dropped. */
  lemma {:induction false} CollectConcatenates(a: seq<seq<Option<ValidationFailure>>>, b: seq<seq<Option<ValidationFailure>>>)
    ensures Collect(a + b) == Collect(a) + Collect(b)
  {
    if a == [] {
      assert a + b == b;
    } else {
      assert (a + b)[1..] == a[1..] + b;
      CollectConcatenates(a[1..], b);
    }
  }

  /** A single validator's failures are passed on exactly, in order. */
  lemma SingleValidator<Q, R>(v: Validator<Q>, request: Q, next: () -> R, failures: seq<ValidationFailure>)
    requires v(request) == seq(|failures|, i requires 0 <= i < |failures| => Some(failures[i]))
    ensures Handle([v], request, next) == (if failures == [] then Proceeded(next()) else Rejected(failures))
  {
    var results := RunAll([v], request);
    assert results == [v(request)];
    NonNullOfPresent(failures);
    assert Collect(results) == NonNull(v(request)) + Collect([]);
  }

  /**
   * With two validators the rejection carries the first one's non-null
   * failures and then the second one's, each in its own order, duplicates kept.
   */
  lemma TwoValidators<Q, R>(v: Validator<Q>, w: Validator<Q>, request: Q, next: () -> R)
    ensures var failures := NonNull(v(request)) + NonNull(w(request));
            Handle([v, w], request, next) == (if failures == [] then Proceeded(next()) else Rejected(failures))
  {
    var results := RunAll([v, w], request);
    assert results == [v(request)] + [w(request)];
    CollectConcatenates([v(request)], [w(request)]);
    assert Collect([v(request)]) == NonNull(v(request)) + Collect([]);
    assert Collect([w(request)]) == NonNull(w(request)) + Collect([]);
  }

  lemma {:induction false} NonNullOfPresent(failures: seq<ValidationFailure>)
    ensures NonNull(seq(|failures|, i requires 0 <= i < |failures| => Some(failures[i]))) == failures
  {
    var wrapped := seq(|failures|, i requires 0 <= i < |failures| => Some(failures[i]));
    if failures != [] {
      assert wrapped[1..] == seq(|failures[1..]|, i requires 0 <= i < |failures[1..]| => Some(failures[1..][i]));
      NonNullOfPresent(failures[1..]);
    }
  }
}
