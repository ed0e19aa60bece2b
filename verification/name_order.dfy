/**
 * Ordering the country list by name: a stable sort under the default string
 * comparer. The comparer is culture-sensitive, so it is a parameter here:
 * `le(a, b)` holds when `a` sorts no later than `b`. The sort is an insertion
 * sort that places each element before every element it does not follow, which
 * is what makes it stable.
 */
module NameOrder {
  import opened Domain

  /** A comparer the sort can rely on: total and transitive. */
  ghost predicate TotalPreorder(le: (string, string) -> bool) {
    && (forall a, b :: le(a, b) || le(b, a))
    && (forall a, b, c :: le(a, b) && le(b, c) ==> le(a, c))
  }

  /** The comparer reports the two names as equal. */
  predicate SameRank(le: (string, string) -> bool, a: string, b: string) {
    le(a, b) && le(b, a)
  }

  ghost predicate SortedByName(xs: seq<Country>, le: (string, string) -> bool) {
    forall i, j :: 0 <= i < j < |xs| ==> le(xs[i].name, xs[j].name)
  }

  /** Inserts `x` before the first element it sorts no later than. */
  function InsertByName(x: Country, xs: seq<Country>, le: (string, string) -> bool): (r: seq<Country>)
    ensures multiset(r) == multiset(xs) + multiset{x}
  {
    if xs == [] then [x]
    else if le(x.name, xs[0].name) then [x] + xs
    else
      assert xs == [xs[0]] + xs[1..];
      [xs[0]] + InsertByName(x, xs[1..], le)
  }

  /** The stable sort by name. */
  function SortByName(xs: seq<Country>, le: (string, string) -> bool): (r: seq<Country>)
    ensures multiset(r) == multiset(xs)
    ensures |r| == |xs|
  {
    if xs == [] then []
    else
      assert xs == [xs[0]] + xs[1..];
      InsertByName(xs[0], SortByName(xs[1..], le), le)
  }

  /** The elements whose name ranks the same as `n`, in their order in `xs`. */
  function SameRankAs(xs: seq<Country>, le: (string, string) -> bool, n: string): seq<Country> {
    if xs == [] then []
    else (if SameRank(le, xs[0].name, n) then [xs[0]] else []) + SameRankAs(xs[1..], le, n)
  }

  /** A country that sorts no later than every element of a sorted list may go in front of it. */
  lemma ConsKeepsSorted(y: Country, ys: seq<Country>, le: (string, string) -> bool)
    requires SortedByName(ys, le)
    requires forall j :: 0 <= j < |ys| ==> le(y.name, ys[j].name)
    ensures SortedByName([y] + ys, le)
  {
    var r := [y] + ys;
    forall i, j | 0 <= i < j < |r| ensures le(r[i].name, r[j].name) {
      assert r[j] == ys[j - 1];
      if i > 0 {
        assert r[i] == ys[i - 1];
      }
    }
  }

  /** Every element of an insertion result is the inserted one or came from the list. */
  lemma InsertedFrom(x: Country, xs: seq<Country>, le: (string, string) -> bool, j: int)
    requires 0 <= j < |InsertByName(x, xs, le)|
    ensures InsertByName(x, xs, le)[j] == x || InsertByName(x, xs, le)[j] in xs
  {
    var r := InsertByName(x, xs, le);
    assert r[j] in multiset(r);
  }

  lemma {:induction false} InsertKeepsSorted(x: Country, xs: seq<Country>, le: (string, string) -> bool)
    requires TotalPreorder(le)
    requires SortedByName(xs, le)
    ensures SortedByName(InsertByName(x, xs, le), le)
  {
    if xs == [] {
    } else if le(x.name, xs[0].name) {
      forall j | 0 <= j < |xs| ensures le(x.name, xs[j].name) {
        if j > 0 {
          assert le(xs[0].name, xs[j].name);
        }
      }
      ConsKeepsSorted(x, xs, le);
    } else {
      InsertKeepsSorted(x, xs[1..], le);
      var tail := InsertByName(x, xs[1..], le);
      forall j | 0 <= j < |tail| ensures le(xs[0].name, tail[j].name) {
        InsertedFrom(x, xs[1..], le, j);
        if tail[j] != x {
          var k :| 0 <= k < |xs[1..]| && xs[1..][k] == tail[j];
          assert xs[k + 1] == tail[j];
        }
      }
      ConsKeepsSorted(xs[0], tail, le);
    }
  }

  /** The output of the sort is ordered by name. */
  lemma {:induction false} SortIsSorted(xs: seq<Country>, le: (string, string) -> bool)
    requires TotalPreorder(le)
    ensures SortedByName(SortByName(xs, le), le)
  {
    if xs != [] {
      SortIsSorted(xs[1..], le);
      InsertKeepsSorted(xs[0], SortByName(xs[1..], le), le);
    }
  }

  /** Names that rank the same as `n` sort no later than one another. */
  ghost predicate RankClosed(le: (string, string) -> bool, n: string) {
    forall a, b :: SameRank(le, a, n) && SameRank(le, b, n) ==> le(a, b)
  }

  lemma TotalPreorderIsRankClosed(le: (string, string) -> bool, n: string)
    requires TotalPreorder(le)
    ensures RankClosed(le, n)
  {
  }

  /** Passing over a head that does not rank with an inserted element keeps the rank order. */
  lemma RankOrderPastHead(x: Country, y: Country, tail: seq<Country>, rest: seq<Country>,
                          le: (string, string) -> bool, n: string)
    requires RankClosed(le, n)
    requires !le(x.name, y.name)
    requires SameRankAs(tail, le, n) == (if SameRank(le, x.name, n) then [x] else []) + SameRankAs(rest, le, n)
    ensures SameRankAs([y] + tail, le, n)
            == (if SameRank(le, x.name, n) then [x] else []) + SameRankAs([y] + rest, le, n)
  {
    assert ([y] + tail)[1..] == tail;
    assert ([y] + rest)[1..] == rest;
    if SameRank(le, x.name, n) {
      // Otherwise x would sort no later than y.
      assert !SameRank(le, y.name, n);
    }
  }

  /** Inserting places the new element ahead of those already ranked with it. */
  lemma {:induction false} InsertKeepsRankOrder(x: Country, xs: seq<Country>, le: (string, string) -> bool, n: string)
    requires RankClosed(le, n)
    ensures SameRankAs(InsertByName(x, xs, le), le, n)
            == (if SameRank(le, x.name, n) then [x] else []) + SameRankAs(xs, le, n)
  {
    if xs == [] {
    } else if le(x.name, xs[0].name) {
      assert ([x] + xs)[1..] == xs;
    } else {
      InsertKeepsRankOrder(x, xs[1..], le, n);
      RankOrderPastHead(x, xs[0], InsertByName(x, xs[1..], le), xs[1..], le, n);
      assert [xs[0]] + xs[1..] == xs;
    }
  }

  /** Stability: names that rank the same keep their input order. */
  lemma {:induction false} SortIsStable(xs: seq<Country>, le: (string, string) -> bool, n: string)
    requires TotalPreorder(le)
    ensures SameRankAs(SortByName(xs, le), le, n) == SameRankAs(xs, le, n)
  {
    if xs != [] {
      SortIsStable(xs[1..], le, n);
      TotalPreorderIsRankClosed(le, n);
      InsertKeepsRankOrder(xs[0], SortByName(xs[1..], le), le, n);
    }
  }
}
