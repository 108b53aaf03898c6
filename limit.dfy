/**
 * The result limiter `limit`: caps how many items of a result sequence a
 * consumer receives. An absent cap or a cap of zero means "no cap"; a
 * positive cap keeps that many leading items; a negative cap is rejected.
 */
module Limiting {
  import opened Wrappers
  import opened Approaches
  import opened Filters

  /** The exception `itertools.islice` raises for a negative stop (Python's ValueError). */
  datatype LimitError = NegativeCount

  function Min(x: int, y: int): int
  {
    if x <= y then x else y
  }

  /**
   * `limit(items, n)`: `items` itself when `n` is `None` or zero, otherwise
   * `n` is handed to `islice`, which yields the first `n` items (all of them
   * when there are fewer) and refuses a negative `n`.
   */
  function Limit<T>(items: seq<T>, n: Option<int>): (r: Result<seq<T>, LimitError>)
    ensures r.Failure? <==> n.Some? && n.value < 0
    ensures r.Success? && (n.None? || n.value == 0) ==> r.value == items
    ensures r.Success? ==> r.value <= items
    ensures r.Success? && n.Some? && n.value > 0 ==> |r.value| == Min(n.value, |items|)
  {
    if n.None? || n.value == 0 then Success(items)
    else if n.value < 0 then Failure(NegativeCount)
    else Success(items[..Min(n.value, |items|)])
  }

  /** Zero means "unlimited", not "empty": a cap of zero keeps every item of a non-empty sequence. */
  lemma ZeroIsNotEmpty<T>(items: seq<T>)
    requires items != []
    ensures Limit(items, Some(0)) != Success([])
    ensures Limit(items, Some(0)) == Limit(items, None)
  {
  }

  /** A cap at least as large as the sequence changes nothing. */
  lemma LargeCapKeepsAll<T>(items: seq<T>, n: int)
    requires n >= |items|
    ensures Limit(items, Some(n)) == Success(items)
  {
    assert items[..|items|] == items;
  }

  /**
   * The kept items are the leading items in their original order: item `i`
   * of the result is item `i` of the input.
   */
  lemma LimitKeepsOrder<T>(items: seq<T>, n: int, i: int)
    requires n > 0 && 0 <= i < Min(n, |items|)
    ensures Limit(items, Some(n)).Success?
    ensures i < |Limit(items, Some(n)).value| && Limit(items, Some(n)).value[i] == items[i]
  {
  }

  /** Capping twice with positive caps is capping once with the smaller cap. */
  lemma LimitTwice<T>(items: seq<T>, n: int, m: int)
    requires n > 0 && m > 0
    ensures Limit(items, Some(n)).Success?
    ensures Limit(Limit(items, Some(n)).value, Some(m)) == Limit(items, Some(Min(n, m)))
  {
    var once := Limit(items, Some(n)).value;
    assert once[..Min(m, |once|)] == items[..Min(Min(n, m), |items|)];
  }

  /** Limiting the matches of a query keeps only matches: every kept approach still passes all filters. */
  lemma LimitKeepsMatches(filters: seq<Filter>, matches: seq<CloseApproach>, n: Option<int>)
    requires forall i :: 0 <= i < |matches| ==> AcceptsAll(filters, matches[i])
    requires n.None? || n.value >= 0
    ensures Limit(matches, n).Success?
    ensures forall i :: 0 <= i < |Limit(matches, n).value| ==> AcceptsAll(filters, Limit(matches, n).value[i])
  {
    var kept := Limit(matches, n).value;
    forall i | 0 <= i < |kept|
      ensures AcceptsAll(filters, kept[i])
    {
      assert kept[i] == matches[i];
    }
  }
}
