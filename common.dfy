/** Small generic helpers shared by the model: optional values, results, and the
    two query shapes the handlers use on a table held as a sequence — keeping the
    rows that satisfy a condition (an ORM `filter`) and taking the first such row
    (`filter(...).first()`, read here as the first in sequence order). */
module Common {

  datatype Option<+T> = None | Some(value: T)

  datatype Result<+T, +E> = Success(value: T) | Failure(error: E)

  /** The rows of `s` that satisfy `p`, in their original order: each matching row is
      kept as often as it occurs in `s`, and no other row is kept. */
  function Filter<T>(s: seq<T>, p: T -> bool): (r: seq<T>)
    ensures |r| <= |s|
    ensures forall x :: x in r ==> x in s && p(x)
    ensures forall x :: x in s && p(x) ==> x in r
    ensures multiset(r) <= multiset(s)
    ensures forall x :: x in s ==> multiset(r)[x] == if p(x) then multiset(s)[x] else 0
  {
    if |s| == 0 then []
    else
      var n := |s| - 1;
      assert s == s[..n] + [s[n]];
      var init := Filter(s[..n], p);
      if p(s[n]) then init + [s[n]] else init
  }

  /** The positions of `s` whose row satisfies `p`: an independent way of counting matches. */
  function MatchingIndices<T>(s: seq<T>, p: T -> bool): set<nat>
  {
    set i: nat | i < |s| && p(s[i])
  }

  /** Removing the last row removes at most its own position from the matches. */
  lemma MatchingIndicesInit<T>(s: seq<T>, p: T -> bool)
    requires |s| > 0
    ensures |MatchingIndices(s, p)| == |MatchingIndices(s[..|s| - 1], p)| + (if p(s[|s| - 1]) then 1 else 0)
  {
    var n := |s| - 1;
    var init := s[..n];
    var all, before := MatchingIndices(s, p), MatchingIndices(init, p);
    forall i | i in all && i < n ensures i in before { assert init[i] == s[i]; }
    forall i | i in before ensures i in all && i < n { assert init[i] == s[i]; }
    assert n !in before;
    if p(s[n]) {
      assert all == before + {n};
    } else {
      assert all == before;
    }
  }

  /** Counting the filtered rows is counting the matching positions (so duplicates count
      once per row, as a database `count()` does). */
  lemma {:induction false} FilterCountsMatches<T>(s: seq<T>, p: T -> bool)
    ensures |Filter(s, p)| == |MatchingIndices(s, p)|
  {
    if |s| > 0 {
      FilterCountsMatches(s[..|s| - 1], p);
      MatchingIndicesInit(s, p);
    }
  }

  /** The first position of `s` whose row satisfies `p`, if there is one. */
  function FirstIndex<T>(s: seq<T>, p: T -> bool): (r: Option<nat>)
    ensures r.Some? ==> r.value < |s| && p(s[r.value])
    ensures r.Some? ==> forall j :: 0 <= j < r.value ==> !p(s[j])
    ensures r.None? ==> forall j :: 0 <= j < |s| ==> !p(s[j])
  {
    if |s| == 0 then None
    else if p(s[0]) then Some(0)
    else
      match FirstIndex(s[1..], p)
      case None => None
      case Some(i) => Some(i + 1)
  }
}
