/**
 * Sets of list indices, shared by the initial draw of the centroids and by
 * the split into inliers and outliers.
 */
module Indices {

  /** The indices below `n`: Python's `range(n)` as a set. */
  function Range(n: nat): (r: set<nat>)
    ensures forall i: nat :: i in r <==> i < n
  {
    if n == 0 then {} else Range(n - 1) + {n - 1}
  }

  /** The elements of an index list, as a set. */
  function Elements(s: seq<nat>): set<nat>
  {
    set x | x in s
  }

  /** No index occurs twice in `s`. */
  predicate Distinct(s: seq<nat>)
  {
    forall i, j :: 0 <= i < j < |s| ==> s[i] != s[j]
  }

  lemma {:induction false} RangeSize(n: nat)
    ensures |Range(n)| == n
  {
    if n > 0 {
      RangeSize(n - 1);
      assert Range(n) == Range(n - 1) + {n - 1};
    }
  }

  /** A list without repetitions has as many elements as its length. */
  lemma {:induction false} DistinctElements(s: seq<nat>)
    requires Distinct(s)
    ensures |Elements(s)| == |s|
  {
    if s != [] {
      var init := s[..|s| - 1];
      DistinctElements(init);
      assert Elements(s) == Elements(init) + {s[|s| - 1]};
      assert s[|s| - 1] !in Elements(init);
    }
  }

  /**
   * Pigeonhole: `n` distinct indices below `n` are all of the indices below
   * `n`.
   */
  lemma DistinctIndicesCoverRange(s: seq<nat>, n: nat)
    requires Distinct(s) && |s| == n
    requires forall x :: x in s ==> x < n
    ensures Elements(s) == Range(n)
  {
    var e, r := Elements(s), Range(n);
    DistinctElements(s);
    RangeSize(n);
    assert e <= r;
    assert r == e + (r - e);
    assert |r - e| == 0;
  }
}
