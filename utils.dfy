/** The two helpers the selection takes from the core utilities: an
    inclusive integer range and a lower-bound binary search. Only the way
    the selection calls them is known, so each is written to the contract
    that use implies. */
module Utils {
  import opened SortedSeqs

  /** The integers `lo`, `lo + 1`, ..., `hi`. */
  function Range(lo: int, hi: int): (r: seq<int>)
    requires lo <= hi
    decreases hi - lo
    ensures |r| == hi - lo + 1
    ensures forall i :: 0 <= i < |r| ==> r[i] == lo + i
  {
    if lo == hi then [hi] else [lo] + Range(lo + 1, hi)
  }

  /** A range is sorted and holds exactly the integers of [lo, hi]. */
  lemma RangeElements(lo: int, hi: int)
    requires lo <= hi
    ensures StrictlyIncreasing(Range(lo, hi))
    ensures forall x :: x in Range(lo, hi) <==> lo <= x <= hi
  {
    var r := Range(lo, hi);
    forall x | lo <= x <= hi ensures x in r {
      assert r[x - lo] == x;
    }
  }

  /** The insertion point for `x` in the sorted `s`, searching from `start`:
      the first position `p >= start` where `p == |s|` or `s[p] >= x`, found by
      bisection. */
  method LowerBound(s: seq<int>, x: int, start: nat) returns (p: nat)
    requires StrictlyIncreasing(s)
    requires start <= |s|
    ensures start <= p <= |s|
    ensures forall i :: start <= i < p ==> s[i] < x
    ensures forall i :: p <= i < |s| ==> s[i] >= x
  {
    var low, high := start, |s|;
    while low < high
      invariant start <= low <= high <= |s|
      invariant forall i :: start <= i < low ==> s[i] < x
      invariant forall i :: high <= i < |s| ==> s[i] >= x
    {
      var mid := (low + high) / 2;
      if s[mid] < x {
        low := mid + 1;
      } else {
        high := mid;
      }
    }
    p := low;
  }

  /** The position `LowerBound` returns is `start` plus the number of
      elements of `s[start..]` below `x`. */
  lemma LowerBoundCounts(s: seq<int>, x: int, start: nat, p: nat)
    requires start <= p <= |s|
    requires forall i :: start <= i < p ==> s[i] < x
    requires forall i :: p <= i < |s| ==> s[i] >= x
    ensures p - start == |Filter(s[start..], Below(x))|
  {
    FilterOutsideBand(s[start..], Below(x), p - start, |s| - start);
  }
}
