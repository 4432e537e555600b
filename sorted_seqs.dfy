/** Strictly increasing sequences of integers, and the order-preserving
    filters used to say which elements a range operation keeps. */
module SortedSeqs {

  /** Sorted and duplicate-free: every element is below every later one. */
  predicate StrictlyIncreasing(s: seq<int>) {
    forall i, j :: 0 <= i < j < |s| ==> s[i] < s[j]
  }

  /** The tests a filter applies: below a bound, above a bound, outside the
      closed range [lo, hi], inside the half-open range [lo, hi). */
  function Below(bound: int): int -> bool { x => x < bound }
  function Above(bound: int): int -> bool { x => x > bound }
  function Outside(lo: int, hi: int): int -> bool { x => !(lo <= x <= hi) }
  function HalfOpen(lo: int, hi: int): int -> bool { x => lo <= x < hi }

  /** The elements of `s` that pass `keep`, in their original order. */
  function Filter(s: seq<int>, keep: int -> bool): (r: seq<int>)
    ensures |r| <= |s|
  {
    if s == [] then []
    else (if keep(s[0]) then [s[0]] else []) + Filter(s[1..], keep)
  }

  /** The filtered sequence holds exactly the elements that pass. */
  lemma {:induction false} FilterElements(s: seq<int>, keep: int -> bool)
    ensures forall x :: x in Filter(s, keep) <==> x in s && keep(x)
  {
    if s != [] {
      FilterElements(s[1..], keep);
      assert s == [s[0]] + s[1..];
    }
  }

  lemma {:induction false} FilterAppend(a: seq<int>, b: seq<int>, keep: int -> bool)
    ensures Filter(a + b, keep) == Filter(a, keep) + Filter(b, keep)
  {
    if a == [] {
      assert a + b == b;
    } else {
      var head := if keep(a[0]) then [a[0]] else [];
      assert (a + b)[0] == a[0];
      assert (a + b)[1..] == a[1..] + b;
      calc {
        Filter(a + b, keep);
        head + Filter(a[1..] + b, keep);
        { FilterAppend(a[1..], b, keep); }
        head + (Filter(a[1..], keep) + Filter(b, keep));
        (head + Filter(a[1..], keep)) + Filter(b, keep);
        Filter(a, keep) + Filter(b, keep);
      }
    }
  }

  lemma {:induction false} FilterAll(s: seq<int>, keep: int -> bool)
    requires forall i :: 0 <= i < |s| ==> keep(s[i])
    ensures Filter(s, keep) == s
  {
    if s != [] {
      FilterAll(s[1..], keep);
    }
  }

  lemma {:induction false} FilterNone(s: seq<int>, keep: int -> bool)
    requires forall i :: 0 <= i < |s| ==> !keep(s[i])
    ensures Filter(s, keep) == []
  {
    if s != [] {
      FilterNone(s[1..], keep);
    }
  }

  /** A filter that rejects exactly the band `s[p..q]` cuts that band out. */
  lemma {:induction false} FilterOutsideBand(s: seq<int>, keep: int -> bool, p: nat, q: nat)
    requires p <= q <= |s|
    requires forall i :: 0 <= i < p ==> keep(s[i])
    requires forall i :: p <= i < q ==> !keep(s[i])
    requires forall i :: q <= i < |s| ==> keep(s[i])
    ensures Filter(s, keep) == s[..p] + s[q..]
  {
    var left, band, right := s[..p], s[p..q], s[q..];
    assert s == (left + band) + right;
    assert Filter(left, keep) == left by { FilterAll(left, keep); }
    assert Filter(band, keep) == [] by { FilterNone(band, keep); }
    assert Filter(right, keep) == right by { FilterAll(right, keep); }
    FilterAppend(left, band, keep);
    FilterAppend(left + band, right, keep);
  }

  /** A filter that keeps exactly the band `s[p..q]` yields that band. */
  lemma {:induction false} FilterInsideBand(s: seq<int>, keep: int -> bool, p: nat, q: nat)
    requires p <= q <= |s|
    requires forall i :: 0 <= i < p ==> !keep(s[i])
    requires forall i :: p <= i < q ==> keep(s[i])
    requires forall i :: q <= i < |s| ==> !keep(s[i])
    ensures Filter(s, keep) == s[p..q]
  {
    var left, band, right := s[..p], s[p..q], s[q..];
    assert s == (left + band) + right;
    assert Filter(left, keep) == [] by { FilterNone(left, keep); }
    assert Filter(band, keep) == band by { FilterAll(band, keep); }
    assert Filter(right, keep) == [] by { FilterNone(right, keep); }
    FilterAppend(left, band, keep);
    FilterAppend(left + band, right, keep);
  }

  /** Two sorted runs, the first wholly below the second, join into one. */
  lemma ConcatIncreasing(a: seq<int>, b: seq<int>)
    requires StrictlyIncreasing(a) && StrictlyIncreasing(b)
    requires forall x, y :: x in a && y in b ==> x < y
    ensures StrictlyIncreasing(a + b)
  {
    forall i, j | 0 <= i < j < |a + b| ensures (a + b)[i] < (a + b)[j] {
      if i < |a| <= j {
        assert (a + b)[i] in a && (a + b)[j] in b;
      }
    }
  }

  /** Filtering keeps a sequence strictly increasing. */
  lemma {:induction false} FilterIncreasing(s: seq<int>, keep: int -> bool)
    requires StrictlyIncreasing(s)
    ensures StrictlyIncreasing(Filter(s, keep))
  {
    if s != [] {
      FilterIncreasing(s[1..], keep);
      FilterElements(s[1..], keep);
      var head := if keep(s[0]) then [s[0]] else [];
      forall x, y | x in head && y in Filter(s[1..], keep) ensures x < y {
        var k :| 0 <= k < |s[1..]| && s[1..][k] == y;
        assert s[k + 1] == y;
      }
      ConcatIncreasing(head, Filter(s[1..], keep));
    }
  }

  /** A strictly increasing sequence is determined by its elements. */
  lemma {:induction false} SameElementsEqual(a: seq<int>, b: seq<int>)
    requires StrictlyIncreasing(a) && StrictlyIncreasing(b)
    requires forall x :: x in a <==> x in b
    ensures a == b
  {
    if a != [] {
      assert a[0] in a;
    }
    if b != [] {
      assert b[0] in b;
    }
    if a != [] && b != [] {
      assert a[0] in b && b[0] in a;
      assert a[0] == b[0];
      forall x ensures x in a[1..] <==> x in b[1..] {
        if x in a[1..] {
          assert x > a[0] && x in b;
        }
        if x in b[1..] {
          assert x > b[0] && x in a;
        }
      }
      SameElementsEqual(a[1..], b[1..]);
      assert a == [a[0]] + a[1..] && b == [b[0]] + b[1..];
    }
  }
}
