/** The selection of a data list: a strictly increasing sequence of selected
    row positions, changed one closed range at a time, announcing every
    change as an update event. */
module Selection {
  import opened SortedSeqs
  import opened Utils

  /** An argument that may be missing; a missing sequence stands for []. */
  datatype Option<T> = None | Some(value: T)

  function OrEmpty(o: Option<seq<int>>): seq<int> {
    if o.Some? then o.value else []
  }

  datatype Action = Add | Remove

  /** The update event: what was done, to the range [lo, hi] of the call. */
  datatype Event = Update(action: Action, lo: int, hi: int)

  /** The one event naming the first and last elements of `s`; none for []. */
  function BoundsEvents(action: Action, s: seq<int>): seq<Event> {
    if s == [] then [] else [Update(action, s[0], s[|s| - 1])]
  }

  /** What adding [lo, hi] to a sorted sequence should leave: the elements
      below `lo`, then every integer of the range, then the elements above `hi`. */
  function Added(s: seq<int>, lo: int, hi: int): seq<int>
    requires lo <= hi
  {
    Filter(s, Below(lo)) + Range(lo, hi) + Filter(s, Above(hi))
  }

  /** Adding a range keeps the sequence sorted and yields exactly the old
      elements outside the range together with the whole range. */
  lemma AddedElements(s: seq<int>, lo: int, hi: int)
    requires StrictlyIncreasing(s) && lo <= hi
    ensures StrictlyIncreasing(Added(s, lo, hi))
    ensures forall x :: x in Added(s, lo, hi) <==> (x in s && !(lo <= x <= hi)) || lo <= x <= hi
  {
    var below, range, above := Filter(s, Below(lo)), Range(lo, hi), Filter(s, Above(hi));
    FilterIncreasing(s, Below(lo));
    FilterIncreasing(s, Above(hi));
    FilterElements(s, Below(lo));
    FilterElements(s, Above(hi));
    RangeElements(lo, hi);
    ConcatIncreasing(below, range);
    ConcatIncreasing(below + range, above);
    assert Added(s, lo, hi) == below + range + above;
  }

  /** Adding the same range twice leaves what adding it once does. */
  lemma AddedIdempotent(s: seq<int>, lo: int, hi: int)
    requires StrictlyIncreasing(s) && lo <= hi
    ensures Added(Added(s, lo, hi), lo, hi) == Added(s, lo, hi)
  {
    AddedElements(s, lo, hi);
    AddedElements(Added(s, lo, hi), lo, hi);
    SameElementsEqual(Added(Added(s, lo, hi), lo, hi), Added(s, lo, hi));
  }

  /** Removing a range just added leaves what removing it alone does. */
  lemma RemovedAfterAdded(s: seq<int>, lo: int, hi: int)
    requires StrictlyIncreasing(s) && lo <= hi
    ensures Filter(Added(s, lo, hi), Outside(lo, hi)) == Filter(s, Outside(lo, hi))
  {
    AddedElements(s, lo, hi);
    FilterIncreasing(Added(s, lo, hi), Outside(lo, hi));
    FilterIncreasing(s, Outside(lo, hi));
    FilterElements(Added(s, lo, hi), Outside(lo, hi));
    FilterElements(s, Outside(lo, hi));
    SameElementsEqual(Filter(Added(s, lo, hi), Outside(lo, hi)), Filter(s, Outside(lo, hi)));
  }

  /** Adding a range just removed leaves what adding it alone does. */
  lemma AddedAfterRemoved(s: seq<int>, lo: int, hi: int)
    requires StrictlyIncreasing(s) && lo <= hi
    ensures Added(Filter(s, Outside(lo, hi)), lo, hi) == Added(s, lo, hi)
  {
    FilterIncreasing(s, Outside(lo, hi));
    FilterElements(s, Outside(lo, hi));
    AddedElements(Filter(s, Outside(lo, hi)), lo, hi);
    AddedElements(s, lo, hi);
    SameElementsEqual(Added(Filter(s, Outside(lo, hi)), lo, hi), Added(s, lo, hi));
  }

  /** Toggling one position twice restores the sequence. */
  lemma ToggleTwice(s: seq<int>, i: int)
    requires StrictlyIncreasing(s)
    ensures i !in s ==> Filter(Added(s, i, i), Outside(i, i)) == s
    ensures i in s ==> Added(Filter(s, Outside(i, i)), i, i) == s
  {
    FilterIncreasing(s, Outside(i, i));
    FilterElements(s, Outside(i, i));
    if i in s {
      AddedAfterRemoved(s, i, i);
      AddedElements(s, i, i);
      SameElementsEqual(Added(s, i, i), s);
    } else {
      RemovedAfterAdded(s, i, i);
      SameElementsEqual(Filter(s, Outside(i, i)), s);
    }
  }

  /** At splice boundaries of a sorted sequence, putting a run in place of
      the band between them keeps the elements below `lo`, then the run, then
      the elements above `hi`. */
  lemma SpliceAdds(s: seq<int>, lo: int, hi: int, run: seq<int>, fromPos: nat, toPos: nat)
    requires lo <= hi
    requires fromPos <= toPos <= |s|
    requires forall i :: 0 <= i < fromPos ==> s[i] < lo
    requires forall i :: fromPos <= i < toPos ==> lo <= s[i] <= hi
    requires forall i :: toPos <= i < |s| ==> s[i] > hi
    ensures s[..fromPos] + run + s[toPos..] == Filter(s, Below(lo)) + run + Filter(s, Above(hi))
  {
    assert Filter(s, Below(lo)) == s[..fromPos] by {
      FilterOutsideBand(s, Below(lo), fromPos, |s|);
      assert s[..fromPos] + s[|s|..] == s[..fromPos];
    }
    assert Filter(s, Above(hi)) == s[toPos..] by {
      FilterOutsideBand(s, Above(hi), 0, toPos);
      assert s[..0] + s[toPos..] == s[toPos..];
    }
  }

  /** At splice boundaries, cutting out the band between them is removing
      the range. */
  lemma SpliceRemoves(s: seq<int>, lo: int, hi: int, fromPos: nat, toPos: nat)
    requires fromPos <= toPos <= |s|
    requires forall i :: 0 <= i < fromPos ==> s[i] < lo
    requires forall i :: fromPos <= i < toPos ==> lo <= s[i] <= hi
    requires forall i :: toPos <= i < |s| ==> s[i] > hi
    ensures s[..fromPos] + s[toPos..] == Filter(s, Outside(lo, hi))
  {
    FilterOutsideBand(s, Outside(lo, hi), fromPos, toPos);
  }

  /** Replaces the part of the sorted `indexes` that lies in [lo, hi] by
      `range`. Two lower-bound searches locate the part, the second starting
      where the first stopped; as the searches give insertion points, an
      element equal to `hi` is then taken into the part. */
  method SpliceRange(indexes: seq<int>, lo: int, hi: int, range: seq<int>)
    returns (r: seq<int>, ghost fromPos: nat, ghost toPos: nat)
    requires StrictlyIncreasing(indexes)
    ensures fromPos <= toPos <= |indexes|
    ensures forall i :: 0 <= i < fromPos ==> indexes[i] < lo
    ensures forall i :: fromPos <= i < toPos ==> lo <= indexes[i] <= hi
    ensures forall i :: toPos <= i < |indexes| ==> indexes[i] > hi
    ensures r == indexes[..fromPos] + range + indexes[toPos..]
    ensures lo <= hi ==> r == Filter(indexes, Below(lo)) + range + Filter(indexes, Above(hi))
    ensures range == [] ==> r == Filter(indexes, Outside(lo, hi))
  {
    var f := LowerBound(indexes, lo, 0);
    var t := LowerBound(indexes, hi, f);
    if t < |indexes| && indexes[t] == hi {
      t := t + 1;
    }
    r := indexes[..f] + range + indexes[t..];
    fromPos, toPos := f, t;
    if lo <= hi {
      SpliceAdds(indexes, lo, hi, range, f, t);
    }
    if range == [] {
      SpliceRemoves(indexes, lo, hi, f, t);
      assert r == indexes[..f] + indexes[t..];
    }
  }

  class SelectionSet {
    /** The selected positions, kept strictly increasing. */
    var indexes: seq<int>
    /** Every update event triggered so far, oldest first. */
    ghost var events: seq<Event>

    ghost predicate Valid()
      reads this
    {
      StrictlyIncreasing(indexes)
    }

    constructor (init: Option<seq<int>>)
      requires StrictlyIncreasing(OrEmpty(init))
      ensures Valid() && indexes == OrEmpty(init) && events == []
    {
      indexes := OrEmpty(init);
      events := [];
    }

    /** Bulk replacement: clears the old selection, then installs the new one
        and announces its bounds. */
    method SetIndexes(newIndexes: Option<seq<int>>)
      requires StrictlyIncreasing(OrEmpty(newIndexes))
      modifies this
      ensures Valid() && indexes == OrEmpty(newIndexes)
      ensures events == old(events) + BoundsEvents(Remove, old(indexes)) + BoundsEvents(Add, indexes)
    {
      Clear();
      indexes := OrEmpty(newIndexes);
      var s := OrEmpty(newIndexes);
      if |indexes| > 0 {
        TriggerUpdate(false, s[0], s[|s| - 1]);
      }
    }

    /** The primary index: the smallest selected position, or -1 if none. */
    function Index(): (r: int)
      reads this
      requires Valid()
      ensures indexes == [] ==> r == -1
      ensures indexes != [] ==> r in indexes && forall x :: x in indexes ==> r <= x
    {
      if |indexes| > 0 then indexes[0] else -1
    }

    /** Makes `value` the only selected position; a negative one clears. */
    method SetIndex(value: int)
      modifies this
      ensures Valid() && indexes == (if value < 0 then [] else [value])
      ensures events == old(events) + BoundsEvents(Remove, old(indexes))
                        + (if value < 0 then [] else [Update(Add, value, value)])
    {
      SetIndexes(Some(if value < 0 then [] else [value]));
    }

    function IsEmpty(): (r: bool)
      reads this
      ensures r <==> indexes == []
    {
      |indexes| == 0
    }

    /** Selects every position of [lo, hi], keeping the others, and announces
        the call, whether or not anything changed. */
    method AddRange(lo: int, hi: int)
      requires Valid() && lo <= hi
      modifies this
      ensures Valid()
      ensures indexes == Added(old(indexes), lo, hi)
      ensures forall x :: x in indexes <==> (x in old(indexes) && !(lo <= x <= hi)) || lo <= x <= hi
      ensures events == old(events) + [Update(Add, lo, hi)]
    {
      ghost var s := indexes;
      var r;
      ghost var fromPos, toPos;
      r, fromPos, toPos := SpliceRange(indexes, lo, hi, Range(lo, hi));
      AddedElements(s, lo, hi);
      indexes := r;
      TriggerUpdate(false, lo, hi);
    }

    /** Deselects every position of [lo, hi], keeping the others in order,
        and announces the call, whether or not anything changed. */
    method RemoveRange(lo: int, hi: int)
      requires Valid()
      modifies this
      ensures Valid()
      ensures indexes == Filter(old(indexes), Outside(lo, hi))
      ensures events == old(events) + [Update(Remove, lo, hi)]
    {
      ghost var s := indexes;
      var r;
      ghost var fromPos, toPos;
      r, fromPos, toPos := SpliceRange(indexes, lo, hi, []);
      FilterIncreasing(s, Outside(lo, hi));
      indexes := r;
      TriggerUpdate(true, lo, hi);
    }

    /** The selected positions in the half-open range [lo, hi): the second
        search gives an insertion point and no element equal to `hi` is
        taken. The result is a contiguous run of the selection. */
    method SelectedInRange(lo: int, hi: int) returns (r: seq<int>)
      requires Valid()
      ensures r == Filter(indexes, HalfOpen(lo, hi))
      ensures StrictlyIncreasing(r)
      ensures exists i, j :: 0 <= i <= j <= |indexes| && r == indexes[i..j]
    {
      var fromPos := LowerBound(indexes, lo, 0);
      var toPos := LowerBound(indexes, hi, fromPos);
      r := indexes[fromPos..toPos];
      FilterInsideBand(indexes, HalfOpen(lo, hi), fromPos, toPos);
    }

    method IsSelected(index: int) returns (b: bool)
      requires Valid()
      ensures b <==> index in indexes
    {
      var pos := LowerBound(indexes, index, 0);
      b := pos < |indexes| && indexes[pos] == index;
    }

    /** Deselects `index` if it is selected and selects it otherwise. */
    method Toggle(index: int)
      requires Valid()
      modifies this
      ensures Valid()
      ensures forall x :: x in indexes <==>
                if x == index then index !in old(indexes) else x in old(indexes)
      ensures events == old(events) + [Update(if index in old(indexes) then Remove else Add, index, index)]
    {
      var selected := IsSelected(index);
      if selected {
        FilterElements(indexes, Outside(index, index));
        RemoveRange(index, index);
      } else {
        AddRange(index, index);
      }
    }

    /** Empties the selection, first announcing its bounds if it had any. */
    method Clear()
      modifies this
      ensures Valid() && indexes == []
      ensures events == old(events) + BoundsEvents(Remove, old(indexes))
    {
      if |indexes| > 0 {
        TriggerUpdate(true, indexes[0], indexes[|indexes| - 1]);
      }
      indexes := [];
    }

    /** Stands for triggering the update event to the listeners. */
    method TriggerUpdate(isRemove: bool, lo: int, hi: int)
      modifies this`events
      ensures events == old(events) + [Update(if isRemove then Remove else Add, lo, hi)]
    {
      events := events + [Update(if isRemove then Remove else Add, lo, hi)];
    }
  }
}
