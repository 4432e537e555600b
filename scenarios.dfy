/** Clients of the selection that replay its documented behaviour. Each
    method proves, from the contracts alone, what a caller observes. */
module Scenarios {
  import opened SortedSeqs
  import opened Utils
  import opened Selection

  lemma RangeExample()
    ensures Range(4, 9) == [4, 5, 6, 7, 8, 9]
  {
  }

  /** Adding [4, 9] to 3 4 5 9 10 yields 3 up to 10. */
  lemma OverlapExample()
    ensures Added([3, 4, 5, 9, 10], 4, 9) == [3, 4, 5, 6, 7, 8, 9, 10]
  {
    var s := [3, 4, 5, 9, 10];
    calc {
      Added(s, 4, 9);
      Filter(s, Below(4)) + Range(4, 9) + Filter(s, Above(9));
      { assert Filter(s, Below(4)) == [3]; }
      [3] + Range(4, 9) + Filter(s, Above(9));
      { assert Filter(s, Above(9)) == [10]; }
      [3] + Range(4, 9) + [10];
      { RangeExample(); }
      [3] + [4, 5, 6, 7, 8, 9] + [10];
    }
  }

  /** Adding [1, 3] to 1 2 3 changes nothing. */
  lemma RefillExample()
    ensures Added([1, 2, 3], 1, 3) == [1, 2, 3]
  {
    var s := [1, 2, 3];
    calc {
      Added(s, 1, 3);
      Filter(s, Below(1)) + Range(1, 3) + Filter(s, Above(3));
      { assert Filter(s, Below(1)) == []; }
      Range(1, 3) + Filter(s, Above(3));
      { assert Filter(s, Above(3)) == []; }
      Range(1, 3);
      { assert Range(1, 3) == [1, 2, 3]; }
      [1, 2, 3];
    }
  }

  /** Removing [2, 4] from 1 2 3 4 5 leaves 1 5. */
  lemma RemovalExample()
    ensures Filter([1, 2, 3, 4, 5], Outside(2, 4)) == [1, 5]
  {
  }

  /** Removing [7, 9] from 1 2 3 changes nothing. */
  lemma MissExample()
    ensures Filter([1, 2, 3], Outside(7, 9)) == [1, 2, 3]
  {
  }

  /** The selected elements of 1 3 5 in [1, 5) are 1 3. */
  lemma QueryExample()
    ensures Filter([1, 3, 5], HalfOpen(1, 5)) == [1, 3]
  {
  }

  /** Adding [4, 9] to 3 4 5 9 10 fills the gap and keeps the rest. */
  method PartialOverlap() {
    var sel := new SelectionSet(Some([3, 4, 5, 9, 10]));
    sel.AddRange(4, 9);
    OverlapExample();
    assert sel.indexes == [3, 4, 5, 6, 7, 8, 9, 10];
    assert sel.events == [Update(Add, 4, 9)];
  }

  /** Removing [2, 4] from 1 2 3 4 5 leaves 1 5. */
  method PartialRemoval() {
    var sel := new SelectionSet(Some([1, 2, 3, 4, 5]));
    sel.RemoveRange(2, 4);
    RemovalExample();
    assert sel.indexes == [1, 5];
    assert sel.events == [Update(Remove, 2, 4)];
  }

  /** Starting empty, adding and then removing [5, 10] leaves it empty. */
  method AddThenRemove() {
    var sel := new SelectionSet(None);
    sel.AddRange(5, 10);
    RemovedAfterAdded([], 5, 10);
    sel.RemoveRange(5, 10);
    assert sel.indexes == [];
    assert sel.events == [Update(Add, 5, 10), Update(Remove, 5, 10)];
  }

  /** A call that changes nothing still announces itself. */
  method NoOpStillAnnounces() {
    var sel := new SelectionSet(Some([1, 2, 3]));
    sel.AddRange(1, 3);
    RefillExample();
    sel.RemoveRange(7, 9);
    MissExample();
    assert sel.indexes == [1, 2, 3];
    assert sel.events == [Update(Add, 1, 3), Update(Remove, 7, 9)];
  }

  /** Toggling an unselected position selects it, toggling again restores
      the selection; each toggle announces one event for that position. */
  method ToggleSymmetry(sel: SelectionSet, i: int)
    requires sel.Valid() && i !in sel.indexes
    modifies sel
  {
    ghost var before, log := sel.indexes, sel.events;
    sel.Toggle(i);
    assert i in sel.indexes;
    assert sel.events == log + [Update(Add, i, i)];
    sel.Toggle(i);
    assert i !in sel.indexes;
    assert sel.events == log + [Update(Add, i, i), Update(Remove, i, i)];
    SameElementsEqual(sel.indexes, before);
    assert sel.indexes == before;
  }

  /** The primary index of an empty selection is -1; setting it to 7 makes
      7 the only selected position; setting it to -1 empties it. */
  method PrimaryIndex() {
    var sel := new SelectionSet(None);
    assert sel.Index() == -1;
    sel.SetIndex(7);
    assert sel.Index() == 7 && sel.indexes == [7];
    sel.SetIndex(-1);
    assert sel.IsEmpty();
    assert sel.events == [Update(Add, 7, 7), Update(Remove, 7, 7)];
  }

  /** Clearing 2 9 announces its bounds; clearing again announces nothing. */
  method ClearBounds() {
    var sel := new SelectionSet(Some([2, 9]));
    sel.Clear();
    assert sel.indexes == [] && sel.events == [Update(Remove, 2, 9)];
    sel.Clear();
    assert sel.events == [Update(Remove, 2, 9)];
  }

  /** The range query leaves out an element equal to its upper bound. */
  method QueryExcludesUpperBound() {
    var sel := new SelectionSet(Some([1, 3, 5]));
    var r := sel.SelectedInRange(1, 5);
    QueryExample();
    assert r == [1, 3];
    var yes := sel.IsSelected(3);
    var no := sel.IsSelected(4);
    assert yes && !no;
    assert sel.indexes == [1, 3, 5] && sel.events == [];
  }
}
