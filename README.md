# Data-list selection: a verified model

This project models `Selection`, the index-selection set behind the data
list in `uki-fb/view/dataList/selection.js`. A selection holds one piece of
state: the array of selected row positions, which is meant to stay strictly
increasing. Callers add or remove a closed range `[from, to]`, toggle one
position, clear the selection, replace it wholesale, and query it. Each
mutation triggers an `update` event that names an action (`add` or
`remove`) and a range, so that a view can redraw only that range.

Every range mutation goes through one routine, `spliceRange`. It does two
lower-bound binary searches. The first finds `fromPos`, the insertion point
of `from`. The second finds the insertion point of `to`, starting at
`fromPos`. If the element there equals `to`, it moves one place further, so
that this element is replaced too. The routine then splices a replacement
run into `[fromPos, toPos)`: the integers `from..to` for `addRange`, and
nothing for `removeRange`.

Layout:

- `sorted_seqs.dfy`, module `SortedSeqs`: strict sortedness, and an
  order-preserving `Filter` with its lemmas. Those lemmas cover filtering a
  concatenation and cutting out or keeping a band `s[p..q]`. They also show
  that filtering keeps a sequence sorted, and that a sorted sequence is
  determined by its elements.
- `utils.dfy`, module `Utils`: `Range` and `LowerBound`. They stand for
  `utils.range` and `utils.binarySearch` of the core utilities, written to
  the contracts that their use in `selection.js` implies.
- `selection.dfy`, module `Selection`: the event type, `SpliceRange`, the
  reference function `Added`, the lemmas about adding and removing ranges,
  and the class `SelectionSet` with one method per operation.
- `scenarios.dfy`, module `Scenarios`: client methods that replay the
  documented examples. Each example follows from the contracts alone: the
  partial overlap, the partial removal, add then remove, a call that
  changes nothing, toggling twice, the primary index, clearing, and the
  half-open range query.

Modelling choices:

- The selected positions are a `seq<int>` field, `indexes`. `spliceRange`
  rewrites the JavaScript array in place; here `SpliceRange` returns the new
  sequence, and `AddRange` and `RemoveRange` assign it back to the field.
- The events a selection triggers are a ghost log, `events`, with one
  entry per event: `Update(action, lo, hi)`. The method `TriggerUpdate`
  appends to it.
- `to` is a reserved word of Dafny, so the range bounds are called `lo` and
  `hi` throughout. They are the source's `from` and `to`.
- The `indexes` property becomes the field (getter) and `SetIndexes`
  (setter). The overloaded `index` becomes `Index()` (getter) and
  `SetIndex(value)` (setter).
- In `init` and in the setter, `indexes || []` turns a missing argument
  into `[]`. It is modelled as an `Option<seq<int>>` argument.
- `selectedInRange` does not apply the fix-up at line 123. It therefore
  returns the elements `x` with `from <= x < to`, half-open. An element
  equal to `to` is left out. The model follows the code here rather than
  the description of the component, which calls the range inclusive.
- `if (range)` at line 125 is true for the empty array too. `removeRange`
  therefore takes the splice branch at line 126 as well, and lines 128-129
  are never reached from the calls in this file. Both branches give the
  same array, so `SpliceRange` performs the one splice.
- `removeRange(from, to)` needs no `from <= to`. From the code, a call with
  `from > to` leaves the selection as it was, and `RemoveRange` is proved
  for every `lo` and `hi`.

## Model

| member | source | states |
|---|---|---|
| `Utils.Range` | uki-fb/view/dataList/selection.js:66 | `utils.range(from, to)` has `to - from + 1` elements, and its i-th element is `from + i` |
| `Utils.RangeElements` | uki-fb/view/dataList/selection.js:66 | the range is strictly increasing and holds exactly the integers of `[from, to]` |
| `Utils.LowerBound` | uki-fb/view/dataList/selection.js:78-79 | the binary search from a start offset returns the first position `p >= start` where `p` is the length of `s` or `s[p] >= x`: every element from the start up to `p` is below `x`, and every element from `p` on is at least `x` |
| `Utils.LowerBoundCounts` | uki-fb/view/dataList/selection.js:85-86 | such a position is the start plus the number of elements of `s[start..]` below `x`, the insertion point that keeps the array sorted |
| `Selection.SpliceRange` | uki-fb/view/dataList/selection.js:117-132 | on a sorted array, after the two searches and the fix-up, `fromPos <= toPos`; every element before `fromPos` is `< from`, every element in `[fromPos, toPos)` lies in `[from, to]`, and every element from `toPos` on is `> to`; the result replaces only the slice `[fromPos, toPos)` by the given run; for `from <= to` it is the old elements below `from`, the run, then the old elements above `to`; with an empty run it is exactly the old elements outside `[from, to]`, in order |
| `Selection.SpliceAdds` | uki-fb/view/dataList/selection.js:117-126 | splicing a run in at those boundaries keeps the old elements below `from`, then the run, then the old elements above `to` |
| `Selection.SpliceRemoves` | uki-fb/view/dataList/selection.js:117-129 | cutting out `[fromPos, toPos)` at those boundaries leaves exactly the old elements outside `[from, to]`, in their original order |
| `Selection.AddedElements` | uki-fb/view/dataList/selection.js:65-66 | adding a range to a sorted selection yields a sorted selection whose elements are exactly the old ones outside `[from, to]` plus every integer in `[from, to]` |
| `Selection.AddedIdempotent` | uki-fb/view/dataList/selection.js:65-66 | adding the same range twice gives the same selection as adding it once |
| `Selection.RemovedAfterAdded` | uki-fb/view/dataList/selection.js:65-75 | removing a range just added gives what removing it alone gives; from an empty selection, add then remove leaves it empty |
| `Selection.AddedAfterRemoved` | uki-fb/view/dataList/selection.js:65-75 | adding a range just removed gives what adding it alone gives |
| `Selection.ToggleTwice` | uki-fb/view/dataList/selection.js:89-95 | toggling the same position twice restores the selection, whether or not it was selected |
| `Selection.SelectionSet.constructor` | uki-fb/view/dataList/selection.js:42-44 | a new selection holds the given sorted positions, or none when the argument is missing, and has triggered no event |
| `Selection.SelectionSet.SetIndexes` | uki-fb/view/dataList/selection.js:46-52 | the setter clears first (a `remove` event with the old first and last elements if there were any), installs the new positions, then triggers one `add` event with their first and last elements if there are any |
| `Selection.SelectionSet.Index` | uki-fb/view/dataList/selection.js:54-57 | `index()` is `-1` on an empty selection; otherwise it is a selected position no larger than any other, the first one |
| `Selection.SelectionSet.SetIndex` | uki-fb/view/dataList/selection.js:58 | `index(v)` with `v < 0` leaves the selection empty; otherwise it leaves exactly `[v]`; the events are those of the setter |
| `Selection.SelectionSet.IsEmpty` | uki-fb/view/dataList/selection.js:61-63 | `empty()` is true exactly when nothing is selected |
| `Selection.SelectionSet.AddRange` | uki-fb/view/dataList/selection.js:65-69 | keeps the selection sorted; its new elements are the old ones outside `[from, to]` plus every integer of `[from, to]`, in the order of `Added`; exactly one `add` event with `from` and `to` is appended, even when nothing changed |
| `Selection.SelectionSet.RemoveRange` | uki-fb/view/dataList/selection.js:71-75 | keeps the selection sorted; it leaves exactly the old elements outside `[from, to]`, in their original order; exactly one `remove` event with `from` and `to` is appended, even when nothing changed |
| `Selection.SelectionSet.SelectedInRange` | uki-fb/view/dataList/selection.js:77-82 | returns, in ascending order, exactly the selected `x` with `from <= x < to`, as one contiguous slice of the selection; the state and the events are unchanged |
| `Selection.SelectionSet.IsSelected` | uki-fb/view/dataList/selection.js:84-87 | true exactly when the position is selected; the state and the events are unchanged |
| `Selection.SelectionSet.Toggle` | uki-fb/view/dataList/selection.js:89-96 | flips whether the position is selected and leaves every other position as it was; appends exactly one event with `from = to = index`: `remove` if it was selected, `add` otherwise |
| `Selection.SelectionSet.Clear` | uki-fb/view/dataList/selection.js:98-105 | empties the selection; appends one `remove` event with the old first and last elements if it was non-empty, and nothing if it was empty |
| `Selection.SelectionSet.TriggerUpdate` | uki-fb/view/dataList/selection.js:107-114 | appends one update event whose action is `remove` when `isRemove` holds and `add` otherwise, carrying the given bounds; the selection is unchanged |

## Left out

- The `Observable` base and `trigger` are not modelled. Neither are listener registration, synchronous delivery, or listeners that call back into the selection. A triggered event is an entry appended to the ghost log `events`.
- The `fun.newClass` and `fun.newProp` class plumbing is not modelled. The `indexes()` getter is a read of the field `indexes`.
- The bodies of `utils.range` and `utils.binarySearch` are not part of this model. `Range` and `LowerBound` satisfy the contracts that their use implies. `utils.range` with `from > to` is not known, so `AddRange` requires `lo <= hi`.
- Unvalidated inputs: `init` and the `indexes` setter store their argument without checking it. The model requires a strictly increasing argument instead.
- No operation here checks that positions are non-negative. The model does not make non-negativity part of its invariant. The membership postconditions show that no operation brings in a negative position unless a negative argument is passed.
- The live array returned by the `indexes()` getter, and the aliasing it allows, have no counterpart in a model over values. The in-place `splice` is modelled by reassigning the field.
- `return this`, which makes the mutators chainable, is not modelled: the methods return nothing.
