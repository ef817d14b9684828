/** Drag-and-drop reordering of sections. */
module DnDUtils {
  import opened Wrappers
  import opened Types
  import opened Seqs

  /** The end of a drag: the id of the dragged section and, when it was
      dropped over one, the id of the section under it. */
  datatype DragEndEvent = DragEndEvent(active: string, over: Option<string>)

  /** `arrayMove(s, from, to)`: take the element at `from` out, then insert it
      so that it sits at index `to`. */
  function ArrayMove<T>(s: seq<T>, from: nat, to: nat): (r: seq<T>)
    requires from < |s| && to < |s|
    ensures |r| == |s|
    ensures r[to] == s[from]
  {
    InsertAt(RemoveAt(s, from), to, s[from])
  }

  /** `items.findIndex(section => section.id === id)`: the first position
      holding that id, or -1. */
  function FindIndex(items: seq<Section>, id: string): (r: int)
    ensures -1 <= r < |items|
    ensures r == -1 <==> forall k :: 0 <= k < |items| ==> items[k].id != id
    ensures r >= 0 ==> items[r].id == id && forall k :: 0 <= k < r ==> items[k].id != id
    decreases |items|
  {
    if items == [] then -1
    else if items[0].id == id then 0
    else
      var t := FindIndex(items[1..], id);
      if t == -1 then -1 else t + 1
  }

  /** Some section of `items` carries `id`. */
  predicate HasId(items: seq<Section>, id: string)
  {
    exists k :: 0 <= k < |items| && items[k].id == id
  }

  /** A drop that asks for a move: over some section other than the dragged one. */
  predicate IsMove(event: DragEndEvent)
  {
    event.over.Some? && event.active != event.over.value
  }

  /** `reorderItems`: a drop over another section moves the dragged section to
      that section's index; anything else leaves the list as it is. The code
      looks both ids up without checking for -1, so a move is only defined
      here when both are present. */
  function ReorderItems(items: seq<Section>, event: DragEndEvent): (r: seq<Section>)
    requires IsMove(event) ==> HasId(items, event.active) && HasId(items, event.over.value)
    ensures !IsMove(event) ==> r == items
    ensures IsMove(event) ==>
      var oldIndex := FindIndex(items, event.active);
      var newIndex := FindIndex(items, event.over.value);
      0 <= oldIndex < |items| && 0 <= newIndex < |items| && r == ArrayMove(items, oldIndex, newIndex)
  {
    if IsMove(event) then
      ArrayMove(items, FindIndex(items, event.active), FindIndex(items, event.over.value))
    else
      items
  }

  /** The detail view's reorder (`handleDragEndDetail`): like `ReorderItems`,
      but an id that is not found leaves the list unchanged. */
  function GuardedReorder(items: seq<Section>, event: DragEndEvent): (r: seq<Section>)
    ensures |r| == |items| && multiset(r) == multiset(items)
  {
    if IsMove(event) then
      var oldIndex := FindIndex(items, event.active);
      var newIndex := FindIndex(items, event.over.value);
      if oldIndex != -1 && newIndex != -1 then
        ArrayMoveIsPermutation(items, oldIndex, newIndex);
        ArrayMove(items, oldIndex, newIndex)
      else items
    else
      items
  }

  // ---- Properties of a move ----

  /** A move only rearranges: same length, same multiset of elements. */
  lemma ArrayMoveIsPermutation<T>(s: seq<T>, from: nat, to: nat)
    requires from < |s| && to < |s|
    ensures |ArrayMove(s, from, to)| == |s|
    ensures multiset(ArrayMove(s, from, to)) == multiset(s)
  {
    MultisetInsertRemove(s, from, to);
  }

  /** The moved element lands at `to`, and taking it out again leaves the
      other elements exactly as they were in `s` without it: their relative
      order is kept. */
  lemma ArrayMoveRelocates<T>(s: seq<T>, from: nat, to: nat)
    requires from < |s| && to < |s|
    ensures ArrayMove(s, from, to)[to] == s[from]
    ensures RemoveAt(ArrayMove(s, from, to), to) == RemoveAt(s, from)
  {
    RemoveInsert(RemoveAt(s, from), to, s[from]);
  }

  /** Moving back undoes a move. */
  lemma ArrayMoveRoundTrip<T>(s: seq<T>, i: nat, j: nat)
    requires i < |s| && j < |s|
    ensures ArrayMove(ArrayMove(s, i, j), j, i) == s
  {
    ArrayMoveRelocates(s, i, j);
    InsertRemove(s, i);
  }

  /** Moving an element onto its own position changes nothing. */
  lemma ArrayMoveInPlace<T>(s: seq<T>, i: nat)
    requires i < |s|
    ensures ArrayMove(s, i, i) == s
  {
    InsertRemove(s, i);
  }

  /** After a reorder the dragged section stands where the target section
      stood, the list is a permutation of the input, and all other sections
      keep their relative order. */
  lemma ReorderItemsMovesDragged(items: seq<Section>, event: DragEndEvent)
    requires IsMove(event)
    requires HasId(items, event.active) && HasId(items, event.over.value)
    ensures var r := ReorderItems(items, event);
      var oldIndex := FindIndex(items, event.active);
      var newIndex := FindIndex(items, event.over.value);
      && 0 <= oldIndex < |r| && 0 <= newIndex < |r|
      && r[newIndex] == items[oldIndex] && r[newIndex].id == event.active
      && multiset(r) == multiset(items)
      && RemoveAt(r, newIndex) == RemoveAt(items, oldIndex)
  {
    var oldIndex := FindIndex(items, event.active);
    var newIndex := FindIndex(items, event.over.value);
    ArrayMoveIsPermutation(items, oldIndex, newIndex);
    ArrayMoveRelocates(items, oldIndex, newIndex);
  }

  /** The guarded reorder changes the list only for a move whose two ids are
      both found, and then it is exactly the unguarded reorder. */
  lemma GuardedReorderAgrees(items: seq<Section>, event: DragEndEvent)
    ensures IsMove(event) && HasId(items, event.active) && HasId(items, event.over.value) ==>
      GuardedReorder(items, event) == ReorderItems(items, event)
    ensures !(IsMove(event) && HasId(items, event.active) && HasId(items, event.over.value)) ==>
      GuardedReorder(items, event) == items
  {
  }
}
