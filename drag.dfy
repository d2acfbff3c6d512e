/** The drag-and-drop reordering hook: a small gesture state machine
    (`draggedItem`, `dragOverIndex` and the enter/leave counter) whose drop
    moves one item of the rendered list from its source index to the
    target index and hands the new id order to the caller. The list is
    modelled by its ids, the only thing the drop reads from it. */
module Drag {
  import opened Seqs
  import opened Types

  /** The item being dragged: its id and its index in the rendered list. */
  datatype DragItem = DragItem(id: string, index: int)

  /** What a drop does with the caller's `onReorder`: nothing when no drag is
      active, a call with the new id order, or neither because reading `.id`
      of the `undefined` that the first splice returned throws a TypeError. */
  datatype DropOutcome = NotDragging | Reordered(newOrder: seq<string>) | ThrewTypeError

  /** The highlight of a hovered item: a line under it when the dragged item
      comes from above, over it when it comes from below. */
  datatype Border = NoBorder | BorderBottom | BorderTop

  const BottomClass := "border-b-2 border-blue-500"
  const TopClass := "border-t-2 border-blue-500"

  /** Where `Array.prototype.splice(start, …)` starts on an array of length
      `len`: a negative start counts from the end, and both ends clamp. */
  function SpliceStart(len: nat, start: int): (r: nat)
    ensures r <= len
    ensures 0 <= start <= len ==> r == start
    ensures start > len ==> r == len
    ensures start < 0 ==> r == if len + start < 0 then 0 else len + start
  {
    if start < 0 then (if len + start < 0 then 0 else len + start)
    else if start > len then len
    else start
  }

  /** `xs` with the element at `i` removed. */
  function Without<T>(xs: seq<T>, i: nat): (r: seq<T>)
    requires i < |xs|
    ensures |r| == |xs| - 1
    ensures forall k :: 0 <= k < i ==> r[k] == xs[k]
    ensures forall k :: i <= k < |r| ==> r[k] == xs[k + 1]
  {
    xs[..i] + xs[i + 1..]
  }

  /** The id order a drop from `source` onto `target` hands to `onReorder`:
      the two splices of the copied list. `None` when the first splice starts
      at the end of the list, removes nothing and the later `.id` throws. */
  function Move(items: seq<string>, source: int, target: int): (r: Option<seq<string>>)
    ensures r.Some? ==> |r.value| == |items| && multiset(r.value) == multiset(items)
  {
    var a := SpliceStart(|items|, source);
    if a == |items| then None
    else
      var removed := items[a];
      var rest := Without(items, a);
      var b := SpliceStart(|rest|, target);
      assert items == items[..a] + [removed] + items[a + 1..];
      assert multiset(items) == multiset(rest) + multiset{removed};
      assert rest == rest[..b] + rest[b..];
      assert multiset(rest) == multiset(rest[..b]) + multiset(rest[b..]);
      Some(rest[..b] + [removed] + rest[b..])
  }

  /** The drop throws exactly when the list is empty or the source index is
      at or past its end; a negative source index never throws on a
      non-empty list. */
  lemma MoveThrows(items: seq<string>, source: int, target: int)
    ensures Move(items, source, target).None? <==> |items| == 0 || source >= |items|
  {
  }

  /** With both indices in range the dragged id lands at `target`, and
      removing it from the result gives the list with the source removed:
      the other ids keep their relative order. */
  lemma MoveInRange(items: seq<string>, source: int, target: int)
    requires 0 <= source < |items| && 0 <= target < |items|
    ensures Move(items, source, target).Some?
    ensures var o := Move(items, source, target).value;
      o[target] == items[source] && Without(o, target) == Without(items, source)
  {
    var rest := Without(items, source);
    var o := rest[..target] + [items[source]] + rest[target..];
    assert Move(items, source, target) == Some(o);
    assert Without(o, target) == rest;
  }

  /** Dropping an item onto its own index hands back the same order. */
  lemma MoveSame(items: seq<string>, source: int)
    requires 0 <= source < |items|
    ensures Move(items, source, source) == Some(items)
  {
    var rest := Without(items, source);
    assert rest[..source] + [items[source]] + rest[source..] == items;
  }

  /** Dragging the moved item back from `target` to `source` restores the
      original order. */
  lemma MoveInverse(items: seq<string>, source: int, target: int)
    requires 0 <= source < |items| && 0 <= target < |items|
    ensures Move(Move(items, source, target).value, target, source) == Some(items)
  {
    MoveInRange(items, source, target);
    var o := Move(items, source, target).value;
    var rest := Without(items, source);
    assert Without(o, target) == rest;
    assert rest[..source] + [items[source]] + rest[source..] == items;
  }

  /** A target past the end puts the dragged id last; a target of -1 puts it
      just before the last of the remaining ids. */
  lemma MoveOutOfRangeTargets(a: string, b: string, c: string)
    ensures Move([a, b, c], 0, 7) == Some([b, c, a])
    ensures Move([a, b, c], 0, -1) == Some([b, a, c])
  {
    var rest := Without([a, b, c], 0);
    assert rest == [b, c];
    assert rest[..2] + [a] + rest[2..] == [b, c, a];
    assert rest[..1] + [a] + rest[1..] == [b, a, c];
  }

  /** The non-empty strings of `xs` (`filter(Boolean)` on strings). */
  function NonEmpty(xs: seq<string>): (r: seq<string>)
    ensures forall s :: s in r <==> s in xs && s != ""
  {
    Filter(xs, Truthy())
  }

  /** `Boolean` as a predicate on strings: only the empty string is falsy. */
  function Truthy(): string -> bool
  {
    (s: string) => s != ""
  }

  /** `xs.join(sep)` */
  function Join(xs: seq<string>, sep: string): (r: string)
    ensures |xs| == 1 ==> r == xs[0]
    ensures |xs| == 2 ==> r == xs[0] + sep + xs[1]
    decreases |xs|
  {
    if |xs| == 0 then ""
    else if |xs| == 1 then xs[0]
    else xs[0] + sep + Join(xs[1..], sep)
  }

  class DragAndDrop {
    var draggedItem: Option<DragItem>
    var dragOverIndex: Option<int>
    var dragCounter: int

    /** No drag in progress, nothing hovered, the counter at rest. */
    predicate Idle()
      reads this
    {
      draggedItem == None && dragOverIndex == None && dragCounter == 0
    }

    constructor()
      ensures Idle()
    {
      draggedItem := None;
      dragOverIndex := None;
      dragCounter := 0;
    }

    /** Records the dragged item; the hover index and the counter stay. */
    method HandleDragStart(id: string, index: int)
      modifies this
      ensures draggedItem == Some(DragItem(id, index))
      ensures dragOverIndex == old(dragOverIndex) && dragCounter == old(dragCounter)
    {
      draggedItem := Some(DragItem(id, index));
    }

    /** Ends the gesture whatever state it was in. */
    method HandleDragEnd()
      modifies this
      ensures Idle()
    {
      draggedItem := None;
      dragOverIndex := None;
      dragCounter := 0;
    }

    /** Hovering `index` marks it only while a drag is active and `index` is
      not the dragged item's own; a marked index is then highlighted. */
    method HandleDragOver(index: int)
      modifies this
      ensures draggedItem == old(draggedItem) && dragCounter == old(dragCounter)
      ensures dragOverIndex == if draggedItem.Some? && draggedItem.value.index != index
                               then Some(index) else old(dragOverIndex)
      ensures draggedItem.Some? && draggedItem.value.index != index ==> BorderAt(index) != NoBorder
    {
      if draggedItem.Some? && draggedItem.value.index != index {
        dragOverIndex := Some(index);
      }
    }

    /** Entering `index` counts one more nested enter and marks `index`, even
      when no drag is active. */
    method HandleDragEnter(index: int)
      modifies this
      ensures dragCounter == old(dragCounter) + 1
      ensures dragOverIndex == Some(index) && draggedItem == old(draggedItem)
    {
      dragCounter := dragCounter + 1;
      dragOverIndex := Some(index);
    }

    /** Leaving counts one enter less and clears the mark only when the
      counter reaches exactly zero. */
    method HandleDragLeave()
      modifies this
      ensures dragCounter == old(dragCounter) - 1 && draggedItem == old(draggedItem)
      ensures dragOverIndex == if dragCounter == 0 then None else old(dragOverIndex)
    {
      dragCounter := dragCounter - 1;
      if dragCounter == 0 {
        dragOverIndex := None;
      }
    }

    /** Dropping on `index`: without an active drag nothing happens; a throw
      leaves the state as it was; otherwise `onReorder` receives the moved
      order and the gesture ends. */
    method HandleDrop(items: seq<string>, index: int) returns (outcome: DropOutcome)
      modifies this
      ensures old(draggedItem) == None ==> outcome == NotDragging && unchanged(this)
      ensures old(draggedItem).Some? && Move(items, old(draggedItem).value.index, index).None?
              ==> outcome == ThrewTypeError && unchanged(this)
      ensures old(draggedItem).Some? && Move(items, old(draggedItem).value.index, index).Some?
              ==> outcome == Reordered(Move(items, old(draggedItem).value.index, index).value) && Idle()
    {
      if draggedItem.None? {
        return NotDragging;
      }
      var newItems := items;
      var start := SpliceStart(|newItems|, draggedItem.value.index);
      if start == |newItems| {
        // the splice removed nothing: `removed` is undefined and `.id` throws
        return ThrewTypeError;
      }
      var removed := newItems[start];
      newItems := newItems[..start] + newItems[start + 1..];
      var at := SpliceStart(|newItems|, index);
      newItems := newItems[..at] + [removed] + newItems[at..];
      outcome := Reordered(newItems);
      draggedItem := None;
      dragOverIndex := None;
      dragCounter := 0;
    }

    /** The highlight `getItemClassName` decides for `index`. */
    function BorderAt(index: int): (r: Border)
      reads this
      ensures r == BorderBottom <==>
        dragOverIndex == Some(index) && draggedItem.Some? && draggedItem.value.index < index
      ensures r == BorderTop <==>
        dragOverIndex == Some(index) && draggedItem.Some? && draggedItem.value.index > index
    {
      if dragOverIndex == Some(index) && draggedItem.Some? && draggedItem.value.index != index then
        if draggedItem.value.index < index then BorderBottom else BorderTop
      else NoBorder
    }

    /** The class list of item `index`: the base class, followed by the
      border class when the item is highlighted; an empty base is dropped. */
    function ItemClassName(index: int, base: string): (r: string)
      reads this
      ensures BorderAt(index) == NoBorder ==> r == base
      ensures BorderAt(index) == BorderBottom ==>
        r == if base == "" then BottomClass else base + " " + BottomClass
      ensures BorderAt(index) == BorderTop ==>
        r == if base == "" then TopClass else base + " " + TopClass
    {
      var classes := match BorderAt(index)
        case NoBorder => [base]
        case BorderBottom => [base, BottomClass]
        case BorderTop => [base, TopClass];
      FilterSingleton(base, Truthy());
      FilterPair(base, BottomClass, Truthy());
      FilterPair(base, TopClass, Truthy());
      Join(NonEmpty(classes), " ")
    }
  }
}
