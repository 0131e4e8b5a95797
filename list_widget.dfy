/**
 * The part of `QListWidget` behaviour that the context dialogs rely on:
 * where the current row goes when the current item is taken out. A list
 * widget is in single-selection mode, and in that mode the view moves the
 * current row, before the removal, to the next item, or to the previous
 * one when the removed item was the last; with no item left there is no
 * current row (-1). Every item of the dialogs is visible and enabled, so
 * the neighbour chosen is the adjacent one.
 */
module ListWidget {

  /** The current row after the current item at `row` is removed, leaving
      `count` items: the item below slides up into `row`; when there is
      none, the row above. */
  function CurrentAfterRemoval(row: nat, count: nat): (r: int)
    requires row <= count
    ensures -1 <= r < count
    ensures r == -1 <==> count == 0
  {
    if row < count then row else row - 1
  }

  /** `items` without its element at `row`, as `takeItem(row)` leaves the list. */
  function RemoveAt<T>(items: seq<T>, row: nat): (r: seq<T>)
    requires row < |items|
    ensures |r| == |items| - 1
    ensures forall k :: 0 <= k < row ==> r[k] == items[k]
    ensures forall k :: row <= k < |r| ==> r[k] == items[k + 1]
    ensures multiset(r) + multiset{items[row]} == multiset(items)
  {
    assert items == items[..row] + [items[row]] + items[row + 1..];
    items[..row] + items[row + 1..]
  }

  /** The item that becomes current is the removed one's neighbour: the one
      below it, or, when the last item was removed, the one above it; only
      removing the sole item leaves no current row. */
  lemma CurrentAfterRemovalIsNeighbour<T>(items: seq<T>, row: nat)
    requires row < |items|
    ensures var r := CurrentAfterRemoval(row, |items| - 1);
      && (r == -1 <==> |items| == 1)
      && (row + 1 < |items| ==> RemoveAt(items, row)[r] == items[row + 1])
      && (row + 1 == |items| && row > 0 ==> RemoveAt(items, row)[r] == items[row - 1])
  {
  }
}
