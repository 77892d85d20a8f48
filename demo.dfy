/** The demo's `requestMoreAndRender`: fetch a page from the mock source and
    merge it into the module-wide dataset at the requested offset. */
module Demo {
  import opened Js
  import opened ApiMock
  import opened ReduceData

  /** Fetched items as loaded slots. */
  function AsSlots(items: seq<Item>): (slots: seq<Option<Item>>)
    ensures |slots| == |items|
    ensures forall i :: 0 <= i < |items| ==> slots[i] == Some(items[i])
  {
    seq(|items|, i requires 0 <= i < |items| => Some(items[i]))
  }

  /** The dataset after one `requestMoreAndRender(offset, limit)`: the page
      is merged at the offset as requested, not at the clamped one. */
  function RequestMoreAndRender(items: seq<Option<Item>>, offset: int, limit: int): seq<Option<Item>>
  {
    var page := FetchItems(offset, limit);
    Merge(items, page.total, AsSlots(page.items), offset)
  }

  /** Slots merged at an offset that keeps them inside a dataset of
      `TotalItems` slots (empty, or already of that size) land at their own
      positions, and every other slot is what it was. */
  lemma MergeIntoDataset(items: seq<Option<Item>>, slots: seq<Option<Item>>, offset: int)
    requires 0 <= offset && offset + |slots| <= TotalItems
    requires |items| == 0 || |items| == TotalItems
    ensures var r := Merge(items, TotalItems, slots, offset);
            |r| == TotalItems &&
            (forall k :: offset <= k < offset + |slots| ==> r[k] == slots[k - offset]) &&
            (forall k :: 0 <= k < TotalItems && !(offset <= k < offset + |slots|) ==>
               r[k] == if |items| == 0 then None else items[k])
  {
    var b := Base(items, TotalItems);
    assert forall k :: 0 <= k < TotalItems ==> b[k] == if |items| == 0 then None else items[k];
    MergeInRange(items, TotalItems, slots, offset);
    var r := Merge(items, TotalItems, slots, offset);
    forall k | offset <= k < offset + |slots|
      ensures r[k] == slots[k - offset]
    {
      assert r[offset + (k - offset)] == slots[k - offset];
    }
  }

  /** Every page the mock returns for an offset in [0, 200] fits inside the
      dataset (empty, or already sized by an earlier page): the dataset has
      200 slots afterwards, slot k of the fetched range holds item k, and
      every other slot is what it was (`undefined`, for a first page). */
  lemma PageFitsDataset(items: seq<Option<Item>>, offset: int, limit: int)
    requires 0 <= offset <= TotalItems
    requires |items| == 0 || |items| == TotalItems
    ensures var r, count := RequestMoreAndRender(items, offset, limit), |FetchItems(offset, limit).items|;
            |r| == TotalItems &&
            count == Min(ClampLength(limit), TotalItems - offset) &&
            (forall k :: offset <= k < offset + count ==> r[k] == Some(Item(k, k + 1))) &&
            (forall k :: 0 <= k < TotalItems && !(offset <= k < offset + count) ==>
               r[k] == if |items| == 0 then None else items[k])
  {
    var page := FetchItems(offset, limit);
    var slots := AsSlots(page.items);
    assert ClampOffset(offset) == offset;
    MergeIntoDataset(items, slots, offset);
    var r := Merge(items, TotalItems, slots, offset);
    assert RequestMoreAndRender(items, offset, limit) == r;
  }

  /** The demo does not clamp the merge offset: a request at -10 for 10
      items into an empty dataset fetches items 0..9 (the source clamps)
      but stores them in slots 190..199 (the splice counts from the end). */
  lemma NegativeOffsetMisplaces()
    ensures var r := RequestMoreAndRender([], -10, 10);
            |r| == TotalItems &&
            (forall k :: 190 <= k < TotalItems ==> r[k] == Some(Item(k - 190, k - 189))) &&
            (forall k :: 0 <= k < 190 ==> r[k] == None)
  {
    var page := FetchItems(-10, 10);
    var slots := AsSlots(page.items);
    assert |slots| == 10;
    MergeNegativeOffset([], TotalItems, slots, -10);
    MergeIntoDataset([], slots, 190);
  }
}
