/** The mock data source `fetchItems`: the page of items it resolves with,
    without the promise and the random latency around it. */
module ApiMock {
  import opened Js

  /** `API_RESPONSE_TOTAL_ITEMS`. */
  const TotalItems: nat := 200

  datatype Item = Item(id: int, text: int)

  datatype Response = Response(total: nat, items: seq<Item>)

  /** `Math.max(0, Math.min(offset, API_RESPONSE_TOTAL_ITEMS))`. */
  function ClampOffset(offset: int): int
  {
    Max(0, Min(offset, TotalItems))
  }

  /** `Math.max(0, length)`. */
  function ClampLength(length: int): int
  {
    Max(0, length)
  }

  /** The payload `fetchItems(offset, length)` resolves with. */
  function FetchItems(offset: int, length: int): (r: Response)
    ensures r.total == TotalItems
    ensures |r.items| == Min(ClampLength(length), TotalItems - ClampOffset(offset))
    ensures |r.items| <= ClampLength(length)
    ensures ClampOffset(offset) + |r.items| <= r.total
    ensures forall i :: 0 <= i < |r.items| ==>
              r.items[i].id == ClampOffset(offset) + i && r.items[i].text == r.items[i].id + 1
  {
    var off, len := ClampOffset(offset), ClampLength(length);
    Response(TotalItems, seq(Min(len, TotalItems - off), i => Item(off + i, off + i + 1)))
  }

  /** The effective offset lies in [0, 200], the effective length is never
      negative, and both equal the request when it is already in range. */
  lemma ClampBounds(offset: int, length: int)
    ensures 0 <= ClampOffset(offset) <= TotalItems
    ensures 0 <= ClampLength(length)
    ensures 0 <= offset <= TotalItems ==> ClampOffset(offset) == offset
    ensures 0 <= length ==> ClampLength(length) == length
  {
  }

  /** The page is empty exactly when the offset is at or past the end or the
      length is not positive. */
  lemma EmptyPage(offset: int, length: int)
    ensures FetchItems(offset, length).items == [] <==> offset >= TotalItems || length <= 0
  {
    if !(offset >= TotalItems || length <= 0) {
      assert |FetchItems(offset, length).items| == Min(length, TotalItems - ClampOffset(offset)) > 0;
    }
  }

  /** For a request in range the page holds as many items as asked for,
      cut at the total, and its ids are exactly the positions
      [offset, offset + count). */
  lemma PageForRange(offset: int, length: int)
    requires 0 <= offset <= TotalItems && 0 <= length
    ensures var items := FetchItems(offset, length).items;
            |items| == Min(length, TotalItems - offset) &&
            forall i :: 0 <= i < |items| ==> items[i] == Item(offset + i, offset + i + 1)
  {
  }
}
