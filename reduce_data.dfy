/** `reduceData`: fold a fetched batch into the sparse dataset by copying
    (or allocating) the dataset and splicing the batch in at its offset. */
module ReduceData {
  import opened Js

  /** The array the splice works on: a copy of `items` when it has any
      slot, otherwise `total` `undefined` slots (`Array.from({ length: total })`). */
  function Base<T>(items: seq<Option<T>>, total: nat): (b: seq<Option<T>>)
    ensures |items| > 0 ==> b == items
    ensures |items| == 0 ==> |b| == total && forall k :: 0 <= k < total ==> b[k] == None
  {
    if |items| > 0 then items else seq(total, _ => None)
  }

  /** The dataset `reduceData` returns. */
  function Merge<T>(items: seq<Option<T>>, total: nat, newItems: seq<Option<T>>, offset: int): seq<Option<T>>
  {
    Splice(Base(items, total), offset, |newItems|, newItems)
  }

  /** `reduceData` on arrays: the caller's `items` is left as it is and the
      result is a fresh array holding `Merge`. */
  method ReduceData<T>(items: array<Option<T>>, total: nat, newItems: seq<Option<T>>, offset: int)
    returns (r: array<Option<T>>)
    ensures fresh(r)
    ensures r[..] == Merge(items[..], total, newItems, offset)
  {
    var base := Base(items[..], total);
    var st := RelativeIndex(offset, |base|);
    var dc := Min(|newItems|, |base| - st);
    var n := |base| - dc + |newItems|;
    ghost var spliced := Merge(items[..], total, newItems, offset);
    SpliceAt(base, offset, |newItems|, newItems);
    r := new Option<T>[n];
    var w := 0;
    while w < n
      invariant 0 <= w <= n
      invariant forall k :: 0 <= k < w ==> r[k] == spliced[k]
    {
      r[w] := if w < st then base[w]
              else if w < st + |newItems| then newItems[w - st]
              else base[w - |newItems| + dc];
      w := w + 1;
    }
    assert r[..] == spliced;
  }

  /** A batch that lies inside the base leaves the length alone, puts each
      new item at offset + i, and keeps every other slot of the base. */
  lemma MergeInRange<T>(items: seq<Option<T>>, total: nat, newItems: seq<Option<T>>, offset: int)
    requires 0 <= offset && offset + |newItems| <= |Base(items, total)|
    ensures var b, r := Base(items, total), Merge(items, total, newItems, offset);
            |r| == |b| &&
            (forall i :: 0 <= i < |newItems| ==> r[offset + i] == newItems[i]) &&
            (forall k :: 0 <= k < |b| && !(offset <= k < offset + |newItems|) ==> r[k] == b[k])
  {
    SpliceInRange(Base(items, total), offset, newItems);
  }

  /** The dataset never shrinks, and for an offset inside the base it grows
      exactly as far as the batch reaches past the end. */
  lemma MergeLength<T>(items: seq<Option<T>>, total: nat, newItems: seq<Option<T>>, offset: int)
    ensures |Merge(items, total, newItems, offset)| >= |Base(items, total)|
    ensures 0 <= offset <= |Base(items, total)| ==>
              |Merge(items, total, newItems, offset)| == Max(|Base(items, total)|, offset + |newItems|)
  {
  }

  /** A negative offset counts from the end of the base (and is clamped to
      its start); the merge itself never clamps it to 0. */
  lemma MergeNegativeOffset<T>(items: seq<Option<T>>, total: nat, newItems: seq<Option<T>>, offset: int)
    requires offset < 0
    ensures Merge(items, total, newItems, offset)
         == Merge(items, total, newItems, Max(|Base(items, total)| + offset, 0))
  {
  }

  /** Merging the same batch at the same offset twice is merging it once,
      for any offset from the start to the end of the base. */
  lemma MergeIdempotent<T>(items: seq<Option<T>>, total: nat, newItems: seq<Option<T>>, offset: int)
    requires 0 <= offset <= |Base(items, total)|
    ensures var once := Merge(items, total, newItems, offset);
            Merge(once, total, newItems, offset) == once
  {
    var b, once := Base(items, total), Merge(items, total, newItems, offset);
    var dc := Min(|newItems|, |b| - offset);
    assert once == b[..offset] + newItems + b[offset + dc..];
    if once == [] {
      assert items == [] && total == 0;
    } else {
      assert Base(once, total) == once;
      assert once[..offset] == b[..offset];
      assert once[offset + |newItems|..] == b[offset + dc..];
    }
  }

  /** Two in-range batches over disjoint ranges can be merged in either order. */
  lemma MergeCommutes<T>(items: seq<Option<T>>, total: nat,
                         first: seq<Option<T>>, o1: int, second: seq<Option<T>>, o2: int)
    requires 0 <= o1 && o1 + |first| <= |Base(items, total)|
    requires 0 <= o2 && o2 + |second| <= |Base(items, total)|
    requires o1 + |first| <= o2 || o2 + |second| <= o1
    ensures Merge(Merge(items, total, first, o1), total, second, o2)
         == Merge(Merge(items, total, second, o2), total, first, o1)
  {
    var b := Base(items, total);
    var m1, m2 := Merge(items, total, first, o1), Merge(items, total, second, o2);
    MergeInRange(items, total, first, o1);
    MergeInRange(items, total, second, o2);
    if b == [] {
      assert first == [] && second == [];
      assert m1 == [] && m2 == [];
    } else {
      assert Base(m1, total) == m1 && Base(m2, total) == m2;
      MergeInRange(m1, total, second, o2);
      MergeInRange(m2, total, first, o1);
      var x, y := Merge(m1, total, second, o2), Merge(m2, total, first, o1);
      assert |x| == |y| == |b|;
      forall k | 0 <= k < |b|
        ensures x[k] == y[k]
      {
        if o1 <= k < o1 + |first| {
          assert x[k] == first[k - o1] && y[k] == first[k - o1];
        } else if o2 <= k < o2 + |second| {
          assert x[k] == second[k - o2] && y[k] == second[k - o2];
        } else {
          assert x[k] == b[k] && y[k] == b[k];
        }
      }
    }
  }

  /** The first batch into an empty dataset: `total` slots, the batch at
      the front and `undefined` slots after it. With `total = 200` and 50 items at
      offset 0: length 200, slots 0..49 loaded, slots 50..199 empty. */
  lemma FirstBatch<T>(total: nat, newItems: seq<Option<T>>)
    requires |newItems| <= total
    ensures var r := Merge([], total, newItems, 0);
            |r| == total &&
            (forall k :: 0 <= k < |newItems| ==> r[k] == newItems[k]) &&
            (forall k :: |newItems| <= k < total ==> r[k] == None)
  {
    MergeInRange([], total, newItems, 0);
  }
}
