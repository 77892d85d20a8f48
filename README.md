# Windowing engine of react-virtual-datagrid, in Dafny

This project models the core of the React virtual grid `VirtualDatagrid`:
the part that decides which slice of a large, sparse dataset is kept on
screen, asks for the missing items, and folds fetched batches back into the
dataset. It covers:

- **Geometry** (`geometry.dfy`, module `Geometry`): `initBucketAndBufferSizes`
  turns the viewport height, the grid width, the column count and the two
  multipliers `bucketSizeVh`/`bufferSizeVh` into `BUCKET_SIZE` and
  `BUFFER_SIZE`.
- **Request coalescer** (`coalescer.dfy`, module `Coalescer`): the fold that
  `requestMoreOptimized` applies when its debounce timer fires. It takes the
  last three queued `(start, limit)` pairs and makes one `requestMore` call
  from them.
- **Boundary steps** (`window.dfy`, module `Window`): what the top and bottom
  observer callbacks do to `topPosition`, and which request they queue.
- **Layout** (`layout.dfy`, module `Layout`): the padding rows above and below
  the window, and the visible slice passed to the render callback.
- **The component's state** (`view.dfy`, module `View`): the class
  `VirtualDatagrid` holds `topPosition`, `BUCKET_SIZE`, `BUFFER_SIZE`, the
  `columnsRef`/`dataRef` refs, the request queue, the timer flag and an
  `outbox` of every `requestMore` call. Its methods are:
  - `Effect`: the effect's four branches (measure, position or reset,
    column change, install observers);
  - `TopSignal` and `BottomSignal`: the two observer callbacks;
  - `Resize`: the resize listener;
  - `Request`: `requestMoreOptimized`;
  - `Fire`: the timer expiring.
- **Sparse merge** (`reduce_data.dfy`, module `ReduceData`): `reduceData`
  copies the dataset, or allocates `total` `undefined` slots when it is empty, and then
  splices the batch in at its offset.
- **Mock data source** (`api_mock.dfy`, module `ApiMock`): the payload that
  `fetchItems` resolves with, after clamping the offset and the length.
- **Demo wiring** (`demo.dfy`, module `Demo`): `requestMoreAndRender` from
  `src/index.js`, which fetches a page and merges it at the requested offset.
- **JavaScript semantics** (`js.dfy`, module `Js`): `undefined` slots,
  `slice`/`splice` index clamping, `Math.round` and `Math.ceil` of an integer
  quotient.

Dataset slots are `Option<T>`; `None` is a slot holding `undefined`. The view's data prop is an
`array`, because the effect compares `dataRef.current !== data` by reference:
a new empty array counts as a reset even when the old one was empty too.
`reduceData` is a method that returns a fresh array and leaves the caller's
array untouched. Its result is specified by the function `Merge`, and the
properties of the merge are lemmas about `Merge`.

Quirks of the code that the model keeps:
- `!item` counts any falsy value as missing: `Window.Missing` is `None`, or a
  loaded value that the class's `isFalsy` function flags.
- `slice` clamps to the array length.
- `topPosition` is -1 until the first positioning.
- A measured `BUFFER_SIZE` of 0 sends the next effect back to its measuring
  branch.
- The coalesced length is the last length times the number of pairs taken,
  not a sum. `Coalescer.CoversAdjacentRun` shows that this covers a run of
  adjacent buckets walked in one direction exactly.
  `Coalescer.MixedDirectionsExample` shows that it can miss a request when
  the directions alternate.
- `splice` appends when the offset is past the end, and counts a negative
  offset from the end. The merge never clamps.
- Before positioning, in a one-column grid, the padding above is
  `ceil(-1 / 1) = -1` rows (`Layout.BeforePositioning`).
- `topPosition` need not stay a multiple of the bucket: a resize recomputes
  the bucket and keeps the position (`View.ResizeScenario`: the position is
  54 and the bucket is 36).
- The engine never queues a negative offset (an invariant of
  `VirtualDatagrid.Valid`). Only `fetchItems` clamps, and the demo merges at
  the unclamped offset (`Demo.NegativeOffsetMisplaces`).
- Between measuring and positioning, `topPosition` is -1 with a buffer
  already measured, so the render shows `data.slice(-1, BUFFER_SIZE - 1)`:
  the last slot alone when the data is shorter than the buffer
  (`Layout.MeasuredBeforePositioning`).

## Model

| member | source | states |
|---|---|---|
| `Js.RelativeIndex` | src/lib/view.js:267 | Where a `slice`/`splice` index lands in an array of length len: a negative index counts from the end, and the result always lies in [0, len]. |
| `Js.Slice` | src/lib/view.js:267 | `s.slice(start, end)` over relative indices. What it holds is stated by `Js.SliceAt`, and `Window.NeedMoreIff` and `Layout.LayoutSpec` rest on it. |
| `Js.Splice` | src/lib/reduce-data.js:6 | The array `s.splice(start, deleteCount, ...items)` leaves behind. `Js.SpliceAt` and `Js.SpliceInRange` state where each element comes from, and the `ReduceData.Merge…` lemmas state what it does to the dataset. |
| `Js.SpliceAt` | src/lib/reduce-data.js:6 | With `st` the start made absolute and `dc = min(deleteCount, len − st)`, the result has `len − dc + len(items)` elements: `s` before `st`, then the items, then `s` from `st + dc` on. |
| `Js.SpliceInRange` | src/lib/reduce-data.js:6 | A splice inside the array that removes as many elements as it inserts keeps the length, puts item i at `start + i`, and keeps every other element. |
| `Js.SliceAt` | src/lib/view.js:267 | For non-negative bounds, `slice(start, end)` holds exactly the elements at positions in [start, end) that exist: its length is `max(0, min(end, len) - start)`. |
| `Js.RoundDiv` | src/lib/view.js:84-87 | `Math.round(n / d)` is the nearest integer, halves up: `d(2r-1) <= 2n < d(2r+1)`. |
| `Js.CeilDiv` | src/lib/view.js:263 | `Math.ceil(n / d)` is the least integer r with `n <= d·r`, i.e. `d(r-1) < n <= d·r`. |
| `Geometry.RowsPerScreen` | src/lib/view.js:84-87 | The rows per screen are the rounded quotient of the viewport height by the row height (width / columns), and never negative. |
| `Geometry.ViewportSize` | src/lib/view.js:84-88 | `VIEWPORT_SIZE` is whole rows times the column count. `Geometry.BucketIsWholeRows` proves the bucket built from it is a multiple of the column count. |
| `Geometry.ComputeSizes` | src/lib/view.js:84-98 | The `(BUCKET_SIZE, BUFFER_SIZE)` pair one measurement sets. The lemmas below prove: the bucket is whole rows; the buffer never shrinks with the same columns; a column change recomputes it; the bucket fits in the buffer. |
| `Geometry.BucketIsWholeRows` | src/lib/view.js:84-89 | `BUCKET_SIZE` is rows·columns·bucketSizeVh: a multiple of the column count and of the multiplier. |
| `Geometry.BufferNeverShrinks` | src/lib/view.js:95-97 | With the column count unchanged the new buffer is `max(old buffer, viewport·bufferSizeVh)`: never below either, and equal to one of them. |
| `Geometry.ColumnChangeRecomputes` | src/lib/view.js:95-98 | On a column change the buffer is `viewport·bufferSizeVh`, whatever the previous buffer was. |
| `Geometry.BucketWithinBuffer` | src/lib/view.js:89-98 | When bucketSizeVh ≤ bufferSizeVh (the defaults 2 and 4) the bucket is never larger than the buffer. |
| `Geometry.DefaultSizesExample` | src/lib/view.js:84-89 | A 900-pixel viewport over a 300-pixel, 3-column grid gives 9 rows, bucket 54 and buffer 108. |
| `Coalescer.Reduce` | src/lib/view.js:125-131 | Folding the pairs yields the least offset seen and the last pair's length times its one-based position. |
| `Coalescer.Step` | src/lib/view.js:126-129 | One step of the `reduce`: the smaller offset, and the pair's length times its one-based index. `Coalescer.Reduce` proves what folding it yields. |
| `Coalescer.TakenIsSuffix` | src/lib/view.js:123-124 | `queue.slice(-3)` is the last `min(3, len)` entries of the queue. |
| `Coalescer.Taken` | src/lib/view.js:123-124 | `queue.slice(-3)`. `Coalescer.TakenIsSuffix` proves it is the last `min(3, len)` entries. |
| `Coalescer.Coalesce` | src/lib/view.js:123-131 | The outbound offset is the minimum offset among the taken pairs (attained by one of them), and the length is the last taken length times the number taken. |
| `Coalescer.OlderEntriesIgnored` | src/lib/view.js:119-124 | Entries older than the last three never affect the outbound call. |
| `Coalescer.CoalesceNonNegative` | src/lib/view.js:123-132 | A queue of non-negative pairs gives a non-negative outbound call. |
| `Coalescer.CoversAdjacentRun` | src/lib/view.js:119-131 | For adjacent equal-size buckets walked in one direction, the outbound call spans exactly from the lowest taken bucket to the end of the highest. |
| `Coalescer.MixedDirectionsExample` | src/lib/view.js:126-129 | (100,54) then (0,54) coalesce into (0,108), which does not cover [108,154). |
| `Coalescer.CoalesceExamples` | src/lib/view.js:123-132 | (10,5),(20,5),(30,5) → (10,15); (100,7) → (100,7); with two older pairs in front, still (10,15). |
| `Window.Missing` | src/lib/view.js:185 | `!item`: an `undefined` slot, or a loaded value JavaScript treats as false. |
| `Window.NeedMore` | src/lib/view.js:183-185 | `data.slice(start, end).some(item => !item)`. `Window.NeedMoreIff` proves it holds iff a slot of [start, min(end, len)) is missing. |
| `Window.NeedMoreIff` | src/lib/view.js:183-185 | `slice(start, end).some(item => !item)` holds iff some slot at a position in [start, min(end, len)) is missing. |
| `Window.TopStep` | src/lib/view.js:177-194 | The top callback: return early, or move up a bucket and queue a request. `Window.TopStepSpec` proves when it is ignored, where it moves and exactly when it queues. |
| `Window.BottomStep` | src/lib/view.js:202-223 | The bottom callback: return early, or move down a bucket and queue a request. `Window.BottomStepSpec` proves when it is ignored, where it moves and exactly when it queues. |
| `Window.TopStepSpec` | src/lib/view.js:177-194 | The top step is ignored iff `top − bucket < 0`. Otherwise the position drops by exactly one bucket and stays ≥ 0. `(newTop, bucket)` is queued iff a slot in [newTop, newTop+bucket) is missing. |
| `Window.BottomStepSpec` | src/lib/view.js:202-223 | The bottom step is ignored iff `top + buffer ≥ len`. Otherwise the position rises by one bucket. `(top+buffer, bucket)` is queued iff a slot in [newTop, newTop+buffer) is missing. The request ends where the moved window ends. With bucket ≤ buffer the new position stays inside the data. |
| `Window.TopStepExample` | src/lib/view.js:178-189 | At position 54, with bucket 54 and an `undefined` slot in [0,54), the window moves to 0 and requests (0,54). |
| `Layout.Render` | src/lib/view.js:262-283 | The padding rows above, the slice handed to `render`, and the padding rows below. `Layout.LayoutSpec` proves what each is at a non-negative position; the two lemmas after it cover position -1. |
| `Layout.LayoutSpec` | src/lib/view.js:262-283 | Rows above = `ceil(top/columns)` (≥ 0). The visible slice is `data[top, min(top+buffer, len))`. Rows below are 0 while len ≤ buffer, otherwise `ceil(max(0, len−top−buffer)/columns)`, and never negative. |
| `Layout.BeforePositioning` | src/lib/view.js:262-267 | At position -1 with no buffer nothing is visible. The padding above is 0 rows, or -1 in a one-column grid. |
| `Layout.MeasuredBeforePositioning` | src/lib/view.js:262-283 | At position -1 with a measured buffer, the visible slice is the last slot alone when the data is shorter than the buffer, else empty. The padding above is as in the first render, and the padding below counts one slot more than the data after the window. |
| `View.VirtualDatagrid.constructor` | src/lib/view.js:73-80 | The first render: position -1, no sizes, no refs, empty queue, no timer, no calls made. |
| `View.VirtualDatagrid.RequestMoreOptimized` | src/lib/view.js:113-118 | Each request appends exactly one pair to the queue and arms the timer; nothing else changes. |
| `View.VirtualDatagrid.Fire` | src/lib/view.js:118-134 | A fire makes exactly one `requestMore` call, `Coalesce(queue)`, then empties the queue and disarms the timer. |
| `View.VirtualDatagrid.Measure` | src/lib/view.js:82-108 | The sizes become `ComputeSizes(…, old buffer, columnsRef === columns)`. The position is kept, or set to 0 when overridden. The state change re-renders. |
| `View.VirtualDatagrid.Effect` | src/lib/view.js:139-231 | Exactly one of four branches runs. (1) With no buffer it measures and records the columns. (2) With no position, or with a new empty data array, it queues (0, BUFFER) and moves to 0. (3) On a column change it recomputes the sizes from scratch and resets the position to 0. (4) Otherwise it installs the observers over this render's data. |
| `View.VirtualDatagrid.TopSignal` | src/lib/view.js:175-198 | The new position and queue are those of `TopStep` over the data the observers were installed with. |
| `View.VirtualDatagrid.BottomSignal` | src/lib/view.js:200-227 | The new position and queue are those of `BottomStep` over the data the observers were installed with. |
| `View.VirtualDatagrid.Resize` | src/lib/view.js:229 | Resizing measures again with the columns in force. The position is kept and the buffer never shrinks. |
| `View.FirstRequestScenario` | src/lib/view.js:139-159 | Measuring, then positioning, then the timer gives the single call `requestMore(0, 108)` for the default geometry. |
| `View.ResizeScenario` | src/lib/view.js:200-229 | A bottom signal moves the window to 54 and queues (108, 54). A resize to 600 pixels then makes the bucket 36, and the position 54 is no longer a multiple of it. |
| `ReduceData.Base` | src/lib/reduce-data.js:2-4 | With non-empty items the base is the items and `total` is ignored. Otherwise it is `total` `undefined` slots. |
| `ReduceData.Merge` | src/lib/reduce-data.js:1-8 | The dataset `reduceData` returns: the batch spliced into the base at the offset, replacing as many slots as it has items. `ReduceData.ReduceData` is proved to compute it; the lemmas below prove its placement, length, idempotence and commutation. |
| `ReduceData.ReduceData` | src/lib/reduce-data.js:1-8 | Returns a fresh array holding `Merge` of the input, leaving the caller's array unmodified. |
| `ReduceData.MergeInRange` | src/lib/reduce-data.js:6 | When `0 ≤ offset` and `offset + len(newItems) ≤ len(base)`, the length is `len(base)`, `result[offset+i] = newItems[i]`, and every other slot equals the base. |
| `ReduceData.MergeLength` | src/lib/reduce-data.js:6 | The result is never shorter than the base. For `0 ≤ offset ≤ len(base)` its length is `max(len(base), offset+len(newItems))`. |
| `ReduceData.MergeNegativeOffset` | src/lib/reduce-data.js:6 | A negative offset counts from the end of the base (floored at 0). |
| `ReduceData.MergeIdempotent` | src/lib/reduce-data.js:1-8 | For `0 ≤ offset ≤ len(base)`, merging the same batch at the same offset twice equals merging it once. |
| `ReduceData.MergeCommutes` | src/lib/reduce-data.js:2-6 | Two in-range merges over disjoint ranges give the same dataset in either order. |
| `ReduceData.FirstBatch` | src/lib/reduce-data.js:2-6 | A batch merged at 0 into an empty dataset gives `total` slots: the batch first, then `undefined` slots (for total 200 and 50 items, slots 50..199 are empty). |
| `ApiMock.FetchItems` | src/api-mock.js:5-20 | `total` is always 200. With `offset'` and `length'` the clamped request, there are exactly `min(length', 200 − offset')` items, so at most `length'` and ending by 200. Item i has `id = offset'+i` and `text = id+1`. |
| `ApiMock.ClampOffset` | src/api-mock.js:6 | `Math.max(0, Math.min(offset, 200))`. `ApiMock.ClampBounds` proves it lies in [0, 200] and is the identity in range. |
| `ApiMock.ClampLength` | src/api-mock.js:7 | `Math.max(0, length)`. `ApiMock.ClampBounds` proves it is never negative and is the identity for non-negative lengths. |
| `ApiMock.ClampBounds` | src/api-mock.js:6-7 | The effective offset lies in [0, 200] and the effective length is ≥ 0. Both equal the request when it is already in range. |
| `ApiMock.EmptyPage` | src/api-mock.js:6-12 | The items list is empty iff `offset ≥ 200` or `length ≤ 0`. |
| `ApiMock.PageForRange` | src/api-mock.js:11-16 | For an in-range request the count is `min(length, 200 − offset)`, and item i is `{id: offset+i, text: offset+i+1}`. |
| `Demo.AsSlots` | src/index.js:15-20 | Fetched items as dataset slots: the same length, and slot i holds item i. |
| `Demo.RequestMoreAndRender` | src/index.js:14-22 | The dataset after one `requestMoreAndRender`: the fetched page merged at the requested offset. `Demo.PageFitsDataset` and `Demo.NegativeOffsetMisplaces` prove where the page lands. |
| `Demo.MergeIntoDataset` | src/index.js:16-20 | Slots merged at an offset that keeps them within 200 slots, into an empty or 200-slot dataset, land at their own positions; every other slot is `undefined` (empty dataset) or unchanged. |
| `Demo.PageFitsDataset` | src/index.js:14-22 | A page for an offset in [0, 200] fits inside an empty or already-sized dataset. The result has 200 slots: slot k of the fetched range holds item k, and every other slot is unchanged. |
| `Demo.NegativeOffsetMisplaces` | src/index.js:15-20 | A request at -10 for 10 items into an empty dataset fetches items 0..9 but stores them in slots 190..199 (item k−190 at slot k), and leaves slots 0..189 `undefined`. |

## Left out

- Boundary detection (`createObserver`, src/lib/view.js:11-48): the
  IntersectionObserver, `getBoundingClientRect` and `window.innerHeight` are
  DOM concerns. Their effect is modelled only as `TopSignal`/`BottomSignal`
  events, which may occur while the observers are installed.
- React plumbing: the dependency lists, `useState`/`useMemo`/`useCallback`,
  JSX, PropTypes and `memo` are not modelled. The caller of the model runs
  `Effect` after each render. Tearing down observers and the resize listener
  is modelled only as the `observing` flag.
- Stale closures: in the source, a callback that fires between a `setState`
  and the next render still sees the previous state. The model lets callbacks
  fire only while `observing` holds, which each state change clears.
- Wall-clock timing: the 10 ms debounce is the explicit `Fire` step. The
  zero-delay `setTimeout` around the positioning request is dropped, so the
  request is queued during the effect itself rather than one tick later. In
  the source the next effect's `createObserver` can call the bottom callback
  synchronously (src/lib/view.js:24-29) and queue `(BUFFER, BUCKET)` ahead of
  the deferred `(0, BUFFER)`; the fire then sends `(0, 2·BUFFER)` where the
  model sends `(0, 2·BUCKET)`. This needs non-empty data, longer than the
  buffer and with a missing slot, at mount.
- Floating point: `Math.round(innerHeight / (offsetWidth / columns))` is
  computed exactly on the rational `innerHeight·columns/offsetWidth`. The
  percentage CSS conversion of the padding rows is not modelled.
  `bucketSizeVh`/`bufferSizeVh` are positive integers, not fractions.
- Zero width: the source divides by the measured width without a guard.
  `Measure` and `Resize`, and `Effect` in the two branches that measure,
  require a positive width. The source's `Infinity`/`NaN` sizes are not
  modelled.
- The resize event passed as `newState` spreads its own properties into the
  state. None of them is a field the model keeps, so it is treated as an
  empty override.
- Async fetch completion order, and stale responses merged after a reset:
  these are interleavings outside the single-threaded steps modelled here.
  The source has no epoch guard.
- `src/index.js` rendering with `ReactDOM` and its module-global `items` are
  not modelled. Its merge is the same code as `reduceData` and is covered by
  `Demo.RequestMoreAndRender`.
- Arrays with holes: a `data` prop such as `new Array(n)` is not modelled.
  `Array.prototype.some` skips holes, so for such a prop the source's
  `needMore` can be false where `Window.NeedMore` is true. Every array the
  program builds itself (`Array.from`, spread, `splice`) is dense and holds
  `undefined`, which is what `None` stands for.
- The Promise and the `Math.random` latency of `fetchItems`
  (src/api-mock.js:9, 18) are left out: the model is the payload only.
- `requestMore` is whichever callback the last request captured. The model
  records every call in `outbox` rather than calling out.
