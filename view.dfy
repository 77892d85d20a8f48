/** The stateful part of `VirtualDatagridImpure`: its state (`topPosition`,
    `BUCKET_SIZE`, `BUFFER_SIZE`), the refs it keeps across renders, the
    request queue of `requestMoreOptimized`, and the steps that change them.

    Each render runs the effect (`Effect`) with the render's props and
    measurements. The observer callbacks (`TopSignal`, `BottomSignal`) and
    the resize listener (`Resize`) exist only while the last effect run
    reached its final branch (`observing`); every `setState` re-renders, so
    after one of them the next `Effect` call must re-install them. The
    debounce timer's expiry is the explicit step `Fire`, and `outbox`
    records every `requestMore(offset, length)` call made. */
module View {
  import opened Js
  import opened Geometry
  import opened Coalescer
  import opened Window

  /** `[req]` for a request, `[]` for none. */
  function Queued(req: Option<Request>): seq<Request>
  {
    if req.Some? then [req.value] else []
  }

  class VirtualDatagrid<T> {
    /** `bucketSizeVh`, `bufferSizeVh`: screens per bucket and per buffer. */
    const bucketSizeVh: nat
    const bufferSizeVh: nat
    /** Which loaded values JavaScript treats as false (`!item`). */
    const isFalsy: T -> bool

    /** `state.topPosition`, -1 until the first positioning. */
    var topPosition: int
    /** `state.BUCKET_SIZE` (0 stands for its initial `undefined`). */
    var bucket: nat
    /** `state.BUFFER_SIZE`, 0 until the first measurement. */
    var buffer: nat
    /** `columnsRef.current`. */
    var prevColumns: Option<nat>
    /** `dataRef.current`: the `data` array of an earlier render. */
    var dataRef: array?<Option<T>>
    /** Whether the observers and the resize listener are installed. */
    var observing: bool
    /** The pairs queued by `requestMoreOptimized` since the last fire. */
    var queue: seq<Request>
    /** Whether the debounce timer is armed. */
    var pending: bool
    /** Every `requestMore` call made so far, in order. */
    var outbox: seq<Request>

    ghost predicate Valid()
      reads this
    {
      bucketSizeVh > 0 && bufferSizeVh > 0 &&
      -1 <= topPosition &&
      (pending <==> queue != []) &&
      (forall k :: 0 <= k < |queue| ==> 0 <= queue[k].offset && 0 <= queue[k].length) &&
      (forall k :: 0 <= k < |outbox| ==> 0 <= outbox[k].offset && 0 <= outbox[k].length) &&
      (observing ==>
         dataRef != null && 0 <= topPosition && buffer > 0 &&
         prevColumns.Some? && prevColumns.value > 0)
    }

    /** The first render, before any effect has run. */
    constructor (bucketSizeVh: nat, bufferSizeVh: nat, isFalsy: T -> bool)
      requires bucketSizeVh > 0 && bufferSizeVh > 0
      ensures Valid()
      ensures this.bucketSizeVh == bucketSizeVh && this.bufferSizeVh == bufferSizeVh && this.isFalsy == isFalsy
      ensures topPosition == -1 && bucket == 0 && buffer == 0 && prevColumns == None && dataRef == null
      ensures !observing && queue == [] && !pending && outbox == []
    {
      this.bucketSizeVh, this.bufferSizeVh, this.isFalsy := bucketSizeVh, bufferSizeVh, isFalsy;
      topPosition, bucket, buffer := -1, 0, 0;
      prevColumns, dataRef, observing := None, null, false;
      queue, pending, outbox := [], false, [];
    }

    /** `requestMoreOptimized(start, limit)`: queue the pair and (re)start
        the debounce timer. */
    method RequestMoreOptimized(start: nat, limit: nat)
      requires Valid()
      modifies this
      ensures Valid()
      ensures queue == old(queue) + [Request(start, limit)] && pending
      ensures outbox == old(outbox) && topPosition == old(topPosition) && bucket == old(bucket)
      ensures buffer == old(buffer) && prevColumns == old(prevColumns) && dataRef == old(dataRef)
      ensures observing == old(observing)
    {
      queue := queue + [Request(start, limit)];
      pending := true;
    }

    /** The debounce timer expires: one `requestMore` call made of the last
        three queued pairs, then the queue is cleared. */
    method Fire()
      requires Valid() && pending
      modifies this
      ensures Valid()
      ensures outbox == old(outbox) + [Coalesce(old(queue))]
      ensures queue == [] && !pending
      ensures topPosition == old(topPosition) && bucket == old(bucket) && buffer == old(buffer)
      ensures prevColumns == old(prevColumns) && dataRef == old(dataRef) && observing == old(observing)
    {
      CoalesceNonNegative(queue);
      outbox := outbox + [Coalesce(queue)];
      queue := [];
      pending := false;
    }

    /** `initBucketAndBufferSizes`, with `topPosition: 0` as the override
        when `resetTop` holds (the resize listener passes its event, which
        overrides nothing the model keeps). The new state re-renders. */
    method Measure(innerHeight: nat, offsetWidth: nat, columns: nat, resetTop: bool)
      requires Valid() && offsetWidth > 0 && columns > 0
      modifies this
      ensures Valid()
      ensures Sizes(bucket, buffer)
           == ComputeSizes(innerHeight, offsetWidth, columns, bucketSizeVh, bufferSizeVh,
                           old(buffer), old(prevColumns) == Some(columns))
      ensures topPosition == if resetTop then 0 else old(topPosition)
      ensures !observing
      ensures prevColumns == old(prevColumns) && dataRef == old(dataRef)
      ensures queue == old(queue) && pending == old(pending) && outbox == old(outbox)
    {
      var sizes := ComputeSizes(innerHeight, offsetWidth, columns, bucketSizeVh, bufferSizeVh,
                                buffer, prevColumns == Some(columns));
      bucket, buffer := sizes.bucket, sizes.buffer;
      if resetTop {
        topPosition := 0;
      }
      observing := false;
    }

    /** The effect needs the sizes first (`!BUFFER_SIZE`). */
    predicate NeedsSizes()
      reads this
    {
      buffer == 0
    }

    /** The window has no position yet, or `data` is a new, empty array. */
    predicate NeedsPositioning(data: array<Option<T>>)
      reads this
    {
      topPosition < 0 || (dataRef != data && data.Length == 0)
    }

    /** The column count differs from the one last measured with. */
    predicate ColumnsChanged(columns: nat)
      reads this
    {
      prevColumns != Some(columns)
    }

    /** The effect of one render with props `data` and `columns`, a viewport
        `innerHeight` high and a grid `offsetWidth` wide (read only by the
        two branches that measure). The observers of the previous run are
        removed first; then exactly one branch runs. */
    method Effect(data: array<Option<T>>, columns: nat, innerHeight: nat, offsetWidth: nat)
      requires Valid() && columns > 0
      requires NeedsSizes() || (!NeedsPositioning(data) && ColumnsChanged(columns)) ==> offsetWidth > 0
      modifies this
      ensures Valid()
      // Initial render: measure and remember the column count.
      ensures old(NeedsSizes()) ==>
                Sizes(bucket, buffer)
                  == ComputeSizes(innerHeight, offsetWidth, columns, bucketSizeVh, bufferSizeVh,
                                  old(buffer), old(prevColumns) == Some(columns)) &&
                topPosition == old(topPosition) && prevColumns == Some(columns) &&
                dataRef == old(dataRef) && queue == old(queue) && !observing
      // Positioning or reset: request the first buffer and move to 0.
      ensures !old(NeedsSizes()) && old(NeedsPositioning(data)) ==>
                topPosition == 0 && queue == old(queue) + [Request(0, old(buffer))] &&
                dataRef == data && bucket == old(bucket) && buffer == old(buffer) &&
                prevColumns == old(prevColumns) && !observing
      // Column change: back to 0 with both sizes recomputed from scratch.
      ensures !old(NeedsSizes()) && !old(NeedsPositioning(data)) && old(ColumnsChanged(columns)) ==>
                Sizes(bucket, buffer)
                  == ComputeSizes(innerHeight, offsetWidth, columns, bucketSizeVh, bufferSizeVh, old(buffer), false) &&
                topPosition == 0 && prevColumns == Some(columns) &&
                dataRef == old(dataRef) && queue == old(queue) && !observing
      // Steady state: install the observers over this render's data.
      ensures !old(NeedsSizes()) && !old(NeedsPositioning(data)) && !old(ColumnsChanged(columns)) ==>
                observing && dataRef == data && topPosition == old(topPosition) &&
                bucket == old(bucket) && buffer == old(buffer) && prevColumns == old(prevColumns) &&
                queue == old(queue)
      ensures outbox == old(outbox) && (pending <==> queue != [])
    {
      observing := false;
      if buffer == 0 {
        Measure(innerHeight, offsetWidth, columns, false);
        prevColumns := Some(columns);
      } else if topPosition < 0 || (dataRef != data && data.Length == 0) {
        RequestMoreOptimized(0, buffer);
        topPosition := 0;
        dataRef := data;
      } else if prevColumns != Some(columns) {
        Measure(innerHeight, offsetWidth, columns, true);
        prevColumns := Some(columns);
      } else {
        dataRef := data;
        observing := true;
      }
    }

    /** The top observer's callback: `TopStep` over the data of the render
        that installed it. Unless it returns early it sets the state, which
        re-renders. */
    method TopSignal()
      requires Valid() && observing
      modifies this
      ensures Valid()
      ensures bucket == old(bucket) && buffer == old(buffer) && prevColumns == old(prevColumns)
      ensures dataRef == old(dataRef) && outbox == old(outbox)
      ensures match TopStep(dataRef[..], isFalsy, old(topPosition), bucket)
              case Ignored =>
                topPosition == old(topPosition) && queue == old(queue) && pending == old(pending) && observing
              case Moved(top, req) =>
                topPosition == top && queue == old(queue) + Queued(req) && !observing &&
                (pending <==> queue != [])
    {
      ghost var step := TopStep(dataRef[..], isFalsy, topPosition, bucket);
      var newTop := topPosition - bucket;
      if newTop < 0 {
        return;
      }
      var more := NeedMore(dataRef[..], isFalsy, newTop, newTop + bucket);
      assert step == Moved(newTop, if more then Some(Request(newTop, bucket)) else None);
      if more {
        RequestMoreOptimized(newTop, bucket);
      }
      topPosition := newTop;
      observing := false;
    }

    /** The bottom observer's callback: `BottomStep` over the data of the
        render that installed it. */
    method BottomSignal()
      requires Valid() && observing
      modifies this
      ensures Valid()
      ensures bucket == old(bucket) && buffer == old(buffer) && prevColumns == old(prevColumns)
      ensures dataRef == old(dataRef) && outbox == old(outbox)
      ensures match BottomStep(dataRef[..], isFalsy, old(topPosition), bucket, buffer)
              case Ignored =>
                topPosition == old(topPosition) && queue == old(queue) && pending == old(pending) && observing
              case Moved(top, req) =>
                topPosition == top && queue == old(queue) + Queued(req) && !observing &&
                (pending <==> queue != [])
    {
      ghost var step := BottomStep(dataRef[..], isFalsy, topPosition, bucket, buffer);
      if topPosition + buffer >= dataRef.Length {
        return;
      }
      var newTop := topPosition + bucket;
      var more := NeedMore(dataRef[..], isFalsy, newTop, newTop + buffer);
      assert step == Moved(newTop, if more then Some(Request(topPosition + buffer, bucket)) else None);
      if more {
        RequestMoreOptimized(topPosition + buffer, bucket);
      }
      topPosition := newTop;
      observing := false;
    }

    /** The resize listener: measure again with the column count in force,
        keeping the position; the buffer can only grow. */
    method Resize(innerHeight: nat, offsetWidth: nat)
      requires Valid() && observing && offsetWidth > 0
      modifies this
      ensures Valid()
      ensures Sizes(bucket, buffer)
           == ComputeSizes(innerHeight, offsetWidth, old(prevColumns).value, bucketSizeVh, bufferSizeVh,
                           old(buffer), true)
      ensures buffer >= old(buffer)
      ensures topPosition == old(topPosition) && prevColumns == old(prevColumns) && dataRef == old(dataRef)
      ensures queue == old(queue) && pending == old(pending) && outbox == old(outbox) && !observing
    {
      Measure(innerHeight, offsetWidth, prevColumns.value, false);
    }
  }

  /** A session from the first render to the first `requestMore` call:
      the first effect measures (a 900-pixel viewport over a 300-pixel wide,
      3-column grid gives a 54-slot bucket and a 108-slot buffer), the
      second positions the window at 0 and queues the first buffer, and the
      timer sends `requestMore(0, 108)`. */
  method FirstRequestScenario<T>(isFalsy: T -> bool) returns (grid: VirtualDatagrid<T>)
    ensures fresh(grid) && grid.Valid()
    ensures grid.bucketSizeVh == 2 && grid.bufferSizeVh == 4 && grid.isFalsy == isFalsy
    ensures grid.topPosition == 0 && grid.bucket == 54 && grid.buffer == 108
    ensures grid.prevColumns == Some(3) && grid.dataRef != null && grid.dataRef.Length == 0
    ensures grid.queue == [] && grid.outbox == [Request(0, 108)]
  {
    grid := new VirtualDatagrid(2, 4, isFalsy);
    var empty := new Option<T>[0];
    grid.Effect(empty, 3, 900, 300);
    DefaultSizesExample();
    grid.Effect(empty, 3, 900, 300);
    grid.Fire();
    assert Taken([Request(0, 108)]) == [Request(0, 108)];
  }

  /** The window position is not kept a multiple of the bucket: continuing
      the session above with 200 empty slots, a bottom signal moves the
      window to 54 and queues the bucket after the buffer, (108, 54); a
      resize to a 600-pixel viewport then shrinks the bucket to 36 while the
      position stays at 54. */
  method ResizeScenario<T>(isFalsy: T -> bool) returns (grid: VirtualDatagrid<T>)
    ensures grid.Valid()
    ensures grid.topPosition == 54 && grid.bucket == 36 && grid.buffer == 108
    ensures grid.topPosition % grid.bucket != 0
    ensures grid.queue == [Request(108, 54)]
  {
    grid := FirstRequestScenario(isFalsy);
    var data := new Option<T>[200](_ => None);
    grid.Effect(data, 3, 900, 300);
    assert grid.observing;
    BottomStepSpec(data[..], isFalsy, 0, 54, 108);
    assert data[54] == None;
    grid.BottomSignal();
    grid.Effect(data, 3, 900, 300);
    grid.Resize(600, 300);
    assert RowsPerScreen(600, 300, 3) == 6;
  }
}
