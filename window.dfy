/** The two boundary callbacks of the window as pure steps: what the top and
    the bottom observer do to `topPosition` and which request they queue. */
module Window {
  import opened Js
  import opened Coalescer

  /** `!item`: an `undefined` slot, or a loaded value that JavaScript treats as false. */
  predicate Missing<T>(slot: Option<T>, isFalsy: T -> bool)
  {
    slot.None? || isFalsy(slot.value)
  }

  /** `data.slice(start, end).some(item => !item)`. */
  predicate NeedMore<T>(data: seq<Option<T>>, isFalsy: T -> bool, start: int, end: int)
  {
    var s := Slice(data, start, end);
    exists i :: 0 <= i < |s| && Missing(s[i], isFalsy)
  }

  /** For non-negative bounds, more is needed exactly when some slot of the
      data at a position in [start, end) is missing; positions past the end
      of the data do not count. */
  lemma NeedMoreIff<T>(data: seq<Option<T>>, isFalsy: T -> bool, start: nat, end: nat)
    ensures NeedMore(data, isFalsy, start, end) <==>
            exists k :: start <= k < end && k < |data| && Missing(data[k], isFalsy)
  {
    SliceAt(data, start, end);
    var s := Slice(data, start, end);
    if NeedMore(data, isFalsy, start, end) {
      var i :| 0 <= i < |s| && Missing(s[i], isFalsy);
      assert start + i < end && start + i < |data| && Missing(data[start + i], isFalsy);
    }
    if exists k :: start <= k < end && k < |data| && Missing(data[k], isFalsy) {
      var k :| start <= k < end && k < |data| && Missing(data[k], isFalsy);
      assert s[k - start] == data[k];
    }
  }

  /** What a boundary callback does: return early, or move the window to
      `top` and queue `request` if there is one. */
  datatype Move = Ignored | Moved(top: int, request: Option<Request>)

  /** The top observer's callback at position `top` with bucket `bucket`. */
  function TopStep<T>(data: seq<Option<T>>, isFalsy: T -> bool, top: int, bucket: int): Move
  {
    var newTop := top - bucket;
    if newTop < 0 then Ignored
    else Moved(newTop, if NeedMore(data, isFalsy, newTop, newTop + bucket)
                       then Some(Request(newTop, bucket)) else None)
  }

  /** The bottom observer's callback at position `top` with sizes `bucket`
      and `buffer`. */
  function BottomStep<T>(data: seq<Option<T>>, isFalsy: T -> bool, top: int, bucket: int, buffer: int): Move
  {
    if top + buffer >= |data| then Ignored
    else
      var newTop := top + bucket;
      Moved(newTop, if NeedMore(data, isFalsy, newTop, newTop + buffer)
                    then Some(Request(top + buffer, bucket)) else None)
  }

  /** The top step is ignored exactly when the window cannot move a whole
      bucket up; otherwise it moves up by exactly one bucket, stays at or
      after the start, and queues the bucket it moved onto exactly when a
      slot of that bucket is missing. */
  lemma TopStepSpec<T>(data: seq<Option<T>>, isFalsy: T -> bool, top: int, bucket: nat)
    ensures TopStep(data, isFalsy, top, bucket).Ignored? <==> top - bucket < 0
    ensures TopStep(data, isFalsy, top, bucket).Moved? ==>
              var m := TopStep(data, isFalsy, top, bucket);
              m.top == top - bucket && 0 <= m.top &&
              (m.request.Some? ==> m.request.value == Request(m.top, bucket)) &&
              (m.request.Some? <==>
                 exists k :: m.top <= k < m.top + bucket && k < |data| && Missing(data[k], isFalsy))
  {
    if top - bucket >= 0 {
      NeedMoreIff(data, isFalsy, top - bucket, top);
    }
  }

  /** The bottom step is ignored exactly when the window already reaches the
      end of the data; otherwise it moves down by exactly one bucket and,
      exactly when a slot of the moved window is missing, queues the bucket
      just past the old window. With a bucket no larger than the buffer the
      new position stays inside the data and the request ends where the
      moved window ends. */
  lemma BottomStepSpec<T>(data: seq<Option<T>>, isFalsy: T -> bool, top: nat, bucket: nat, buffer: nat)
    ensures BottomStep(data, isFalsy, top, bucket, buffer).Ignored? <==> top + buffer >= |data|
    ensures BottomStep(data, isFalsy, top, bucket, buffer).Moved? ==>
              var m := BottomStep(data, isFalsy, top, bucket, buffer);
              m.top == top + bucket &&
              (m.request.Some? ==> m.request.value == Request(top + buffer, bucket)) &&
              (m.request.Some? <==>
                 exists k :: m.top <= k < m.top + buffer && k < |data| && Missing(data[k], isFalsy)) &&
              (bucket <= buffer ==> m.top < |data|) &&
              (m.request.Some? ==> m.request.value.offset + m.request.value.length == m.top + buffer)
  {
    if top + buffer < |data| {
      NeedMoreIff(data, isFalsy, top + bucket, top + bucket + buffer);
    }
  }

  /** Position 54 with a 54-slot bucket over data whose first 54 slots hold
      an `undefined` slot: the top step moves to 0 and requests (0, 54). */
  lemma TopStepExample<T>(data: seq<Option<T>>, isFalsy: T -> bool)
    requires |data| >= 54 && data[10] == None
    ensures TopStep(data, isFalsy, 54, 54) == Moved(0, Some(Request(0, 54)))
  {
    NeedMoreIff(data, isFalsy, 0, 54);
  }
}
