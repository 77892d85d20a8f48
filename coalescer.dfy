/** The arithmetic of `requestMoreOptimized`: when the debounce timer fires,
    the last three queued `(start, limit)` pairs are folded into one request. */
module Coalescer {
  import opened Js

  /** One queued `(start, limit)` pair, and one outbound `requestMore` call. */
  datatype Request = Request(offset: int, length: int)

  /** How many of the most recent queued pairs a fire looks at. */
  const Lookback: nat := 3

  /** The accumulator of the `reduce`: `Seed` is the initial `[Infinity]`
      (the minimum of infinity and any offset is that offset). */
  datatype Acc = Seed | Acc(offset: int, length: int)

  /** One step of the reduction, at zero-based position `i` among the taken
      pairs: keep the smaller offset, and take the pair's length times its
      one-based position. */
  function Step(acc: Acc, pair: Request, i: nat): Acc
  {
    Acc(if acc.Seed? then pair.offset else Min(acc.offset, pair.offset),
        pair.length * (i + 1))
  }

  /** The left fold of `Step` over `pairs`, the first of which sits at
      position `i`. Once at least one pair has been folded in, the offset is
      the least offset seen (including the accumulator's) and the length is
      the last pair's length times the number of pairs up to it. */
  function Reduce(acc: Acc, pairs: seq<Request>, i: nat): (r: Acc)
    decreases |pairs|
    ensures pairs == [] ==> r == acc
    ensures pairs != [] ==> r.Acc? && r.length == pairs[|pairs| - 1].length * (i + |pairs|)
    ensures pairs != [] ==> forall k :: 0 <= k < |pairs| ==> r.offset <= pairs[k].offset
    ensures pairs != [] && acc.Acc? ==> r.offset <= acc.offset
    ensures pairs != [] ==>
              (acc.Acc? && r.offset == acc.offset) ||
              (exists k :: 0 <= k < |pairs| && r.offset == pairs[k].offset)
  {
    if pairs == [] then acc
    else
      var r := Reduce(Step(acc, pairs[0], i), pairs[1..], i + 1);
      assert pairs[1..] != [] ==> pairs[1..][|pairs[1..]| - 1] == pairs[|pairs| - 1];
      assert forall k :: 1 <= k < |pairs| ==> pairs[1..][k - 1] == pairs[k];
      r
  }

  /** The pairs a fire takes: `queue.slice(-3)`. */
  function Taken(queue: seq<Request>): seq<Request>
  {
    Slice(queue, -(Lookback as int), |queue|)
  }

  /** The taken pairs are the last `min(3, |queue|)` entries of the queue. */
  lemma TakenIsSuffix(queue: seq<Request>)
    ensures |Taken(queue)| == Min(Lookback, |queue|)
    ensures Taken(queue) == queue[|queue| - Min(Lookback, |queue|)..]
  {
  }

  /** The single call a fire makes out of a non-empty queue. */
  function Coalesce(queue: seq<Request>): (r: Request)
    requires queue != []
    ensures var t := Taken(queue);
            (forall k :: 0 <= k < |t| ==> r.offset <= t[k].offset) &&
            (exists k :: 0 <= k < |t| && r.offset == t[k].offset) &&
            r.length == t[|t| - 1].length * |t|
  {
    TakenIsSuffix(queue);
    var acc := Reduce(Seed, Taken(queue), 0);
    Request(acc.offset, acc.length)
  }

  /** Entries older than the last three queued pairs never reach
      `requestMore`: they have no effect on the outbound call. */
  lemma {:induction false} OlderEntriesIgnored(older: seq<Request>, recent: seq<Request>)
    requires |recent| >= Lookback
    ensures Coalesce(older + recent) == Coalesce(recent)
  {
    var q := older + recent;
    TakenIsSuffix(q);
    TakenIsSuffix(recent);
    assert Taken(q) == Taken(recent) by {
      assert q[|q| - Lookback..] == recent[|recent| - Lookback..];
    }
  }

  /** A non-negative queue (the engine only queues non-negative offsets and
      lengths) gives a non-negative outbound call. */
  lemma CoalesceNonNegative(queue: seq<Request>)
    requires queue != []
    requires forall k :: 0 <= k < |queue| ==> 0 <= queue[k].offset && 0 <= queue[k].length
    ensures 0 <= Coalesce(queue).offset && 0 <= Coalesce(queue).length
  {
    TakenIsSuffix(queue);
    var t, r := Taken(queue), Coalesce(queue);
    var n := |t|;
    var k :| 0 <= k < n && r.offset == t[k].offset;
    assert t[k] == queue[|queue| - n + k];
    assert t[n - 1] == queue[|queue| - 1];
    ProductNonNegative(t[n - 1].length, n);
  }

  lemma ProductNonNegative(a: int, b: int)
    requires 0 <= a && 0 <= b
    ensures 0 <= a * b
  {
  }

  /** When the taken pairs are adjacent buckets of one size walked in one
      direction (what a run of bottom signals, or of top signals, queues),
      the outbound call covers exactly their union. */
  lemma CoversAdjacentRun(queue: seq<Request>, bucket: nat, step: int)
    requires queue != []
    requires step == bucket || step == -(bucket as int)
    requires forall k :: 0 <= k < |Taken(queue)| ==> Taken(queue)[k].length == bucket
    requires forall k :: 0 < k < |Taken(queue)| ==> Taken(queue)[k].offset == Taken(queue)[k - 1].offset + step
    ensures var t, r := Taken(queue), Coalesce(queue);
            r.offset == Min(t[0].offset, t[|t| - 1].offset) &&
            r.offset + r.length == Max(t[0].offset, t[|t| - 1].offset) + bucket
  {
    var t, r := Taken(queue), Coalesce(queue);
    var n := |t|;
    assert 1 <= n <= 3 && t[n - 1].length == bucket;
    assert r.length == bucket * n;
    var first, last := t[0].offset, t[n - 1].offset;
    if n == 1 {
      assert r.offset == first && first == last;
    } else if n == 2 {
      assert last == first + step;
      assert r.offset <= first && r.offset <= last && (r.offset == first || r.offset == last);
      assert r.length == 2 * bucket;
    } else {
      var middle := t[1].offset;
      assert middle == first + step && last == middle + step;
      assert r.offset <= first && r.offset <= middle && r.offset <= last;
      assert r.offset == first || r.offset == middle || r.offset == last;
      assert r.length == 3 * bucket;
    }
    assert r.offset == Min(first, last) && r.offset + r.length == Max(first, last) + bucket;
  }

  /** A run of alternating directions is not covered: a bottom request for
      [100, 154) followed by a top request for [0, 54) coalesce into
      [0, 108), which misses [108, 154). */
  lemma MixedDirectionsExample()
    ensures Coalesce([Request(100, 54), Request(0, 54)]) == Request(0, 108)
  {
    assert Taken([Request(100, 54), Request(0, 54)]) == [Request(100, 54), Request(0, 54)];
  }

  /** Three requests (10, 5), (20, 5), (30, 5) give one call (10, 15); a
      single request (100, 7) gives (100, 7); of five requests only the last
      three count. */
  lemma CoalesceExamples()
    ensures Coalesce([Request(10, 5), Request(20, 5), Request(30, 5)]) == Request(10, 15)
    ensures Coalesce([Request(100, 7)]) == Request(100, 7)
    ensures Coalesce([Request(0, 9), Request(5, 9), Request(10, 5), Request(20, 5), Request(30, 5)]) == Request(10, 15)
  {
    var three := [Request(10, 5), Request(20, 5), Request(30, 5)];
    assert Taken(three) == three;
    var r := Coalesce(three);
    assert r.offset <= 10 && (r.offset == 10 || r.offset == 20 || r.offset == 30);
    assert r.length == 5 * 3;
    var one := [Request(100, 7)];
    assert Taken(one) == one;
    assert Coalesce(one).offset == 100 && Coalesce(one).length == 7 * 1;
    OlderEntriesIgnored([Request(0, 9), Request(5, 9)], three);
    assert [Request(0, 9), Request(5, 9)] + three
        == [Request(0, 9), Request(5, 9), Request(10, 5), Request(20, 5), Request(30, 5)];
  }
}
