/** The few pieces of JavaScript semantics the grid relies on: `undefined`
    slots, `Array.prototype.slice` and `splice` with their index clamping,
    `Math.round` and `Math.ceil` of an integer quotient. */
module Js {

  /** A slot of the dataset: `None` is a slot holding `undefined`. */
  datatype Option<T> = None | Some(value: T)

  function Min(a: int, b: int): int { if a <= b then a else b }

  function Max(a: int, b: int): int { if a <= b then b else a }

  /** Where a relative index argument of `slice`/`splice` lands in an array of
      length `len`: a negative index counts from the end, and both ends are
      clamped to [0, len]. */
  function RelativeIndex(k: int, len: nat): (r: nat)
    ensures r <= len
  {
    if k < 0 then Max(len + k, 0) else Min(k, len)
  }

  /** `s.slice(start, end)`. */
  function Slice<A>(s: seq<A>, start: int, end: int): seq<A>
  {
    var from, to := RelativeIndex(start, |s|), RelativeIndex(end, |s|);
    if from < to then s[from..to] else []
  }

  /** For non-negative bounds, `slice` holds exactly the elements of `s` at
      positions in [start, end) that exist: it clamps to the array length. */
  lemma SliceAt<A>(s: seq<A>, start: nat, end: nat)
    ensures |Slice(s, start, end)| == Max(0, Min(end, |s|) - start)
    ensures forall i :: 0 <= i < |Slice(s, start, end)| ==> Slice(s, start, end)[i] == s[start + i]
  {
    var from, to := RelativeIndex(start, |s|), RelativeIndex(end, |s|);
    if start >= |s| {
      assert from == |s|;
    } else {
      assert from == start && to == Min(end, |s|);
    }
  }

  /** The array `s.splice(start, deleteCount, ...items)` leaves behind: the
      start is relative as in `slice`, the delete count is clamped to what is
      left after the start, and the new items go in at the start. */
  function Splice<A>(s: seq<A>, start: int, deleteCount: int, items: seq<A>): seq<A>
  {
    var st := RelativeIndex(start, |s|);
    var dc := Min(Max(deleteCount, 0), |s| - st);
    s[..st] + items + s[st + dc..]
  }

  /** Where every element of a splice comes from: with `st` the start made
      absolute and `dc` the elements it removes, the result is `s` up to
      `st`, then the new items, then the rest of `s` after the `dc`
      removed elements. */
  lemma SpliceAt<A>(s: seq<A>, start: int, deleteCount: nat, items: seq<A>)
    ensures var st := RelativeIndex(start, |s|);
            var dc := Min(deleteCount, |s| - st);
            var r := Splice(s, start, deleteCount, items);
            |r| == |s| - dc + |items| &&
            (forall k :: 0 <= k < st ==> r[k] == s[k]) &&
            (forall k :: st <= k < st + |items| ==> r[k] == items[k - st]) &&
            (forall k :: st + |items| <= k < |r| ==> r[k] == s[k - |items| + dc])
  {
    var st := RelativeIndex(start, |s|);
    var dc := Min(deleteCount, |s| - st);
    var front, back := s[..st], s[st + dc..];
    var r := Splice(s, start, deleteCount, items);
    assert r == front + items + back;
    forall k | 0 <= k < st
      ensures r[k] == s[k]
    {
      assert r[k] == front[k];
    }
    forall k | st <= k < st + |items|
      ensures r[k] == items[k - st]
    {
      assert r[k] == (front + items)[k];
    }
    forall k | st + |items| <= k < |r|
      ensures r[k] == s[k - |items| + dc]
    {
      assert r[k] == back[k - st - |items|];
    }
  }

  /** A splice that replaces as many elements as it inserts, inside the
      array, keeps the length, puts item i at start + i, and keeps every
      other element. */
  lemma SpliceInRange<A>(s: seq<A>, start: nat, items: seq<A>)
    requires start + |items| <= |s|
    ensures var r := Splice(s, start, |items|, items);
            |r| == |s| &&
            (forall i :: 0 <= i < |items| ==> r[start + i] == items[i]) &&
            (forall k :: 0 <= k < |s| && !(start <= k < start + |items|) ==> r[k] == s[k])
  {
    var r := Splice(s, start, |items|, items);
    var front, back := s[..start], s[start + |items|..];
    assert r == front + items + back;
    forall i | 0 <= i < |items|
      ensures r[start + i] == items[i]
    {
      assert r[start + i] == (front + items)[start + i];
    }
    forall k | 0 <= k < |s| && !(start <= k < start + |items|)
      ensures r[k] == s[k]
    {
      if k < start {
        assert r[k] == front[k];
      } else {
        assert r[k] == back[k - start - |items|];
      }
    }
  }

  /** `Math.round(n / d)`: the nearest integer, halves rounded up. */
  function RoundDiv(n: int, d: int): (r: int)
    requires d > 0
    ensures d * (2 * r - 1) <= 2 * n < d * (2 * r + 1)
    ensures 0 <= n ==> 0 <= r
  {
    var q := (2 * n + d) / (2 * d);
    assert 2 * d * q <= 2 * n + d < 2 * d * q + 2 * d;
    q
  }

  /** `Math.ceil(n / d)`: the least integer not below the quotient. */
  function CeilDiv(n: int, d: int): (r: int)
    requires d > 0
    ensures d * (r - 1) < n <= d * r
  {
    var q := (-n) / d;
    assert d * q <= -n < d * q + d;
    -q
  }
}
