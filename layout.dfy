/** What one render lays out: the padding rows above the window, the
    visible slice handed to the render callback, and the padding rows below. */
module Layout {
  import opened Js

  datatype Frame<A> = Frame(rowsAbove: int, visible: seq<A>, rowsBelow: int)

  /** The frame for `topPosition` and `BUFFER_SIZE` over `data` in a grid of
      `columns` columns. */
  function Render<A>(data: seq<A>, topPosition: int, buffer: int, columns: int): Frame<A>
    requires columns > 0
  {
    Frame(CeilDiv(topPosition, columns),
          Slice(data, topPosition, topPosition + buffer),
          if |data| > buffer then CeilDiv(Max(0, |data| - topPosition - buffer), columns) else 0)
  }

  /** At a non-negative position: the rows above are the fewest whole rows
      holding the `topPosition` slots before the window; the visible slice is
      the data from the position on, at most `buffer` slots and clamped to
      the data; the rows below are never negative, are zero while the data
      fits in the buffer, and otherwise are the fewest whole rows holding
      the slots after the window. */
  lemma LayoutSpec<A>(data: seq<A>, topPosition: nat, buffer: nat, columns: nat)
    requires columns > 0
    ensures var f := Render(data, topPosition, buffer, columns);
            f.rowsAbove >= 0 &&
            columns * (f.rowsAbove - 1) < topPosition <= columns * f.rowsAbove &&
            |f.visible| == Max(0, Min(topPosition + buffer, |data|) - topPosition) &&
            (forall i :: 0 <= i < |f.visible| ==> f.visible[i] == data[topPosition + i]) &&
            f.rowsBelow >= 0 &&
            (|data| <= buffer ==> f.rowsBelow == 0) &&
            (|data| > buffer ==>
               var after := Max(0, |data| - topPosition - buffer);
               columns * (f.rowsBelow - 1) < after <= columns * f.rowsBelow)
  {
    SliceAt(data, topPosition, topPosition + buffer);
  }

  /** Before the first positioning (`topPosition` still -1 and no buffer
      yet) nothing is visible; the padding above is `ceil(-1 / columns)`,
      which is 0 except in a one-column grid, where it is -1. */
  lemma BeforePositioning<A>(data: seq<A>, columns: nat)
    requires columns > 0
    ensures Render(data, -1, 0, columns).rowsAbove == (if columns == 1 then -1 else 0)
    ensures Render(data, -1, 0, columns).visible == []
  {
    if columns > 1 {
      assert 1 / columns == 0;
    }
  }

  /** The render between measuring and positioning (`topPosition` still -1
      but a buffer already measured) shows `data.slice(-1, buffer - 1)`: the
      last slot alone when the data is shorter than the buffer, and nothing
      otherwise. The padding below counts one slot more than the data
      after the window would hold. */
  lemma MeasuredBeforePositioning<A>(data: seq<A>, buffer: nat, columns: nat)
    requires columns > 0 && buffer > 0 && |data| > 0
    ensures var f := Render(data, -1, buffer, columns);
            f.rowsAbove == (if columns == 1 then -1 else 0) &&
            f.visible == (if |data| < buffer then [data[|data| - 1]] else []) &&
            (|data| <= buffer ==> f.rowsBelow == 0) &&
            (|data| > buffer ==> columns * (f.rowsBelow - 1) < |data| - buffer + 1 <= columns * f.rowsBelow)
  {
    BeforePositioning(data, columns);
    assert RelativeIndex(-1, |data|) == |data| - 1;
    if |data| < buffer {
      assert RelativeIndex(buffer - 1, |data|) == |data|;
    } else {
      assert RelativeIndex(buffer - 1, |data|) == buffer - 1;
    }
  }
}
