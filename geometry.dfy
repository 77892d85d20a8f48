/** Sizing of the window (`initBucketAndBufferSizes`): how many slots one
    screen holds, the bucket the window slides by, and the buffer it keeps. */
module Geometry {
  import opened Js

  /** Rows that fit in the viewport: `Math.round(innerHeight / (offsetWidth /
      columns))`, a row being as tall as a column is wide. */
  function RowsPerScreen(innerHeight: nat, offsetWidth: nat, columns: nat): (rows: nat)
    requires offsetWidth > 0 && columns > 0
    ensures offsetWidth * (2 * rows - 1) <= 2 * innerHeight * columns < offsetWidth * (2 * rows + 1)
  {
    RoundDiv(innerHeight * columns, offsetWidth)
  }

  /** Slots on one screen: whole rows times the column count. */
  function ViewportSize(innerHeight: nat, offsetWidth: nat, columns: nat): nat
    requires offsetWidth > 0 && columns > 0
  {
    RowsPerScreen(innerHeight, offsetWidth, columns) * columns
  }

  datatype Sizes = Sizes(bucket: nat, buffer: nat)

  /** The sizes one measurement produces. `previousBuffer` is the buffer held
      so far and `sameColumns` says whether the column count is the one seen
      at the previous measurement. */
  function ComputeSizes(innerHeight: nat, offsetWidth: nat, columns: nat,
                        bucketSizeVh: nat, bufferSizeVh: nat,
                        previousBuffer: nat, sameColumns: bool): Sizes
    requires offsetWidth > 0 && columns > 0
  {
    var viewport := ViewportSize(innerHeight, offsetWidth, columns);
    Sizes(viewport * bucketSizeVh,
          if sameColumns then Max(previousBuffer, viewport * bufferSizeVh)
          else viewport * bufferSizeVh)
  }

  lemma MultipleMod(k: nat, m: nat)
    requires m > 0
    ensures (k * m) % m == 0
  {
    var x := k * m;
    var q, r := x / m, x % m;
    assert x == q * m + r && 0 <= r < m;
    var d := k - q;
    assert d * m == r by {
      assert d * m == k * m - q * m;
    }

  }

  /** The bucket is a whole number of rows and a whole number of screens. */
  lemma BucketIsWholeRows(innerHeight: nat, offsetWidth: nat, columns: nat,
                          bucketSizeVh: nat, bufferSizeVh: nat,
                          previousBuffer: nat, sameColumns: bool)
    requires offsetWidth > 0 && columns > 0 && bucketSizeVh > 0
    ensures var s := ComputeSizes(innerHeight, offsetWidth, columns, bucketSizeVh, bufferSizeVh, previousBuffer, sameColumns);
            s.bucket % columns == 0 &&
            s.bucket % bucketSizeVh == 0 &&
            s.bucket == ViewportSize(innerHeight, offsetWidth, columns) * bucketSizeVh
  {
    var rows := RowsPerScreen(innerHeight, offsetWidth, columns);
    var viewport := ViewportSize(innerHeight, offsetWidth, columns);
    assert viewport * bucketSizeVh == (rows * bucketSizeVh) * columns;
    MultipleMod(rows * bucketSizeVh, columns);
    MultipleMod(viewport, bucketSizeVh);
  }

  /** With the column count unchanged the buffer never shrinks: it is the
      larger of the buffer held so far and the freshly computed one. */
  lemma BufferNeverShrinks(innerHeight: nat, offsetWidth: nat, columns: nat,
                           bucketSizeVh: nat, bufferSizeVh: nat, previousBuffer: nat)
    requires offsetWidth > 0 && columns > 0
    ensures var s := ComputeSizes(innerHeight, offsetWidth, columns, bucketSizeVh, bufferSizeVh, previousBuffer, true);
            var recomputed := ViewportSize(innerHeight, offsetWidth, columns) * bufferSizeVh;
            s.buffer >= previousBuffer && s.buffer >= recomputed &&
            (s.buffer == previousBuffer || s.buffer == recomputed)
  {
  }

  /** After a column change the buffer is recomputed from scratch: the
      buffer held before has no influence on either size. */
  lemma ColumnChangeRecomputes(innerHeight: nat, offsetWidth: nat, columns: nat,
                               bucketSizeVh: nat, bufferSizeVh: nat,
                               previousBuffer: nat, otherPrevious: nat)
    requires offsetWidth > 0 && columns > 0
    ensures ComputeSizes(innerHeight, offsetWidth, columns, bucketSizeVh, bufferSizeVh, previousBuffer, false)
         == ComputeSizes(innerHeight, offsetWidth, columns, bucketSizeVh, bufferSizeVh, otherPrevious, false)
    ensures ComputeSizes(innerHeight, offsetWidth, columns, bucketSizeVh, bufferSizeVh, previousBuffer, false).buffer
         == ViewportSize(innerHeight, offsetWidth, columns) * bufferSizeVh
  {
  }

  /** With the default multipliers (or any bucket multiplier not above the
      buffer multiplier) the bucket fits inside the buffer. */
  lemma BucketWithinBuffer(innerHeight: nat, offsetWidth: nat, columns: nat,
                           bucketSizeVh: nat, bufferSizeVh: nat,
                           previousBuffer: nat, sameColumns: bool)
    requires offsetWidth > 0 && columns > 0 && bucketSizeVh <= bufferSizeVh
    ensures var s := ComputeSizes(innerHeight, offsetWidth, columns, bucketSizeVh, bufferSizeVh, previousBuffer, sameColumns);
            s.bucket <= s.buffer
  {
    var viewport := ViewportSize(innerHeight, offsetWidth, columns);
    assert viewport * bucketSizeVh <= viewport * bufferSizeVh;
  }

  /** A 900-pixel viewport over a 300-pixel wide, 3-column grid shows 9 rows,
      27 slots, and with the default multipliers a 54-slot bucket. */
  lemma DefaultSizesExample()
    ensures RowsPerScreen(900, 300, 3) == 9
    ensures ComputeSizes(900, 300, 3, 2, 4, 0, false) == Sizes(54, 108)
  {
  }
}
