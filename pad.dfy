/** `pad` of waifu2x.go: widen the luminance matrix by `padding` cells on every
    side and divide every value by 255, as the code does it, together with the
    edge-replicating padding the engine was meant to use. */
module Padding {
  import opened Mat

  /** What `pad(im, padding)` needs so that it neither reads outside `im` nor
      writes past its buffer: a non-empty matrix (the four corners are read
      first); `padding <= rows`, because the three row loops write
      `padding + max(0, rows - padding) + 2 * padding` rows into a buffer of
      `rows + 2 * padding`; and, unless `padding < rows`, no top-row column in
      `[padding, cols)`, whose cells read row `padding`. */
  predicate PadFits(im: Dense, padding: nat) {
    im.Valid() && 1 <= im.rows && 1 <= im.cols && padding <= im.rows &&
    (padding < im.rows || im.cols <= padding)
  }

  /** Column `j` of one row of `pad`'s result, as the inner `for j` loop writes
      it: columns left of `padding` get `left`, columns from `cols` on get
      `right`, and the columns between read source row `midRow`, divided by 255. */
  function RowValue(im: Dense, padding: nat, left: real, right: real, midRow: nat, j: nat): real
    requires im.Valid() && 1 <= im.cols && j < im.cols + 2 * padding
    requires padding <= j < im.cols ==> midRow < im.rows
  {
    if j < padding then left
    else if j >= im.cols then right
    else im.At(midRow, j) / 255.0
  }

  /** The value `pad` stores in cell (i, j) of its result, region by region as
      its three row loops write it:
      - the first `padding` rows take the two top corners at the sides and read
        row `padding` (not row 0) in the middle;
      - the middle rows i in [padding, rows) take row i - padding at the sides
        but read row i itself (with no offset) in the middle;
      - the last 2 * padding rows take the two bottom corners at the sides and
        read the last row in the middle. */
  function PadCell(im: Dense, padding: nat, i: nat, j: nat): real
    requires PadFits(im, padding)
    requires i < im.rows + 2 * padding && j < im.cols + 2 * padding
  {
    var r, c := im.rows, im.cols;
    if i < padding then
      RowValue(im, padding, im.At(0, 0) / 255.0, im.At(0, c - 1) / 255.0, padding, j)
    else if i < r then
      RowValue(im, padding, im.At(i - padding, 0) / 255.0, im.At(i - padding, c - 1) / 255.0, i, j)
    else
      RowValue(im, padding, im.At(r - 1, 0) / 255.0, im.At(r - 1, c - 1) / 255.0, r - 1, j)
  }

  /** The cell rule of `pad(im, padding)` as a function of (i, j), total so
      that the buffer invariants of `Pad` carry no side conditions (outside
      the result it is 0). */
  function PadRule(im: Dense, padding: nat): (nat, nat) -> real
  {
    (i: nat, j: nat) =>
      if PadFits(im, padding) && i < im.rows + 2 * padding && j < im.cols + 2 * padding
      then PadCell(im, padding, i, j) else 0.0
  }

  /** The matrix `pad(im, padding)` returns. */
  function Padded(im: Dense, padding: nat): (r: Dense)
    requires PadFits(im, padding)
    ensures r.Valid() && r.rows == im.rows + 2 * padding && r.cols == im.cols + 2 * padding
    ensures forall i: nat, j: nat :: i < r.rows && j < r.cols ==> r.At(i, j) == PadCell(im, padding, i, j)
  {
    Tabulate(im.rows + 2 * padding, im.cols + 2 * padding, PadRule(im, padding))
  }

  /** The buffer of `Padded` is the row-major layout of its cell rule. */
  lemma PaddedLayout(im: Dense, padding: nat)
    requires PadFits(im, padding)
    ensures Padded(im, padding).data == Rows(im.rows + 2 * padding, im.cols + 2 * padding, PadRule(im, padding))
    ensures Padded(im, padding).rows == im.rows + 2 * padding && Padded(im, padding).cols == im.cols + 2 * padding
  {
  }

  /** Row i of `pad`'s result is the row `PadRow` writes from the side values
      and source row its region uses. */
  lemma RegionRow(im: Dense, padding: nat, i: nat, left: real, right: real, midRow: nat)
    requires PadFits(im, padding) && i < im.rows + 2 * padding
    requires i < padding ==> left == im.At(0, 0) / 255.0 && right == im.At(0, im.cols - 1) / 255.0 && midRow == padding
    requires padding <= i < im.rows ==>
      left == im.At(i - padding, 0) / 255.0 && right == im.At(i - padding, im.cols - 1) / 255.0 && midRow == i
    requires im.rows <= i ==>
      left == im.At(im.rows - 1, 0) / 255.0 && right == im.At(im.rows - 1, im.cols - 1) / 255.0 && midRow == im.rows - 1
    ensures padding < im.cols ==> midRow < im.rows
    ensures forall j: nat :: j < im.cols + 2 * padding ==>
      PadRule(im, padding)(i, j) == RowValue(im, padding, left, right, midRow, j)
  {
  }

  /** One pass of the inner `for j` loop of `pad`: writes the `cols + 2p`
      cells of padded row `i` at `newVec[idx..]`, the side columns from `left`
      and `right` and the middle ones from source row `midRow`, and returns
      the advanced index. The cells before `idx` are left as they were. */
  method PadRow(im: Dense, padding: nat, left: real, right: real, midRow: nat,
                newVec: array<real>, idx: nat, i: nat, ghost cell: (nat, nat) -> real)
    returns (next: nat)
    modifies newVec
    requires im.Valid() && 1 <= im.cols && (padding < im.cols ==> midRow < im.rows)
    requires idx + (im.cols + 2 * padding) <= newVec.Length
    requires forall j: nat :: j < im.cols + 2 * padding ==>
      cell(i, j) == RowValue(im, padding, left, right, midRow, j)
    ensures next == idx + (im.cols + 2 * padding)
    ensures newVec[..next] == old(newVec[..idx]) + Row(i, im.cols + 2 * padding, cell)
  {
    var c := im.cols;
    var newCols := c + padding * 2;
    next := idx;
    for j := 0 to newCols
      invariant next == idx + j
      invariant newVec[..next] == old(newVec[..idx]) + Row(i, j, cell)
    {
      if j < padding {
        newVec[next] := left;
      } else if j >= c {
        newVec[next] := right;
      } else {
        newVec[next] := im.At(midRow, j) / 255.0;
      }
      RowSnoc(i, j, cell);
      assert newVec[..next + 1] == newVec[..next] + [cell(i, j)];
      next := next + 1;
    }
  }

  /** The first row loop of `pad`: rows [0, padding) from the two top corners
      and source row `padding`, starting at the head of the buffer. */
  method PadTop(im: Dense, padding: nat, newVec: array<real>) returns (idx: nat)
    modifies newVec
    requires PadFits(im, padding)
    requires newVec.Length == Times(im.rows + 2 * padding, im.cols + 2 * padding)
    ensures idx == Times(padding, im.cols + 2 * padding) <= newVec.Length
    ensures newVec[..idx] == Rows(padding, im.cols + 2 * padding, PadRule(im, padding))
  {
    var r, c := im.rows, im.cols;
    var newRows := r + padding * 2;
    var newCols := c + padding * 2;
    ghost var cell: (nat, nat) -> real := PadRule(im, padding);
    var topLeft := im.At(0, 0) / 255.0;
    var topRight := im.At(0, c - 1) / 255.0;
    idx := 0;
    for i := 0 to padding
      invariant idx == Times(i, newCols) <= newVec.Length
      invariant newVec[..idx] == Rows(i, newCols, cell)
    {
      FlatIndex(i, 0, newRows, newCols);
      RegionRow(im, padding, i, topLeft, topRight, padding);
      idx := PadRow(im, padding, topLeft, topRight, padding, newVec, idx, i, cell);
    }
  }

  /** The second row loop of `pad`: rows [padding, rows), row i taking its side
      values from source row `row` = i - padding and its middle from source
      row i. */
  method PadMiddle(im: Dense, padding: nat, newVec: array<real>, start: nat) returns (idx: nat)
    modifies newVec
    requires PadFits(im, padding)
    requires newVec.Length == Times(im.rows + 2 * padding, im.cols + 2 * padding)
    requires start == Times(padding, im.cols + 2 * padding) <= newVec.Length
    requires newVec[..start] == Rows(padding, im.cols + 2 * padding, PadRule(im, padding))
    ensures idx == Times(im.rows, im.cols + 2 * padding) <= newVec.Length
    ensures newVec[..idx] == Rows(im.rows, im.cols + 2 * padding, PadRule(im, padding))
  {
    var r, c := im.rows, im.cols;
    var newRows := r + padding * 2;
    var newCols := c + padding * 2;
    ghost var cell: (nat, nat) -> real := PadRule(im, padding);
    idx := start;
    var row := 0;
    for i := padding to r
      invariant row == i - padding
      invariant idx == Times(i, newCols) <= newVec.Length
      invariant newVec[..idx] == Rows(i, newCols, cell)
    {
      FlatIndex(i, 0, newRows, newCols);
      var left, right := im.At(row, 0) / 255.0, im.At(row, c - 1) / 255.0;
      RegionRow(im, padding, i, left, right, i);
      idx := PadRow(im, padding, left, right, i, newVec, idx, i, cell);
      row := row + 1;
    }
  }

  /** The third row loop of `pad`: rows [rows, rows + 2 * padding) from the two
      bottom corners and the last source row. The running index ends after
      the `PadRowsWritten` rows of the three loops, which is the end of the
      buffer. */
  method PadBottom(im: Dense, padding: nat, newVec: array<real>, start: nat) returns (idx: nat)
    modifies newVec
    requires PadFits(im, padding)
    requires newVec.Length == Times(im.rows + 2 * padding, im.cols + 2 * padding)
    requires start == Times(im.rows, im.cols + 2 * padding) <= newVec.Length
    requires newVec[..start] == Rows(im.rows, im.cols + 2 * padding, PadRule(im, padding))
    ensures idx == newVec.Length == Times(PadRowsWritten(im.rows, padding), im.cols + 2 * padding)
    ensures newVec[..] == Rows(im.rows + 2 * padding, im.cols + 2 * padding, PadRule(im, padding))
  {
    var r, c := im.rows, im.cols;
    var newRows := r + padding * 2;
    var newCols := c + padding * 2;
    var bottomLeft := im.At(r - 1, 0) / 255.0;
    var bottomRight := im.At(r - 1, c - 1) / 255.0;
    idx := start;
    for i := r to newRows
      invariant idx == Times(i, newCols) <= newVec.Length
      invariant newVec[..idx] == Rows(i, newCols, PadRule(im, padding))
    {
      idx := BottomRow(im, padding, bottomLeft, bottomRight, newVec, idx, i);
    }
    BottomEndsBuffer(im, padding, newVec[..], idx);
  }

  /** One row i of the third row loop: the bottom corners at the sides and
      the last source row in the middle. */
  method BottomRow(im: Dense, padding: nat, bottomLeft: real, bottomRight: real,
                   newVec: array<real>, idx: nat, i: nat) returns (next: nat)
    modifies newVec
    requires PadFits(im, padding) && im.rows <= i < im.rows + 2 * padding
    requires bottomLeft == im.At(im.rows - 1, 0) / 255.0
    requires bottomRight == im.At(im.rows - 1, im.cols - 1) / 255.0
    requires newVec.Length == Times(im.rows + 2 * padding, im.cols + 2 * padding)
    requires idx == Times(i, im.cols + 2 * padding) <= newVec.Length
    requires newVec[..idx] == Rows(i, im.cols + 2 * padding, PadRule(im, padding))
    ensures next == Times(i + 1, im.cols + 2 * padding) <= newVec.Length
    ensures newVec[..next] == Rows(i + 1, im.cols + 2 * padding, PadRule(im, padding))
  {
    FlatIndex(i, 0, im.rows + 2 * padding, im.cols + 2 * padding);
    RegionRow(im, padding, i, bottomLeft, bottomRight, im.rows - 1);
    next := PadRow(im, padding, bottomLeft, bottomRight, im.rows - 1, newVec, idx, i, PadRule(im, padding));
  }

  /** Where the third row loop stops: when `padding <= rows`, the rows the
      three loops write are exactly the rows of the buffer, so the buffer is
      full once they are written. */
  lemma BottomEndsBuffer(im: Dense, padding: nat, buf: seq<real>, idx: nat)
    requires PadFits(im, padding)
    requires idx == Times(im.rows + 2 * padding, im.cols + 2 * padding) == |buf|
    requires buf[..idx] == Rows(im.rows + 2 * padding, im.cols + 2 * padding, PadRule(im, padding))
    ensures idx == Times(PadRowsWritten(im.rows, padding), im.cols + 2 * padding)
    ensures buf == Rows(im.rows + 2 * padding, im.cols + 2 * padding, PadRule(im, padding))
  {
    PadRowsWrittenFit(im.rows, padding);
    assert buf == buf[..idx];
  }

  /** `pad`: a fresh buffer of (rows+2p)×(cols+2p) cells filled by the three
      row loops in turn through the running index; the result is exactly
      `Padded`, so every cell is written once, in row-major order. */
  method Pad(im: Dense, padding: nat) returns (res: Dense)
    requires PadFits(im, padding)
    ensures res == Padded(im, padding)
  {
    var r, c := im.rows, im.cols;
    var newRows := r + padding * 2;
    var newCols := c + padding * 2;
    var newVec := new real[newRows * newCols];
    assert newVec.Length == Times(newRows, newCols) by {
      TimesIsProduct(newRows, newCols);
    }
    var idx := PadTop(im, padding, newVec);
    idx := PadMiddle(im, padding, newVec, idx);
    idx := PadBottom(im, padding, newVec, idx);
    PaddedLayout(im, padding);
    res := Dense(newRows, newCols, newVec[..]);
  }

  /** Every padded value is a source value divided by 255, so a source in the
      8-bit range [0, 255] gives padded values in [0, 1]. */
  lemma PaddedInUnitRange(im: Dense, padding: nat)
    requires PadFits(im, padding)
    requires forall i: nat, j: nat :: i < im.rows && j < im.cols ==> 0.0 <= im.At(i, j) <= 255.0
    ensures forall i: nat, j: nat :: i < im.rows + 2 * padding && j < im.cols + 2 * padding ==>
      0.0 <= Padded(im, padding).At(i, j) <= 1.0
  {
  }

  // ---------------------------------------------------------------------
  // Edge-replicating padding, the behaviour the engine was designed for
  // (numpy's `pad(im, L, 'edge')` in the reference implementation).

  /** The nearest index inside [0, n) to `x`. */
  function Nearest(x: int, n: nat): (r: nat)
    requires 1 <= n
    ensures r < n
    ensures 0 <= x < n ==> r == x
    ensures x < 0 ==> r == 0
    ensures n <= x ==> r == n - 1
  {
    if x < 0 then 0 else if x >= n then n - 1 else x
  }

  /** Cell (i, j) of the edge-replicated, normalised matrix: the source cell
      nearest to (i - padding, j - padding), divided by 255. */
  function EdgeCell(im: Dense, padding: nat, i: nat, j: nat): real
    requires im.Valid() && 1 <= im.rows && 1 <= im.cols
  {
    im.At(Nearest(i - padding, im.rows), Nearest(j - padding, im.cols)) / 255.0
  }

  /** The padding `pad` is meant to produce: edge replication, then division by
      255. It only needs a non-empty source. */
  function EdgePadded(im: Dense, padding: nat): (r: Dense)
    requires im.Valid() && 1 <= im.rows && 1 <= im.cols
    ensures r.Valid() && r.rows == im.rows + 2 * padding && r.cols == im.cols + 2 * padding
    ensures forall i: nat, j: nat :: i < r.rows && j < r.cols ==> r.At(i, j) == EdgeCell(im, padding, i, j)
  {
    Tabulate(im.rows + 2 * padding, im.cols + 2 * padding,
      (i: nat, j: nat) requires i < im.rows + 2 * padding && j < im.cols + 2 * padding => EdgeCell(im, padding, i, j))
  }

  /** Edge replication keeps the source, shifted by `padding`, in the middle;
      the four corner blocks repeat the four corner values; and the top,
      bottom, left and right bands repeat the nearest first row, last row,
      first column and last column. */
  lemma EdgePadReplicates(im: Dense, padding: nat, i: nat, j: nat)
    requires im.Valid() && 1 <= im.rows && 1 <= im.cols
    requires i < im.rows + 2 * padding && j < im.cols + 2 * padding
    ensures var e, r, c := EdgePadded(im, padding), im.rows, im.cols;
      (padding <= i < r + padding && padding <= j < c + padding ==> e.At(i, j) == im.At(i - padding, j - padding) / 255.0) &&
      (i < padding && j < padding ==> e.At(i, j) == im.At(0, 0) / 255.0) &&
      (i < padding && c + padding <= j ==> e.At(i, j) == im.At(0, c - 1) / 255.0) &&
      (r + padding <= i && j < padding ==> e.At(i, j) == im.At(r - 1, 0) / 255.0) &&
      (r + padding <= i && c + padding <= j ==> e.At(i, j) == im.At(r - 1, c - 1) / 255.0) &&
      (i < padding && padding <= j < c + padding ==> e.At(i, j) == im.At(0, j - padding) / 255.0) &&
      (r + padding <= i && padding <= j < c + padding ==> e.At(i, j) == im.At(r - 1, j - padding) / 255.0) &&
      (padding <= i < r + padding && j < padding ==> e.At(i, j) == im.At(i - padding, 0) / 255.0) &&
      (padding <= i < r + padding && c + padding <= j ==> e.At(i, j) == im.At(i - padding, c - 1) / 255.0)
  {
  }

  /** Where `pad` as written and edge replication meet: without padding both
      only normalise the source. */
  lemma PadWithoutPaddingNormalises(im: Dense)
    requires im.Valid() && 1 <= im.rows && 1 <= im.cols
    ensures PadFits(im, 0)
    ensures Padded(im, 0) == EdgePadded(im, 0)
    ensures forall i: nat, j: nat :: i < im.rows && j < im.cols ==> Padded(im, 0).At(i, j) == im.At(i, j) / 255.0
  {
    EqualByCells(Padded(im, 0), EdgePadded(im, 0));
  }

  /** What `pad` as written does with the middle of the source: the cell that
      should hold source cell (i - p, j - p) holds source cell (i, j) instead,
      so the middle block is the edge-padded source moved up and left by
      `padding` cells. */
  lemma PadShiftsInterior(im: Dense, padding: nat, i: nat, j: nat)
    requires PadFits(im, padding)
    requires padding <= i < im.rows && padding <= j < im.cols
    ensures Padded(im, padding).At(i, j) == EdgePadded(im, padding).At(i + padding, j + padding)
  {
  }

  /** A 3×3 source with distinct values 1..9, padded by 1. */
  function Sample3x3(): (m: Dense)
    ensures m.Valid() && m.rows == 3 && m.cols == 3
  {
    Dense(3, 3, [1.0, 2.0, 3.0, 4.0, 5.0, 6.0, 7.0, 8.0, 9.0])
  }

  /** The input that shows `pad` is not edge replication: on a 3×3 source with
      distinct values and padding 1, the padded cell (1, 1), which should hold
      the top-left source value 1/255, holds the centre value 5/255, and the
      top-band cell (0, 1) holds 5/255 instead of 1/255. */
  lemma PadIsNotEdgeReplication()
    ensures PadFits(Sample3x3(), 1)
    ensures Padded(Sample3x3(), 1).At(1, 1) == 5.0 / 255.0
    ensures EdgePadded(Sample3x3(), 1).At(1, 1) == 1.0 / 255.0
    ensures Padded(Sample3x3(), 1).At(0, 1) == 5.0 / 255.0
    ensures EdgePadded(Sample3x3(), 1).At(0, 1) == 1.0 / 255.0
    ensures Padded(Sample3x3(), 1) != EdgePadded(Sample3x3(), 1)
  {
    var m := Sample3x3();
    assert m.At(1, 1) == 5.0;
    assert m.At(0, 0) == 1.0;
  }

  /** How many rows `pad`'s three loops write: `padding` top rows, the middle
      rows [padding, rows) (none when padding >= rows) and `2 * padding`
      bottom rows. */
  function PadRowsWritten(rows: nat, padding: nat): nat {
    padding + (if padding < rows then rows - padding else 0) + 2 * padding
  }

  /** The three loops fill the `rows + 2 * padding` rows of the buffer exactly
      when padding <= rows; a source with fewer rows than the padding makes
      them write past the end of the buffer. */
  lemma PadRowsWrittenFit(rows: nat, padding: nat)
    ensures padding <= rows <==> PadRowsWritten(rows, padding) == rows + 2 * padding
    ensures rows < padding ==> PadRowsWritten(rows, padding) == 3 * padding > rows + 2 * padding
  {
  }

  /** On a non-empty image, `pad` leaves its bounds exactly in two ways: the
      three row loops write more rows than the buffer holds, or the top band
      has a cell in column `padding`, which reads source row `padding` while
      the image has no row with that index. */
  lemma PadFitsExactly(im: Dense, padding: nat)
    requires im.Valid() && 1 <= im.rows && 1 <= im.cols
    ensures !PadFits(im, padding) <==>
      PadRowsWritten(im.rows, padding) > im.rows + 2 * padding ||
      (padding < im.cols && im.rows <= padding)
  {
    PadRowsWrittenFit(im.rows, padding);
  }

  /** The input that shows the overflow: a 1×1 image padded by 2 (two layers)
      gets a 5×5 buffer, while the loops write 6 rows of it; `pad` as written
      does not accept it, but edge replication pads it to the 5×5 matrix whose
      every cell is the single source value divided by 255. */
  lemma PadOverflowsShortImage(v: real)
    ensures PadRowsWritten(1, 2) == 6
    ensures !PadFits(Dense(1, 1, [v]), 2)
    ensures var e := EdgePadded(Dense(1, 1, [v]), 2);
      e.rows == 5 && e.cols == 5 &&
      forall i: nat, j: nat :: i < 5 && j < 5 ==> e.At(i, j) == v / 255.0
  {
    var m := Dense(1, 1, [v]);
    assert m.Valid();
    assert m.At(0, 0) == v;
  }
}
