/** `calcConv` and `correlate` of waifu2x.go: the "valid" 3×3 correlation of a
    plane with one kernel, which shrinks each dimension by 2. */
module Conv {
  import opened Mat

  /** A kernel as the model file stores it, `[][]float64`. */
  type Kernel = seq<seq<real>>

  /** The kernel entries `calcConv` reads, f[0..2][0..2], exist. */
  predicate IsKernel(f: Kernel) {
    |f| >= 3 && |f[0]| >= 3 && |f[1]| >= 3 && |f[2]| >= 3
  }

  /** The 3×3 kernel with rows and columns exchanged. */
  function Transposed(f: Kernel): (t: Kernel)
    requires IsKernel(f)
    ensures IsKernel(t) && |t| == 3
    ensures forall a, b :: 0 <= a < 3 && 0 <= b < 3 ==> t[a][b] == f[b][a]
  {
    seq(3, a requires 0 <= a < 3 => seq(3, b requires 0 <= b < 3 => f[b][a]))
  }

  /** The cells `calcConv(x, y, ...)` reads: the 3×3 neighbourhood of (x, y). */
  predicate Inside(im: Dense, x: nat, y: nat) {
    im.Valid() && 1 <= x && x + 1 < im.rows && 1 <= y && y + 1 < im.cols
  }

  /** Textbook cross-correlation at (x, y), summed term by term: kernel entry
      k[a][b] meets the cell a - 1 rows and b - 1 columns away from (x, y).
      `WindowRow(.., a, n)` sums the first n columns of kernel row a. */
  function WindowRow(im: Dense, k: Kernel, x: nat, y: nat, a: nat, n: nat): real
    requires Inside(im, x, y) && IsKernel(k) && a < 3 && n <= 3
  {
    if n == 0 then 0.0
    else WindowRow(im, k, x, y, a, n - 1) + k[a][n - 1] * im.At(x - 1 + a, y - 1 + (n - 1))
  }

  /** The first n kernel rows of the cross-correlation at (x, y). */
  function Window(im: Dense, k: Kernel, x: nat, y: nat, n: nat): real
    requires Inside(im, x, y) && IsKernel(k) && n <= 3
  {
    if n == 0 then 0.0
    else Window(im, k, x, y, n - 1) + WindowRow(im, k, x, y, n - 1, 3)
  }

  /** The cross-correlation with the transposed kernel, written out term by
      term. */
  lemma WindowTransposed(im: Dense, f: Kernel, x: nat, y: nat)
    requires Inside(im, x, y) && IsKernel(f)
    ensures Window(im, Transposed(f), x, y, 3) ==
      im.At(x - 1, y - 1) * f[0][0] + im.At(x, y - 1) * f[0][1] + im.At(x + 1, y - 1) * f[0][2] +
      im.At(x - 1, y) * f[1][0] + im.At(x, y) * f[1][1] + im.At(x + 1, y) * f[1][2] +
      im.At(x - 1, y + 1) * f[2][0] + im.At(x, y + 1) * f[2][1] + im.At(x + 1, y + 1) * f[2][2]
  {
    var t := Transposed(f);
    forall a: nat | a < 3
      ensures WindowRow(im, t, x, y, a, 3) ==
        im.At(x - 1 + a, y - 1) * f[0][a] + im.At(x - 1 + a, y) * f[1][a] + im.At(x - 1 + a, y + 1) * f[2][a]
    {
      assert WindowRow(im, t, x, y, a, 1) == im.At(x - 1 + a, y - 1) * f[0][a];
      assert WindowRow(im, t, x, y, a, 2) == WindowRow(im, t, x, y, a, 1) + im.At(x - 1 + a, y) * f[1][a];
    }
    assert Window(im, t, x, y, 1) == WindowRow(im, t, x, y, 0, 3);
    assert Window(im, t, x, y, 2) == Window(im, t, x, y, 1) + WindowRow(im, t, x, y, 1, 3);
  }

  /** `calcConv(x, y, im, f)`: the nine products in the order the code adds
      them. */
  function CalcConv(x: nat, y: nat, im: Dense, f: Kernel): real
    requires Inside(im, x, y) && IsKernel(f)
  {
    var res := 0.0;
    var res := res + im.At(x - 1, y - 1) * f[0][0];
    var res := res + im.At(x, y - 1) * f[0][1];
    var res := res + im.At(x + 1, y - 1) * f[0][2];
    var res := res + im.At(x - 1, y) * f[1][0];
    var res := res + im.At(x, y) * f[1][1];
    var res := res + im.At(x + 1, y) * f[1][2];
    var res := res + im.At(x - 1, y + 1) * f[2][0];
    var res := res + im.At(x, y + 1) * f[2][1];
    var res := res + im.At(x + 1, y + 1) * f[2][2];
    res
  }

  /** The window sum reads only the 3×3 entries of the kernel. */
  lemma {:induction false} WindowSameEntries(im: Dense, k: Kernel, k': Kernel, x: nat, y: nat, n: nat)
    requires Inside(im, x, y) && IsKernel(k) && IsKernel(k') && n <= 3
    requires forall a, b :: 0 <= a < 3 && 0 <= b < 3 ==> k[a][b] == k'[a][b]
    ensures Window(im, k, x, y, n) == Window(im, k', x, y, n)
  {
    if n > 0 {
      WindowSameEntries(im, k, k', x, y, n - 1);
      assert WindowRow(im, k, x, y, n - 1, 1) == WindowRow(im, k', x, y, n - 1, 1);
      assert WindowRow(im, k, x, y, n - 1, 2) == WindowRow(im, k', x, y, n - 1, 2);
    }
  }

  /** Kernel entry f[a][b] meets the cell b - 1 rows and a - 1 columns away
      from (x, y): `calcConv` is the textbook cross-correlation with the
      transposed kernel, and the two agree for every symmetric kernel. */
  lemma CalcConvIsTransposedWindow(x: nat, y: nat, im: Dense, f: Kernel)
    requires Inside(im, x, y) && IsKernel(f)
    ensures CalcConv(x, y, im, f) == Window(im, Transposed(f), x, y, 3)
    ensures (forall a, b :: 0 <= a < 3 && 0 <= b < 3 ==> f[a][b] == f[b][a]) ==>
      CalcConv(x, y, im, f) == Window(im, f, x, y, 3)
  {
    WindowTransposed(im, f, x, y);
    if forall a, b :: 0 <= a < 3 && 0 <= b < 3 ==> f[a][b] == f[b][a] {
      WindowSameEntries(im, Transposed(f), f, x, y, 3);
    }
  }

  /** Inputs `correlate` is modelled on: at least 3×3, and a 3×3 kernel. */
  predicate CorrelateFits(im: Dense, f: Kernel) {
    im.Valid() && 3 <= im.rows && 3 <= im.cols && IsKernel(f)
  }

  /** The cell rule of `correlate(im, f)`: output cell (i, j) is the
      neighbourhood of input cell (i + 1, j + 1); total, 0 outside. */
  function ConvRule(im: Dense, f: Kernel): (nat, nat) -> real
  {
    (i: nat, j: nat) =>
      if CorrelateFits(im, f) && i < im.rows - 2 && j < im.cols - 2
      then CalcConv(i + 1, j + 1, im, f) else 0.0
  }

  /** The matrix `correlate(im, f)` returns. */
  function Correlated(im: Dense, f: Kernel): (r: Dense)
    requires CorrelateFits(im, f)
    ensures r.Valid() && r.rows == im.rows - 2 && r.cols == im.cols - 2
    ensures forall i: nat, j: nat :: i < r.rows && j < r.cols ==> r.At(i, j) == CalcConv(i + 1, j + 1, im, f)
  {
    Tabulate(im.rows - 2, im.cols - 2, ConvRule(im, f))
  }

  lemma CorrelatedLayout(im: Dense, f: Kernel)
    requires CorrelateFits(im, f)
    ensures Correlated(im, f).data == Rows(im.rows - 2, im.cols - 2, ConvRule(im, f))
  {
  }

  /** How many of the indices [0, k) of a dimension of size n are interior,
      i.e. neither 0 nor n - 1: the output rows (or columns) written so far. */
  function InteriorBefore(k: nat, n: nat): (d: nat)
    requires 2 <= n && k <= n
    ensures d <= n - 2
    ensures 1 <= k < n ==> d == k - 1
  {
    if k <= 1 then 0 else if k == n then n - 2 else k - 1
  }

  /** One pass of `correlate`'s inner `for j` loop, over input row i: a border
      row writes nothing; an interior row writes output row i - 1, skipping the
      first and last column, and advances the index by cols - 2. */
  method CorrelateRow(im: Dense, f: Kernel, i: nat, newVec: array<real>, idx: nat) returns (next: nat)
    modifies newVec
    requires CorrelateFits(im, f) && i < im.rows
    requires idx <= newVec.Length && (1 <= i < im.rows - 1 ==> idx + (im.cols - 2) <= newVec.Length)
    ensures i == 0 || i == im.rows - 1 ==> next == idx && newVec[..next] == old(newVec[..idx])
    ensures 1 <= i < im.rows - 1 ==>
      next == idx + (im.cols - 2) &&
      newVec[..next] == old(newVec[..idx]) + Row(i - 1, im.cols - 2, ConvRule(im, f))
  {
    var r, c := im.rows, im.cols;
    ghost var cell := ConvRule(im, f);
    ghost var border := i == 0 || i == r - 1;
    next := idx;
    for j := 0 to c
      invariant border ==> next == idx && newVec[..next] == old(newVec[..idx])
      invariant !border ==> next == idx + InteriorBefore(j, c)
      invariant !border ==> newVec[..next] == old(newVec[..idx]) + Row(i - 1, InteriorBefore(j, c), cell)
    {
      if i == 0 || j == 0 || i == r - 1 || j == c - 1 {
        continue;
      }
      newVec[next] := CalcConv(i, j, im, f);
      RowSnoc(i - 1, j - 1, cell);
      assert newVec[..next + 1] == newVec[..next] + [cell(i - 1, j - 1)];
      next := next + 1;
    }
  }

  /** `correlate(im, f)`: walks every input cell in row-major order, skips the
      border and writes `calcConv` of each interior cell at the running index
      of a fresh (rows-2)×(cols-2) buffer; the result is `Correlated`. */
  method Correlate(im: Dense, f: Kernel) returns (res: Dense)
    requires CorrelateFits(im, f)
    ensures res == Correlated(im, f)
  {
    var r, c := im.rows, im.cols;
    var newRows := r - 2;
    var newCols := c - 2;
    var newVec := new real[newRows * newCols];
    ghost var cell := ConvRule(im, f);
    assert newVec.Length == Times(newRows, newCols) by {
      TimesIsProduct(newRows, newCols);
    }
    var idx := 0;
    for i := 0 to r
      invariant idx == Times(InteriorBefore(i, r), newCols) <= newVec.Length
      invariant newVec[..idx] == Rows(InteriorBefore(i, r), newCols, cell)
    {
      if 1 <= i < r - 1 {
        FlatIndex(i - 1, 0, newRows, newCols);
      }
      idx := CorrelateRow(im, f, i, newVec, idx);
    }
    assert newVec[..] == newVec[..idx];
    CorrelatedLayout(im, f);
    res := Dense(newRows, newCols, newVec[..]);
  }
}
