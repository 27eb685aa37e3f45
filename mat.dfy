/** Dense row-major matrices of reals: the part of gonum's `mat64.Dense` that
    the waifu2x engine relies on (construction from a flat buffer, `At`, `Dims`
    and the in-place element-wise `Add`). `real` stands in for `float64`. */
module Mat {

  /** A rows×cols matrix whose elements are stored row by row in `data`,
      the layout `mat64.NewDense(rows, cols, data)` expects. */
  datatype Dense = Dense(rows: nat, cols: nat, data: seq<real>)
  {
    /** The backing buffer holds exactly rows*cols elements. */
    predicate Valid() {
      |data| == Times(rows, cols)
    }

    /** Element in row `i`, column `j` (`mat64.Dense.At(i, j)`). */
    function At(i: nat, j: nat): real
      requires Valid() && i < rows && j < cols
    {
      FlatIndex(i, j, rows, cols);
      data[Times(i, cols) + j]
    }
  }

  /** The product a*b, as repeated addition. Buffer offsets are written with
      it, so that the verifier reasons about them through the lemmas below
      (each row starts `cols` cells after the previous one) rather than by
      searching through nonlinear arithmetic. */
  function Times(a: nat, b: nat): nat
  {
    if a == 0 then 0 else Times(a - 1, b) + b
  }

  lemma {:induction false} TimesIsProduct(a: nat, b: nat)
    ensures Times(a, b) == a * b
  {
    if a > 0 {
      TimesIsProduct(a - 1, b);
    }
  }

  lemma {:induction false} TimesMono(a: nat, a': nat, b: nat)
    requires a <= a'
    ensures Times(a, b) <= Times(a', b)
  {
    if a < a' {
      TimesMono(a, a' - 1, b);
    }
  }

  lemma MulMono(a: nat, b: nat, c: nat)
    requires a <= b
    ensures a * c <= b * c
  {
  }

  /** Cell (i, j) of a rows×cols matrix lies inside its buffer, and row i ends
      inside it too. */
  lemma FlatIndex(i: nat, j: nat, rows: nat, cols: nat)
    requires i < rows && j < cols
    ensures Times(i, cols) + j < Times(i + 1, cols) <= Times(rows, cols)
  {
    TimesMono(i + 1, rows, cols);
  }

  /** A flat position inside a rows×cols buffer names a cell of the matrix. */
  lemma Unflatten(k: nat, rows: nat, cols: nat)
    requires k < Times(rows, cols)
    ensures 0 < cols && k / cols < rows && k % cols < cols
    ensures Times(k / cols, cols) + k % cols == k
  {
    TimesIsProduct(rows, cols);
    TimesIsProduct(k / cols, cols);
    if k / cols >= rows {
      MulMono(rows, k / cols, cols);
      assert false;
    }
  }

  /** The first `n` cells of row `i` of the matrix whose cell (i, j) is
      `cell(i, j)`. */
  function Row(i: nat, n: nat, cell: (nat, nat) --> real): (s: seq<real>)
    requires forall j: nat :: j < n ==> cell.requires(i, j)
    ensures |s| == n
  {
    seq(n, j requires 0 <= j < n => cell(i, j))
  }

  /** The first `n` rows, each of `cols` cells, of the matrix whose cell
      (i, j) is `cell(i, j)`, one after the other: a row-major buffer. */
  function Rows(n: nat, cols: nat, cell: (nat, nat) --> real): (s: seq<real>)
    requires forall i: nat, j: nat :: i < n && j < cols ==> cell.requires(i, j)
    ensures |s| == Times(n, cols)
  {
    if n == 0 then [] else Rows(n - 1, cols, cell) + Row(n - 1, cols, cell)
  }

  /** Writing cell (i, n) after the first n cells of row i. */
  lemma RowSnoc(i: nat, n: nat, cell: (nat, nat) --> real)
    requires forall j: nat :: j <= n ==> cell.requires(i, j)
    ensures Row(i, n + 1, cell) == Row(i, n, cell) + [cell(i, n)]
  {
  }

  lemma {:induction false} RowsAt(n: nat, cols: nat, cell: (nat, nat) --> real, i: nat, j: nat)
    requires forall i: nat, j: nat :: i < n && j < cols ==> cell.requires(i, j)
    requires i < n && j < cols
    ensures Times(i, cols) + j < Times(n, cols)
    ensures Rows(n, cols, cell)[Times(i, cols) + j] == cell(i, j)
  {
    FlatIndex(i, j, n, cols);
    if i < n - 1 {
      RowsAt(n - 1, cols, cell, i, j);
    }
  }

  /** The matrix whose cell (i, j) is `cell(i, j)`, laid out row-major. */
  function Tabulate(rows: nat, cols: nat, cell: (nat, nat) --> real): (r: Dense)
    requires forall i: nat, j: nat :: i < rows && j < cols ==> cell.requires(i, j)
    ensures r.Valid() && r.rows == rows && r.cols == cols
    ensures forall i: nat, j: nat :: i < rows && j < cols ==> r.At(i, j) == cell(i, j)
  {
    var r := Dense(rows, cols, Rows(rows, cols, cell));
    assert forall i: nat, j: nat :: i < rows && j < cols ==> r.At(i, j) == cell(i, j) by {
      forall i: nat, j: nat | i < rows && j < cols
        ensures r.At(i, j) == cell(i, j)
      {
        RowsAt(rows, cols, cell, i, j);
      }
    }
    r
  }

  /** Every element of the buffer is the cell it lays out. */
  lemma DataAt(m: Dense, k: nat)
    requires m.Valid() && k < |m.data|
    ensures 0 < m.cols && k / m.cols < m.rows && k % m.cols < m.cols
    ensures m.data[k] == m.At(k / m.cols, k % m.cols)
  {
    Unflatten(k, m.rows, m.cols);
  }

  /** Two well-formed matrices of the same shape that agree on every cell are
      the same matrix. */
  lemma EqualByCells(a: Dense, b: Dense)
    requires a.Valid() && b.Valid() && a.rows == b.rows && a.cols == b.cols
    requires forall i: nat, j: nat :: i < a.rows && j < a.cols ==> a.At(i, j) == b.At(i, j)
    ensures a == b
  {
    forall k | 0 <= k < |a.data|
      ensures a.data[k] == b.data[k]
    {
      DataAt(a, k);
      DataAt(b, k);
    }
  }

  /** `mat64.Dense.Add`: element-wise sum of two matrices of one shape (gonum
      panics on a shape mismatch, so equal shapes are required). */
  function Add(a: Dense, b: Dense): (r: Dense)
    requires a.Valid() && b.Valid() && a.rows == b.rows && a.cols == b.cols
    ensures r.Valid() && r.rows == a.rows && r.cols == a.cols
    ensures forall i: nat, j: nat :: i < a.rows && j < a.cols ==> r.At(i, j) == a.At(i, j) + b.At(i, j)
  {
    Tabulate(a.rows, a.cols, (i: nat, j: nat) requires i < a.rows && j < a.cols => a.At(i, j) + b.At(i, j))
  }
}
