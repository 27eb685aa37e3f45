/** `broadcastMat`, `broadcastVec` and `clip` of waifu2x.go: a binary operator
    with a fixed right operand mapped over every element, into a fresh matrix
    or in place, and the clamp of every element into a fresh flat vector. */
module Broadcast {
  import opened Mat
  import opened Helpers

  /** The cell rule of `broadcastMat(m, n, f)`: f applied to cell (y, x) and
      n; total, 0 outside the matrix. */
  function BroadcastRule(m: Dense, n: real, f: (real, real) -> real): (nat, nat) -> real
  {
    (y: nat, x: nat) => if m.Valid() && y < m.rows && x < m.cols then f(m.At(y, x), n) else 0.0
  }

  /** The matrix `broadcastMat(m, n, f)` returns: same dimensions, each cell
      `f(m[y][x], n)`. */
  function Broadcasted(m: Dense, n: real, f: (real, real) -> real): (r: Dense)
    requires m.Valid()
    ensures r.Valid() && r.rows == m.rows && r.cols == m.cols
    ensures forall y: nat, x: nat :: y < m.rows && x < m.cols ==> r.At(y, x) == f(m.At(y, x), n)
  {
    Tabulate(m.rows, m.cols, BroadcastRule(m, n, f))
  }

  /** Seen as a flat buffer, `broadcastMat` maps f over the elements in order. */
  lemma BroadcastedData(m: Dense, n: real, f: (real, real) -> real)
    requires m.Valid()
    ensures |Broadcasted(m, n, f).data| == |m.data|
    ensures forall k :: 0 <= k < |m.data| ==> Broadcasted(m, n, f).data[k] == f(m.data[k], n)
  {
    var r := Broadcasted(m, n, f);
    forall k | 0 <= k < |m.data|
      ensures r.data[k] == f(m.data[k], n)
    {
      DataAt(m, k);
      DataAt(r, k);
    }
  }

  /** One pass of `broadcastMat`'s inner `for x` loop over row y. */
  method BroadcastRow(m: Dense, n: real, f: (real, real) -> real, y: nat, newVec: array<real>, idx: nat)
    returns (next: nat)
    modifies newVec
    requires m.Valid() && y < m.rows && idx + m.cols <= newVec.Length
    ensures next == idx + m.cols
    ensures newVec[..next] == old(newVec[..idx]) + Row(y, m.cols, BroadcastRule(m, n, f))
  {
    ghost var cell := BroadcastRule(m, n, f);
    next := idx;
    for x := 0 to m.cols
      invariant next == idx + x
      invariant newVec[..next] == old(newVec[..idx]) + Row(y, x, cell)
    {
      newVec[next] := f(m.At(y, x), n);
      RowSnoc(y, x, cell);
      assert newVec[..next + 1] == newVec[..next] + [cell(y, x)];
      next := next + 1;
    }
  }

  /** `broadcastMat(m, n, f)`: fills a fresh buffer row by row through the
      running index; the input is not touched (it is a value here) and the
      result is `Broadcasted`. */
  method BroadcastMat(m: Dense, n: real, f: (real, real) -> real) returns (res: Dense)
    requires m.Valid()
    ensures res == Broadcasted(m, n, f)
  {
    var r, c := m.rows, m.cols;
    var newVec := new real[r * c];
    ghost var cell := BroadcastRule(m, n, f);
    assert newVec.Length == Times(r, c) by {
      TimesIsProduct(r, c);
    }
    var idx := 0;
    for y := 0 to r
      invariant idx == Times(y, c) <= newVec.Length
      invariant newVec[..idx] == Rows(y, c, cell)
    {
      if c > 0 {
        FlatIndex(y, 0, r, c);
      }
      idx := BroadcastRow(m, n, f, y, newVec, idx);
    }
    assert newVec[..] == newVec[..idx];
    res := Dense(r, c, newVec[..]);
  }

  /** The slice `broadcastVec(vec, n, f)` leaves: each element replaced by
      `f(element, n)`. */
  function MapVec(s: seq<real>, n: real, f: (real, real) -> real): (r: seq<real>)
    ensures |r| == |s|
    ensures forall i :: 0 <= i < |s| ==> r[i] == f(s[i], n)
  {
    seq(|s|, i requires 0 <= i < |s| => f(s[i], n))
  }

  /** `broadcastVec(vec, n, f)`: overwrites the slice in place, element by
      element, keeping its length. */
  method BroadcastVec(vec: array<real>, n: real, f: (real, real) -> real)
    modifies vec
    ensures vec[..] == MapVec(old(vec[..]), n, f)
  {
    for i := 0 to vec.Length
      invariant vec[..i] == MapVec(old(vec[..i]), n, f)
      invariant vec[i..] == old(vec[i..])
    {
      vec[i] := f(vec[i], n);
      assert vec[..i + 1] == vec[..i] + [vec[i]];
      assert old(vec[..i + 1]) == old(vec[..i]) + [old(vec[i])];
    }
  }

  /** The cell rule of `clip(im, start, end)`; total, 0 outside. */
  function ClipRule(im: Dense, start: real, end: real): (nat, nat) -> real
  {
    (y: nat, x: nat) => if im.Valid() && y < im.rows && x < im.cols then ClipValue(im.At(y, x), start, end) else 0.0
  }

  /** The vector `clip(im, start, end)` returns, as the row-major buffer of a
      matrix of the same shape: every element clamped into [start, end]. */
  function Clipped(im: Dense, start: real, end: real): (r: Dense)
    requires im.Valid()
    ensures r.Valid() && r.rows == im.rows && r.cols == im.cols
    ensures forall y: nat, x: nat :: y < im.rows && x < im.cols ==> r.At(y, x) == ClipValue(im.At(y, x), start, end)
  {
    Tabulate(im.rows, im.cols, ClipRule(im, start, end))
  }

  /** Element by element, the clipped vector is the clamp of the input buffer:
      in [start, end] when start <= end, unchanged when already in range, start
      below it and end above it. */
  lemma ClippedData(im: Dense, start: real, end: real)
    requires im.Valid()
    ensures |Clipped(im, start, end).data| == |im.data|
    ensures forall k :: 0 <= k < |im.data| ==> Clipped(im, start, end).data[k] == ClipValue(im.data[k], start, end)
    ensures start <= end ==> forall k :: 0 <= k < |im.data| ==> start <= Clipped(im, start, end).data[k] <= end
  {
    var r := Clipped(im, start, end);
    forall k | 0 <= k < |im.data|
      ensures r.data[k] == ClipValue(im.data[k], start, end)
    {
      DataAt(im, k);
      DataAt(r, k);
    }
  }

  /** One pass of `clip`'s inner `for x` loop over row y. */
  method ClipRow(im: Dense, start: real, end: real, y: nat, newVec: array<real>, idx: nat)
    returns (next: nat)
    modifies newVec
    requires im.Valid() && y < im.rows && idx + im.cols <= newVec.Length
    ensures next == idx + im.cols
    ensures newVec[..next] == old(newVec[..idx]) + Row(y, im.cols, ClipRule(im, start, end))
  {
    ghost var cell := ClipRule(im, start, end);
    next := idx;
    for x := 0 to im.cols
      invariant next == idx + x
      invariant newVec[..next] == old(newVec[..idx]) + Row(y, x, cell)
    {
      var e := im.At(y, x);
      if e < start {
        newVec[next] := start;
      } else if e > end {
        newVec[next] := end;
      } else {
        newVec[next] := e;
      }
      RowSnoc(y, x, cell);
      assert newVec[..next + 1] == newVec[..next] + [cell(y, x)];
      next := next + 1;
    }
  }

  /** `clip(im, start, end)`: a fresh flat vector of rows*cols elements, filled
      row by row through the running index. */
  method Clip(im: Dense, start: real, end: real) returns (newVec: array<real>)
    requires im.Valid()
    ensures fresh(newVec)
    ensures newVec[..] == Clipped(im, start, end).data
  {
    var r, c := im.rows, im.cols;
    newVec := new real[r * c];
    ghost var cell := ClipRule(im, start, end);
    assert newVec.Length == Times(r, c) by {
      TimesIsProduct(r, c);
    }
    var idx := 0;
    for y := 0 to r
      invariant idx == Times(y, c) <= newVec.Length
      invariant newVec[..idx] == Rows(y, c, cell)
    {
      if c > 0 {
        FlatIndex(y, 0, r, c);
      }
      idx := ClipRow(im, start, end, y, newVec, idx);
    }
    assert newVec[..] == newVec[..idx];
  }
}
