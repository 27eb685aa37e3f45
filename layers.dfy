/** The layer loop of `Exec` in waifu2x.go: each model layer turns the current
    planes into `min(len(Bias), len(Weight))` new ones, output plane i being the
    sum of the correlations of the first `min(len(planes), len(Weight[i]))`
    planes with their kernels, plus `Bias[i]`, through the leaky rectifier. */
module Layers {
  import opened Mat
  import opened Helpers
  import opened Conv
  import opened Broadcast
  import opened Sums

  /** One layer of the model file. `nOutputPlane`, `kW`, `kH` and
      `nInputPlane` are carried but only feed the progress counter. */
  datatype Model = Model(weight: seq<seq<Kernel>>, nOutputPlane: int, kW: int, kH: int,
                         bias: seq<real>, nInputPlane: int)

  /** `fi`: the number of output planes of a layer. */
  function OutCount(m: Model): (n: nat)
    ensures n <= |m.bias| && n <= |m.weight|
  {
    MinCount(|m.bias|, |m.weight|)
  }

  /** `fj`: the number of input planes output plane i draws on. */
  function InCount(planes: nat, wgt: seq<Kernel>): (n: nat)
    ensures n <= planes && n <= |wgt|
  {
    MinCount(planes, |wgt|)
  }

  /** Every plane is a well-formed rows×cols matrix. */
  predicate Shaped(planes: seq<Dense>, rows: nat, cols: nat) {
    forall k :: 0 <= k < |planes| ==> planes[k].Valid() && planes[k].rows == rows && planes[k].cols == cols
  }

  // ---------------------------------------------------------------------
  // Summing the correlations of one output plane

  /** The planes in the order they are received, summed as `Exec` does it:
      the first one becomes `partial`, each later one is added to it. */
  function SumPlanes(ps: seq<Dense>, rows: nat, cols: nat): (r: Dense)
    requires |ps| >= 1 && Shaped(ps, rows, cols)
    ensures r.Valid() && r.rows == rows && r.cols == cols
    decreases |ps|
  {
    if |ps| == 1 then ps[0]
    else Add(SumPlanes(ps[..|ps| - 1], rows, cols), ps[|ps| - 1])
  }

  /** Receiving one more plane adds it to `partial`. */
  lemma SumPlanesSnoc(ps: seq<Dense>, k: nat, rows: nat, cols: nat)
    requires 1 <= k < |ps| && Shaped(ps, rows, cols)
    ensures Shaped(ps[..k], rows, cols) && Shaped(ps[..k + 1], rows, cols)
    ensures SumPlanes(ps[..k + 1], rows, cols) == Add(SumPlanes(ps[..k], rows, cols), ps[k])
  {
    assert ps[..k + 1][..k] == ps[..k];
  }

  /** Cell (y, x) of a plane; 0 where the plane has no such cell. */
  function CellOf(y: nat, x: nat): Dense -> real
  {
    (p: Dense) => if p.Valid() && y < p.rows && x < p.cols then p.At(y, x) else 0.0
  }

  /** Summing the matrices is summing cell by cell: cell (y, x) of the sum is
      the sum of the planes' cells (y, x). */
  lemma {:induction false} SumPlanesCells(ps: seq<Dense>, rows: nat, cols: nat, y: nat, x: nat)
    requires |ps| >= 1 && Shaped(ps, rows, cols) && y < rows && x < cols
    ensures SumPlanes(ps, rows, cols).At(y, x) == SumOf(ps, CellOf(y, x))
    decreases |ps|
  {
    var n := |ps|;
    if n == 1 {
      assert SumOf(ps[..0], CellOf(y, x)) == 0.0;
    } else {
      SumPlanesCells(ps[..n - 1], rows, cols, y, x);
    }
  }

  /** The goroutine fan-out: the correlations reach the receive loop in any
      order, and every order yields the same sum. */
  lemma ArrivalOrderIrrelevant(ps: seq<Dense>, qs: seq<Dense>, rows: nat, cols: nat)
    requires |ps| >= 1 && Shaped(ps, rows, cols) && Shaped(qs, rows, cols)
    requires multiset(ps) == multiset(qs)
    ensures |qs| == |ps|
    ensures SumPlanes(ps, rows, cols) == SumPlanes(qs, rows, cols)
  {
    assert |qs| == |multiset(qs)| == |multiset(ps)| == |ps|;
    var a, b := SumPlanes(ps, rows, cols), SumPlanes(qs, rows, cols);
    forall y: nat, x: nat | y < rows && x < cols
      ensures a.At(y, x) == b.At(y, x)
    {
      SumPlanesCells(ps, rows, cols, y, x);
      SumPlanesCells(qs, rows, cols, y, x);
      SumOfPermutation(ps, qs, CellOf(y, x));
    }
    EqualByCells(a, b);
  }

  /** Kernels for the first n planes exist and are 3×3, and the planes are
      at least 3×3, so each correlation is defined. */
  predicate ConvFits(planes: seq<Dense>, wgt: seq<Kernel>, n: nat, rows: nat, cols: nat) {
    3 <= rows && 3 <= cols && Shaped(planes, rows, cols) && n <= |planes| && n <= |wgt| &&
    forall j :: 0 <= j < n ==> IsKernel(wgt[j])
  }

  /** The correlations computed by the goroutines, in the order of j. */
  function Correlations(planes: seq<Dense>, wgt: seq<Kernel>, n: nat, rows: nat, cols: nat): (cs: seq<Dense>)
    requires ConvFits(planes, wgt, n, rows, cols)
    ensures |cs| == n && Shaped(cs, rows - 2, cols - 2)
    ensures forall j :: 0 <= j < n ==> cs[j] == Correlated(planes[j], wgt[j])
  {
    seq(n, j requires 0 <= j < n => Correlated(planes[j], wgt[j]))
  }

  // ---------------------------------------------------------------------
  // One layer

  /** What a layer needs: planes of at least 3×3, and for each output plane
      at least one input plane (else `partial` stays nil) with 3×3 kernels. */
  predicate LayerFits(planes: seq<Dense>, m: Model, rows: nat, cols: nat) {
    3 <= rows && 3 <= cols && Shaped(planes, rows, cols) &&
    forall i :: 0 <= i < OutCount(m) ==>
      1 <= InCount(|planes|, m.weight[i]) &&
      forall j :: 0 <= j < InCount(|planes|, m.weight[i]) ==> IsKernel(m.weight[i][j])
  }

  /** The correlations of output plane i are all defined, and there is at
      least one. */
  lemma PlaneFits(planes: seq<Dense>, m: Model, i: nat, rows: nat, cols: nat)
    requires LayerFits(planes, m, rows, cols) && i < OutCount(m)
    ensures 1 <= InCount(|planes|, m.weight[i])
    ensures ConvFits(planes, m.weight[i], InCount(|planes|, m.weight[i]), rows, cols)
  {
  }

  /** Output plane i before the activation: the summed correlations, then
      `broadcastMat(partial, Bias[i], add)`. */
  function OutputPlane(planes: seq<Dense>, m: Model, i: nat, rows: nat, cols: nat): (r: Dense)
    requires LayerFits(planes, m, rows, cols) && i < OutCount(m)
    ensures r.Valid() && r.rows == rows - 2 && r.cols == cols - 2
  {
    var wgt := m.weight[i];
    var fj := InCount(|planes|, wgt);
    Broadcasted(SumPlanes(Correlations(planes, wgt, fj, rows, cols), rows - 2, cols - 2), m.bias[i], Plus)
  }

  /** The activation as `Exec` builds it from matrices: `max := broadcastMat(v,
      0, maximum)`, `min := broadcastMat(v, 0, minimum)`, `part :=
      broadcastMat(min, 0.1, mul)`, then `max.Add(max, part)`. Cell by cell
      it is the leaky rectifier, and it keeps the dimensions. */
  function Activated(v: Dense): (r: Dense)
    requires v.Valid()
    ensures r.Valid() && r.rows == v.rows && r.cols == v.cols
    ensures forall y: nat, x: nat :: y < v.rows && x < v.cols ==> r.At(y, x) == Activation(v.At(y, x))
  {
    var max := Broadcasted(v, 0.0, Maximum);
    var min := Broadcasted(v, 0.0, Minimum);
    var part := Broadcasted(min, 0.1, Mul);
    Add(max, part)
  }

  /** The planes a layer leaves behind. */
  function LayerOut(planes: seq<Dense>, m: Model, rows: nat, cols: nat): (r: seq<Dense>)
    requires LayerFits(planes, m, rows, cols)
    ensures |r| == OutCount(m) && Shaped(r, rows - 2, cols - 2)
  {
    seq(OutCount(m), i requires 0 <= i < OutCount(m) => Activated(OutputPlane(planes, m, i, rows, cols)))
  }

  /** Output plane i before the activation, cell by cell: the cells (y, x)
      of the first `fj` correlations, added up, plus `Bias[i]`. */
  lemma OutputPlaneCell(planes: seq<Dense>, m: Model, rows: nat, cols: nat, i: nat, y: nat, x: nat)
    requires LayerFits(planes, m, rows, cols)
    requires i < OutCount(m) && y < rows - 2 && x < cols - 2
    ensures 1 <= InCount(|planes|, m.weight[i])
    ensures OutputPlane(planes, m, i, rows, cols).At(y, x) ==
      SumOf(Correlations(planes, m.weight[i], InCount(|planes|, m.weight[i]), rows, cols), CellOf(y, x)) + m.bias[i]
  {
    PlaneFits(planes, m, i, rows, cols);
    var cs := Correlations(planes, m.weight[i], InCount(|planes|, m.weight[i]), rows, cols);
    SumPlanesCells(cs, rows - 2, cols - 2, y, x);
  }

  /** A layer, cell by cell: output plane i at (y, x) is the leaky rectifier
      of the cells (y, x) of the first `fj` correlations, added up, plus
      `Bias[i]`; so it is that value when it is not negative and a tenth of it
      otherwise. */
  lemma LayerCell(planes: seq<Dense>, m: Model, rows: nat, cols: nat, i: nat, y: nat, x: nat)
    requires LayerFits(planes, m, rows, cols)
    requires i < OutCount(m) && y < rows - 2 && x < cols - 2
    ensures 1 <= InCount(|planes|, m.weight[i])
    ensures var s := SumOf(Correlations(planes, m.weight[i], InCount(|planes|, m.weight[i]), rows, cols), CellOf(y, x)) + m.bias[i];
      LayerOut(planes, m, rows, cols)[i].At(y, x) == Activation(s) &&
      (s >= 0.0 ==> LayerOut(planes, m, rows, cols)[i].At(y, x) == s) &&
      (s < 0.0 ==> LayerOut(planes, m, rows, cols)[i].At(y, x) == s / 10.0)
  {
    OutputPlaneCell(planes, m, rows, cols, i, y, x);
    assert LayerOut(planes, m, rows, cols)[i] == Activated(OutputPlane(planes, m, i, rows, cols));
  }

  /** The receive loop for one output plane: the correlations of the first
      `fj` planes with their kernels (computed sequentially here, in the order
      of j) are added up in `partial`, which starts out nil. */
  method ReceiveSum(planes: seq<Dense>, wgt: seq<Kernel>, fj: nat, rows: nat, cols: nat) returns (sum: Dense)
    requires 1 <= fj && ConvFits(planes, wgt, fj, rows, cols)
    ensures sum == SumPlanes(Correlations(planes, wgt, fj, rows, cols), rows - 2, cols - 2)
  {
    ghost var cs := Correlations(planes, wgt, fj, rows, cols);
    var partial: Option<Dense> := None;
    for k := 0 to fj
      invariant k == 0 ==> partial.None?
      invariant 0 < k ==> partial == Some(SumPlanes(cs[..k], rows - 2, cols - 2))
    {
      var p := Correlate(planes[k], wgt[k]);
      if partial.None? {
        assert cs[..1] == [p];
        partial := Some(p);
      } else {
        SumPlanesSnoc(cs, k, rows - 2, cols - 2);
        partial := Some(Add(partial.value, p));
      }
    }
    assert cs[..fj] == cs;
    sum := partial.value;
  }

  /** Output plane i: `fj = min(len(planes), len(Weight[i]))` correlations
      summed, then `broadcastMat(partial, Bias[i], add)`. */
  method OutputPlaneOf(planes: seq<Dense>, m: Model, i: nat, rows: nat, cols: nat) returns (plane: Dense)
    requires LayerFits(planes, m, rows, cols) && i < OutCount(m)
    ensures plane == OutputPlane(planes, m, i, rows, cols)
  {
    var b := m.bias[i];
    var wgt := m.weight[i];
    var fj := MinCount(|planes|, |wgt|);
    PlaneFits(planes, m, i, rows, cols);
    var partial := ReceiveSum(planes, wgt, fj, rows, cols);
    plane := BroadcastMat(partial, b, Plus);
  }

  /** `max.Add(max, part)` after the three `broadcastMat` calls. */
  method ActivatePlane(v: Dense) returns (out: Dense)
    requires v.Valid()
    ensures out == Activated(v)
  {
    var max := BroadcastMat(v, 0.0, Maximum);
    var min := BroadcastMat(v, 0.0, Minimum);
    var part := BroadcastMat(min, 0.1, Mul);
    out := Add(max, part);
  }

  /** The first half of one iteration of the layer loop: the `fi` output
      planes, appended to `oPlanes` one by one. */
  method OutputPlanes(planes: seq<Dense>, m: Model, rows: nat, cols: nat) returns (oPlanes: seq<Dense>)
    requires LayerFits(planes, m, rows, cols)
    ensures |oPlanes| == OutCount(m)
    ensures forall k :: 0 <= k < |oPlanes| ==> oPlanes[k] == OutputPlane(planes, m, k, rows, cols)
  {
    var fi := MinCount(|m.bias|, |m.weight|);
    oPlanes := [];
    for i := 0 to fi
      invariant |oPlanes| == i
      invariant forall k :: 0 <= k < i ==> oPlanes[k] == OutputPlane(planes, m, k, rows, cols)
    {
      var partial := OutputPlaneOf(planes, m, i, rows, cols);
      oPlanes := oPlanes + [partial];
    }
  }

  /** One iteration of the layer loop: the output planes, then `planes`
      remade with each of them activated. */
  method LayerStep(planes: seq<Dense>, m: Model, rows: nat, cols: nat) returns (next: seq<Dense>)
    requires LayerFits(planes, m, rows, cols)
    ensures next == LayerOut(planes, m, rows, cols)
  {
    var oPlanes := OutputPlanes(planes, m, rows, cols);
    var out := new Dense[|oPlanes|];
    for i := 0 to |oPlanes|
      invariant forall k :: 0 <= k < i ==> out[k] == Activated(oPlanes[k])
    {
      var v := oPlanes[i];
      out[i] := ActivatePlane(v);
    }
    next := out[..];
  }

  // ---------------------------------------------------------------------
  // The whole loop over the layers

  /** Every layer in turn finds what it needs in the planes the previous one
      left. */
  predicate ForwardFits(planes: seq<Dense>, models: seq<Model>, rows: nat, cols: nat)
    decreases |models|
  {
    |models| == 0 ||
    (LayerFits(planes, models[0], rows, cols) &&
     ForwardFits(LayerOut(planes, models[0], rows, cols), models[1..], rows - 2, cols - 2))
  }

  /** The planes left after all layers. Each layer shrinks both dimensions by
      2, so L layers shrink them by 2L; the plane count is that of the last
      layer's output (or unchanged without layers). */
  function Forward(planes: seq<Dense>, models: seq<Model>, rows: nat, cols: nat): (r: seq<Dense>)
    requires Shaped(planes, rows, cols) && ForwardFits(planes, models, rows, cols)
    ensures 2 * |models| <= rows && 2 * |models| <= cols
    ensures Shaped(r, rows - 2 * |models|, cols - 2 * |models|)
    ensures |models| == 0 ==> r == planes
    ensures |models| > 0 ==> |r| == OutCount(models[|models| - 1])
    decreases |models|
  {
    if |models| == 0 then planes
    else Forward(LayerOut(planes, models[0], rows, cols), models[1..], rows - 2, cols - 2)
  }

  /** `for _, m := range w.models`: `planes` reassigned layer after layer. */
  method RunLayers(planes: seq<Dense>, models: seq<Model>, rows: nat, cols: nat) returns (out: seq<Dense>)
    requires Shaped(planes, rows, cols) && ForwardFits(planes, models, rows, cols)
    ensures out == Forward(planes, models, rows, cols)
  {
    out := planes;
    var r, c := rows, cols;
    for k := 0 to |models|
      invariant r == rows - 2 * k && c == cols - 2 * k
      invariant Shaped(out, r, c) && ForwardFits(out, models[k..], r, c)
      invariant Forward(out, models[k..], r, c) == Forward(planes, models, rows, cols)
    {
      assert models[k..][1..] == models[k + 1..];
      out := LayerStep(out, models[k], r, c);
      r, c := r - 2, c - 2;
    }
    assert models[|models|..] == [];
  }
}
