/** `Exec` of waifu2x.go from the luminance extraction to the store of the
    new luminance: pad by the number of layers, run the layers, require a
    single plane, clamp it into [0, 1], scale by 255 and truncate into the Y
    channel of every pixel. */
module Engine {
  import opened Mat
  import opened Helpers
  import opened Padding
  import opened Broadcast
  import opened Layers
  import opened Conv
  import opened Sums

  /** A pixel of `color.YCbCr`: luminance and the two chroma samples. */
  datatype YCbCr = YCbCr(y: byte, cb: byte, cr: byte)

  /** How `Exec` ends: normally, or through `os.Exit(code)`. */
  datatype Status = Done | Exit(code: int)

  /** The luminance of every pixel, as a float. */
  function Luma(cl: seq<YCbCr>): (r: seq<real>)
    ensures |r| == |cl|
    ensures forall i :: 0 <= i < |cl| ==> r[i] == cl[i].y as real && 0.0 <= r[i] <= 255.0
  {
    seq(|cl|, i requires 0 <= i < |cl| => cl[i].y as real)
  }

  /** `extY(cl)`: a fresh slice with the luminance of each pixel, in order. */
  method ExtY(cl: seq<YCbCr>) returns (res: array<real>)
    ensures fresh(res)
    ensures res[..] == Luma(cl)
  {
    res := new real[|cl|];
    for i := 0 to |cl|
      invariant res[..i] == Luma(cl)[..i]
    {
      res[i] := cl[i].y as real;
      assert res[..i + 1] == res[..i] + [res[i]];
      assert Luma(cl)[..i + 1] == Luma(cl)[..i] + [Luma(cl)[i]];
    }
    assert res[..] == res[..|cl|];
  }

  /** The luminance as the height×width matrix `Exec` builds from it. */
  function LumaPlane(pixels: seq<YCbCr>, height: nat, width: nat): (m: Dense)
    ensures m.rows == height && m.cols == width
    ensures |pixels| == Times(height, width) ==> m.Valid()
  {
    Dense(height, width, Luma(pixels))
  }

  /** The pixels after `c[i].Y = uint8(v)` for each v of `ys`: the first |ys|
      pixels get the truncated value as luminance, chroma is kept, and the
      remaining pixels are untouched. */
  function WithY(cl: seq<YCbCr>, ys: seq<real>): (r: seq<YCbCr>)
    requires |ys| <= |cl| && forall i :: 0 <= i < |ys| ==> 0.0 <= ys[i] < 256.0
    ensures |r| == |cl|
    ensures forall i :: 0 <= i < |ys| ==>
      r[i].y == Trunc8(ys[i]) && r[i].cb == cl[i].cb && r[i].cr == cl[i].cr
    ensures forall i :: |ys| <= i < |cl| ==> r[i] == cl[i]
  {
    seq(|cl|, i requires 0 <= i < |cl| => if i < |ys| then cl[i].(y := Trunc8(ys[i])) else cl[i])
  }

  /** `for i, v := range vec { c[i].Y = uint8(v) }`, in place. */
  method StoreY(c: array<YCbCr>, vec: array<real>)
    modifies c
    requires vec.Length <= c.Length
    requires forall i :: 0 <= i < vec.Length ==> 0.0 <= vec[i] < 256.0
    ensures c[..] == WithY(old(c[..]), vec[..])
  {
    for i := 0 to vec.Length
      invariant forall k :: 0 <= k < i ==> c[k] == old(c[k]).(y := Trunc8(vec[k]))
      invariant forall k :: i <= k < c.Length ==> c[k] == old(c[k])
    {
      c[i] := c[i].(y := Trunc8(vec[i]));
    }
  }

  /** The luminance `Exec` stores, before truncation: the plane clamped into
      [0, 1] and scaled by 255, element by element in row-major order; every
      value lies in [0, 255]. */
  function FinalY(plane: Dense): (ys: seq<real>)
    requires plane.Valid()
    ensures |ys| == |plane.data|
    ensures forall k :: 0 <= k < |ys| ==> ys[k] == ClipValue(plane.data[k], 0.0, 1.0) * 255.0
    ensures forall k :: 0 <= k < |ys| ==> 0.0 <= ys[k] <= 255.0
  {
    ClippedData(plane, 0.0, 1.0);
    MapVec(Clipped(plane, 0.0, 1.0).data, 255.0, Mul)
  }

  /** What `Exec` needs: a non-empty image whose pixel count matches its
      dimensions, a source that `pad` can widen by the number of layers, and
      layers that each find what they need. */
  predicate ExecFits(models: seq<Model>, pixels: seq<YCbCr>, height: nat, width: nat) {
    1 <= height && 1 <= width && |pixels| == Times(height, width) &&
    PadFits(LumaPlane(pixels, height, width), |models|) &&
    ForwardFits([Padded(LumaPlane(pixels, height, width), |models|)], models,
                height + 2 * |models|, width + 2 * |models|)
  }

  /** The planes left after the layer loop. */
  function FinalPlanes(models: seq<Model>, pixels: seq<YCbCr>, height: nat, width: nat): (r: seq<Dense>)
    requires ExecFits(models, pixels, height, width)
    ensures Shaped(r, height, width)
    ensures |models| == 0 ==> |r| == 1
    ensures |models| > 0 ==> |r| == OutCount(models[|models| - 1])
  {
    var L := |models|;
    Forward([Padded(LumaPlane(pixels, height, width), L)], models, height + 2 * L, width + 2 * L)
  }

  /** The pixels `Exec` leaves in `dst`, or None when it exits because the
      layers do not end in exactly one plane. */
  function Upscale(models: seq<Model>, pixels: seq<YCbCr>, height: nat, width: nat): (r: Option<seq<YCbCr>>)
    requires ExecFits(models, pixels, height, width)
    ensures r.None? <==> |models| > 0 && OutCount(models[|models| - 1]) != 1
    ensures r.Some? ==> |r.value| == |pixels|
  {
    var planes := FinalPlanes(models, pixels, height, width);
    if |planes| != 1 then None
    else Some(WithY(pixels, FinalY(planes[0])))
  }

  /** Cell (row, col) of a plane lands at position row*cols + col of the
      stored luminance. */
  lemma FinalYAt(plane: Dense, row: nat, col: nat)
    requires plane.Valid() && row < plane.rows && col < plane.cols
    ensures Times(row, plane.cols) + col < |FinalY(plane)|
    ensures FinalY(plane)[Times(row, plane.cols) + col] == ClipValue(plane.At(row, col), 0.0, 1.0) * 255.0
  {
    ScaledCellAt(plane, FinalY(plane), row, col);
  }

  /** Any buffer holding the clamped and scaled cells of a plane, element by
      element, holds cell (row, col) at position row*cols + col. */
  lemma ScaledCellAt(plane: Dense, ys: seq<real>, row: nat, col: nat)
    requires plane.Valid() && row < plane.rows && col < plane.cols
    requires |ys| == |plane.data|
    requires forall k :: 0 <= k < |ys| ==> ys[k] == ClipValue(plane.data[k], 0.0, 1.0) * 255.0
    ensures Times(row, plane.cols) + col < |ys|
    ensures ys[Times(row, plane.cols) + col] == ClipValue(plane.At(row, col), 0.0, 1.0) * 255.0
  {
    FlatIndex(row, col, plane.rows, plane.cols);
    var k := Times(row, plane.cols) + col;
    assert plane.At(row, col) == plane.data[k];
  }

  /** The run keeps the image size: the final plane is height×width again,
      and pixel (row, col), at position row*width + col, gets as luminance the
      truncation of 255 times the final plane's cell (row, col) clamped into
      [0, 1], while its chroma is kept. */
  lemma UpscalePixel(models: seq<Model>, pixels: seq<YCbCr>, height: nat, width: nat, row: nat, col: nat)
    requires ExecFits(models, pixels, height, width)
    requires Upscale(models, pixels, height, width).Some?
    requires row < height && col < width
    ensures var out, plane := Upscale(models, pixels, height, width).value, FinalPlanes(models, pixels, height, width)[0];
      Times(row, width) + col < |pixels| &&
      plane.rows == height && plane.cols == width &&
      out[Times(row, width) + col].y == Trunc8(ClipValue(plane.At(row, col), 0.0, 1.0) * 255.0) &&
      out[Times(row, width) + col].cb == pixels[Times(row, width) + col].cb &&
      out[Times(row, width) + col].cr == pixels[Times(row, width) + col].cr
  {
    var plane := FinalPlanes(models, pixels, height, width)[0];
    FinalYAt(plane, row, col);
    assert Upscale(models, pixels, height, width).value == WithY(pixels, FinalY(plane));
  }

  /** Without layers nothing is padded and the single plane is the luminance
      divided by 255; clamping, scaling back and truncating restore every
      value, so the image comes back unchanged. */
  lemma NoLayersKeepsImage(pixels: seq<YCbCr>, height: nat, width: nat)
    requires 1 <= height && 1 <= width && |pixels| == Times(height, width)
    ensures ExecFits([], pixels, height, width)
    ensures Upscale([], pixels, height, width) == Some(pixels)
  {
    var m := LumaPlane(pixels, height, width);
    PadWithoutPaddingNormalises(m);
    var p := Padded(m, 0);
    assert FinalPlanes([], pixels, height, width) == [p];
    var ys := FinalY(p);
    forall k | 0 <= k < |pixels|
      ensures Trunc8(ys[k]) == pixels[k].y
    {
      DataAt(p, k);
      DataAt(m, k);
      assert p.data[k] == pixels[k].y as real / 255.0;
      assert ys[k] == pixels[k].y as real;
    }
    assert WithY(pixels, ys) == pixels;
  }

  /** The plane `Exec` feeds to the first layer: the luminance, as a
      height×width matrix, padded by `padding`. */
  method PaddedLuma(pixels: seq<YCbCr>, height: nat, width: nat, padding: nat) returns (padded: Dense)
    requires |pixels| == Times(height, width) && PadFits(LumaPlane(pixels, height, width), padding)
    ensures padded == Padded(LumaPlane(pixels, height, width), padding)
  {
    var luma := ExtY(pixels);
    var m := Dense(height, width, luma[..]);
    assert m == LumaPlane(pixels, height, width);
    padded := Pad(m, padding);
  }

  /** The part of `Exec` up to the end of the layer loop: extract the
      luminance, pad it by the number of layers and run the layers; the planes
      left are `FinalPlanes`. */
  method LayerPlanes(models: seq<Model>, pixels: seq<YCbCr>, height: nat, width: nat)
    returns (planes: seq<Dense>)
    requires ExecFits(models, pixels, height, width)
    ensures planes == FinalPlanes(models, pixels, height, width)
  {
    var L := |models|;
    var padded := PaddedLuma(pixels, height, width, L);
    var start := [padded];
    assert Shaped(start, height + 2 * L, width + 2 * L);
    planes := RunLayers(start, models, height + 2 * L, width + 2 * L);
  }

  /** The part of `Exec` after the layer loop: clamp the plane into [0, 1],
      scale it by 255 and truncate it into the luminance of the first pixels. */
  method StoreFinal(c: array<YCbCr>, plane: Dense)
    modifies c
    requires plane.Valid() && |plane.data| <= c.Length
    ensures c[..] == WithY(old(c[..]), FinalY(plane))
  {
    var vec := Clip(plane, 0.0, 1.0);
    BroadcastVec(vec, 255.0, Mul);
    assert vec[..] == FinalY(plane);
    StoreY(c, vec);
  }

  /** A 2×2 image with luminance 10, 20 in the first row and 30, 40 in the
      second. */
  function Sample2x2(): (px: seq<YCbCr>)
    ensures |px| == 4 && px[0].y == 10 && px[3].y == 40
  {
    [YCbCr(10, 128, 128), YCbCr(20, 128, 128), YCbCr(30, 128, 128), YCbCr(40, 128, 128)]
  }

  /** One layer with one input and one output plane, the identity kernel
      (1 in the centre, 0 elsewhere) and bias 0. */
  function IdentityLayer(): (m: Model)
    ensures OutCount(m) == 1 && |m.weight[0]| == 1 && IsKernel(m.weight[0][0])
  {
    Model([[[[0.0, 0.0, 0.0], [0.0, 1.0, 0.0], [0.0, 0.0, 0.0]]]], 1, 3, 3, [0.0], 1)
  }

  /** The identity layer finds what it needs in a single 4×4 plane. */
  lemma IdentityLayerFits(p: Dense)
    requires p.Valid() && p.rows == 4 && p.cols == 4
    ensures LayerFits([p], IdentityLayer(), 4, 4)
  {
    var layer := IdentityLayer();
    assert InCount(1, layer.weight[0]) == 1;
    assert Shaped([p], 4, 4);
  }

  /** Correlating with the identity kernel picks the centre of each window:
      output cell (i, j) is input cell (i + 1, j + 1). */
  lemma IdentityKernelPicksCentre(p: Dense, i: nat, j: nat)
    requires p.Valid() && 3 <= p.rows && 3 <= p.cols
    requires i < p.rows - 2 && j < p.cols - 2
    ensures CorrelateFits(p, IdentityLayer().weight[0][0])
    ensures Correlated(p, IdentityLayer().weight[0][0]).At(i, j) == p.At(i + 1, j + 1)
  {
    var k := IdentityLayer().weight[0][0];
    assert k[0] == [0.0, 0.0, 0.0] && k[1] == [0.0, 1.0, 0.0] && k[2] == [0.0, 0.0, 0.0];
    assert CalcConv(i + 1, j + 1, p, k) == p.At(i + 1, j + 1);
  }

  /** The identity layer's one output plane sums a single correlation, whose
      cell (0, 0) is the plane's cell (1, 1), and adds a zero bias. */
  lemma IdentitySumIsCentre(p: Dense)
    requires p.Valid() && p.rows == 4 && p.cols == 4
    ensures LayerFits([p], IdentityLayer(), 4, 4)
    ensures var w := IdentityLayer().weight[0];
      SumOf(Correlations([p], w, InCount(|[p]|, w), 4, 4), CellOf(0, 0)) + IdentityLayer().bias[0] == p.At(1, 1)
  {
    IdentityLayerFits(p);
    var w := IdentityLayer().weight[0];
    assert InCount(|[p]|, w) == 1;
    var cs := Correlations([p], w, 1, 4, 4);
    IdentityKernelPicksCentre(p, 0, 0);
    assert cs[..0] == [];
  }

  /** On a single 4×4 plane the identity layer gives, at (0, 0), the
      activation of the plane's cell (1, 1). */
  lemma IdentityLayerCopies(p: Dense)
    requires p.Valid() && p.rows == 4 && p.cols == 4
    ensures LayerFits([p], IdentityLayer(), 4, 4)
    ensures LayerOut([p], IdentityLayer(), 4, 4)[0].At(0, 0) == Activation(p.At(1, 1))
  {
    IdentitySumIsCentre(p);
    LayerCell([p], IdentityLayer(), 4, 4, 0, 0, 0);
  }

  /** Padding the 2×2 sample by 1, as `pad` is written, puts the luminance 40
      of source cell (1, 1) at padded cell (1, 1). */
  lemma SamplePadded()
    ensures |Sample2x2()| == Times(2, 2)
    ensures PadFits(LumaPlane(Sample2x2(), 2, 2), 1)
    ensures Padded(LumaPlane(Sample2x2(), 2, 2), 1).At(1, 1) == 40.0 / 255.0
  {
    TimesIsProduct(2, 2);
    var m := LumaPlane(Sample2x2(), 2, 2);
    FlatIndex(1, 1, 2, 2);
    TimesIsProduct(1, 2);
    assert m.At(1, 1) == 40.0;
  }

  /** The layer loop with the identity layer alone, on a single 4×4 plane,
      leaves one 2×2 plane holding at (0, 0) the activation of the input's
      cell (1, 1). */
  lemma IdentityForward(p: Dense)
    requires p.Valid() && p.rows == 4 && p.cols == 4
    ensures Shaped([p], 4, 4) && ForwardFits([p], [IdentityLayer()], 4, 4)
    ensures Forward([p], [IdentityLayer()], 4, 4)[0].At(0, 0) == Activation(p.At(1, 1))
  {
    var layer := IdentityLayer();
    IdentityLayerCopies(p);
    assert [layer][1..] == [];
    assert Shaped([p], 4, 4);
    assert Forward([p], [layer], 4, 4) == LayerOut([p], layer, 4, 4);
  }

  /** The run of the identity layer on the 2×2 sample is defined, and its
      single final plane holds 40/255 at (0, 0). */
  lemma IdentityRunPlane()
    ensures ExecFits([IdentityLayer()], Sample2x2(), 2, 2)
    ensures FinalPlanes([IdentityLayer()], Sample2x2(), 2, 2)[0].At(0, 0) == 40.0 / 255.0
  {
    SamplePadded();
    IdentityForward(Padded(LumaPlane(Sample2x2(), 2, 2), 1));
  }

  /** The visible effect of `pad` as written: a network that only copies its
      input does not give the image back. Pixel (0, 0) of the 2×2 sample,
      with luminance 10, comes out with the luminance 40 of pixel (1, 1),
      because the padded cell (1, 1) holds source cell (1, 1) instead of
      source cell (0, 0). */
  lemma IdentityLayerShiftsImage()
    ensures ExecFits([IdentityLayer()], Sample2x2(), 2, 2)
    ensures Upscale([IdentityLayer()], Sample2x2(), 2, 2).Some?
    ensures Upscale([IdentityLayer()], Sample2x2(), 2, 2).value[0].y == 40 != Sample2x2()[0].y
  {
    IdentityRunPlane();
    var plane := FinalPlanes([IdentityLayer()], Sample2x2(), 2, 2)[0];
    FinalYAt(plane, 0, 0);
    assert FinalY(plane)[0] == 40.0;
  }

  // ---------------------------------------------------------------------
  // The run with the edge-replicating padding the engine was designed for.

  /** What the intended run needs: a non-empty image whose pixel count
      matches its dimensions, and layers that each find what they need; no
      bound on the number of layers relative to the image height. */
  predicate IntendedFits(models: seq<Model>, pixels: seq<YCbCr>, height: nat, width: nat) {
    1 <= height && 1 <= width && |pixels| == Times(height, width) &&
    ForwardFits([EdgePadded(LumaPlane(pixels, height, width), |models|)], models,
                height + 2 * |models|, width + 2 * |models|)
  }

  /** The pixels of the intended run: `Upscale` with the luminance
      edge-replicated instead of padded as `pad` does it. It ends in a
      height×width plane for every image, however short. */
  function IntendedUpscale(models: seq<Model>, pixels: seq<YCbCr>, height: nat, width: nat): (r: Option<seq<YCbCr>>)
    requires IntendedFits(models, pixels, height, width)
    ensures r.None? <==> |models| > 0 && OutCount(models[|models| - 1]) != 1
    ensures r.Some? ==> |r.value| == |pixels|
  {
    var L := |models|;
    var planes := Forward([EdgePadded(LumaPlane(pixels, height, width), L)], models, height + 2 * L, width + 2 * L);
    if |planes| != 1 then None
    else Some(WithY(pixels, FinalY(planes[0])))
  }

  /** Without layers the run as written and the intended run agree: both
      return the image unchanged. */
  lemma IntendedAgreesWithoutLayers(pixels: seq<YCbCr>, height: nat, width: nat)
    requires 1 <= height && 1 <= width && |pixels| == Times(height, width)
    ensures ExecFits([], pixels, height, width) && IntendedFits([], pixels, height, width)
    ensures IntendedUpscale([], pixels, height, width) == Upscale([], pixels, height, width) == Some(pixels)
  {
    NoLayersKeepsImage(pixels, height, width);
    PadWithoutPaddingNormalises(LumaPlane(pixels, height, width));
  }

  /** The engine: the loaded layers, the source pixels in row-major order
      (as `convertYCbCr` delivers them) with the image dimensions, and the
      destination pixels `Exec` writes. */
  class Waifu2x {
    const models: seq<Model>
    const src: seq<YCbCr>
    const height: nat
    const width: nat
    var dst: seq<YCbCr>

    /** `NewWaifu2x`, with the model and the image already loaded. */
    constructor (models: seq<Model>, src: seq<YCbCr>, height: nat, width: nat)
      ensures this.models == models && this.src == src
      ensures this.height == height && this.width == width
      ensures dst == []
    {
      this.models := models;
      this.src := src;
      this.height := height;
      this.width := width;
      dst := [];
    }

    /** `Exec`: either exits with status 1, leaving `dst` as it was, or stores
        the upscaled pixels in `dst`. */
    method Exec() returns (status: Status)
      modifies this
      requires ExecFits(models, src, height, width)
      ensures Upscale(models, src, height, width).None? ==> status == Exit(1) && dst == old(dst)
      ensures Upscale(models, src, height, width).Some? ==>
        status == Done && dst == Upscale(models, src, height, width).value
    {
      var c := new YCbCr[|src|](i requires 0 <= i < |src| => src[i]);
      assert c[..] == src;
      var planes := LayerPlanes(models, c[..], height, width);
      if |planes| != 1 {
        return Exit(1);
      }
      StoreFinal(c, planes[0]);
      dst := c[..];
      status := Done;
    }
  }
}
