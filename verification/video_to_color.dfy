/** Colour layering (video2color/video2color.go): every pixel of a frame is
    assigned to the nearest palette colour, and each palette colour gets a
    grey mask that is black where the pixel is its own and white elsewhere. */
module VideoToColor {
  import opened Wrappers
  import opened Types
  import opened Quantize
  import opened Batch

  /** Above every distance `Distance` can return (3 * 255 * 255 at most);
      stands for the `math.MaxFloat64` the nearest-colour search starts from.
      Squared byte differences are small integers, so their float64 sums are
      exact and compare as integers do. */
  const NoDistance: int := 3 * 255 * 255 + 1

  /** `rr - rgb.R` on two `uint8`s: the difference wraps modulo 256. */
  function WrapDiff(a: Channel, b: Channel): (d: Channel)
    ensures a >= b ==> d == a - b
    ensures a < b ==> d == a - b + 256
  {
    (a - b) % 256
  }

  /** The squared distance the source compares: the sum over the three
      channels of the squared wrapped difference. */
  function Distance(p: Pixel, c: Rgba): (d: int)
    ensures 0 <= d < NoDistance
  {
    var dr := WrapDiff(p.r, c.r);
    var dg := WrapDiff(p.g, c.g);
    var db := WrapDiff(p.b, c.b);
    SquareBound(dr);
    SquareBound(dg);
    SquareBound(db);
    dr * dr + dg * dg + db * db
  }

  lemma SquareBound(x: Channel)
    ensures 0 <= x * x <= 255 * 255
  {
    MulMonotone(x, x, 255);
    MulMonotone(255, x, 255);
  }

  lemma {:induction false} MulMonotone(a: nat, b: int, c: int)
    requires b <= c
    ensures a * b <= a * c
    decreases a
  {
    if a > 0 {
      MulMonotone(a - 1, b, c);
    }
  }

  /** Palette entry `i` is the one the search settles on for `p`: no entry is
      closer, and every earlier entry is strictly farther (ties keep the first). */
  ghost predicate IsNearest(p: Pixel, pal: seq<Rgba>, i: nat)
  {
    && i < |pal|
    && (forall j | 0 <= j < |pal| :: Distance(p, pal[i]) <= Distance(p, pal[j]))
    && (forall j | 0 <= j < i :: Distance(p, pal[i]) < Distance(p, pal[j]))
  }

  /** The search loop over the palette from entry `i` on, with the best entry
      and distance found so far. */
  function NearestFrom(p: Pixel, pal: seq<Rgba>, i: nat, best: nat, bestDist: int): (k: nat)
    requires 0 < |pal| && i <= |pal|
    requires i == 0 ==> best == 0 && bestDist == NoDistance
    requires i > 0 ==> best < i && bestDist == Distance(p, pal[best])
    requires forall j | 0 <= j < i :: bestDist <= Distance(p, pal[j])
    requires forall j | 0 <= j < best :: bestDist < Distance(p, pal[j])
    ensures IsNearest(p, pal, k)
    decreases |pal| - i
  {
    if i == |pal| then best
    else
      var d := Distance(p, pal[i]);
      if d < bestDist then NearestFrom(p, pal, i + 1, i, d)
      else NearestFrom(p, pal, i + 1, best, bestDist)
  }

  /** The index of the palette colour nearest to `p`. */
  function Nearest(p: Pixel, pal: seq<Rgba>): (k: nat)
    requires |pal| > 0
    ensures IsNearest(p, pal, k)
  {
    NearestFrom(p, pal, 0, 0, NoDistance)
  }

  /** At most one entry is the nearest, so `Nearest` is the only index that
      `IsNearest` allows. */
  lemma NearestUnique(p: Pixel, pal: seq<Rgba>, i: nat)
    requires |pal| > 0
    ensures IsNearest(p, pal, i) <==> i == Nearest(p, pal)
  {
  }

  /** The mask of layer `i`: 0 at the pixels whose nearest colour is entry
      `i`, 255 elsewhere. */
  function LayerMask(img: Image, pal: seq<Rgba>, i: nat): Mask
    requires |pal| > 0
  {
    Mask(img.width, img.height,
      seq(|img.pixels|, k requires 0 <= k < |img.pixels| => if Nearest(img.pixels[k], pal) == i then 0 else 255))
  }

  /** `layers` is the colour split of `img` by `pal`: one layer per entry, in
      palette order, each with the image's bounds and a mask that is black
      exactly at the pixels whose nearest entry is that layer's. */
  ghost predicate SplitsBy(img: Image, pal: seq<Rgba>, layers: seq<ColorLayer>)
  {
    && |layers| == |pal|
    && (forall i | 0 <= i < |layers| ::
          && layers[i].color == pal[i]
          && layers[i].mask.width == img.width
          && layers[i].mask.height == img.height
          && |layers[i].mask.values| == |img.pixels|)
    && (forall i, k | 0 <= i < |layers| && 0 <= k < |img.pixels| && k < |layers[i].mask.values| ::
          layers[i].mask.values[k] == if IsNearest(img.pixels[k], pal, i) then 0 else 255)
  }

  /** `SplitColors`: a nil image and an empty palette are errors, checked in
      that order; otherwise the frame number is kept and the layers are the
      colour split of the image by the palette. */
  function SplitColors(frame: Frame, pal: seq<Rgba>): (r: Result<FrameLayers, Error>)
    ensures frame.image.None? ==> r == Failure(NilImage)
    ensures frame.image.Some? && |pal| == 0 ==> r == Failure(EmptyPalette)
    ensures frame.image.Some? && |pal| > 0 ==>
      r.Success? && r.value.index == frame.index && SplitsBy(frame.image.value, pal, r.value.layers)
  {
    if frame.image.None? then Failure(NilImage)
    else if |pal| == 0 then Failure(EmptyPalette)
    else
      var img := frame.image.value;
      var layers := seq(|pal|, i requires 0 <= i < |pal| => ColorLayer(pal[i], LayerMask(img, pal, i)));
      assert SplitsBy(img, pal, layers) by {
        forall i, k | 0 <= i < |layers| && 0 <= k < |img.pixels|
          ensures layers[i].mask.values[k] == if IsNearest(img.pixels[k], pal, i) then 0 else 255
        {
          NearestUnique(img.pixels[k], pal, i);
        }
      }
      Success(FrameLayers(frame.index, layers))
  }

  /** In a colour split every pixel is black in exactly one mask, the mask of
      its nearest colour, and white in all others. */
  lemma MasksPartitionPixels(img: Image, pal: seq<Rgba>, layers: seq<ColorLayer>, k: nat)
    requires |pal| > 0 && k < |img.pixels|
    requires SplitsBy(img, pal, layers)
    ensures layers[Nearest(img.pixels[k], pal)].mask.values[k] == 0
    ensures forall i | 0 <= i < |layers| && i != Nearest(img.pixels[k], pal) :: layers[i].mask.values[k] == 255
  {
    forall i | 0 <= i < |layers|
      ensures layers[i].mask.values[k] == if i == Nearest(img.pixels[k], pal) then 0 else 255
    {
      NearestUnique(img.pixels[k], pal, i);
    }
  }

  /** The palette a list of layers stands for. */
  function Colors(layers: seq<ColorLayer>): (pal: seq<Rgba>)
    ensures |pal| == |layers|
    ensures forall i | 0 <= i < |layers| :: pal[i] == layers[i].color
  {
    seq(|layers|, i requires 0 <= i < |layers| => layers[i].color)
  }

  /** `SplitColorsAuto`: the frame is split by its own median-cut palette. The
      source quantises before checking for a nil image, and the quantiser
      panics on one, so the image must be present. An image without pixels
      has an empty palette, which is the only error. Otherwise there are at
      most `colorCount` (at least one) layers, no more than pixels, each
      opaque, their colours are exactly the median-cut palette, in its order,
      and they are the colour split of the image by those colours. */
  function SplitColorsAuto(frame: Frame, colorCount: int): (r: Result<FrameLayers, Error>)
    requires frame.image.Some?
    ensures r.Failure? <==> |frame.image.value.pixels| == 0
    ensures r.Failure? ==> r.error == EmptyPalette
    ensures r.Success? ==>
      && r.value.index == frame.index
      && 1 <= |r.value.layers| <= (if colorCount < 1 then 1 else colorCount)
      && |r.value.layers| <= |frame.image.value.pixels|
      && (forall i | 0 <= i < |r.value.layers| :: r.value.layers[i].color.a == 255)
      && Colors(r.value.layers) == MedianCutQuantize(frame.image.value, colorCount)
      && SplitsBy(frame.image.value, Colors(r.value.layers), r.value.layers)
  {
    var pal := MedianCutQuantize(frame.image.value, colorCount);
    var r := SplitColors(frame, pal);
    assert r.Success? ==> Colors(r.value.layers) == pal;
    r
  }

  /** Splitting an image of one colour by a palette of one colour: the first
      layer takes every pixel and any further layers are left white. */
  lemma UniformSplit(img: Image, pal: seq<Rgba>, layers: seq<ColorLayer>)
    requires |pal| > 0 && SplitsBy(img, pal, layers)
    requires forall k | 0 <= k < |img.pixels| :: img.pixels[k] == img.pixels[0]
    requires forall i | 0 <= i < |pal| :: pal[i] == pal[0]
    ensures forall k | 0 <= k < |layers[0].mask.values| :: layers[0].mask.values[k] == 0
    ensures forall i, k | 1 <= i < |layers| && 0 <= k < |layers[i].mask.values| :: layers[i].mask.values[k] == 255
  {
    forall k | 0 <= k < |img.pixels|
      ensures IsNearest(img.pixels[k], pal, 0)
    {
    }
    forall i, k | 0 <= i < |layers| && 0 <= k < |img.pixels|
      ensures layers[i].mask.values[k] == if i == 0 then 0 else 255
    {
      NearestUnique(img.pixels[k], pal, 0);
      NearestUnique(img.pixels[k], pal, i);
    }
  }

  /** A frame of a single colour: every palette entry is that colour, so the
      first layer takes every pixel and any further layers are left white. */
  lemma UniformFrameSplit(frame: Frame, colorCount: int, p: Pixel)
    requires frame.image.Some? && |frame.image.value.pixels| > 0
    requires forall k | 0 <= k < |frame.image.value.pixels| :: frame.image.value.pixels[k] == p
    ensures SplitColorsAuto(frame, colorCount).Success?
    ensures var layers := SplitColorsAuto(frame, colorCount).value.layers;
      && (forall i | 0 <= i < |layers| :: layers[i].color == Rgba(p.r, p.g, p.b, 255))
      && (forall k | 0 <= k < |layers[0].mask.values| :: layers[0].mask.values[k] == 0)
      && (forall i, k | 1 <= i < |layers| && 0 <= k < |layers[i].mask.values| :: layers[i].mask.values[k] == 255)
  {
    var img := frame.image.value;
    UniformImage(img, colorCount, p);
    var layers := SplitColorsAuto(frame, colorCount).value.layers;
    UniformSplit(img, Colors(layers), layers);
  }

  /** True when every frame has an image. */
  predicate AllImages(frames: seq<Frame>)
  {
    forall i | 0 <= i < |frames| :: frames[i].image.Some?
  }

  /** `SplitAllFrames`: no frames and an empty palette are errors, checked in
      that order before any work starts. Otherwise every frame is split by
      the palette, the workers finishing in `order`; the result is the
      per-frame splits in frame order, or `NilImage` if any frame has none. */
  method SplitAllFrames(frames: seq<Frame>, pal: seq<Rgba>, order: seq<nat>) returns (r: Result<seq<FrameLayers>, Error>)
    requires IsCompletionOrder(order, |frames|)
    ensures |frames| == 0 ==> r == Failure(NoFrames)
    ensures |frames| > 0 && |pal| == 0 ==> r == Failure(EmptyPalette)
    ensures |frames| > 0 && |pal| > 0 && !AllImages(frames) ==> r == Failure(NilImage)
    ensures r.Success? <==> |frames| > 0 && |pal| > 0 && AllImages(frames)
    ensures r.Success? ==> |r.value| == |frames| && forall i | 0 <= i < |frames| ::
      && r.value[i].index == frames[i].index
      && SplitsBy(frames[i].image.value, pal, r.value[i].layers)
  {
    if |frames| == 0 {
      return Failure(NoFrames);
    }
    if |pal| == 0 {
      return Failure(EmptyPalette);
    }
    var done;
    r, done := RunBatch(frames, (f: Frame) => SplitColors(f, pal), order);
    if r.Failure? {
      var k :| 0 <= k < |order| && SplitColors(frames[order[k]], pal) == Failure(r.error);
    }
  }

  /** `SplitAllFramesAuto`: every frame split by its own palette. No frames is
      an error; otherwise the only failure is a frame without pixels. A nil
      image makes the quantiser panic, so every frame must have one. */
  method SplitAllFramesAuto(frames: seq<Frame>, colorCount: int, order: seq<nat>) returns (r: Result<seq<FrameLayers>, Error>)
    requires IsCompletionOrder(order, |frames|)
    requires AllImages(frames)
    ensures |frames| == 0 ==> r == Failure(NoFrames)
    ensures r.Success? <==> |frames| > 0 && forall i | 0 <= i < |frames| :: |frames[i].image.value.pixels| > 0
    ensures r.Failure? && |frames| > 0 ==> r.error == EmptyPalette
    ensures r.Success? ==> |r.value| == |frames| && forall i | 0 <= i < |frames| ::
      r.value[i] == SplitColorsAuto(frames[i], colorCount).value
  {
    var calls;
    r, calls := SplitAllFramesAutoWithProgress(frames, colorCount, false, order);
  }

  /** `SplitAllFramesAutoWithProgress`: as `SplitAllFramesAuto`, and when a
      callback is given it is called once per frame that was split, never for
      a failed one; `calls` counts those calls. */
  method SplitAllFramesAutoWithProgress(frames: seq<Frame>, colorCount: int, hasCallback: bool, order: seq<nat>)
    returns (r: Result<seq<FrameLayers>, Error>, calls: nat)
    requires IsCompletionOrder(order, |frames|)
    requires AllImages(frames)
    ensures |frames| == 0 ==> r == Failure(NoFrames) && calls == 0
    ensures r.Success? <==> |frames| > 0 && forall i | 0 <= i < |frames| :: |frames[i].image.value.pixels| > 0
    ensures r.Failure? && |frames| > 0 ==> r.error == EmptyPalette
    ensures r.Success? ==> |r.value| == |frames| && forall i | 0 <= i < |frames| ::
      r.value[i] == SplitColorsAuto(frames[i], colorCount).value
    ensures calls == if hasCallback then |set i: nat | i < |frames| && |frames[i].image.value.pixels| > 0| else 0
  {
    if |frames| == 0 {
      return Failure(NoFrames), 0;
    }
    var done;
    r, done := RunBatch(frames, (f: Frame) requires f.image.Some? => SplitColorsAuto(f, colorCount), order);
    if r.Failure? {
      var k :| 0 <= k < |order| && SplitColorsAuto(frames[order[k]], colorCount) == Failure(r.error);
    }
    assert Succeeding(frames, (f: Frame) requires f.image.Some? => SplitColorsAuto(f, colorCount))
        == set i: nat | i < |frames| && |frames[i].image.value.pixels| > 0;
    calls := if hasCallback then done else 0;
  }
}
