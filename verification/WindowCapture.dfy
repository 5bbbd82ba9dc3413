/** `compose_window_pixels` (src/embedder/capture/mod.rs:985-1081): the painter's algorithm over
    the layers of one window. */
module WindowCapture {
  import opened Pixels
  import opened Blit
  import opened Geometry

  datatype Layer = Layer(order: nat, originX: real, originY: real, size: Size, pixels: seq<Byte>, ownScale: real)

  predicate ValidLayers(layers: seq<Layer>) {
    forall i | 0 <= i < |layers| :: IsImage(layers[i].pixels, layers[i].size)
  }

  const MIN_OWN_SCALE: real := 0.000001

  /** The `as i32` cast of a float. */
  function Saturate(n: int): int {
    if n > Blit.I32_MAX then Blit.I32_MAX else if n < -0x8000_0000 then -0x8000_0000 else n
  }

  /** Where a layer lands, at the viewport's scale. */
  function Placement(layer: Layer, scale: real): Rect {
    var own := if layer.ownScale > MIN_OWN_SCALE then layer.ownScale else MIN_OWN_SCALE;
    Rect(Saturate(Spot(layer.originX, scale)), Saturate(Spot(layer.originY, scale)),
         Saturate(Extent(layer.size.w, scale, own)), Saturate(Extent(layer.size.h, scale, own)))
  }

  /** The pixel a layer starts at, along one axis. */
  function Spot(origin: real, scale: real): int {
    Round(origin * scale)
  }

  /** The pixels of the viewport a layer of `n` pixels of its own takes, along one axis. */
  function Extent(n: int, scale: real, own: real): int
    requires own > 0.0
  {
    ((n as real) * scale / own).Floor
  }

  predicate Covers(layer: Layer, scale: real, viewport: Size, x: int, y: int) {
    Clipped(Placement(layer, scale), layer.size, viewport, x, y)
  }

  function LayerPixel(layer: Layer, scale: real, viewport: Size, x: int, y: int): Pixel
    requires IsImage(layer.pixels, layer.size) && Covers(layer, scale, viewport, x, y)
  {
    PixelFrom(layer, Placement(layer, scale), x, y)
  }

  /** The pixel a layer put at `at` shows at (x, y). */
  function PixelFrom(layer: Layer, at: Rect, x: int, y: int): Pixel
    requires IsImage(layer.pixels, layer.size) && InGrid(layer.size, x - at.x, y - at.y)
  {
    At(layer.pixels, layer.size, x - at.x, y - at.y)
  }

  // ----- the stable sort

  /** Layer `i` is painted before layer `j`. */
  predicate Before(layers: seq<Layer>, i: nat, j: nat) {
    i < |layers| && j < |layers| && (layers[i].order < layers[j].order || (layers[i].order == layers[j].order && i < j))
  }

  function InsertStable(layers: seq<Layer>, sorted: seq<nat>, i: nat): seq<nat>
    requires i < |layers| && forall k | 0 <= k < |sorted| :: sorted[k] < |layers|
  {
    if sorted == [] || layers[sorted[|sorted| - 1]].order <= layers[i].order then sorted + [i]
    else InsertStable(layers, sorted[..|sorted| - 1], i) + [sorted[|sorted| - 1]]
  }

  /** `ordered` lists the layers 0 to n, each once, in painting order. */
  ghost predicate PaintOrder(layers: seq<Layer>, ordered: seq<nat>, n: nat) {
    && (forall k | 0 <= k < |ordered| :: ordered[k] < n <= |layers|)
    && (forall k, m | 0 <= k < m < |ordered| :: Before(layers, ordered[k], ordered[m]))
    && (forall i: nat | i < n :: i in ordered)
  }

  lemma {:induction false} InsertStableKeeps(layers: seq<Layer>, sorted: seq<nat>, i: nat)
    requires i < |layers| && forall k | 0 <= k < |sorted| :: sorted[k] < i
    requires forall k, m | 0 <= k < m < |sorted| :: Before(layers, sorted[k], sorted[m])
    ensures var r := InsertStable(layers, sorted, i);
      && (forall k | 0 <= k < |r| :: r[k] < |layers| && (r[k] == i || r[k] in sorted))
      && (forall k, m | 0 <= k < m < |r| :: Before(layers, r[k], r[m]))
      && i in r && (forall j | j in sorted :: j in r)
  {
    if sorted != [] {
      var init, last := sorted[..|sorted| - 1], sorted[|sorted| - 1];
      assert sorted == init + [last];
      if layers[last].order > layers[i].order {
        InsertStableKeeps(layers, init, i);
        var r := InsertStable(layers, init, i);
        forall k | 0 <= k < |r| ensures Before(layers, r[k], last) {
          if r[k] != i {
            var m :| 0 <= m < |init| && init[m] == r[k];
            assert Before(layers, sorted[m], sorted[|sorted| - 1]);
          }
        }
      } else {
        forall k | 0 <= k < |sorted| ensures Before(layers, sorted[k], i) {
          if k < |sorted| - 1 {
            assert Before(layers, sorted[k], sorted[|sorted| - 1]);
          }
        }
      }
    }
  }

  method StableOrder(layers: seq<Layer>) returns (ordered: seq<nat>)
    ensures PaintOrder(layers, ordered, |layers|)
  {
    ordered := [];
    var i := 0;
    while i < |layers|
      invariant 0 <= i <= |layers|
      invariant PaintOrder(layers, ordered, i)
    {
      InsertStableKeeps(layers, ordered, i);
      ghost var before := ordered;
      ordered := InsertStable(layers, ordered, i);
      forall k | 0 <= k < |ordered| ensures ordered[k] < i + 1 {
        if ordered[k] != i {
          var m :| 0 <= m < |before| && before[m] == ordered[k];
        }
      }
      i := i + 1;
    }
  }

  // ----- painting

  /** The picture after the first `n` layers of `ordered`. */
  function Painted(layers: seq<Layer>, ordered: seq<nat>, n: nat, scale: real, viewport: Size, x: int, y: int): Pixel
    requires ValidLayers(layers) && n <= |ordered| && forall k | 0 <= k < |ordered| :: ordered[k] < |layers|
  {
    if n == 0 then BLACK
    else if Covers(layers[ordered[n - 1]], scale, viewport, x, y)
    then LayerPixel(layers[ordered[n - 1]], scale, viewport, x, y)
    else Painted(layers, ordered, n - 1, scale, viewport, x, y)
  }

  /** The layer on top at (x, y): it covers the pixel and every other layer that does is painted
      before it. */
  ghost predicate OnTop(layers: seq<Layer>, scale: real, viewport: Size, i: nat, x: int, y: int) {
    && i < |layers| && Covers(layers[i], scale, viewport, x, y)
    && forall j: nat | j < |layers| && Covers(layers[j], scale, viewport, x, y) :: j == i || Before(layers, j, i)
  }

  /** What a share of the window must show: the top layer's pixel, or opaque black. */
  ghost predicate ShowsTop(layers: seq<Layer>, scale: real, viewport: Size, x: int, y: int, shown: Pixel)
    requires ValidLayers(layers)
  {
    && (forall i: nat | OnTop(layers, scale, viewport, i, x, y) :: shown == LayerPixel(layers[i], scale, viewport, x, y))
    && ((forall i: nat | i < |layers| :: !Covers(layers[i], scale, viewport, x, y)) ==> shown == BLACK)
  }

  lemma {:induction false} LastCoverStays(layers: seq<Layer>, ordered: seq<nat>, n: nat, scale: real, viewport: Size,
                                          k: nat, x: int, y: int)
    requires ValidLayers(layers) && forall m | 0 <= m < |ordered| :: ordered[m] < |layers|
    requires k < n <= |ordered| && Covers(layers[ordered[k]], scale, viewport, x, y)
    requires forall m | k < m < n :: !Covers(layers[ordered[m]], scale, viewport, x, y)
    ensures Painted(layers, ordered, n, scale, viewport, x, y) == LayerPixel(layers[ordered[k]], scale, viewport, x, y)
  {
    if k < n - 1 {
      LastCoverStays(layers, ordered, n - 1, scale, viewport, k, x, y);
    }
  }

  lemma {:induction false} UncoveredStaysBlack(layers: seq<Layer>, ordered: seq<nat>, n: nat, scale: real,
                                               viewport: Size, x: int, y: int)
    requires ValidLayers(layers) && forall m | 0 <= m < |ordered| :: ordered[m] < |layers|
    requires n <= |ordered| && forall m | 0 <= m < n :: !Covers(layers[ordered[m]], scale, viewport, x, y)
    ensures Painted(layers, ordered, n, scale, viewport, x, y) == BLACK
  {
    if n > 0 {
      UncoveredStaysBlack(layers, ordered, n - 1, scale, viewport, x, y);
    }
  }

  /** Painting the layers in order shows, at every pixel, the layer on top there. */
  lemma PaintingShowsTop(layers: seq<Layer>, ordered: seq<nat>, scale: real, viewport: Size, x: int, y: int)
    requires ValidLayers(layers) && PaintOrder(layers, ordered, |layers|)
    ensures ShowsTop(layers, scale, viewport, x, y, Painted(layers, ordered, |ordered|, scale, viewport, x, y))
  {
    forall i: nat | OnTop(layers, scale, viewport, i, x, y)
      ensures Painted(layers, ordered, |ordered|, scale, viewport, x, y) == LayerPixel(layers[i], scale, viewport, x, y)
    {
      assert i in ordered;
      var k :| 0 <= k < |ordered| && ordered[k] == i;
      forall m | k < m < |ordered| ensures !Covers(layers[ordered[m]], scale, viewport, x, y) {
        assert Before(layers, ordered[k], ordered[m]);
        assert !Before(layers, ordered[m], i) && ordered[m] != i;
      }
      LastCoverStays(layers, ordered, |ordered|, scale, viewport, k, x, y);
    }
    if forall i: nat | i < |layers| :: !Covers(layers[i], scale, viewport, x, y) {
      UncoveredStaysBlack(layers, ordered, |ordered|, scale, viewport, x, y);
    }
  }

  /** Wherever some layer covers a pixel, one of them is on top, so the picture is fully determined. */
  lemma {:induction false} SomeLayerIsOnTop(layers: seq<Layer>, ordered: seq<nat>, n: nat, scale: real,
                                            viewport: Size, x: int, y: int)
    returns (i: nat)
    requires PaintOrder(layers, ordered, |layers|) && n <= |ordered|
    requires exists k :: 0 <= k < n && Covers(layers[ordered[k]], scale, viewport, x, y)
    requires forall m | n <= m < |ordered| :: !Covers(layers[ordered[m]], scale, viewport, x, y)
    ensures OnTop(layers, scale, viewport, i, x, y)
  {
    i := ordered[n - 1];
    if Covers(layers[i], scale, viewport, x, y) {
      forall j: nat | j < |layers| && Covers(layers[j], scale, viewport, x, y) ensures j == i || Before(layers, j, i) {
        assert j in ordered;
        var k :| 0 <= k < |ordered| && ordered[k] == j;
        assert k < n - 1 ==> Before(layers, ordered[k], ordered[n - 1]);
      }
    } else {
      i := SomeLayerIsOnTop(layers, ordered, n - 1, scale, viewport, x, y);
    }
  }

  method ComposeWindowPixels(width: real, height: real, scale: real, layers: seq<Layer>)
    returns (result: Result<(Size, seq<Byte>)>)
    requires ValidLayers(layers)
    ensures result.Ok? <==> PixelSize(width, height, scale).Ok?
    ensures result.Ok? ==>
      var (size, pixels) := result.value;
      && PixelSize(width, height, scale) == Ok(size)
      && IsImage(pixels, size)
      && forall x, y | InGrid(size, x, y) :: ShowsTop(layers, scale, size, x, y, At(pixels, size, x, y))
  {
    var sized := PixelSize(width, height, scale);
    if sized.Err? {
      return Err;
    }
    var size := sized.value;
    PixelLenNeverOverflows(size);
    if PixelLen(size).Err? {
      return Err;
    }
    var pixels := BlackImage(size);
    var ordered := StableOrder(layers);
    PaintLayers(pixels, size, layers, ordered, scale);
    forall x, y | InGrid(size, x, y) ensures ShowsTop(layers, scale, size, x, y, At(pixels[..], size, x, y)) {
      PaintingShowsTop(layers, ordered, scale, size, x, y);
    }
    result := Ok((size, pixels[..]));
  }

  /** Blits the layers one over the other, in the given order. */
  method PaintLayers(pixels: array<Byte>, size: Size, layers: seq<Layer>, ordered: seq<nat>, scale: real)
    requires ValidLayers(layers) && forall k | 0 <= k < |ordered| :: ordered[k] < |layers|
    requires IsImage(pixels[..], size) && forall x, y | InGrid(size, x, y) :: At(pixels[..], size, x, y) == BLACK
    modifies pixels
    ensures IsImage(pixels[..], size)
    ensures forall x, y | InGrid(size, x, y) ::
      At(pixels[..], size, x, y) == Painted(layers, ordered, |ordered|, scale, size, x, y)
  {
    var n := 0;
    while n < |ordered|
      invariant 0 <= n <= |ordered|
      invariant IsImage(pixels[..], size)
      invariant forall x, y | InGrid(size, x, y) ::
        At(pixels[..], size, x, y) == Painted(layers, ordered, n, scale, size, x, y)
    {
      var layer := layers[ordered[n]];
      BlitClipped(pixels, size, layer.pixels, layer.size, Placement(layer, scale));
      n := n + 1;
    }
  }

  // ----- when the end of a layer does not fit 32 bits

  /** The cells of one axis the layer geometrically covers in the viewport. */
  predicate Intends(at: int, length: int, source: int, target: int, d: int) {
    at <= d < at + length && 0 <= d < target && d - at < source
  }

  /** A clipped copy reaches exactly the cells its layer covers, if and only if the layer's end is
      a 32-bit number or no cell of it could be seen anyway. */
  lemma ReachesExactly(at: int, length: int, source: int, target: int)
    requires IsI32(at) && 0 <= length <= Blit.I32_MAX && 0 <= target <= Blit.I32_MAX
    ensures (forall d :: Reaches(at, length, source, target, d) <==> Intends(at, length, source, target, d))
      <==> (at + length <= Blit.I32_MAX || at >= target || source <= 0)
  {
    if at + length > Blit.I32_MAX && at < target && source > 0 {
      assert Intends(at, length, source, target, at) && !Reaches(at, length, source, target, at);
    }
  }

  // ----- every layer the compositor captures fits

  const BOUND := 0x4000_0000

  /** What the layers of a capture have in common: they are rendered at a scale of at least one
      (src/embedder/capture/mod.rs:426-428, 487-492), and along each axis they start less than a
      quarter of the 32-bit range away from the viewport's corner and are shorter than that. */
  predicate Fits(layer: Layer, scale: real) {
    && layer.ownScale >= 1.0
    && -BOUND < Spot(layer.originX, scale) < BOUND && -BOUND < Spot(layer.originY, scale) < BOUND
    && 0 <= Extent(layer.size.w, scale, layer.ownScale) < BOUND
    && 0 <= Extent(layer.size.h, scale, layer.ownScale) < BOUND
  }

  /** The exact place of a layer, in whole pixels and without any 32-bit limit. */
  function ExactPlace(layer: Layer, scale: real): Rect
    requires layer.ownScale > 0.0
  {
    Rect(Spot(layer.originX, scale), Spot(layer.originY, scale),
         Extent(layer.size.w, scale, layer.ownScale), Extent(layer.size.h, scale, layer.ownScale))
  }

  /** The layer lies over the viewport's pixel and has a pixel of its own there. */
  predicate LiesOver(layer: Layer, scale: real, viewport: Size, x: int, y: int)
    requires layer.ownScale > 0.0
  {
    var at := ExactPlace(layer, scale);
    && Intends(at.x, at.w, layer.size.w, viewport.w, x)
    && Intends(at.y, at.h, layer.size.h, viewport.h, y)
  }

  /** A layer that fits is placed exactly, and no end of it leaves the 32-bit range. */
  lemma PlacedExactly(layer: Layer, scale: real)
    requires Fits(layer, scale)
    ensures Placement(layer, scale) == ExactPlace(layer, scale)
    ensures var at := ExactPlace(layer, scale);
      IsI32(at.x) && IsI32(at.y) && 0 <= at.w && 0 <= at.h && IsI32(at.x + at.w) && IsI32(at.y + at.h)
  {
  }

  lemma CoversExactly(layer: Layer, scale: real, viewport: Size, x: int, y: int)
    requires Fits(layer, scale)
    ensures Covers(layer, scale, viewport, x, y) <==> LiesOver(layer, scale, viewport, x, y)
  {
    PlacedExactly(layer, scale);
  }

  predicate AllFit(layers: seq<Layer>, scale: real) {
    forall i | 0 <= i < |layers| :: Fits(layers[i], scale)
  }

  /** The layer that lies over the pixel and is painted after every other that does. */
  ghost predicate Uppermost(layers: seq<Layer>, scale: real, viewport: Size, i: nat, x: int, y: int)
    requires AllFit(layers, scale)
  {
    && i < |layers| && LiesOver(layers[i], scale, viewport, x, y)
    && forall j: nat | j < |layers| && LiesOver(layers[j], scale, viewport, x, y) :: j == i || Before(layers, j, i)
  }

  /** What the picture of layers that fit shows at a pixel, judged by where they are. */
  ghost predicate ShowsUppermost(layers: seq<Layer>, scale: real, viewport: Size, x: int, y: int, shown: Pixel)
    requires ValidLayers(layers) && AllFit(layers, scale)
  {
    && (forall i: nat | Uppermost(layers, scale, viewport, i, x, y) :: shown == PixelOver(layers[i], scale, viewport, x, y))
    && ((forall i: nat | i < |layers| :: !LiesOver(layers[i], scale, viewport, x, y)) ==> shown == BLACK)
  }

  function PixelOver(layer: Layer, scale: real, viewport: Size, x: int, y: int): Pixel
    requires layer.ownScale > 0.0 && IsImage(layer.pixels, layer.size) && LiesOver(layer, scale, viewport, x, y)
  {
    PixelFrom(layer, ExactPlace(layer, scale), x, y)
  }

  lemma PixelOverIsLayerPixel(layer: Layer, scale: real, viewport: Size, x: int, y: int)
    requires Fits(layer, scale) && IsImage(layer.pixels, layer.size) && LiesOver(layer, scale, viewport, x, y)
    ensures Covers(layer, scale, viewport, x, y)
    ensures PixelOver(layer, scale, viewport, x, y) == LayerPixel(layer, scale, viewport, x, y)
  {
    PlacedExactly(layer, scale);
    CoversExactly(layer, scale, viewport, x, y);
  }

  lemma UppermostIsOnTop(layers: seq<Layer>, scale: real, viewport: Size, i: nat, x: int, y: int)
    requires AllFit(layers, scale)
    ensures Uppermost(layers, scale, viewport, i, x, y) <==> OnTop(layers, scale, viewport, i, x, y)
  {
    forall j: nat | j < |layers|
      ensures Covers(layers[j], scale, viewport, x, y) <==> LiesOver(layers[j], scale, viewport, x, y)
    {
      CoversExactly(layers[j], scale, viewport, x, y);
    }
  }

  /** Layers that fit are shown by geometry alone: no overflow, saturation or clamp decides anything. */
  lemma PictureIsGeometric(layers: seq<Layer>, scale: real, viewport: Size, x: int, y: int, shown: Pixel)
    requires ValidLayers(layers) && AllFit(layers, scale)
    ensures ShowsTop(layers, scale, viewport, x, y, shown) ==> ShowsUppermost(layers, scale, viewport, x, y, shown)
  {
    if ShowsTop(layers, scale, viewport, x, y, shown) {
      forall i: nat | Uppermost(layers, scale, viewport, i, x, y)
        ensures shown == PixelOver(layers[i], scale, viewport, x, y)
      {
        UppermostIsOnTop(layers, scale, viewport, i, x, y);
        PixelOverIsLayerPixel(layers[i], scale, viewport, x, y);
      }
      if forall i: nat | i < |layers| :: !LiesOver(layers[i], scale, viewport, x, y) {
        forall i: nat | i < |layers| ensures !Covers(layers[i], scale, viewport, x, y) {
          CoversExactly(layers[i], scale, viewport, x, y);
        }
      }
    }
  }

  /** A window capture of layers that fit: the picture has the viewport's size, and each pixel shows
      the uppermost of all layers that lie over it, or black where none does. */
  method CaptureWindow(width: real, height: real, scale: real, layers: seq<Layer>)
    returns (result: Result<(Size, seq<Byte>)>)
    requires ValidLayers(layers) && AllFit(layers, scale)
    ensures result.Ok? <==> PixelSize(width, height, scale).Ok?
    ensures result.Ok? ==>
      var (size, pixels) := result.value;
      && PixelSize(width, height, scale) == Ok(size) && IsImage(pixels, size)
      && forall x, y | InGrid(size, x, y) :: ShowsUppermost(layers, scale, size, x, y, At(pixels, size, x, y))
  {
    result := ComposeWindowPixels(width, height, scale, layers);
    if result.Ok? {
      var (size, pixels) := result.value;
      forall x, y | InGrid(size, x, y) ensures ShowsUppermost(layers, scale, size, x, y, At(pixels, size, x, y)) {
        PictureIsGeometric(layers, scale, size, x, y, At(pixels, size, x, y));
      }
    }
  }

  // ----- what the placement means

  /** A layer takes `m` pixels of the viewport along an axis exactly when `m` of them, and not one more,
      fit what its own pixels cover. */
  lemma ExtentExactly(n: int, scale: real, own: real, m: int)
    requires own > 0.0
    ensures Extent(n, scale, own) == m <==> (m as real) * own <= (n as real) * scale < ((m + 1) as real) * own
  {
    var covered := (n as real) * scale;
    var q := covered / own;
    assert q * own == covered;
    var low, high := m as real, (m + 1) as real;
    OwnOrder(low, q, own);
    OwnOrder(q, high, own);
    assert low <= q < high <==> low * own <= covered < high * own;
    assert Extent(n, scale, own) == q.Floor;
    FloorExactly(q, m);
  }

  lemma FloorExactly(q: real, m: int)
    ensures q.Floor == m <==> m as real <= q < (m + 1) as real
  {
  }

  lemma OwnOrder(a: real, b: real, own: real)
    requires own > 0.0
    ensures a <= b <==> a * own <= b * own
    ensures a < b <==> a * own < b * own
  {
    if a <= b {
      assert (b - a) * own >= 0.0;
    } else {
      assert (a - b) * own > 0.0;
    }
    if a < b {
      assert (b - a) * own > 0.0;
    }
  }

  /** A layer rendered at the viewport's own scale whose origin is a whole pixel: its pixels are in the
      picture one to one, its top left at its origin, and it lies over nothing else. */
  lemma AlignedLayerIsCopied(layer: Layer, scale: real, viewport: Size, ox: int, oy: int, x: int, y: int)
    requires layer.ownScale == scale && scale >= 1.0 && IsImage(layer.pixels, layer.size)
    requires layer.originX * scale == ox as real && layer.originY * scale == oy as real
    ensures LiesOver(layer, scale, viewport, x, y) <==>
      InGrid(viewport, x, y) && InGrid(layer.size, x - ox, y - oy)
    ensures LiesOver(layer, scale, viewport, x, y) ==>
      PixelOver(layer, scale, viewport, x, y) == At(layer.pixels, layer.size, x - ox, y - oy)
  {
    RoundOfInt(ox);
    RoundOfInt(oy);
    OwnExtent(layer.size.w, scale);
    OwnExtent(layer.size.h, scale);
    assert ExactPlace(layer, scale) == Rect(ox, oy, layer.size.w, layer.size.h);
  }

  lemma OwnExtent(n: int, scale: real)
    requires scale > 0.0
    ensures Extent(n, scale, scale) == n
  {
    ExtentExactly(n, scale, scale, n);
    OwnOrder(n as real, (n + 1) as real, scale);
  }
}

/** `orient_pixels` (src/embedder/capture/mod.rs:1288-1332). */
module Orientation {
  import opened Pixels
  import opened Geometry

  /** The eight values of `wl_output.transform`. */
  datatype Transform = Normal | Rotated90 | Rotated180 | Rotated270
    | Flipped | Flipped90 | Flipped180 | Flipped270

  function TransformSize(t: Transform, size: Size): Size {
    match t
    case Normal | Rotated180 | Flipped | Flipped180 => size
    case _ => Size(size.h, size.w)
  }

  /** Where the transform puts the one-pixel rectangle at (x, y) of an image of this size. */
  function Moved(t: Transform, size: Size, x: int, y: int): (int, int) {
    match t
    case Normal => (x, y)
    case Rotated90 => (size.h - y - 1, x)
    case Rotated180 => (size.w - x - 1, size.h - y - 1)
    case Rotated270 => (y, size.w - x - 1)
    case Flipped => (size.w - x - 1, y)
    case Flipped90 => (y, x)
    case Flipped180 => (x, size.h - y - 1)
    case Flipped270 => (size.h - y - 1, size.w - x - 1)
  }

  function Inverse(t: Transform): Transform {
    match t
    case Rotated90 => Rotated270
    case Rotated270 => Rotated90
    case _ => t
  }

  /** The inverse transform undoes the size and the place of every pixel, in both directions: the
      pixel map is a bijection between the two grids. */
  lemma MovedIsABijection(t: Transform, size: Size, x: int, y: int)
    ensures TransformSize(Inverse(t), TransformSize(t, size)) == size
    ensures InGrid(size, x, y) <==> InGrid(TransformSize(t, size), Moved(t, size, x, y).0, Moved(t, size, x, y).1)
    ensures var (mx, my) := Moved(t, size, x, y); Moved(Inverse(t), TransformSize(t, size), mx, my) == (x, y)
    ensures var (mx, my) := Moved(Inverse(t), TransformSize(t, size), x, y); Moved(t, size, mx, my) == (x, y)
  {
  }

  /** `turned` shows every pixel of `source` where the transform puts it. */
  ghost predicate Oriented(source: seq<Byte>, size: Size, t: Transform, turned: seq<Byte>) {
    && IsImage(source, size) && IsImage(turned, TransformSize(t, size))
    && forall x, y | InGrid(size, x, y) ::
         && InGrid(TransformSize(t, size), Moved(t, size, x, y).0, Moved(t, size, x, y).1)
         && At(turned, TransformSize(t, size), Moved(t, size, x, y).0, Moved(t, size, x, y).1) == At(source, size, x, y)
  }

  /** Nothing is lost and nothing is made up: every pixel of the target is one of the source. */
  lemma {:induction false} OrientedCovers(source: seq<Byte>, size: Size, t: Transform, turned: seq<Byte>, x: int, y: int)
    requires IsImage(source, size) && IsImage(turned, TransformSize(t, size)) && InGrid(TransformSize(t, size), x, y)
    ensures var (sx, sy) := Moved(Inverse(t), TransformSize(t, size), x, y);
      InGrid(size, sx, sy)
      && (Oriented(source, size, t, turned) ==> At(turned, TransformSize(t, size), x, y) == At(source, size, sx, sy))
  {
    var (sx, sy) := Moved(Inverse(t), TransformSize(t, size), x, y);
    MovedIsABijection(t, size, sx, sy);
    MovedIsABijection(t, size, x, y);
    MovedIsABijection(Inverse(t), TransformSize(t, size), x, y);
  }

  /** Orienting by a transform and then by its inverse restores the buffer, byte for byte. */
  lemma OrientThenInvert(source: seq<Byte>, size: Size, t: Transform, turned: seq<Byte>, back: seq<Byte>)
    requires Oriented(source, size, t, turned)
    requires Oriented(turned, TransformSize(t, size), Inverse(t), back)
    ensures back == source
  {
    MovedIsABijection(t, size, 0, 0);
    forall x, y | InGrid(size, x, y) ensures At(back, size, x, y) == At(source, size, x, y) {
      MovedIsABijection(t, size, x, y);
      var (mx, my) := Moved(t, size, x, y);
      assert At(turned, TransformSize(t, size), mx, my) == At(source, size, x, y);
    }
    SamePixelsSameBytes(back, source, size);
  }

  /** The early return for `Normal` agrees with the pixel loop. */
  lemma NormalIsIdentity(source: seq<Byte>, size: Size, turned: seq<Byte>)
    requires Oriented(source, size, Normal, turned)
    ensures turned == source
  {
    forall x, y | InGrid(size, x, y) ensures At(turned, size, x, y) == At(source, size, x, y) {
      assert Moved(Normal, size, x, y) == (x, y);
    }
    SamePixelsSameBytes(turned, source, size);
  }

  method OrientPixels(readback: seq<Byte>, size: Size, t: Transform) returns (result: Result<(Size, seq<Byte>)>)
    ensures result.Ok? <==> PixelLen(size) == Ok(|readback|)
    ensures result.Ok? ==> result.value.0 == TransformSize(t, size) && Oriented(readback, size, t, result.value.1)
  {
    var expected := PixelLen(size);
    if expected.Err? || |readback| != expected.value {
      return Err;
    }
    if t == Normal {
      return Ok((size, readback));
    }
    var turnedSize := TransformSize(t, size);
    var pixels := new Byte[expected.value](_ => 0);
    assert IsImage(pixels[..], turnedSize);
    var y := 0;
    while y < size.h
      invariant 0 <= y <= size.h
      invariant IsImage(pixels[..], turnedSize)
      invariant forall px, py | InGrid(size, px, py) && py < y :: Placed(pixels[..], readback, size, t, px, py)
    {
      OrientRow(readback, size, t, pixels, y);
      y := y + 1;
    }
    forall px, py | InGrid(size, px, py) ensures Placed(pixels[..], readback, size, t, px, py) {
    }
    result := Ok((turnedSize, pixels[..]));
  }

  method OrientRow(readback: seq<Byte>, size: Size, t: Transform, pixels: array<Byte>, y: int)
    requires IsImage(readback, size) && IsImage(pixels[..], TransformSize(t, size)) && 0 <= y < size.h
    modifies pixels
    ensures IsImage(pixels[..], TransformSize(t, size))
    ensures forall px | 0 <= px < size.w :: Placed(pixels[..], readback, size, t, px, y)
    ensures forall px, py | InGrid(size, px, py) && old(Placed(pixels[..], readback, size, t, px, py)) ::
      Placed(pixels[..], readback, size, t, px, py)
  {
    var x := 0;
    while x < size.w
      invariant 0 <= x <= size.w
      invariant IsImage(pixels[..], TransformSize(t, size))
      invariant forall px | 0 <= px < x :: Placed(pixels[..], readback, size, t, px, y)
      invariant forall px, py | InGrid(size, px, py) && old(Placed(pixels[..], readback, size, t, px, py)) ::
        Placed(pixels[..], readback, size, t, px, py)
    {
      OrientPixel(readback, size, t, pixels, x, y);
      x := x + 1;
    }
  }

  method OrientPixel(readback: seq<Byte>, size: Size, t: Transform, pixels: array<Byte>, x: int, y: int)
    requires IsImage(readback, size) && IsImage(pixels[..], TransformSize(t, size)) && InGrid(size, x, y)
    modifies pixels
    ensures IsImage(pixels[..], TransformSize(t, size))
    ensures Placed(pixels[..], readback, size, t, x, y)
    ensures forall px, py | InGrid(size, px, py) && old(Placed(pixels[..], readback, size, t, px, py)) ::
      Placed(pixels[..], readback, size, t, px, py)
  {
    MovedIsABijection(t, size, x, y);
    var (mx, my) := Moved(t, size, x, y);
    CopyPixel(pixels, TransformSize(t, size), mx, my, readback, size, x, y);
    forall px, py | InGrid(size, px, py) && old(Placed(pixels[..], readback, size, t, px, py))
      ensures Placed(pixels[..], readback, size, t, px, py)
    {
      MovedIsABijection(t, size, px, py);
    }
  }

  ghost predicate Placed(turned: seq<Byte>, source: seq<Byte>, size: Size, t: Transform, x: int, y: int)
    requires IsImage(source, size) && IsImage(turned, TransformSize(t, size)) && InGrid(size, x, y)
  {
    MovedIsABijection(t, size, x, y);
    At(turned, TransformSize(t, size), Moved(t, size, x, y).0, Moved(t, size, x, y).1) == At(source, size, x, y)
  }

  // ----- what the transforms are

  function MovedBy(first: Transform, second: Transform, size: Size, x: int, y: int): (int, int) {
    var (mx, my) := Moved(first, size, x, y);
    Moved(second, TransformSize(first, size), mx, my)
  }

  /** Half a turn is two quarter turns, three quarters are three, and each flipped transform is its
      rotation followed by the mirror. */
  lemma TransformsCompose(size: Size, x: int, y: int)
    ensures MovedBy(Rotated90, Rotated90, size, x, y) == Moved(Rotated180, size, x, y)
    ensures MovedBy(Rotated180, Rotated90, size, x, y) == Moved(Rotated270, size, x, y)
    ensures MovedBy(Rotated270, Rotated90, size, x, y) == Moved(Normal, size, x, y) == (x, y)
    ensures MovedBy(Rotated90, Flipped, size, x, y) == Moved(Flipped90, size, x, y)
    ensures MovedBy(Rotated180, Flipped, size, x, y) == Moved(Flipped180, size, x, y)
    ensures MovedBy(Rotated270, Flipped, size, x, y) == Moved(Flipped270, size, x, y)
    ensures MovedBy(Flipped, Flipped, size, x, y) == (x, y)
  {
  }

  /** A quarter turn is clockwise: the left column, from the bottom up, becomes the top row, and the
      top row the right column. The mirror swaps left and right. */
  lemma {:induction false} QuarterTurnIsClockwise(source: seq<Byte>, size: Size, turned: seq<Byte>, mirrored: seq<Byte>)
    requires Oriented(source, size, Rotated90, turned) && Oriented(source, size, Flipped, mirrored)
    ensures forall i | 0 <= i < size.h && size.w > 0 ::
      At(turned, Size(size.h, size.w), i, 0) == At(source, size, 0, size.h - 1 - i)
    ensures forall i | 0 <= i < size.w && size.h > 0 ::
      At(turned, Size(size.h, size.w), size.h - 1, i) == At(source, size, i, 0)
    ensures forall x, y | InGrid(size, x, y) :: At(mirrored, size, size.w - 1 - x, y) == At(source, size, x, y)
  {
    forall i | 0 <= i < size.h && size.w > 0
      ensures At(turned, Size(size.h, size.w), i, 0) == At(source, size, 0, size.h - 1 - i)
    {
      assert Moved(Rotated90, size, 0, size.h - 1 - i) == (i, 0);
    }
    forall i | 0 <= i < size.w && size.h > 0
      ensures At(turned, Size(size.h, size.w), size.h - 1, i) == At(source, size, i, 0)
    {
      assert Moved(Rotated90, size, i, 0) == (size.h - 1, i);
    }
    forall x, y | InGrid(size, x, y) ensures At(mirrored, size, size.w - 1 - x, y) == At(source, size, x, y) {
      assert Moved(Flipped, size, x, y) == (size.w - x - 1, y);
    }
  }
}
