/** Logical geometry and its rounding to pixels (src/embedder/capture/mod.rs:1083-1168). Reals
    stand for the source's floating point. */
module Geometry {
  import opened Options
  import opened Pixels

  datatype Area = Area(x: real, y: real, w: real, h: real)

  datatype Result<+T> = Ok(value: T) | Err

  const PIXEL_EPSILON: real := 0.000001
  const I32_MAX := 0x7fff_ffff
  const I32_MIN := -0x8000_0000

  function Ceil(x: real): int {
    -((-x).Floor)
  }

  /** Rounds half away from zero. */
  function Round(x: real): int {
    if x >= 0.0 then (x + 0.5).Floor else -((0.5 - x).Floor)
  }

  lemma CeilBounds(x: real)
    ensures (Ceil(x) as real) - 1.0 < x <= Ceil(x) as real
  {
  }

  /** No whole number is nearer, and a half goes away from zero. */
  lemma RoundIsNearest(x: real)
    ensures -0.5 <= x - (Round(x) as real) <= 0.5
    ensures x >= 0.0 ==> x - (Round(x) as real) < 0.5
    ensures x <= 0.0 ==> x - (Round(x) as real) > -0.5
  {
  }

  lemma RoundOfInt(n: int)
    ensures Round(n as real) == n
  {
  }

  lemma RoundIsMonotone(x: real, y: real)
    requires x <= y
    ensures Round(x) <= Round(y)
  {
  }

  /** Rounding never passes the epsilon-tolerant ceiling: why a region inside the area cannot
      stick out of the picture. */
  lemma RoundWithinCeil(x: real, eps: real)
    requires 0.0 <= x && 0.0 < eps < 0.5
    ensures Round(x) <= Ceil(x - eps)
  {
    var n := Ceil(x - eps);
    CeilBounds(x - eps);
    assert x + 0.5 < (n as real) + 1.0;
  }

  /** The pixels a length covers: a partial pixel counts, noise below the epsilon does not. */
  function PixelCount(length: real, scale: real): int {
    Ceil(length * scale - PIXEL_EPSILON)
  }

  /** A length covers `n` pixels exactly when all but noise of it fits in `n` of them and not in fewer. */
  lemma PixelCountExactly(length: real, scale: real, n: int)
    ensures PixelCount(length, scale) == n <==> (n as real) - 1.0 < length * scale - PIXEL_EPSILON <= n as real
  {
    CeilBounds(length * scale - PIXEL_EPSILON);
  }

  function PixelSize(w: real, h: real, scale: real): Result<Size> {
    if scale <= 0.0 then Err
    else
      var width, height := PixelCount(w, scale), PixelCount(h, scale);
      if width <= 0 || height <= 0 || width > I32_MAX || height > I32_MAX then Err else Ok(Size(width, height))
  }

  /** A 64-bit `usize`. */
  function PixelLen(size: Size): Result<int> {
    if size.w < 0 || size.h < 0 || size.w * size.h * 4 >= 0x1_0000_0000_0000_0000 then Err
    else Ok(size.w * size.h * 4)
  }

  /** A picture `PixelSize` accepts always has a representable length. */
  lemma PixelLenNeverOverflows(size: Size)
    requires 0 <= size.w <= I32_MAX && 0 <= size.h <= I32_MAX
    ensures PixelLen(size) == Ok(size.w * size.h * 4)
  {
    assert size.w * size.h <= I32_MAX * I32_MAX by {
      assert size.w * size.h <= I32_MAX * size.h;
    }
  }

  /** The pixel edge nearest to a logical distance. */
  function Edge(distance: real, scale: real): int {
    Round(distance * scale)
  }

  function ScaledBounds(r: Area, originX: real, originY: real, scaleX: real, scaleY: real): Result<Rect> {
    BoundsOf(Edge(r.x - originX, scaleX), Edge(r.y - originY, scaleY),
             Edge(r.x + r.w - originX, scaleX), Edge(r.y + r.h - originY, scaleY))
  }

  function BoundsOf(left: int, top: int, right: int, bottom: int): Result<Rect> {
    if left < I32_MIN || top < I32_MIN || right > I32_MAX || bottom > I32_MAX then Err
    else Ok(Rect(left, top, right - left, bottom - top))
  }

  function Min(a: real, b: real): real {
    if a <= b then a else b
  }

  function Max(a: real, b: real): real {
    if a >= b then a else b
  }

  /** The common part of two rectangles, when they overlap in more than an edge. */
  function Intersection(a: Area, b: Area): Option<Area> {
    if a.x < b.x + b.w && b.x < a.x + a.w && a.y < b.y + b.h && b.y < a.y + a.h then
      var x, y := Max(a.x, b.x), Max(a.y, b.y);
      Some(Area(x, y, Min(a.x + a.w, b.x + b.w) - x, Min(a.y + a.h, b.y + b.h) - y))
    else None
  }
}

/** `compose_desktop_area` (src/embedder/capture/mod.rs:936-977). */
module DesktopCapture {
  import opened Options
  import opened Pixels
  import opened Blit
  import opened Geometry

  datatype CapturedOutput = CapturedOutput(geometry: Area, size: Size, pixels: seq<Byte>)

  /** What every snapshot satisfies: a positive logical size, a pixel size the backend can have,
      and one pixel of four bytes for each of its cells. */
  predicate ValidOutput(o: CapturedOutput) {
    && o.geometry.w > 0.0 && o.geometry.h > 0.0
    && 0 <= o.size.w <= Geometry.I32_MAX && 0 <= o.size.h <= Geometry.I32_MAX
    && IsImage(o.pixels, o.size)
  }

  predicate ValidOutputs(outputs: seq<CapturedOutput>) {
    forall i | 0 <= i < |outputs| :: ValidOutput(outputs[i])
  }

  /** Where an intersection lands in the picture. One that ends with the area ends with the
      picture, so a fractional last pixel is not left uncovered. */
  function Destination(area: Area, scale: real, size: Size, common: Area): Result<Rect> {
    var bounds := ScaledBounds(common, area.x, area.y, scale, scale);
    if bounds.Err? then Err
    else
      var r := bounds.value;
      var wide := if common.x + common.w == area.x + area.w then r.(w := size.w - r.x) else r;
      Ok(if common.y + common.h == area.y + area.h then wide.(h := size.h - wide.y) else wide)
  }

  /** The part of an output's image that an intersection shows. */
  function Source(o: CapturedOutput, common: Area): Result<Rect>
    requires ValidOutput(o)
  {
    ScaledBounds(common, o.geometry.x, o.geometry.y,
                 (o.size.w as real) / o.geometry.w, (o.size.h as real) / o.geometry.h)
  }

  /** A copy from one output into the picture, if it contributes any pixel. */
  datatype Part = Part(into: Rect, from: Rect)

  function PartOf(area: Area, scale: real, size: Size, o: CapturedOutput): Option<Part>
    requires ValidOutput(o)
  {
    var common := Intersection(area, o.geometry);
    if common.None? then None
    else
      var into, from := Destination(area, scale, size, common.value), Source(o, common.value);
      if into.Err? || from.Err? || Empty(into.value) || Empty(from.value) then None
      else Some(Part(into.value, from.value))
  }

  // ----- in exact arithmetic no output is ever out of bounds

  lemma ScaleIsMonotone(x: real, y: real, k: real)
    requires x <= y && 0.0 <= k
    ensures x * k <= y * k
  {
  }

  /** One axis of the destination: a part [low, high) of an area of length `length`. */
  lemma DestinationAxis(low: real, high: real, length: real, scale: real, n: int)
    requires 0.0 <= low <= high <= length && scale > 0.0
    requires n == PixelCount(length, scale)
    ensures 0 <= Edge(low, scale) <= Edge(high, scale) <= n
  {
    var a, b, c := low * scale, high * scale, length * scale;
    assert 0.0 <= a <= b <= c by {
      ScaleIsMonotone(0.0, low, scale);
      ScaleIsMonotone(low, high, scale);
      ScaleIsMonotone(high, length, scale);
    }
    RoundIsMonotone(0.0, a);
    RoundIsMonotone(a, b);
    RoundIsMonotone(b, c);
    RoundWithinCeil(c, PIXEL_EPSILON);
  }

  lemma Ratio(n: int, length: real)
    requires 0 <= n && 0.0 < length
    ensures ((n as real) / length) * length == n as real
    ensures 0.0 <= (n as real) / length
  {
  }

  /** One axis of the source: a part [low, high) of an output of length `length` and `n` pixels. */
  lemma SourceAxis(low: real, high: real, length: real, n: int)
    requires 0.0 <= low <= high <= length && 0.0 < length && 0 <= n
    ensures var k := (n as real) / length; 0 <= Edge(low, k) <= Edge(high, k) <= n
  {
    Ratio(n, length);
    ScaledAxis(low, high, length, (n as real) / length, n);
  }

  lemma ScaledAxis(low: real, high: real, length: real, k: real, n: int)
    requires 0.0 <= low <= high <= length && 0.0 <= k && k * length == n as real
    ensures 0 <= Edge(low, k) <= Edge(high, k) <= n
  {
    var a, b, c := low * k, high * k, length * k;
    assert 0.0 <= a <= b <= c == n as real by {
      ScaleIsMonotone(0.0, low, k);
      ScaleIsMonotone(low, high, k);
      ScaleIsMonotone(high, length, k);
    }
    RoundIsMonotone(0.0, a);
    RoundIsMonotone(a, b);
    RoundIsMonotone(b, c);
    RoundOfInt(n);
  }

  lemma CommonIsInside(a: Area, b: Area)
    requires Intersection(a, b).Some?
    requires 0.0 <= a.w && 0.0 <= a.h && 0.0 <= b.w && 0.0 <= b.h
    ensures var c := Intersection(a, b).value;
      && a.x <= c.x <= c.x + c.w <= a.x + a.w && a.y <= c.y <= c.y + c.h <= a.y + a.h
      && b.x <= c.x && c.x + c.w <= b.x + b.w && b.y <= c.y && c.y + c.h <= b.y + b.h
  {
  }

  lemma SourceIsInside(o: CapturedOutput, c: Area)
    requires ValidOutput(o)
    requires o.geometry.x <= c.x <= c.x + c.w <= o.geometry.x + o.geometry.w
    requires o.geometry.y <= c.y <= c.y + c.h <= o.geometry.y + o.geometry.h
    ensures Source(o, c).Ok? && Inside(Source(o, c).value, o.size)
  {
    var g := o.geometry;
    SourceAxis(c.x - g.x, c.x + c.w - g.x, g.w, o.size.w);
    SourceAxis(c.y - g.y, c.y + c.h - g.y, g.h, o.size.h);
    SourceIsBounds(o, c, (o.size.w as real) / g.w, (o.size.h as real) / g.h);
  }

  lemma SourceIsBounds(o: CapturedOutput, c: Area, kx: real, ky: real)
    requires ValidOutput(o) && kx == (o.size.w as real) / o.geometry.w && ky == (o.size.h as real) / o.geometry.h
    ensures Source(o, c) == BoundsOf(Edge(c.x - o.geometry.x, kx), Edge(c.y - o.geometry.y, ky),
                                     Edge(c.x + c.w - o.geometry.x, kx), Edge(c.y + c.h - o.geometry.y, ky))
  {
  }

  lemma DestinationIsInside(area: Area, scale: real, size: Size, c: Area)
    requires scale > 0.0 && size == Size(PixelCount(area.w, scale), PixelCount(area.h, scale))
    requires size.w <= Geometry.I32_MAX && size.h <= Geometry.I32_MAX
    requires area.x <= c.x <= c.x + c.w <= area.x + area.w
    requires area.y <= c.y <= c.y + c.h <= area.y + area.h
    ensures Destination(area, scale, size, c).Ok? && Inside(Destination(area, scale, size, c).value, size)
  {
    var left, right := Edge(c.x - area.x, scale), Edge(c.x + c.w - area.x, scale);
    var top, bottom := Edge(c.y - area.y, scale), Edge(c.y + c.h - area.y, scale);
    assert 0 <= left <= right <= size.w by {
      DestinationAxis(c.x - area.x, c.x + c.w - area.x, area.w, scale, size.w);
    }
    assert 0 <= top <= bottom <= size.h by {
      DestinationAxis(c.y - area.y, c.y + c.h - area.y, area.h, scale, size.h);
    }
    assert ScaledBounds(c, area.x, area.y, scale, scale) == BoundsOf(left, top, right, bottom);
  }

  lemma {:induction false} PartsAreInside(area: Area, scale: real, size: Size, o: CapturedOutput)
    requires ValidOutput(o) && PixelSize(area.w, area.h, scale) == Ok(size)
    requires Intersection(area, o.geometry).Some?
    ensures var common := Intersection(area, o.geometry).value;
      var into, from := Destination(area, scale, size, common), Source(o, common);
      into.Ok? && from.Ok? && Inside(into.value, size) && Inside(from.value, o.size)
  {
    PositiveArea(area.w, scale, size.w);
    PositiveArea(area.h, scale, size.h);
    var c := Intersection(area, o.geometry).value;
    CommonIsInside(area, o.geometry);
    DestinationIsInside(area, scale, size, c);
    SourceIsInside(o, c);
  }

  /** An area with a pixel in it is not empty. */
  lemma PositiveArea(length: real, scale: real, n: int)
    requires scale > 0.0 && n == PixelCount(length, scale) && n > 0
    ensures length > 0.0
  {
    CeilBounds(length * scale - PIXEL_EPSILON);
    assert length * scale > 0.0;
    if length <= 0.0 {
      ScaleIsMonotone(length, 0.0, scale);
    }
  }

  lemma PartIsInside(area: Area, scale: real, size: Size, o: CapturedOutput)
    requires ValidOutput(o) && PixelSize(area.w, area.h, scale) == Ok(size)
    ensures var part := PartOf(area, scale, size, o);
      part.Some? ==> && Inside(part.value.into, size) && Inside(part.value.from, o.size)
                     && !Empty(part.value.into) && !Empty(part.value.from)
  {
    if Intersection(area, o.geometry).Some? {
      PartsAreInside(area, scale, size, o);
    }
  }

  // ----- the picture, pixel by pixel

  /** Whether the last copied output that covers (x, y) is output `i`. */
  predicate Shows(area: Area, scale: real, size: Size, outputs: seq<CapturedOutput>, i: nat, x: int, y: int)
    requires ValidOutputs(outputs) && i < |outputs|
  {
    var part := PartOf(area, scale, size, outputs[i]);
    part.Some? && Within(part.value.into, x, y)
  }

  function DesktopPixel(area: Area, scale: real, size: Size, outputs: seq<CapturedOutput>, n: nat, x: int, y: int): Pixel
    requires ValidOutputs(outputs) && n <= |outputs| && PixelSize(area.w, area.h, scale) == Ok(size)
  {
    if n == 0 then BLACK
    else if Shows(area, scale, size, outputs, n - 1, x, y) then
      var o := outputs[n - 1];
      var part := PartOf(area, scale, size, o).value;
      PartIsInside(area, scale, size, o);
      Scaled(o.pixels, o.size, part.from, part.into, x, y)
    else DesktopPixel(area, scale, size, outputs, n - 1, x, y)
  }

  method ComposeDesktopArea(area: Area, scale: real, outputs: seq<CapturedOutput>)
    returns (result: Result<(Size, seq<Byte>)>)
    requires ValidOutputs(outputs)
    ensures result.Ok? <==> PixelSize(area.w, area.h, scale).Ok?
    ensures result.Ok? ==>
      var (size, pixels) := result.value;
      && PixelSize(area.w, area.h, scale) == Ok(size)
      && IsImage(pixels, size)
      && forall x, y | InGrid(size, x, y) ::
           At(pixels, size, x, y) == DesktopPixel(area, scale, size, outputs, |outputs|, x, y)
  {
    var sized := PixelSize(area.w, area.h, scale);
    if sized.Err? {
      return Err;
    }
    var size := sized.value;
    PixelLenNeverOverflows(size);
    if PixelLen(size).Err? {
      return Err;
    }
    var pixels := BlackImage(size);
    var i := 0;
    while i < |outputs|
      invariant 0 <= i <= |outputs|
      invariant IsImage(pixels[..], size)
      invariant forall x, y | InGrid(size, x, y) ::
        At(pixels[..], size, x, y) == DesktopPixel(area, scale, size, outputs, i, x, y)
    {
      var o := outputs[i];
      var common := Intersection(area, o.geometry);
      if common.Some? {
        PartsAreInside(area, scale, size, o);
        var into, from := Destination(area, scale, size, common.value), Source(o, common.value);
        if into.Err? || from.Err? {
          return Err;
        }
        var ok := BlitScaled(pixels, size, o.pixels, o.size, into.value, from.value);
        if !ok {
          return Err;
        }
      }
      i := i + 1;
    }
    result := Ok((size, pixels[..]));
  }

  // ----- one output: exact copies, no rim, and the one way to lose the picture

  lemma ExactCount(n: int, length: real, scale: real)
    requires length * scale == n as real
    ensures PixelCount(length, scale) == n
  {
  }

  lemma WholeSource(o: CapturedOutput)
    requires ValidOutput(o)
    ensures Source(o, o.geometry) == Ok(Rect(0, 0, o.size.w, o.size.h))
  {
    var g := o.geometry;
    var kx, ky := (o.size.w as real) / g.w, (o.size.h as real) / g.h;
    assert Edge(g.x + g.w - g.x, kx) == o.size.w by {
      Ratio(o.size.w, g.w);
      RoundOfInt(o.size.w);
    }
    assert Edge(g.y + g.h - g.y, ky) == o.size.h by {
      Ratio(o.size.h, g.h);
      RoundOfInt(o.size.h);
    }
    assert Edge(g.x - g.x, kx) == 0 && Edge(g.y - g.y, ky) == 0;
  }

  lemma WholeDestination(area: Area, scale: real, size: Size)
    requires scale > 0.0 && area.w > 0.0 && area.h > 0.0
    requires size == Size(PixelCount(area.w, scale), PixelCount(area.h, scale))
    requires size.w <= Geometry.I32_MAX && size.h <= Geometry.I32_MAX
    ensures Destination(area, scale, size, area) == Ok(Rect(0, 0, size.w, size.h))
  {
    DestinationIsInside(area, scale, size, area);
    assert Edge(area.x - area.x, scale) == 0 && Edge(area.y - area.y, scale) == 0;
  }

  lemma NearestOfSame(d: int, n: int)
    requires 0 <= d < n
    ensures Nearest(d, n, n) == d
  {
    var p := d * n;
    var q := p / n;
    assert p == q * n + p % n && 0 <= p % n < n;
    if q < d {
      RowsBefore(n, q, d);
    } else if d < q {
      RowsBefore(n, d, q);
    }
  }

  /** The selection lies between two neighbouring pixel edges of the output, along one axis: both its
      ends round to the same edge. */
  predicate SameEdge(origin: real, whole: real, at: real, length: real, n: int)
    requires whole > 0.0
  {
    Edge(at - origin, (n as real) / whole) == Edge(at + length - origin, (n as real) / whole)
  }

  predicate MissesEveryEdge(area: Area, o: CapturedOutput)
    requires ValidOutput(o)
  {
    var g := o.geometry;
    SameEdge(g.x, g.w, area.x, area.w, o.size.w) || SameEdge(g.y, g.h, area.y, area.h, o.size.h)
  }

  /** No output pixel is selected exactly when along some axis both ends round to the same edge. */
  lemma EmptySourceExactly(area: Area, o: CapturedOutput)
    requires ValidOutput(o)
    requires o.geometry.x <= area.x <= area.x + area.w <= o.geometry.x + o.geometry.w
    requires o.geometry.y <= area.y <= area.y + area.h <= o.geometry.y + o.geometry.h
    ensures Source(o, area).Ok? && Inside(Source(o, area).value, o.size)
    ensures Empty(Source(o, area).value) <==> MissesEveryEdge(area, o)
  {
    SourceIsInside(o, area);
    var g := o.geometry;
    SourceAxis(area.x - g.x, area.x + area.w - g.x, g.w, o.size.w);
    SourceAxis(area.y - g.y, area.y + area.h - g.y, g.h, o.size.h);
    SourceIsBounds(o, area, (o.size.w as real) / g.w, (o.size.h as real) / g.h);
  }

  /** The one copy an area inside one output is made of. */
  lemma OnePart(area: Area, scale: real, size: Size, o: CapturedOutput)
    requires ValidOutput(o) && PixelSize(area.w, area.h, scale) == Ok(size)
    requires o.geometry.x <= area.x && area.x + area.w <= o.geometry.x + o.geometry.w
    requires o.geometry.y <= area.y && area.y + area.h <= o.geometry.y + o.geometry.h
    ensures Source(o, area).Ok? && Inside(Source(o, area).value, o.size)
    ensures Empty(Source(o, area).value) <==> MissesEveryEdge(area, o)
    ensures PartOf(area, scale, size, o) ==
      if MissesEveryEdge(area, o) then None else Some(Part(Rect(0, 0, size.w, size.h), Source(o, area).value))
  {
    PositiveArea(area.w, scale, size.w);
    PositiveArea(area.h, scale, size.h);
    assert Intersection(area, o.geometry) == Some(area);
    WholeDestination(area, scale, size);
    EmptySourceExactly(area, o);
  }

  /** An area inside one output: every pixel of the picture shows its nearest source pixel, with no
      rim of background, unless along some axis both ends of the area round to the same pixel edge
      of the output; then the picture is all black. */
  lemma {:induction false} AreaInsideOneOutput(area: Area, scale: real, size: Size, o: CapturedOutput, x: int, y: int)
    requires ValidOutput(o) && PixelSize(area.w, area.h, scale) == Ok(size) && InGrid(size, x, y)
    requires o.geometry.x <= area.x && area.x + area.w <= o.geometry.x + o.geometry.w
    requires o.geometry.y <= area.y && area.y + area.h <= o.geometry.y + o.geometry.h
    ensures Source(o, area).Ok? && Inside(Source(o, area).value, o.size)
    ensures Empty(Source(o, area).value) <==> MissesEveryEdge(area, o)
    ensures DesktopPixel(area, scale, size, [o], 1, x, y) ==
      var from := Source(o, area).value;
      if MissesEveryEdge(area, o) then BLACK
      else At(o.pixels, o.size, from.x + Nearest(x, size.w, from.w), from.y + Nearest(y, size.h, from.h))
  {
    OnePart(area, scale, size, o);
    assert DesktopPixel(area, scale, size, [o], 0, x, y) == BLACK;
  }

  /** A selection at least one output pixel long in both directions never loses the picture. */
  lemma {:induction false} WideSelectionIsShown(area: Area, o: CapturedOutput)
    requires ValidOutput(o)
    requires o.geometry.x <= area.x <= area.x + area.w <= o.geometry.x + o.geometry.w
    requires o.geometry.y <= area.y <= area.y + area.h <= o.geometry.y + o.geometry.h
    requires area.w * (o.size.w as real) >= o.geometry.w && area.h * (o.size.h as real) >= o.geometry.h
    ensures Source(o, area).Ok? && !Empty(Source(o, area).value)
  {
    var g := o.geometry;
    SpanIsPositive(g.x, g.w, area.x, area.w, o.size.w);
    SpanIsPositive(g.y, g.h, area.y, area.h, o.size.h);
    EmptySourceExactly(area, o);
  }

  lemma SpanIsPositive(origin: real, whole: real, at: real, length: real, n: int)
    requires whole > 0.0 && length * (n as real) >= whole
    ensures !SameEdge(origin, whole, at, length, n)
  {
    var k := (n as real) / whole;
    assert length * k >= 1.0 by {
      assert length * k == (length * (n as real)) / whole;
    }
    AxisApart(origin, at, length, k);
  }

  lemma AxisApart(origin: real, at: real, length: real, k: real)
    requires length * k >= 1.0
    ensures Edge(at - origin, k) < Edge(at + length - origin, k)
  {
    EdgesApart(at - origin, length, k);
    assert at + length - origin == at - origin + length;
  }

  lemma EdgesApart(low: real, length: real, k: real)
    requires length * k >= 1.0
    ensures Edge(low, k) < Edge(low + length, k)
  {
    var a := low * k;
    assert (low + length) * k == a + length * k;
    RoundIsMonotone(a + 1.0, a + length * k);
    assert Round(a) < Round(a + 1.0);
  }

  /** A selection within one output pixel can miss every pixel boundary: this one is captured as a
      single black pixel although the output is white. */
  lemma {:induction false} SubPixelSelectionIsBlack()
    ensures var white := Pixel(255, 255, 255, 255);
      var bytes: seq<Byte> := [255, 255, 255, 255, 255, 255, 255, 255];
      var o := CapturedOutput(Area(0.0, 0.0, 2.0, 1.0), Size(2, 1), bytes);
      var area := Area(0.6, 0.0, 0.7, 1.0);
      && ValidOutput(o) && At(bytes, o.size, 0, 0) == white && At(bytes, o.size, 1, 0) == white
      && PixelSize(area.w, area.h, 1.0) == Ok(Size(1, 1))
      && DesktopPixel(area, 1.0, Size(1, 1), [o], 1, 0, 0) == BLACK
  {
    var bytes: seq<Byte> := [255, 255, 255, 255, 255, 255, 255, 255];
    var o := CapturedOutput(Area(0.0, 0.0, 2.0, 1.0), Size(2, 1), bytes);
    var area := Area(0.6, 0.0, 0.7, 1.0);
    assert PixelSize(area.w, area.h, 1.0) == Ok(Size(1, 1)) by {
      assert PixelCount(0.7, 1.0) == 1 && PixelCount(1.0, 1.0) == 1;
    }
    MissesEveryBoundary(o, area);
    AreaInsideOneOutput(area, 1.0, Size(1, 1), o, 0, 0);
  }

  lemma MissesEveryBoundary(o: CapturedOutput, area: Area)
    requires ValidOutput(o) && o.geometry == Area(0.0, 0.0, 2.0, 1.0) && o.size == Size(2, 1)
    requires area == Area(0.6, 0.0, 0.7, 1.0)
    ensures Source(o, area).Ok? && Empty(Source(o, area).value)
  {
    assert Edge(0.6, 1.0) == 1 && Edge(1.3, 1.0) == 1;
    SourceIsInside(o, area);
  }

  /** A whole output at its exact scale: the picture has the output's pixel size and its pixels. */
  lemma {:induction false} WholeOutputIsCopied(scale: real, o: CapturedOutput)
    requires ValidOutput(o) && scale > 0.0
    requires o.geometry.w * scale == o.size.w as real && o.geometry.h * scale == o.size.h as real
    ensures PixelSize(o.geometry.w, o.geometry.h, scale) == Ok(o.size)
    ensures forall x, y | InGrid(o.size, x, y) ::
      DesktopPixel(o.geometry, scale, o.size, [o], 1, x, y) == At(o.pixels, o.size, x, y)
  {
    assert o.size.w > 0 && o.size.h > 0;
    ExactCount(o.size.w, o.geometry.w, scale);
    ExactCount(o.size.h, o.geometry.h, scale);
    forall x, y | InGrid(o.size, x, y)
      ensures DesktopPixel(o.geometry, scale, o.size, [o], 1, x, y) == At(o.pixels, o.size, x, y)
    {
      WholeSource(o);
      AreaInsideOneOutput(o.geometry, scale, o.size, o, x, y);
      NearestOfSame(x, o.size.w);
      NearestOfSame(y, o.size.h);
    }
  }

  /** `capture_full_output`, from a snapshot whose mode is its logical size times its scale: the
      capture is the snapshot, byte for byte. */
  method CaptureFullOutput(snapshot: CapturedOutput, scale: real) returns (result: Result<(Size, seq<Byte>)>)
    requires ValidOutput(snapshot) && scale > 0.0
    requires snapshot.geometry.w * scale == snapshot.size.w as real
    requires snapshot.geometry.h * scale == snapshot.size.h as real
    ensures result == Ok((snapshot.size, snapshot.pixels))
  {
    WholeOutputIsCopied(scale, snapshot);
    result := ComposeDesktopArea(snapshot.geometry, scale, [snapshot]);
    assert |[snapshot]| == 1;
    SamePixelsSameBytes(result.value.1, snapshot.pixels, snapshot.size);
  }

  // ----- recording frames

  function EvenSize(size: Size): (even: Size)
    ensures even.w % 2 == 0 && even.h % 2 == 0
    ensures size.w - 1 <= even.w <= size.w && size.h - 1 <= even.h <= size.h
  {
    Size(size.w - size.w % 2, size.h - size.h % 2)
  }

  /** Keeps the top-left corner, row by row. */
  method CropToSize(pixels: seq<Byte>, size: Size, target: Size) returns (cropped: seq<Byte>)
    requires IsImage(pixels, size) && 0 <= target.w <= size.w && 0 <= target.h <= size.h
    ensures IsImage(cropped, target)
    ensures forall x, y | InGrid(target, x, y) :: At(cropped, target, x, y) == At(pixels, size, x, y)
  {
    if size == target {
      return pixels;
    }
    var rows := new Byte[target.w * target.h * 4](_ => 0);
    var row := 0;
    while row < target.h
      invariant 0 <= row <= target.h
      invariant IsImage(rows[..], target)
      invariant forall x, y | InGrid(target, x, y) && y < row :: At(rows[..], target, x, y) == At(pixels, size, x, y)
    {
      var x := 0;
      while x < target.w
        invariant 0 <= x <= target.w
        invariant IsImage(rows[..], target)
        invariant forall px, y | InGrid(target, px, y) && (y < row || (y == row && px < x)) ::
          At(rows[..], target, px, y) == At(pixels, size, px, y)
      {
        CopyPixel(rows, target, x, row, pixels, size, x, row);
        x := x + 1;
      }
      row := row + 1;
    }
    cropped := rows[..];
  }

  /** One frame of an area recording. Frames have even sides, and a frame that does not have the
      size the recording was started with is refused. */
  method ComposeRecordingFrame(area: Area, snapshot: CapturedOutput, scale: real, expected: Option<Size>)
    returns (result: Result<(Size, seq<Byte>)>)
    requires ValidOutput(snapshot)
    ensures var sized := PixelSize(area.w, area.h, scale);
      result.Ok? <==> sized.Ok? && (expected.None? || expected.value == EvenSize(sized.value))
    ensures result.Ok? ==>
      var size, (even, pixels) := PixelSize(area.w, area.h, scale).value, result.value;
      && even == EvenSize(size) && IsImage(pixels, even)
      && forall x, y | InGrid(even, x, y) ::
           At(pixels, even, x, y) == DesktopPixel(area, scale, size, [snapshot], 1, x, y)
  {
    var composed := ComposeDesktopArea(area, scale, [snapshot]);
    if composed.Err? {
      return Err;
    }
    var (size, pixels) := composed.value;
    assert |[snapshot]| == 1;
    var even := EvenSize(size);
    var cropped := CropToSize(pixels, size, even);
    if expected.Some? && even != expected.value {
      return Err;
    }
    result := Ok((even, cropped));
  }
}
