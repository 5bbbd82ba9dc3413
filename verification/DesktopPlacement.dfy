/** Where each output lands in a desktop capture, from the rectangles alone
    (src/embedder/capture/mod.rs:936-977). */
module DesktopPlacement {
  import opened Options
  import opened Pixels
  import opened Blit
  import opened Geometry
  import opened DesktopCapture

  /** One axis of the picture: the pixels an output covers run from the rounded distance of its overlap
      with the area, measured from the area's origin, to the rounded end of it, or to the picture's own
      end when the output reaches the end of the area. */
  function Begin(areaAt: real, at: real, scale: real): int {
    Edge(Max(areaAt, at) - areaAt, scale)
  }

  function End(areaAt: real, areaLength: real, at: real, length: real, scale: real, n: int): int {
    if at + length >= areaAt + areaLength then n else Edge(at + length - areaAt, scale)
  }

  /** The same axis of the output's image, whose `n` pixels stand for its length. */
  function SourceBegin(areaAt: real, at: real, length: real, n: int): int
    requires length > 0.0
  {
    Edge(Max(areaAt, at) - at, (n as real) / length)
  }

  function SourceEnd(areaAt: real, areaLength: real, at: real, length: real, n: int): int
    requires length > 0.0
  {
    Edge(Min(areaAt + areaLength, at + length) - at, (n as real) / length)
  }

  predicate Overlap(a: Area, b: Area) {
    a.x < b.x + b.w && b.x < a.x + a.w && a.y < b.y + b.h && b.y < a.y + a.h
  }

  /** The output has a pixel of its own for the picture's pixel (x, y). */
  predicate Contributes(area: Area, scale: real, size: Size, o: CapturedOutput, x: int, y: int)
    requires ValidOutput(o)
  {
    var g := o.geometry;
    && Overlap(area, g)
    && Begin(area.x, g.x, scale) <= x < End(area.x, area.w, g.x, g.w, scale, size.w)
    && Begin(area.y, g.y, scale) <= y < End(area.y, area.h, g.y, g.h, scale, size.h)
    && SourceBegin(area.x, g.x, g.w, o.size.w) < SourceEnd(area.x, area.w, g.x, g.w, o.size.w)
    && SourceBegin(area.y, g.y, g.h, o.size.h) < SourceEnd(area.y, area.h, g.y, g.h, o.size.h)
  }

  lemma OverlapIsIntersection(a: Area, b: Area)
    ensures Overlap(a, b) <==> Intersection(a, b).Some?
    ensures Overlap(a, b) ==>
      var c := Intersection(a, b).value;
      && c.x == Max(a.x, b.x) && c.y == Max(a.y, b.y)
      && c.x + c.w == Min(a.x + a.w, b.x + b.w) && c.y + c.h == Min(a.y + a.h, b.y + b.h)
  {
  }

  lemma BeginIsEdge(c: real, areaAt: real, at: real, scale: real)
    requires c == Max(areaAt, at)
    ensures Edge(c - areaAt, scale) == Begin(areaAt, at, scale)
  {
  }

  /** The end of an overlap, as the source computes it from the overlap. */
  lemma EndIsEdge(c: real, w: real, areaAt: real, areaLength: real, at: real, length: real, scale: real, n: int)
    requires c + w == Min(areaAt + areaLength, at + length)
    ensures (if c + w == areaAt + areaLength then n else Edge(c + w - areaAt, scale))
      == End(areaAt, areaLength, at, length, scale, n)
  {
    if at + length < areaAt + areaLength {
      assert c + w - areaAt == at + length - areaAt;
    }
  }

  lemma SourceIsEdge(c: real, w: real, areaAt: real, areaLength: real, at: real, length: real, n: int)
    requires length > 0.0 && c == Max(areaAt, at) && c + w == Min(areaAt + areaLength, at + length)
    ensures Edge(c - at, (n as real) / length) == SourceBegin(areaAt, at, length, n)
    ensures Edge(c + w - at, (n as real) / length) == SourceEnd(areaAt, areaLength, at, length, n)
  {
    assert c + w - at == Min(areaAt + areaLength, at + length) - at;
  }

  lemma DestinationIsWidened(area: Area, scale: real, size: Size, c: Area, left: int, top: int, right: int, bottom: int)
    requires left == Edge(c.x - area.x, scale) && right == Edge(c.x + c.w - area.x, scale)
    requires top == Edge(c.y - area.y, scale) && bottom == Edge(c.y + c.h - area.y, scale)
    requires Destination(area, scale, size, c).Ok?
    ensures var r := Destination(area, scale, size, c).value;
      && r.x == left && r.y == top
      && r.x + r.w == (if c.x + c.w == area.x + area.w then size.w else right)
      && r.y + r.h == (if c.y + c.h == area.y + area.h then size.h else bottom)
  {
    assert ScaledBounds(c, area.x, area.y, scale, scale) == BoundsOf(left, top, right, bottom);
  }

  /** The rectangle an overlap takes in the picture. */
  lemma DestinationEnds(area: Area, scale: real, size: Size, o: CapturedOutput)
    requires ValidOutput(o) && PixelSize(area.w, area.h, scale) == Ok(size) && Overlap(area, o.geometry)
    ensures Intersection(area, o.geometry).Some?
    ensures Destination(area, scale, size, Intersection(area, o.geometry).value).Ok?
    ensures var r := Destination(area, scale, size, Intersection(area, o.geometry).value).value;
      && r.x == Begin(area.x, o.geometry.x, scale) && r.y == Begin(area.y, o.geometry.y, scale)
      && r.x + r.w == End(area.x, area.w, o.geometry.x, o.geometry.w, scale, size.w)
      && r.y + r.h == End(area.y, area.h, o.geometry.y, o.geometry.h, scale, size.h)
  {
    OverlapIsIntersection(area, o.geometry);
    PartsAreInside(area, scale, size, o);
    var c, g := Intersection(area, o.geometry).value, o.geometry;
    DestinationIsWidened(area, scale, size, c, Edge(c.x - area.x, scale), Edge(c.y - area.y, scale),
                         Edge(c.x + c.w - area.x, scale), Edge(c.y + c.h - area.y, scale));
    BeginIsEdge(c.x, area.x, g.x, scale);
    BeginIsEdge(c.y, area.y, g.y, scale);
    EndIsEdge(c.x, c.w, area.x, area.w, g.x, g.w, scale, size.w);
    EndIsEdge(c.y, c.h, area.y, area.h, g.y, g.h, scale, size.h);
  }

  lemma BoundsAre(left: int, top: int, right: int, bottom: int)
    requires BoundsOf(left, top, right, bottom).Ok?
    ensures var r := BoundsOf(left, top, right, bottom).value;
      r.x == left && r.y == top && r.x + r.w == right && r.y + r.h == bottom
  {
  }

  /** The rectangle an overlap takes in the output's image. */
  lemma SourceEnds(area: Area, scale: real, size: Size, o: CapturedOutput)
    requires ValidOutput(o) && PixelSize(area.w, area.h, scale) == Ok(size) && Overlap(area, o.geometry)
    ensures Intersection(area, o.geometry).Some?
    ensures Source(o, Intersection(area, o.geometry).value).Ok?
    ensures var r, g := Source(o, Intersection(area, o.geometry).value).value, o.geometry;
      && r.x == SourceBegin(area.x, g.x, g.w, o.size.w) && r.y == SourceBegin(area.y, g.y, g.h, o.size.h)
      && r.x + r.w == SourceEnd(area.x, area.w, g.x, g.w, o.size.w)
      && r.y + r.h == SourceEnd(area.y, area.h, g.y, g.h, o.size.h)
  {
    OverlapIsIntersection(area, o.geometry);
    PartsAreInside(area, scale, size, o);
    var c, g := Intersection(area, o.geometry).value, o.geometry;
    SourceIsBounds(o, c, (o.size.w as real) / g.w, (o.size.h as real) / g.h);
    SourceIsEdge(c.x, c.w, area.x, area.w, g.x, g.w, o.size.w);
    SourceIsEdge(c.y, c.h, area.y, area.h, g.y, g.h, o.size.h);
    BoundsAre(Edge(c.x - g.x, (o.size.w as real) / g.w), Edge(c.y - g.y, (o.size.h as real) / g.h),
              Edge(c.x + c.w - g.x, (o.size.w as real) / g.w), Edge(c.y + c.h - g.y, (o.size.h as real) / g.h));
  }

  /** The pixel of the output that stands for (x, y): its share of the overlap, stretched evenly. */
  function Stretched(at: int, begin: int, end: int, sourceBegin: int, sourceEnd: int): (s: int)
    requires begin <= at < end && sourceBegin < sourceEnd
    ensures sourceBegin <= s < sourceEnd
  {
    sourceBegin + Nearest(at - begin, end - begin, sourceEnd - sourceBegin)
  }

  lemma ContributesExactly(area: Area, scale: real, size: Size, o: CapturedOutput, x: int, y: int)
    requires ValidOutput(o) && PixelSize(area.w, area.h, scale) == Ok(size)
    ensures PartOf(area, scale, size, o).Some? && Within(PartOf(area, scale, size, o).value.into, x, y)
      <==> Contributes(area, scale, size, o, x, y)
  {
    OverlapIsIntersection(area, o.geometry);
    if Overlap(area, o.geometry) {
      DestinationEnds(area, scale, size, o);
      SourceEnds(area, scale, size, o);
    }
  }

  function Column(area: Area, scale: real, size: Size, o: CapturedOutput, x: int, y: int): int
    requires ValidOutput(o) && Contributes(area, scale, size, o, x, y)
  {
    var g := o.geometry;
    Stretched(x, Begin(area.x, g.x, scale), End(area.x, area.w, g.x, g.w, scale, size.w),
              SourceBegin(area.x, g.x, g.w, o.size.w), SourceEnd(area.x, area.w, g.x, g.w, o.size.w))
  }

  function Row(area: Area, scale: real, size: Size, o: CapturedOutput, x: int, y: int): int
    requires ValidOutput(o) && Contributes(area, scale, size, o, x, y)
  {
    var g := o.geometry;
    Stretched(y, Begin(area.y, g.y, scale), End(area.y, area.h, g.y, g.h, scale, size.h),
              SourceBegin(area.y, g.y, g.h, o.size.h), SourceEnd(area.y, area.h, g.y, g.h, o.size.h))
  }

  /** The column and the row of the output's image that stand for the picture's pixel. */
  lemma ContributionIsStretched(area: Area, scale: real, size: Size, o: CapturedOutput, x: int, y: int)
    requires ValidOutput(o) && PixelSize(area.w, area.h, scale) == Ok(size)
    requires Contributes(area, scale, size, o, x, y)
    ensures PartOf(area, scale, size, o).Some?
    ensures InGrid(o.size, Column(area, scale, size, o, x, y), Row(area, scale, size, o, x, y))
    ensures var part := PartOf(area, scale, size, o).value;
      && Within(part.into, x, y) && !Empty(part.from) && Inside(part.from, o.size)
      && Scaled(o.pixels, o.size, part.from, part.into, x, y)
           == At(o.pixels, o.size, Column(area, scale, size, o, x, y), Row(area, scale, size, o, x, y))
  {
    ContributesExactly(area, scale, size, o, x, y);
    PartIsInside(area, scale, size, o);
    DestinationEnds(area, scale, size, o);
    SourceEnds(area, scale, size, o);
    var part, g := PartOf(area, scale, size, o).value, o.geometry;
    assert part.into.x == Begin(area.x, g.x, scale) && part.into.y == Begin(area.y, g.y, scale);
    assert Column(area, scale, size, o, x, y) == part.from.x + Nearest(x - part.into.x, part.into.w, part.from.w);
    assert Row(area, scale, size, o, x, y) == part.from.y + Nearest(y - part.into.y, part.into.h, part.from.h);
  }

  /** What a contributing output shows. */
  function Contribution(area: Area, scale: real, size: Size, o: CapturedOutput, x: int, y: int): Pixel
    requires ValidOutput(o) && PixelSize(area.w, area.h, scale) == Ok(size)
    requires Contributes(area, scale, size, o, x, y)
  {
    ContributionIsStretched(area, scale, size, o, x, y);
    At(o.pixels, o.size, Column(area, scale, size, o, x, y), Row(area, scale, size, o, x, y))
  }

  /** Output `i` is the last of the first `n` that has a pixel for (x, y). */
  ghost predicate Last(area: Area, scale: real, size: Size, outputs: seq<CapturedOutput>, n: nat, i: nat, x: int, y: int)
    requires ValidOutputs(outputs) && n <= |outputs|
  {
    && i < n && Contributes(area, scale, size, outputs[i], x, y)
    && forall j | i < j < n :: !Contributes(area, scale, size, outputs[j], x, y)
  }

  /** The placement law, for any outputs and any overlap: a pixel of the picture shows the last output
      that has a pixel for it, at the column and row its overlap gives. */
  lemma {:induction false} PictureShowsLast(area: Area, scale: real, size: Size, outputs: seq<CapturedOutput>, n: nat, i: nat, x: int, y: int)
    requires ValidOutputs(outputs) && n <= |outputs| && PixelSize(area.w, area.h, scale) == Ok(size)
    requires Last(area, scale, size, outputs, n, i, x, y)
    ensures DesktopPixel(area, scale, size, outputs, n, x, y) == Contribution(area, scale, size, outputs[i], x, y)
  {
    NextOutput(area, scale, size, outputs, n, x, y);
    if i < n - 1 {
      PictureShowsLast(area, scale, size, outputs, n - 1, i, x, y);
    }
  }

  /** And black where no output has a pixel. */
  lemma {:induction false} PictureIsBlackBetween(area: Area, scale: real, size: Size, outputs: seq<CapturedOutput>, n: nat, x: int, y: int)
    requires ValidOutputs(outputs) && n <= |outputs| && PixelSize(area.w, area.h, scale) == Ok(size)
    requires forall i | 0 <= i < n :: !Contributes(area, scale, size, outputs[i], x, y)
    ensures DesktopPixel(area, scale, size, outputs, n, x, y) == BLACK
  {
    if n > 0 {
      NextOutput(area, scale, size, outputs, n, x, y);
      PictureIsBlackBetween(area, scale, size, outputs, n - 1, x, y);
    }
  }

  /** An output that has a pixel for (x, y) shows it over those before; any other leaves them. */
  lemma NextOutput(area: Area, scale: real, size: Size, outputs: seq<CapturedOutput>, n: nat, x: int, y: int)
    requires ValidOutputs(outputs) && 0 < n <= |outputs| && PixelSize(area.w, area.h, scale) == Ok(size)
    ensures DesktopPixel(area, scale, size, outputs, n, x, y) ==
      if Contributes(area, scale, size, outputs[n - 1], x, y) then Contribution(area, scale, size, outputs[n - 1], x, y)
      else DesktopPixel(area, scale, size, outputs, n - 1, x, y)
  {
    var o := outputs[n - 1];
    ContributesExactly(area, scale, size, o, x, y);
    if Contributes(area, scale, size, o, x, y) {
      ContributionIsStretched(area, scale, size, o, x, y);
    }
  }

  // ----- outputs and areas on the pixel grid

  /** At this scale the rectangle is a whole number of pixels in each place. */
  predicate OnGrid(a: Area, scale: real, r: Rect) {
    AxisOnGrid(a.x, a.w, scale, r.x, r.w) && AxisOnGrid(a.y, a.h, scale, r.y, r.h)
  }

  /** One axis of an output on the grid: [at, at + length) is [r, r + n) in pixels. */
  predicate AxisOnGrid(at: real, length: real, scale: real, r: int, n: int) {
    at * scale == r as real && length * scale == n as real
  }

  function Larger(a: int, b: int): int {
    if a >= b then a else b
  }

  function Smaller(a: int, b: int): int {
    if a <= b then a else b
  }

  lemma ScaledOrder(a: real, b: real, scale: real, m: int, n: int)
    requires scale > 0.0 && a * scale == m as real && b * scale == n as real
    ensures a < b <==> m < n
  {
    if a < b {
      assert (b - a) * scale > 0.0;
      assert (b - a) * scale == b * scale - a * scale;
    } else {
      assert (a - b) * scale >= 0.0;
      assert (a - b) * scale == a * scale - b * scale;
    }
  }

  lemma EdgeOnGrid(a: real, b: real, scale: real, m: int, n: int)
    requires a * scale == m as real && b * scale == n as real
    ensures Edge(a - b, scale) == m - n
  {
    assert (a - b) * scale == (m - n) as real;
    RoundOfInt(m - n);
  }

  lemma SumOnGrid(at: real, length: real, scale: real, r: int, n: int)
    requires AxisOnGrid(at, length, scale, r, n)
    ensures (at + length) * scale == (r + n) as real
  {
  }

  /** The picture's pixels of an output on the grid, along one axis. */
  lemma AxisBegins(areaAt: real, areaLength: real, a: int, an: int, at: real, length: real, r: int, n: int, scale: real)
    requires scale > 0.0 && AxisOnGrid(areaAt, areaLength, scale, a, an) && AxisOnGrid(at, length, scale, r, n)
    ensures Begin(areaAt, at, scale) == Larger(a, r) - a
    ensures End(areaAt, areaLength, at, length, scale, an) == Smaller(a + an, r + n) - a
    ensures areaAt < at + length && at < areaAt + areaLength <==> a < r + n && r < a + an
  {
    SumOnGrid(areaAt, areaLength, scale, a, an);
    SumOnGrid(at, length, scale, r, n);
    ScaledOrder(areaAt, at, scale, a, r);
    ScaledOrder(at, areaAt, scale, r, a);
    ScaledOrder(at + length, areaAt + areaLength, scale, r + n, a + an);
    ScaledOrder(areaAt, at + length, scale, a, r + n);
    ScaledOrder(at, areaAt + areaLength, scale, r, a + an);
    EdgeOnGrid(areaAt, areaAt, scale, a, a);
    EdgeOnGrid(at, areaAt, scale, r, a);
    EdgeOnGrid(at + length, areaAt, scale, r + n, a);
  }

  lemma RatioIsScale(length: real, scale: real, n: int)
    requires length > 0.0 && length * scale == n as real
    ensures (n as real) / length == scale
  {
  }

  /** And the pixels of its own image. */
  lemma AxisSources(areaAt: real, areaLength: real, a: int, an: int, at: real, length: real, r: int, n: int, scale: real)
    requires scale > 0.0 && length > 0.0
    requires AxisOnGrid(areaAt, areaLength, scale, a, an) && AxisOnGrid(at, length, scale, r, n)
    ensures SourceBegin(areaAt, at, length, n) == Larger(a, r) - r
    ensures SourceEnd(areaAt, areaLength, at, length, n) == Smaller(a + an, r + n) - r
  {
    RatioIsScale(length, scale, n);
    SumOnGrid(areaAt, areaLength, scale, a, an);
    SumOnGrid(at, length, scale, r, n);
    ScaledOrder(areaAt, at, scale, a, r);
    ScaledOrder(at, areaAt, scale, r, a);
    ScaledOrder(areaAt + areaLength, at + length, scale, a + an, r + n);
    ScaledOrder(at + length, areaAt + areaLength, scale, r + n, a + an);
    EdgeOnGrid(areaAt, at, scale, a, r);
    EdgeOnGrid(at, at, scale, r, r);
    EdgeOnGrid(areaAt + areaLength, at, scale, a + an, r);
    EdgeOnGrid(at + length, at, scale, r + n, r);
  }

  /** An output on the grid, whose image has its pixels. */
  predicate Aligned(o: CapturedOutput, scale: real, r: Rect) {
    ValidOutput(o) && OnGrid(o.geometry, scale, r) && o.size == Size(r.w, r.h)
  }

  /** One axis in whole pixels: the overlap of [a, a + an) and [r, r + n), copied one to one. */
  lemma AxisIsCopied(a: int, an: int, r: int, n: int, x: int)
    requires 0 <= x < an && a < r + n && r < a + an
    ensures Larger(a, r) - a <= x < Smaller(a + an, r + n) - a <==> r <= a + x < r + n
    ensures r <= a + x < r + n ==>
      && Larger(a, r) - r < Smaller(a + an, r + n) - r
      && Stretched(x, Larger(a, r) - a, Smaller(a + an, r + n) - a, Larger(a, r) - r, Smaller(a + an, r + n) - r) == a + x - r
  {
    if r <= a + x < r + n {
      NearestOfSame(x - (Larger(a, r) - a), Smaller(a + an, r + n) - Larger(a, r));
    }
  }

  /** An output contributes where its ends say. */
  lemma ContributesByEnds(area: Area, scale: real, size: Size, o: CapturedOutput, x: int, y: int,
                          across: (int, int, int, int), down: (int, int, int, int))
    requires ValidOutput(o)
    requires across == (Begin(area.x, o.geometry.x, scale),
                        End(area.x, area.w, o.geometry.x, o.geometry.w, scale, size.w),
                        SourceBegin(area.x, o.geometry.x, o.geometry.w, o.size.w),
                        SourceEnd(area.x, area.w, o.geometry.x, o.geometry.w, o.size.w))
    requires down == (Begin(area.y, o.geometry.y, scale),
                      End(area.y, area.h, o.geometry.y, o.geometry.h, scale, size.h),
                      SourceBegin(area.y, o.geometry.y, o.geometry.h, o.size.h),
                      SourceEnd(area.y, area.h, o.geometry.y, o.geometry.h, o.size.h))
    ensures Contributes(area, scale, size, o, x, y) <==>
      && Overlap(area, o.geometry)
      && across.0 <= x < across.1 && down.0 <= y < down.1 && across.2 < across.3 && down.2 < down.3
    ensures Contributes(area, scale, size, o, x, y) ==>
      && Column(area, scale, size, o, x, y) == Stretched(x, across.0, across.1, across.2, across.3)
      && Row(area, scale, size, o, x, y) == Stretched(y, down.0, down.1, down.2, down.3)
  {
  }

  /** One axis of an aligned output ends where the rectangles do. */
  predicate AxisEnds(areaAt: real, areaLength: real, a: int, an: int, at: real, length: real, r: int, n: int, scale: real)
    requires length > 0.0
  {
    && Begin(areaAt, at, scale) == Larger(a, r) - a
    && End(areaAt, areaLength, at, length, scale, an) == Smaller(a + an, r + n) - a
    && SourceBegin(areaAt, at, length, n) == Larger(a, r) - r
    && SourceEnd(areaAt, areaLength, at, length, n) == Smaller(a + an, r + n) - r
    && (areaAt < at + length && at < areaAt + areaLength <==> a < r + n && r < a + an)
  }

  lemma AxisHasEnds(areaAt: real, areaLength: real, a: int, an: int, at: real, length: real, r: int, n: int, scale: real)
    requires scale > 0.0 && length > 0.0
    requires AxisOnGrid(areaAt, areaLength, scale, a, an) && AxisOnGrid(at, length, scale, r, n)
    ensures AxisEnds(areaAt, areaLength, a, an, at, length, r, n, scale)
  {
    AxisBegins(areaAt, areaLength, a, an, at, length, r, n, scale);
    AxisSources(areaAt, areaLength, a, an, at, length, r, n, scale);
  }

  ghost predicate HasEnds(area: Area, scale: real, a: Rect, o: CapturedOutput, r: Rect)
    requires ValidOutput(o)
  {
    var g := o.geometry;
    && AxisEnds(area.x, area.w, a.x, a.w, g.x, g.w, r.x, r.w, scale)
    && AxisEnds(area.y, area.h, a.y, a.h, g.y, g.h, r.y, r.h, scale)
  }

  lemma AlignedHasEnds(area: Area, scale: real, a: Rect, o: CapturedOutput, r: Rect)
    requires scale > 0.0 && OnGrid(area, scale, a) && Aligned(o, scale, r)
    ensures HasEnds(area, scale, a, o, r)
  {
    var g := o.geometry;
    AxisHasEnds(area.x, area.w, a.x, a.w, g.x, g.w, r.x, r.w, scale);
    AxisHasEnds(area.y, area.h, a.y, a.h, g.y, g.h, r.y, r.h, scale);
  }

  lemma EndsContribute(area: Area, scale: real, a: Rect, o: CapturedOutput, r: Rect, x: int, y: int)
    requires ValidOutput(o) && o.size == Size(r.w, r.h) && HasEnds(area, scale, a, o, r) && InGrid(Size(a.w, a.h), x, y)
    ensures Contributes(area, scale, Size(a.w, a.h), o, x, y) <==> Within(r, a.x + x, a.y + y)
    ensures Contributes(area, scale, Size(a.w, a.h), o, x, y) ==>
      && Column(area, scale, Size(a.w, a.h), o, x, y) == a.x + x - r.x
      && Row(area, scale, Size(a.w, a.h), o, x, y) == a.y + y - r.y
  {
    var right, bottom := Smaller(a.x + a.w, r.x + r.w), Smaller(a.y + a.h, r.y + r.h);
    var left, top := Larger(a.x, r.x), Larger(a.y, r.y);
    ContributesByEnds(area, scale, Size(a.w, a.h), o, x, y,
                      (left - a.x, right - a.x, left - r.x, right - r.x), (top - a.y, bottom - a.y, top - r.y, bottom - r.y));
    if a.x < r.x + r.w && r.x < a.x + a.w && a.y < r.y + r.h && r.y < a.y + a.h {
      AxisIsCopied(a.x, a.w, r.x, r.w, x);
      AxisIsCopied(a.y, a.h, r.y, r.h, y);
    }
  }

  lemma AlignedContributes(area: Area, scale: real, a: Rect, o: CapturedOutput, r: Rect, x: int, y: int)
    requires scale > 0.0 && OnGrid(area, scale, a) && Aligned(o, scale, r) && InGrid(Size(a.w, a.h), x, y)
    ensures Contributes(area, scale, Size(a.w, a.h), o, x, y) <==> Within(r, a.x + x, a.y + y)
    ensures Contributes(area, scale, Size(a.w, a.h), o, x, y) ==>
      && Column(area, scale, Size(a.w, a.h), o, x, y) == a.x + x - r.x
      && Row(area, scale, Size(a.w, a.h), o, x, y) == a.y + y - r.y
  {
    AlignedHasEnds(area, scale, a, o, r);
    EndsContribute(area, scale, a, o, r, x, y);
  }

  ghost predicate AllAligned(outputs: seq<CapturedOutput>, scale: real, rects: seq<Rect>) {
    && ValidOutputs(outputs)
    && |rects| == |outputs| && forall j | 0 <= j < |outputs| :: Aligned(outputs[j], scale, rects[j])
  }

  /** On the pixel grid the picture is the desktop itself: its pixel (x, y) is the pixel at the same
      desktop position of the last output there, copied one to one. Outputs that do not overlap show
      each its own side. */
  lemma {:induction false} AlignedPictureIsDesktop(area: Area, scale: real, a: Rect, outputs: seq<CapturedOutput>,
                                                   rects: seq<Rect>, i: nat, x: int, y: int)
    requires scale > 0.0 && OnGrid(area, scale, a) && PixelSize(area.w, area.h, scale) == Ok(Size(a.w, a.h))
    requires AllAligned(outputs, scale, rects)
    requires InGrid(Size(a.w, a.h), x, y)
    requires i < |outputs| && Within(rects[i], a.x + x, a.y + y)
    requires forall j | i < j < |outputs| :: !Within(rects[j], a.x + x, a.y + y)
    ensures DesktopPixel(area, scale, Size(a.w, a.h), outputs, |outputs|, x, y)
      == At(outputs[i].pixels, outputs[i].size, a.x + x - rects[i].x, a.y + y - rects[i].y)
  {
    var size := Size(a.w, a.h);
    forall j | i <= j < |outputs|
      ensures Contributes(area, scale, size, outputs[j], x, y) <==> Within(rects[j], a.x + x, a.y + y)
    {
      AlignedContributes(area, scale, a, outputs[j], rects[j], x, y);
    }
    AlignedContributes(area, scale, a, outputs[i], rects[i], x, y);
    PictureShowsLast(area, scale, size, outputs, |outputs|, i, x, y);
  }

  /** Between the outputs of an aligned desktop the picture is black. */
  lemma {:induction false} AlignedGapsAreBlack(area: Area, scale: real, a: Rect, outputs: seq<CapturedOutput>,
                                               rects: seq<Rect>, x: int, y: int)
    requires scale > 0.0 && OnGrid(area, scale, a) && PixelSize(area.w, area.h, scale) == Ok(Size(a.w, a.h))
    requires AllAligned(outputs, scale, rects)
    requires InGrid(Size(a.w, a.h), x, y)
    requires forall j | 0 <= j < |outputs| :: !Within(rects[j], a.x + x, a.y + y)
    ensures DesktopPixel(area, scale, Size(a.w, a.h), outputs, |outputs|, x, y) == BLACK
  {
    forall j | 0 <= j < |outputs| ensures !Contributes(area, scale, Size(a.w, a.h), outputs[j], x, y) {
      AlignedContributes(area, scale, a, outputs[j], rects[j], x, y);
    }
    PictureIsBlackBetween(area, scale, Size(a.w, a.h), outputs, |outputs|, x, y);
  }

  /** Any area on the grid with a pixel in it is accepted at its own size. */
  lemma AlignedSize(area: Area, scale: real, a: Rect)
    requires scale > 0.0 && OnGrid(area, scale, a) && 0 < a.w <= Geometry.I32_MAX && 0 < a.h <= Geometry.I32_MAX
    ensures PixelSize(area.w, area.h, scale) == Ok(Size(a.w, a.h))
  {
    ExactCount(a.w, area.w, scale);
    ExactCount(a.h, area.h, scale);
  }
}
