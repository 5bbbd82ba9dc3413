/** RGBA byte buffers seen as grids of pixels (src/embedder/capture/mod.rs). */
module Pixels {
  type Byte = b: int | 0 <= b < 256

  datatype Pixel = Pixel(r: Byte, g: Byte, b: Byte, a: Byte)

  const BLACK := Pixel(0, 0, 0, 255)

  datatype Size = Size(w: int, h: int)
  datatype Rect = Rect(x: int, y: int, w: int, h: int)

  predicate Within(r: Rect, x: int, y: int) {
    r.x <= x < r.x + r.w && r.y <= y < r.y + r.h
  }

  predicate InGrid(size: Size, x: int, y: int) {
    0 <= x < size.w && 0 <= y < size.h
  }

  /** The buffer holds exactly the pixels of the size, row by row, four bytes each. */
  predicate IsImage(bytes: seq<Byte>, size: Size) {
    size.w >= 0 && size.h >= 0 && |bytes| == size.w * size.h * 4
  }

  lemma RowsBefore(w: int, y: int, h: int)
    requires 0 <= w && y < h
    ensures (y + 1) * w <= h * w
  {
  }

  /** The pixels in the first `y` rows: `y * w`, counted row by row so that no proof about
      pixels has to multiply. */
  function RowStart(w: nat, y: nat): nat {
    if y == 0 then 0 else RowStart(w, y - 1) + w
  }

  lemma {:induction false} RowStartIsProduct(w: nat, y: nat)
    ensures RowStart(w, y) == y * w
  {
    if y > 0 {
      RowStartIsProduct(w, y - 1);
    }
  }

  lemma {:induction false} RowStartsAreApart(w: nat, y: nat, later: nat)
    requires y < later
    ensures RowStart(w, y) + w <= RowStart(w, later)
  {
    if y + 1 < later {
      RowStartsAreApart(w, y, later - 1);
    }
  }

  /** Where the `i`th pixel of a buffer starts. */
  function FirstByte(i: int): int {
    i * 4
  }

  /** The byte offset of a pixel. */
  function Offset(size: Size, x: int, y: int): (o: int)
    requires InGrid(size, x, y)
    ensures 0 <= o && o + 4 <= size.w * size.h * 4
  {
    RowStartsAreApart(size.w, y, size.h);
    RowStartIsProduct(size.w, size.h);
    FirstByte(RowStart(size.w, y) + x)
  }

  lemma OffsetsApart(size: Size, x: int, y: int, x': int, y': int)
    requires InGrid(size, x, y) && InGrid(size, x', y') && (x, y) != (x', y')
    ensures Offset(size, x, y) + 4 <= Offset(size, x', y') || Offset(size, x', y') + 4 <= Offset(size, x, y)
  {
    if y < y' {
      RowStartsAreApart(size.w, y, y');
    } else if y' < y {
      RowStartsAreApart(size.w, y', y);
    }
  }

  function PixelAt(bytes: seq<Byte>, o: int): Pixel
    requires 0 <= o && o + 4 <= |bytes|
  {
    Pixel(bytes[o], bytes[o + 1], bytes[o + 2], bytes[o + 3])
  }

  function At(bytes: seq<Byte>, size: Size, x: int, y: int): Pixel
    requires IsImage(bytes, size) && InGrid(size, x, y)
  {
    PixelAt(bytes, Offset(size, x, y))
  }

  /** Two buffers with the same pixels are the same bytes. */
  lemma SamePixelsSameBytes(a: seq<Byte>, b: seq<Byte>, size: Size)
    requires IsImage(a, size) && IsImage(b, size)
    requires forall x, y | InGrid(size, x, y) :: At(a, size, x, y) == At(b, size, x, y)
    ensures a == b
  {
    forall i | 0 <= i < |a| ensures a[i] == b[i] {
      var p := i / 4;
      PixelOfIndex(size, p);
      var x, y := p % size.w, p / size.w;
      RowStartIsProduct(size.w, y);
      assert At(a, size, x, y) == At(b, size, x, y);
      assert Offset(size, x, y) == p * 4;
    }
  }

  lemma PixelOfIndex(size: Size, p: int)
    requires 0 <= p < size.w * size.h && 0 <= size.w && 0 <= size.h
    ensures size.w > 0 && InGrid(size, p % size.w, p / size.w)
    ensures (p / size.w) * size.w + p % size.w == p
  {
    var y := p / size.w;
    if y >= size.h {
      RowsBefore(size.w, size.h - 1, y);
      assert false;
    }
  }

  /** The four-byte `copy_from_slice` every pixel loop ends in. */
  method CopyPixel(target: array<Byte>, targetSize: Size, tx: int, ty: int,
                   source: seq<Byte>, sourceSize: Size, sx: int, sy: int)
    requires IsImage(target[..], targetSize) && InGrid(targetSize, tx, ty)
    requires IsImage(source, sourceSize) && InGrid(sourceSize, sx, sy)
    modifies target
    ensures IsImage(target[..], targetSize)
    ensures forall x, y | InGrid(targetSize, x, y) ::
      At(target[..], targetSize, x, y) ==
        if (x, y) == (tx, ty) then At(source, sourceSize, sx, sy) else old(At(target[..], targetSize, x, y))
  {
    var t, s := Offset(targetSize, tx, ty), Offset(sourceSize, sx, sy);
    target[t], target[t + 1], target[t + 2], target[t + 3] := source[s], source[s + 1], source[s + 2], source[s + 3];
    forall x, y | InGrid(targetSize, x, y) && (x, y) != (tx, ty)
      ensures At(target[..], targetSize, x, y) == old(At(target[..], targetSize, x, y))
    {
      OffsetsApart(targetSize, tx, ty, x, y);
    }
  }

  /** `vec![0; len]` with every fourth byte set to opaque: a black image. */
  method BlackImage(size: Size) returns (pixels: array<Byte>)
    requires size.w >= 0 && size.h >= 0
    ensures fresh(pixels) && IsImage(pixels[..], size)
    ensures forall x, y | InGrid(size, x, y) :: At(pixels[..], size, x, y) == BLACK
  {
    pixels := BlackPixels(size.w * size.h);
    forall x, y | InGrid(size, x, y) ensures At(pixels[..], size, x, y) == BLACK {
      RowStartIsProduct(size.w, size.h);
      RowStartsAreApart(size.w, y, size.h);
      assert PixelAt(pixels[..], FirstByte(RowStart(size.w, y) + x)) == BLACK;
    }
  }

  method BlackPixels(count: nat) returns (pixels: array<Byte>)
    ensures fresh(pixels) && pixels.Length == FirstByte(count)
    ensures forall j | 0 <= j < count :: PixelAt(pixels[..], FirstByte(j)) == BLACK
  {
    pixels := new Byte[FirstByte(count)](_ => 0);
    var i := 0;
    while i < count
      invariant 0 <= i <= count
      invariant forall j | 0 <= j < i :: PixelAt(pixels[..], FirstByte(j)) == BLACK
      invariant forall b | FirstByte(i) <= b < pixels.Length :: pixels[b] == 0
    {
      pixels[FirstByte(i) + 3] := 255;
      i := i + 1;
    }
  }
}

/** The two ways a source image is copied into a destination (src/embedder/capture/mod.rs:1046-1081, 1170-1215). */
module Blit {
  import opened Pixels

  predicate Empty(r: Rect) {
    r.w <= 0 || r.h <= 0
  }

  predicate Inside(r: Rect, size: Size) {
    0 <= r.x && 0 <= r.y && r.x + r.w <= size.w && r.y + r.h <= size.h
  }

  /** Nearest neighbour along one axis: the source cell under destination cell `d`. */
  function Nearest(d: int, destination: int, source: int): (s: int)
    requires 0 <= d < destination && 0 < source
    ensures 0 <= s < source
  {
    assert d * source < destination * source;
    d * source / destination
  }

  /** It is the cell whose share of the axis begins at or before the destination cell. */
  lemma NearestExactly(d: int, destination: int, source: int, s: int)
    requires 0 <= d < destination && 0 < source
    ensures Nearest(d, destination, source) == s <==> s * destination <= d * source < (s + 1) * destination
  {
    var p := d * source;
    var q := p / destination;
    assert p == q * destination + p % destination && 0 <= p % destination < destination;
    if s < q {
      RowsBefore(destination, s, q);
    } else if q < s {
      RowsBefore(destination, q, s);
    }
  }

  /** The source pixel shown at destination pixel (x, y). */
  function Scaled(source: seq<Byte>, sourceSize: Size, from: Rect, into: Rect, x: int, y: int): Pixel
    requires IsImage(source, sourceSize) && !Empty(from) && Inside(from, sourceSize) && Within(into, x, y)
  {
    At(source, sourceSize, from.x + Nearest(x - into.x, into.w, from.w), from.y + Nearest(y - into.y, into.h, from.h))
  }

  /** Fails, writing nothing, when a non-empty region leaves its image; otherwise every pixel of
      the destination region shows its nearest source pixel and no other pixel changes. */
  method BlitScaled(target: array<Byte>, targetSize: Size, source: seq<Byte>, sourceSize: Size, into: Rect, from: Rect)
    returns (ok: bool)
    requires IsImage(target[..], targetSize) && IsImage(source, sourceSize)
    modifies target
    ensures IsImage(target[..], targetSize)
    ensures ok <==> Empty(into) || Empty(from) || (Inside(from, sourceSize) && Inside(into, targetSize))
    ensures forall x, y | InGrid(targetSize, x, y) ::
      At(target[..], targetSize, x, y) ==
        if ok && !Empty(into) && !Empty(from) && Within(into, x, y) then Scaled(source, sourceSize, from, into, x, y)
        else old(At(target[..], targetSize, x, y))
  {
    if Empty(into) || Empty(from) {
      return true;
    }
    if !Inside(from, sourceSize) || !Inside(into, targetSize) {
      return false;
    }
    var y := 0;
    while y < into.h
      invariant 0 <= y <= into.h
      invariant IsImage(target[..], targetSize)
      invariant forall px, py | InGrid(targetSize, px, py) ::
        At(target[..], targetSize, px, py) ==
          if Within(into, px, py) && py < into.y + y then Scaled(source, sourceSize, from, into, px, py)
          else old(At(target[..], targetSize, px, py))
    {
      BlitScaledRow(target, targetSize, source, sourceSize, into, from, y);
      y := y + 1;
    }
    ok := true;
  }

  method BlitScaledRow(target: array<Byte>, targetSize: Size, source: seq<Byte>, sourceSize: Size, into: Rect, from: Rect, y: int)
    requires IsImage(target[..], targetSize) && IsImage(source, sourceSize)
    requires !Empty(into) && !Empty(from) && Inside(from, sourceSize) && Inside(into, targetSize)
    requires 0 <= y < into.h
    modifies target
    ensures IsImage(target[..], targetSize)
    ensures forall px, py | InGrid(targetSize, px, py) ::
      At(target[..], targetSize, px, py) ==
        if py == into.y + y && into.x <= px < into.x + into.w then Scaled(source, sourceSize, from, into, px, py)
        else old(At(target[..], targetSize, px, py))
  {
    var sourceY := from.y + Nearest(y, into.h, from.h);
    var x := 0;
    while x < into.w
      invariant 0 <= x <= into.w
      invariant IsImage(target[..], targetSize)
      invariant forall px, py | InGrid(targetSize, px, py) ::
        At(target[..], targetSize, px, py) ==
          if py == into.y + y && into.x <= px < into.x + x then Scaled(source, sourceSize, from, into, px, py)
          else old(At(target[..], targetSize, px, py))
    {
      var sourceX := from.x + Nearest(x, into.w, from.w);
      CopyPixel(target, targetSize, into.x + x, into.y + y, source, sourceSize, sourceX, sourceY);
      x := x + 1;
    }
  }

  const I32_MAX := 0x7fff_ffff

  /** Two's complement addition of 32-bit values, as a release build computes it. */
  function Wrap(n: int): int {
    if n > I32_MAX then n - 0x1_0000_0000 else if n < -0x8000_0000 then n + 0x1_0000_0000 else n
  }

  predicate IsI32(n: int) {
    -0x8000_0000 <= n <= I32_MAX
  }

  /** The cells of one axis a clipped copy writes: inside the destination region as its end is
      computed, inside the target, and backed by the source. */
  predicate Reaches(at: int, length: int, source: int, target: int, d: int) {
    at <= d < Wrap(at + length) && 0 <= d < target && d - at < source
  }

  predicate Clipped(into: Rect, sourceSize: Size, targetSize: Size, x: int, y: int) {
    Reaches(into.x, into.w, sourceSize.w, targetSize.w, x) && Reaches(into.y, into.h, sourceSize.h, targetSize.h, y)
  }

  method BlitClipped(target: array<Byte>, targetSize: Size, source: seq<Byte>, sourceSize: Size, into: Rect)
    requires IsImage(target[..], targetSize) && IsImage(source, sourceSize)
    modifies target
    ensures IsImage(target[..], targetSize)
    ensures forall x, y | InGrid(targetSize, x, y) ::
      At(target[..], targetSize, x, y) ==
        if Clipped(into, sourceSize, targetSize, x, y) then At(source, sourceSize, x - into.x, y - into.y)
        else old(At(target[..], targetSize, x, y))
  {
    var left, top := if into.x > 0 then into.x else 0, if into.y > 0 then into.y else 0;
    var endX, endY := Wrap(into.x + into.w), Wrap(into.y + into.h);
    var right := if endX < targetSize.w then endX else targetSize.w;
    var bottom := if endY < targetSize.h then endY else targetSize.h;
    if right <= left || bottom <= top {
      return;
    }
    var y := top;
    while y < bottom
      invariant top <= y <= bottom
      invariant IsImage(target[..], targetSize)
      invariant forall px, py | InGrid(targetSize, px, py) ::
        At(target[..], targetSize, px, py) ==
          if Clipped(into, sourceSize, targetSize, px, py) && py < y then At(source, sourceSize, px - into.x, py - into.y)
          else old(At(target[..], targetSize, px, py))
    {
      var sourceY := y - into.y;
      if 0 <= sourceY < sourceSize.h {
        var x := left;
        while x < right
          invariant left <= x <= right
          invariant IsImage(target[..], targetSize)
          invariant forall px, py | InGrid(targetSize, px, py) ::
            At(target[..], targetSize, px, py) ==
              if Clipped(into, sourceSize, targetSize, px, py) && (py < y || (py == y && px < x))
              then At(source, sourceSize, px - into.x, py - into.y)
              else old(At(target[..], targetSize, px, py))
        {
          var sourceX := x - into.x;
          if 0 <= sourceX < sourceSize.w {
            CopyPixel(target, targetSize, x, y, source, sourceSize, sourceX, sourceY);
          }
          x := x + 1;
        }
      }
      y := y + 1;
    }
  }
}
