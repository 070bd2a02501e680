/** The RGBA raster of apps/provider-agent/src/bitmap.ts and its pixel methods. */
module Bitmaps {
  import opened JsInt
  import opened Options

  /** A stored pixel. */
  datatype Rgba = Rgba(r: Byte, g: Byte, b: Byte, a: Byte)

  /** A colour as callers give it: the alpha channel is optional. */
  datatype Color = Color(r: int, g: int, b: int, a: Option<int>)

  /** What a byte array keeps of a colour. */
  function Stored(c: Color): Rgba {
    Rgba(c.r % 256, c.g % 256, c.b % 256, (match c.a case Some(a) => a case None => 255) % 256)
  }

  /** A byte keeps each channel modulo 256; a colour without alpha is opaque. */
  predicate Opacity(p: Rgba, c: Color) {
    && p.r == c.r % 256 && p.g == c.g % 256 && p.b == c.b % 256
    && p.a == match c.a case None => 255 case Some(a) => a % 256
  }

  class Bitmap {
    const width: nat
    const height: nat
    const data: array<Byte>

    ghost predicate Valid() {
      data.Length == width * height * 4
    }

    ghost predicate InRange(x: int, y: int) {
      0 <= x < width && 0 <= y < height
    }

    function Pixel(k: nat): Rgba
      requires Valid() && k < width * height
      reads data
    {
      Rgba(data[4 * k], data[4 * k + 1], data[4 * k + 2], data[4 * k + 3])
    }

    ghost function Pixels(): (s: seq<Rgba>)
      requires Valid()
      reads data
      ensures |s| == width * height && forall k :: 0 <= k < |s| ==> s[k] == Pixel(k)
    {
      seq(width * height, k requires 0 <= k < width * height reads data => Pixel(k))
    }

    ghost function At(x: int, y: int): Rgba
      requires Valid() && InRange(x, y)
      reads data
    {
      IndexInRange(x, y, width, height);
      Pixel(y * width + x)
    }

    constructor (width: nat, height: nat, background: Color)
      ensures Valid() && fresh(data) && this.width == width && this.height == height
      ensures forall x, y :: InRange(x, y) ==> At(x, y) == Stored(background)
    {
      this.width, this.height := width, height;
      data := new Byte[width * height * 4](_ => 0);
      new;
      FillRect(0, 0, width, height, background);
    }

    /** Writes one pixel; coordinates outside the raster are ignored. */
    method SetPixel(x: int, y: int, color: Color)
      requires Valid()
      modifies data
      ensures forall px, py :: InRange(px, py) ==>
                At(px, py) == if px == x && py == y then Stored(color) else old(At(px, py))
      ensures InRange(x, y) ==> Opacity(At(x, y), color)
    {
      if x < 0 || y < 0 || x >= width || y >= height {
        return;
      }
      IndexInRange(x, y, width, height);
      var offset := (y * width + x) * 4;
      var c := Stored(color);
      data[offset] := c.r;
      data[offset + 1] := c.g;
      data[offset + 2] := c.b;
      data[offset + 3] := c.a;
      forall px, py | InRange(px, py)
        ensures At(px, py) == if px == x && py == y then c else old(At(px, py))
      {
        IndexInRange(px, py, width, height);
        if px != x || py != y {
          IndexInjective(x, y, px, py, width);
        }
      }
    }

    /** Exactly the pixels of the rectangle that lie inside the raster take the colour. */
    method FillRect(x: int, y: int, w: int, h: int, color: Color)
      requires Valid()
      modifies data
      ensures forall px, py :: InRange(px, py) ==>
                At(px, py) == if x <= px < x + w && y <= py < y + h
                              then Stored(color) else old(At(px, py))
    {
      var yy := y;
      while yy < y + h
        invariant forall px, py :: InRange(px, py) ==>
                    At(px, py) == if x <= px < x + w && y <= py < y + h && py < yy
                                  then Stored(color) else old(At(px, py))
      {
        var xx := x;
        while xx < x + w
          invariant forall px, py :: InRange(px, py) ==>
                      At(px, py) == if x <= px < x + w && y <= py < y + h && (py < yy || (py == yy && px < xx))
                                    then Stored(color) else old(At(px, py))
        {
          SetPixel(xx, yy, color);
          xx := xx + 1;
        }
        yy := yy + 1;
      }
    }

    /** The source coordinate a scaled copy takes at `offset`, -1 left of the copy. */
    static function Cell(offset: int, scale: int): (x: int)
      ensures x >= -1
    {
      if scale <= 0 || offset < 0 then -1
      else assert offset / scale >= 0; offset / scale
    }

    /** The pixel a scaled copy of `source` puts at (px, py), if it puts any there. */
    ghost function Sample(x: int, y: int): Option<Rgba>
      requires Valid()
      reads data
    {
      if InRange(x, y) && At(x, y).a != 0 then Some(At(x, y)) else None
    }

    method BlitPixel(source: Bitmap, x: nat, y: nat, tx: int, ty: int, scale: int)
      requires Valid() && source.Valid() && source.data != data && source.InRange(x, y)
      modifies data
      ensures forall px, py :: InRange(px, py) ==>
                At(px, py) == if Cell(px - tx, scale) == x && Cell(py - ty, scale) == y && source.At(x, y).a != 0
                              then source.At(x, y) else old(At(px, py))
    {
      IndexInRange(x, y, source.width, source.height);
      var c := source.Pixel(y * source.width + x);
      if c.a == 0 {
        return;
      }
      forall px, py | InRange(px, py)
        ensures tx + x * scale <= px < tx + x * scale + scale <==> Cell(px - tx, scale) == x
        ensures ty + y * scale <= py < ty + y * scale + scale <==> Cell(py - ty, scale) == y
      {
        CellOf(px - tx, x, scale);
        CellOf(py - ty, y, scale);
      }
      FillRect(tx + x * scale, ty + y * scale, scale, scale, Color(c.r, c.g, c.b, Some(c.a)));
    }

    /** Scaled copy that leaves the target as it was under fully transparent pixels. */
    method Blit(source: Bitmap, tx: int, ty: int, scale: int)
      requires Valid() && source.Valid() && source.data != data
      modifies data
      ensures forall px, py :: InRange(px, py) ==>
                At(px, py) == match source.Sample(Cell(px - tx, scale), Cell(py - ty, scale))
                              case Some(c) => c
                              case None => old(At(px, py))
    {
      hide Cell;
      var y := 0;
      while y < source.height
        invariant forall px, py :: InRange(px, py) ==>
                    var sx, sy := Cell(px - tx, scale), Cell(py - ty, scale);
                    At(px, py) == if source.Sample(sx, sy).Some? && sy < y
                                  then source.Sample(sx, sy).value else old(At(px, py))
      {
        var x := 0;
        while x < source.width
          invariant forall px, py :: InRange(px, py) ==>
                      var sx, sy := Cell(px - tx, scale), Cell(py - ty, scale);
                      At(px, py) == if source.Sample(sx, sy).Some? && (sy < y || (sy == y && sx < x))
                                    then source.Sample(sx, sy).value else old(At(px, py))
        {
          BlitPixel(source, x, y, tx, ty, scale);
          x := x + 1;
        }
        y := y + 1;
      }
    }
  }

  /** Cell `x` of size `scale` holds exactly the offsets whose quotient is `x`. */
  lemma CellOf(offset: int, x: nat, scale: int)
    ensures x * scale <= offset < x * scale + scale <==> Bitmap.Cell(offset, scale) == x
  {
    if scale > 0 {
      var q, r := offset / scale, offset % scale;
      assert offset == q * scale + r;
      var d := q - x;
      assert d * scale == q * scale - x * scale;
      assert d >= 1 ==> d * scale >= scale;
      assert d <= -1 ==> d * scale <= -scale;
      assert x * scale >= 0;
    }
  }

  lemma IndexInRange(x: int, y: int, width: int, height: int)
    requires 0 <= x < width && 0 <= y < height
    ensures 0 <= y * width + x < width * height
  {
    assert (height - 1 - y) * width >= 0;
    assert (height - 1 - y) * width == height * width - width - y * width;
  }

  lemma IndexInjective(x: int, y: int, px: int, py: int, width: int)
    requires 0 <= x < width && 0 <= px < width && (x != px || y != py)
    ensures y * width + x != py * width + px
  {
    var d := y - py;
    assert d * width == y * width - py * width;
    assert d >= 1 ==> d * width >= width;
    assert d <= -1 ==> d * width <= -width;
  }
}
