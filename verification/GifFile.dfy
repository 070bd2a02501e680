/** GIF animations: palette collection, index mapping and the container written by
    `encodeGifAnimation`, read back by a GIF89a reader. */
module GifFile {
  import opened JsInt
  import opened Options
  import opened Bitmaps
  import opened GifLzw
  import opened Sequences

  datatype Rgb = Rgb(r: Byte, g: Byte, b: Byte)

  function Opaque(c: Rgba): Rgb {
    Rgb(c.r, c.g, c.b)
  }

  // ----- the palette

  const MAX_COLORS := 256
  const BLACK := Rgba(0, 0, 0, 255)

  function AddColor(palette: seq<Rgba>, c: Rgba): seq<Rgba> {
    if c in palette || |palette| >= MAX_COLORS then palette else palette + [c]
  }

  /** The first `MAX_COLORS` distinct colours, in order of appearance. */
  function Distinct(pixels: seq<Rgba>): seq<Rgba> {
    if pixels == [] then [] else AddColor(Distinct(pixels[..|pixels| - 1]), pixels[|pixels| - 1])
  }

  function Palette(pixels: seq<Rgba>): seq<Rgba> {
    if Distinct(pixels) == [] then [BLACK] else Distinct(pixels)
  }

  lemma {:induction false} DistinctProperties(pixels: seq<Rgba>)
    ensures var d := Distinct(pixels);
            && NoDuplicates(d) && |d| <= MAX_COLORS && Elements(d) <= Elements(pixels)
            && (|d| < MAX_COLORS ==> Elements(d) == Elements(pixels))
  {
    if pixels != [] {
      var front, c := pixels[..|pixels| - 1], pixels[|pixels| - 1];
      DistinctProperties(front);
      assert Elements(pixels) == Elements(front) + {c};
      assert Elements(Distinct(front) + [c]) == Elements(Distinct(front)) + {c};
    }
  }

  /** Every colour gets its own palette entry exactly when there are at most 256 of them. */
  lemma PaletteIsExact(pixels: seq<Rgba>)
    ensures Elements(pixels) <= Elements(Palette(pixels)) <==> |Elements(pixels)| <= MAX_COLORS
    ensures NoDuplicates(Palette(pixels)) && 1 <= |Palette(pixels)| <= MAX_COLORS
  {
    var d := Distinct(pixels);
    DistinctProperties(pixels);
    NoDuplicatesSize(d);
    if pixels == [] {
      assert Elements(pixels) == {};
    } else {
      assert pixels[0] in Elements(pixels);
      if Elements(pixels) == Elements(d) {
      } else {
        var missing :| missing in Elements(pixels) && missing !in Elements(d);
        SubsetSize(Elements(d) + {missing}, Elements(pixels));
      }
    }
  }

  /** Position of each palette entry, the lookup table that goes with the palette. */
  ghost predicate IsIndexOf(indices: map<Rgba, nat>, palette: seq<Rgba>) {
    && indices.Keys == Elements(palette)
    && forall c :: c in indices ==> indices[c] < |palette| && palette[indices[c]] == c
  }

  ghost predicate AllValid(frames: seq<Bitmap>) {
    forall i :: 0 <= i < |frames| ==> frames[i].Valid()
  }

  ghost function Rasters(frames: seq<Bitmap>): set<object> {
    set i | 0 <= i < |frames| :: frames[i].data
  }

  /** Each colour of the palette is there from its first appearance on, after those that appeared
      before it. */
  lemma {:induction false} DistinctInOrder(pixels: seq<Rgba>, k: nat)
    requires k < |Distinct(pixels)|
    ensures exists i :: 0 <= i < |pixels| && pixels[i] == Distinct(pixels)[k] && Elements(pixels[..i]) == Elements(Distinct(pixels)[..k])
  {
    var n := |pixels| - 1;
    var front, c := pixels[..n], pixels[n];
    DistinctProperties(front);
    if k < |Distinct(front)| {
      DistinctInOrder(front, k);
      var i: nat :| i < |front| && front[i] == Distinct(front)[k] && Elements(front[..i]) == Elements(Distinct(front)[..k]);
      assert pixels[..i] == front[..i] && Distinct(pixels)[..k] == Distinct(front)[..k];
      assert pixels[i] == Distinct(pixels)[k];
    } else {
      assert Distinct(pixels)[..k] == Distinct(front);
      assert pixels[n] == Distinct(pixels)[k];
    }
  }

  /** The pixels of every frame. */
  ghost function Scenes(frames: seq<Bitmap>): (s: seq<seq<Rgba>>)
    requires AllValid(frames)
    reads Rasters(frames)
    ensures |s| == |frames| && forall i :: 0 <= i < |s| ==> s[i] == frames[i].Pixels()
  {
    seq(|frames|, i requires 0 <= i < |frames| && frames[i].Valid() reads Rasters(frames) => frames[i].Pixels())
  }

  function Concat(scenes: seq<seq<Rgba>>): seq<Rgba> {
    if scenes == [] then [] else Concat(scenes[..|scenes| - 1]) + scenes[|scenes| - 1]
  }

  /** The inner loop of the palette collection, over the bytes of one frame. */
  method CollectFrame(frame: Bitmap, palette: seq<Rgba>, indices: map<Rgba, nat>, ghost before: seq<Rgba>)
    returns (palette': seq<Rgba>, indices': map<Rgba, nat>)
    requires frame.Valid() && palette == Distinct(before) && IsIndexOf(indices, palette)
    ensures palette' == Distinct(before + frame.Pixels()) && IsIndexOf(indices', palette')
  {
    hide Distinct;
    palette', indices' := palette, indices;
    var offset := 0;
    assert before + frame.Pixels()[..0] == before;
    while offset < frame.data.Length
      invariant offset % 4 == 0 && 0 <= offset <= frame.data.Length
      invariant palette' == Distinct(before + frame.Pixels()[..offset / 4])
      invariant IsIndexOf(indices', palette')
    {
      var key := frame.Pixel(offset / 4);
      ghost var k := offset / 4;
      DistinctNext(before, frame.Pixels(), k);
      if key in indices' || |palette'| >= MAX_COLORS {
      } else {
        IndexNext(indices', palette', key);
        indices' := indices'[key := |palette'|];
        palette' := palette' + [key];
      }
      offset := offset + 4;
    }
    assert frame.Pixels()[..offset / 4] == frame.Pixels();
  }

  lemma DistinctNext(before: seq<Rgba>, pixels: seq<Rgba>, k: nat)
    requires k < |pixels|
    ensures Distinct(before + pixels[..k + 1]) == AddColor(Distinct(before + pixels[..k]), pixels[k])
  {
    var seen := before + pixels[..k + 1];
    assert seen[..|seen| - 1] == before + pixels[..k];
  }

  lemma IndexNext(indices: map<Rgba, nat>, palette: seq<Rgba>, key: Rgba)
    requires IsIndexOf(indices, palette) && key !in indices
    ensures IsIndexOf(indices[key := |palette|], palette + [key])
  {
    assert Elements(palette + [key]) == Elements(palette) + {key};
  }

  method CollectPalette(frames: seq<Bitmap>) returns (palette: seq<Rgba>, indices: map<Rgba, nat>)
    requires AllValid(frames)
    ensures palette == Palette(Concat(Scenes(frames))) && IsIndexOf(indices, palette)
  {
    hide Distinct;
    palette, indices := [], map[];
    ghost var scenes := Scenes(frames);
    assert Distinct([]) == [] by { NoPixels(); }
    for i := 0 to |frames|
      invariant forall j :: 0 <= j < |frames| ==> frames[j].Pixels() == scenes[j]
      invariant palette == Distinct(Concat(scenes[..i])) && IsIndexOf(indices, palette)
    {
      assert scenes[..i + 1][..i] == scenes[..i];
      palette, indices := CollectFrame(frames[i], palette, indices, Concat(scenes[..i]));
    }
    assert scenes[..|frames|] == scenes == Scenes(frames);
    if |palette| == 0 {
      palette := palette + [BLACK];
      indices := indices[BLACK := 0];
    }
  }

  lemma NoPixels()
    ensures Distinct([]) == []
  {
  }

  // ----- nearest palette entry

  function Sq(x: int): (s: nat) {
    assert x * x >= 0;
    x * x
  }

  function Distance(c: Rgba, d: Rgba): nat {
    Sq(c.r - d.r) + Sq(c.g - d.g) + Sq(c.b - d.b) + Sq(c.a - d.a)
  }

  /** A first entry at least distance. */
  ghost predicate IsNearest(c: Rgba, palette: seq<Rgba>, i: nat) {
    && i < |palette|
    && (forall j :: 0 <= j < |palette| ==> Distance(c, palette[i]) <= Distance(c, palette[j]))
    && (forall j :: 0 <= j < i ==> Distance(c, palette[i]) < Distance(c, palette[j]))
  }

  ghost function Nearest(c: Rgba, palette: seq<Rgba>): (i: nat)
    requires palette != []
    ensures IsNearest(c, palette, i)
  {
    NearestExists(c, palette);
    var i: nat :| IsNearest(c, palette, i);
    i
  }

  lemma {:induction false} NearestExists(c: Rgba, palette: seq<Rgba>)
    requires palette != []
    ensures exists i: nat :: IsNearest(c, palette, i)
  {
    hide Distance;
    var n := |palette| - 1;
    var front := palette[..n];
    if front == [] {
      assert IsNearest(c, palette, 0);
    } else {
      NearestExists(c, front);
      var i: nat :| IsNearest(c, front, i);
      assert forall j :: 0 <= j < n ==> palette[j] == front[j];
      var best: nat := if Distance(c, palette[n]) < Distance(c, palette[i]) then n else i;
      assert IsNearest(c, palette, best);
    }
  }

  lemma NearestIsUnique(c: Rgba, palette: seq<Rgba>, i: nat, j: nat)
    requires IsNearest(c, palette, i) && IsNearest(c, palette, j)
    ensures i == j
  {
    hide Distance;
    assert Distance(c, palette[i]) == Distance(c, palette[j]);
  }

  lemma SqZero(x: int)
    ensures Sq(x) == 0 <==> x == 0
  {
    if x != 0 {
      assert x * x >= 1 by {
        assert x >= 1 ==> x * x >= x;
        assert x <= -1 ==> x * x >= -x;
      }
    }
  }

  lemma DistanceZero(c: Rgba, d: Rgba)
    ensures Distance(c, d) == 0 <==> c == d
  {
    SqZero(c.r - d.r);
    SqZero(c.g - d.g);
    SqZero(c.b - d.b);
    SqZero(c.a - d.a);
  }

  lemma DistanceIs(c: Rgba, d: Rgba)
    ensures var dr, dg, db, da := c.r - d.r, c.g - d.g, c.b - d.b, c.a - d.a;
            Distance(c, d) == dr * dr + dg * dg + db * db + da * da
  {
  }

  /** A colour of the palette is mapped to itself. */
  lemma NearestOfEntry(palette: seq<Rgba>, i: nat)
    requires i < |palette| && NoDuplicates(palette)
    ensures Nearest(palette[i], palette) == i
  {
    forall j | 0 <= j < |palette|
      ensures Distance(palette[i], palette[j]) == 0 <==> j == i
    {
      DistanceZero(palette[i], palette[j]);
    }
    NearestIsUnique(palette[i], palette, i, Nearest(palette[i], palette));
  }

  method FindNearest(color: Rgba, palette: seq<Rgba>) returns (bestIndex: nat)
    requires palette != []
    ensures bestIndex == Nearest(color, palette)
  {
    hide Distance;
    bestIndex := 0;
    var bestDistance: Option<int> := None;
    for index := 0 to |palette|
      invariant bestDistance.None? <==> index == 0
      invariant index > 0 ==> bestIndex < index && bestDistance == Some(Distance(color, palette[bestIndex]))
      invariant index > 0 ==> IsNearest(color, palette[..index], bestIndex)
    {
      var candidate := palette[index];
      var dr, dg, db, da := color.r - candidate.r, color.g - candidate.g, color.b - candidate.b, color.a - candidate.a;
      var distance := dr * dr + dg * dg + db * db + da * da;
      DistanceIs(color, candidate);
      if bestDistance.None? || distance < bestDistance.value {
        bestDistance := Some(distance);
        bestIndex := index;
      }
    }
    assert palette[..|palette|] == palette;
    NearestIsUnique(color, palette, bestIndex, Nearest(color, palette));
  }

  ghost function Quantized(pixels: seq<Rgba>, palette: seq<Rgba>): (s: seq<nat>)
    requires palette != []
    ensures |s| == |pixels| && forall k :: 0 <= k < |s| ==> s[k] == Nearest(pixels[k], palette) < |palette|
  {
    seq(|pixels|, k requires 0 <= k < |pixels| => Nearest(pixels[k], palette))
  }

  method MapFrame(bitmap: Bitmap, palette: seq<Rgba>, indices: map<Rgba, nat>) returns (output: seq<Byte>)
    requires bitmap.Valid() && 0 < |palette| <= MAX_COLORS
    requires NoDuplicates(palette) && IsIndexOf(indices, palette)
    ensures output == Quantized(bitmap.Pixels(), palette)
  {
    var bytes := new Byte[bitmap.width * bitmap.height](_ => 0);
    for pixel := 0 to bitmap.width * bitmap.height
      invariant bitmap.Pixels() == old(bitmap.Pixels())
      invariant forall k :: 0 <= k < pixel ==> bytes[k] == Nearest(bitmap.Pixels()[k], palette)
    {
      var color := bitmap.Pixel(pixel);
      var found: nat;
      if color in indices {
        found := indices[color];
        NearestOfEntry(palette, found);
      } else {
        found := FindNearest(color, palette);
      }
      bytes[pixel] := found;
    }
    output := bytes[..];
    ghost var expected := Quantized(bitmap.Pixels(), palette);
    assert forall k :: 0 <= k < |output| ==> output[k] == expected[k];
  }

  // ----- a GIF89a reader

  datatype Frame = Frame(left: nat, top: nat, width: nat, height: nat, pixels: seq<Rgb>)
  datatype Gif = Gif(width: nat, height: nat, frames: seq<Frame>)

  function Word(low: Byte, high: Byte): nat {
    low as int + 256 * high as int
  }

  /** Colour table of section 19: three bytes for each entry. */
  function ReadTable(bytes: seq<Byte>): (t: seq<Rgb>)
    ensures |t| == |bytes| / 3
  {
    seq(|bytes| / 3, i requires 0 <= i < |bytes| / 3 => Rgb(bytes[3 * i], bytes[3 * i + 1], bytes[3 * i + 2]))
  }

  predicate InTable(indices: seq<nat>, table: seq<Rgb>) {
    forall k :: 0 <= k < |indices| ==> indices[k] < |table|
  }

  function Colors(indices: seq<nat>, table: seq<Rgb>): (s: seq<Rgb>)
    requires InTable(indices, table)
    ensures |s| == |indices| && forall k :: 0 <= k < |s| ==> s[k] == table[indices[k]]
  {
    seq(|indices|, k requires 0 <= k < |indices| => table[indices[k]])
  }

  /** An image with a descriptor (section 20) and table-based data (section 22), in the
      global colours and without interlacing. */
  function ReadImage(bytes: seq<Byte>, table: seq<Rgb>): (r: Option<Parsed<Frame>>)
    ensures r.Some? ==> |r.value.rest| < |bytes|
  {
    if |bytes| < 9 || bytes[8] >= 64 then None
    else
      var w, h := Word(bytes[4], bytes[5]), Word(bytes[6], bytes[7]);
      match ReadImageData(bytes[9..])
      case None => None
      case Some(p) =>
        if |p.data| != w * h || !InTable(p.data, table)
           || |p.rest| >= |bytes| then None
        else
          Some(Parsed(Frame(Word(bytes[0], bytes[1]), Word(bytes[2], bytes[3]), w, h, Colors(p.data, table)), p.rest))
  }

  function AddFrame(frame: Frame, later: Option<seq<Frame>>): Option<seq<Frame>> {
    match later
    case None => None
    case Some(frames) => Some([frame] + frames)
  }

  /** Extension and image blocks up to the trailer; extensions are skipped. */
  function ReadBlocks(bytes: seq<Byte>, table: seq<Rgb>): Option<seq<Frame>>
    decreases |bytes|
  {
    if bytes == [] then None
    else if bytes[0] == 0x3b then Some([])
    else if bytes[0] == 0x21 && |bytes| >= 2 then
      match ReadSubBlocks(bytes[2..])
      case None => None
      case Some(p) => if |p.rest| >= |bytes| then None else ReadBlocks(p.rest, table)
    else if bytes[0] == 0x2c then
      match ReadImage(bytes[1..], table)
      case None => None
      case Some(p) => AddFrame(p.data, ReadBlocks(p.rest, table))
    else None
  }

  const SIGNATURE: seq<Byte> := [0x47, 0x49, 0x46, 0x38, 0x39, 0x61]

  function ReadGif(bytes: seq<Byte>): Option<Gif> {
    if |bytes| < 13 || bytes[..6] != SIGNATURE || bytes[10] < 128 then None
    else
      var size := 3 * Pow2(bytes[10] % 8 + 1);
      if |bytes| < 13 + size then None
      else
        match ReadBlocks(bytes[13 + size..], ReadTable(bytes[13..13 + size]))
        case None => None
        case Some(frames) => Some(Gif(Word(bytes[6], bytes[7]), Word(bytes[8], bytes[9]), frames))
  }

  // ----- the writer

  datatype GifError = NoFrames | MixedDimensions | DimensionTooLarge

  /** `Math.log2` of a power of two. */
  function Log2(n: nat): nat {
    if n <= 1 then 0 else 1 + Log2(n / 2)
  }

  lemma {:induction false} Log2OfPower(k: nat)
    ensures Log2(Pow2(k)) == k && Pow2(k) >= 1
  {
    if k > 0 {
      Log2OfPower(k - 1);
      assert Pow2(k) == 2 * Pow2(k - 1);
    }
  }

  /** `nextGifTableSize`: the least power of two that holds the palette, between 2 and 256. */
  method NextTableSize(colorCount: nat) returns (size: nat)
    requires colorCount <= MAX_COLORS
    ensures var log := Log2(size);
            && 1 <= log <= 8 && size == Pow2(log) && colorCount <= size
            && (log > 1 ==> Pow2(log - 1) < colorCount)
  {
    size := 2;
    ghost var log := 1;
    SmallPowers();
    while size < colorCount && size < 256
      invariant 1 <= log <= 8 && size == Pow2(log)
      invariant log > 1 ==> Pow2(log - 1) < colorCount
      decreases 256 - size
    {
      DoubleSize(log);
      size := Shl(size, 1);
      log := log + 1;
    }
    Log2OfPower(log);
    if size >= 256 {
      Pow2Mono(log, 8);
    }
  }

  /** `0x80 | 0x70 | Math.max(0, Math.log2(tableSize) - 1)` */
  function PackedField(log: nat): int {
    Or(Or(0x80, 0x70), if log > 1 then log - 1 else 0)
  }

  lemma PackedFieldValue(log: nat)
    requires 1 <= log <= 8
    ensures PackedField(log) == 0xf0 + (log - 1)
  {
    assert BitOr(1, 0) == 1;
    assert BitOr(8, 7) == 15;
    assert BitOr(0x10, 0xe) == 0x1e by { assert BitOr(4, 3) == 7; }
    assert BitOr(0x80, 0x70) == 0xf0 by { assert BitOr(0x40, 0x38) == 0x78; assert BitOr(0x20, 0x1c) == 0x3c; }
    BitOrLow(log - 1);
  }

  lemma BitOrLow(k: nat)
    requires k < 16
    ensures BitOr(0xf0, k) == 0xf0 + k
  {
    assert Pow2(4) == 16 && Scale(15, 4) == 0xf0;
    BitOrCommutes(0xf0, k);
    BitOrDisjoint(k, 15, 4);
  }

  lemma DoubleSize(log: nat)
    requires 1 <= log <= 8 && Pow2(log) < 256
    ensures log < 8 && Shl(Pow2(log), 1) == Pow2(log + 1) > Pow2(log)
  {
    SmallPowers();
    Pow2Mono(0, log);
    ShlSmall(Pow2(log), 1, Pow2(log + 1)) by { Pow2Mono(log + 1, 12); }
  }

  /** `Math.max(2, Math.ceil(Math.log2(Math.max(2, n))))`, the minimum code size. */
  function CeilLog2(n: nat, from: nat): (k: nat)
    requires from <= 8 && n <= MAX_COLORS
    ensures from <= k <= 8 && n <= Pow2(k)
    decreases 8 - from
  {
    SmallPowers();
    if n <= Pow2(from) then from else CeilLog2(n, from + 1)
  }

  function WordBytes(v: nat): seq<Byte>
    requires v < 0x1_0000
  {
    [v % 256, v / 256]
  }

  // ----- block prefixes: what a reader takes from the front of the block stream

  function Prefix(frames: seq<Frame>, later: Option<seq<Frame>>): Option<seq<Frame>> {
    match later
    case None => None
    case Some(more) => Some(frames + more)
  }

  /** Whatever follows `body`, reading it yields `frames` and goes on after it. */
  ghost predicate Reads(body: seq<Byte>, table: seq<Rgb>, frames: seq<Frame>) {
    forall rest :: ReadBlocks(body + rest, table) == Prefix(frames, ReadBlocks(rest, table))
  }

  lemma ReadsAppend(a: seq<Byte>, b: seq<Byte>, table: seq<Rgb>, before: seq<Frame>, after: seq<Frame>)
    requires Reads(a, table, before) && Reads(b, table, after)
    ensures Reads(a + b, table, before + after)
  {
    hide ReadBlocks;
    forall rest
      ensures ReadBlocks(a + b + rest, table) == Prefix(before + after, ReadBlocks(rest, table))
    {
      assert a + b + rest == a + (b + rest);
      var later := ReadBlocks(rest, table);
      if later.Some? {
        assert before + (after + later.value) == before + after + later.value;
      }
    }
  }

  function Block(x: seq<Byte>): seq<Byte>
    requires |x| < 256
  {
    [|x|] + x
  }

  /** An extension with two data sub-blocks, as the loop extension has. */
  lemma ReadsExtension2(kind: Byte, x: seq<Byte>, y: seq<Byte>, table: seq<Rgb>)
    requires 0 < |x| < 256 && 0 < |y| < 256
    ensures Reads([0x21, kind] + Block(x) + Block(y) + [0], table, [])
  {
    forall rest
      ensures ReadBlocks([0x21, kind] + Block(x) + Block(y) + [0] + rest, table)
           == Prefix([], ReadBlocks(rest, table))
    {
      hide ReadSubBlocks, ReadBlocks, Prefix;
      var two: seq<Byte> := Block(y) + ([0] + rest);
      ReadLastBlock(y, rest);
      ReadOneSubBlock(x, two, Parsed(y, rest));
      SkipExtension(kind, Block(x) + two, table, Parsed(x + y, rest));
      assert [0x21, kind] + Block(x) + Block(y) + [0] + rest == [0x21, kind] + (Block(x) + two);
    }
  }

  lemma ReadLastBlock(x: seq<Byte>, rest: seq<Byte>)
    requires 0 < |x| < 256
    ensures ReadSubBlocks(Block(x) + ([0] + rest)) == Some(Parsed(x, rest))
  {
    hide ReadSubBlocks;
    SubBlocksEndReads(rest);
    SubBlocksEnd();
    ReadOneSubBlock(x, [0] + rest, Parsed([], rest));
    assert x + [] == x;
  }

  lemma ReadsExtension1(kind: Byte, x: seq<Byte>, table: seq<Rgb>)
    requires 0 < |x| < 256
    ensures Reads([0x21, kind] + Block(x) + [0], table, [])
  {
    forall rest
      ensures ReadBlocks([0x21, kind] + Block(x) + [0] + rest, table) == Prefix([], ReadBlocks(rest, table))
    {
      hide ReadSubBlocks, ReadBlocks, Prefix;
      ReadLastBlock(x, rest);
      SkipExtension(kind, Block(x) + ([0] + rest), table, Parsed(x, rest));
      assert [0x21, kind] + Block(x) + [0] + rest == [0x21, kind] + (Block(x) + ([0] + rest));
    }
  }

  lemma SkipExtension(kind: Byte, blocks: seq<Byte>, table: seq<Rgb>, p: Parsed<seq<Byte>>)
    requires ReadSubBlocks(blocks) == Some(p) && |p.rest| < |blocks|
    ensures ReadBlocks([0x21, kind] + blocks, table) == Prefix([], ReadBlocks(p.rest, table))
  {
    var bytes: seq<Byte> := [0x21, kind] + blocks;
    assert bytes[2..] == blocks;
    var later := ReadBlocks(p.rest, table);
    if later.Some? {
      assert [] + later.value == later.value;
    }
  }

  /** What a viewer shows for one frame: every pixel in its nearest palette colour. */
  ghost function Shown(scene: seq<Rgba>, palette: seq<Rgba>, width: nat, height: nat): Frame
    requires palette != []
  {
    Frame(0, 0, width, height,
          seq(|scene|, k requires 0 <= k < |scene| => Opaque(palette[Nearest(scene[k], palette)])))
  }

  ghost function AllShown(scenes: seq<seq<Rgba>>, palette: seq<Rgba>, width: nat, height: nat): (s: seq<Frame>)
    requires palette != []
    ensures |s| == |scenes| && forall i :: 0 <= i < |s| ==> s[i] == Shown(scenes[i], palette, width, height)
  {
    seq(|scenes|, i requires 0 <= i < |scenes| => Shown(scenes[i], palette, width, height))
  }

  ghost predicate TableHolds(table: seq<Rgb>, palette: seq<Rgba>) {
    |palette| <= |table| && forall i :: 0 <= i < |palette| ==> table[i] == Opaque(palette[i])
  }

  lemma ReadsImage(descriptor: seq<Byte>, data: seq<Byte>, scene: seq<Rgba>, palette: seq<Rgba>,
                   table: seq<Rgb>, width: nat, height: nat)
    requires width < 0x1_0000 && height < 0x1_0000 && |scene| == width * height
    requires descriptor == [0x2c, 0, 0, 0, 0] + WordBytes(width) + WordBytes(height) + [0]
    requires palette != [] && TableHolds(table, palette)
    requires forall rest :: ReadImageData(data + rest) == Some(Parsed(Quantized(scene, palette), rest))
    ensures Reads(descriptor + data, table, [Shown(scene, palette, width, height)])
  {
    var shown := Shown(scene, palette, width, height);
    forall rest
      ensures ReadBlocks(descriptor + data + rest, table) == Prefix([shown], ReadBlocks(rest, table))
    {
      hide ReadBlocks, ReadImageData, ReadImage, Nearest, Prefix;
      var bytes := descriptor + data + rest;
      var image := bytes[1..];
      SplitImage(descriptor, data, rest);
      ReadOneImage(image, Quantized(scene, palette), rest, table, width, height);
      ShownColors(scene, palette, table, width, height);
      ImageBlock(bytes, table);
    }
  }

  lemma SplitImage(descriptor: seq<Byte>, data: seq<Byte>, rest: seq<Byte>)
    requires |descriptor| == 10
    ensures var image := (descriptor + data + rest)[1..];
            |image| >= 9 + |rest| && image[..9] == descriptor[1..] && image[9..] == data + rest
  {
  }

  lemma ShownColors(scene: seq<Rgba>, palette: seq<Rgba>, table: seq<Rgb>, width: nat, height: nat)
    requires palette != [] && TableHolds(table, palette)
    ensures var indices := Quantized(scene, palette);
            && InTable(indices, table)
            && Shown(scene, palette, width, height) == Frame(0, 0, width, height, Colors(indices, table))
  {
    hide Nearest;
  }

  lemma ReadOneImage(image: seq<Byte>, indices: seq<nat>, rest: seq<Byte>, table: seq<Rgb>, width: nat, height: nat)
    requires width < 0x1_0000 && height < 0x1_0000 && |indices| == width * height
    requires |image| >= 9 + |rest|
    requires image[..9] == [0, 0, 0, 0] + WordBytes(width) + WordBytes(height) + [0]
    requires ReadImageData(image[9..]) == Some(Parsed(indices, rest))
    requires InTable(indices, table)
    ensures ReadImage(image, table) == Some(Parsed(Frame(0, 0, width, height, Colors(indices, table)), rest))
  {
    hide ReadImageData;
    var head := image[..9];
    assert forall i :: 0 <= i < 9 ==> image[i] == head[i];
    assert head[4] == width % 256 && head[5] == width / 256 && head[6] == height % 256
        && head[7] == height / 256 && head[8] == 0;
    assert head[0] == head[1] == head[2] == head[3] == 0;
    assert Word(head[4], head[5]) == width && Word(head[6], head[7]) == height;
  }

  lemma ImageBlock(bytes: seq<Byte>, table: seq<Rgb>)
    requires bytes != [] && bytes[0] == 0x2c && ReadImage(bytes[1..], table).Some?
    ensures var p := ReadImage(bytes[1..], table).value;
            ReadBlocks(bytes, table) == Prefix([p.data], ReadBlocks(p.rest, table))
  {
  }

  lemma ReadTrailer(body: seq<Byte>, table: seq<Rgb>, frames: seq<Frame>)
    requires Reads(body, table, frames)
    ensures ReadBlocks(body + [0x3b], table) == Some(frames)
  {
    assert ReadBlocks([0x3b], table) == Some([]);
    assert frames + [] == frames;
  }

  lemma ReadHeader(screen: seq<Byte>, colors: seq<Byte>, blocks: seq<Byte>, log: nat,
                   width: nat, height: nat, frames: seq<Frame>)
    requires width < 0x1_0000 && height < 0x1_0000 && 1 <= log <= 8 && |colors| == 3 * Pow2(log)
    requires screen == WordBytes(width) + WordBytes(height) + [0xf0 + (log - 1), 0, 0]
    requires ReadBlocks(blocks, ReadTable(colors)) == Some(frames)
    ensures ReadGif(SIGNATURE + screen + colors + blocks) == Some(Gif(width, height, frames))
  {
    hide ReadBlocks, ReadTable;
    var bytes := SIGNATURE + screen + colors + blocks;
    assert bytes[..6] == SIGNATURE && bytes[6..13] == screen;
    assert forall i :: 0 <= i < 7 ==> bytes[6 + i] == screen[i];
    assert bytes[10] == screen[4] && bytes[10] % 8 + 1 == log;
    assert bytes[6] == screen[0] && bytes[7] == screen[1] && bytes[8] == screen[2] && bytes[9] == screen[3];
    assert bytes[13..13 + |colors|] == colors && bytes[13 + |colors|..] == blocks;
  }

  // ----- the writer itself

  ghost predicate SameSize(frames: seq<Bitmap>) {
    forall i :: 0 <= i < |frames| ==> frames[i].width == frames[0].width && frames[i].height == frames[0].height
  }

  /** The global colour table: the palette's colours, zero-filled up to the table size. */
  method ColorTable(palette: seq<Rgba>, tableSize: nat) returns (bytes: seq<Byte>)
    requires |palette| <= tableSize
    ensures |bytes| == 3 * tableSize && TableHolds(ReadTable(bytes), palette)
  {
    var buffer := new Byte[tableSize * 3](_ => 0);
    for index := 0 to |palette|
      invariant forall i :: 0 <= i < index ==>
                  Rgb(buffer[3 * i], buffer[3 * i + 1], buffer[3 * i + 2]) == Opaque(palette[i])
    {
      var offset := index * 3;
      buffer[offset] := palette[index].r;
      buffer[offset + 1] := palette[index].g;
      buffer[offset + 2] := palette[index].b;
    }
    bytes := buffer[..];
    assert forall i :: 0 <= i < |palette| ==> ReadTable(bytes)[i] == Opaque(palette[i]);
  }

  /** The blocks of one frame: graphic control extension, descriptor and image data. */
  method EncodeFrame(frame: Bitmap, palette: seq<Rgba>, indices: map<Rgba, nat>, minCodeSize: nat,
                     delayCs: nat, ghost table: seq<Rgb>)
    returns (part: seq<Byte>)
    requires frame.Valid() && frame.width < 0x1_0000 && frame.height < 0x1_0000
    requires 0 < |palette| <= MAX_COLORS && NoDuplicates(palette) && IsIndexOf(indices, palette)
    requires TableHolds(table, palette) && 2 <= minCodeSize <= 8 && |palette| <= Pow2(minCodeSize)
    ensures Reads(part, table, [Shown(frame.Pixels(), palette, frame.width, frame.height)])
    ensures |part| >= 8 && part[..4] == [0x21, 0xf9, 4, 0x08] && Word(part[4], part[5]) == delayCs % 0x1_0000 && part[6] == part[7] == 0
  {
    hide Reads;
    var fields: seq<Byte> := [0x08, delayCs % 256, delayCs / 256 % 256, 0x00];
    var control := [0x21, 0xf9] + Block(fields) + [0x00];
    ReadsExtension1(0xf9, fields, table);
    var descriptor := [0x2c, 0, 0, 0, 0] + WordBytes(frame.width) + WordBytes(frame.height) + [0];
    var output := MapFrame(frame, palette, indices);
    var data := EncodeImageData(output, minCodeSize);
    ReadsImage(descriptor, data, frame.Pixels(), palette, table, frame.width, frame.height);
    part := control + (descriptor + data);
    assert part[..8] == control && control == [0x21, 0xf9, 4, 0x08, delayCs % 256, delayCs / 256 % 256, 0, 0];
    TwoBytes(delayCs);
    ghost var shown := [Shown(frame.Pixels(), palette, frame.width, frame.height)];
    ReadsAppend(control, descriptor + data, table, [], shown);
    assert [] + shown == shown;
  }

  /** Little endian, and modulo two to the 16. */
  lemma TwoBytes(n: nat)
    ensures Word(n % 256, n / 256 % 256) == n % 0x1_0000
  {
  }

  /** `encodeGifAnimation`. A reader of the result sees, in every frame and pixel, the
      colour of the first nearest palette entry. */
  method EncodeGifAnimation(frames: seq<Bitmap>, delayCs: nat, loopCount: nat)
    returns (r: Result<seq<Byte>, GifError>)
    requires AllValid(frames)
    ensures r.Ok? <==> frames != [] && SameSize(frames) && frames[0].width < 0x1_0000 && frames[0].height < 0x1_0000
    ensures r == Err(NoFrames) <==> frames == []
    ensures r == Err(MixedDimensions) <==> !SameSize(frames)
    ensures r.Ok? ==>
              var scenes, palette := Scenes(frames), Palette(Concat(Scenes(frames)));
              ReadGif(r.value) == Some(Gif(frames[0].width, frames[0].height,
                AllShown(scenes, palette, frames[0].width, frames[0].height)))
  {
    hide ReadGif, AllShown, Palette, Concat;
    if |frames| == 0 {
      return Err(NoFrames);
    }
    var width, height := frames[0].width, frames[0].height;
    for i := 0 to |frames|
      invariant forall j :: 0 <= j < i ==> frames[j].width == width && frames[j].height == height
    {
      if frames[i].width != width || frames[i].height != height {
        return Err(MixedDimensions);
      }
    }
    var palette, indices := CollectPalette(frames);
    if width >= 0x1_0000 || height >= 0x1_0000 {
      return Err(DimensionTooLarge);
    }
    ghost var scenes := Scenes(frames);
    PaletteIsExact(Concat(scenes));
    var bytes := EncodeParts(frames, palette, indices, delayCs, loopCount);
    assert forall i :: 0 <= i < |frames| ==> frames[i].Pixels() == scenes[i];
    assert scenes == Scenes(frames);
    r := Ok(bytes);
  }

  method EncodeParts(frames: seq<Bitmap>, palette: seq<Rgba>, indices: map<Rgba, nat>, delayCs: nat, loopCount: nat)
    returns (bytes: seq<Byte>)
    requires AllValid(frames) && frames != [] && SameSize(frames)
    requires frames[0].width < 0x1_0000 && frames[0].height < 0x1_0000
    requires 0 < |palette| <= MAX_COLORS && NoDuplicates(palette) && IsIndexOf(indices, palette)
    ensures ReadGif(bytes) == Some(Gif(frames[0].width, frames[0].height, AllShown(Scenes(frames), palette,
                                       frames[0].width, frames[0].height)))
  {
    hide Reads, ReadBlocks, ReadGif, AllShown, JsInt.Scale, Log2, PackedField, CeilLog2;
    var width, height := frames[0].width, frames[0].height;
    var tableSize := NextTableSize(|palette|);
    var minCodeSize := CeilLog2(|palette|, 2);
    PackedFieldValue(Log2(tableSize));
    var packed: Byte := PackedField(Log2(tableSize));
    var screen := WordBytes(width) + WordBytes(height) + [packed, 0, 0];
    var colors := ColorTable(palette, tableSize);
    ghost var scenes, table := Scenes(frames), ReadTable(colors);
    var loops: seq<Byte> := [0x01, loopCount % 256, loopCount / 256 % 256];
    TwoBytes(loopCount);
    assert loops[0] == 1 && Word(loops[1], loops[2]) == loopCount % 0x1_0000;
    var body := EncodeBlocks(frames, palette, indices, minCodeSize, delayCs, loops, scenes, table);
    ghost var shown := AllShown(scenes, palette, width, height);
    ReadTrailer(body, table, shown);
    ReadHeader(screen, colors, body + [0x3b], Log2(tableSize), width, height, shown);
    bytes := SIGNATURE + screen + colors + (body + [0x3b]);
    assert forall i :: 0 <= i < |frames| ==> frames[i].Pixels() == scenes[i];
    assert scenes == Scenes(frames);
  }

  const NETSCAPE: seq<Byte> := [0x4e, 0x45, 0x54, 0x53, 0x43, 0x41, 0x50, 0x45, 0x32, 0x2e, 0x30]

  method EncodeBlocks(frames: seq<Bitmap>, palette: seq<Rgba>, indices: map<Rgba, nat>, minCodeSize: nat,
                      delayCs: nat, loops: seq<Byte>, ghost scenes: seq<seq<Rgba>>, ghost table: seq<Rgb>)
    returns (body: seq<Byte>)
    requires AllValid(frames) && frames != [] && SameSize(frames) && |loops| == 3
    requires frames[0].width < 0x1_0000 && frames[0].height < 0x1_0000 && scenes == Scenes(frames)
    requires 0 < |palette| <= MAX_COLORS && NoDuplicates(palette) && IsIndexOf(indices, palette)
    requires TableHolds(table, palette) && 2 <= minCodeSize <= 8 && |palette| <= Pow2(minCodeSize)
    ensures Reads(body, table, AllShown(scenes, palette, frames[0].width, frames[0].height))
  {
    hide Reads;
    ghost var shown := AllShown(scenes, palette, frames[0].width, frames[0].height);
    body := [0x21, 0xff] + Block(NETSCAPE) + Block(loops) + [0x00];
    ReadsExtension2(0xff, NETSCAPE, loops, table);
    for i := 0 to |frames|
      invariant forall j :: 0 <= j < |frames| ==> frames[j].Pixels() == scenes[j]
      invariant Reads(body, table, shown[..i])
    {
      var part := EncodeFrame(frames[i], palette, indices, minCodeSize, delayCs, table);
      ReadsAppend(body, part, table, shown[..i], [shown[i]]);
      assert shown[..i] + [shown[i]] == shown[..i + 1];
      body := body + part;
    }
    assert shown[..|frames|] == shown;
  }

  lemma {:induction false} ConcatElements(scenes: seq<seq<Rgba>>, c: Rgba)
    ensures c in Concat(scenes) <==> exists i :: 0 <= i < |scenes| && c in scenes[i]
  {
    if scenes != [] {
      var n := |scenes| - 1;
      ConcatElements(scenes[..n], c);
      assert forall i :: 0 <= i < n ==> scenes[..n][i] == scenes[i];
    }
  }

  /** The palette gives every pixel back unchanged exactly when the animation has at
      most 256 distinct colours. */
  lemma LosslessWithinPalette(scenes: seq<seq<Rgba>>)
    ensures var palette := Palette(Concat(scenes));
            (forall i, k :: 0 <= i < |scenes| && 0 <= k < |scenes[i]| ==>
               palette[Nearest(scenes[i][k], palette)] == scenes[i][k])
            <==> |Elements(Concat(scenes))| <= MAX_COLORS
  {
    hide Distinct, Palette;
    var pixels := Concat(scenes);
    var palette := Palette(pixels);
    PaletteIsExact(pixels);
    if |Elements(pixels)| <= MAX_COLORS {
      forall i, k | 0 <= i < |scenes| && 0 <= k < |scenes[i]|
        ensures palette[Nearest(scenes[i][k], palette)] == scenes[i][k]
      {
        ConcatElements(scenes, scenes[i][k]);
        assert scenes[i][k] in Elements(pixels);
        var j :| 0 <= j < |palette| && palette[j] == scenes[i][k];
        NearestOfEntry(palette, j);
      }
    } else {
      var missing :| missing in Elements(pixels) && missing !in Elements(palette);
      ConcatElements(scenes, missing);
      var i :| 0 <= i < |scenes| && missing in scenes[i];
      var k :| 0 <= k < |scenes[i]| && scenes[i][k] == missing;
      assert palette[Nearest(missing, palette)] in Elements(palette);
    }
  }

  // ----- when a viewer sees every pixel's own red, green and blue

  /** Every pixel in its own colour. */
  function Own(scene: seq<Rgba>, width: nat, height: nat): Frame {
    Frame(0, 0, width, height, seq(|scene|, k requires 0 <= k < |scene| => Opaque(scene[k])))
  }

  function AllOwn(scenes: seq<seq<Rgba>>, width: nat, height: nat): (s: seq<Frame>)
    ensures |s| == |scenes| && forall i :: 0 <= i < |s| ==> s[i] == Own(scenes[i], width, height)
  {
    seq(|scenes|, i requires 0 <= i < |scenes| => Own(scenes[i], width, height))
  }

  /** Every colour outside the palette has a first nearest entry of the same red, green and blue. */
  ghost predicate ShadesKept(pixels: seq<Rgba>) {
    var palette := Palette(pixels);
    forall c :: c in pixels && c !in palette ==> Opaque(palette[Nearest(c, palette)]) == Opaque(c)
  }

  lemma KeptEverywhere(pixels: seq<Rgba>)
    ensures var palette := Palette(pixels);
            ShadesKept(pixels) <==> forall c :: c in pixels ==> Opaque(palette[Nearest(c, palette)]) == Opaque(c)
  {
    hide Distinct, Palette;
    var palette := Palette(pixels);
    PaletteIsExact(pixels);
    forall c | c in palette
      ensures palette[Nearest(c, palette)] == c
    {
      var j: nat :| j < |palette| && palette[j] == c;
      NearestOfEntry(palette, j);
    }
  }

  /** A viewer sees every pixel's own red, green and blue if and only if no colour outside the
      palette loses them. */
  lemma LosslessRoundTripIff(scenes: seq<seq<Rgba>>, width: nat, height: nat)
    ensures AllShown(scenes, Palette(Concat(scenes)), width, height) == AllOwn(scenes, width, height)
            <==> ShadesKept(Concat(scenes))
  {
    var pixels := Concat(scenes);
    var palette := Palette(pixels);
    KeptEverywhere(pixels);
    PaletteIsExact(pixels);
    hide Palette, Distinct, Concat, Nearest, ShadesKept;
    var shown, own := AllShown(scenes, palette, width, height), AllOwn(scenes, width, height);
    if shown == own {
      forall c | c in pixels
        ensures Opaque(palette[Nearest(c, palette)]) == Opaque(c)
      {
        ConcatElements(scenes, c);
        var i: nat :| i < |scenes| && c in scenes[i];
        var k: nat :| k < |scenes[i]| && scenes[i][k] == c;
        assert shown[i].pixels[k] == own[i].pixels[k];
      }
    }
    if forall c :: c in pixels ==> Opaque(palette[Nearest(c, palette)]) == Opaque(c) {
      forall i | 0 <= i < |scenes|
        ensures shown[i] == own[i]
      {
        forall k | 0 <= k < |scenes[i]|
          ensures Opaque(palette[Nearest(scenes[i][k], palette)]) == Opaque(scenes[i][k])
        {
          ConcatElements(scenes, scenes[i][k]);
        }
        assert shown[i].pixels == own[i].pixels;
      }
    }
  }

  /** So it is with at most 256 colours. */
  lemma LosslessRoundTrip(scenes: seq<seq<Rgba>>, width: nat, height: nat)
    requires |Elements(Concat(scenes))| <= MAX_COLORS
    ensures AllShown(scenes, Palette(Concat(scenes)), width, height) == AllOwn(scenes, width, height)
  {
    hide Palette, Concat, Distinct, AllShown, AllOwn, Nearest;
    PaletteIsExact(Concat(scenes));
    assert forall c :: c in Concat(scenes) ==> c in Elements(Concat(scenes));
    LosslessRoundTripIff(scenes, width, height);
  }

  function Shades(colours: set<Rgba>): set<Rgb> {
    set c | c in colours :: Opaque(c)
  }

  lemma {:induction false} ShadesCount(colours: set<Rgba>)
    ensures |Shades(colours)| <= |colours|
    decreases |colours|
  {
    if colours != {} {
      var c :| c in colours;
      ShadesCount(colours - {c});
      assert Shades(colours) == Shades(colours - {c}) + {Opaque(c)};
    } else {
      assert Shades(colours) == {};
    }
  }

  /** And never with more than 256 different values of red, green and blue. */
  lemma MoreShadesLose(scenes: seq<seq<Rgba>>, width: nat, height: nat)
    requires |Shades(Elements(Concat(scenes)))| > MAX_COLORS
    ensures AllShown(scenes, Palette(Concat(scenes)), width, height) != AllOwn(scenes, width, height)
  {
    var pixels := Concat(scenes);
    var palette := Palette(pixels);
    hide Palette, Concat, Distinct, AllShown, AllOwn, Nearest, ShadesKept;
    LosslessRoundTripIff(scenes, width, height);
    KeptEverywhere(pixels);
    PaletteIsExact(pixels);
    if ShadesKept(pixels) {
      forall x | x in Shades(Elements(pixels))
        ensures x in Shades(Elements(palette))
      {
        var c :| c in Elements(pixels) && x == Opaque(c);
        assert palette[Nearest(c, palette)] in Elements(palette);
      }
      SubsetSize(Shades(Elements(pixels)), Shades(Elements(palette)));
      ShadesCount(Elements(palette));
      NoDuplicatesSize(palette);
    }
  }

  /** When all pixels have the same alpha value the bound of 256 colours is exact. */
  lemma OneAlphaExact(scenes: seq<seq<Rgba>>, width: nat, height: nat, alpha: Byte)
    requires forall c :: c in Concat(scenes) ==> c.a == alpha
    ensures AllShown(scenes, Palette(Concat(scenes)), width, height) == AllOwn(scenes, width, height)
            <==> |Elements(Concat(scenes))| <= MAX_COLORS
  {
    hide Palette, Concat, AllShown, AllOwn, Nearest;
    var colours := Elements(Concat(scenes));
    OneAlphaShades(colours, alpha);
    if |colours| <= MAX_COLORS {
      LosslessRoundTrip(scenes, width, height);
    } else {
      MoreShadesLose(scenes, width, height);
    }
  }

  lemma {:induction false} OneAlphaShades(colours: set<Rgba>, alpha: Byte)
    requires forall c :: c in colours ==> c.a == alpha
    ensures |Shades(colours)| == |colours|
    decreases |colours|
  {
    if colours != {} {
      var c :| c in colours;
      OneAlphaShades(colours - {c}, alpha);
      assert Shades(colours) == Shades(colours - {c}) + {Opaque(c)};
      assert Opaque(c) !in Shades(colours - {c});
    } else {
      assert Shades(colours) == {};
    }
  }

  /** The first `n` greys. */
  function Greys(n: nat): (s: seq<Rgba>)
    requires n <= 256
    ensures |s| == n && forall i :: 0 <= i < n ==> s[i] == Rgba(i, i, i, 255)
  {
    seq(n, i requires 0 <= i < n => Rgba(i, i, i, 255))
  }

  lemma {:induction false} GreysDistinct(n: nat)
    requires n <= 256
    ensures Distinct(Greys(n)) == Greys(n) && NoDuplicates(Greys(n))
  {
    if n > 0 {
      GreysDistinct(n - 1);
      assert Greys(n)[..n - 1] == Greys(n - 1);
      assert Greys(n) == Greys(n - 1) + [Greys(n)[n - 1]];
    }
  }

  /** All 256 greys and a transparent black are 257 colours, and yet nothing is lost: the black
      that is not in the palette is next to the one that is. */
  lemma OneMoreIsKept(width: nat, height: nat)
    ensures var scene := Greys(256) + [Rgba(0, 0, 0, 254)];
            && |Elements(Concat([scene]))| == 257
            && AllShown([scene], Palette(Concat([scene])), width, height) == AllOwn([scene], width, height)
  {
    hide *;
    var scene := Greys(256) + [Rgba(0, 0, 0, 254)];
    OneScene(scene);
    DarkPalette(scene);
    DarkKept(scene);
    LosslessRoundTripIff([scene], width, height);
  }

  lemma DarkPalette(scene: seq<Rgba>)
    requires scene == Greys(256) + [Rgba(0, 0, 0, 254)]
    ensures Palette(scene) == Greys(256) && |Elements(scene)| == 257
  {
    hide Greys;
    var greys, dark := Greys(256), Rgba(0, 0, 0, 254);
    GreysDistinct(256);
    NoDuplicatesSize(greys);
    assert Elements(scene) == Elements(greys) + {dark} && dark !in greys;
    assert scene[..256] == greys;
  }

  lemma DarkKept(scene: seq<Rgba>)
    requires scene == Greys(256) + [Rgba(0, 0, 0, 254)] && Palette(scene) == Greys(256)
    ensures ShadesKept(scene)
  {
    hide Greys, Palette, Nearest, Distance;
    var greys, dark := Greys(256), Rgba(0, 0, 0, 254);
    forall i | 0 < i < 256
      ensures Distance(dark, greys[0]) < Distance(dark, greys[i])
    {
      Farther(i);
    }
    NearestIsUnique(dark, greys, 0, Nearest(dark, greys));
  }

  lemma Farther(i: nat)
    requires 0 < i < 256
    ensures Distance(Rgba(0, 0, 0, 254), Rgba(0, 0, 0, 255)) < Distance(Rgba(0, 0, 0, 254), Rgba(i, i, i, 255))
  {
    SqZero(0 - i as int);
  }

  lemma OneScene(scene: seq<Rgba>)
    ensures Concat([scene]) == scene
  {
    assert [scene][..0] == [];
    assert [] + scene == scene;
  }
}
