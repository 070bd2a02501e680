/** The PNG writer against a reader that follows RFC 2083. Deflate is foreign code: the
    writer takes it as a parameter, and the reader takes an inverse of it. */
module Png {
  import opened JsInt
  import opened Options
  import opened Bitmaps
  import opened GifLzw
  import opened Crc

  const LIMIT := 0x1_0000_0000
  const SIGNATURE: seq<Byte> := [137, 80, 78, 71, 13, 10, 26, 10]
  const IHDR: seq<Byte> := [0x49, 0x48, 0x44, 0x52]
  const IDAT: seq<Byte> := [0x49, 0x44, 0x41, 0x54]
  const IEND: seq<Byte> := [0x49, 0x45, 0x4e, 0x44]

  // ----- big-endian words

  function Bytes32(v: nat): seq<Byte>
    requires v < LIMIT
  {
    [v / 256 / 256 / 256, v / 256 / 256 % 256, v / 256 % 256, v % 256]
  }

  function Word32(b: seq<Byte>): nat
    requires |b| == 4
  {
    ((b[0] as int * 256 + b[1] as int) * 256 + b[2] as int) * 256 + b[3] as int
  }

  lemma WordRoundTrip(v: nat)
    requires v < LIMIT
    ensures Word32(Bytes32(v)) == v
  {
  }

  // ----- the reader

  datatype Chunk = Chunk(kind: seq<Byte>, data: seq<Byte>)
  datatype Image = Image(width: nat, height: nat, bytes: seq<Byte>)

  /** Chunk layout of section 3.2: length, type, data and the CRC of type and data. */
  function ReadChunk(bytes: seq<Byte>): (r: Option<Parsed<Chunk>>)
    ensures r.Some? ==> |r.value.rest| < |bytes|
  {
    if |bytes| < 12 then None
    else
      var n := Word32(bytes[..4]);
      if n >= 0x8000_0000 || |bytes| < 12 + n then None
      else if Word32(bytes[8 + n..12 + n]) != BitwiseCrc(bytes[4..8 + n]) as int then None
      else Some(Parsed(Chunk(bytes[4..8], bytes[8..8 + n]), bytes[12 + n..]))
  }

  /** The data of consecutive IDAT chunks up to IEND. */
  function ReadData(bytes: seq<Byte>): Option<seq<Byte>>
    decreases |bytes|
  {
    match ReadChunk(bytes)
    case None => None
    case Some(p) =>
      if p.data.kind == IEND then Some([])
      else if p.data.kind != IDAT then None
      else
        match ReadData(p.rest)
        case None => None
        case Some(more) => Some(p.data.data + more)
  }

  /** Scanlines with filter type 0 (section 6.2): a zero byte, then the row itself. */
  function Unfilter(raw: seq<Byte>, stride: nat, height: nat): Option<seq<Byte>>
    decreases height
  {
    if height == 0 then if raw == [] then Some([]) else None
    else if |raw| < stride + 1 || raw[|raw| - stride - 1] != 0 then None
    else
      match Unfilter(raw[..|raw| - stride - 1], stride, height - 1)
      case None => None
      case Some(rows) => Some(rows + raw[|raw| - stride..])
  }

  /** 8-bit RGBA images without interlacing; sizes limited as in section 4.1.1. */
  function ReadPng(bytes: seq<Byte>, inflate: seq<Byte> -> Option<seq<Byte>>): Option<Image> {
    if |bytes| < 8 || bytes[..8] != SIGNATURE then None
    else
      match ReadChunk(bytes[8..])
      case None => None
      case Some(p) =>
        var h := p.data.data;
        if p.data.kind != IHDR || |h| != 13 || h[8..] != [8, 6, 0, 0, 0] then None
        else
          var width, height := Word32(h[..4]), Word32(h[4..8]);
          if width == 0 || height == 0 || width >= 0x8000_0000 || height >= 0x8000_0000 then None
          else
            match ReadData(p.rest)
            case None => None
            case Some(data) =>
              match inflate(data)
              case None => None
              case Some(raw) =>
                match Unfilter(raw, width * 4, height)
                case None => None
                case Some(rows) => Some(Image(width, height, rows))
  }

  // ----- the writer

  function ChunkBytes(kind: seq<Byte>, data: seq<Byte>): seq<Byte>
    requires |data| < LIMIT
  {
    Bytes32(|data|) + kind + data + Bytes32(BitwiseCrc(kind + data) as int)
  }

  /** `chunk`; a length beyond 32 bits makes the original throw. */
  method WriteChunk(kind: seq<Byte>, data: seq<Byte>) returns (r: Option<seq<Byte>>)
    ensures r == if |data| < LIMIT then Some(ChunkBytes(kind, data)) else None
  {
    hide BitwiseCrc, Bytes32;
    if |data| >= LIMIT {
      return None;
    }
    var crcInput := kind + data;
    var crc := Crc32(crcInput);
    r := Some(Bytes32(|data|) + kind + data + Bytes32(crc as int));
  }

  lemma ChunkReadsBack(kind: seq<Byte>, data: seq<Byte>, rest: seq<Byte>)
    requires |kind| == 4 && |data| < LIMIT
    ensures ReadChunk(ChunkBytes(kind, data) + rest) ==
            if |data| < 0x8000_0000 then Some(Parsed(Chunk(kind, data), rest)) else None
  {
    hide BitwiseCrc, Word32, Bytes32;
    var n, crc := |data|, BitwiseCrc(kind + data) as int;
    var bytes := ChunkBytes(kind, data) + rest;
    FourBytes(n);
    FourBytes(crc);
    assert bytes[..4] == Bytes32(n);
    WordRoundTrip(n);
    WordRoundTrip(crc);
    if n < 0x8000_0000 {
      assert bytes[4..8 + n] == kind + data && bytes[8 + n..12 + n] == Bytes32(crc);
      assert bytes[4..8] == kind && bytes[8..8 + n] == data && bytes[12 + n..] == rest;
    }
  }

  lemma FourBytes(v: nat)
    requires v < LIMIT
    ensures |Bytes32(v)| == 4
  {
  }

  /** What `encodePng` hands to deflate: each row behind a zero filter byte. */
  function Filtered(data: seq<Byte>, stride: nat, height: nat): (raw: seq<Byte>)
    requires |data| == stride * height
    ensures |raw| == (stride + 1) * height
    decreases height
  {
    if height == 0 then []
    else
      assert stride * height == stride * (height - 1) + stride;
      Filtered(data[..stride * (height - 1)], stride, height - 1) + [0] + data[stride * (height - 1)..]
  }

  lemma UnfilterRow(front: seq<Byte>, row: seq<Byte>, height: nat)
    ensures Unfilter(front + [0] + row, |row|, height + 1) ==
            match Unfilter(front, |row|, height)
            case None => None
            case Some(rows) => Some(rows + row)
  {
    var raw := front + [0] + row;
    assert raw[..|raw| - |row| - 1] == front && raw[|raw| - |row|..] == row;
  }

  lemma {:induction false} UnfilterInverts(data: seq<Byte>, stride: nat, height: nat)
    requires |data| == stride * height
    ensures Unfilter(Filtered(data, stride, height), stride, height) == Some(data)
    decreases height
  {
    hide Unfilter;
    if height == 0 {
      UnfilterNothing(stride);
    } else {
      RowBounds(stride, height - 1, height);
      var cut := stride * (height - 1);
      UnfilterInverts(data[..cut], stride, height - 1);
      UnfilterRow(Filtered(data[..cut], stride, height - 1), data[cut..], height - 1);
      assert data[..cut] + data[cut..] == data;
    }
  }

  lemma UnfilterNothing(stride: nat)
    ensures Unfilter([], stride, 0) == Some([])
  {
  }

  method FilterRow(data: array<Byte>, raw: array<Byte>, start: nat, base: nat, stride: nat)
    requires data != raw && start + stride <= data.Length && base + stride + 1 <= raw.Length
    modifies raw
    ensures raw[..base + stride + 1] == old(raw[..base]) + [0] + data[start..start + stride]
  {
    ghost var before := raw[..base];
    raw[base] := 0;
    forall k | 0 <= k < stride {
      raw[base + 1 + k] := data[start + k];
    }
    assert raw[..base] == before;
    assert raw[base + 1..base + 1 + stride] == data[start..start + stride];
  }

  method FilterRows(data: array<Byte>, stride: nat, height: nat) returns (raw: array<Byte>)
    requires data.Length == stride * height
    ensures fresh(raw) && raw[..] == Filtered(data[..], stride, height)
  {
    hide Filtered;
    raw := new Byte[(stride + 1) * height](_ => 0);
    ghost var all := data[..];
    ghost var done: nat := 0;
    NoRows(all, stride);
    var y := 0;
    while y < height
      invariant 0 <= y <= height && data[..] == all
      invariant 0 <= stride * y <= |all| && done == (stride + 1) * y <= raw.Length
      invariant raw[..done] == Filtered(all[..stride * y], stride, y)
    {
      RowBounds(stride, y, height);
      NextRow(all, stride, y, height);
      FilterRow(data, raw, stride * y, (stride + 1) * y, stride);
      done := done + stride + 1;
      y := y + 1;
    }
    assert all[..stride * height] == all && raw[..raw.Length] == raw[..];
  }

  lemma NoRows(data: seq<Byte>, stride: nat)
    ensures Filtered(data[..stride * 0], stride, 0) == []
  {
  }

  lemma RowBounds(stride: nat, y: nat, height: nat)
    requires y < height
    ensures 0 <= stride * y && stride * y + stride == stride * (y + 1) <= stride * height
    ensures (stride + 1) * y + stride + 1 == (stride + 1) * (y + 1) <= (stride + 1) * height
  {
    assert stride * (height - y - 1) >= 0;
    assert stride * (height - y - 1) == stride * height - stride * y - stride;
  }

  lemma NextRow(data: seq<Byte>, stride: nat, y: nat, height: nat)
    requires y < height && |data| == stride * height
    ensures 0 <= stride * y <= stride * y + stride == stride * (y + 1) <= |data|
    ensures Filtered(data[..stride * (y + 1)], stride, y + 1)
         == Filtered(data[..stride * y], stride, y) + [0] + data[stride * y..stride * y + stride]
  {
    RowBounds(stride, y, height);
    var front := data[..stride * (y + 1)];
    assert front[..stride * y] == data[..stride * y];
    assert front[stride * y..] == data[stride * y..stride * y + stride];
  }

  function Header(width: nat, height: nat): seq<Byte>
    requires width < LIMIT && height < LIMIT
  {
    Bytes32(width) + Bytes32(height) + [8, 6, 0, 0, 0]
  }

  predicate Readable(width: nat, height: nat, compressed: nat) {
    0 < width < 0x8000_0000 && 0 < height < 0x8000_0000 && compressed < 0x8000_0000
  }

  /** `encodePng`. A reader gets back the size and the bytes of the raster exactly when
      they are in the range the standard allows, and rejects the file otherwise. */
  method EncodePng(bitmap: Bitmap, deflate: seq<Byte> -> seq<Byte>, ghost inflate: seq<Byte> -> Option<seq<Byte>>)
    returns (r: Option<seq<Byte>>)
    requires bitmap.Valid() && forall s :: inflate(deflate(s)) == Some(s)
    ensures bitmap.data.Length == bitmap.width * 4 * bitmap.height
    ensures var packed := deflate(Filtered(bitmap.data[..], bitmap.width * 4, bitmap.height));
            && (r.Some? <==> bitmap.width < LIMIT && bitmap.height < LIMIT && |packed| < LIMIT)
            && (r.Some? ==>
                  ReadPng(r.value, inflate) ==
                  if Readable(bitmap.width, bitmap.height, |packed|)
                  then Some(Image(bitmap.width, bitmap.height, bitmap.data[..])) else None)
  {
    hide ReadPng, Crc.BitwiseCrc, Bytes32, Filtered;
    var width, height := bitmap.width, bitmap.height;
    var stride := width * 4;
    assert bitmap.data.Length == stride * height by {
      assert width * height * 4 == width * 4 * height;
    }
    ghost var all := bitmap.data[..];
    if width >= LIMIT || height >= LIMIT {
      return None;
    }
    var raw := FilterRows(bitmap.data, stride, height);
    assert bitmap.data[..] == all;
    var packed := deflate(raw[..]);
    FourBytes(width);
    FourBytes(height);
    var header := WriteChunk(IHDR, Header(width, height));
    var body := WriteChunk(IDAT, packed);
    var end := WriteChunk(IEND, []);
    if body.None? {
      return None;
    }
    r := Some(SIGNATURE + header.value + body.value + end.value);
    FileReadsBack(width, height, packed, inflate);
    UnfilterInverts(all, stride, height);
  }

  lemma FileReadsBack(width: nat, height: nat, packed: seq<Byte>, inflate: seq<Byte> -> Option<seq<Byte>>)
    requires width < LIMIT && height < LIMIT && |packed| < LIMIT
    requires inflate(packed).Some?
    ensures |Header(width, height)| == 13
    ensures var bytes := SIGNATURE + ChunkBytes(IHDR, Header(width, height)) + ChunkBytes(IDAT, packed) + ChunkBytes(IEND, []);
            var rows := Unfilter(inflate(packed).value, width * 4, height);
            ReadPng(bytes, inflate) ==
            if Readable(width, height, |packed|) && rows.Some? then Some(Image(width, height, rows.value)) else None
  {
    hide ReadChunk, Crc.BitwiseCrc, Bytes32, Unfilter, Word32, ChunkBytes;
    FourBytes(width);
    FourBytes(height);
    var h := Header(width, height);
    var header, body, end := ChunkBytes(IHDR, h), ChunkBytes(IDAT, packed), ChunkBytes(IEND, []);
    var bytes := SIGNATURE + header + body + end;
    assert bytes[..8] == SIGNATURE && bytes[8..] == header + (body + end);
    ChunkReadsBack(IHDR, h, body + end);
    ChunkReadsBack(IDAT, packed, end);
    assert end + [] == end;
    ChunkReadsBack(IEND, [], []);
    assert h[..4] == Bytes32(width) && h[4..8] == Bytes32(height) && h[8..] == [8, 6, 0, 0, 0];
    WordRoundTrip(width);
    WordRoundTrip(height);
    DataReadsBack(packed, body, end);
  }

  lemma DataReadsBack(packed: seq<Byte>, body: seq<Byte>, end: seq<Byte>)
    requires |packed| < LIMIT && body == ChunkBytes(IDAT, packed) && end == ChunkBytes(IEND, [])
    ensures ReadData(body + end) == if |packed| < 0x8000_0000 then Some(packed) else None
  {
    hide ReadChunk, ChunkBytes;
    ChunkReadsBack(IDAT, packed, end);
    assert end + [] == end;
    ChunkReadsBack(IEND, [], []);
    assert ReadData(end) == Some([]);
    assert packed + [] == packed;
  }
}
