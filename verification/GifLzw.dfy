/** GIF image data: the encoder of apps/provider-agent/src/bitmap.ts, which sends
    every index as a literal code, against a decoder that follows Appendix F of
    the GIF89a specification, string table included. */
module GifLzw {
  import opened JsInt
  import opened Options
  import opened Sequences

  // ----- the decoder of Appendix F of GIF89a

  /** `table[c]` is the string of code `c`; its length is the next free code. */
  datatype Decoder = Decoder(width: nat, table: seq<seq<nat>>, prev: Option<nat>)

  const MAX_TABLE := 4096

  function FreshDecoder(min: nat): Decoder {
    Decoder(min + 1, seq(Pow2(min), i => [i]) + [[], []], None)
  }

  /** The string a code stands for, and the table that results from reading it. */
  function Translate(min: nat, d: Decoder, code: nat): Option<(seq<nat>, Decoder)> {
    match d.prev
    case None =>
      if code < Pow2(min) then Some(([code], d.(prev := Some(code)))) else None
    case Some(p) =>
      if p >= |d.table| || d.table[p] == [] || code > |d.table| then None
      else
        var entry := if code < |d.table| then d.table[code] else d.table[p] + [d.table[p][0]];
        if entry == [] then None
        else if |d.table| >= MAX_TABLE then Some((entry, d.(prev := Some(code))))
        else
          var table := d.table + [d.table[p] + [entry[0]]];
          var width := if |table| == Pow2(d.width) && d.width < 12 then d.width + 1 else d.width;
          Some((entry, Decoder(width, table, Some(code))))
  }

  /** Reads codes of the current width until the end code; bits after it are ignored. */
  function Decode(min: nat, bits: seq<bool>, d: Decoder): Option<seq<nat>>
    decreases |bits|
  {
    if d.width == 0 || |bits| < d.width then None
    else
      var code, rest := FromBits(bits[..d.width]), bits[d.width..];
      if code == Pow2(min) then Decode(min, rest, FreshDecoder(min))
      else if code == Pow2(min) + 1 then Some([])
      else
        match Translate(min, d, code)
        case None => None
        case Some((entry, d')) =>
          match Decode(min, rest, d')
          case None => None
          case Some(tail) => Some(entry + tail)
  }

  /** What a reader took from the front of the input, and what is left. */
  datatype Parsed<T> = Parsed(data: T, rest: seq<Byte>)

  /** Sub-blocks of section 15 of GIF89a: length byte, data, ended by a zero length. */
  function ReadSubBlocks(bytes: seq<Byte>): Option<Parsed<seq<Byte>>>
    decreases |bytes|
  {
    if bytes == [] then None
    else
      var n: nat := bytes[0];
      if n == 0 then Some(Parsed([], bytes[1..]))
      else if |bytes| < 1 + n then None
      else
        match ReadSubBlocks(bytes[1 + n..])
        case None => None
        case Some(p) => Some(Parsed(bytes[1..1 + n] + p.data, p.rest))
  }

  /** Table-based image data of section 22 of GIF89a. */
  function ReadImageData(bytes: seq<Byte>): Option<Parsed<seq<nat>>> {
    if bytes == [] then None
    else
      match ReadSubBlocks(bytes[1..])
      case None => None
      case Some(p) =>
        match Decode(bytes[0], BytesBits(p.data), FreshDecoder(bytes[0]))
        case None => None
        case Some(indices) => Some(Parsed(indices, p.rest))
  }

  // ----- what the encoder sends

  datatype Encoder = Encoder(width: nat, next: nat, emitted: nat)

  function FreshEncoder(min: nat): Encoder {
    Encoder(min + 1, Pow2(min) + 2, 0)
  }

  function AfterIndex(e: Encoder): Encoder {
    var next := if e.emitted > 0 then e.next + 1 else e.next;
    var grows := e.emitted > 0 && next == Pow2(e.width) && e.width < 12;
    Encoder(if grows then e.width + 1 else e.width, next, e.emitted + 1)
  }

  predicate MustReset(e: Encoder) {
    e.emitted >= 512 || e.next >= 4095
  }

  function Emit(min: nat, indices: seq<nat>, e: Encoder): seq<bool> {
    if indices == [] then ToBits(Pow2(min) + 1, e.width)
    else
      var e' := AfterIndex(e);
      ToBits(indices[0], e.width) +
      if MustReset(e') then
        ToBits(Pow2(min), e'.width) + Emit(min, indices[1..], FreshEncoder(min))
      else
        Emit(min, indices[1..], e')
  }

  ghost predicate EncoderOk(min: nat, e: Encoder) {
    min + 1 <= e.width <= 12 && Pow2(min) + 2 <= e.next < 4095
  }

  /** Encoder and decoder agree on the code width and on the next free code. */
  ghost predicate InStep(min: nat, e: Encoder, d: Decoder) {
    && EncoderOk(min, e)
    && d.width == e.width
    && |d.table| == e.next
    && (forall i :: 0 <= i < Pow2(min) ==> d.table[i] == [i])
    && (d.prev.None? <==> e.emitted == 0)
    && (d.prev.Some? ==> d.prev.value < Pow2(min))
  }

  lemma FreshInStep(min: nat)
    requires 2 <= min <= 8
    ensures InStep(min, FreshEncoder(min), FreshDecoder(min))
  {
    SmallPowers();
    Pow2Mono(min, 8);
  }

  lemma ReadCode(code: nat, width: nat, tail: seq<bool>)
    requires code < Pow2(width)
    ensures FromBits((ToBits(code, width) + tail)[..width]) == code
    ensures (ToBits(code, width) + tail)[width..] == tail
  {
    BitsRoundTrip(code, width);
    assert (ToBits(code, width) + tail)[..width] == ToBits(code, width);
  }

  /** Control codes fit in every width the encoder uses. */
  lemma CodesFit(min: nat, width: nat)
    requires 2 <= min <= 8 && min + 1 <= width
    ensures Pow2(min) + 1 < Pow2(width)
  {
    Pow2Mono(min + 1, width);
    Pow2Mono(2, min);
    SmallPowers();
  }

  /** A literal code moves encoder and decoder to states that are again in step. */
  lemma LiteralKeepsStep(min: nat, e: Encoder, d: Decoder, index: nat)
    requires 2 <= min <= 8 && InStep(min, e, d) && index < Pow2(min)
    ensures var e' := AfterIndex(e);
            var t := Translate(min, d, index);
            && t.Some? && t.value.0 == [index] && t.value.1.width == e'.width <= 12
            && min + 1 <= e'.width
            && (!MustReset(e') ==> InStep(min, e', t.value.1))
  {
  }

  function Prepend(head: seq<nat>, tail: Option<seq<nat>>): Option<seq<nat>> {
    match tail
    case None => None
    case Some(t) => Some(head + t)
  }

  lemma DecodeLiteral(min: nat, e: Encoder, d: Decoder, index: nat, tail: seq<bool>)
    requires 2 <= min <= 8 && InStep(min, e, d) && index < Pow2(min)
    ensures Translate(min, d, index).Some?
    ensures Decode(min, ToBits(index, e.width) + tail, d)
         == Prepend([index], Decode(min, tail, Translate(min, d, index).value.1))
  {
    CodesFit(min, e.width);
    ReadCode(index, e.width, tail);
    LiteralKeepsStep(min, e, d, index);
  }

  lemma DecodeClear(min: nat, d: Decoder, tail: seq<bool>)
    requires 2 <= min <= 8 && min + 1 <= d.width
    ensures Decode(min, ToBits(Pow2(min), d.width) + tail, d) == Decode(min, tail, FreshDecoder(min))
  {
    CodesFit(min, d.width);
    ReadCode(Pow2(min), d.width, tail);
  }

  lemma DecodeEnd(min: nat, d: Decoder, pad: seq<bool>)
    requires 2 <= min <= 8 && min + 1 <= d.width
    ensures Decode(min, ToBits(Pow2(min) + 1, d.width) + pad, d) == Some([])
  {
    CodesFit(min, d.width);
    ReadCode(Pow2(min) + 1, d.width, pad);
  }

  /** The decoder reads back exactly the indices, whatever padding follows. */
  lemma {:induction false} DecodeEmit(min: nat, indices: seq<nat>, e: Encoder, d: Decoder, pad: seq<bool>)
    requires 2 <= min <= 8 && InStep(min, e, d)
    requires forall i :: 0 <= i < |indices| ==> indices[i] < Pow2(min)
    ensures Decode(min, Emit(min, indices, e) + pad, d) == Some(indices)
    decreases |indices|
  {
    hide Translate, Decode, JsInt.ToBits, JsInt.FromBits, JsInt.Scale;
    if indices == [] {
      DecodeEnd(min, d, pad);
    } else {
      var index, rest, e' := indices[0], indices[1..], AfterIndex(e);
      LiteralKeepsStep(min, e, d, index);
      var d' := Translate(min, d, index).value.1;
      var tail: seq<bool>;
      if MustReset(e') {
        var after := Emit(min, rest, FreshEncoder(min)) + pad;
        tail := ToBits(Pow2(min), e'.width) + after;
        FreshInStep(min);
        DecodeClear(min, d', after);
        DecodeEmit(min, rest, FreshEncoder(min), FreshDecoder(min), pad);
      } else {
        tail := Emit(min, rest, e') + pad;
        DecodeEmit(min, rest, e', d', pad);
      }
      assert Decode(min, tail, d') == Some(rest);
      EmitCons(min, indices, e, pad, tail);
      DecodeLiteral(min, e, d, index, tail);
      assert [index] + rest == indices;
    }
  }

  lemma EmitCons(min: nat, indices: seq<nat>, e: Encoder, pad: seq<bool>, tail: seq<bool>)
    requires indices != []
    requires var e' := AfterIndex(e);
             tail == if MustReset(e')
                     then ToBits(Pow2(min), e'.width) + (Emit(min, indices[1..], FreshEncoder(min)) + pad)
                     else Emit(min, indices[1..], e') + pad
    ensures Emit(min, indices, e) + pad == ToBits(indices[0], e.width) + tail
  {
  }

  /** The whole code stream: a clear code, the literals, the end code. */
  function Stream(min: nat, indices: seq<nat>): seq<bool> {
    ToBits(Pow2(min), min + 1) + Emit(min, indices, FreshEncoder(min))
  }

  lemma DecodeStream(min: nat, indices: seq<nat>, pad: seq<bool>)
    requires 2 <= min <= 8
    requires forall i :: 0 <= i < |indices| ==> indices[i] < Pow2(min)
    ensures Decode(min, Stream(min, indices) + pad, FreshDecoder(min)) == Some(indices)
  {
    CodesFit(min, min + 1);
    var after := Emit(min, indices, FreshEncoder(min)) + pad;
    assert Stream(min, indices) + pad == ToBits(Pow2(min), min + 1) + after;
    ReadCode(Pow2(min), min + 1, after);
    FreshInStep(min);
    DecodeEmit(min, indices, FreshEncoder(min), FreshDecoder(min), pad);
  }

  /** The decoder only ever produces root symbols, so no other index can be read back. */
  ghost predicate TableOk(min: nat, d: Decoder) {
    forall c, k :: 0 <= c < |d.table| && 0 <= k < |d.table[c]| ==> d.table[c][k] < Pow2(min)
  }

  lemma {:induction false} DecodeYieldsRoots(min: nat, bits: seq<bool>, d: Decoder)
    requires TableOk(min, d)
    ensures var r := Decode(min, bits, d);
            r.Some? ==> forall i :: 0 <= i < |r.value| ==> r.value[i] < Pow2(min)
    decreases |bits|
  {
    if d.width == 0 || |bits| < d.width {
    } else {
      var code, rest := FromBits(bits[..d.width]), bits[d.width..];
      if code == Pow2(min) {
        DecodeYieldsRoots(min, rest, FreshDecoder(min));
      } else if code != Pow2(min) + 1 {
        TranslateYieldsRoots(min, d, code);
        hide Translate, TableOk;
        match Translate(min, d, code) {
          case None =>
          case Some((entry, d')) =>
            DecodeYieldsRoots(min, rest, d');
        }
      }
    }
  }

  lemma TranslateYieldsRoots(min: nat, d: Decoder, code: nat)
    requires TableOk(min, d)
    ensures var r := Translate(min, d, code);
            r.Some? ==> TableOk(min, r.value.1) && forall k :: 0 <= k < |r.value.0| ==> r.value.0[k] < Pow2(min)
  {
  }

  // ----- the encoder itself

  /** The last byte is filled up with zero bits. */
  predicate Padding(pad: seq<bool>) {
    |pad| < 8 && forall i :: 0 <= i < |pad| ==> !pad[i]
  }

  lemma {:induction false} ZeroBits(n: nat)
    requires n < 8
    ensures Padding(ToBits(0, n))
  {
    if n > 0 {
      ZeroBits(n - 1);
      assert ToBits(0, n) == [false] + ToBits(0, n - 1);
    }
  }

  /** The packing and table state of one run of the image-data encoder. */
  class LzwEncoder {
    const minCodeSize: nat
    const clearCode: int
    const endCode: int
    var codeSize: nat
    var nextCode: nat
    var emittedSinceClear: nat
    var bitBuffer: int
    var bitCount: nat
    var bytes: seq<Byte>

    ghost predicate Packed()
      reads this
    {
      && 2 <= minCodeSize <= 8 && clearCode == Pow2(minCodeSize) && endCode == clearCode + 1
      && bitCount < 8 && 0 <= bitBuffer < Pow2(bitCount)
    }

    ghost predicate Valid()
      reads this
    {
      Packed() && EncoderOk(minCodeSize, State())
    }

    ghost function State(): Encoder
      reads this
    {
      Encoder(codeSize, nextCode, emittedSinceClear)
    }

    /** Every bit sent so far: whole bytes, then the bits still in the buffer. */
    ghost function Sent(): seq<bool>
      reads this
      requires bitBuffer >= 0
    {
      BytesBits(bytes) + ToBits(bitBuffer, bitCount)
    }

    constructor (minCodeSize: nat)
      requires 2 <= minCodeSize <= 8
      ensures Valid() && Sent() == [] && this.minCodeSize == minCodeSize
      ensures State() == FreshEncoder(minCodeSize)
    {
      ShlOne(minCodeSize);
      FreshInStep(minCodeSize);
      this.minCodeSize := minCodeSize;
      clearCode := Shl(1, minCodeSize);
      endCode := Shl(1, minCodeSize) + 1;
      codeSize := minCodeSize + 1;
      nextCode := Shl(1, minCodeSize) + 2;
      emittedSinceClear, bitBuffer, bitCount, bytes := 0, 0, 0, [];
    }

    method FlushCode(code: nat)
      requires Packed() && codeSize <= 12 && code < Pow2(codeSize)
      modifies this`bitBuffer, this`bitCount, this`bytes
      ensures Packed() && Sent() == old(Sent()) + ToBits(code, codeSize)
    {
      hide JsInt.Or, JsInt.And, JsInt.Shl, JsInt.Ushr, JsInt.ToBits, JsInt.BytesBits, JsInt.Scale;
      ghost var sent := Sent();
      PushCode(bitBuffer, bitCount, code, codeSize, bytes);
      bitBuffer := Or(bitBuffer, Shl(code, bitCount));
      bitCount := bitCount + codeSize;
      assert Sent() == sent + ToBits(code, codeSize);
      while bitCount >= 8
        invariant 0 <= bitBuffer < Pow2(bitCount) && bitBuffer < 0x8_0000
        invariant Sent() == sent + ToBits(code, codeSize)
      {
        PopByte(bitBuffer, bitCount, bytes);
        bytes := bytes + [And(bitBuffer, 0xff)];
        bitBuffer := Ushr(bitBuffer, 8);
        bitCount := bitCount - 8;
      }
    }

    method ResetTable()
      requires Packed() && minCodeSize + 1 <= codeSize <= 12
      modifies this
      ensures Valid() && State() == FreshEncoder(minCodeSize)
      ensures Sent() == old(Sent()) + ToBits(clearCode, old(codeSize))
    {
      CodesFit(minCodeSize, codeSize);
      FlushCode(clearCode);
      codeSize := minCodeSize + 1;
      nextCode := endCode + 1;
      emittedSinceClear := 0;
      FreshInStep(minCodeSize);
    }

    /** One turn of the loop over the indices. */
    method SendIndex(index: nat)
      requires Valid() && index < clearCode
      modifies this
      ensures Valid()
      ensures var e' := AfterIndex(old(State()));
              if MustReset(e') then
                && State() == FreshEncoder(minCodeSize)
                && Sent() == old(Sent()) + ToBits(index, old(codeSize)) + ToBits(clearCode, e'.width)
              else
                && State() == e'
                && Sent() == old(Sent()) + ToBits(index, old(codeSize))
    {
      hide JsInt.Shl, JsInt.ToBits, JsInt.BytesBits, JsInt.Scale;
      CodesFit(minCodeSize, codeSize);
      FlushCode(index);
      if emittedSinceClear > 0 {
        nextCode := nextCode + 1;
        ShlOne(codeSize);
        if nextCode == Shl(1, codeSize) && codeSize < 12 {
          codeSize := codeSize + 1;
        }
      }
      emittedSinceClear := emittedSinceClear + 1;
      if emittedSinceClear >= 512 || nextCode >= 4095 {
        ResetTable();
      }
    }

    /** The end code, and the last partial byte filled up with zero bits. */
    method Finish() returns (data: seq<Byte>, ghost pad: seq<bool>)
      requires Valid()
      modifies this
      ensures Padding(pad) && BytesBits(data) == old(Sent()) + ToBits(endCode, old(codeSize)) + pad
    {
      hide JsInt.And, JsInt.ToBits, JsInt.BytesBits, JsInt.Scale;
      CodesFit(minCodeSize, codeSize);
      FlushCode(endCode);
      pad := [];
      if bitCount > 0 {
        LastByte(bitBuffer, bitCount, bytes);
        pad := ToBits(0, 8 - bitCount);
        ZeroBits(8 - bitCount);
        bytes := bytes + [And(bitBuffer, 0xff)];
      }
      data := bytes;
    }
  }

  lemma PushCode(buffer: nat, count: nat, code: nat, width: nat, bytes: seq<Byte>)
    requires buffer < Pow2(count) && count < 8 && width <= 12 && code < Pow2(width)
    ensures var merged := Or(buffer, Shl(code, count));
            && 0 <= merged < Pow2(count + width) && merged < 0x8_0000
            && BytesBits(bytes) + ToBits(merged, count + width)
               == BytesBits(bytes) + ToBits(buffer, count) + ToBits(code, width)
  {
    hide JsInt.Or, JsInt.Shl;
    PackerOperators(buffer, count, code, width);
    BitsAppend(buffer, code, count, width);
    assert BytesBits(bytes) + ToBits(buffer, count) + ToBits(code, width)
        == BytesBits(bytes) + (ToBits(buffer, count) + ToBits(code, width));
  }

  lemma ShlOne(k: nat)
    requires k <= 12
    ensures Shl(1, k) == Pow2(k)
  {
    SmallPowers();
    Pow2Mono(k, 12);
    ShlSmall(1, k, Pow2(k)) by { Pow2Mono(0, k); }
  }

  lemma PopByte(buffer: nat, count: nat, bytes: seq<Byte>)
    requires buffer < Pow2(count) && buffer < 0x8_0000 && count >= 8
    ensures var low, high := And(buffer, 0xff), Ushr(buffer, 8);
            && 0 <= low < 256 && 0 <= high < Pow2(count - 8) && high < 0x8_0000
            && BytesBits(bytes + [low]) + ToBits(high, count - 8)
               == BytesBits(bytes) + ToBits(buffer, count)
  {
    hide JsInt.And, JsInt.Ushr;
    LowByte(buffer);
    SmallPowers();
    var low, high: nat := And(buffer, 0xff), Ushr(buffer, 8);
    ScaleHigh(high, 8, count - 8);
    ScaleDouble(high, 8);
    BitsAppend(low, high, 8, count - 8);
    assert (bytes + [low])[..|bytes|] == bytes;
    assert BytesBits(bytes) + ToBits(low, 8) + ToBits(high, count - 8)
        == BytesBits(bytes) + (ToBits(low, 8) + ToBits(high, count - 8));
  }

  lemma SmallBufferIsItsLowByte(buffer: nat, count: nat)
    requires count < 8 && buffer < Pow2(count)
    ensures And(buffer, 0xff) == buffer < 256
  {
    hide JsInt.And, JsInt.Ushr;
    Pow2Mono(count, 8);
    SmallPowers();
    LowByte(buffer);
    ScaleHigh(Ushr(buffer, 8), 8, 0);
  }

  lemma LastByte(buffer: nat, count: nat, bytes: seq<Byte>)
    requires 0 < count < 8 && buffer < Pow2(count)
    ensures var low := And(buffer, 0xff);
            && 0 <= low < 256
            && BytesBits(bytes + [low]) == BytesBits(bytes) + ToBits(buffer, count) + ToBits(0, 8 - count)
  {
    hide JsInt.And, JsInt.Ushr;
    SmallBufferIsItsLowByte(buffer, count);
    BitsAppend(buffer, 0, count, 8 - count);
    ScaleZero(count);
    var low := And(buffer, 0xff);
    assert low == buffer;
    assert (bytes + [low])[..|bytes|] == bytes;
    assert BytesBits(bytes) + ToBits(buffer, count) + ToBits(0, 8 - count)
        == BytesBits(bytes) + (ToBits(buffer, count) + ToBits(0, 8 - count));
  }

  /** Sub-block framing of `bytes` from `offset` on. */
  function SubBlocks(bytes: seq<Byte>): (r: seq<Byte>)
    decreases |bytes|
  {
    if bytes == [] then [0]
    else
      var n := if |bytes| < 255 then |bytes| else 255;
      [n] + bytes[..n] + SubBlocks(bytes[n..])
  }

  function From(bytes: seq<Byte>, offset: nat): seq<Byte> {
    if offset < |bytes| then bytes[offset..] else []
  }

  lemma NextSubBlock(sent: seq<Byte>, bytes: seq<Byte>, offset: nat, n: Byte)
    requires offset < |bytes| && n == if |bytes| - offset < 255 then |bytes| - offset else 255
    ensures sent + SubBlocks(From(bytes, offset))
         == sent + [n] + bytes[offset..offset + n as int] + SubBlocks(From(bytes, offset + 255))
  {
    hide SubBlocks;
    var rest: seq<Byte> := bytes[offset..];
    assert rest[..n] == bytes[offset..offset + n as int];
    assert rest[n..] == From(bytes, offset + 255);
    FirstSubBlock(rest, n);
    var tail := SubBlocks(rest[n..]);
    Associative(sent, [n] + rest[..n], tail);
    Associative(sent, [n], rest[..n]);
  }

  lemma FirstSubBlock(bytes: seq<Byte>, n: Byte)
    requires bytes != [] && n == if |bytes| < 255 then |bytes| else 255
    ensures SubBlocks(bytes) == [n] + bytes[..n] + SubBlocks(bytes[n..])
  {
  }

  lemma SubBlocksEnd()
    ensures SubBlocks([]) == [0]
  {
  }

  method EncodeSubBlocks(bytes: seq<Byte>) returns (blocks: seq<Byte>)
    ensures blocks == SubBlocks(bytes)
  {
    hide SubBlocks;
    blocks := [];
    var offset: nat := 0;
    assert From(bytes, 0) == bytes;
    while offset < |bytes|
      invariant blocks + SubBlocks(From(bytes, offset)) == SubBlocks(bytes)
    {
      var chunkLength: Byte := if |bytes| - offset < 255 then |bytes| - offset else 255;
      NextSubBlock(blocks, bytes, offset, chunkLength);
      blocks := blocks + [chunkLength];
      blocks := blocks + bytes[offset..offset + chunkLength as int];
      offset := offset + 255;
    }
    SubBlocksEnd();
    blocks := blocks + [0];
  }

  lemma ReadOneSubBlock(block: seq<Byte>, tail: seq<Byte>, p: Parsed<seq<Byte>>)
    requires 0 < |block| < 256 && ReadSubBlocks(tail) == Some(p)
    ensures ReadSubBlocks([|block|] + block + tail) == Some(Parsed(block + p.data, p.rest))
  {
    var bytes: seq<Byte> := [|block|] + block + tail;
    assert bytes[1..1 + |block|] == block && bytes[1 + |block|..] == tail;
  }

  lemma SubBlocksUnfold(bytes: seq<Byte>, n: nat, rest: seq<Byte>)
    requires bytes != [] && n == if |bytes| < 255 then |bytes| else 255
    ensures SubBlocks(bytes) + rest == [n] + bytes[..n] + (SubBlocks(bytes[n..]) + rest)
  {
  }

  lemma SubBlocksEndReads(rest: seq<Byte>)
    ensures ReadSubBlocks(SubBlocks([]) + rest) == Some(Parsed([], rest))
  {
    assert ([0] + rest)[1..] == rest;
  }

  /** Every block is non-empty, so the reader stops exactly at the terminator. */
  lemma {:induction false} SubBlocksReadBack(bytes: seq<Byte>, rest: seq<Byte>)
    ensures ReadSubBlocks(SubBlocks(bytes) + rest) == Some(Parsed(bytes, rest))
    decreases |bytes|
  {
    hide ReadSubBlocks, SubBlocks;
    if bytes == [] {
      SubBlocksEndReads(rest);
    } else {
      var n := if |bytes| < 255 then |bytes| else 255;
      SubBlocksUnfold(bytes, n, rest);
      SubBlocksReadBack(bytes[n..], rest);
      ReadOneSubBlock(bytes[..n], SubBlocks(bytes[n..]) + rest, Parsed(bytes[n..], rest));
      assert bytes[..n] + bytes[n..] == bytes;
    }
  }

  lemma EmitNext(min: nat, indices: seq<nat>, i: nat, e: Encoder, sent: seq<bool>)
    requires i < |indices|
    ensures var e' := AfterIndex(e);
            sent + Emit(min, indices[i..], e) ==
            if MustReset(e') then
              sent + ToBits(indices[i], e.width) + ToBits(Pow2(min), e'.width)
              + Emit(min, indices[i + 1..], FreshEncoder(min))
            else
              sent + ToBits(indices[i], e.width) + Emit(min, indices[i + 1..], e')
  {
    assert indices[i..][1..] == indices[i + 1..];
  }

  lemma EmitEnd(min: nat, e: Encoder)
    ensures Emit(min, [], e) == ToBits(Pow2(min) + 1, e.width)
  {
  }

  /** The loop of `encodeGifImageData`: the bytes hold the code stream, then padding. */
  method EncodeCodes(indices: seq<Byte>, minCodeSize: nat) returns (data: seq<Byte>)
    requires 2 <= minCodeSize <= 8
    requires forall i :: 0 <= i < |indices| ==> indices[i] < Pow2(minCodeSize)
    ensures exists pad :: Padding(pad) && BytesBits(data) == Stream(minCodeSize, indices) + pad
  {
    hide Emit, AfterIndex, MustReset, JsInt.ToBits, JsInt.BytesBits, JsInt.Scale;
    var encoder := new LzwEncoder(minCodeSize);
    ghost var goal := Stream(minCodeSize, indices);
    encoder.ResetTable();
    assert indices[0..] == indices;
    for i := 0 to |indices|
      invariant encoder.Valid() && encoder.minCodeSize == minCodeSize
      invariant encoder.Sent() + Emit(minCodeSize, indices[i..], encoder.State()) == goal
    {
      EmitNext(minCodeSize, indices, i, encoder.State(), encoder.Sent());
      encoder.SendIndex(indices[i]);
    }
    assert indices[|indices|..] == [];
    EmitEnd(minCodeSize, encoder.State());
    ghost var pad;
    data, pad := encoder.Finish();
  }

  lemma ReadFramed(data: seq<Byte>, indices: seq<nat>, min: Byte, rest: seq<Byte>)
    requires Decode(min, BytesBits(data), FreshDecoder(min)) == Some(indices)
    ensures ReadImageData([min] + SubBlocks(data) + rest) == Some(Parsed(indices, rest))
  {
    hide Decode, SubBlocks, ReadSubBlocks, JsInt.BytesBits;
    SubBlocksReadBack(data, rest);
    assert ([min] + SubBlocks(data) + rest)[1..] == SubBlocks(data) + rest;
  }

  /** `encodeGifImageData`: the minimum code size, then the framed code stream. A
      decoder gets back exactly `indices`, and nothing of what follows is consumed. */
  method EncodeImageData(indices: seq<Byte>, minCodeSize: nat) returns (r: seq<Byte>)
    requires 2 <= minCodeSize <= 8
    requires forall i :: 0 <= i < |indices| ==> indices[i] < Pow2(minCodeSize)
    ensures forall rest :: ReadImageData(r + rest) == Some(Parsed(indices, rest))
  {
    var data := EncodeCodes(indices, minCodeSize);
    ghost var pad :| Padding(pad) && BytesBits(data) == Stream(minCodeSize, indices) + pad;
    DecodeStream(minCodeSize, indices, pad);
    var framed := EncodeSubBlocks(data);
    r := [minCodeSize] + framed;
    forall rest
      ensures ReadImageData(r + rest) == Some(Parsed(indices, rest))
    {
      ReadFramed(data, indices, minCodeSize, rest);
    }
  }
}
