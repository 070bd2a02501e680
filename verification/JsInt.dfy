/** Bytes, powers of two, least-significant-bit-first bit strings, and the 32-bit
    integer operators of JavaScript that the encoders use. */
module JsInt {

  type Byte = x: int | 0 <= x < 256

  /** `x` times two to the power `k`. */
  function Scale(x: nat, k: nat): nat {
    if k == 0 then x else 2 * Scale(x, k - 1)
  }

  function Pow2(k: nat): nat {
    Scale(1, k)
  }

  lemma {:induction false} Pow2Mono(m: nat, n: nat)
    requires m <= n
    ensures 1 <= Pow2(m) <= Pow2(n)
  {
    if n > 0 {
      Pow2Mono(if m == n then m - 1 else m, n - 1);
    }
  }

  lemma SmallPowers()
    ensures Pow2(1) == 2 && Pow2(2) == 4 && Pow2(8) == 256 && Pow2(9) == 512
    ensures Pow2(12) == 4096 && Pow2(19) == 0x8_0000
  {
    assert Pow2(2) == 4 && Pow2(4) == 16 && Pow2(6) == 64 && Pow2(8) == 256;
    assert Pow2(10) == 1024 && Pow2(12) == 4096 && Pow2(14) == 0x4000 && Pow2(16) == 0x1_0000;
    assert Pow2(18) == 0x4_0000;
  }

  // ----- bit strings, least significant bit first

  function ToBits(x: nat, width: nat): (b: seq<bool>)
    ensures |b| == width
  {
    if width == 0 then [] else [x % 2 == 1] + ToBits(x / 2, width - 1)
  }

  function FromBits(b: seq<bool>): nat {
    if b == [] then 0 else (if b[0] then 1 else 0) + 2 * FromBits(b[1..])
  }

  lemma {:induction false} BitsRoundTrip(x: nat, width: nat)
    requires x < Pow2(width)
    ensures FromBits(ToBits(x, width)) == x
  {
    if width > 0 {
      BitsRoundTrip(x / 2, width - 1);
      assert ToBits(x, width)[1..] == ToBits(x / 2, width - 1);
    }
  }

  /** Writing `high` above the `k` bits of `low` is appending its bit string. */
  lemma {:induction false} BitsAppend(low: nat, high: nat, k: nat, width: nat)
    requires low < Pow2(k)
    ensures ToBits(low + Scale(high, k), k + width) == ToBits(low, k) + ToBits(high, width)
  {
    if k == 0 {
      assert ToBits(low, 0) + ToBits(high, width) == ToBits(high, width);
    } else {
      BitsAppend(low / 2, high, k - 1, width);
      assert ToBits(low, k) + ToBits(high, width)
          == [low % 2 == 1] + (ToBits(low / 2, k - 1) + ToBits(high, width));
    }
  }

  /** The bits of a byte sequence, each byte least significant bit first. */
  function BytesBits(bytes: seq<Byte>): (b: seq<bool>)
    ensures |b| == 8 * |bytes|
  {
    if bytes == [] then [] else BytesBits(bytes[..|bytes| - 1]) + ToBits(bytes[|bytes| - 1], 8)
  }

  // ----- 32-bit operators

  function ToUint32(x: int): (r: nat)
    ensures r < 0x1_0000_0000
    ensures 0 <= x < 0x1_0000_0000 ==> r == x
  {
    if 0 <= x < 0x1_0000_0000 then x else x % 0x1_0000_0000
  }

  function ToInt32(x: int): (r: int)
    ensures 0 <= x < 0x8000_0000 ==> r == x
  {
    var u := ToUint32(x);
    if u < 0x8000_0000 then u else u - 0x1_0000_0000
  }

  /** The unsigned and the signed number of 32 bits that differ from `x` by a multiple of two to the 32. */
  lemma WrapsAround(x: int)
    ensures (x - ToUint32(x)) % 0x1_0000_0000 == 0
    ensures -0x8000_0000 <= ToInt32(x) < 0x8000_0000 && (x - ToInt32(x)) % 0x1_0000_0000 == 0
  {
  }

  function BitOr(x: nat, y: nat): nat {
    if x == 0 && y == 0 then 0
    else (if x % 2 == 1 || y % 2 == 1 then 1 else 0) + 2 * BitOr(x / 2, y / 2)
  }

  function BitAnd(x: nat, y: nat): nat {
    if x == 0 || y == 0 then 0
    else (if x % 2 == 1 && y % 2 == 1 then 1 else 0) + 2 * BitAnd(x / 2, y / 2)
  }

  lemma LowBit(x: nat, y: nat)
    ensures BitOr(x, y) / 2 == BitOr(x / 2, y / 2) && (BitOr(x, y) % 2 == 1 <==> x % 2 == 1 || y % 2 == 1)
    ensures BitAnd(x, y) / 2 == BitAnd(x / 2, y / 2) && (BitAnd(x, y) % 2 == 1 <==> x % 2 == 1 && y % 2 == 1)
  {
  }

  /** Bit for bit. */
  lemma {:induction false} BitByBit(x: nat, y: nat, width: nat, k: nat)
    requires k < width
    ensures ToBits(BitOr(x, y), width)[k] <==> ToBits(x, width)[k] || ToBits(y, width)[k]
    ensures ToBits(BitAnd(x, y), width)[k] <==> ToBits(x, width)[k] && ToBits(y, width)[k]
    decreases width
  {
    LowBit(x, y);
    if k > 0 {
      BitByBit(x / 2, y / 2, width - 1, k - 1);
      hide BitOr, BitAnd;
      assert forall z: nat :: ToBits(z, width)[k] == ToBits(z / 2, width - 1)[k - 1];
    }
  }

  function ShiftedLeft(x: int, k: nat): int
    decreases k
  {
    if k == 0 then x else ShiftedLeft(ToInt32(2 * x), k - 1)
  }

  function ShiftedRight(x: nat, k: nat): nat
    decreases k
  {
    if k == 0 then x else ShiftedRight(x / 2, k - 1)
  }

  /** `x << k` */
  function Shl(x: int, k: nat): int {
    ShiftedLeft(ToInt32(x), k % 32)
  }

  /** `x >>> k` */
  function Ushr(x: int, k: nat): int {
    ShiftedRight(ToUint32(x), k % 32)
  }

  /** Only the low five bits of a shift count. */
  lemma ShiftCount(x: int, k: nat)
    ensures Shl(x, k + 32) == Shl(x, k) && Ushr(x, k + 32) == Ushr(x, k)
    ensures k < 32 ==> Shl(x, k) == ShiftedLeft(ToInt32(x), k) && Ushr(x, k) == ShiftedRight(ToUint32(x), k)
  {
  }

  /** `x | y` */
  function Or(x: int, y: int): int {
    ToInt32(BitOr(ToUint32(x), ToUint32(y)))
  }

  /** `x & y` */
  function And(x: int, y: int): int {
    ToInt32(BitAnd(ToUint32(x), ToUint32(y)))
  }

  lemma {:induction false} BitOrZero(y: nat)
    ensures BitOr(0, y) == y
  {
    if y > 0 {
      BitOrZero(y / 2);
    }
  }

  lemma {:induction false} BitOrCommutes(x: nat, y: nat)
    ensures BitOr(x, y) == BitOr(y, x)
  {
    if x > 0 || y > 0 {
      BitOrCommutes(x / 2, y / 2);
    }
  }

  lemma {:induction false} BitOrDisjoint(x: nat, y: nat, k: nat)
    requires x < Pow2(k)
    ensures BitOr(x, Scale(y, k)) == x + Scale(y, k)
  {
    if k == 0 {
      BitOrZero(y);
    } else {
      BitOrDisjoint(x / 2, y, k - 1);
    }
  }

  lemma {:induction false} BitAndMask(x: nat, k: nat)
    ensures Pow2(k) >= 1
    ensures BitAnd(x, Pow2(k) - 1) + Scale(ShiftedRight(x, k), k) == x
    ensures BitAnd(x, Pow2(k) - 1) < Pow2(k)
  {
    if k > 0 {
      BitAndMask(x / 2, k - 1);
      Pow2Mono(0, k - 1);
      assert (Pow2(k) - 1) / 2 == Pow2(k - 1) - 1 && (Pow2(k) - 1) % 2 == 1;
    }
  }

  lemma {:induction false} ScaleBound(low: nat, bits: nat, high: nat, width: nat)
    requires low < Pow2(bits) && high < Pow2(width)
    ensures low + Scale(high, bits) < Pow2(bits + width)
  {
    if bits > 0 {
      ScaleBound(low / 2, bits - 1, high, width);
    }
  }

  lemma {:induction false} ScaleHigh(high: nat, bits: nat, width: nat)
    requires Scale(high, bits) < Pow2(bits + width)
    ensures high < Pow2(width)
  {
    if bits > 0 {
      ScaleHigh(high, bits - 1, width);
    }
  }

  lemma {:induction false} ScaleZero(k: nat)
    ensures Scale(0, k) == 0
  {
    if k > 0 {
      ScaleZero(k - 1);
    }
  }

  lemma {:induction false} ScaleDouble(x: nat, k: nat)
    ensures Scale(2 * x, k) == 2 * Scale(x, k) && Scale(x, k) >= x
  {
    if k > 0 {
      ScaleDouble(x, k - 1);
    }
  }

  lemma {:induction false} ShiftedLeftSmall(x: nat, k: nat)
    requires Scale(x, k) < 0x8000_0000
    ensures ShiftedLeft(x, k) == Scale(x, k)
    decreases k
  {
    if k > 0 {
      ScaleDouble(x, k - 1);
      ScaleDouble(2 * x, k - 1);
      ShiftedLeftSmall(2 * x, k - 1);
    }
  }

  lemma ShlSmall(x: nat, k: nat, r: nat)
    requires k < 32 && x <= r == Scale(x, k) < 0x8000_0000
    ensures Shl(x, k) == r
  {
    ShiftedLeftSmall(x, k);
  }

  lemma OrSmall(x: nat, y: nat, r: nat)
    requires x < 0x8000_0000 && y < 0x8000_0000 && BitOr(x, y) == r < 0x8000_0000
    ensures Or(x, y) == r
  {
  }

  lemma PackedBound(buffer: nat, bits: nat, code: nat, width: nat)
    requires buffer < Pow2(bits) && bits < 8 && width <= 12 && code < Pow2(width)
    ensures buffer + Scale(code, bits) < Pow2(bits + width)
    ensures buffer + Scale(code, bits) < 0x8_0000
  {
    SmallPowers();
    Pow2Mono(bits + width, 19);
    ScaleBound(buffer, bits, code, width);
  }

  /** The bit packer's `buffer | code << bits`, on the small values it meets:
      the code is written above the buffer and nothing wraps around. */
  lemma PackerOperators(buffer: nat, bits: nat, code: nat, width: nat)
    requires buffer < Pow2(bits) && bits < 8 && width <= 12 && code < Pow2(width)
    ensures Or(buffer, Shl(code, bits)) == buffer + Scale(code, bits)
    ensures buffer + Scale(code, bits) < Pow2(bits + width)
    ensures buffer + Scale(code, bits) < 0x8_0000
  {
    var shifted := Scale(code, bits);
    PackedBound(buffer, bits, code, width);
    ScaleDouble(code, bits);
    ShlSmall(code, bits, shifted);
    BitOrDisjoint(buffer, code, bits);
    OrSmall(buffer, shifted, buffer + shifted);
  }

  lemma AndSmall(x: nat, y: nat, r: nat)
    requires x < 0x8000_0000 && y < 0x8000_0000 && BitAnd(x, y) == r < 0x8000_0000
    ensures And(x, y) == r
  {
  }

  lemma LowByte(x: nat)
    requires x < 0x8000_0000
    ensures 0 <= And(x, 0xff) < 256 && 0 <= Ushr(x, 8)
    ensures x == And(x, 0xff) + Scale(Ushr(x, 8), 8)
  {
    SmallPowers();
    BitAndMask(x, 8);
    AndSmall(x, 0xff, BitAnd(x, 0xff));
    assert Ushr(x, 8) == ShiftedRight(x, 8);
  }
}
