/** The table-driven CRC of the PNG writer against the bit-at-a-time division of
    section 3.4 of RFC 2083. */
module Crc {
  import opened JsInt

  const POLYNOMIAL: bv32 := 0xedb88320

  // The register operations, named so that proofs can use their laws instead of their bits.
  function Xor(a: bv32, b: bv32): bv32 { a ^ b }
  function Half(c: bv32): bv32 { c >> 1 }
  predicate Odd(c: bv32) { c & 1 == 1 }
  function Low(c: bv32): bv32 { c & 0xff }
  function High(c: bv32): bv32 { c >> 8 }

  /** One division step without message input. */
  function Step(c: bv32): bv32 {
    if Odd(c) then Xor(POLYNOMIAL, Half(c)) else Half(c)
  }

  function Steps(c: bv32, n: nat): bv32
    decreases n
  {
    if n == 0 then c else Steps(Step(c), n - 1)
  }

  // ----- the reference: one message bit at a time

  /** Feeds one message bit into the register. */
  function ShiftIn(c: bv32, bit: bool): bv32 {
    if Odd(c) != bit then Xor(POLYNOMIAL, Half(c)) else Half(c)
  }

  function Divide(c: bv32, bits: seq<bool>): bv32
    decreases bits
  {
    if bits == [] then c else Divide(ShiftIn(c, bits[0]), bits[1..])
  }

  /** Register preset to ones, bits of each byte least significant first, result complemented. */
  function BitwiseCrc(bytes: seq<Byte>): bv32 {
    Xor(Divide(0xffff_ffff, BytesBits(bytes)), 0xffff_ffff)
  }

  lemma DivideFirst(c: bv32, bits: seq<bool>)
    requires bits != [] && !bits[0]
    ensures Divide(c, bits) == Divide(ShiftIn(c, false), bits[1..])
  {
  }

  /** A value known from elsewhere: the check of one zero byte. */
  lemma KnownValue()
    ensures BitwiseCrc([0]) == 0xd202_ef8d
  {
    var bits := BytesBits([0]);
    assert bits == [false, false, false, false, false, false, false, false] by {
      assert JsInt.ToBits(0, 8) + [] == bits;
    }
    assert ShiftIn(0xffff_ffff, false) == 0x9247_7cdf;
    assert ShiftIn(0x9247_7cdf, false) == 0xa49b_3d4f;
    assert ShiftIn(0xa49b_3d4f, false) == 0xbff5_1d87;
    assert ShiftIn(0xbff5_1d87, false) == 0xb242_0de3;
    assert ShiftIn(0xb242_0de3, false) == 0xb499_85d1;
    assert ShiftIn(0xb499_85d1, false) == 0xb7f4_41c8;
    assert ShiftIn(0xb7f4_41c8, false) == 0x5bfa_20e4;
    assert ShiftIn(0x5bfa_20e4, false) == 0x2dfd_1072;
    hide ShiftIn;
    DivideFirst(0xffff_ffff, bits);
    DivideFirst(0x9247_7cdf, bits[1..]);
    DivideFirst(0xa49b_3d4f, bits[2..]);
    DivideFirst(0xbff5_1d87, bits[3..]);
    DivideFirst(0xb242_0de3, bits[4..]);
    DivideFirst(0xb499_85d1, bits[5..]);
    DivideFirst(0xb7f4_41c8, bits[6..]);
    DivideFirst(0x5bfa_20e4, bits[7..]);
    assert bits[1..][1..] == bits[2..] && bits[2..][1..] == bits[3..] && bits[3..][1..] == bits[4..] && bits[4..][1..] == bits[5..];
    assert bits[5..][1..] == bits[6..] && bits[6..][1..] == bits[7..] && bits[7..][1..] == [];
  }

  lemma {:induction false} DivideAppend(c: bv32, a: seq<bool>, b: seq<bool>)
    ensures Divide(c, a + b) == Divide(Divide(c, a), b)
    decreases a
  {
    hide ShiftIn;
    if a == [] {
      assert a + b == b;
    } else {
      assert (a + b)[1..] == a[1..] + b;
      DivideAppend(ShiftIn(c, a[0]), a[1..], b);
    }
  }

  // ----- laws of the register operations

  lemma XorLaws(a: bv32, b: bv32)
    ensures Half(Xor(a, b)) == Xor(Half(a), Half(b))
    ensures Odd(Xor(a, b)) <==> Odd(a) != Odd(b)
    ensures Xor(a, 0) == a
  {
  }

  lemma XorAssociative(p: bv32, x: bv32, y: bv32)
    ensures Xor(p, Xor(x, y)) == Xor(Xor(p, x), y)
  {
  }

  lemma XorCommutes(x: bv32, y: bv32)
    ensures Xor(x, y) == Xor(y, x)
    ensures Xor(x, Xor(x, y)) == y
  {
  }

  lemma XorRearrange(p: bv32, x: bv32, y: bv32)
    ensures Xor(p, Xor(x, y)) == Xor(Xor(p, x), y) == Xor(x, Xor(p, y))
    ensures Xor(Xor(p, x), Xor(p, y)) == Xor(x, y)
  {
    hide Xor;
    XorAssociative(p, x, y);
    XorAssociative(x, p, y);
    XorCommutes(p, x);
    XorAssociative(x, p, Xor(p, y));
    XorCommutes(p, y);
  }

  lemma SplitBytes(c: bv32)
    ensures c == Xor(Low(c), c & 0xffff_ff00)
    ensures Low(c & 0xffff_ff00) == 0 && High(c & 0xffff_ff00) == High(c)
  {
  }

  lemma ByteShift(x: nat)
    requires x < 256
    ensures (x as bv32) >> 1 == (x / 2) as bv32
  {
    assert x as bv32 < 256;
    assert x == 2 * (x / 2) || x == 2 * (x / 2) + 1;
  }

  lemma ByteParity(x: nat)
    requires x < 256
    ensures (x as bv32) & 1 == 1 <==> x % 2 == 1
  {
  }

  lemma ByteAsBits(x: nat)
    requires x < 256
    ensures Odd(x as bv32) <==> x % 2 == 1
    ensures Half(x as bv32) == (x / 2) as bv32
  {
    ByteShift(x);
    ByteParity(x);
  }

  lemma LowIndex(x: bv32)
    ensures Low(x) as int < 256 && (Low(x) as int) as bv32 == Low(x)
  {
  }

  lemma HighUnchanged(crc: bv32, value: Byte)
    ensures High(Xor(crc, value as bv32)) == High(crc)
  {
    assert value as bv32 <= 0xff;
  }

  // ----- the table

  lemma StepLinear(a: bv32, b: bv32)
    ensures Step(Xor(a, b)) == Xor(Step(a), Step(b))
  {
    hide Xor, Half, Odd;
    XorLaws(a, b);
    XorRearrange(POLYNOMIAL, Half(a), Half(b));
  }

  lemma {:induction false} StepsLinear(a: bv32, b: bv32, n: nat)
    ensures Steps(Xor(a, b), n) == Xor(Steps(a, n), Steps(b, n))
    decreases n
  {
    hide Step, Xor;
    if n > 0 {
      StepLinear(a, b);
      StepsLinear(Step(a), Step(b), n - 1);
    }
  }

  function Shifted(c: bv32, n: nat): bv32
    decreases n
  {
    if n == 0 then c else Shifted(Half(c), n - 1)
  }

  predicate EvenFor(c: bv32, n: nat)
    decreases n
  {
    n == 0 || (!Odd(c) && EvenFor(Half(c), n - 1))
  }

  lemma {:induction false} EvenSteps(c: bv32, n: nat)
    requires EvenFor(c, n)
    ensures Steps(c, n) == Shifted(c, n)
    decreases n
  {
    hide Half, Odd, Xor;
    if n > 0 {
      EvenSteps(Half(c), n - 1);
    }
  }

  lemma LowZero(c: bv32)
    requires Low(c) == 0
    ensures EvenFor(c, 8) && Shifted(c, 8) == High(c)
  {
    var d := c >> 4;
    LowZero4(c);
    LowZero4(d);
    assert Shifted(c, 8) == Shifted(Half(Half(Half(Half(c)))), 4);
    assert EvenFor(c, 8) by {
      assert EvenFor(d, 4);
      assert EvenFor(c >> 3, 5) && EvenFor(c >> 2, 6) && EvenFor(c >> 1, 7);
    }
  }

  lemma LowZero4(c: bv32)
    requires c & 0xf == 0
    ensures !Odd(c) && !Odd(c >> 1) && !Odd(c >> 2) && !Odd(c >> 3)
    ensures Half(c) == c >> 1 && Half(c >> 1) == c >> 2 && Half(c >> 2) == c >> 3 && Half(c >> 3) == c >> 4
  {
  }

  /** Eight steps depend on the low byte only through the table. */
  lemma TableStep(c: bv32)
    ensures Steps(c, 8) == Xor(Steps(Low(c), 8), High(c))
  {
    hide Steps, Xor, Low, High, EvenFor, Shifted;
    var high := c & 0xffff_ff00;
    SplitBytes(c);
    LowZero(high);
    EvenSteps(high, 8);
    StepsLinear(Low(c), high, 8);
  }

  lemma StepIsShiftIn(c: bv32, x: nat)
    requires x < 256
    ensures Step(Xor(c, x as bv32)) == Xor(ShiftIn(c, x % 2 == 1), (x / 2) as bv32)
  {
    hide Xor, Half, Odd;
    ByteAsBits(x);
    XorLaws(c, x as bv32);
    XorRearrange(POLYNOMIAL, Half(c), (x / 2) as bv32);
  }

  lemma {:induction false} ByteDivision(c: bv32, x: nat, n: nat)
    requires n <= 8 && x < Pow2(n) && x < 256
    ensures Steps(Xor(c, x as bv32), n) == Divide(c, ToBits(x, n))
    decreases n
  {
    hide Xor, Step, ShiftIn;
    if n == 0 {
      XorLaws(c, 0);
    } else {
      StepIsShiftIn(c, x);
      ByteDivision(ShiftIn(c, x % 2 == 1), x / 2, n - 1);
      assert ToBits(x, n)[1..] == ToBits(x / 2, n - 1);
    }
  }

  ghost predicate IsTable(table: seq<bv32>) {
    |table| == 256 && forall i :: 0 <= i < 256 ==> table[i] == Steps(i as bv32, 8)
  }

  /** `CRC_TABLE` */
  method BuildTable() returns (table: seq<bv32>)
    ensures IsTable(table)
  {
    hide Step;
    table := [];
    for index := 0 to 256
      invariant |table| == index
      invariant forall i :: 0 <= i < index ==> table[i] == Steps(i as bv32, 8)
    {
      var crc := index as bv32;
      for i := 0 to 8
        invariant Steps(crc, 8 - i) == Steps(index as bv32, 8)
      {
        StepAsCode(crc);
        crc := if crc & 1 == 1 then POLYNOMIAL ^ (crc >> 1) else crc >> 1;
      }
      table := table + [crc];
    }
  }

  lemma StepAsCode(crc: bv32)
    ensures Step(crc) == if crc & 1 == 1 then POLYNOMIAL ^ (crc >> 1) else crc >> 1
  {
  }

  lemma NextByte(crc: bv32, value: Byte, table: seq<bv32>)
    requires IsTable(table)
    ensures var index := Low(Xor(crc, value as bv32)) as int;
            0 <= index < 256 && Xor(table[index], High(crc)) == Divide(crc, ToBits(value, 8))
  {
    hide Steps, Divide, Xor, Low, High, JsInt.ToBits, JsInt.Scale;
    var mixed := Xor(crc, value as bv32);
    LowIndex(mixed);
    TableStep(mixed);
    HighUnchanged(crc, value);
    SmallPowers();
    ByteDivision(crc, value, 8);
  }

  /** `CRC_TABLE[(crc ^ value) & 0xff] ^ (crc >>> 8)` */
  function Update(table: seq<bv32>, crc: bv32, value: Byte): bv32
    requires |table| == 256
  {
    LowIndex(Xor(crc, value as bv32));
    Xor(table[Low(Xor(crc, value as bv32)) as int], High(crc))
  }

  /** `crc32`, computed a byte at a time, equals the bit-at-a-time division. */
  method Crc32(buffer: seq<Byte>) returns (r: bv32)
    ensures r == BitwiseCrc(buffer)
  {
    hide Divide, Xor, JsInt.ToBits, Update;
    var table := BuildTable();
    var crc: bv32 := 0xffff_ffff;
    DivideNothing(crc);
    for i := 0 to |buffer|
      invariant crc == Divide(0xffff_ffff, BytesBits(buffer[..i]))
    {
      var value := buffer[i];
      UpdateDivides(crc, value, table);
      DivideAppend(0xffff_ffff, BytesBits(buffer[..i]), ToBits(value, 8));
      assert buffer[..i + 1][..i] == buffer[..i];
      crc := Update(table, crc, value);
    }
    assert buffer[..|buffer|] == buffer;
    r := Xor(crc, 0xffff_ffff);
  }

  lemma UpdateDivides(crc: bv32, value: Byte, table: seq<bv32>)
    requires IsTable(table)
    ensures Update(table, crc, value) == Divide(crc, ToBits(value, 8))
  {
    hide Divide, Xor, Low, High, Steps, JsInt.ToBits;
    NextByte(crc, value, table);
  }

  lemma DivideNothing(c: bv32)
    ensures Divide(c, []) == c
  {
  }
}
