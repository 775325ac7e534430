/** The table-driven CRC-16 of the XMODEM sender (example/api/los_api_xmodem.c): the cyclic redundancy check with the
    generator x^16 + x^12 + x^5 + 1 of ITU-T Recommendation V.41 and an initial value of zero. */
module Crc {

  const GENERATOR: bv16 := 0x1021      // without the leading x^16

  // ---------------------------------------------------------------- polynomial division, bit by bit

  /** Addition of polynomials over GF(2), which is also subtraction. */
  function Plus(a: bv16, b: bv16): bv16 { a ^ b }

  function Leading(w: bv16): bool { w & 0x8000 != 0 }

  function BringDown(rem: bv16, bit: bool): bv16 { (rem << 1) | (if bit then 1 else 0) }

  function Gen(carry: bool): bv16 { if carry then GENERATOR else 0 }

  /** One step of long division: bring down the next bit, and subtract the generator if the leading coefficient was
      1. */
  function DivideBit(rem: bv16, bit: bool): bv16
  {
    Plus(BringDown(rem, bit), Gen(Leading(rem)))
  }

  /** The remainder of a polynomial, given by its coefficients from the highest down. */
  function Divide(rem: bv16, bits: seq<bool>): bv16
    decreases |bits|
  {
    if |bits| == 0 then rem else Divide(DivideBit(rem, bits[0]), bits[1..])
  }

  function BitsOfByte(b: bv16): seq<bool>
  {
    [b & 0x80 != 0, b & 0x40 != 0, b & 0x20 != 0, b & 0x10 != 0, b & 8 != 0, b & 4 != 0, b & 2 != 0, b & 1 != 0]
  }

  function BitsOf(buf: seq<bv16>): seq<bool>
  {
    if |buf| == 0 then [] else BitsOf(buf[..|buf| - 1]) + BitsOfByte(buf[|buf| - 1])
  }

  function Zeros(n: nat): seq<bool>
  {
    seq(n, i => false)
  }

  predicate Bytes(buf: seq<bv16>)
  {
    forall i | 0 <= i < |buf| :: buf[i] < 0x100
  }

  // ---------------------------------------------------------------- multiplication by powers of x

  /** The remainder times x. */
  function TimesX(r: bv16): bv16
  {
    (r << 1) ^ (if r & 0x8000 != 0 then GENERATOR else 0)
  }

  function Eight(r: bv16): bv16
  {
    TimesX(TimesX(TimesX(TimesX(TimesX(TimesX(TimesX(TimesX(r))))))))
  }

  function Shl(w: bv16): bv16 { w << 1 }

  lemma PlusRearrange(a: bv16, b: bv16, x: bv16, y: bv16)
    ensures Plus(Plus(a, b), Plus(x, y)) == Plus(Plus(a, x), Plus(b, y))
    ensures Plus(Plus(a, b), x) == Plus(a, Plus(b, x)) && Plus(Plus(a, b), x) == Plus(Plus(a, x), b)
  {
  }

  lemma ShiftedPlus(a: bv16, b: bv16)
    ensures Shl(Plus(a, b)) == Plus(Shl(a), Shl(b))
  {
    assert (a ^ b) << 1 == (a << 1) ^ (b << 1);
  }

  lemma LeadingPlus(a: bv16, b: bv16)
    ensures Leading(Plus(a, b)) <==> Leading(a) != Leading(b)
  {
    assert (a ^ b) & 0x8000 != 0 <==> (a & 0x8000 != 0) != (b & 0x8000 != 0);
  }

  lemma GenPlus(p: bool, q: bool)
    ensures Plus(Gen(p), Gen(q)) == Gen(p != q)
  {
  }

  lemma TimesXParts(r: bv16)
    ensures TimesX(r) == Plus(Shl(r), Gen(Leading(r)))
  {
    var a := r << 1;
    var b: bv16 := if r & 0x8000 != 0 then GENERATOR else 0;
    PlusIs(a, b);
    assert TimesX(r) == a ^ b && a == Shl(r) && b == Gen(Leading(r));
    hide *;
  }

  lemma PlusIs(a: bv16, b: bv16)
    ensures Plus(a, b) == a ^ b
  {
  }

  lemma TimesXLinear(a: bv16, b: bv16)
    ensures TimesX(Plus(a, b)) == Plus(TimesX(a), TimesX(b))
  {
    hide TimesX, Plus, Shl, Leading, Gen;
    TimesXParts(a);
    TimesXParts(b);
    TimesXParts(Plus(a, b));
    ShiftedPlus(a, b);
    LeadingPlus(a, b);
    GenPlus(Leading(a), Leading(b));
    PlusRearrange(Shl(a), Gen(Leading(a)), Shl(b), Gen(Leading(b)));
  }

  lemma EightLinear(a: bv16, b: bv16)
    ensures Eight(Plus(a, b)) == Plus(Eight(a), Eight(b))
  {
    hide TimesX, Plus;
    TimesXLinear(a, b);
    var a1, b1 := TimesX(a), TimesX(b);
    TimesXLinear(a1, b1);
    var a2, b2 := TimesX(a1), TimesX(b1);
    TimesXLinear(a2, b2);
    var a3, b3 := TimesX(a2), TimesX(b2);
    TimesXLinear(a3, b3);
    var a4, b4 := TimesX(a3), TimesX(b3);
    TimesXLinear(a4, b4);
    var a5, b5 := TimesX(a4), TimesX(b4);
    TimesXLinear(a5, b5);
    var a6, b6 := TimesX(a5), TimesX(b5);
    TimesXLinear(a6, b6);
    var a7, b7 := TimesX(a6), TimesX(b6);
    TimesXLinear(a7, b7);
  }

  /** A short remainder is only shifted. */
  lemma EightLow(r: bv16)
    requires r < 0x100
    ensures Eight(r) == r << 8
  {
  }

  // ---------------------------------------------------------------- the table

  function Row0(j: bv16): bv16
  {
    if j == 0 then 0x0000 else if j == 1 then 0x1021 else if j == 2 then 0x2042 else if j == 3 then 0x3063
    else if j == 4 then 0x4084 else if j == 5 then 0x50a5 else if j == 6 then 0x60c6 else if j == 7 then 0x70e7
    else if j == 8 then 0x8108 else if j == 9 then 0x9129 else if j == 10 then 0xa14a else if j == 11 then 0xb16b
    else if j == 12 then 0xc18c else if j == 13 then 0xd1ad else if j == 14 then 0xe1ce else 0xf1ef
  }

  function Row1(j: bv16): bv16
  {
    if j == 0 then 0x1231 else if j == 1 then 0x0210 else if j == 2 then 0x3273 else if j == 3 then 0x2252
    else if j == 4 then 0x52b5 else if j == 5 then 0x4294 else if j == 6 then 0x72f7 else if j == 7 then 0x62d6
    else if j == 8 then 0x9339 else if j == 9 then 0x8318 else if j == 10 then 0xb37b else if j == 11 then 0xa35a
    else if j == 12 then 0xd3bd else if j == 13 then 0xc39c else if j == 14 then 0xf3ff else 0xe3de
  }

  function Row2(j: bv16): bv16
  {
    if j == 0 then 0x2462 else if j == 1 then 0x3443 else if j == 2 then 0x0420 else if j == 3 then 0x1401
    else if j == 4 then 0x64e6 else if j == 5 then 0x74c7 else if j == 6 then 0x44a4 else if j == 7 then 0x5485
    else if j == 8 then 0xa56a else if j == 9 then 0xb54b else if j == 10 then 0x8528 else if j == 11 then 0x9509
    else if j == 12 then 0xe5ee else if j == 13 then 0xf5cf else if j == 14 then 0xc5ac else 0xd58d
  }

  function Row3(j: bv16): bv16
  {
    if j == 0 then 0x3653 else if j == 1 then 0x2672 else if j == 2 then 0x1611 else if j == 3 then 0x0630
    else if j == 4 then 0x76d7 else if j == 5 then 0x66f6 else if j == 6 then 0x5695 else if j == 7 then 0x46b4
    else if j == 8 then 0xb75b else if j == 9 then 0xa77a else if j == 10 then 0x9719 else if j == 11 then 0x8738
    else if j == 12 then 0xf7df else if j == 13 then 0xe7fe else if j == 14 then 0xd79d else 0xc7bc
  }

  function Row4(j: bv16): bv16
  {
    if j == 0 then 0x48c4 else if j == 1 then 0x58e5 else if j == 2 then 0x6886 else if j == 3 then 0x78a7
    else if j == 4 then 0x0840 else if j == 5 then 0x1861 else if j == 6 then 0x2802 else if j == 7 then 0x3823
    else if j == 8 then 0xc9cc else if j == 9 then 0xd9ed else if j == 10 then 0xe98e else if j == 11 then 0xf9af
    else if j == 12 then 0x8948 else if j == 13 then 0x9969 else if j == 14 then 0xa90a else 0xb92b
  }

  function Row5(j: bv16): bv16
  {
    if j == 0 then 0x5af5 else if j == 1 then 0x4ad4 else if j == 2 then 0x7ab7 else if j == 3 then 0x6a96
    else if j == 4 then 0x1a71 else if j == 5 then 0x0a50 else if j == 6 then 0x3a33 else if j == 7 then 0x2a12
    else if j == 8 then 0xdbfd else if j == 9 then 0xcbdc else if j == 10 then 0xfbbf else if j == 11 then 0xeb9e
    else if j == 12 then 0x9b79 else if j == 13 then 0x8b58 else if j == 14 then 0xbb3b else 0xab1a
  }

  function Row6(j: bv16): bv16
  {
    if j == 0 then 0x6ca6 else if j == 1 then 0x7c87 else if j == 2 then 0x4ce4 else if j == 3 then 0x5cc5
    else if j == 4 then 0x2c22 else if j == 5 then 0x3c03 else if j == 6 then 0x0c60 else if j == 7 then 0x1c41
    else if j == 8 then 0xedae else if j == 9 then 0xfd8f else if j == 10 then 0xcdec else if j == 11 then 0xddcd
    else if j == 12 then 0xad2a else if j == 13 then 0xbd0b else if j == 14 then 0x8d68 else 0x9d49
  }

  function Row7(j: bv16): bv16
  {
    if j == 0 then 0x7e97 else if j == 1 then 0x6eb6 else if j == 2 then 0x5ed5 else if j == 3 then 0x4ef4
    else if j == 4 then 0x3e13 else if j == 5 then 0x2e32 else if j == 6 then 0x1e51 else if j == 7 then 0x0e70
    else if j == 8 then 0xff9f else if j == 9 then 0xefbe else if j == 10 then 0xdfdd else if j == 11 then 0xcffc
    else if j == 12 then 0xbf1b else if j == 13 then 0xaf3a else if j == 14 then 0x9f59 else 0x8f78
  }

  function Row8(j: bv16): bv16
  {
    if j == 0 then 0x9188 else if j == 1 then 0x81a9 else if j == 2 then 0xb1ca else if j == 3 then 0xa1eb
    else if j == 4 then 0xd10c else if j == 5 then 0xc12d else if j == 6 then 0xf14e else if j == 7 then 0xe16f
    else if j == 8 then 0x1080 else if j == 9 then 0x00a1 else if j == 10 then 0x30c2 else if j == 11 then 0x20e3
    else if j == 12 then 0x5004 else if j == 13 then 0x4025 else if j == 14 then 0x7046 else 0x6067
  }

  function Row9(j: bv16): bv16
  {
    if j == 0 then 0x83b9 else if j == 1 then 0x9398 else if j == 2 then 0xa3fb else if j == 3 then 0xb3da
    else if j == 4 then 0xc33d else if j == 5 then 0xd31c else if j == 6 then 0xe37f else if j == 7 then 0xf35e
    else if j == 8 then 0x02b1 else if j == 9 then 0x1290 else if j == 10 then 0x22f3 else if j == 11 then 0x32d2
    else if j == 12 then 0x4235 else if j == 13 then 0x5214 else if j == 14 then 0x6277 else 0x7256
  }

  function Row10(j: bv16): bv16
  {
    if j == 0 then 0xb5ea else if j == 1 then 0xa5cb else if j == 2 then 0x95a8 else if j == 3 then 0x8589
    else if j == 4 then 0xf56e else if j == 5 then 0xe54f else if j == 6 then 0xd52c else if j == 7 then 0xc50d
    else if j == 8 then 0x34e2 else if j == 9 then 0x24c3 else if j == 10 then 0x14a0 else if j == 11 then 0x0481
    else if j == 12 then 0x7466 else if j == 13 then 0x6447 else if j == 14 then 0x5424 else 0x4405
  }

  function Row11(j: bv16): bv16
  {
    if j == 0 then 0xa7db else if j == 1 then 0xb7fa else if j == 2 then 0x8799 else if j == 3 then 0x97b8
    else if j == 4 then 0xe75f else if j == 5 then 0xf77e else if j == 6 then 0xc71d else if j == 7 then 0xd73c
    else if j == 8 then 0x26d3 else if j == 9 then 0x36f2 else if j == 10 then 0x0691 else if j == 11 then 0x16b0
    else if j == 12 then 0x6657 else if j == 13 then 0x7676 else if j == 14 then 0x4615 else 0x5634
  }

  function Row12(j: bv16): bv16
  {
    if j == 0 then 0xd94c else if j == 1 then 0xc96d else if j == 2 then 0xf90e else if j == 3 then 0xe92f
    else if j == 4 then 0x99c8 else if j == 5 then 0x89e9 else if j == 6 then 0xb98a else if j == 7 then 0xa9ab
    else if j == 8 then 0x5844 else if j == 9 then 0x4865 else if j == 10 then 0x7806 else if j == 11 then 0x6827
    else if j == 12 then 0x18c0 else if j == 13 then 0x08e1 else if j == 14 then 0x3882 else 0x28a3
  }

  function Row13(j: bv16): bv16
  {
    if j == 0 then 0xcb7d else if j == 1 then 0xdb5c else if j == 2 then 0xeb3f else if j == 3 then 0xfb1e
    else if j == 4 then 0x8bf9 else if j == 5 then 0x9bd8 else if j == 6 then 0xabbb else if j == 7 then 0xbb9a
    else if j == 8 then 0x4a75 else if j == 9 then 0x5a54 else if j == 10 then 0x6a37 else if j == 11 then 0x7a16
    else if j == 12 then 0x0af1 else if j == 13 then 0x1ad0 else if j == 14 then 0x2ab3 else 0x3a92
  }

  function Row14(j: bv16): bv16
  {
    if j == 0 then 0xfd2e else if j == 1 then 0xed0f else if j == 2 then 0xdd6c else if j == 3 then 0xcd4d
    else if j == 4 then 0xbdaa else if j == 5 then 0xad8b else if j == 6 then 0x9de8 else if j == 7 then 0x8dc9
    else if j == 8 then 0x7c26 else if j == 9 then 0x6c07 else if j == 10 then 0x5c64 else if j == 11 then 0x4c45
    else if j == 12 then 0x3ca2 else if j == 13 then 0x2c83 else if j == 14 then 0x1ce0 else 0x0cc1
  }

  function Row15(j: bv16): bv16
  {
    if j == 0 then 0xef1f else if j == 1 then 0xff3e else if j == 2 then 0xcf5d else if j == 3 then 0xdf7c
    else if j == 4 then 0xaf9b else if j == 5 then 0xbfba else if j == 6 then 0x8fd9 else if j == 7 then 0x9ff8
    else if j == 8 then 0x6e17 else if j == 9 then 0x7e36 else if j == 10 then 0x4e55 else if j == 11 then 0x5e74
    else if j == 12 then 0x2e93 else if j == 13 then 0x3eb2 else if j == 14 then 0x0ed1 else 0x1ef0
  }

  /** `crc16tab`, by the high and the low half of the index. */
  function Crc16Tab(i: bv16): bv16
  {
    var k, j := i >> 4, i & 15;
    if k == 0 then Row0(j)
    else if k == 1 then Row1(j)
    else if k == 2 then Row2(j)
    else if k == 3 then Row3(j)
    else if k == 4 then Row4(j)
    else if k == 5 then Row5(j)
    else if k == 6 then Row6(j)
    else if k == 7 then Row7(j)
    else if k == 8 then Row8(j)
    else if k == 9 then Row9(j)
    else if k == 10 then Row10(j)
    else if k == 11 then Row11(j)
    else if k == 12 then Row12(j)
    else if k == 13 then Row13(j)
    else if k == 14 then Row14(j)
    else Row15(j)
  }

  lemma Row0Ok(i: bv16)
    requires i >> 4 == 0
    ensures Row0(i & 15) == Eight(i << 8)
  {
  }

  lemma Row1Ok(i: bv16)
    requires i >> 4 == 1
    ensures Row1(i & 15) == Eight(i << 8)
  {
  }

  lemma Row2Ok(i: bv16)
    requires i >> 4 == 2
    ensures Row2(i & 15) == Eight(i << 8)
  {
  }

  lemma Row3Ok(i: bv16)
    requires i >> 4 == 3
    ensures Row3(i & 15) == Eight(i << 8)
  {
  }

  lemma Row4Ok(i: bv16)
    requires i >> 4 == 4
    ensures Row4(i & 15) == Eight(i << 8)
  {
  }

  lemma Row5Ok(i: bv16)
    requires i >> 4 == 5
    ensures Row5(i & 15) == Eight(i << 8)
  {
  }

  lemma Row6Ok(i: bv16)
    requires i >> 4 == 6
    ensures Row6(i & 15) == Eight(i << 8)
  {
  }

  lemma Row7Ok(i: bv16)
    requires i >> 4 == 7
    ensures Row7(i & 15) == Eight(i << 8)
  {
  }

  lemma Row8Ok(i: bv16)
    requires i >> 4 == 8
    ensures Row8(i & 15) == Eight(i << 8)
  {
  }

  lemma Row9Ok(i: bv16)
    requires i >> 4 == 9
    ensures Row9(i & 15) == Eight(i << 8)
  {
  }

  lemma Row10Ok(i: bv16)
    requires i >> 4 == 10
    ensures Row10(i & 15) == Eight(i << 8)
  {
  }

  lemma Row11Ok(i: bv16)
    requires i >> 4 == 11
    ensures Row11(i & 15) == Eight(i << 8)
  {
  }

  lemma Row12Ok(i: bv16)
    requires i >> 4 == 12
    ensures Row12(i & 15) == Eight(i << 8)
  {
  }

  lemma Row13Ok(i: bv16)
    requires i >> 4 == 13
    ensures Row13(i & 15) == Eight(i << 8)
  {
  }

  lemma Row14Ok(i: bv16)
    requires i >> 4 == 14
    ensures Row14(i & 15) == Eight(i << 8)
  {
  }

  lemma Row15Ok(i: bv16)
    requires i >> 4 == 15
    ensures Row15(i & 15) == Eight(i << 8)
  {
  }

  /** Every entry of the table is the index, as the high byte of a remainder, times x^8. */
  lemma TableOk(i: bv16)
    requires i < 0x100
    ensures Crc16Tab(i) == Eight(i << 8)
  {
    HighHalf(i);
    hide Eight, Row0, Row1, Row2, Row3, Row4, Row5, Row6, Row7, Row8, Row9, Row10, Row11, Row12, Row13, Row14, Row15;
    if i >> 4 == 0 { Row0Ok(i); }
    if i >> 4 == 1 { Row1Ok(i); }
    if i >> 4 == 2 { Row2Ok(i); }
    if i >> 4 == 3 { Row3Ok(i); }
    if i >> 4 == 4 { Row4Ok(i); }
    if i >> 4 == 5 { Row5Ok(i); }
    if i >> 4 == 6 { Row6Ok(i); }
    if i >> 4 == 7 { Row7Ok(i); }
    if i >> 4 == 8 { Row8Ok(i); }
    if i >> 4 == 9 { Row9Ok(i); }
    if i >> 4 == 10 { Row10Ok(i); }
    if i >> 4 == 11 { Row11Ok(i); }
    if i >> 4 == 12 { Row12Ok(i); }
    if i >> 4 == 13 { Row13Ok(i); }
    if i >> 4 == 14 { Row14Ok(i); }
    if i >> 4 == 15 { Row15Ok(i); }
  }

  lemma HighHalf(i: bv16)
    requires i < 0x100
    ensures i >> 4 < 16
  {
  }

  // ---------------------------------------------------------------- one byte

  /** One round of the loop of `LOS_xModemCRC16`. */
  function TableStep(crc: bv16, b: bv16): bv16
  {
    Plus(AtTop(crc), Crc16Tab(Low(Plus(High(crc), b))))
  }

  /** A byte as the leading coefficients of a remainder. */
  function AtTop(b: bv16): bv16 { b << 8 }

  function High(y: bv16): bv16 { y >> 8 }

  function Low(y: bv16): bv16 { y & 0xff }

  /** The table step adds the byte at the top of the remainder and multiplies by x^8. */
  lemma TableStepMeaning(c: bv16, b: bv16)
    requires b < 0x100
    ensures TableStep(c, b) == Eight(Plus(c, AtTop(b)))
  {
    hide Eight, Crc16Tab, Plus, AtTop, Low, High;
    var y := Plus(c, AtTop(b));
    HighIndex(c, b);
    LowShift(c, b);
    Halves(y);
    TableAtTop(High(y));
    LowAtTop(Low(y));
    EightLinear(AtTop(High(y)), Low(y));
    PlusCommutes(AtTop(Low(y)), Eight(AtTop(High(y))));
  }

  lemma TableAtTop(i: bv16)
    requires i < 0x100
    ensures Crc16Tab(i) == Eight(AtTop(i))
  {
    hide Eight, Crc16Tab;
    TableOk(i);
  }

  lemma LowAtTop(r: bv16)
    requires r < 0x100
    ensures Eight(r) == AtTop(r)
  {
    hide Eight;
    EightLow(r);
  }

  lemma HighIndex(c: bv16, b: bv16)
    requires b < 0x100
    ensures Low(Plus(High(c), b)) == High(Plus(c, AtTop(b)))
  {
  }

  lemma LowShift(c: bv16, b: bv16)
    ensures AtTop(c) == AtTop(Low(Plus(c, AtTop(b))))
  {
  }

  lemma Halves(y: bv16)
    ensures High(y) < 0x100 && Low(y) < 0x100 && y == Plus(AtTop(High(y)), Low(y))
  {
  }

  lemma PlusCommutes(a: bv16, b: bv16)
    ensures Plus(a, b) == Plus(b, a)
  {
  }

  /** One bit of the same: the bit is added at the top. */
  function Top(bit: bool): bv16 { if bit then 0x8000 else 0 }

  function TopStep(c: bv16, bit: bool): bv16
  {
    TimesX(Plus(c, Top(bit)))
  }

  lemma TopTimesX(bit: bool)
    ensures TimesX(Top(bit)) == Gen(bit)
  {
  }

  lemma TopStepShift(c: bv16, w: bv16)
    ensures TimesX(Plus(c, w)) == Plus(TopStep(c, Leading(w)), Shl(w))
  {
    hide TimesX, Plus, Shl, Leading, Gen, Top;
    TimesXLinear(c, w);
    TimesXParts(w);
    TimesXLinear(c, Top(Leading(w)));
    TopTimesX(Leading(w));
    PlusRearrange(TimesX(c), Shl(w), Gen(Leading(w)), 0);
  }

  function TopByte(c: bv16, t: seq<bool>): bv16
    requires |t| == 8
  {
    TopStep(TopStep(TopStep(TopStep(TopStep(TopStep(TopStep(TopStep(c, t[0]), t[1]), t[2]), t[3]), t[4]), t[5]), t[6]),
      t[7])
  }

  lemma LeadingBits(b: bv16)
    requires b < 0x100
    ensures var w0 := AtTop(b); var w1 := Shl(w0); var w2 := Shl(w1); var w3 := Shl(w2);
            var w4 := Shl(w3); var w5 := Shl(w4); var w6 := Shl(w5); var w7 := Shl(w6);
            && BitsOfByte(b) == [Leading(w0), Leading(w1), Leading(w2), Leading(w3), Leading(w4), Leading(w5),
               Leading(w6), Leading(w7)]
            && Shl(w7) == 0
  {
  }

  /** Adding a byte at the top and multiplying by x^8 is adding its bits one by one. */
  lemma EightIsTopByte(c: bv16, b: bv16)
    requires b < 0x100
    ensures |BitsOfByte(b)| == 8 && Eight(Plus(c, AtTop(b))) == TopByte(c, BitsOfByte(b))
  {
    hide TimesX, TopStep, Plus, AtTop, Leading, Shl, BitsOfByte;
    LeadingBits(b);
    var t := BitsOfByte(b);
    var w0 := AtTop(b);
    var c1, w1 := TopStep(c, t[0]), Shl(w0);
    var c2, w2 := TopStep(c1, t[1]), Shl(w1);
    var c3, w3 := TopStep(c2, t[2]), Shl(w2);
    var c4, w4 := TopStep(c3, t[3]), Shl(w3);
    var c5, w5 := TopStep(c4, t[4]), Shl(w4);
    var c6, w6 := TopStep(c5, t[5]), Shl(w5);
    var c7, w7 := TopStep(c6, t[6]), Shl(w6);
    TopStepShift(c, w0);
    TopStepShift(c1, w1);
    TopStepShift(c2, w2);
    TopStepShift(c3, w3);
    TopStepShift(c4, w4);
    TopStepShift(c5, w5);
    TopStepShift(c6, w6);
    TopStepShift(c7, w7);
    PlusZero(TopStep(c7, t[7]));
  }

  lemma PlusZero(a: bv16)
    ensures Plus(a, 0) == a
  {
  }

  // ---------------------------------------------------------------- the register is the remainder times x^16

  function Sixteen(r: bv16): bv16 { Eight(Eight(r)) }

  lemma SixteenLinear(a: bv16, b: bv16)
    ensures Sixteen(Plus(a, b)) == Plus(Sixteen(a), Sixteen(b))
  {
    hide Eight, Plus;
    EightLinear(a, b);
    EightLinear(Eight(a), Eight(b));
  }

  lemma SixteenTimesX(r: bv16)
    ensures Sixteen(TimesX(r)) == TimesX(Sixteen(r))
  {
    hide TimesX;
  }

  function One(bit: bool): bv16 { if bit then 1 else 0 }

  lemma SixteenOfBit(bit: bool)
    ensures Sixteen(One(bit)) == Gen(bit)
  {
    assert Sixteen(0) == 0 && Sixteen(1) == GENERATOR;
  }

  lemma EvenOrBit(r: bv16, bit: bool)
    ensures (r << 1) | (if bit then 1 else 0) == (r << 1) ^ (if bit then 1 else 0)
  {
  }

  lemma BroughtDown(r: bv16, bit: bool)
    ensures BringDown(r, bit) == Plus(Shl(r), One(bit))
  {
    EvenOrBit(r, bit);
  }

  lemma DivideBitParts(r: bv16, bit: bool)
    ensures DivideBit(r, bit) == Plus(TimesX(r), One(bit))
  {
    hide TimesX, BringDown, Plus, Shl, Leading, Gen, One;
    BroughtDown(r, bit);
    TimesXParts(r);
    PlusRearrange(Shl(r), One(bit), Gen(Leading(r)), 0);
  }

  lemma BitInvariant(r: bv16, bit: bool)
    ensures TopStep(Sixteen(r), bit) == Sixteen(DivideBit(r, bit))
  {
    hide Sixteen, TimesX, DivideBit, Plus, Gen, One, Top;
    DivideBitParts(r, bit);
    SixteenLinear(TimesX(r), One(bit));
    SixteenTimesX(r);
    SixteenOfBit(bit);
    TimesXLinear(Sixteen(r), Top(bit));
    TopTimesX(bit);
  }

  lemma ByteInvariant(r: bv16, b: bv16)
    requires b < 0x100
    ensures TableStep(Sixteen(r), b) == Sixteen(Divide(r, BitsOfByte(b)))
  {
    hide TableStep, Eight, TopStep, Sixteen, DivideBit, BitsOfByte, Divide, Plus, AtTop;
    TableStepMeaning(Sixteen(r), b);
    EightIsTopByte(Sixteen(r), b);
    var t := BitsOfByte(b);
    DivideEight(r, t);
    var r1 := DivideBit(r, t[0]);
    var r2 := DivideBit(r1, t[1]);
    var r3 := DivideBit(r2, t[2]);
    var r4 := DivideBit(r3, t[3]);
    var r5 := DivideBit(r4, t[4]);
    var r6 := DivideBit(r5, t[5]);
    var r7 := DivideBit(r6, t[6]);
    BitInvariant(r, t[0]);
    BitInvariant(r1, t[1]);
    BitInvariant(r2, t[2]);
    BitInvariant(r3, t[3]);
    BitInvariant(r4, t[4]);
    BitInvariant(r5, t[5]);
    BitInvariant(r6, t[6]);
    BitInvariant(r7, t[7]);
  }

  function FourBits(r: bv16, a: bool, b: bool, c: bool, d: bool): bv16
  {
    DivideBit(DivideBit(DivideBit(DivideBit(r, a), b), c), d)
  }

  lemma DivideFour(r: bv16, t: seq<bool>)
    requires |t| == 4
    ensures Divide(r, t) == FourBits(r, t[0], t[1], t[2], t[3])
  {
    hide DivideBit, Divide;
    DivideNone(r);
    DivideOne(r, [], t[0]);
    DivideOne(r, [t[0]], t[1]);
    DivideOne(r, [t[0], t[1]], t[2]);
    DivideOne(r, [t[0], t[1], t[2]], t[3]);
    assert [] + [t[0]] == [t[0]] && [t[0]] + [t[1]] == [t[0], t[1]] && [t[0], t[1]] + [t[2]] == [t[0], t[1], t[2]];
    assert [t[0], t[1], t[2]] + [t[3]] == t;
  }

  lemma DivideNone(r: bv16)
    ensures Divide(r, []) == r
  {
  }

  lemma DivideEight(r: bv16, t: seq<bool>)
    requires |t| == 8
    ensures Divide(r, t) == DivideBit(DivideBit(DivideBit(DivideBit(DivideBit(DivideBit(DivideBit(DivideBit(r, t[0]),
            t[1]), t[2]), t[3]), t[4]), t[5]), t[6]), t[7])
  {
    hide DivideBit, Divide;
    assert t == t[..4] + t[4..];
    DivideAppend(r, t[..4], t[4..]);
    DivideFour(r, t[..4]);
    DivideFour(Divide(r, t[..4]), t[4..]);
  }

  lemma DivideOne(r: bv16, x: seq<bool>, bit: bool)
    ensures Divide(r, x + [bit]) == DivideBit(Divide(r, x), bit)
  {
    hide DivideBit;
    DivideAppend(r, x, [bit]);
    DivideLast(Divide(r, x), bit);
  }

  lemma DivideLast(r: bv16, bit: bool)
    ensures Divide(r, [bit]) == DivideBit(r, bit)
  {
    hide DivideBit;
    assert [bit][1..] == [];
  }

  lemma {:induction false} DivideAppend(r: bv16, x: seq<bool>, y: seq<bool>)
    ensures Divide(r, x + y) == Divide(Divide(r, x), y)
    decreases |x|
  {
    hide DivideBit;
    if |x| == 0 {
      assert x + y == y;
    } else {
      assert (x + y)[1..] == x[1..] + y;
      DivideAppend(DivideBit(r, x[0]), x[1..], y);
    }
  }

  lemma DivideZeros(r: bv16)
    ensures Divide(r, Zeros(16)) == Sixteen(r)
  {
    hide DivideBit, TimesX, Divide;
    assert Zeros(16) == Zeros(8) + Zeros(8);
    DivideAppend(r, Zeros(8), Zeros(8));
    EightZeros(r);
    EightZeros(Divide(r, Zeros(8)));
  }

  lemma EightZeros(r: bv16)
    ensures Divide(r, Zeros(8)) == Eight(r)
  {
    hide DivideBit, TimesX, Divide;
    DivideEight(r, Zeros(8));
    var r1 := TimesX(r);
    var r2 := TimesX(r1);
    var r3 := TimesX(r2);
    var r4 := TimesX(r3);
    var r5 := TimesX(r4);
    var r6 := TimesX(r5);
    var r7 := TimesX(r6);
    ZeroBit(r);
    ZeroBit(r1);
    ZeroBit(r2);
    ZeroBit(r3);
    ZeroBit(r4);
    ZeroBit(r5);
    ZeroBit(r6);
    ZeroBit(r7);
  }

  lemma ZeroBit(r: bv16)
    ensures DivideBit(r, false) == TimesX(r)
  {
    hide DivideBit, TimesX, Plus;
    DivideBitParts(r, false);
    PlusZero(TimesX(r));
  }

  // ---------------------------------------------------------------- whole buffers

  function CrcOf(buf: seq<bv16>): bv16
  {
    if |buf| == 0 then 0 else TableStep(CrcOf(buf[..|buf| - 1]), buf[|buf| - 1])
  }

  /** `LOS_xModemCRC16`. */
  method XModemCrc16(buf: seq<bv16>) returns (crc: bv16)
    requires Bytes(buf)
    ensures crc == Divide(0, BitsOf(buf) + Zeros(16))
  {
    hide TableStep, Divide, BitsOf;
    crc := 0;
    var counter := 0;
    while counter < |buf|
      invariant counter <= |buf| && crc == CrcOf(buf[..counter])
    {
      crc := TableStep(crc, buf[counter]);
      assert buf[..counter + 1][..counter] == buf[..counter];
      counter := counter + 1;
    }
    assert buf[..counter] == buf;
    CrcIsDivision(buf);
  }

  /** The register is the remainder of the message so far, times x^16. */
  lemma {:induction false} RegisterIsRemainder(buf: seq<bv16>)
    requires Bytes(buf)
    ensures CrcOf(buf) == Sixteen(Divide(0, BitsOf(buf)))
    decreases |buf|
  {
    if |buf| == 0 {
      SixteenOfBit(false);
    } else {
      var front, b := buf[..|buf| - 1], buf[|buf| - 1];
      hide TableStep, Sixteen, DivideBit, BitsOfByte;
      RegisterIsRemainder(front);
      ByteInvariant(Divide(0, BitsOf(front)), b);
      DivideAppend(0, BitsOf(front), BitsOfByte(b));
    }
  }

  /** For every buffer the table-driven sum is the remainder, by bit-by-bit division, of the message followed by 16
      zeros. */
  lemma CrcIsDivision(buf: seq<bv16>)
    requires Bytes(buf)
    ensures CrcOf(buf) == Divide(0, BitsOf(buf) + Zeros(16))
  {
    hide *;
    RegisterIsRemainder(buf);
    DivideAppend(0, BitsOf(buf), Zeros(16));
    DivideZeros(Divide(0, BitsOf(buf)));
  }

  /** Appending the two bytes of the sum, high byte first, makes the sum of the whole zero: what a receiver tests. */
  lemma AppendedSumIsZero(buf: seq<bv16>)
    requires Bytes(buf)
    ensures var crc := CrcOf(buf); CrcOf(buf + [High(crc), Low(crc)]) == 0
  {
    hide *;
    var crc := CrcOf(buf);
    AppendByte(buf, High(crc));
    AppendByte(buf + [High(crc)], Low(crc));
    assert buf + [High(crc)] + [Low(crc)] == buf + [High(crc), Low(crc)];
    SumSteps(crc);
  }

  lemma AppendByte(buf: seq<bv16>, b: bv16)
    ensures CrcOf(buf + [b]) == TableStep(CrcOf(buf), b)
  {
    hide TableStep;
    assert (buf + [b])[..|buf|] == buf;
  }

  /** The two bytes of a sum cancel it. */
  lemma SumSteps(crc: bv16)
    ensures TableStep(TableStep(crc, High(crc)), Low(crc)) == 0
  {
    hide TableStep, Eight, Plus, AtTop, High, Low;
    Halves(crc);
    TableStepMeaning(crc, High(crc));
    HighCancels(crc);
    LowAtTop(Low(crc));
    TableStepMeaning(AtTop(Low(crc)), Low(crc));
    SelfCancels(AtTop(Low(crc)));
    SixteenOfBit(false);
    EightOfZero();
  }

  lemma EightOfZero()
    ensures Eight(0) == 0
  {
  }

  lemma HighCancels(crc: bv16)
    ensures Plus(crc, AtTop(High(crc))) == Low(crc)
  {
  }

  lemma SelfCancels(b: bv16)
    ensures Plus(b, b) == 0
  {
  }
}
