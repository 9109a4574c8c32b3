/** erlang:crc32/2: the CRC of APPNOTE section 4.4.7, computed piece by piece. */
module Crc32 {
  import opened Bytes

  function ShiftOut(c: bv32): bv32 {
    if c & 1 == 1 then (c >> 1) ^ 0xEDB8_8320 else c >> 1
  }

  function FeedByte(c: bv32, b: byte): bv32 {
    var c1 := ShiftOut(c ^ (b as bv32));
    var c3 := ShiftOut(ShiftOut(c1));
    var c5 := ShiftOut(ShiftOut(c3));
    ShiftOut(ShiftOut(ShiftOut(c5)))
  }

  function Feed(c: bv32, data: Data): bv32 {
    if data == [] then c else FeedByte(Feed(c, data[..|data| - 1]), data[|data| - 1])
  }

  function Inverted(c: bv32): bv32 {
    !c
  }

  /** Continue a checksum with more data. */
  function Crc(sum: bv32, data: Data): bv32 {
    Inverted(Feed(Inverted(sum), data))
  }

  function Number(c: bv32): (n: nat)
    ensures n < U32
  {
    c as nat
  }

  lemma NumberIsValue(c: bv32)
    ensures Number(c) as bv32 == c
  {
  }

  lemma {:induction false} FeedConcat(c: bv32, a: Data, b: Data)
    ensures Feed(c, a + b) == Feed(Feed(c, a), b)
  {
    hide FeedByte;
    if b == [] {
      assert a + b == a;
    } else {
      assert (a + b)[..|a + b| - 1] == a + b[..|b| - 1];
      FeedConcat(c, a, b[..|b| - 1]);
    }
  }

  lemma TwiceInverted(c: bv32)
    ensures Inverted(Inverted(c)) == c
  {
  }

  /** A checksum continued over the pieces is the checksum of the whole. */
  lemma {:induction false} CrcConcat(sum: bv32, a: Data, b: Data)
    ensures Crc(Crc(sum, a), b) == Crc(sum, a + b)
  {
    hide Feed, Inverted;
    FeedConcat(Inverted(sum), a, b);
    TwiceInverted(Feed(Inverted(sum), a));
  }

  // ---- The checksum is a remainder ----

  function Lowest(c: bv32): bool {
    c & 1 == 1
  }

  /** One step of dividing by x^32 + x^26 + x^23 + x^22 + x^16 + x^12 + x^11 + x^10 +
      x^8 + x^7 + x^5 + x^4 + x^2 + x + 1.  The highest coefficient of the remainder
      is its lowest bit; the next bit of the message comes in there. */
  function Divide(r: bv32, bit: bool): bv32 {
    if Lowest(r) != bit then (r >> 1) ^ 0xEDB8_8320 else r >> 1
  }

  function DivideAll(r: bv32, bits: seq<bool>): bv32 {
    if bits == [] then r else Divide(DivideAll(r, bits[..|bits| - 1]), bits[|bits| - 1])
  }

  function Half(x: bv32): bv32 {
    x >> 1
  }

  function HalfTimes(x: bv32, n: nat): bv32 {
    if n == 0 then x else Half(HalfTimes(x, n - 1))
  }

  /** The bits of a byte, least significant first. */
  function ByteBits(b: byte): (bits: seq<bool>)
    ensures |bits| == 8
  {
    seq(8, i requires 0 <= i < 8 => Lowest(HalfTimes(b as bv32, i)))
  }

  function BitsOf(data: Data): seq<bool> {
    if data == [] then [] else BitsOf(data[..|data| - 1]) + ByteBits(data[|data| - 1])
  }

  /** The bits in the opposite order. */
  function Reflect(c: bv32): bv32 {
    var a := ((c >> 1) & 0x5555_5555) | ((c & 0x5555_5555) << 1);
    var b := ((a >> 2) & 0x3333_3333) | ((a & 0x3333_3333) << 2);
    var d := ((b >> 4) & 0x0F0F_0F0F) | ((b & 0x0F0F_0F0F) << 4);
    var e := ((d >> 8) & 0x00FF_00FF) | ((d & 0x00FF_00FF) << 8);
    (e >> 16) | (e << 16)
  }

  /** With its coefficients in the usual order, the divisor is the 0x04C11DB7 of
      section 4.4.7 of APPNOTE. */
  lemma DivisorReflected()
    ensures Reflect(Divide(0, true)) == 0x04C1_1DB7 && Divide(0, false) == 0
  {
  }

  /** Without the bits y still to come, the register is the remainder. */
  predicate Tracks(register: bv32, r: bv32, y: bv32) {
    Xor(register, y) == r
  }

  function Xor(x: bv32, y: bv32): bv32 {
    x ^ y
  }

  lemma LowestOfXor(x: bv32, y: bv32)
    ensures Lowest(Xor(x, y)) == (Lowest(x) != Lowest(y))
  {
  }

  lemma HalfOfXor(x: bv32, y: bv32)
    ensures Half(Xor(x, y)) == Xor(Half(x), Half(y))
  {
  }

  lemma XorLast(x: bv32, y: bv32)
    ensures Xor(Xor(x, 0xEDB8_8320), y) == Xor(Xor(x, y), 0xEDB8_8320)
  {
  }

  lemma ShiftOutIs(c: bv32)
    ensures ShiftOut(c) == if Lowest(c) then Xor(Half(c), 0xEDB8_8320) else Half(c)
  {
  }

  lemma DivideIs(r: bv32, bit: bool)
    ensures Divide(r, bit) == if Lowest(r) != bit then Xor(Half(r), 0xEDB8_8320) else Half(r)
  {
  }

  lemma ShiftDivides(register: bv32, r: bv32, y: bv32)
    requires Tracks(register, r, y)
    ensures Tracks(ShiftOut(register), Divide(r, Lowest(y)), Half(y))
  {
    hide ShiftOut, Divide, Lowest, Half, Xor;
    ShiftOutIs(register);
    DivideIs(r, Lowest(y));
    LowestOfXor(register, y);
    HalfOfXor(register, y);
    XorLast(Half(register), Half(y));
  }

  lemma ByteComes(c: bv32, x: bv32)
    ensures Tracks(c ^ x, c, x)
  {
  }

  lemma ByteEnds(register: bv32, r: bv32, b: byte)
    requires Tracks(register, r, HalfTimes(b as bv32, 8))
    ensures register == r
  {
    NoBitsLeft(b);
  }

  lemma NoBitsLeft(b: byte)
    ensures HalfTimes(b as bv32, 8) == 0
  {
    var x := b as bv32;
    EightHalves(x);
    NextHalf(x, 0);
    NextHalf(x, 1);
    NextHalf(x, 2);
    NextHalf(x, 3);
    NextHalf(x, 4);
    NextHalf(x, 5);
    NextHalf(x, 6);
    NextHalf(x, 7);
    hide HalfTimes, Half;
  }

  lemma NextHalf(x: bv32, n: nat)
    ensures HalfTimes(x, n + 1) == Half(HalfTimes(x, n))
    ensures n == 0 ==> HalfTimes(x, n) == x
  {
    hide Half;
  }

  lemma EightHalves(x: bv32)
    requires x < 256
    ensures Half(Half(Half(Half(Half(Half(Half(Half(x)))))))) == 0
  {
  }

  function ShiftTimes(c: bv32, n: nat): bv32 {
    if n == 0 then c else ShiftOut(ShiftTimes(c, n - 1))
  }

  lemma {:induction false} ShiftsDivide(register: bv32, r: bv32, x: bv32, bits: seq<bool>, n: nat)
    requires Tracks(register, r, x) && n <= |bits|
    requires forall i: nat :: i < |bits| ==> bits[i] == Lowest(HalfTimes(x, i))
    ensures Tracks(ShiftTimes(register, n), DivideAll(r, bits[..n]), HalfTimes(x, n))
  {
    hide ShiftOut, Divide, Lowest, Half, Tracks;
    if n == 0 {
      assert bits[..0] == [];
    } else {
      ShiftsDivide(register, r, x, bits, n - 1);
      assert bits[..n][..n - 1] == bits[..n - 1];
      ShiftDivides(ShiftTimes(register, n - 1), DivideAll(r, bits[..n - 1]), HalfTimes(x, n - 1));
    }
  }

  lemma NextShift(s: bv32, n: nat)
    ensures ShiftTimes(s, n + 1) == ShiftOut(ShiftTimes(s, n))
    ensures n == 0 ==> ShiftTimes(s, n) == s
  {
    hide ShiftOut;
  }

  lemma FeedIsShifts(c: bv32, b: byte)
    ensures FeedByte(c, b) == ShiftTimes(c ^ (b as bv32), 8)
  {
    hide ShiftOut;
    var s := c ^ (b as bv32);
    NextShift(s, 0);
    NextShift(s, 1);
    NextShift(s, 2);
    NextShift(s, 3);
    NextShift(s, 4);
    NextShift(s, 5);
    NextShift(s, 6);
    NextShift(s, 7);
    hide ShiftTimes;
  }

  /** Feeding a byte is eight steps of the division. */
  lemma ByteDivides(c: bv32, b: byte)
    ensures FeedByte(c, b) == DivideAll(c, ByteBits(b))
  {
    FeedIsShifts(c, b);
    ByteComes(c, b as bv32);
    hide *;
    ShiftsDivide(c ^ (b as bv32), c, b as bv32, ByteBits(b), 8);
    assert ByteBits(b)[..8] == ByteBits(b);
    ByteEnds(ShiftTimes(c ^ (b as bv32), 8), DivideAll(c, ByteBits(b)), b);
  }

  lemma {:induction false} DivideConcat(r: bv32, a: seq<bool>, b: seq<bool>)
    ensures DivideAll(r, a + b) == DivideAll(DivideAll(r, a), b)
  {
    hide Divide;
    if b == [] {
      assert a + b == a;
    } else {
      assert (a + b)[..|a + b| - 1] == a + b[..|b| - 1];
      DivideConcat(r, a, b[..|b| - 1]);
    }
  }

  lemma {:induction false} FeedDivides(c: bv32, data: Data)
    ensures Feed(c, data) == DivideAll(c, BitsOf(data))
  {
    hide FeedByte, ByteBits, Divide;
    if data == [] {
    } else {
      var front, last := data[..|data| - 1], data[|data| - 1];
      FeedDivides(c, front);
      ByteDivides(Feed(c, front), last);
      DivideConcat(c, BitsOf(front), ByteBits(last));
    }
  }

  /** The checksum is the inverted remainder of the message's bits, each byte's least
      significant bit first, starting from the inverted earlier checksum. */
  lemma CrcIsRemainder(sum: bv32, data: Data)
    ensures Crc(sum, data) == !DivideAll(!sum, BitsOf(data))
  {
    FeedDivides(!sum, data);
    hide Feed, DivideAll;
  }

  /** From the beginning: the first remainder has all bits set. */
  lemma CrcFromStart(data: Data)
    ensures Crc(0, data) == !DivideAll(0xFFFF_FFFF, BitsOf(data))
  {
    CrcIsRemainder(0, data);
    var zero: bv32 := 0;
    assert !zero == 0xFFFF_FFFF;
  }

  // ---- A known checksum ----

  /** The checksum of "a". */
  lemma CheckValue()
    ensures Crc(0, [0x61]) == 0xE8B7_BE43
  {
    assert [0x61 as byte][..0] == [];
    assert FeedByte(0xFFFF_FFFF, 0x61) == 0x1748_41BC;
  }
}
