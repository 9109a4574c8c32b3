/** Bytes and fixed-width integers in both byte orders.  Encoders truncate like
    Erlang's bit syntax and C's shifts: only the low bytes are kept. */
module Bytes {
  import opened Collections

  type byte = b: int | 0 <= b < 256

  type Data = seq<byte>

  /** A value read off the front of some bytes, and what follows it. */
  type Parsed<T> = Option<(T, Data)>

  const U32: nat := 0x1_0000_0000
  const U16: nat := 0x1_0000

  /** The bytes of a 32-bit number, least significant first. */
  function B0(n: nat): byte { n % 256 }
  function B1(n: nat): byte { B0(n / 256) }
  function B2(n: nat): byte { B0(n / 256 / 256) }
  function B3(n: nat): byte { B0(n / 256 / 256 / 256) }

  function Join(b3: byte, b2: byte, b1: byte, b0: byte): nat {
    b0 + 256 * (b1 + 256 * (b2 + 256 * b3))
  }

  function BE32(n: nat): (bs: Data)
    ensures |bs| == 4
  {
    [B3(n), B2(n), B1(n), B0(n)]
  }

  function LE32(n: nat): (bs: Data)
    ensures |bs| == 4
  {
    [B0(n), B1(n), B2(n), B3(n)]
  }

  function LE16(n: nat): (bs: Data)
    ensures |bs| == 2
  {
    [B0(n), B1(n)]
  }

  function FromBE32(bs: Data): nat
    requires |bs| == 4
  {
    Join(bs[0], bs[1], bs[2], bs[3])
  }

  function FromLE32(bs: Data): nat
    requires |bs| == 4
  {
    Join(bs[3], bs[2], bs[1], bs[0])
  }

  function FromLE16(bs: Data): nat
    requires |bs| == 2
  {
    Join(0, 0, bs[1], bs[0])
  }

  /** Network order puts the most significant byte first, little-endian order last. */
  lemma ByteOrders(n: nat)
    requires n < U32
    ensures var b := BE32(n); n == b[0] as int * 16777216 + b[1] as int * 65536 + b[2] as int * 256 + b[3]
    ensures var b := LE32(n); n == b[3] as int * 16777216 + b[2] as int * 65536 + b[1] as int * 256 + b[0]
    ensures n < U16 ==> var b := LE16(n); n == b[1] as int * 256 + b[0]
  {
  }

  lemma JoinBytes(n: nat)
    requires n < U32
    ensures Join(B3(n), B2(n), B1(n), B0(n)) == n
  {
  }

  lemma Round32(n: nat)
    requires n < U32
    ensures FromLE32(LE32(n)) == n && FromBE32(BE32(n)) == n
  {
    JoinBytes(n);
  }

  lemma BytesOfJoin(b3: byte, b2: byte, b1: byte, b0: byte)
    ensures Join(b3, b2, b1, b0) < U32
    ensures var n := Join(b3, b2, b1, b0); B0(n) == b0 && B1(n) == b1 && B2(n) == b2 && B3(n) == b3
  {
  }

  /** Four bytes are the encoding of the number they decode to. */
  lemma Exact32(bs: Data)
    requires |bs| == 4
    ensures FromBE32(bs) < U32 && BE32(FromBE32(bs)) == bs
  {
    BytesOfJoin(bs[0], bs[1], bs[2], bs[3]);
  }

  lemma Round16(n: nat)
    requires n < U16
    ensures FromLE16(LE16(n)) == n
  {
    JoinBytes(n);
    assert B3(n) == 0 && B2(n) == 0;
  }

  function Concat(parts: seq<Data>): Data {
    if parts == [] then [] else parts[0] + Concat(parts[1..])
  }

  /** Read n bytes at a position, if they are there. */
  function ReadAt(data: Data, pos: nat, n: nat): Option<Data> {
    if pos + n <= |data| then Some(data[pos..pos + n]) else None
  }

  /** A slice of a slice. */
  lemma SliceSlice(s: Data, a: nat, b: nat, c: nat, d: nat)
    requires a <= b <= |s| && c <= d <= b - a
    ensures s[a..b][c..d] == s[a + c..a + d]
  {
    forall i | 0 <= i < d - c ensures s[a..b][c..d][i] == s[a + c..a + d][i] {
      assert s[a..b][c + i] == s[a + (c + i)];
    }
  }
}
