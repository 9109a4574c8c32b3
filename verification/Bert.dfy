/** The two-pass BERT writer and its reader (c_src/bert.c; chapter "External Term
    Format" of the ERTS User's Guide). */
module Bert {
  import opened Bytes
  import opened Collections

  const START: byte := 131
  const SMALL_ATOM: byte := 115
  const ATOM: byte := 100
  const BINARY: byte := 109
  const SMALL_INTEGER: byte := 97
  const INTEGER: byte := 98
  const STRING: byte := 107
  const LIST: byte := 108
  const SMALL_TUPLE: byte := 104
  const LARGE_TUPLE: byte := 105
  const NIL: byte := 106

  // ---- Unsigned numbers, most significant byte first ----

  function UInt(bytes: Data): nat {
    if bytes == [] then 0 else 256 * UInt(bytes[..|bytes| - 1]) + bytes[|bytes| - 1]
  }

  function UIntBytes(size: nat, val: nat): (r: Data)
    ensures |r| == size
  {
    if size == 0 then [] else UIntBytes(size - 1, val / 256) + [val % 256]
  }

  function Pow256(n: nat): (r: nat)
    ensures r > 0
  {
    if n == 0 then 1 else 256 * Pow256(n - 1)
  }

  lemma {:induction false} UIntRound(size: nat, val: nat)
    requires val < Pow256(size)
    ensures UInt(UIntBytes(size, val)) == val
  {
    if size == 0 {
    } else {
      UIntRound(size - 1, val / 256);
      assert UIntBytes(size, val)[..size - 1] == UIntBytes(size - 1, val / 256);
    }
  }

  /** The low bytes of a number do not depend on what is cut off above them. */
  lemma {:induction false} UIntCut(size: nat, val: nat, width: nat)
    requires size <= width
    ensures UIntBytes(size, val % Pow256(width)) == UIntBytes(size, val)
    ensures Pow256(4) == U32
  {
    if size == 0 {
    } else {
      UIntCut(size - 1, val / 256, width - 1);
      CutDigit(val, Pow256(width - 1));
    }
  }

  lemma CutDigit(val: nat, p: nat)
    requires p > 0
    ensures val % (256 * p) % 256 == val % 256 && val % (256 * p) / 256 == val / 256 % p
  {
    var d, q, r := val / 256, val / 256 / p, val / 256 % p;
    var x := 256 * p;
    assert d == p * q + r;
    assert 256 * (p * q) == x * q;
    DivUnique(val, x, q, 256 * r + val % 256);
    assert val == x * q + val % x;
    assert val % x == 256 * r + val % 256;
  }

  /** Byte i is what shifting out the bytes behind it leaves. */
  lemma {:induction false} UIntByteAt(size: nat, val: nat, i: nat)
    requires i < size
    ensures UIntBytes(size, val)[i] == val / Pow256(size - 1 - i) % 256
  {
    if i < size - 1 {
      UIntByteAt(size - 1, val / 256, i);
      var p := Pow256(size - 2 - i);
      DivDiv(val, 256, p);
      assert Pow256(size - 1 - i) == 256 * p;
    }
  }

  lemma DivDiv(x: nat, a: nat, b: nat)
    requires a > 0 && b > 0
    ensures a * b > 0 && x / a / b == x / (a * b)
  {
    var q, r := x / a, x % a;
    var q', r' := q / b, q % b;
    assert x == a * q + r && q == b * q' + r';
    assert x == a * (b * q' + r') + r == (a * b) * q' + (a * r' + r) by {
      assert a * (b * q' + r') == a * (b * q') + a * r';
      assert a * (b * q') == (a * b) * q';
    }
    assert 0 <= a * r' + r < a * b by {
      assert a * r' <= a * (b - 1) by { MulMono(a, r', b - 1); }
      assert a * (b - 1) == a * b - a;
    }
    DivUnique(x, a * b, q', a * r' + r);
  }

  lemma MulMono(a: nat, x: nat, y: nat)
    requires x <= y
    ensures a * x <= a * y
  {
  }

  lemma DivUnique(x: nat, d: nat, q: nat, r: nat)
    requires d > 0 && r < d && x == d * q + r
    ensures x / d == q
  {
    var k := x / d;
    assert x == d * k + x % d;
    assert d * (q + 1) == d * q + d && d * (k + 1) == d * k + d;
    if k > q { MulMono(d, q + 1, k); }
    if k < q { MulMono(d, k + 1, q); }
  }

  // ---- What is written ----

  /** The calls a message makes on the writer. */
  datatype Call =
    | SmallTuple(n: nat)
    | LargeTuple(n: nat)
    | SmallAtom(bytes: Data)
    | Atom(bytes: Data)
    | Binary(bytes: Data)
    | List(n: nat)
    | Nil

  function CallBytes(c: Call): Data {
    match c
    case SmallTuple(n) => [SMALL_TUPLE] + UIntBytes(1, n)
    case LargeTuple(n) => [LARGE_TUPLE] + UIntBytes(4, n)
    case SmallAtom(b) => [SMALL_ATOM] + UIntBytes(1, |b|) + b
    case Atom(b) => [ATOM] + UIntBytes(2, |b|) + b
    case Binary(b) => [BINARY] + UIntBytes(4, |b|) + b
    case List(n) => [LIST] + UIntBytes(4, n)
    case Nil => [NIL]
  }

  function CallsBytes(cs: seq<Call>): Data {
    if cs == [] then [] else CallBytes(cs[0]) + CallsBytes(cs[1..])
  }

  /** Sizes that fit their fields; a byte count is a signed 32-bit argument. */
  predicate InLimits(c: Call) {
    match c
    case SmallTuple(n) => n < 256
    case LargeTuple(n) => n < U32
    case SmallAtom(b) => |b| < 256
    case Atom(b) => |b| < U16
    case Binary(b) => |b| < 0x8000_0000
    case List(n) => n < U32
    case Nil => true
  }

  lemma {:induction false} CallsConcat(a: seq<Call>, b: seq<Call>)
    ensures CallsBytes(a + b) == CallsBytes(a) + CallsBytes(b)
  {
    if a == [] {
      assert a + b == b;
    } else {
      assert (a + b)[1..] == a[1..] + b;
      CallsConcat(a[1..], b);
    }
  }

  /** The writer: counts without a buffer, stores with one. */
  class Writer {
    var buf: array?<byte>
    var size: nat

    constructor ()
      ensures buf == null && size == 0
    {
      buf, size := null, 0;
    }

    /** Bytes that n more pushes would store are inside the buffer. */
    ghost predicate Room(n: nat)
      reads this
    {
      buf != null ==> size + n <= buf.Length
    }

    /** w_push: nothing is ever stored outside the buffer. */
    method Push(b: byte)
      requires Room(1)
      modifies this`size, buf
      ensures buf == old(buf) && size == old(size) + 1
      ensures buf != null ==> size <= buf.Length && buf[..size] == old(buf[..size]) + [b]
    {
      if buf != null { buf[size] := b; }
      size := size + 1;
    }

    /** w_uint: the value is a uint32_t, so the caller's number is cut to 32 bits, and
        shifting it by 32 or more, which a fifth byte would do, is undefined in C. */
    method PutUInt(valSize: nat, n: nat)
      requires Room(valSize) && valSize <= 4
      modifies this`size, buf
      ensures buf == old(buf) && size == old(size) + valSize
      ensures buf != null ==> size <= buf.Length && buf[..size] == old(buf[..size]) + UIntBytes(valSize, n)
    {
      var val := n % U32;
      UIntCut(valSize, n, 4);
      ghost var bytes := UIntBytes(valSize, val);
      ghost var before := if buf != null then buf[..size] else [];
      var k: nat := valSize;
      while k > 0
        invariant k <= valSize && buf == old(buf) && size == old(size) + valSize - k && Room(k)
        invariant buf != null ==> buf[..size] == before + bytes[..valSize - k]
      {
        UIntByteAt(valSize, val, valSize - k);
        k := k - 1;
        Push(val / Pow256(k) % 256);
      }
      assert bytes[..valSize] == bytes;
    }

    /** w_tagged_bytes */
    method PutTaggedBytes(tag: byte, sizeSize: nat, bytes: Data)
      requires Room(1 + sizeSize + |bytes|) && sizeSize <= 4
      modifies this`size, buf
      ensures buf == old(buf) && size == old(size) + 1 + sizeSize + |bytes|
      ensures buf != null ==>
              size <= buf.Length && buf[..size] == old(buf[..size]) + ([tag] + UIntBytes(sizeSize, |bytes|) + bytes)
    {
      ghost var before := if buf != null then buf[..size] else [];
      ghost var head := [tag] + UIntBytes(sizeSize, |bytes|);
      Push(tag);
      PutUInt(sizeSize, |bytes|);
      var i := 0;
      while i < |bytes|
        invariant i <= |bytes| && buf == old(buf) && size == old(size) + 1 + sizeSize + i && Room(|bytes| - i)
        invariant buf != null ==> buf[..size] == before + head + bytes[..i]
      {
        Push(bytes[i]);
        i := i + 1;
      }
      assert bytes[..i] == bytes && before + head + bytes == before + (head + bytes);
    }

    /** One call of the message. */
    method Put(c: Call)
      requires Room(|CallBytes(c)|)
      modifies this`size, buf
      ensures buf == old(buf) && size == old(size) + |CallBytes(c)|
      ensures buf != null ==> size <= buf.Length && buf[..size] == old(buf[..size]) + CallBytes(c)
    {
      match c
      case SmallTuple(n) => Push(SMALL_TUPLE); PutUInt(1, n);
      case LargeTuple(n) => Push(LARGE_TUPLE); PutUInt(4, n);
      case SmallAtom(b) => PutTaggedBytes(SMALL_ATOM, 1, b);
      case Atom(b) => PutTaggedBytes(ATOM, 2, b);
      case Binary(b) => PutTaggedBytes(BINARY, 4, b);
      case List(n) => Push(LIST); PutUInt(4, n);
      case Nil => Push(NIL);
    }

    /** bert_write_sub with a message that makes these calls. */
    method WriteSub(cs: seq<Call>)
      requires Room(|CallsBytes(cs)|)
      modifies this`size, buf
      ensures buf == old(buf) && size == old(size) + |CallsBytes(cs)|
      ensures buf != null ==> size <= buf.Length && buf[..size] == old(buf[..size]) + CallsBytes(cs)
      decreases cs
    {
      hide CallBytes;
      if cs != [] {
        Put(cs[0]);
        WriteSub(cs[1..]);
      }
    }

    /** bert_write_packet: count, then write header, start byte and term into a
        buffer of exactly that size. */
    method WritePacket(packetSizeSize: nat, cs: seq<Call>) returns (packet: Data)
      requires packetSizeSize <= 4 && packetSizeSize + 1 + |CallsBytes(cs)| < U32
      modifies this
      ensures packet == PacketBytes(packetSizeSize, cs) && size == |packet|
      ensures fresh(buf) && buf[..] == packet
    {
      hide UIntBytes, CallsBytes;
      size, buf := 0, null;
      WriteSub(cs);
      var termSize := 1 + size;
      size := 0;
      buf := new byte[packetSizeSize + termSize];
      PutUInt(packetSizeSize, termSize);
      Push(START);
      WriteSub(cs);
      packet := buf[..];
      assert buf[..size] == buf[..];
    }
  }

  function PacketBytes(packetSizeSize: nat, cs: seq<Call>): Data {
    UIntBytes(packetSizeSize, 1 + |CallsBytes(cs)|) + [START] + CallsBytes(cs)
  }

  // ---- Terms ----

  datatype Term =
    | TupleTerm(es: seq<Term>)
    | ListTerm(es: seq<Term>, tail: Term)
    | BinaryTerm(bytes: Data)
    | AtomTerm(bytes: Data)
    | StringTerm(bytes: Data)
    | IntegerTerm(val: int)
    | NilTerm

  /** The term that a call sequence describes, and the calls after it. */
  function Replay(cs: seq<Call>): (r: Option<(Term, seq<Call>)>)
    ensures r.Some? ==> |r.value.1| < |cs|
    decreases |cs|, 1
  {
    if cs == [] then None
    else
      var rest := cs[1..];
      match cs[0]
      case SmallTuple(n) => ReplayTuple(n, rest)
      case LargeTuple(n) => ReplayTuple(n, rest)
      case SmallAtom(b) => Some((AtomTerm(b), rest))
      case Atom(b) => Some((AtomTerm(b), rest))
      case Binary(b) => Some((BinaryTerm(b), rest))
      case Nil => Some((NilTerm, rest))
      case List(n) =>
        var es := ReplayAll(n, rest);
        if es.None? then None
        else
          var tail := Replay(es.value.1);
          if tail.None? then None else Some((ListTerm(es.value.0, tail.value.0), tail.value.1))
  }

  function ReplayTuple(n: nat, cs: seq<Call>): (r: Option<(Term, seq<Call>)>)
    ensures r.Some? ==> |r.value.1| <= |cs|
    decreases |cs|, 3
  {
    var es := ReplayAll(n, cs);
    if es.None? then None else Some((TupleTerm(es.value.0), es.value.1))
  }

  function ReplayAll(n: nat, cs: seq<Call>): (r: Option<(seq<Term>, seq<Call>)>)
    ensures r.Some? ==> |r.value.1| <= |cs|
    decreases |cs|, 2, n
  {
    if n == 0 then Some(([], cs))
    else
      var first := Replay(cs);
      if first.None? then None
      else
        var rest := ReplayAll(n - 1, first.value.1);
        if rest.None? then None else Some(([first.value.0] + rest.value.0, rest.value.1))
  }

  // ---- Reading ----

  function ReadUInt(size: nat, bytes: Data): (r: Parsed<nat>)
    ensures r.Some? ==> |r.value.1| == |bytes| - size
  {
    if size <= |bytes| then Some((UInt(bytes[..size]), bytes[size..])) else None
  }

  /** r_sint with size 4. */
  function Signed32(n: nat): int {
    if n < 0x8000_0000 then n else n - U32
  }

  /** r_slice */
  function ReadSlice(sizeSize: nat, bytes: Data): (r: Parsed<Data>)
    ensures r.Some? ==> |r.value.1| <= |bytes|
  {
    var n := ReadUInt(sizeSize, bytes);
    if n.None? || n.value.0 > |n.value.1| then None else Some((n.value.1[..n.value.0], n.value.1[n.value.0..]))
  }

  /** r_object, with every constructor defined. */
  function ReadObject(bytes: Data): (r: Parsed<Term>)
    ensures r.Some? ==> |r.value.1| < |bytes|
    decreases |bytes|, 1
  {
    if bytes == [] then None
    else
      var ty, rest := bytes[0], bytes[1..];
      if ty == LIST then
        var n := ReadUInt(4, rest);
        if n.None? then None
        else
          var es := ReadObjects(n.value.0, n.value.1);
          if es.None? then None
          else
            var tail := ReadObject(es.value.1);
            if tail.None? then None else Some((ListTerm(es.value.0, tail.value.0), tail.value.1))
      else if ty == BINARY then
        var b := ReadSlice(4, rest);
        if b.None? then None else Some((BinaryTerm(b.value.0), b.value.1))
      else if ty == NIL then Some((NilTerm, rest))
      else if ty == SMALL_ATOM || ty == ATOM then
        var b := ReadSlice(if ty == SMALL_ATOM then 1 else 2, rest);
        if b.None? then None else Some((AtomTerm(b.value.0), b.value.1))
      else if ty == SMALL_INTEGER || ty == INTEGER then
        var n := ReadUInt(if ty == SMALL_INTEGER then 1 else 4, rest);
        if n.None? then None
        else Some((IntegerTerm(if ty == SMALL_INTEGER then n.value.0 else Signed32(n.value.0)), n.value.1))
      else if ty == SMALL_TUPLE || ty == LARGE_TUPLE then ReadTuple(if ty == SMALL_TUPLE then 1 else 4, rest)
      else if ty == STRING then
        var b := ReadSlice(2, rest);
        if b.None? then None else Some((StringTerm(b.value.0), b.value.1))
      else None
  }

  /** r_tuple */
  function ReadTuple(sizeSize: nat, bytes: Data): (r: Parsed<Term>)
    ensures r.Some? ==> |r.value.1| <= |bytes|
    decreases |bytes|, 3
  {
    var n := ReadUInt(sizeSize, bytes);
    if n.None? then None
    else
      var es := ReadObjects(n.value.0, n.value.1);
      if es.None? then None else Some((TupleTerm(es.value.0), es.value.1))
  }

  function ReadObjects(n: nat, bytes: Data): (r: Parsed<seq<Term>>)
    ensures r.Some? ==> |r.value.1| <= |bytes| && |r.value.0| == n
    decreases |bytes|, 2, n
  {
    if n == 0 then Some(([], bytes))
    else
      var first := ReadObject(bytes);
      if first.None? then None
      else
        var rest := ReadObjects(n - 1, first.value.1);
        if rest.None? then None else Some(([first.value.0] + rest.value.0, rest.value.1))
  }

  /** bert_decode */
  function Decode(bytes: Data): Parsed<Term> {
    if bytes == [] || bytes[0] != START then None else ReadObject(bytes[1..])
  }

  /** The terms read so far, and then the rest of them. */
  function Prefixed(es: seq<Term>, r: Parsed<seq<Term>>): Parsed<seq<Term>> {
    if r.None? then None else Some((es + r.value.0, r.value.1))
  }

  /** The reader, popping bytes one by one. */
  class Reader {
    const bytes: Data
    var pos: nat

    constructor (bytes: Data)
      ensures this.bytes == bytes && pos == 0
    {
      this.bytes, pos := bytes, 0;
    }

    ghost predicate Valid()
      reads this
    {
      pos <= |bytes|
    }

    ghost function Rest(): Data
      requires Valid()
      reads this
    {
      bytes[pos..]
    }

    /** r_uint */
    method GetUInt(size: nat) returns (r: Option<nat>)
      requires Valid()
      modifies this`pos
      ensures Valid() && (r.Some? <==> ReadUInt(size, old(Rest())).Some?)
      ensures r.Some? ==> Some((r.value, Rest())) == ReadUInt(size, old(Rest()))
    {
      ghost var start := Rest();
      var acc: nat, i := 0, 0;
      while i < size
        invariant i <= size && i <= |start| && Valid() && Rest() == start[i..]
        invariant acc == UInt(start[..i])
      {
        if pos == |bytes| { return None; }
        assert start[..i + 1][..i] == start[..i] && bytes[pos] == start[i];
        acc := acc * 256 + bytes[pos];
        pos := pos + 1;
        i := i + 1;
      }
      r := Some(acc);
    }

    /** r_slice */
    method GetSlice(sizeSize: nat) returns (r: Option<Data>)
      requires Valid()
      modifies this`pos
      ensures Valid() && (r.Some? <==> ReadSlice(sizeSize, old(Rest())).Some?)
      ensures r.Some? ==> Some((r.value, Rest())) == ReadSlice(sizeSize, old(Rest()))
    {
      var n := GetUInt(sizeSize);
      if n.None? || pos + n.value > |bytes| { return None; }
      r := Some(bytes[pos..pos + n.value]);
      assert Rest()[..n.value] == r.value && Rest()[n.value..] == bytes[pos + n.value..];
      pos := pos + n.value;
    }

    /** The loop of r_tuple. */
    method GetObjects(n: nat) returns (r: Option<seq<Term>>)
      requires Valid()
      modifies this`pos
      ensures Valid() && (r.Some? <==> ReadObjects(n, old(Rest())).Some?)
      ensures r.Some? ==> Some((r.value, Rest())) == ReadObjects(n, old(Rest()))
      decreases |bytes| - pos, 2, n
    {
      hide ReadObject;
      ghost var start := Rest();
      var es, i := [], 0;
      assert ReadObjects(n, start) == Prefixed([], ReadObjects(n, start)) by { NoPrefix(ReadObjects(n, start)); }
      while i < n
        invariant i <= n && Valid() && pos >= old(pos) && (i > 0 ==> pos > old(pos))
        invariant ReadObjects(n, start) == Prefixed(es, ReadObjects(n - i, Rest()))
      {
        ghost var before := Rest();
        var e := GetObject();
        if e.None? { return None; }
        MorePrefix(es, e.value, ReadObjects(n - i - 1, Rest()));
        es := es + [e.value];
        i := i + 1;
      }
      assert ReadObjects(0, Rest()) == Some(([], Rest())) && es + [] == es;
      r := Some(es);
    }

    /** r_object */
    method GetObject() returns (r: Option<Term>)
      requires Valid()
      modifies this`pos
      ensures Valid() && (r.Some? <==> ReadObject(old(Rest())).Some?)
      ensures r.Some? ==> Some((r.value, Rest())) == ReadObject(old(Rest())) && pos > old(pos)
      decreases |bytes| - pos, 1
    {
      hide ReadUInt, ReadSlice, ReadObjects;
      if pos == |bytes| { return None; }
      var ty := bytes[pos];
      assert Rest()[0] == ty && Rest()[1..] == bytes[pos + 1..];
      pos := pos + 1;
      if ty == LIST {
        var n := GetUInt(4);
        if n.None? { return None; }
        var es := GetObjects(n.value);
        if es.None? { return None; }
        var tail := GetObject();
        if tail.None? { return None; }
        r := Some(ListTerm(es.value, tail.value));
      } else if ty == NIL {
        r := Some(NilTerm);
      } else if ty == SMALL_INTEGER || ty == INTEGER {
        var n := GetUInt(if ty == SMALL_INTEGER then 1 else 4);
        if n.None? { return None; }
        r := Some(IntegerTerm(if ty == SMALL_INTEGER then n.value else Signed32(n.value)));
      } else if ty == SMALL_TUPLE || ty == LARGE_TUPLE {
        var n := GetUInt(if ty == SMALL_TUPLE then 1 else 4);
        if n.None? { return None; }
        var es := GetObjects(n.value);
        if es.None? { return None; }
        r := Some(TupleTerm(es.value));
      } else if ty == BINARY || ty == SMALL_ATOM || ty == ATOM || ty == STRING {
        var b := GetSlice(if ty == BINARY then 4 else if ty == SMALL_ATOM then 1 else 2);
        if b.None? { return None; }
        r := Some(
          if ty == BINARY then BinaryTerm(b.value)
          else if ty == STRING then StringTerm(b.value)
          else AtomTerm(b.value));
      } else {
        r := None;
      }
    }

    /** bert_decode */
    method GetTerm() returns (r: Option<Term>)
      requires Valid()
      modifies this`pos
      ensures Valid() && (r.Some? <==> Decode(old(Rest())).Some?)
      ensures r.Some? ==> Some((r.value, Rest())) == Decode(old(Rest()))
    {
      hide ReadObject;
      if pos == |bytes| || bytes[pos] != START { return None; }
      pos := pos + 1;
      r := GetObject();
    }
  }

  lemma NoPrefix(r: Parsed<seq<Term>>)
    ensures Prefixed([], r) == r
  {
    if r.Some? { assert [] + r.value.0 == r.value.0; }
  }

  lemma MorePrefix(es: seq<Term>, e: Term, r: Parsed<seq<Term>>)
    ensures Prefixed(es, Prefixed([e], r)) == Prefixed(es + [e], r)
  {
    if r.Some? { assert es + ([e] + r.value.0) == es + [e] + r.value.0; }
  }

  // ---- Reading replays the writing ----

  lemma UIntReads(size: nat, val: nat, rest: Data)
    requires val < Pow256(size)
    ensures ReadUInt(size, UIntBytes(size, val) + rest) == Some((val, rest))
  {
    UIntRound(size, val);
    var bytes := UIntBytes(size, val) + rest;
    assert bytes[..size] == UIntBytes(size, val) && bytes[size..] == rest;
  }

  lemma SliceReads(sizeSize: nat, b: Data, rest: Data)
    requires |b| < Pow256(sizeSize)
    ensures ReadSlice(sizeSize, UIntBytes(sizeSize, |b|) + b + rest) == Some((b, rest))
  {
    assert UIntBytes(sizeSize, |b|) + b + rest == UIntBytes(sizeSize, |b|) + (b + rest);
    UIntReads(sizeSize, |b|, b + rest);
  }

  lemma Powers()
    ensures Pow256(1) == 256 && Pow256(2) == U16 && Pow256(4) == U32
  {
  }

  ghost predicate AllInLimits(cs: seq<Call>) {
    forall i :: 0 <= i < |cs| ==> InLimits(cs[i])
  }

  /** The bytes of what is left after replaying. */
  function AsRead<T>(r: Option<(T, seq<Call>)>): Parsed<T> {
    if r.None? then None else Some((r.value.0, CallsBytes(r.value.1)))
  }

  /** Replaying leaves an end of the calls. */
  lemma {:induction false} ReplayLeaves(cs: seq<Call>)
    requires AllInLimits(cs)
    ensures Replay(cs).Some? ==> AllInLimits(Replay(cs).value.1)
    decreases |cs|, 1
  {
    if cs == [] {
    } else {
      var rest := cs[1..];
      match cs[0]
      case SmallTuple(n) => ReplayAllLeaves(n, rest);
      case LargeTuple(n) => ReplayAllLeaves(n, rest);
      case List(n) =>
        ReplayAllLeaves(n, rest);
        if ReplayAll(n, rest).Some? { ReplayLeaves(ReplayAll(n, rest).value.1); }
      case _ =>
    }
  }

  lemma {:induction false} ReplayAllLeaves(n: nat, cs: seq<Call>)
    requires AllInLimits(cs)
    ensures ReplayAll(n, cs).Some? ==> AllInLimits(ReplayAll(n, cs).value.1)
    decreases |cs|, 2, n
  {
    if n == 0 {
    } else {
      ReplayLeaves(cs);
      if Replay(cs).Some? { ReplayAllLeaves(n - 1, Replay(cs).value.1); }
    }
  }

  lemma TupleReads(small: bool, n: nat, tail: Data)
    requires n < if small then 256 else U32
    ensures var es := ReadObjects(n, tail);
            ReadObject([if small then SMALL_TUPLE else LARGE_TUPLE] + UIntBytes(if small then 1 else 4, n) + tail)
            == if es.None? then None else Some((TupleTerm(es.value.0), es.value.1))
  {
    hide UIntBytes, ReadUInt, ReadObjects;
    var size := if small then 1 else 4;
    var bytes := [if small then SMALL_TUPLE else LARGE_TUPLE] + UIntBytes(size, n) + tail;
    assert bytes[1..] == UIntBytes(size, n) + tail;
    Powers();
    UIntReads(size, n, tail);
  }

  lemma ListReads(n: nat, tail: Data)
    requires n < U32
    ensures var es := ReadObjects(n, tail);
            var end := if es.None? then None else ReadObject(es.value.1);
            ReadObject([LIST] + UIntBytes(4, n) + tail)
            == if end.None? then None else Some((ListTerm(es.value.0, end.value.0), end.value.1))
  {
    hide UIntBytes, ReadUInt, ReadObjects;
    assert ([LIST] + UIntBytes(4, n) + tail)[1..] == UIntBytes(4, n) + tail;
    Powers();
    UIntReads(4, n, tail);
  }

  lemma BytesRead(tag: byte, b: Data, tail: Data)
    requires (tag == SMALL_ATOM && |b| < 256) || (tag == ATOM && |b| < U16) || (tag == BINARY && |b| < U32)
    ensures var size := if tag == SMALL_ATOM then 1 else if tag == ATOM then 2 else 4;
            ReadObject([tag] + UIntBytes(size, |b|) + b + tail)
            == Some((if tag == BINARY then BinaryTerm(b) else AtomTerm(b), tail))
  {
    hide UIntBytes, ReadSlice;
    var size := if tag == SMALL_ATOM then 1 else if tag == ATOM then 2 else 4;
    assert ([tag] + UIntBytes(size, |b|) + b + tail)[1..] == UIntBytes(size, |b|) + b + tail;
    Powers();
    SliceReads(size, b, tail);
  }

  /** For every call sequence within the limits, reading the bytes gives what
      replaying the calls gives, failure included, and stops at the same place. */
  lemma {:induction false} ReadIsReplay(cs: seq<Call>)
    requires AllInLimits(cs)
    ensures ReadObject(CallsBytes(cs)) == AsRead(Replay(cs))
    decreases |cs|, 1
  {
    if cs == [] {
      assert CallsBytes(cs) == [];
    } else {
      hide UIntBytes, ReadObject, ReadObjects, ReplayAll;
      var rest := cs[1..];
      var tail := CallsBytes(rest);
      assert InLimits(cs[0]);
      match cs[0]
      case SmallTuple(n) => TupleReads(true, n, tail); AllRead(n, rest);
      case LargeTuple(n) => TupleReads(false, n, tail); AllRead(n, rest);
      case SmallAtom(b) => BytesRead(SMALL_ATOM, b, tail);
      case Atom(b) => BytesRead(ATOM, b, tail);
      case Binary(b) => BytesRead(BINARY, b, tail);
      case List(n) =>
        ListReads(n, tail);
        AllRead(n, rest);
        ReplayAllLeaves(n, rest);
        if ReplayAll(n, rest).Some? { ReadIsReplay(ReplayAll(n, rest).value.1); }
      case Nil => NilReads(tail);
    }
  }

  lemma NilReads(tail: Data)
    ensures ReadObject([NIL] + tail) == Some((NilTerm, tail))
  {
    assert ([NIL] + tail)[1..] == tail;
  }

  lemma {:induction false} AllRead(n: nat, cs: seq<Call>)
    requires AllInLimits(cs)
    ensures ReadObjects(n, CallsBytes(cs)) == AsRead(ReplayAll(n, cs))
    decreases |cs|, 2, n
  {
    hide CallsBytes, ReadObject, Replay;
    if n == 0 {
    } else {
      ReadIsReplay(cs);
      ReplayLeaves(cs);
      if Replay(cs).Some? { AllRead(n - 1, Replay(cs).value.1); }
    }
  }

  /** A whole packet: its header is the size of the rest, and the rest decodes to
      the term that the message's calls describe. */
  lemma PacketDecodes(packetSizeSize: nat, cs: seq<Call>)
    requires AllInLimits(cs) && packetSizeSize <= 4 && 1 + |CallsBytes(cs)| < Pow256(packetSizeSize)
    ensures var header := ReadUInt(packetSizeSize, PacketBytes(packetSizeSize, cs));
            && header.Some? && header.value.0 == |header.value.1|
            && Decode(header.value.1) == AsRead(Replay(cs))
  {
    var rest := [START] + CallsBytes(cs);
    assert PacketBytes(packetSizeSize, cs) == UIntBytes(packetSizeSize, |rest|) + rest;
    UIntReads(packetSizeSize, |rest|, rest);
    assert rest[1..] == CallsBytes(cs);
    ReadIsReplay(cs);
  }
}
