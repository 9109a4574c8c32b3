/** The grammar of the terms that the BERT reader accepts (chapter "External Term
    Format" of the ERTS User's Guide), with its tags and widths as numbers, and the
    proof that the reader reads exactly that. */
module BertGrammar {
  import opened Bytes
  import opened Collections
  import opened Bert

  /** The number in one, two or four bytes, most significant first. */
  function Big(b: Data): nat
    requires |b| in {1, 2, 4}
  {
    if |b| == 1 then b[0]
    else if |b| == 2 then b[0] as int * 256 + b[1]
    else b[0] as int * 16777216 + b[1] as int * 65536 + b[2] as int * 256 + b[3]
  }

  /** A size in w bytes and that many bytes. */
  predicate Sized(w: nat, body: Data, s: Data)
    requires w in {1, 2, 4}
  {
    |body| == w + |s| && Big(body[..w]) == |s| && body[w..] == s
  }

  /** The bytes b, and no fewer or more, are an object that stands for t. */
  ghost predicate IsObject(t: Term, b: Data)
    decreases t, 1
  {
    b != [] &&
    var tag, body := b[0], b[1..];
    match t
    case IntegerTerm(n) =>
      || (tag == 97 && |body| == 1 && n == body[0])
      || (tag == 98 && |body| == 4 && -0x8000_0000 <= n < 0x8000_0000
          && Big(body) == if n < 0 then n + 0x1_0000_0000 else n)
    case AtomTerm(s) => (tag == 115 && Sized(1, body, s)) || (tag == 100 && Sized(2, body, s))
    case BinaryTerm(s) => tag == 109 && Sized(4, body, s)
    case StringTerm(s) => tag == 107 && Sized(2, body, s)
    case NilTerm => tag == 106 && body == []
    case TupleTerm(es) => (tag == 104 && Counted(1, es, body)) || (tag == 105 && Counted(4, es, body))
    case ListTerm(es, tail) =>
      tag == 108 && exists k :: 0 <= k <= |body| && Counted(4, es, body[..k]) && IsObject(tail, body[k..])
  }

  /** A count in w bytes and that many objects. */
  ghost predicate Counted(w: nat, es: seq<Term>, b: Data)
    requires w in {1, 4}
    decreases es, 3
  {
    |b| >= w && Big(b[..w]) == |es| && AreObjects(es, b[w..])
  }

  ghost predicate AreObjects(es: seq<Term>, b: Data)
    decreases es, 2
  {
    if es == [] then b == []
    else exists k :: 0 <= k <= |b| && IsObject(es[0], b[..k]) && AreObjects(es[1..], b[k..])
  }

  lemma UIntIsBig(b: Data)
    requires |b| in {1, 2, 4}
    ensures UInt(b) == Big(b)
  {
    if |b| == 1 {
      assert b[..0] == [];
    } else if |b| == 2 {
      assert b[..1][..0] == [];
    } else {
      assert b[..3][..2] == b[..2] && b[..2][..1] == b[..1] && b[..1][..0] == [];
      assert UInt(b[..1]) == b[0];
      assert UInt(b[..2]) == b[0] as int * 256 + b[1];
    }
  }

  // ---- The reader accepts only that ----

  /** rest is what follows the first k bytes. */
  predicate Leaves(data: Data, rest: Data, k: nat) {
    k <= |data| && rest == data[k..]
  }

  lemma SliceIsSized(w: nat, data: Data, s: Data, rest: Data) returns (k: nat)
    requires w in {1, 2, 4} && ReadSlice(w, data) == Some((s, rest))
    ensures Leaves(data, rest, k) && Sized(w, data[..k], s)
  {
    k := w + |s|;
    UIntIsBig(data[..w]);
    assert data[..k][..w] == data[..w] && data[..k][w..] == data[w..][..|s|];
  }

  lemma {:induction false} ReadIsObject(data: Data, t: Term, rest: Data) returns (k: nat)
    requires ReadObject(data) == Some((t, rest))
    ensures Leaves(data, rest, k) && IsObject(t, data[..k])
    decreases |data|, 1
  {
    OnlyTags(data);
    hide ReadObject, IsObject;
    var tag := data[0];
    if tag == NIL {
      k := ReadIsNil(data, t, rest);
    } else if tag == LIST {
      k := ReadIsList(data, t, rest);
    } else if tag == SMALL_TUPLE || tag == LARGE_TUPLE {
      k := ReadIsTuple(data, t, rest);
    } else if tag == SMALL_INTEGER || tag == INTEGER {
      k := ReadIsInteger(data, t, rest);
    } else {
      k := ReadIsBytes(data, t, rest);
    }
  }

  predicate IsBytesTag(tag: byte) {
    tag == BINARY || tag == SMALL_ATOM || tag == ATOM || tag == STRING
  }

  lemma OnlyTags(data: Data)
    requires ReadObject(data).Some?
    ensures data != []
    ensures data[0] in {NIL, LIST, SMALL_TUPLE, LARGE_TUPLE, SMALL_INTEGER, INTEGER} || IsBytesTag(data[0])
  {
    hide ReadSlice, ReadUInt, ReadObjects, ReadTuple, Signed32;
  }

  lemma ReadIsNil(data: Data, t: Term, rest: Data) returns (k: nat)
    requires ReadObject(data) == Some((t, rest)) && data[0] == NIL
    ensures Leaves(data, rest, k) && IsObject(t, data[..k])
  {
    hide ReadSlice, ReadUInt, ReadObjects, ReadTuple, Signed32;
    k := 1;
  }

  lemma ReadIsBytes(data: Data, t: Term, rest: Data) returns (k: nat)
    requires ReadObject(data) == Some((t, rest)) && IsBytesTag(data[0])
    ensures Leaves(data, rest, k) && IsObject(t, data[..k])
  {
    hide ReadSlice, ReadUInt, ReadObjects, ReadTuple, Signed32, Sized;
    var tag, body := data[0], data[1..];
    var j := SliceIsSized(if tag == BINARY then 4 else if tag == SMALL_ATOM then 1 else 2, body, t.bytes, rest);
    k := 1 + j;
    assert data[..k][1..] == body[..j];
  }

  lemma ReadIsInteger(data: Data, t: Term, rest: Data) returns (k: nat)
    requires ReadObject(data) == Some((t, rest)) && data[0] in {SMALL_INTEGER, INTEGER}
    ensures Leaves(data, rest, k) && IsObject(t, data[..k])
  {
    var body := data[1..];
    var w := if data[0] == SMALL_INTEGER then 1 else 4;
    k := 1 + w;
    UIntIsBig(body[..w]);
    assert data[..k][1..] == body[..w];
  }

  lemma {:induction false} ReadIsTuple(data: Data, t: Term, rest: Data) returns (k: nat)
    requires ReadObject(data) == Some((t, rest)) && data[0] in {SMALL_TUPLE, LARGE_TUPLE}
    ensures Leaves(data, rest, k) && IsObject(t, data[..k])
    decreases |data|, 0
  {
    hide ReadObjects, Big, UInt;
    var w := if data[0] == SMALL_TUPLE then 1 else 4;
    var body := data[1..];
    var j := ReadAreCounted(w, t.es, body, rest);
    k := 1 + j;
    assert data[..k][1..] == body[..j];
  }

  lemma {:induction false} ReadIsList(data: Data, t: Term, rest: Data) returns (k: nat)
    requires ReadObject(data) == Some((t, rest)) && data[0] == LIST
    ensures Leaves(data, rest, k) && IsObject(t, data[..k])
    decreases |data|, 0
  {
    hide ReadObjects, Big, UInt;
    var body := data[1..];
    var behind := ReadObjects(ReadUInt(4, body).value.0, ReadUInt(4, body).value.1).value.1;
    var j := ReadAreCounted(4, t.es, body, behind);
    var i := ReadIsObject(behind, t.tail, rest);
    k := 1 + j + i;
    var inside := data[..k][1..];
    assert inside[..j] == body[..j] && inside[j..] == behind[..i];
  }

  lemma {:induction false} ReadAreCounted(w: nat, es: seq<Term>, data: Data, rest: Data) returns (k: nat)
    requires w in {1, 4} && w <= |data| && ReadObjects(UInt(data[..w]), data[w..]) == Some((es, rest))
    ensures Leaves(data, rest, k) && Counted(w, es, data[..k])
    decreases |data|, 3
  {
    UIntIsBig(data[..w]);
    hide Big, UInt;
    var j := ReadAreObjects(es, data[w..], rest);
    k := w + j;
    assert data[..k][..w] == data[..w] && data[..k][w..] == data[w..][..j];
  }

  lemma {:induction false} ReadAreObjects(es: seq<Term>, data: Data, rest: Data) returns (k: nat)
    requires ReadObjects(|es|, data) == Some((es, rest))
    ensures Leaves(data, rest, k) && AreObjects(es, data[..k])
    decreases |data|, 2, |es|
  {
    hide ReadObject, IsObject;
    if es == [] {
      k := 0;
    } else {
      var behind := ReadObject(data).value.1;
      var j := ReadIsObject(data, es[0], behind);
      var i := ReadAreObjects(es[1..], behind, rest);
      k := j + i;
      var b := data[..k];
      assert b[..j] == data[..j] && b[j..] == behind[..i];
    }
  }

  // ---- And all of it ----

  lemma SizedReads(w: nat, body: Data, s: Data, rest: Data)
    requires w in {1, 2, 4} && Sized(w, body, s)
    ensures ReadSlice(w, body + rest) == Some((s, rest))
  {
    var all := body + rest;
    assert all[..w] == body[..w];
    UIntIsBig(body[..w]);
    assert all[w..][..|s|] == s && all[w..][|s|..] == rest;
  }

  lemma {:induction false} ObjectReads(t: Term, b: Data, rest: Data)
    requires IsObject(t, b)
    ensures ReadObject(b + rest) == Some((t, rest))
    decreases t, 1
  {
    hide ReadObject, IsObject;
    match t
    case IntegerTerm(n) => IntegerReads(n, b, rest);
    case AtomTerm(_) => BytesTermReads(t, b, rest);
    case BinaryTerm(_) => BytesTermReads(t, b, rest);
    case StringTerm(_) => BytesTermReads(t, b, rest);
    case NilTerm => NilTermReads(b, rest);
    case TupleTerm(_) => TupleTermReads(t, b, rest);
    case ListTerm(_, _) => ListTermReads(t, b, rest);
  }

  lemma NilTermReads(b: Data, rest: Data)
    requires IsObject(NilTerm, b)
    ensures ReadObject(b + rest) == Some((NilTerm, rest))
  {
    assert (b + rest)[1..] == rest;
  }

  lemma BytesTermReads(t: Term, b: Data, rest: Data)
    requires IsObject(t, b) && (t.AtomTerm? || t.BinaryTerm? || t.StringTerm?)
    ensures ReadObject(b + rest) == Some((t, rest))
  {
    var body := b[1..];
    assert (b + rest)[1..] == body + rest;
    SizedReads(if b[0] == 115 then 1 else if b[0] == 109 then 4 else 2, body, t.bytes, rest);
    hide ReadSlice, ReadUInt, ReadObjects, ReadTuple, Sized;
  }

  lemma {:induction false} TupleTermReads(t: Term, b: Data, rest: Data)
    requires IsObject(t, b) && t.TupleTerm?
    ensures ReadObject(b + rest) == Some((t, rest))
    decreases t, 0
  {
    hide ReadObjects, Big, UInt;
    var body := b[1..];
    assert (b + rest)[1..] == body + rest;
    CountedRead(if b[0] == 104 then 1 else 4, t.es, body, rest);
  }

  lemma {:induction false} ListTermReads(t: Term, b: Data, rest: Data)
    requires IsObject(t, b) && t.ListTerm?
    ensures ReadObject(b + rest) == Some((t, rest))
    decreases t, 0
  {
    hide ReadObjects, Big, UInt;
    var body := b[1..];
    assert (b + rest)[1..] == body + rest;
    var k :| 0 <= k <= |body| && Counted(4, t.es, body[..k]) && IsObject(t.tail, body[k..]);
    assert body + rest == body[..k] + (body[k..] + rest);
    CountedRead(4, t.es, body[..k], body[k..] + rest);
    ObjectReads(t.tail, body[k..], rest);
  }

  lemma IntegerReads(n: int, b: Data, rest: Data)
    requires IsObject(IntegerTerm(n), b)
    ensures ReadObject(b + rest) == Some((IntegerTerm(n), rest))
  {
    var all, body := b + rest, b[1..];
    assert all[1..] == body + rest && (body + rest)[..|body|] == body && (body + rest)[|body|..] == rest;
    UIntIsBig(body);
    hide ReadObjects;
  }

  lemma {:induction false} CountedRead(w: nat, es: seq<Term>, b: Data, rest: Data)
    requires w in {1, 4} && Counted(w, es, b)
    ensures ReadUInt(w, b + rest).Some?
    ensures var n := ReadUInt(w, b + rest).value; ReadObjects(n.0, n.1) == Some((es, rest))
    decreases es, 3
  {
    var all := b + rest;
    assert all[..w] == b[..w] && all[w..] == b[w..] + rest;
    UIntIsBig(b[..w]);
    hide Big, UInt, ReadObjects;
    ObjectsRead(es, b[w..], rest);
  }

  lemma {:induction false} ObjectsRead(es: seq<Term>, b: Data, rest: Data)
    requires AreObjects(es, b)
    ensures ReadObjects(|es|, b + rest) == Some((es, rest))
    decreases es, 2
  {
    hide ReadObject, IsObject;
    if es == [] {
      assert b + rest == rest;
    } else {
      var k :| 0 <= k <= |b| && IsObject(es[0], b[..k]) && AreObjects(es[1..], b[k..]);
      assert b + rest == b[..k] + (b[k..] + rest);
      ObjectReads(es[0], b[..k], b[k..] + rest);
      ObjectsRead(es[1..], b[k..], rest);
      assert [es[0]] + es[1..] == es;
    }
  }

  /** The reader reads an object exactly if the bytes begin with one, and leaves
      exactly what follows it; anything else is an error. */
  lemma ReadIsExact(data: Data, t: Term, rest: Data)
    ensures ReadObject(data) == Some((t, rest)) <==> exists k: nat :: Leaves(data, rest, k) && IsObject(t, data[..k])
  {
    hide ReadObject, IsObject;
    if ReadObject(data) == Some((t, rest)) {
      var k := ReadIsObject(data, t, rest);
    }
    if k: nat :| Leaves(data, rest, k) && IsObject(t, data[..k]) {
      assert data[..k] + rest == data;
      ObjectReads(t, data[..k], rest);
    }
  }

  /** A whole term has the start byte 131 in front. */
  lemma DecodeIsExact(data: Data, t: Term, rest: Data)
    ensures Decode(data) == Some((t, rest)) <==>
            data != [] && data[0] == 131 && exists k: nat :: Leaves(data[1..], rest, k) && IsObject(t, data[1..][..k])
  {
    hide ReadObject, IsObject;
    if data != [] { ReadIsExact(data[1..], t, rest); }
  }

  /** Every number of 32 bits with a sign has its encoding, and so has every byte. */
  lemma IntegersRead(n: int, rest: Data)
    requires -0x8000_0000 <= n < 0x8000_0000
    ensures var m := if n < 0 then n + 0x1_0000_0000 else n;
            ReadObject([98] + UIntBytes(4, m) + rest) == Some((IntegerTerm(n), rest))
    ensures 0 <= n < 256 ==> ReadObject([97, n] + rest) == Some((IntegerTerm(n), rest))
  {
    var m := if n < 0 then n + 0x1_0000_0000 else n;
    var body := UIntBytes(4, m);
    UIntRound(4, m);
    UIntIsBig(body);
    assert ([98] + body)[1..] == body;
    IntegerReads(n, [98] + body, rest);
    if 0 <= n < 256 {
      assert [97, n][1..] == [n];
      IntegerReads(n, [97, n], rest);
    }
  }

  /** What each call of the writer puts out: its tag, its size or count in the width
      of that tag, and its bytes. */
  lemma CallIsTagged(c: Call)
    requires InLimits(c)
    ensures var b := CallBytes(c);
            match c
            case SmallTuple(n) => |b| == 2 && b[0] == 104 && Big(b[1..]) == n
            case LargeTuple(n) => |b| == 5 && b[0] == 105 && Big(b[1..]) == n
            case List(n) => |b| == 5 && b[0] == 108 && Big(b[1..]) == n
            case SmallAtom(s) => b[0] == 115 && Sized(1, b[1..], s)
            case Atom(s) => b[0] == 100 && Sized(2, b[1..], s)
            case Binary(s) => b[0] == 109 && Sized(4, b[1..], s)
            case Nil => b == [106]
  {
    Powers();
    match c
    case SmallTuple(n) => Written(1, n, []);
    case LargeTuple(n) => Written(4, n, []);
    case List(n) => Written(4, n, []);
    case SmallAtom(s) => Written(1, |s|, s);
    case Atom(s) => Written(2, |s|, s);
    case Binary(s) => Written(4, |s|, s);
    case Nil =>
  }

  lemma Written(w: nat, n: nat, s: Data)
    requires w in {1, 2, 4} && n < Pow256(w)
    ensures var f := UIntBytes(w, n);
            Big(f) == n && (f + s)[..w] == f && (f + s)[w..] == s
    ensures forall tag: byte :: ([tag] + UIntBytes(w, n) + s)[1..] == UIntBytes(w, n) + s
    ensures forall tag: byte :: ([tag] + UIntBytes(w, n))[1..] == UIntBytes(w, n)
  {
    UIntRound(w, n);
    UIntIsBig(UIntBytes(w, n));
  }
}
