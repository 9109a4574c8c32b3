/** What the recursive LEB128 writer writes is a shortest encoding of its term, among
    all that the reader reads as that term (src/leb128.erl). */
module Leb128Shortest {
  import opened Bytes
  import opened Collections
  import opened Leb128
  import opened Leb128Grammar

  lemma {:induction false} ValueBelow(b: Data)
    ensures Value(b) < Pow128(|b|)
  {
    if b == [] {
    } else {
      ValueBelow(b[1..]);
    }
  }

  lemma ShortInt(n: nat, b: Data)
    requires IsInt(n, b)
    ensures |WriteInt(n)| <= |b|
  {
    ValueBelow(b);
    IntIsShortest(n, |b|);
  }

  lemma ShortSized(s: Data, b: Data)
    requires IsSized(s, b)
    ensures |WriteBytes(s)| <= |b|
  {
    var k :| 0 < k <= |b| && IsInt(|s|, b[..k]) && b[k..] == s;
    ShortInt(|s|, b[..k]);
  }

  lemma TypeIsOneByte(t: Term)
    ensures |WriteInt(TypeOf(t))| == 1
  {
  }

  predicate AllProper(es: seq<Term>) {
    forall i :: 0 <= i < |es| ==> Proper(es[i])
  }

  predicate AllTyped(ty: nat, es: seq<Term>) {
    forall i :: 0 <= i < |es| ==> Proper(es[i]) && TypeOf(es[i]) == ty
  }

  lemma {:induction false} ShortTerm(t: Term, b: Data)
    requires Proper(t) && IsTerm(t, b)
    ensures Write(t).Some? && |Write(t).value| <= |b|
    decreases |b|, 1, 0
  {
    hide IsInt, IsBody, IsTerm, WriteType, Proper, TypeOf;
    WriteIsEncoding(t);
    TypeWrites(t);
    TypeIsOneByte(t);
    var k, ty, j := TermBegins(t, b);
    if ty == 0 {
      ShortTerm(t, b[k..]);
    } else if ty == 0x23 {
      ShortTerm(t, b[j + 1..]);
    } else {
      ShortBody(ty, t, b[k..]);
    }
  }

  lemma {:induction false} ShortBody(ty: nat, t: Term, b: Data)
    requires Proper(t) && IsBody(ty, t, b)
    ensures WriteType(TypeOf(t), t).Some? && |WriteType(TypeOf(t), t).value| <= |b|
    decreases |b|, 1, 0
  {
    TypeWrites(t);
    if ty == 1 {
      ShortInt(t.n, b);
    } else if ty == 3 {
      ShortSized(t.bytes, b);
    } else if ty == 5 {
      ShortSized(t.name, b);
    } else if ty == 2 {
      ShortTuple(t, b);
    } else if ty == 4 {
      ShortArray(t, b);
    } else {
      ShortTag(t, b);
    }
  }

  lemma {:induction false} ShortTuple(t: Term, b: Data)
    requires Proper(t) && IsBody(2, t, b)
    ensures WriteType(TypeOf(t), t).Some? && |WriteType(TypeOf(t), t).value| <= |b|
    decreases |b|, 0, 1
  {
    hide IsInt, AreTerms, WriteInt;
    TypeWrites(t);
    if TypeOf(t) == T_TAG {
      TagAsTuple(t, b);
    } else {
      var k :| 0 < k <= |b| && IsInt(|t.es|, b[..k]) && AreTerms(t.es, b[k..]);
      ShortInt(|t.es|, b[..k]);
      ShortTerms(t.es, b[k..]);
    }
  }

  lemma {:induction false} ShortArray(t: Term, b: Data)
    requires Proper(t) && IsBody(4, t, b)
    ensures WriteType(TypeOf(t), t).Some? && |WriteType(TypeOf(t), t).value| <= |b|
    decreases |b|, 0, 0
  {
    TypeWrites(t);
    var k, j, of: nat :|
      0 < k < j <= |b| && IsInt(|t.es|, b[..k]) && IsInt(of, b[k..j]) && AreBodies(of, t.es, b[j..]);
    ShortInt(|t.es|, b[..k]);
    var ty1 := if t.es == [] then T_INT else TypeOf(t.es[0]);
    if t.es != [] { TypeIsOneByte(t.es[0]); }
    assert |WriteInt(ty1)| == 1;
    hide IsInt, AreBodies, WriteInt;
    ShortBodies(of, ty1, t.es, b[j..]);
  }

  lemma {:induction false} ShortTag(t: Term, b: Data)
    requires Proper(t) && IsBody(7, t, b)
    ensures WriteType(TypeOf(t), t).Some? && |WriteType(TypeOf(t), t).value| <= |b|
    decreases |b|, 0, 0
  {
    hide IsList, IsSized, WriteBytes, WriteCounted;
    TypeWrites(t);
    var parts := t.es[1].es;
    var k, j :| 0 < k < j < |b| && IsList(parts[0].es, b[..k]) && IsList(parts[1].es, b[k..j])
      && IsSized(parts[2].bytes, b[j..]);
    ShortList(parts[0], b[..k]);
    ShortList(parts[1], b[k..j]);
    ShortSized(parts[2].bytes, b[j..]);
  }

  lemma {:induction false} ShortList(t: Term, b: Data)
    requires IsIntList(t) && IsList(t.es, b)
    ensures WriteCounted(T_INT, t).Some? && |WriteCounted(T_INT, t).value| <= |b|
    decreases |b|, 0, 0
  {
    CountedWrites(t);
    var k :| 0 < k <= |b| && IsInt(|t.es|, b[..k]) && AreBodies(1, t.es, b[k..]);
    ShortInt(|t.es|, b[..k]);
    hide IsInt, AreBodies, WriteInt;
    ShortBodies(1, T_INT, t.es, b[k..]);
  }

  lemma {:induction false} ShortBodies(of: nat, ty: nat, es: seq<Term>, b: Data)
    requires AreBodies(of, es, b) && AllTyped(ty, es)
    ensures WriteElements(ty, es).Some? && |WriteElements(ty, es).value| <= |b|
    decreases |b|, 2, |es|
  {
    hide IsBody, WriteType, Proper, TypeOf;
    var parts := ElementsWrite(ty, es);
    if es == [] {
    } else {
      var k :| 0 < k <= |b| && IsBody(of, es[0], b[..k]) && AreBodies(of, es[1..], b[k..]);
      ShortBody(of, es[0], b[..k]);
      ShortBodies(of, ty, es[1..], b[k..]);
    }
  }

  lemma {:induction false} ShortTerms(es: seq<Term>, b: Data)
    requires AreTerms(es, b) && AllProper(es)
    ensures WriteTerms(es).Some? && |WriteTerms(es).value| <= |b|
    decreases |b|, 2, |es|
  {
    hide IsTerm, Write, Proper;
    var parts := TermsWrite(es);
    if es == [] {
    } else {
      var k :| 0 < k <= |b| && IsTerm(es[0], b[..k]) && AreTerms(es[1..], b[k..]);
      ShortTerm(es[0], b[..k]);
      ShortTerms(es[1..], b[k..]);
    }
  }

  // ---- A tag may also be written as the tuple it is; that is longer ----

  /** A term has a body, and takes at least one byte more. */
  lemma {:induction false} BodyInside(t: Term, b: Data) returns (ty: nat, body: Data)
    requires IsTerm(t, b)
    ensures IsBody(ty, t, body) && |body| < |b|
    decreases |b|
  {
    hide IsInt, IsBody, IsTerm;
    var k, ty0, j := TermBegins(t, b);
    if ty0 == 0 {
      ty, body := BodyInside(t, b[k..]);
    } else if ty0 == 0x23 {
      ty, body := BodyInside(t, b[j + 1..]);
    } else {
      ty, body := ty0, b[k..];
    }
  }

  lemma FirstTerm(es: seq<Term>, b: Data) returns (first: Data, rest: Data)
    requires AreTerms(es, b) && es != []
    ensures IsTerm(es[0], first) && AreTerms(es[1..], rest) && |first| + |rest| == |b| && first != []
  {
    hide IsTerm;
    var k :| 0 < k <= |b| && IsTerm(es[0], b[..k]) && AreTerms(es[1..], b[k..]);
    first, rest := b[..k], b[k..];
  }

  lemma TupleInside(es: seq<Term>, b: Data) returns (rest: Data)
    requires IsBody(2, Tup(es), b)
    ensures AreTerms(es, rest) && |rest| < |b|
  {
    hide IsInt, AreTerms;
    var k :| 0 < k <= |b| && IsInt(|es|, b[..k]) && AreTerms(es, b[k..]);
    rest := b[k..];
  }

  lemma {:induction false} TagAsTuple(t: Term, b: Data)
    requires Proper(t) && TypeOf(t) == T_TAG && IsBody(2, t, b)
    ensures WriteType(T_TAG, t).Some? && |WriteType(T_TAG, t).value| <= |b|
    decreases |b|, 0, 0
  {
    hide AreTerms, IsTerm, IsBody, WriteCounted, WriteBytes;
    TypeWrites(t);
    assert IsTag(t);
    var parts := t.es[1].es;
    var both := TupleInside(t.es, b);
    var first, second := FirstTerm(t.es, both);
    var inner, none := FirstTerm(t.es[1..], second);
    var ty, body := BodyInside(t.es[1], inner);
    OnlyATuple(ty, parts, body);
    var three := TupleInside(parts, body);
    var from, rest := FirstTerm(parts, three);
    var to, last := FirstTerm(parts[1..], rest);
    var bin, nothing := FirstTerm(parts[1..][1..], last);
    ListTerm(parts[0], from);
    ListTerm(parts[1], to);
    BinTerm(parts[2], bin);
  }

  lemma OnlyATuple(ty: nat, es: seq<Term>, b: Data)
    requires |es| == 3 && IsBody(ty, Tup(es), b)
    ensures ty == 2
  {
    hide AreTerms, AreBodies, IsSized, IsInt, IsList;
  }

  lemma {:induction false} ListTerm(t: Term, b: Data)
    requires IsIntList(t) && IsTerm(t, b)
    ensures WriteCounted(T_INT, t).Some? && |WriteCounted(T_INT, t).value| <= |b|
    decreases |b|, 3, 0
  {
    var ty, body := BodyInside(t, b);
    CountedWrites(t);
    assert ty == 4;
    var k, j, of: nat :|
      0 < k < j <= |body| && IsInt(|t.es|, body[..k]) && IsInt(of, body[k..j]) && AreBodies(of, t.es, body[j..]);
    ShortInt(|t.es|, body[..k]);
    hide IsInt, AreBodies, WriteInt;
    ShortBodies(of, T_INT, t.es, body[j..]);
  }

  lemma BinTerm(t: Term, b: Data)
    requires t.Bin? && IsTerm(t, b)
    ensures |WriteBytes(t.bytes)| <= |b|
  {
    var ty, body := BodyInside(t, b);
    assert ty == 3;
    ShortSized(t.bytes, body);
  }

  /** No encoding that the reader reads as a proper term is shorter than what the
      writer writes for it. */
  lemma WriteIsShortest(t: Term, b: Data)
    requires Proper(t) && Read(b) == Some((t, []))
    ensures Write(t).Some? && |Write(t).value| <= |b|
  {
    var k := ReadIsTerm(b, t, []);
    ShortTerm(t, b[..k]);
  }

  /** An empty array is written as one of numbers. */
  lemma EmptyArray()
    ensures Write(Arr([])) == Some([4, 0, 1])
  {
    var none: seq<Term> := [];
    assert WriteElements(1, none) == Some([]);
    assert WriteType(4, Arr(none)) == Some(WriteInt(0) + WriteInt(1) + []);
    assert WriteInt(0) == [0] && WriteInt(1) == [1] && WriteInt(4) == [4];
    var t, empty: Data := Arr(none), [];
    assert Write(t) == Some(WriteInt(4) + (WriteInt(0) + WriteInt(1) + empty));
    assert WriteInt(4) + (WriteInt(0) + WriteInt(1) + empty) == [4, 0, 1];
  }
}
