/** Recursive terms over LEB128 integers (src/leb128.erl; the integers are those
    of section 7.6 of DWARF version 5). */
module Leb128 {
  import opened Bytes
  import opened Collections
  import opened Bits

  /** An Erlang term the writer knows.  {tag,{From,To,Bin}} is a tuple like any
      other; only type/1 sets it apart. */
  datatype Term =
    | Int(n: nat)
    | Bin(bytes: Data)
    | Sym(name: Data)
    | Tup(es: seq<Term>)
    | Arr(es: seq<Term>)

  const T_NOP: nat := 0
  const T_INT: nat := 1
  const T_TUP: nat := 2
  const T_BIN: nat := 3
  const T_ARR: nat := 4
  const T_SYM: nat := 5
  const T_CMT: nat := 0x23
  const T_TAG: nat := 7

  /** The atom tag. */
  const TAG_NAME: Data := [116, 97, 103]

  /** type/1 */
  function TypeOf(t: Term): nat {
    match t
    case Int(_) => T_INT
    case Bin(_) => T_BIN
    case Tup(es) => if |es| == 2 && es[0] == Sym(TAG_NAME) then T_TAG else T_TUP
    case Arr(_) => T_ARR
    case Sym(_) => T_SYM
  }

  // ---- Integers ----

  function WriteInt(n: nat): (r: Data)
    ensures r != []
  {
    if n <= 127 then [n] else [128 + n % 128] + WriteInt(n / 128)
  }

  /** read_int/2 with its accumulator: the value so far and the next shift. */
  function ReadIntFrom(bytes: Data, val: nat, shift: nat): (r: Parsed<nat>)
    ensures r.Some? ==> |r.value.1| < |bytes|
  {
    if bytes == [] then None
    else
      var val1 := val + bytes[0] % 128 * Pow2(shift);
      if bytes[0] < 128 then Some((val1, bytes[1..])) else ReadIntFrom(bytes[1..], val1, shift + 7)
  }

  function ReadInt(bytes: Data): (r: Parsed<nat>)
    ensures r.Some? ==> |r.value.1| < |bytes|
  {
    ReadIntFrom(bytes, 0, 0)
  }

  lemma ShiftParts(n: nat, shift: nat)
    ensures n % 128 * Pow2(shift) + n / 128 * Pow2(shift + 7) == n * Pow2(shift)
  {
    var p := Pow2(shift);
    Pow2Add(shift, 7);
    assert Pow2(7) == 128;
    assert n == n % 128 + n / 128 * 128;
    assert n * p == n % 128 * p + n / 128 * (p * 128);
  }

  lemma {:induction false} IntReadsFrom(n: nat, rest: Data, val: nat, shift: nat)
    ensures ReadIntFrom(WriteInt(n) + rest, val, shift) == Some((val + n * Pow2(shift), rest))
    decreases n
  {
    var bytes := WriteInt(n) + rest;
    assert bytes[0] % 128 == n % 128;
    if n <= 127 {
      assert bytes[1..] == rest;
    } else {
      assert bytes[1..] == WriteInt(n / 128) + rest;
      ShiftParts(n, shift);
      IntReadsFrom(n / 128, rest, val + n % 128 * Pow2(shift), shift + 7);
    }
  }

  lemma IntReads(n: nat, rest: Data)
    ensures ReadInt(WriteInt(n) + rest) == Some((n, rest))
  {
    IntReadsFrom(n, rest, 0, 0);
  }

  function Pow128(k: nat): (r: nat)
    ensures r > 0
  {
    if k == 0 then 1 else 128 * Pow128(k - 1)
  }

  /** An integer takes exactly the fewest bytes whose 7-bit groups can hold it. */
  lemma {:induction false} IntIsShortest(n: nat, k: nat)
    requires k >= 1
    ensures |WriteInt(n)| <= k <==> n < Pow128(k)
  {
    if n > 127 && k > 1 {
      IntIsShortest(n / 128, k - 1);
    } else if n > 127 {
      assert Pow128(1) == 128 * Pow128(0);
    } else if k > 1 {
      assert Pow128(k) >= 128 by { Pow128Grows(k); }
    }
  }

  lemma {:induction false} Pow128Grows(k: nat)
    requires k >= 1
    ensures Pow128(k) >= 128
  {
    if k == 1 { assert Pow128(1) == 128 * Pow128(0); } else { Pow128Grows(k - 1); }
  }

  // ---- Writing ----

  function WriteBytes(b: Data): Data {
    WriteInt(|b|) + b
  }

  /** The elements of an array, all asserted to have the given type. */
  function WriteElements(ty: nat, es: seq<Term>): Option<Data>
    decreases es
  {
    if es == [] then Some([])
    else
      var first, rest := WriteType(ty, es[0]), WriteElements(ty, es[1..]);
      if first.None? || rest.None? then None else Some(first.value + rest.value)
  }

  function WriteTerms(es: seq<Term>): Option<Data> {
    if es == [] then Some([])
    else
      var first, rest := Write(es[0]), WriteTerms(es[1..]);
      if first.None? || rest.None? then None else Some(first.value + rest.value)
  }

  /** A list written with its length in front. */
  function WriteCounted(ty: nat, t: Term): Option<Data>
    decreases t, 0
  {
    if !t.Arr? then None
    else
      var es := WriteElements(ty, t.es);
      if es.None? then None else Some(WriteInt(|t.es|) + es.value)
  }

  /** write_type/3; None where an assertion or a match fails. */
  function WriteType(ty: nat, t: Term): Option<Data>
    decreases t, 1
  {
    if TypeOf(t) != ty then None
    else
      match t
      case Int(n) => Some(WriteInt(n))
      case Bin(b) => Some(WriteBytes(b))
      case Sym(b) => Some(WriteBytes(b))
      case Tup(es) =>
        if ty == T_TAG then
          if es[1].Tup? && |es[1].es| == 3 && es[1].es[2].Bin? then
            var from, to := WriteCounted(T_INT, es[1].es[0]), WriteCounted(T_INT, es[1].es[1]);
            if from.None? || to.None? then None else Some(from.value + to.value + WriteBytes(es[1].es[2].bytes))
          else None
        else
          var body := WriteTerms(es);
          if body.None? then None else Some(WriteInt(|es|) + body.value)
      case Arr(es) =>
        var ty1 := if es == [] then T_INT else TypeOf(es[0]);
        var body := WriteElements(ty1, es);
        if body.None? then None else Some(WriteInt(|es|) + WriteInt(ty1) + body.value)
  }

  function Write(t: Term): Option<Data>
    decreases t, 2
  {
    var body := WriteType(TypeOf(t), t);
    if body.None? then None else Some(WriteInt(TypeOf(t)) + body.value)
  }

  /** What can be written: arrays of one type throughout, and tuples that look
      like a tag only if they are one. */
  predicate Proper(t: Term) {
    match t
    case Int(_) => true
    case Bin(_) => true
    case Sym(_) => true
    case Tup(es) => if TypeOf(t) == T_TAG then IsTag(t) else forall i :: 0 <= i < |es| ==> Proper(es[i])
    case Arr(es) => forall i :: 0 <= i < |es| ==> Proper(es[i]) && TypeOf(es[i]) == TypeOf(es[0])
  }

  predicate IsIntList(t: Term) {
    t.Arr? && forall i :: 0 <= i < |t.es| ==> t.es[i].Int?
  }

  predicate IsTag(t: Term) {
    && t.Tup? && |t.es| == 2 && t.es[0] == Sym(TAG_NAME)
    && t.es[1].Tup? && |t.es[1].es| == 3
    && IsIntList(t.es[1].es[0]) && IsIntList(t.es[1].es[1]) && t.es[1].es[2].Bin?
  }

  // ---- Reading ----

  function ReadBytes(n: nat, bytes: Data): (r: Parsed<Data>)
    ensures r.Some? ==> |r.value.1| <= |bytes|
  {
    if n <= |bytes| then Some((bytes[..n], bytes[n..])) else None
  }

  /** A length and that many bytes. */
  function ReadBin(bytes: Data): (r: Parsed<Data>)
    ensures r.Some? ==> |r.value.1| < |bytes|
  {
    var n := ReadInt(bytes);
    if n.None? then None else ReadBytes(n.value.0, n.value.1)
  }

  function SkipComment(bytes: Data): (r: Option<Data>)
    ensures r.Some? ==> |r.value| < |bytes|
  {
    if bytes == [] then None
    else if bytes[0] == 0x0A then Some(bytes[1..])
    else SkipComment(bytes[1..])
  }

  /** n elements of one type. */
  function ReadElements(ty: nat, n: nat, bytes: Data): (r: Parsed<seq<Term>>)
    ensures r.Some? ==> |r.value.1| <= |bytes| && |r.value.0| == n
    decreases |bytes|, 2, n
  {
    if n == 0 then Some(([], bytes))
    else
      var first := ReadType(ty, bytes);
      if first.None? then None
      else
        var rest := ReadElements(ty, n - 1, first.value.1);
        if rest.None? then None else Some(([first.value.0] + rest.value.0, rest.value.1))
  }

  /** n terms, each with its type. */
  function ReadTerms(n: nat, bytes: Data): (r: Parsed<seq<Term>>)
    ensures r.Some? ==> |r.value.1| <= |bytes| && |r.value.0| == n
    decreases |bytes|, 2, n
  {
    if n == 0 then Some(([], bytes))
    else
      var first := Read(bytes);
      if first.None? then None
      else
        var rest := ReadTerms(n - 1, first.value.1);
        if rest.None? then None else Some(([first.value.0] + rest.value.0, rest.value.1))
  }

  /** A length and that many integers. */
  function ReadCounted(bytes: Data): (r: Parsed<seq<Term>>)
    ensures r.Some? ==> |r.value.1| < |bytes|
    decreases |bytes|, 0, 0
  {
    var n := ReadInt(bytes);
    if n.None? then None else ReadElements(T_INT, n.value.0, n.value.1)
  }

  function ReadTag(bytes: Data): (r: Parsed<Term>)
    ensures r.Some? ==> |r.value.1| < |bytes|
    decreases |bytes|, 0, 1
  {
    var from := ReadCounted(bytes);
    if from.None? then None
    else
      var to := ReadCounted(from.value.1);
      if to.None? then None
      else
        var bin := ReadBin(to.value.1);
        if bin.None? then None
        else Some((Tup([Sym(TAG_NAME), Tup([Arr(from.value.0), Arr(to.value.0), Bin(bin.value.0)])]), bin.value.1))
  }

  function ReadType(ty: nat, bytes: Data): (r: Parsed<Term>)
    ensures r.Some? ==> |r.value.1| < |bytes|
    decreases |bytes|, 1
  {
    if ty == T_INT then
      var n := ReadInt(bytes);
      if n.None? then None else Some((Int(n.value.0), n.value.1))
    else if ty == T_TUP then
      var n := ReadInt(bytes);
      if n.None? then None
      else
        var es := ReadTerms(n.value.0, n.value.1);
        if es.None? then None else Some((Tup(es.value.0), es.value.1))
    else if ty == T_ARR then
      var n := ReadInt(bytes);
      if n.None? then None
      else
        var ty1 := ReadInt(n.value.1);
        if ty1.None? then None
        else
          var es := ReadElements(ty1.value.0, n.value.0, ty1.value.1);
          if es.None? then None else Some((Arr(es.value.0), es.value.1))
    else if ty == T_BIN || ty == T_SYM then
      var b := ReadBin(bytes);
      if b.None? then None else Some((if ty == T_BIN then Bin(b.value.0) else Sym(b.value.0), b.value.1))
    else if ty == T_TAG then ReadTag(bytes)
    else None
  }

  /** read/1: padding and comments in front of a term are skipped. */
  function Read(bytes: Data): (r: Parsed<Term>)
    ensures r.Some? ==> |r.value.1| < |bytes|
    decreases |bytes|, 1
  {
    var ty := ReadInt(bytes);
    if ty.None? then None
    else if ty.value.0 == T_NOP then Read(ty.value.1)
    else if ty.value.0 == T_CMT then
      var after := SkipComment(ty.value.1);
      if after.None? then None else Read(after.value)
    else ReadType(ty.value.0, ty.value.1)
  }

  // ---- Encodings: what the reader must understand ----

  datatype Pad = Nop | Comment(text: Data)

  /** A comment runs to the end of its line. */
  predicate OneLine(p: Pad) {
    p.Comment? ==> 0x0A !in p.text
  }

  function PadBytes(pads: seq<Pad>): Data {
    if pads == [] then []
    else (match pads[0] case Nop => [0] case Comment(text) => [T_CMT] + text + [0x0A]) + PadBytes(pads[1..])
  }

  /** bytes is the body of t, after its type. */
  ghost predicate Body(t: Term, bytes: Data)
    decreases t, 0
  {
    match t
    case Int(n) => bytes == WriteInt(n)
    case Bin(b) => bytes == WriteBytes(b)
    case Sym(b) => bytes == WriteBytes(b)
    case Tup(es) =>
      if TypeOf(t) == T_TAG then
        IsTag(t) && exists from, to ::
          Counted(es[1].es[0].es, from) && Counted(es[1].es[1].es, to)
            && bytes == from + to + WriteBytes(es[1].es[2].bytes)
      else
        exists parts: seq<Data> ::
          && |parts| == |es| && bytes == WriteInt(|es|) + Concat(parts)
          && forall i :: 0 <= i < |es| ==> Encodes(es[i], parts[i])
    case Arr(es) =>
      exists ty: nat, parts: seq<Data> ::
        bytes == WriteInt(|es|) + WriteInt(ty) + Concat(parts) && Elements(ty, es, parts)
  }

  /** The parts are bodies of the elements, which have one type. */
  ghost predicate Elements(ty: nat, es: seq<Term>, parts: seq<Data>)
    decreases es, 0
  {
    |parts| == |es| && forall i :: 0 <= i < |es| ==> TypeOf(es[i]) == ty && Body(es[i], parts[i])
  }

  ghost predicate Counted(es: seq<Term>, bytes: Data)
    decreases es, 1
  {
    exists parts: seq<Data> :: bytes == WriteInt(|es|) + Concat(parts) && Elements(T_INT, es, parts)
  }

  /** bytes encodes t: padding and comments, its type, its body; and so do the
      parts of bytes for the elements of a tuple. */
  ghost predicate Encodes(t: Term, bytes: Data)
    decreases t, 1
  {
    exists pads: seq<Pad>, body: Data ::
      && (forall i :: 0 <= i < |pads| ==> OneLine(pads[i]))
      && bytes == PadBytes(pads) + WriteInt(TypeOf(t)) + body
      && Body(t, body)
  }

  lemma {:induction false} CommentSkipped(text: Data, rest: Data)
    requires 0x0A !in text
    ensures SkipComment(text + [0x0A] + rest) == Some(rest)
  {
    var bytes := text + [0x0A] + rest;
    if text == [] {
      assert bytes[1..] == rest;
    } else {
      assert bytes[1..] == text[1..] + [0x0A] + rest;
      CommentSkipped(text[1..], rest);
    }
  }

  lemma {:induction false} PadsSkipped(pads: seq<Pad>, bytes: Data)
    requires forall i :: 0 <= i < |pads| ==> OneLine(pads[i])
    ensures Read(PadBytes(pads) + bytes) == Read(bytes)
  {
    if pads == [] {
      assert [] + bytes == bytes;
    } else {
      var rest := PadBytes(pads[1..]) + bytes;
      PadsSkipped(pads[1..], bytes);
      match pads[0]
      case Nop =>
        assert PadBytes(pads) + bytes == WriteInt(T_NOP) + rest;
        IntReads(T_NOP, rest);
      case Comment(text) =>
        assert OneLine(pads[0]);
        assert PadBytes(pads) + bytes == WriteInt(T_CMT) + (text + [0x0A] + rest);
        IntReads(T_CMT, text + [0x0A] + rest);
        CommentSkipped(text, rest);
    }
  }

  lemma BytesRead(b: Data, rest: Data)
    ensures ReadBin(WriteBytes(b) + rest) == Some((b, rest))
  {
    assert WriteBytes(b) + rest == WriteInt(|b|) + (b + rest);
    IntReads(|b|, b + rest);
  }

  lemma Regroup(a: Data, b: Data, c: Data)
    ensures a + b + c == a + (b + c)
  {
  }

  lemma {:induction false} ElementsRead(ty: nat, es: seq<Term>, parts: seq<Data>, rest: Data)
    requires Elements(ty, es, parts)
    ensures ReadElements(ty, |es|, Concat(parts) + rest) == Some((es, rest))
    decreases es, 0
  {
    hide Body, TypeOf, ReadType;
    if es == [] {
      assert Concat(parts) + rest == rest;
    } else {
      assert TypeOf(es[0]) == ty && Body(es[0], parts[0]);
      Regroup(parts[0], Concat(parts[1..]), rest);
      BodyReads(es[0], parts[0], Concat(parts[1..]) + rest);
      ElementsRead(ty, es[1..], parts[1..], rest);
      assert [es[0]] + es[1..] == es;
    }
  }

  lemma {:induction false} CountedReads(es: seq<Term>, bytes: Data, rest: Data)
    requires Counted(es, bytes)
    ensures ReadCounted(bytes + rest) == Some((es, rest))
    decreases es, 1
  {
    var parts: seq<Data> :| bytes == WriteInt(|es|) + Concat(parts) && Elements(T_INT, es, parts);
    assert bytes + rest == WriteInt(|es|) + (Concat(parts) + rest);
    IntReads(|es|, Concat(parts) + rest);
    ElementsRead(T_INT, es, parts, rest);
  }

  lemma {:induction false} TermsRead(es: seq<Term>, parts: seq<Data>, rest: Data)
    requires |parts| == |es| && forall i :: 0 <= i < |es| ==> Encodes(es[i], parts[i])
    ensures ReadTerms(|es|, Concat(parts) + rest) == Some((es, rest))
    decreases es, 0
  {
    hide Encodes, Read;
    if es == [] {
      assert Concat(parts) + rest == rest;
    } else {
      assert Encodes(es[0], parts[0]);
      Regroup(parts[0], Concat(parts[1..]), rest);
      EncodingReads(es[0], parts[0], Concat(parts[1..]) + rest);
      TermsRead(es[1..], parts[1..], rest);
      assert [es[0]] + es[1..] == es;
    }
  }

  lemma {:induction false} TagReads(t: Term, bytes: Data, rest: Data)
    requires TypeOf(t) == T_TAG && Body(t, bytes)
    ensures ReadTag(bytes + rest) == Some((t, rest))
    decreases t, 0, 0
  {
    var from, to, bin := t.es[1].es[0].es, t.es[1].es[1].es, t.es[1].es[2].bytes;
    var a, b :| Counted(from, a) && Counted(to, b) && bytes == a + b + WriteBytes(bin);
    hide Body, Counted, WriteBytes, ReadCounted, ReadBin;
    Regroup(a + b, WriteBytes(bin), rest);
    Regroup(a, b, WriteBytes(bin) + rest);
    CountedReads(from, a, b + (WriteBytes(bin) + rest));
    CountedReads(to, b, WriteBytes(bin) + rest);
    BytesRead(bin, rest);
    assert t.es == [Sym(TAG_NAME), t.es[1]];
    assert t.es[1].es == [Arr(from), Arr(to), Bin(bin)];
  }

  lemma {:induction false} BodyReads(t: Term, bytes: Data, rest: Data)
    requires Body(t, bytes)
    ensures ReadType(TypeOf(t), bytes + rest) == Some((t, rest))
    decreases t, 0, 1
  {
    hide Encodes, Elements, Concat, WriteInt, WriteBytes, ReadInt, ReadBin, ReadTag, ReadTerms, ReadElements;
    match t
    case Int(n) => IntReads(n, rest);
    case Bin(b) => BytesRead(b, rest);
    case Sym(b) => BytesRead(b, rest);
    case Tup(es) =>
      if TypeOf(t) == T_TAG {
        TagReads(t, bytes, rest);
      } else {
        var parts: seq<Data> :| |parts| == |es| && bytes == WriteInt(|es|) + Concat(parts)
          && forall i :: 0 <= i < |es| ==> Encodes(es[i], parts[i]);
        Regroup(WriteInt(|es|), Concat(parts), rest);
        IntReads(|es|, Concat(parts) + rest);
        TermsRead(es, parts, rest);
      }
    case Arr(es) =>
      var ty: nat, parts: seq<Data> :| bytes == WriteInt(|es|) + WriteInt(ty) + Concat(parts)
        && Elements(ty, es, parts);
      Regroup(WriteInt(|es|) + WriteInt(ty), Concat(parts), rest);
      Regroup(WriteInt(|es|), WriteInt(ty), Concat(parts) + rest);
      IntReads(|es|, WriteInt(ty) + (Concat(parts) + rest));
      IntReads(ty, Concat(parts) + rest);
      ElementsRead(ty, es, parts, rest);
  }

  /** Encodings are self-delimiting: whatever follows, the reader returns the term
      and leaves exactly what follows. */
  lemma {:induction false} EncodingReads(t: Term, bytes: Data, rest: Data)
    requires Encodes(t, bytes)
    ensures Read(bytes + rest) == Some((t, rest))
    decreases t, 1
  {
    var pads: seq<Pad>, body: Data :|
      && (forall i :: 0 <= i < |pads| ==> OneLine(pads[i]))
      && bytes == PadBytes(pads) + WriteInt(TypeOf(t)) + body && Body(t, body);
    hide Body, OneLine, PadBytes, WriteInt, TypeOf, ReadInt, ReadType;
    Regroup(PadBytes(pads) + WriteInt(TypeOf(t)), body, rest);
    Regroup(PadBytes(pads), WriteInt(TypeOf(t)), body + rest);
    PadsSkipped(pads, WriteInt(TypeOf(t)) + (body + rest));
    IntReads(TypeOf(t), body + rest);
    BodyReads(t, body, rest);
    TypeIsNoPadding(t);
  }

  lemma TypeIsNoPadding(t: Term)
    ensures TypeOf(t) != T_NOP && TypeOf(t) != T_CMT
  {
  }

  /** No encoding is a prefix of another one: equal streams start with equal terms. */
  lemma EncodingsArePrefixFree(t: Term, a: Data, x: Data, u: Term, b: Data, y: Data)
    requires Encodes(t, a) && Encodes(u, b) && a + x == b + y
    ensures t == u && a == b && x == y
  {
    EncodingReads(t, a, x);
    EncodingReads(u, b, y);
    assert a == (a + x)[..|a|] && b == (b + y)[..|b|];
  }

  // ---- The writer produces encodings ----

  lemma {:induction false} ElementsWrite(ty: nat, es: seq<Term>) returns (parts: seq<Data>)
    ensures WriteElements(ty, es).Some? <==> forall i :: 0 <= i < |es| ==> Proper(es[i]) && TypeOf(es[i]) == ty
    ensures WriteElements(ty, es).Some? ==> Elements(ty, es, parts) && WriteElements(ty, es).value == Concat(parts)
    decreases es, 0
  {
    parts := [];
    if es == [] {
    } else {
      TypeWrites(es[0]);
      var rest := ElementsWrite(ty, es[1..]);
      if WriteElements(ty, es).Some? { parts := [WriteType(ty, es[0]).value] + rest; }
      assert forall i :: 0 < i < |es| ==> es[i] == es[1..][i - 1];
    }
  }

  lemma {:induction false} TermsWrite(es: seq<Term>) returns (parts: seq<Data>)
    ensures WriteTerms(es).Some? <==> forall i :: 0 <= i < |es| ==> Proper(es[i])
    ensures WriteTerms(es).Some? ==> |parts| == |es| && WriteTerms(es).value == Concat(parts)
    ensures WriteTerms(es).Some? ==> forall i :: 0 <= i < |es| ==> Encodes(es[i], parts[i])
    decreases es, 0
  {
    parts := [];
    if es == [] {
    } else {
      WriteIsEncoding(es[0]);
      var rest := TermsWrite(es[1..]);
      if WriteTerms(es).Some? { parts := [Write(es[0]).value] + rest; }
      assert forall i :: 0 < i < |es| ==> es[i] == es[1..][i - 1];
    }
  }

  lemma {:induction false} CountedWrites(t: Term)
    ensures WriteCounted(T_INT, t).Some? <==> IsIntList(t)
    ensures WriteCounted(T_INT, t).Some? ==> Counted(t.es, WriteCounted(T_INT, t).value)
    decreases t, 0
  {
    if t.Arr? {
      var parts := ElementsWrite(T_INT, t.es);
    }
  }

  lemma {:induction false} TypeWrites(t: Term)
    ensures WriteType(TypeOf(t), t).Some? <==> Proper(t)
    ensures WriteType(TypeOf(t), t).Some? ==> Body(t, WriteType(TypeOf(t), t).value)
    decreases t, 1
  {
    match t
    case Int(_) =>
    case Bin(_) =>
    case Sym(_) =>
    case Tup(es) =>
      if TypeOf(t) == T_TAG {
        if es[1].Tup? && |es[1].es| == 3 {
          CountedWrites(es[1].es[0]);
          CountedWrites(es[1].es[1]);
        }
      } else {
        var parts := TermsWrite(es);
      }
    case Arr(es) =>
      var parts := ElementsWrite(if es == [] then T_INT else TypeOf(es[0]), es);
  }

  /** The writer succeeds exactly on proper terms, and what it writes is an encoding. */
  lemma {:induction false} WriteIsEncoding(t: Term)
    ensures Write(t).Some? <==> Proper(t)
    ensures Write(t).Some? ==> Encodes(t, Write(t).value)
    decreases t, 2
  {
    TypeWrites(t);
    if Write(t).Some? {
      var body := WriteType(TypeOf(t), t).value;
      assert Write(t).value == PadBytes([]) + WriteInt(TypeOf(t)) + body;
    }
  }

  /** Reading what was written, followed by anything, gives the term back and
      leaves exactly the rest. */
  lemma RoundTrip(t: Term, rest: Data)
    requires Proper(t)
    ensures Write(t).Some? && Read(Write(t).value + rest) == Some((t, rest))
  {
    WriteIsEncoding(t);
    EncodingReads(t, Write(t).value, rest);
  }
}
