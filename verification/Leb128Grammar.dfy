/** The grammar of what the recursive LEB128 reader accepts, with its type numbers
    spelled out, the proof that it reads exactly that, and that the writer's encoding
    is a shortest one (src/leb128.erl; section 7.6 of DWARF version 5). */
module Leb128Grammar {
  import opened Bytes
  import opened Collections
  import opened Bits
  import opened Leb128

  // ---- The grammar ----

  /** Groups of seven bits, the lowest first. */
  function Value(b: Data): nat {
    if b == [] then 0 else b[0] % 128 + 128 * Value(b[1..])
  }

  /** All bytes of a number but the last have the high bit set; it need not be shortest. */
  predicate IsInt(n: nat, b: Data) {
    && b != [] && b[|b| - 1] < 128 && (forall i :: 0 <= i < |b| - 1 ==> b[i] >= 128) && n == Value(b)
  }

  /** A length and that many bytes. */
  ghost predicate IsSized(s: Data, b: Data) {
    exists k :: 0 < k <= |b| && IsInt(|s|, b[..k]) && b[k..] == s
  }

  predicate IsTagShaped(t: Term) {
    && t.Tup? && |t.es| == 2 && t.es[0] == Sym([116, 97, 103]) && t.es[1].Tup?
    && var parts := t.es[1].es;
       |parts| == 3 && parts[0].Arr? && parts[1].Arr? && parts[2].Bin?
  }

  /** b is a body of type ty that stands for t. */
  ghost predicate IsBody(ty: nat, t: Term, b: Data)
    decreases |b|, 1, 0
  {
    if ty == 1 then t.Int? && IsInt(t.n, b)
    else if ty == 3 then t.Bin? && IsSized(t.bytes, b)
    else if ty == 5 then t.Sym? && IsSized(t.name, b)
    else if ty == 2 then t.Tup? && exists k :: 0 < k <= |b| && IsInt(|t.es|, b[..k]) && AreTerms(t.es, b[k..])
    else if ty == 4 then
      t.Arr? && exists k, j, of: nat ::
        0 < k < j <= |b| && IsInt(|t.es|, b[..k]) && IsInt(of, b[k..j]) && AreBodies(of, t.es, b[j..])
    else if ty == 7 then
      IsTagShaped(t) && exists k, j ::
        && 0 < k < j < |b| && IsList(t.es[1].es[0].es, b[..k]) && IsList(t.es[1].es[1].es, b[k..j])
        && IsSized(t.es[1].es[2].bytes, b[j..])
    else false
  }

  /** A length and that many numbers. */
  ghost predicate IsList(es: seq<Term>, b: Data)
    decreases |b|, 3, 0
  {
    exists k :: 0 < k <= |b| && IsInt(|es|, b[..k]) && AreBodies(1, es, b[k..])
  }

  ghost predicate AreBodies(ty: nat, es: seq<Term>, b: Data)
    decreases |b|, 2, |es|
  {
    if es == [] then b == []
    else exists k :: 0 < k <= |b| && IsBody(ty, es[0], b[..k]) && AreBodies(ty, es[1..], b[k..])
  }

  ghost predicate AreTerms(es: seq<Term>, b: Data)
    decreases |b|, 2, |es|
  {
    if es == [] then b == []
    else exists k :: 0 < k <= |b| && IsTerm(es[0], b[..k]) && AreTerms(es[1..], b[k..])
  }

  /** A term: a type and a body, behind any number of zeros and comments. */
  ghost predicate IsTerm(t: Term, b: Data)
    decreases |b|, 1, 0
  {
    exists k, ty: nat :: 0 < k <= |b| && IsInt(ty, b[..k]) &&
      if ty == 0 then IsTerm(t, b[k..])
      else if ty == 0x23 then exists j :: k <= j < |b| && IsLine(b[k..j]) && b[j] == 10 && IsTerm(t, b[j + 1..])
      else IsBody(ty, t, b[k..])
  }

  predicate IsLine(b: Data) {
    10 !in b
  }

  // ---- The reader accepts only that ----

  predicate Leaves(data: Data, rest: Data, k: nat) {
    k <= |data| && rest == data[k..]
  }

  /** Two parts in a row. */
  lemma TwoParts(data: Data, i: nat, behind: Data, j: nat, rest: Data)
    requires Leaves(data, behind, i) && Leaves(behind, rest, j)
    ensures Leaves(data, rest, i + j) && data[..i + j][..i] == data[..i] && data[..i + j][i..] == behind[..j]
  {
  }

  /** Three. */
  lemma ThreeParts(data: Data, i: nat, behind: Data, l: nat, after: Data, j: nat, rest: Data)
    requires Leaves(data, behind, i) && Leaves(behind, after, l) && Leaves(after, rest, j)
    ensures Leaves(data, rest, i + l + j)
    ensures var b := data[..i + l + j];
            b[..i] == data[..i] && b[i..i + l] == behind[..l] && b[i + l..] == after[..j]
  {
    TwoParts(data, i, behind, l, after);
    TwoParts(data, i + l, after, j, rest);
    assert data[..i + l + j][..i] == data[..i] && data[..i + l + j][i..i + l] == data[i..i + l] == behind[..l];
  }

  lemma {:induction false} ReadIsIntFrom(data: Data, val: nat, shift: nat) returns (k: nat)
    requires ReadIntFrom(data, val, shift).Some?
    ensures 0 < k && Leaves(data, ReadIntFrom(data, val, shift).value.1, k)
    ensures IsInt(Value(data[..k]), data[..k])
    ensures ReadIntFrom(data, val, shift).value.0 == val + Value(data[..k]) * Pow2(shift)
    decreases |data|
  {
    var low := data[0] % 128;
    if data[0] < 128 {
      k := 1;
      assert data[..1][1..] == [];
    } else {
      var j := ReadIsIntFrom(data[1..], val + low * Pow2(shift), shift + 7);
      k := j + 1;
      var b := data[..k];
      assert b[1..] == data[1..][..j];
      assert b[|b| - 1] == data[1..][..j][j - 1];
      forall i | 0 <= i < |b| - 1 ensures b[i] >= 128 {
        if i > 0 { assert b[i] == data[1..][..j][i - 1]; }
      }
      ShiftGroups(low, Value(b[1..]), shift);
    }
  }

  lemma ShiftGroups(low: nat, high: nat, shift: nat)
    ensures low * Pow2(shift) + high * Pow2(shift + 7) == (low + 128 * high) * Pow2(shift)
  {
    var p := Pow2(shift);
    Pow2Add(shift, 7);
    assert Pow2(7) == 128;
    assert high * (p * 128) == 128 * high * p;
    assert (low + 128 * high) * p == low * p + 128 * high * p;
  }

  lemma ReadIsInt(data: Data, n: nat, rest: Data) returns (k: nat)
    requires ReadInt(data) == Some((n, rest))
    ensures 0 < k && Leaves(data, rest, k) && IsInt(n, data[..k])
  {
    k := ReadIsIntFrom(data, 0, 0);
    assert Pow2(0) == 1;
  }

  lemma ReadIsSized(data: Data, s: Data, rest: Data) returns (k: nat)
    requires ReadBin(data) == Some((s, rest))
    ensures 0 < k && Leaves(data, rest, k) && IsSized(s, data[..k])
  {
    var behind := ReadInt(data).value.1;
    var j := ReadIsInt(data, |s|, behind);
    k := j + |s|;
    hide ReadInt, IsInt;
    assert data[..k][..j] == data[..j] && data[..k][j..] == s;
  }

  lemma {:induction false} SkippedIsLine(data: Data, rest: Data) returns (j: nat)
    requires SkipComment(data) == Some(rest)
    ensures j < |data| && IsLine(data[..j]) && data[j] == 10 && rest == data[j + 1..]
  {
    if data[0] == 10 {
      j := 0;
    } else {
      var i := SkippedIsLine(data[1..], rest);
      j := i + 1;
      assert data[..j] == [data[0]] + data[1..][..i];
    }
  }

  /** One type word, and how the reader goes on. */
  lemma ReadStep(data: Data, ty: nat, behind: Data)
    requires ReadInt(data) == Some((ty, behind))
    ensures ty == 0 ==> Read(data) == Read(behind)
    ensures ty == 0x23 ==>
              Read(data) == if SkipComment(behind).None? then None else Read(SkipComment(behind).value)
    ensures ty != 0 && ty != 0x23 ==> Read(data) == ReadType(ty, behind)
  {
    hide ReadInt, ReadType, SkipComment;
  }

  lemma NoTypeWord(data: Data)
    ensures ReadInt(data).None? ==> Read(data).None?
  {
  }

  lemma {:induction false} ReadIsTerm(data: Data, t: Term, rest: Data) returns (k: nat)
    requires Read(data) == Some((t, rest))
    ensures 0 < k && Leaves(data, rest, k) && IsTerm(t, data[..k])
    decreases |data|, 1, 0
  {
    hide Read, ReadInt, IsInt, ReadType, IsBody, IsTerm, SkipComment, IsLine;
    NoTypeWord(data);
    var ty, behind := ReadInt(data).value.0, ReadInt(data).value.1;
    var i := ReadIsInt(data, ty, behind);
    ReadStep(data, ty, behind);
    if ty == 0 {
      var j := ReadIsTerm(behind, t, rest);
      k := i + j;
      TwoParts(data, i, behind, j, rest);
      ZeroTerm(t, data[..k], i);
    } else if ty == 0x23 {
      var after := SkipComment(behind).value;
      var l := SkippedIsLine(behind, after);
      var j := ReadIsTerm(after, t, rest);
      k := i + l + 1 + j;
      ThreeParts(data, i, behind, l + 1, after, j, rest);
      var b := data[..k];
      LineParts(b, i, behind, l);
      CommentTerm(t, b, i, i + l);
    } else {
      var j := ReadIsBody(ty, behind, t, rest);
      k := i + j;
      TwoParts(data, i, behind, j, rest);
      BodyTerm(t, data[..k], i, ty);
    }
  }

  lemma ZeroTerm(t: Term, b: Data, k: nat)
    requires 0 < k <= |b| && IsInt(0, b[..k]) && IsTerm(t, b[k..])
    ensures IsTerm(t, b)
  {
    hide IsInt, IsBody, IsLine;
  }

  lemma LineParts(b: Data, i: nat, behind: Data, l: nat)
    requires i + l < |b| && l < |behind| && b[i..i + (l + 1)] == behind[..l + 1]
    ensures b[i..i + l] == behind[..l] && b[i + l] == behind[l]
  {
    assert b[i..i + (l + 1)][..l] == b[i..i + l] && behind[..l + 1][..l] == behind[..l];
    assert b[i..i + (l + 1)][l] == b[i + l];
  }

  lemma CommentTerm(t: Term, b: Data, k: nat, j: nat)
    requires 0 < k <= j < |b| && IsInt(0x23, b[..k]) && IsLine(b[k..j]) && b[j] == 10 && IsTerm(t, b[j + 1..])
    ensures IsTerm(t, b)
  {
    hide IsInt, IsBody, IsLine;
  }

  lemma BodyTerm(t: Term, b: Data, k: nat, ty: nat)
    requires 0 < k <= |b| && ty != 0 && ty != 0x23 && IsInt(ty, b[..k]) && IsBody(ty, t, b[k..])
    ensures IsTerm(t, b)
  {
    hide IsInt, IsBody, IsLine;
  }

  /** What a term begins with. */
  lemma TermBegins(t: Term, b: Data) returns (k: nat, ty: nat, j: nat)
    requires IsTerm(t, b)
    ensures 0 < k <= |b| && IsInt(ty, b[..k])
    ensures ty == 0 ==> IsTerm(t, b[k..])
    ensures ty == 0x23 ==> k <= j < |b| && IsLine(b[k..j]) && b[j] == 10 && IsTerm(t, b[j + 1..])
    ensures ty != 0 && ty != 0x23 ==> IsBody(ty, t, b[k..])
  {
    hide IsInt, IsBody, IsLine;
    var k', ty': nat :| 0 < k' <= |b| && IsInt(ty', b[..k']) &&
      if ty' == 0 then IsTerm(t, b[k'..])
      else if ty' == 0x23 then exists j :: k' <= j < |b| && IsLine(b[k'..j]) && b[j] == 10 && IsTerm(t, b[j + 1..])
      else IsBody(ty', t, b[k'..]);
    k, ty, j := k', ty', 0;
    if ty == 0x23 {
      j :| k <= j < |b| && IsLine(b[k..j]) && b[j] == 10 && IsTerm(t, b[j + 1..]);
    }
  }

  lemma {:induction false} ReadIsBody(ty: nat, data: Data, t: Term, rest: Data) returns (k: nat)
    requires ReadType(ty, data) == Some((t, rest))
    ensures 0 < k && Leaves(data, rest, k) && IsBody(ty, t, data[..k])
    decreases |data|, 1, 0
  {
    hide ReadInt, IsInt, ReadBin, IsSized, ReadTerms, ReadElements, ReadTag, AreTerms, AreBodies, IsList;
    if ty == 1 {
      k := ReadIsInt(data, t.n, rest);
    } else if ty == 2 {
      k := ReadIsTuple(data, t, rest);
    } else if ty == 4 {
      k := ReadIsArray(data, t, rest);
    } else if ty == 3 {
      k := ReadIsSized(data, t.bytes, rest);
    } else if ty == 5 {
      k := ReadIsSized(data, t.name, rest);
    } else {
      k := ReadIsTag(data, t, rest);
    }
  }

  lemma {:induction false} ReadIsTuple(data: Data, t: Term, rest: Data) returns (k: nat)
    requires ReadType(2, data) == Some((t, rest))
    ensures 0 < k && Leaves(data, rest, k) && IsBody(2, t, data[..k])
    decreases |data|, 0, 0
  {
    hide ReadInt, IsInt, ReadTerms, AreTerms;
    var n, behind := ReadInt(data).value.0, ReadInt(data).value.1;
    var i := ReadIsInt(data, n, behind);
    var j := ReadAreTerms(behind, t.es, rest);
    k := i + j;
    TwoParts(data, i, behind, j, rest);
  }

  lemma {:induction false} ReadIsArray(data: Data, t: Term, rest: Data) returns (k: nat)
    requires ReadType(4, data) == Some((t, rest))
    ensures 0 < k && Leaves(data, rest, k) && IsBody(4, t, data[..k])
    decreases |data|, 0, 0
  {
    hide ReadInt, IsInt, ReadElements, ReadType, IsBody, AreBodies, Leaves;
    var behind, of, after := ArrayParts(data, t, rest);
    var i := ReadIsInt(data, |t.es|, behind);
    var l := ReadIsInt(behind, of, after);
    var j := ReadAreBodies(of, after, t.es, rest);
    k := i + l + j;
    ThreeParts(data, i, behind, l, after, j, rest);
    ArrayBody(t, data[..k], i, i + l, of);
  }

  lemma ArrayParts(data: Data, t: Term, rest: Data) returns (behind: Data, of: nat, after: Data)
    requires ReadType(4, data) == Some((t, rest))
    ensures t.Arr? && ReadInt(data) == Some((|t.es|, behind)) && ReadInt(behind) == Some((of, after))
    ensures ReadElements(of, |t.es|, after) == Some((t.es, rest))
  {
    hide ReadInt, ReadElements, ReadTerms, ReadBin, ReadTag;
    behind := ReadInt(data).value.1;
    of, after := ReadInt(behind).value.0, ReadInt(behind).value.1;
  }

  lemma ArrayBody(t: Term, b: Data, k: nat, j: nat, of: nat)
    requires t.Arr? && 0 < k < j <= |b| && IsInt(|t.es|, b[..k]) && IsInt(of, b[k..j]) && AreBodies(of, t.es, b[j..])
    ensures IsBody(4, t, b)
  {
    hide IsInt, AreBodies;
  }

  lemma {:induction false} ReadIsTag(data: Data, t: Term, rest: Data) returns (k: nat)
    requires ReadTag(data) == Some((t, rest))
    ensures 0 < k && Leaves(data, rest, k) && IsBody(7, t, data[..k])
    decreases |data|, 0, 1
  {
    hide ReadCounted, IsList, ReadBin, IsSized;
    var from, behind := ReadCounted(data).value.0, ReadCounted(data).value.1;
    var to, after := ReadCounted(behind).value.0, ReadCounted(behind).value.1;
    var i := ReadIsList(data, from, behind);
    var l := ReadIsList(behind, to, after);
    var j := ReadIsSized(after, t.es[1].es[2].bytes, rest);
    k := i + l + j;
    ThreeParts(data, i, behind, l, after, j, rest);
  }

  lemma {:induction false} ReadIsList(data: Data, es: seq<Term>, rest: Data) returns (k: nat)
    requires ReadCounted(data) == Some((es, rest))
    ensures 0 < k && Leaves(data, rest, k) && IsList(es, data[..k])
    decreases |data|, 0, 0
  {
    hide ReadInt, IsInt, ReadElements, AreBodies;
    var n, behind := ReadInt(data).value.0, ReadInt(data).value.1;
    var i := ReadIsInt(data, n, behind);
    var j := ReadAreBodies(1, behind, es, rest);
    k := i + j;
    TwoParts(data, i, behind, j, rest);
  }

  lemma {:induction false} ReadAreBodies(ty: nat, data: Data, es: seq<Term>, rest: Data) returns (k: nat)
    requires ReadElements(ty, |es|, data) == Some((es, rest))
    ensures Leaves(data, rest, k) && AreBodies(ty, es, data[..k])
    decreases |data|, 2, |es|
  {
    hide ReadType, IsBody;
    if es == [] {
      k := 0;
    } else {
      var behind := ReadType(ty, data).value.1;
      var i := ReadIsBody(ty, data, es[0], behind);
      var j := ReadAreBodies(ty, behind, es[1..], rest);
      k := i + j;
      TwoParts(data, i, behind, j, rest);
    }
  }

  lemma {:induction false} ReadAreTerms(data: Data, es: seq<Term>, rest: Data) returns (k: nat)
    requires ReadTerms(|es|, data) == Some((es, rest))
    ensures Leaves(data, rest, k) && AreTerms(es, data[..k])
    decreases |data|, 2, |es|
  {
    hide Read, IsTerm;
    if es == [] {
      k := 0;
    } else {
      var behind := Read(data).value.1;
      var i := ReadIsTerm(data, es[0], behind);
      var j := ReadAreTerms(behind, es[1..], rest);
      k := i + j;
      TwoParts(data, i, behind, j, rest);
    }
  }

  // ---- And all of it ----

  lemma {:induction false} IntReadsOn(n: nat, b: Data, rest: Data, val: nat, shift: nat)
    requires IsInt(n, b)
    ensures ReadIntFrom(b + rest, val, shift) == Some((val + n * Pow2(shift), rest))
    decreases |b|
  {
    var all := b + rest;
    var low := b[0] % 128;
    if |b| == 1 {
      assert all[1..] == rest && b[1..] == [] && Value(b[1..]) == 0 && n == low;
    } else {
      assert all[1..] == b[1..] + rest;
      IntReadsOn(Value(b[1..]), b[1..], rest, val + low * Pow2(shift), shift + 7);
      ShiftGroups(low, Value(b[1..]), shift);
    }
  }

  lemma IntIsRead(n: nat, b: Data, rest: Data)
    requires IsInt(n, b)
    ensures ReadInt(b + rest) == Some((n, rest))
  {
    IntReadsOn(n, b, rest, 0, 0);
    assert Pow2(0) == 1;
  }

  /** The bytes in two parts, and what follows. */
  lemma Cut(b: Data, k: nat, rest: Data)
    requires k <= |b|
    ensures b + rest == b[..k] + (b[k..] + rest)
  {
  }

  lemma SizedIsRead(s: Data, b: Data, rest: Data)
    requires IsSized(s, b)
    ensures ReadBin(b + rest) == Some((s, rest))
  {
    var k :| 0 < k <= |b| && IsInt(|s|, b[..k]) && b[k..] == s;
    Cut(b, k, rest);
    IntIsRead(|s|, b[..k], s + rest);
    hide ReadInt, IsInt;
    assert (s + rest)[..|s|] == s && (s + rest)[|s|..] == rest;
  }

  lemma {:induction false} LineIsSkipped(line: Data, rest: Data)
    requires IsLine(line)
    ensures SkipComment(line + ([10] + rest)) == Some(rest)
  {
    CommentSkipped(line, rest);
    assert line + [0x0A] + rest == line + ([10] + rest);
  }

  lemma {:induction false} TermIsRead(t: Term, b: Data, rest: Data)
    requires IsTerm(t, b)
    ensures Read(b + rest) == Some((t, rest))
    decreases |b|, 1, 0
  {
    hide Read, ReadInt, IsInt, ReadType, IsBody, IsTerm, SkipComment, IsLine;
    var k, ty, j := TermBegins(t, b);
    Cut(b, k, rest);
    IntIsRead(ty, b[..k], b[k..] + rest);
    ReadStep(b + rest, ty, b[k..] + rest);
    if ty == 0 {
      TermIsRead(t, b[k..], rest);
    } else if ty == 0x23 {
      assert b[k..] + rest == b[k..j] + ([10] + (b[j + 1..] + rest));
      LineIsSkipped(b[k..j], b[j + 1..] + rest);
      TermIsRead(t, b[j + 1..], rest);
    } else {
      BodyIsRead(ty, t, b[k..], rest);
    }
  }

  lemma {:induction false} BodyIsRead(ty: nat, t: Term, b: Data, rest: Data)
    requires IsBody(ty, t, b)
    ensures ReadType(ty, b + rest) == Some((t, rest))
    decreases |b|, 1, 0
  {
    hide ReadInt, IsInt, ReadBin, IsSized, ReadTerms, ReadElements, ReadTag, AreTerms, AreBodies, IsList;
    if ty == 1 {
      IntIsRead(t.n, b, rest);
    } else if ty == 2 {
      TupleIsRead(t, b, rest);
    } else if ty == 4 {
      ArrayIsRead(t, b, rest);
    } else if ty == 3 {
      SizedIsRead(t.bytes, b, rest);
    } else if ty == 5 {
      SizedIsRead(t.name, b, rest);
    } else {
      TagIsRead(t, b, rest);
    }
  }

  lemma {:induction false} TupleIsRead(t: Term, b: Data, rest: Data)
    requires IsBody(2, t, b)
    ensures ReadType(2, b + rest) == Some((t, rest))
    decreases |b|, 0, 0
  {
    hide ReadInt, IsInt, ReadTerms, AreTerms;
    var k :| 0 < k <= |b| && IsInt(|t.es|, b[..k]) && AreTerms(t.es, b[k..]);
    Cut(b, k, rest);
    IntIsRead(|t.es|, b[..k], b[k..] + rest);
    TermsAreRead(t.es, b[k..], rest);
  }

  lemma {:induction false} ArrayIsRead(t: Term, b: Data, rest: Data)
    requires IsBody(4, t, b)
    ensures ReadType(4, b + rest) == Some((t, rest))
    decreases |b|, 0, 0
  {
    hide ReadInt, IsInt, ReadElements, AreBodies;
    var k, j, of: nat :|
      0 < k < j <= |b| && IsInt(|t.es|, b[..k]) && IsInt(of, b[k..j]) && AreBodies(of, t.es, b[j..]);
    Cut(b, k, rest);
    assert b[k..] + rest == b[k..j] + (b[j..] + rest);
    IntIsRead(|t.es|, b[..k], b[k..] + rest);
    IntIsRead(of, b[k..j], b[j..] + rest);
    BodiesAreRead(of, t.es, b[j..], rest);
  }

  lemma {:induction false} TagIsRead(t: Term, b: Data, rest: Data)
    requires IsBody(7, t, b)
    ensures ReadTag(b + rest) == Some((t, rest))
    decreases |b|, 0, 0
  {
    hide ReadCounted, IsList, ReadBin, IsSized;
    var parts := t.es[1].es;
    var k, j :| 0 < k < j < |b| && IsList(parts[0].es, b[..k]) && IsList(parts[1].es, b[k..j])
      && IsSized(parts[2].bytes, b[j..]);
    Cut(b, k, rest);
    assert b[k..] + rest == b[k..j] + (b[j..] + rest);
    ListIsRead(parts[0].es, b[..k], b[k..] + rest);
    ListIsRead(parts[1].es, b[k..j], b[j..] + rest);
    SizedIsRead(parts[2].bytes, b[j..], rest);
    assert parts == [Arr(parts[0].es), Arr(parts[1].es), Bin(parts[2].bytes)];
    assert t.es == [Sym(TAG_NAME), t.es[1]];
  }

  lemma {:induction false} ListIsRead(es: seq<Term>, b: Data, rest: Data)
    requires IsList(es, b)
    ensures ReadCounted(b + rest) == Some((es, rest))
    decreases |b|, 0, 1
  {
    hide ReadInt, IsInt, ReadElements, AreBodies;
    var k :| 0 < k <= |b| && IsInt(|es|, b[..k]) && AreBodies(1, es, b[k..]);
    Cut(b, k, rest);
    IntIsRead(|es|, b[..k], b[k..] + rest);
    BodiesAreRead(1, es, b[k..], rest);
  }

  lemma {:induction false} BodiesAreRead(ty: nat, es: seq<Term>, b: Data, rest: Data)
    requires AreBodies(ty, es, b)
    ensures ReadElements(ty, |es|, b + rest) == Some((es, rest))
    decreases |b|, 2, |es|
  {
    hide ReadType, IsBody;
    if es == [] {
      assert b + rest == rest;
    } else {
      var k :| 0 < k <= |b| && IsBody(ty, es[0], b[..k]) && AreBodies(ty, es[1..], b[k..]);
      Cut(b, k, rest);
      BodyIsRead(ty, es[0], b[..k], b[k..] + rest);
      BodiesAreRead(ty, es[1..], b[k..], rest);
      assert [es[0]] + es[1..] == es;
    }
  }

  lemma {:induction false} TermsAreRead(es: seq<Term>, b: Data, rest: Data)
    requires AreTerms(es, b)
    ensures ReadTerms(|es|, b + rest) == Some((es, rest))
    decreases |b|, 2, |es|
  {
    hide Read, IsTerm;
    if es == [] {
      assert b + rest == rest;
    } else {
      var k :| 0 < k <= |b| && IsTerm(es[0], b[..k]) && AreTerms(es[1..], b[k..]);
      Cut(b, k, rest);
      TermIsRead(es[0], b[..k], b[k..] + rest);
      TermsAreRead(es[1..], b[k..], rest);
      assert [es[0]] + es[1..] == es;
    }
  }

  /** The reader reads a term exactly if the bytes begin with one, and leaves exactly
      what follows it. */
  lemma ReadIsExact(data: Data, t: Term, rest: Data)
    ensures Read(data) == Some((t, rest)) <==> exists k: nat :: Leaves(data, rest, k) && IsTerm(t, data[..k])
  {
    hide Read, IsTerm;
    if Read(data) == Some((t, rest)) {
      var k := ReadIsTerm(data, t, rest);
    }
    if k: nat :| Leaves(data, rest, k) && IsTerm(t, data[..k]) {
      assert data[..k] + rest == data;
      TermIsRead(t, data[..k], rest);
    }
  }
}
