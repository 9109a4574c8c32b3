/** Bit masks as numbers, and the mask fold of src/epid_cproc.erl. */
module Bits {

  function Pow2(n: nat): (r: nat)
    ensures r > 0
  {
    if n == 0 then 1 else 2 * Pow2(n - 1)
  }

  predicate Bit(x: nat, i: nat)
    decreases i
  {
    if i == 0 then x % 2 == 1 else Bit(x / 2, i - 1)
  }

  predicate Descending(l: seq<nat>) {
    forall i, j :: 0 <= i < j < |l| ==> l[i] > l[j]
  }

  function Sum(l: seq<nat>): nat {
    if l == [] then 0 else l[0] + Sum(l[1..])
  }

  /** The mask with the bits of a list of distinct positions. */
  function UnionBits(l: seq<nat>): nat {
    if l == [] then 0 else Pow2(l[0]) + UnionBits(l[1..])
  }

  /** cond_bitvec as written: `Acc + 1 bsl Bit` shifts the sum, not the 1. */
  function CondBitvec(l: seq<nat>, acc: nat): nat
    decreases l
  {
    if l == [] then acc else CondBitvec(l[1..], (acc + 1) * Pow2(l[0]))
  }

  lemma {:induction false} Pow2Add(a: nat, b: nat)
    ensures Pow2(a + b) == Pow2(a) * Pow2(b)
  {
    if a == 0 {
    } else {
      Pow2Add(a - 1, b);
    }
  }

  lemma {:induction false} TopBit(k: nat, x: nat, i: nat)
    requires x < Pow2(k)
    ensures Bit(Pow2(k) + x, i) <==> i == k || Bit(x, i)
    decreases k
  {
    if k > 0 && i > 0 {
      TopBit(k - 1, x / 2, i - 1);
      assert (Pow2(k) + x) / 2 == Pow2(k - 1) + x / 2;
    } else if k == 0 && i > 0 {
      NoBits(i - 1);
    }
  }

  lemma {:induction false} NoBits(i: nat)
    ensures !Bit(0, i)
  {
    if i == 0 {
    } else {
      NoBits(i - 1);
    }
  }

  lemma {:induction false} UnionBelow(l: seq<nat>, k: nat)
    requires Descending(l) && forall b :: b in l ==> b < k
    ensures UnionBits(l) < Pow2(k)
    decreases |l|
  {
    if l == [] {
    } else {
      assert l[0] in l;
      UnionBelow(l[1..], l[0]);
      Pow2Add(l[0] + 1, k - l[0] - 1);
      assert Pow2(k) >= Pow2(l[0] + 1) by { MulAtLeast(Pow2(l[0] + 1), Pow2(k - l[0] - 1)); }
    }
  }

  lemma MulAtLeast(a: nat, b: nat)
    requires b > 0
    ensures a * b >= a
  {
  }

  /** The bits of a mask built from distinct positions are those positions. */
  lemma {:induction false} UnionHasBits(l: seq<nat>, i: nat)
    requires Descending(l)
    ensures Bit(UnionBits(l), i) <==> i in l
  {
    if l == [] {
      NoBits(i);
    } else {
      UnionBelow(l[1..], l[0]);
      TopBit(l[0], UnionBits(l[1..]), i);
      UnionHasBits(l[1..], i);
    }
  }

  /** The positions the coded fold really sets: the suffix sums of the list. */
  function SuffixSums(l: seq<nat>): (r: seq<nat>)
    ensures |r| == |l|
  {
    if l == [] then [] else [Sum(l)] + SuffixSums(l[1..])
  }

  lemma {:induction false} CondBitvecIs(l: seq<nat>, acc: nat)
    ensures CondBitvec(l, acc) == acc * Pow2(Sum(l)) + UnionBits(SuffixSums(l))
    decreases |l|
  {
    if l == [] {
    } else {
      CondBitvecIs(l[1..], (acc + 1) * Pow2(l[0]));
      Pow2Add(l[0], Sum(l[1..]));
      Distribute(acc, Pow2(l[0]), Pow2(Sum(l[1..])));
    }
  }

  lemma Distribute(a: nat, p: nat, q: nat)
    ensures (a + 1) * p * q == a * (p * q) + p * q
  {
  }

  lemma {:induction false} SuffixSumsDescend(l: seq<nat>)
    requires Descending(l)
    ensures Descending(SuffixSums(l))
    ensures forall i :: 0 <= i < |l| ==> SuffixSums(l)[i] <= Sum(l)
  {
    if |l| > 1 {
      SuffixSumsDescend(l[1..]);
      assert l[0] > l[1];
      var r := SuffixSums(l);
      forall i, j | 0 <= i < j < |r| ensures r[i] > r[j] {
        assert r[j] == SuffixSums(l[1..])[j - 1];
        if i > 0 { assert r[i] == SuffixSums(l[1..])[i - 1]; }
      }
      forall i | 0 <= i < |l| ensures r[i] <= Sum(l) {
        if i > 0 { assert r[i] == SuffixSums(l[1..])[i - 1]; }
      }
    }
  }

  /** Descending lists of one length, one inside the other, are equal. */
  lemma {:induction false} DescendingInside(a: seq<nat>, b: seq<nat>)
    requires Descending(a) && Descending(b) && |a| == |b| && forall x :: x in a ==> x in b
    ensures a == b
    decreases |a|
  {
    if a == [] {
    } else {
      var a', b' := a[..|a| - 1], b[..|b| - 1];
      var last := b[|b| - 1];
      LastIsNot(a, b);
      forall x | x in a' ensures x in b' {
        var i :| 0 <= i < |a'| && a'[i] == x;
        assert a[i] in b;
        var j :| 0 <= j < |b| && b[j] == a[i];
      }
      DescendingInside(a', b');
      assert a == a' + [a[|a| - 1]] && b == b' + [last];
      assert a[|a| - 1] in b;
    }
  }

  /** Only the last element of a can be the least element of b. */
  lemma LastIsNot(a: seq<nat>, b: seq<nat>)
    requires Descending(a) && Descending(b) && |a| == |b| > 0 && forall x :: x in a ==> x in b
    ensures forall i :: 0 <= i < |a| - 1 ==> a[i] != b[|b| - 1]
  {
    forall i | 0 <= i < |a| - 1 ensures a[i] != b[|b| - 1] {
      var z := a[|a| - 1];
      assert z in a;
      var j :| 0 <= j < |b| && b[j] == z;
    }
  }

  /** The lists for which the coded fold is right. */
  predicate FoldIsRight(l: seq<nat>) {
    |l| <= 1 || (|l| == 2 && l[1] == 0)
  }

  /** Exactly those lists get a mask with all their bits; any other loses one. */
  lemma CondBitvecExact(l: seq<nat>)
    requires Descending(l)
    ensures FoldIsRight(l) <==> CondBitvec(l, 0) == UnionBits(l)
    ensures FoldIsRight(l) <==> forall i :: i in l ==> Bit(CondBitvec(l, 0), i)
  {
    CondBitvecIs(l, 0);
    SuffixSumsDescend(l);
    var sums := SuffixSums(l);
    forall i ensures Bit(CondBitvec(l, 0), i) <==> i in sums { UnionHasBits(sums, i); }
    if FoldIsRight(l) {
      assert sums == l by {
        if |l| == 1 { assert sums == [Sum(l)] && Sum(l) == l[0]; }
        if |l| == 2 { assert l[1..] == [0] && sums == [Sum(l), Sum([0])] && Sum([0]) == 0; }
      }
    }
    if forall i :: i in l ==> i in sums {
      DescendingInside(l, sums);
      if |l| >= 2 {
        assert sums[0] == l[0] + Sum(l[1..]);
        SumZero(l[1..]);
      }
    }
    if CondBitvec(l, 0) == UnionBits(l) {
      forall i | i in l ensures i in sums { UnionHasBits(l, i); }
    }
  }

  lemma SumZero(l: seq<nat>)
    requires Sum(l) == 0 && Descending(l)
    ensures |l| <= 1 && forall i :: 0 <= i < |l| ==> l[i] == 0
  {
    if l != [] {
      assert l[0] == 0;
    }
  }

  /** The divergence on a processor that reads inputs 1 and 2: bits 3 and 1 instead of 2 and 1. */
  lemma CodedFoldDiverges()
    ensures CondBitvec([2, 1], 0) == 10 && UnionBits([2, 1]) == 6 && !Bit(CondBitvec([2, 1], 0), 2)
  {
    assert [2, 1][1..] == [1] && [1][1..] == [];
    assert Pow2(2) == 4 && Pow2(1) == 2;
    assert CondBitvec([1], 4) == 10;
  }
}
