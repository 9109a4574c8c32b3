/** Which edits a structural diff makes: exactly one for each place where the two
    trees differ, at the depth where they differ, deletions first. */
module DiffExact {
  import opened Collections
  import opened StructuralDiff

  // ---- Listings ----

  ghost function Listed(s: set<Key>): seq<Key> {
    if exists k :: k in s then
      var k :| k in s;
      [k] + Listed(s - {k})
    else []
  }

  lemma {:induction false} ListedLists(s: set<Key>)
    ensures Lists(Listed(s), s)
  {
    if exists k :: k in s {
      var ks := Listed(s);
      ListedLists(s - {ks[0]});
      assert ks[1..] == Listed(s - {ks[0]});
      assert forall i :: 0 < i < |ks| ==> ks[i] == ks[1..][i - 1];
    }
  }

  /** There are orders of keys to walk maps in. */
  lemma OrdersExist()
    ensures exists order: KeyOrder :: IsOrder(order)
  {
    var order: KeyOrder := (s: set<Key>) => Listed(s);
    forall s ensures Lists(order(s), s) { ListedLists(s); }
    assert IsOrder(order);
  }

  // ---- The places of a tree ----

  /** What a tree holds at a path. */
  function At(t: Tree, p: Path): Option<Tree>
    decreases |p|
  {
    if p == [] then Some(t)
    else if t.Leaf? || p[0] !in t.m then None
    else At(t.m[p[0]], p[1..])
  }

  predicate MapAt(t: Tree, p: Path) {
    At(t, p).Some? && At(t, p).value.Node?
  }

  /** The edits that the change from a to b calls for: a key gained or lost by a map
      that is a map in both, and a value that differs and is now a leaf. */
  predicate Called(a: Tree, b: Tree, e: Edit) {
    var p := e.path;
    match e
    case Delete(_) => p != [] && MapAt(a, p[..|p| - 1]) && MapAt(b, p[..|p| - 1]) && At(a, p).Some? && At(b, p).None?
    case Insert(_, t) =>
      p != [] && MapAt(a, p[..|p| - 1]) && MapAt(b, p[..|p| - 1]) && At(a, p).None? && At(b, p) == Some(t)
    case Update(_, x, y) => x != y && y.Leaf? && At(a, p) == Some(x) && At(b, p) == Some(y)
  }

  lemma Deeper(t: Tree, k: Key, p: Path)
    ensures At(t, [k] + p) == if t.Node? && k in t.m then At(t.m[k], p) else None
    ensures p != [] ==> ([k] + p)[..|p|] == [k] + p[..|p| - 1]
  {
    assert ([k] + p)[1..] == p;
  }

  /** Below a key of both maps, an edit is called for there. */
  lemma CalledUnder(a: Tree, b: Tree, k: Key, e: Edit)
    requires a.Node? && b.Node? && k in a.m && k in b.m && e.path != []
    ensures Called(a, b, Under([k], e)) <==> Called(a.m[k], b.m[k], e)
  {
    var p := e.path;
    Deeper(a, k, p);
    Deeper(b, k, p);
    Deeper(a, k, p[..|p| - 1]);
    Deeper(b, k, p[..|p| - 1]);
  }

  /** And below any other key nothing but the key itself. */
  lemma CalledOnlyInBoth(a: Tree, b: Tree, k: Key, e: Edit)
    requires a.Node? && b.Node? && e.path != [] && Called(a, b, Under([k], e))
    ensures k in a.m && k in b.m
  {
    var p := e.path;
    Deeper(a, k, p);
    Deeper(b, k, p);
    Deeper(a, k, p[..|p| - 1]);
    Deeper(b, k, p[..|p| - 1]);
  }

  lemma CalledHere(a: Tree, b: Tree, k: Key, e: Edit)
    requires a.Node? && b.Node? && e.path == [k]
    ensures Called(a, b, e) <==>
            match e
            case Delete(_) => k in a.m && k !in b.m
            case Insert(_, t) => k !in a.m && k in b.m && b.m[k] == t
            case Update(_, x, y) => k in a.m && k in b.m && a.m[k] == x && b.m[k] == y && x != y && y.Leaf?
  {
    assert [k][..0] == [] && [k][1..] == [];
    assert At(a, []) == Some(a) && At(b, []) == Some(b);
    if k in a.m { assert At(a.m[k], []) == Some(a.m[k]); }
    if k in b.m { assert At(b.m[k], []) == Some(b.m[k]); }
  }

  lemma {:induction false} SameHasNone(t: Tree, e: Edit)
    ensures !Called(t, t, e)
  {
  }

  /** Deeper edits need two maps. */
  lemma LeafHasNone(a: Tree, b: Tree, e: Edit)
    requires (a.Leaf? || b.Leaf?) && e.path != []
    ensures !Called(a, b, e)
  {
    var p := e.path;
    assert p[..|p| - 1] == [] || p[..|p| - 1][0] == p[0];
  }

  // ---- The edits of a diff ----

  lemma {:induction false} DeletesHave(ks: seq<Key>, e: Edit)
    ensures e in Deletes([], ks) <==> exists k :: k in ks && e == Delete([k])
  {
    if ks == [] {
    } else {
      DeletesHave(ks[1..], e);
      assert [] + [ks[0]] == [ks[0]];
      assert forall k :: k in ks <==> k == ks[0] || k in ks[1..];
    }
  }

  lemma {:induction false} InsertsHave(ks: seq<Key>, b: map<Key, Tree>, e: Edit)
    requires KeysIn(ks, b.Keys)
    ensures e in Inserts([], ks, b) <==> exists k :: k in ks && k in b && e == Insert([k], b[k])
  {
    if ks == [] {
    } else {
      InsertsHave(ks[1..], b, e);
      assert [] + [ks[0]] == [ks[0]];
      assert forall k :: k in ks <==> k == ks[0] || k in ks[1..];
    }
  }

  /** An edit at or below a common key. */
  ghost predicate CalledAt(a: Tree, b: Tree, k: Key, e: Edit)
    requires a.Node? && b.Node?
  {
    && k in a.m && k in b.m && e.path != [] && e.path[0] == k
    && (|e.path| == 1 ==> e.Update?) && Called(a, b, e)
  }

  lemma {:induction false} UpdatesHave(order: KeyOrder, ks: seq<Key>, a: Tree, b: Tree, e: Edit)
    requires IsOrder(order) && a.Node? && b.Node? && KeysIn(ks, a.m.Keys) && KeysIn(ks, b.m.Keys)
    requires Updates(order, [], ks, a, b).Some?
    ensures e in Updates(order, [], ks, a, b).value <==> exists k :: k in ks && CalledAt(a, b, k, e)
    decreases b, 0, |ks|
  {
    if ks == [] {
    } else {
      var k := ks[0];
      assert [] + [k] == [k];
      UpdateHas(order, k, a, b, e);
      UpdatesHave(order, ks[1..], a, b, e);
      assert forall j :: j in ks <==> j == k || j in ks[1..];
    }
  }

  lemma {:induction false} UpdateHas(order: KeyOrder, k: Key, a: Tree, b: Tree, e: Edit)
    requires IsOrder(order) && a.Node? && b.Node? && k in a.m && k in b.m && UpdateOf(order, [k], a.m[k], b.m[k]).Some?
    ensures e in UpdateOf(order, [k], a.m[k], b.m[k]).value <==> CalledAt(a, b, k, e)
    decreases b, 0, 0
  {
    hide At, MapAt, Called;
    var x, y := a.m[k], b.m[k];
    if e.path == [] {
      NeverEmpty(order, k, x, y, e);
    } else if e.path[0] != k {
      NeverElsewhere(order, k, x, y, e);
    } else if |e.path| == 1 {
      assert e.path == [k];
      CalledHere(a, b, k, e);
      OnlyItself(order, k, x, y, e);
    } else {
      var inner := Strip(e);
      assert e == Under([k], inner) by { assert [k] + e.path[1..] == e.path; }
      CalledUnder(a, b, k, inner);
      if x == y {
        SameHasNone(x, inner);
      } else if y.Leaf? || x.Leaf? {
        LeafHasNone(x, y, inner);
        assert e.path != [k];
      } else {
        DiffUnder(order, [k], [], x, y);
        assert [k] + [] == [k];
        DiffIsExact(order, x, y, inner);
        StripUnder(DiffAt(order, [], x, y).value, k, e);
      }
    }
  }

  function Strip(e: Edit): Edit
    requires e.path != []
  {
    match e
    case Insert(p, t) => Insert(p[1..], t)
    case Delete(p) => Delete(p[1..])
    case Update(p, x, y) => Update(p[1..], x, y)
  }

  lemma StripUnder(es: seq<Edit>, k: Key, e: Edit)
    requires e.path != [] && e.path[0] == k
    ensures e in AllUnder([k], es) <==> Strip(e) in es
  {
    var all := AllUnder([k], es);
    forall i | 0 <= i < |es| ensures all[i] == e <==> es[i] == Strip(e) {
      assert all[i] == Under([k], es[i]);
      assert ([k] + es[i].path)[1..] == es[i].path && [k] + e.path[1..] == e.path;
    }
  }

  lemma {:induction false} NeverEmpty(order: KeyOrder, k: Key, x: Tree, y: Tree, e: Edit)
    requires IsOrder(order) && UpdateOf(order, [k], x, y).Some? && e.path == []
    ensures e !in UpdateOf(order, [k], x, y).value
  {
    if x != y && y.Node? {
      DiffBelow(order, [k], x, y);
    }
  }

  lemma {:induction false} NeverElsewhere(order: KeyOrder, k: Key, x: Tree, y: Tree, e: Edit)
    requires IsOrder(order) && UpdateOf(order, [k], x, y).Some? && e.path != [] && e.path[0] != k
    ensures e !in UpdateOf(order, [k], x, y).value
  {
    if x != y && y.Node? {
      DiffBelow(order, [k], x, y);
      var es := DiffAt(order, [k], x, y).value;
      forall i | 0 <= i < |es| ensures es[i] != e {
        assert GoesOn([k], x.m.Keys + y.m.Keys, es[i].path);
        assert es[i].path[..1] == [k];
        assert es[i].path[0] == es[i].path[..1][0];
      }
    }
  }

  lemma {:induction false} OnlyItself(order: KeyOrder, k: Key, x: Tree, y: Tree, e: Edit)
    requires IsOrder(order) && UpdateOf(order, [k], x, y).Some? && e.path == [k]
    ensures e in UpdateOf(order, [k], x, y).value <==> e == Update([k], x, y) && x != y && y.Leaf?
  {
    if x != y && y.Node? {
      DiffBelow(order, [k], x, y);
      var es := DiffAt(order, [k], x, y).value;
      forall i | 0 <= i < |es| ensures es[i] != e { assert GoesOn([k], x.m.Keys + y.m.Keys, es[i].path); }
    }
  }

  /** A diff has exactly the edits that are called for. */
  lemma {:induction false} DiffIsExact(order: KeyOrder, a: Tree, b: Tree, e: Edit)
    requires IsOrder(order) && a.Node? && b.Node? && DiffAt(order, [], a, b).Some?
    ensures e in DiffAt(order, [], a, b).value <==> Called(a, b, e)
    decreases b, 1
  {
    hide Updates, Deletes, Inserts, At, MapAt, Called;
    var es := DiffAt(order, [], a, b).value;
    KeyGroups(order, a.m, b.m);
    var del, ins, common := Deleted(order, a.m, b.m), Inserted(order, a.m, b.m), Common(order, a.m, b.m);
    DeletesHave(del, e);
    InsertsHave(ins, b.m, e);
    UpdatesHave(order, common, a, b, e);
    CalledInGroups(a, b, del, ins, common, e);
    var ds, adds, us := Deletes([], del), Inserts([], ins, b.m), Updates(order, [], common, a, b).value;
    assert es == ds + adds + us;
    hide *;
    assert e in ds + adds + us <==> e in ds || e in adds || e in us;
  }

  /** What is called for is a deletion, an insertion, or at or below a common key. */
  lemma CalledInGroups(a: Tree, b: Tree, del: seq<Key>, ins: seq<Key>, common: seq<Key>, e: Edit)
    requires a.Node? && b.Node? && Grouped(a.m, b.m, del, ins, common)
    ensures Called(a, b, e) <==>
            || (exists k :: k in del && e == Delete([k]))
            || (exists k :: k in ins && k in b.m && e == Insert([k], b.m[k]))
            || (exists k :: k in common && CalledAt(a, b, k, e))
  {
    hide At, MapAt, Called;
    if e.path == [] {
      CalledNowhere(a, b, e);
    } else {
      var k := e.path[0];
      if |e.path| == 1 {
        assert e.path == [k];
        CalledHere(a, b, k, e);
      } else if Called(a, b, e) {
        assert e == Under([k], Strip(e)) by { assert [k] + e.path[1..] == e.path; }
        CalledOnlyInBoth(a, b, k, Strip(e));
        assert CalledAt(a, b, k, e);
      }
    }
  }

  lemma CalledNowhere(a: Tree, b: Tree, e: Edit)
    requires b.Node? && e.path == []
    ensures !Called(a, b, e)
  {
  }

  // ---- Their order ----

  /** What an edit does at the end of the first n keys of its path: delete, insert, or
      neither, which includes going on below. */
  function KindAt(n: nat, e: Edit): nat {
    if |e.path| != n + 1 then 2 else match e case Delete(_) => 0 case Insert(_, _) => 1 case Update(_, _, _) => 2
  }

  /** Where both edits are about one map, e is not of a later kind than f. */
  ghost predicate InTurn(e: Edit, f: Edit) {
    forall n: nat :: n < |e.path| && n < |f.path| && e.path[..n] == f.path[..n] ==> KindAt(n, e) <= KindAt(n, f)
  }

  ghost predicate AllInTurn(es: seq<Edit>, fs: seq<Edit>) {
    forall i, j :: 0 <= i < |es| && 0 <= j < |fs| ==> InTurn(es[i], fs[j])
  }

  /** Every map's deletions come before its insertions, and those before the rest. */
  ghost predicate Ordered(es: seq<Edit>) {
    forall i, j :: 0 <= i < j < |es| ==> InTurn(es[i], es[j])
  }

  lemma OrderedConcat(es: seq<Edit>, fs: seq<Edit>)
    requires Ordered(es) && Ordered(fs) && AllInTurn(es, fs)
    ensures Ordered(es + fs)
  {
    hide InTurn;
    forall i, j | 0 <= i < j < |es + fs| ensures InTurn((es + fs)[i], (es + fs)[j]) {
      if j < |es| {
        assert InTurn(es[i], es[j]);
      } else if i >= |es| {
        assert InTurn(fs[i - |es|], fs[j - |es|]);
      } else {
        assert InTurn(es[i], fs[j - |es|]);
      }
    }
  }

  /** All edits are about the map at a path itself, or go on below it. */
  ghost predicate OfKind(path: Path, kind: nat, es: seq<Edit>) {
    forall i :: 0 <= i < |es| ==>
      |path| < |es[i].path| && es[i].path[..|path|] == path && KindAt(|path|, es[i]) == kind
  }

  ghost predicate OneBelow(path: Path, es: seq<Edit>) {
    forall i :: 0 <= i < |es| ==> |es[i].path| == |path| + 1
  }

  lemma KindsInTurn(path: Path, k: nat, es: seq<Edit>, k': nat, fs: seq<Edit>)
    requires OfKind(path, k, es) && OneBelow(path, es) && OfKind(path, k', fs) && k <= k'
    ensures AllInTurn(es, fs)
  {
  }

  lemma {:induction false} DeletesOrdered(path: Path, ks: seq<Key>)
    ensures OfKind(path, 0, Deletes(path, ks)) && OneBelow(path, Deletes(path, ks)) && Ordered(Deletes(path, ks))
  {
    if ks == [] {
    } else {
      DeletesOrdered(path, ks[1..]);
      KindsInTurn(path, 0, [Delete(path + [ks[0]])], 0, Deletes(path, ks[1..]));
      OrderedConcat([Delete(path + [ks[0]])], Deletes(path, ks[1..]));
    }
  }

  lemma {:induction false} InsertsOrdered(path: Path, ks: seq<Key>, b: map<Key, Tree>)
    requires KeysIn(ks, b.Keys)
    ensures var es := Inserts(path, ks, b); OfKind(path, 1, es) && OneBelow(path, es) && Ordered(es)
  {
    if ks == [] {
    } else {
      InsertsOrdered(path, ks[1..], b);
      KindsInTurn(path, 1, [Insert(path + [ks[0]], b[ks[0]])], 1, Inserts(path, ks[1..], b));
      OrderedConcat([Insert(path + [ks[0]], b[ks[0]])], Inserts(path, ks[1..], b));
    }
  }

  lemma PartAt(p: Path, q: Path, m: nat)
    requires m < |p| && m < |q| && p[m] != q[m]
    ensures forall n: nat :: n < |p| && n < |q| && p[..n] == q[..n] ==> n <= m
  {
    forall n: nat | m < n < |p| && n < |q| ensures p[..n] != q[..n] { assert p[..n][m] == p[m] && q[..n][m] == q[m]; }
  }

  /** Edits below different keys of one map. */
  lemma KeysInTurn(path: Path, k: Key, es: seq<Edit>, s: set<Key>, fs: seq<Edit>)
    requires OfKind(path, 2, es) && OfKind(path, 2, fs) && AllGoOn(path, {k}, es) && AllGoOn(path, s, fs) && k !in s
    ensures AllInTurn(es, fs)
  {
    forall i, j | 0 <= i < |es| && 0 <= j < |fs| ensures InTurn(es[i], fs[j]) {
      var p, q := es[i].path, fs[j].path;
      assert GoesOn(path, {k}, p) && GoesOn(path, s, q);
      PartAt(p, q, |path|);
    }
  }

  lemma {:induction false} UpdatesOrdered(order: KeyOrder, path: Path, ks: seq<Key>, a: Tree, b: Tree)
    requires IsOrder(order) && a.Node? && b.Node? && KeysIn(ks, a.m.Keys) && KeysIn(ks, b.m.Keys) && Distinct(ks)
    requires Updates(order, path, ks, a, b).Some?
    ensures var es := Updates(order, path, ks, a, b).value; OfKind(path, 2, es) && Ordered(es)
    decreases b, 0, |ks|
  {
    hide Ordered, Apart;
    if ks == [] {
      NoneOrdered();
    } else {
      var k, rest := ks[0], ks[1..];
      HeadIsNew(ks);
      var first, more := UpdateOf(order, path + [k], a.m[k], b.m[k]).value, Updates(order, path, rest, a, b).value;
      UpdateOrdered(order, path, k, a.m[k], b.m[k]);
      UpdatesOrdered(order, path, rest, a, b);
      UpdateApart(order, path, k, a.m[k], b.m[k]);
      UpdatesApart(order, path, rest, a, b);
      KeysInTurn(path, k, first, KeySet(rest), more);
      OrderedConcat(first, more);
    }
  }

  lemma NoneOrdered()
    ensures Ordered([])
  {
  }

  lemma {:induction false} UpdateOrdered(order: KeyOrder, path: Path, k: Key, x: Tree, y: Tree)
    requires IsOrder(order) && UpdateOf(order, path + [k], x, y).Some?
    ensures var es := UpdateOf(order, path + [k], x, y).value; OfKind(path, 2, es) && Ordered(es)
    decreases y, 2
  {
    if x != y && y.Node? {
      var es := DiffAt(order, path + [k], x, y).value;
      DiffIsOrdered(order, path + [k], x, y);
      DiffBelow(order, path + [k], x, y);
      forall i | 0 <= i < |es|
        ensures |path| < |es[i].path| && es[i].path[..|path|] == path && KindAt(|path|, es[i]) == 2
      {
        assert GoesOn(path + [k], x.m.Keys + y.m.Keys, es[i].path);
        assert es[i].path[..|path| + 1][..|path|] == es[i].path[..|path|];
      }
    }
  }

  /** In a diff every map's deletions come first, then its insertions, then its
      updates and whatever lies deeper. */
  lemma {:induction false} DiffIsOrdered(order: KeyOrder, path: Path, a: Tree, b: Tree)
    requires IsOrder(order) && a.Node? && b.Node? && DiffAt(order, path, a, b).Some?
    ensures Ordered(DiffAt(order, path, a, b).value)
    decreases b, 1
  {
    hide Ordered, Updates, Deletes, Inserts;
    KeyGroups(order, a.m, b.m);
    var del, ins, common := Deleted(order, a.m, b.m), Inserted(order, a.m, b.m), Common(order, a.m, b.m);
    var ds, adds, us := Deletes(path, del), Inserts(path, ins, b.m), Updates(order, path, common, a, b).value;
    DeletesOrdered(path, del);
    InsertsOrdered(path, ins, b.m);
    UpdatesOrdered(order, path, common, a, b);
    KindsInTurn(path, 0, ds, 1, adds);
    KindsInTurn(path, 0, ds, 2, us);
    KindsInTurn(path, 1, adds, 2, us);
    OrderedConcat(ds, adds);
    OrderedConcat(ds + adds, us);
  }
}
