/** Structural diff of nested maps (src/diff.erl) and the connection changes that
    src/epid.erl derives from a flat one. */
module StructuralDiff {
  import opened Collections

  type Key = int

  datatype Tree = Leaf(v: int) | Node(m: map<Key, Tree>)

  type Path = seq<Key>

  datatype Edit =
    | Insert(path: Path, t: Tree)
    | Delete(path: Path)
    | Update(path: Path, before: Tree, after: Tree)

  /** maps:keys: some listing of the keys; Erlang fixes no order for large maps. */
  type KeyOrder = set<Key> -> seq<Key>

  ghost predicate IsOrder(order: KeyOrder) {
    forall s :: Lists(order(s), s)
  }

  predicate Distinct(ks: seq<Key>) {
    forall i, j :: 0 <= i < j < |ks| ==> ks[i] != ks[j]
  }

  /** ks lists the set, without repetition. */
  ghost predicate Lists(ks: seq<Key>, s: set<Key>) {
    Distinct(ks) && forall k :: k in ks <==> k in s
  }

  predicate KeysIn(ks: seq<Key>, s: set<Key>) {
    forall i :: 0 <= i < |ks| ==> ks[i] in s
  }

  // ---- diff/4 ----

  function Deletes(path: Path, ks: seq<Key>): seq<Edit> {
    if ks == [] then [] else [Delete(path + [ks[0]])] + Deletes(path, ks[1..])
  }

  function Inserts(path: Path, ks: seq<Key>, b: map<Key, Tree>): seq<Edit>
    requires KeysIn(ks, b.Keys)
  {
    if ks == [] then [] else [Insert(path + [ks[0]], b[ks[0]])] + Inserts(path, ks[1..], b)
  }

  /** Edits for the common keys; None where a leaf turns into a map. */
  function Updates(order: KeyOrder, path: Path, ks: seq<Key>, a: Tree, b: Tree): Option<seq<Edit>>
    requires IsOrder(order) && a.Node? && b.Node? && KeysIn(ks, a.m.Keys) && KeysIn(ks, b.m.Keys)
    decreases b, 0, |ks|
  {
    if ks == [] then Some([])
    else
      var first, rest := UpdateOf(order, path + [ks[0]], a.m[ks[0]], b.m[ks[0]]), Updates(order, path, ks[1..], a, b);
      if first.None? || rest.None? then None else Some(first.value + rest.value)
  }

  /** The edits for one common key; None where a leaf turns into a map. */
  function UpdateOf(order: KeyOrder, path: Path, x: Tree, y: Tree): Option<seq<Edit>>
    requires IsOrder(order)
    decreases y, 2
  {
    if y == x then Some([])
    else if y.Leaf? then Some([Update(path, x, y)])
    else if x.Leaf? then None
    else DiffAt(order, path, x, y)
  }

  /** lists:subtract, and what it leaves out. */
  function Those(ks: seq<Key>, s: set<Key>, inside: bool): (r: seq<Key>)
    ensures forall k :: k in r <==> k in ks && (k in s <==> inside)
    ensures forall i :: 0 <= i < |r| ==> r[i] in ks && (r[i] in s <==> inside)
  {
    if ks == [] then [] else (if ks[0] in s <==> inside then [ks[0]] else []) + Those(ks[1..], s, inside)
  }

  /** Del, Ins and Common of diff/4. */
  function Deleted(order: KeyOrder, a: map<Key, Tree>, b: map<Key, Tree>): seq<Key> {
    Those(order(a.Keys), b.Keys, false)
  }

  function Inserted(order: KeyOrder, a: map<Key, Tree>, b: map<Key, Tree>): seq<Key> {
    Those(order(b.Keys), a.Keys, false)
  }

  function Common(order: KeyOrder, a: map<Key, Tree>, b: map<Key, Tree>): seq<Key> {
    Those(order(b.Keys), a.Keys, true)
  }

  /** Each key is listed once, in the group where it belongs. */
  ghost predicate Grouped(a: map<Key, Tree>, b: map<Key, Tree>, del: seq<Key>, ins: seq<Key>, common: seq<Key>) {
    && Distinct(del) && Distinct(ins) && Distinct(common)
    && (forall k :: k in del <==> k in a && k !in b)
    && (forall k :: k in ins <==> k in b && k !in a)
    && (forall k :: k in common <==> k in a && k in b)
  }

  lemma {:induction false} KeyGroups(order: KeyOrder, a: map<Key, Tree>, b: map<Key, Tree>)
    requires IsOrder(order)
    ensures Grouped(a, b, Deleted(order, a, b), Inserted(order, a, b), Common(order, a, b))
    ensures KeysIn(Deleted(order, a, b), a.Keys) && KeysIn(Inserted(order, a, b), b.Keys)
    ensures KeysIn(Common(order, a, b), a.Keys) && KeysIn(Common(order, a, b), b.Keys)
  {
    hide IsOrder, Distinct;
    Listing(order, a.Keys);
    Listing(order, b.Keys);
    ThoseDistinct(order(a.Keys), b.Keys, false);
    ThoseDistinct(order(b.Keys), a.Keys, false);
    ThoseDistinct(order(b.Keys), a.Keys, true);
    AllIn(Deleted(order, a, b), a.Keys);
    AllIn(Inserted(order, a, b), b.Keys);
    AllIn(Common(order, a, b), a.Keys);
    AllIn(Common(order, a, b), b.Keys);
  }

  lemma AllIn(ks: seq<Key>, s: set<Key>)
    requires forall k :: k in ks ==> k in s
    ensures KeysIn(ks, s)
  {
    forall i | 0 <= i < |ks| ensures ks[i] in s {
      var k := ks[i];
      assert k in ks;
    }
  }

  lemma {:induction false} ThoseDistinct(ks: seq<Key>, s: set<Key>, inside: bool)
    requires Distinct(ks)
    ensures Distinct(Those(ks, s, inside))
  {
    if ks == [] {
    } else {
      HeadIsNew(ks);
      ThoseDistinct(ks[1..], s, inside);
    }
  }

  /** The first key is not among the others. */
  lemma HeadIsNew(ks: seq<Key>)
    requires Distinct(ks) && ks != []
    ensures Distinct(ks[1..]) && ks[0] !in ks[1..]
  {
    assert forall i :: 0 < i < |ks| ==> ks[1..][i - 1] == ks[i];
  }

  function DiffAt(order: KeyOrder, path: Path, a: Tree, b: Tree): Option<seq<Edit>>
    requires IsOrder(order) && a.Node? && b.Node?
    decreases b, 1
  {
    KeyGroups(order, a.m, b.m);
    var del := Deleted(order, a.m, b.m);
    var ins := Inserted(order, a.m, b.m);
    var updates := Updates(order, path, Common(order, a.m, b.m), a, b);
    if updates.None? then None else Some(Deletes(path, del) + Inserts(path, ins, b.m) + updates.value)
  }

  lemma Listing(order: KeyOrder, s: set<Key>)
    requires IsOrder(order)
    ensures Lists(order(s), s)
  {
  }

  /** diff/2 */
  function Diff(order: KeyOrder, a: Tree, b: Tree): Option<seq<Edit>>
    requires IsOrder(order) && a.Node? && b.Node?
  {
    DiffAt(order, [], a, b)
  }

  // ---- Applying edits, strictly ----

  /** The edit at the end of a path: insert where nothing is, delete what is there,
      update exactly the value it names. */
  function EditKey(e: Edit, k: Key, m: map<Key, Tree>): Option<map<Key, Tree>> {
    match e
    case Insert(_, t) => if k in m then None else Some(m[k := t])
    case Delete(_) => if k in m then Some(m - {k}) else None
    case Update(_, before, after) => if k in m && m[k] == before then Some(m[k := after]) else None
  }

  function ApplyAt(e: Edit, path: Path, t: Tree): Option<Tree>
    decreases |path|
  {
    if path == [] || t.Leaf? then None
    else if |path| == 1 then
      var m := EditKey(e, path[0], t.m);
      if m.None? then None else Some(Node(m.value))
    else if path[0] !in t.m then None
    else
      var sub := ApplyAt(e, path[1..], t.m[path[0]]);
      if sub.None? then None else Some(Node(t.m[path[0] := sub.value]))
  }

  function ApplyAll(es: seq<Edit>, t: Tree): Option<Tree> {
    if es == [] then Some(t)
    else
      var t1 := ApplyAt(es[0], es[0].path, t);
      if t1.None? then None else ApplyAll(es[1..], t1.value)
  }

  lemma {:induction false} ApplyConcat(es: seq<Edit>, fs: seq<Edit>, t: Tree)
    ensures ApplyAll(es + fs, t) == if ApplyAll(es, t).None? then None else ApplyAll(fs, ApplyAll(es, t).value)
  {
    if es == [] {
      assert es + fs == fs;
    } else {
      assert (es + fs)[1..] == es[1..] + fs;
      var t1 := ApplyAt(es[0], es[0].path, t);
      if t1.Some? { ApplyConcat(es[1..], fs, t1.value); }
    }
  }

  // ---- Edits below a key ----

  function Under(path: Path, e: Edit): Edit {
    match e
    case Insert(p, t) => Insert(path + p, t)
    case Delete(p) => Delete(path + p)
    case Update(p, x, y) => Update(path + p, x, y)
  }

  function AllUnder(path: Path, es: seq<Edit>): (r: seq<Edit>)
    ensures |r| == |es| && forall i :: 0 <= i < |es| ==> r[i] == Under(path, es[i])
  {
    if es == [] then [] else [Under(path, es[0])] + AllUnder(path, es[1..])
  }

  lemma {:induction false} UnderConcat(path: Path, es: seq<Edit>, fs: seq<Edit>)
    ensures AllUnder(path, es + fs) == AllUnder(path, es) + AllUnder(path, fs)
  {
  }

  function Lifted(path: Path, r: Option<seq<Edit>>): Option<seq<Edit>> {
    if r.None? then None else Some(AllUnder(path, r.value))
  }

  lemma {:induction false} DeletesUnder(p: Path, path: Path, ks: seq<Key>)
    ensures Deletes(p + path, ks) == AllUnder(p, Deletes(path, ks))
  {
    if ks == [] {
    } else {
      DeletesUnder(p, path, ks[1..]);
      assert p + path + [ks[0]] == p + (path + [ks[0]]);
    }
  }

  lemma {:induction false} InsertsUnder(p: Path, path: Path, ks: seq<Key>, b: map<Key, Tree>)
    requires KeysIn(ks, b.Keys)
    ensures Inserts(p + path, ks, b) == AllUnder(p, Inserts(path, ks, b))
  {
    if ks == [] {
    } else {
      InsertsUnder(p, path, ks[1..], b);
      assert p + path + [ks[0]] == p + (path + [ks[0]]);
    }
  }

  lemma {:induction false} UpdatesUnder(order: KeyOrder, p: Path, path: Path, ks: seq<Key>, a: Tree, b: Tree)
    requires IsOrder(order) && a.Node? && b.Node? && KeysIn(ks, a.m.Keys) && KeysIn(ks, b.m.Keys)
    ensures Updates(order, p + path, ks, a, b) == Lifted(p, Updates(order, path, ks, a, b))
    decreases b, 0, |ks|
  {
    if ks == [] {
    } else {
      var k := ks[0];
      UpdateUnder(order, p, path + [k], a.m[k], b.m[k]);
      UpdatesUnder(order, p, path, ks[1..], a, b);
      assert p + path + [k] == p + (path + [k]);
      var first, rest := UpdateOf(order, path + [k], a.m[k], b.m[k]), Updates(order, path, ks[1..], a, b);
      if first.Some? && rest.Some? { UnderConcat(p, first.value, rest.value); }
    }
  }

  lemma {:induction false} UpdateUnder(order: KeyOrder, p: Path, path: Path, x: Tree, y: Tree)
    requires IsOrder(order)
    ensures UpdateOf(order, p + path, x, y) == Lifted(p, UpdateOf(order, path, x, y))
    decreases y, 2
  {
    if x != y && y.Node? && x.Node? {
      DiffUnder(order, p, path, x, y);
    } else if x != y && y.Leaf? {
      assert AllUnder(p, [Update(path, x, y)]) == [Under(p, Update(path, x, y))];
    }
  }

  /** The parent path is only put in front of the edits. */
  lemma {:induction false} DiffUnder(order: KeyOrder, p: Path, path: Path, a: Tree, b: Tree)
    requires IsOrder(order) && a.Node? && b.Node?
    ensures DiffAt(order, p + path, a, b) == Lifted(p, DiffAt(order, path, a, b))
    decreases b, 1
  {
    KeyGroups(order, a.m, b.m);
    var del, ins, common := Deleted(order, a.m, b.m), Inserted(order, a.m, b.m), Common(order, a.m, b.m);
    DeletesUnder(p, path, del);
    InsertsUnder(p, path, ins, b.m);
    UpdatesUnder(order, p, path, common, a, b);
    var updates := Updates(order, path, common, a, b);
    if updates.Some? {
      UnderConcat(p, Deletes(path, del) + Inserts(path, ins, b.m), updates.value);
      UnderConcat(p, Deletes(path, del), Inserts(path, ins, b.m));
    }
  }

  /** Edits below a key act on what the key holds. */
  lemma {:induction false} ApplyUnder(es: seq<Edit>, k: Key, m: map<Key, Tree>)
    requires k in m && forall i :: 0 <= i < |es| ==> es[i].path != []
    ensures ApplyAll(AllUnder([k], es), Node(m))
         == if ApplyAll(es, m[k]).None? then None else Some(Node(m[k := ApplyAll(es, m[k]).value]))
  {
    if es == [] {
      assert m[k := m[k]] == m;
    } else {
      var e := es[0];
      var path := [k] + e.path;
      assert path[1..] == e.path && path[0] == k && |path| > 1;
      SameEdit(e, Under([k], e), e.path, m[k]);
      var t1 := ApplyAt(e, e.path, m[k]);
      if t1.Some? {
        ApplyUnder(es[1..], k, m[k := t1.value]);
        if ApplyAll(es[1..], t1.value).Some? {
          var t2 := ApplyAll(es[1..], t1.value).value;
          assert m[k := t1.value][k := t2] == m[k := t2];
        }
      }
    }
  }

  /** Only the kind and the values of an edit matter at a given path. */
  lemma {:induction false} SameEdit(e: Edit, f: Edit, path: Path, t: Tree)
    requires exists p :: f == Under(p, e)
    ensures ApplyAt(f, path, t) == ApplyAt(e, path, t)
    decreases |path|
  {
    if |path| > 1 && t.Node? && path[0] in t.m { SameEdit(e, f, path[1..], t.m[path[0]]); }
  }

  // ---- Applying a diff ----

  function Without(m: map<Key, Tree>, ks: seq<Key>): map<Key, Tree> {
    map k | k in m && k !in ks :: m[k]
  }

  lemma {:induction false} DeletesApply(ks: seq<Key>, m: map<Key, Tree>)
    requires Distinct(ks) && KeysIn(ks, m.Keys)
    ensures ApplyAll(Deletes([], ks), Node(m)) == Some(Node(Without(m, ks)))
  {
    if ks == [] {
      assert Without(m, ks) == m;
    } else {
      HeadIsNew(ks);
      assert [] + [ks[0]] == [ks[0]];
      DeletesApply(ks[1..], m - {ks[0]});
      assert Without(m - {ks[0]}, ks[1..]) == Without(m, ks);
    }
  }

  /** m with the values of b at some keys. */
  function Taking(m: map<Key, Tree>, b: map<Key, Tree>, ks: seq<Key>): map<Key, Tree> {
    m + map k | k in b && k in ks :: b[k]
  }

  lemma TakingStep(m: map<Key, Tree>, b: map<Key, Tree>, ks: seq<Key>)
    requires Distinct(ks) && ks != [] && KeysIn(ks, b.Keys)
    ensures Taking(m[ks[0] := b[ks[0]]], b, ks[1..]) == Taking(m, b, ks)
  {
    HeadIsNew(ks);
  }

  lemma {:induction false} InsertsApply(ks: seq<Key>, b: map<Key, Tree>, m: map<Key, Tree>)
    requires Distinct(ks) && KeysIn(ks, b.Keys) && forall i :: 0 <= i < |ks| ==> ks[i] !in m
    ensures ApplyAll(Inserts([], ks, b), Node(m)) == Some(Node(Taking(m, b, ks)))
  {
    hide Taking;
    if ks == [] {
      TakingNone(m, b);
    } else {
      HeadIsNew(ks);
      TakingStep(m, b, ks);
      assert [] + [ks[0]] == [ks[0]];
      InsertsApply(ks[1..], b, m[ks[0] := b[ks[0]]]);
    }
  }

  lemma TakingNone(m: map<Key, Tree>, b: map<Key, Tree>)
    ensures Taking(m, b, []) == m
  {
  }

  /** Where a map holds a map or a leaf may follow; a map may only follow a map. */
  predicate Replaceable(x: Tree, y: Tree)
    decreases y
  {
    x == y || y.Leaf? || (x.Node? && forall k :: k in x.m && k in y.m ==> Replaceable(x.m[k], y.m[k]))
  }

  /** No leaf of a becomes a map in b. */
  predicate NoLeafBecomesMap(a: Tree, b: Tree)
    requires a.Node? && b.Node?
  {
    forall k :: k in a.m && k in b.m ==> Replaceable(a.m[k], b.m[k])
  }

  lemma {:induction false} UpdatesApply(order: KeyOrder, ks: seq<Key>, a: Tree, b: Tree, m: map<Key, Tree>)
    requires IsOrder(order) && a.Node? && b.Node? && KeysIn(ks, a.m.Keys) && KeysIn(ks, b.m.Keys)
    requires Distinct(ks) && forall i :: 0 <= i < |ks| ==> ks[i] in m && m[ks[i]] == a.m[ks[i]]
    ensures Updates(order, [], ks, a, b).Some? <==> forall i :: 0 <= i < |ks| ==> Replaceable(a.m[ks[i]], b.m[ks[i]])
    ensures Updates(order, [], ks, a, b).Some? ==>
              ApplyAll(Updates(order, [], ks, a, b).value, Node(m)) == Some(Node(Taking(m, b.m, ks)))
    decreases b, 0, |ks|
  {
    hide Taking, Replaceable, UpdateOf;
    if ks == [] {
      TakingNone(m, b.m);
    } else {
      var k, rest := ks[0], ks[1..];
      HeadIsNew(ks);
      TakingStep(m, b.m, ks);
      assert [] + [k] == [k];
      UpdateApplies(order, k, a.m[k], b.m[k], m);
      UpdatesApply(order, rest, a, b, m[k := b.m[k]]);
      var first, others := UpdateOf(order, [k], a.m[k], b.m[k]), Updates(order, [], rest, a, b);
      if first.Some? && others.Some? {
        ApplyConcat(first.value, others.value, Node(m));
      }
    }
  }

  lemma {:induction false} UpdateApplies(order: KeyOrder, k: Key, x: Tree, y: Tree, m: map<Key, Tree>)
    requires IsOrder(order) && k in m && m[k] == x
    ensures UpdateOf(order, [k], x, y).Some? <==> Replaceable(x, y)
    ensures UpdateOf(order, [k], x, y).Some? ==>
            ApplyAll(UpdateOf(order, [k], x, y).value, Node(m)) == Some(Node(m[k := y]))
    decreases y, 2
  {
    if x == y {
      assert m[k := y] == m;
    } else if y.Node? && x.Node? {
      DiffApplies(order, x, y);
      DiffUnder(order, [k], [], x, y);
      assert [k] + [] == [k];
      if DiffAt(order, [], x, y).Some? {
        DiffBelow(order, [], x, y);
        ApplyUnder(DiffAt(order, [], x, y).value, k, m);
      }
    }
  }

  /** A diff exists exactly if no leaf becomes a map, and applying it strictly to
      the old tree gives the new one. */
  lemma {:induction false} DiffApplies(order: KeyOrder, a: Tree, b: Tree)
    requires IsOrder(order) && a.Node? && b.Node?
    ensures DiffAt(order, [], a, b).Some? <==> NoLeafBecomesMap(a, b)
    ensures DiffAt(order, [], a, b).Some? ==> ApplyAll(DiffAt(order, [], a, b).value, a) == Some(b)
    decreases b, 1
  {
    hide Replaceable, Taking, Without, Updates, Deletes, Inserts, ApplyAll, Distinct;
    KeyGroups(order, a.m, b.m);
    var del, ins, common := Deleted(order, a.m, b.m), Inserted(order, a.m, b.m), Common(order, a.m, b.m);
    Rebuilt(a.m, b.m, del, ins, common);
    var m1 := Without(a.m, del);
    var m2 := Taking(m1, b.m, ins);
    DeletesApply(del, a.m);
    InsertsApply(ins, b.m, m1);
    UpdatesApply(order, common, a, b, m2);
    var updates := Updates(order, [], common, a, b);
    AllCommon(common, a, b);
    if updates.Some? {
      ApplyConcat(Deletes([], del) + Inserts([], ins, b.m), updates.value, a);
      ApplyConcat(Deletes([], del), Inserts([], ins, b.m), a);
    }
  }

  lemma AllCommon(common: seq<Key>, a: Tree, b: Tree)
    requires a.Node? && b.Node? && (forall k :: k in common <==> k in a.m && k in b.m)
    requires KeysIn(common, a.m.Keys) && KeysIn(common, b.m.Keys)
    ensures (forall i :: 0 <= i < |common| ==> Replaceable(a.m[common[i]], b.m[common[i]])) <==> NoLeafBecomesMap(a, b)
  {
    hide Replaceable;
    if forall i :: 0 <= i < |common| ==> Replaceable(a.m[common[i]], b.m[common[i]]) {
      forall k | k in a.m && k in b.m ensures Replaceable(a.m[k], b.m[k]) {
        assert k in common;
        var i :| 0 <= i < |common| && common[i] == k;
      }
    }
    if NoLeafBecomesMap(a, b) {
      forall i | 0 <= i < |common| ensures Replaceable(a.m[common[i]], b.m[common[i]]) {
        var k := common[i];
        assert k in a.m && k in b.m;
      }
    }
  }

  /** Delete, insert, update: together they turn one map into the other. */
  lemma Rebuilt(a: map<Key, Tree>, b: map<Key, Tree>, del: seq<Key>, ins: seq<Key>, common: seq<Key>)
    requires Grouped(a, b, del, ins, common) && KeysIn(common, a.Keys)
    ensures Taking(Taking(Without(a, del), b, ins), b, common) == b
    ensures var m := Taking(Without(a, del), b, ins);
            forall i :: 0 <= i < |common| ==> common[i] in m && m[common[i]] == a[common[i]]
    ensures forall i :: 0 <= i < |ins| ==> ins[i] !in Without(a, del)
  {
    var m1 := Without(a, del);
    var m2 := Taking(m1, b, ins);
    assert forall k :: k in m1 <==> k in a && k in b;
    assert forall k :: k in m2 <==> k in b;
    forall i | 0 <= i < |common| ensures common[i] in m2 && m2[common[i]] == a[common[i]] {
      var k := common[i];
      assert k in common;
      assert k in m1 && m1[k] == a[k] && k !in ins;
    }
    forall i | 0 <= i < |ins| ensures ins[i] !in m1 {
      var k := ins[i];
      assert k in ins;
      assert k !in a;
    }
    var m3 := Taking(m2, b, common);
    forall k | k in b ensures k in m3 && m3[k] == b[k] {
      assert k in ins || k in common;
    }
    assert m3.Keys == b.Keys;
    assert m3 == b;
  }

  // ---- Paths ----

  /** The path goes on from another one with a key of a set. */
  predicate GoesOn(path: Path, s: set<Key>, p: Path) {
    |p| > |path| && p[..|path|] == path && p[|path|] in s
  }

  ghost predicate AllGoOn(path: Path, s: set<Key>, es: seq<Edit>) {
    forall i :: 0 <= i < |es| ==> GoesOn(path, s, es[i].path)
  }

  /** No path of the edits is a prefix of another one. */
  ghost predicate Apart(es: seq<Edit>) {
    forall i, j :: 0 <= i < |es| && 0 <= j < |es| && i != j ==> !(es[i].path <= es[j].path)
  }

  lemma ApartConcat(path: Path, s: set<Key>, es: seq<Edit>, s': set<Key>, fs: seq<Edit>)
    requires Apart(es) && Apart(fs) && AllGoOn(path, s, es) && AllGoOn(path, s', fs) && s !! s'
    ensures Apart(es + fs) && AllGoOn(path, s + s', es + fs)
  {
    var all := es + fs;
    forall i, j | 0 <= i < |all| && 0 <= j < |all| && i != j ensures !(all[i].path <= all[j].path) {
      if i < |es| && j >= |es| {
        assert GoesOn(path, s, es[i].path) && GoesOn(path, s', fs[j - |es|].path);
      } else if i >= |es| && j < |es| {
        assert GoesOn(path, s', fs[i - |es|].path) && GoesOn(path, s, es[j].path);
      }
    }
  }

  function KeySet(ks: seq<Key>): set<Key> {
    set k | k in ks
  }

  lemma {:induction false} DeletesApart(path: Path, ks: seq<Key>)
    requires Distinct(ks)
    ensures Apart(Deletes(path, ks)) && AllGoOn(path, KeySet(ks), Deletes(path, ks))
  {
    if ks == [] {
    } else {
      HeadIsNew(ks);
      DeletesApart(path, ks[1..]);
      ApartConcat(path, {ks[0]}, [Delete(path + [ks[0]])], KeySet(ks[1..]), Deletes(path, ks[1..]));
      assert KeySet(ks) == {ks[0]} + KeySet(ks[1..]);
    }
  }

  lemma {:induction false} InsertsApart(path: Path, ks: seq<Key>, b: map<Key, Tree>)
    requires Distinct(ks) && KeysIn(ks, b.Keys)
    ensures Apart(Inserts(path, ks, b)) && AllGoOn(path, KeySet(ks), Inserts(path, ks, b))
  {
    if ks == [] {
    } else {
      HeadIsNew(ks);
      InsertsApart(path, ks[1..], b);
      ApartConcat(path, {ks[0]}, [Insert(path + [ks[0]], b[ks[0]])], KeySet(ks[1..]), Inserts(path, ks[1..], b));
      assert KeySet(ks) == {ks[0]} + KeySet(ks[1..]);
    }
  }

  lemma {:induction false} UpdatesApart(order: KeyOrder, path: Path, ks: seq<Key>, a: Tree, b: Tree)
    requires IsOrder(order) && a.Node? && b.Node? && KeysIn(ks, a.m.Keys) && KeysIn(ks, b.m.Keys) && Distinct(ks)
    requires Updates(order, path, ks, a, b).Some?
    ensures var es := Updates(order, path, ks, a, b).value; Apart(es) && AllGoOn(path, KeySet(ks), es)
    decreases b, 0, |ks|
  {
    if ks == [] {
    } else {
      var k, rest := ks[0], ks[1..];
      HeadIsNew(ks);
      var first := UpdateOf(order, path + [k], a.m[k], b.m[k]).value;
      UpdateApart(order, path, k, a.m[k], b.m[k]);
      UpdatesApart(order, path, rest, a, b);
      ApartConcat(path, {k}, first, KeySet(rest), Updates(order, path, rest, a, b).value);
      assert KeySet(ks) == {k} + KeySet(rest);
    }
  }

  lemma {:induction false} UpdateApart(order: KeyOrder, path: Path, k: Key, x: Tree, y: Tree)
    requires IsOrder(order) && UpdateOf(order, path + [k], x, y).Some?
    ensures var es := UpdateOf(order, path + [k], x, y).value; Apart(es) && AllGoOn(path, {k}, es)
    decreases y, 2
  {
    if x != y && y.Node? {
      var es := DiffAt(order, path + [k], x, y).value;
      DiffBelow(order, path + [k], x, y);
      forall i | 0 <= i < |es| ensures GoesOn(path, {k}, es[i].path) {
        var p := es[i].path;
        assert p[..|path| + 1] == path + [k];
        assert p[..|path|] == p[..|path| + 1][..|path|] && p[|path|] == p[..|path| + 1][|path|];
      }
    }
  }

  /** Every edit lies below the given path, and no path is a prefix of another. */
  lemma {:induction false} DiffBelow(order: KeyOrder, path: Path, a: Tree, b: Tree)
    requires IsOrder(order) && a.Node? && b.Node? && DiffAt(order, path, a, b).Some?
    ensures var es := DiffAt(order, path, a, b).value; Apart(es) && AllGoOn(path, a.m.Keys + b.m.Keys, es)
    decreases b, 1
  {
    KeyGroups(order, a.m, b.m);
    var del, ins, common := Deleted(order, a.m, b.m), Inserted(order, a.m, b.m), Common(order, a.m, b.m);
    hide Updates, Deletes, Inserts, Distinct, Apart, AllGoOn;
    DeletesApart(path, del);
    InsertsApart(path, ins, b.m);
    UpdatesApart(order, path, common, a, b);
    ThreeApart(path, del, Deletes(path, del), ins, Inserts(path, ins, b.m), common,
      Updates(order, path, common, a, b).value, a.m.Keys + b.m.Keys);
  }

  lemma ThreeApart(path: Path, del: seq<Key>, ds: seq<Edit>, ins: seq<Key>, adds: seq<Edit>, common: seq<Key>,
                   us: seq<Edit>, all: set<Key>)
    requires Apart(ds) && Apart(adds) && Apart(us)
    requires AllGoOn(path, KeySet(del), ds) && AllGoOn(path, KeySet(ins), adds) && AllGoOn(path, KeySet(common), us)
    requires forall k :: k in del ==> k !in ins && k !in common && k in all
    requires (forall k :: k in ins ==> k !in common && k in all) && (forall k :: k in common ==> k in all)
    ensures Apart(ds + adds + us) && AllGoOn(path, all, ds + adds + us)
  {
    hide Apart, AllGoOn;
    forall k | k in KeySet(del) ensures k !in KeySet(ins) && k !in KeySet(common) && k in all { assert k in del; }
    forall k | k in KeySet(ins) ensures k !in KeySet(common) && k in all { assert k in ins; }
    forall k | k in KeySet(common) ensures k in all { assert k in common; }
    assert KeySet(del) !! KeySet(ins) && KeySet(del) + KeySet(ins) !! KeySet(common);
    ApartConcat(path, KeySet(del), ds, KeySet(ins), adds);
    ApartConcat(path, KeySet(del) + KeySet(ins), ds + adds, KeySet(common), us);
    GoOnInMore(path, KeySet(del) + KeySet(ins) + KeySet(common), all, ds + adds + us);
  }

  lemma GoOnInMore(path: Path, s: set<Key>, s': set<Key>, es: seq<Edit>)
    requires AllGoOn(path, s, es) && s <= s'
    ensures AllGoOn(path, s', es)
  {
    forall i | 0 <= i < |es| ensures GoesOn(path, s', es[i].path) { assert GoesOn(path, s, es[i].path); }
  }

  /** Diffing a tree with itself changes nothing. */
  lemma {:induction false} DiffWithItself(order: KeyOrder, a: Tree)
    requires IsOrder(order) && a.Node?
    ensures Diff(order, a, a) == Some([])
  {
    KeyGroups(order, a.m, a.m);
    Listing(order, a.m.Keys);
    AllIn(order(a.m.Keys), a.m.Keys);
    NoneOutside(order(a.m.Keys), a.m.Keys);
    NothingToUpdate(order, Common(order, a.m, a.m), a);
    assert Deletes([], []) + Inserts([], [], a.m) + [] == [];
  }

  lemma {:induction false} NoneOutside(ks: seq<Key>, s: set<Key>)
    requires KeysIn(ks, s)
    ensures Those(ks, s, false) == []
  {
    if ks == [] {
    } else {
      NoneOutside(ks[1..], s);
    }
  }

  lemma {:induction false} NothingToUpdate(order: KeyOrder, ks: seq<Key>, a: Tree)
    requires IsOrder(order) && a.Node? && KeysIn(ks, a.m.Keys)
    ensures Updates(order, [], ks, a, a) == Some([])
  {
    if ks == [] {
    } else {
      NothingToUpdate(order, ks[1..], a);
      var none: seq<Edit> := [];
      assert UpdateOf(order, [] + [ks[0]], a.m[ks[0]], a.m[ks[0]]) == Some(none) && none + none == none;
    }
  }
}
