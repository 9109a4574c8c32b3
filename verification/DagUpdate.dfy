/** Turning a change of a flat specification into connects and disconnects
    (src/epid.erl, dag_update). */
module DagUpdate {
  import opened Collections
  import opened StructuralDiff
  import opened DiffExact

  /** A specification: for each destination its source. */
  ghost predicate Flat(t: Tree) {
    t.Node? && forall k :: k in t.m ==> t.m[k].Leaf?
  }

  datatype Op = Connect(src: int, dst: Key) | Disconnect(src: int, dst: Key)

  /** The operations for one edit; None where the callback has no clause. */
  function OpsOf(e: Edit, before: Tree): Option<seq<Op>>
    requires before.Node?
  {
    if |e.path| != 1 then None
    else
      var dst := e.path[0];
      match e
      case Delete(_) =>
        if dst in before.m && before.m[dst].Leaf? then Some([Disconnect(before.m[dst].v, dst)]) else None
      case Insert(_, t) =>
        if t.Leaf? then Some([Connect(t.v, dst)]) else None
      case Update(_, x, y) =>
        if x.Leaf? && y.Leaf? then Some([Disconnect(x.v, dst), Connect(y.v, dst)]) else None
  }

  function AllOps(es: seq<Edit>, before: Tree): Option<seq<Op>>
    requires before.Node?
  {
    if es == [] then Some([])
    else
      var first, rest := OpsOf(es[0], before), AllOps(es[1..], before);
      if first.None? || rest.None? then None else Some(first.value + rest.value)
  }

  function UpdateOps(order: KeyOrder, before: Tree, after: Tree): Option<seq<Op>>
    requires IsOrder(order) && before.Node? && after.Node?
  {
    var es := Diff(order, before, after);
    if es.None? then None else AllOps(es.value, before)
  }

  // ---- Connections ----

  type Connections = set<(int, Key)>

  /** Disconnect only what is connected; connect only where no source is. */
  ghost function Run(ops: seq<Op>, c: Connections): Option<Connections> {
    if ops == [] then Some(c)
    else
      match ops[0]
      case Connect(src, dst) =>
        if exists s :: (s, dst) in c then None else Run(ops[1..], c + {(src, dst)})
      case Disconnect(src, dst) =>
        if (src, dst) !in c then None else Run(ops[1..], c - {(src, dst)})
  }

  /** The connections of a specification. */
  ghost function Edges(m: map<Key, Tree>): Connections {
    set k | k in m && m[k].Leaf? :: (m[k].v, k)
  }

  lemma EdgeIs(m: map<Key, Tree>, src: int, dst: Key)
    ensures (src, dst) in Edges(m) <==> dst in m && m[dst] == Leaf(src)
  {
  }

  lemma {:induction false} RunConcat(ops: seq<Op>, more: seq<Op>, c: Connections)
    requires Run(ops, c).Some?
    ensures Run(ops + more, c) == Run(more, Run(ops, c).value)
  {
    if ops == [] {
      assert ops + more == more;
    } else {
      assert (ops + more)[1..] == ops[1..] + more;
      match ops[0]
      case Connect(src, dst) => RunConcat(ops[1..], more, c + {(src, dst)});
      case Disconnect(src, dst) => RunConcat(ops[1..], more, c - {(src, dst)});
    }
  }

  lemma {:induction false} OpsConcat(es: seq<Edit>, fs: seq<Edit>, before: Tree)
    requires before.Node? && AllOps(es, before).Some? && AllOps(fs, before).Some?
    ensures AllOps(es + fs, before) == Some(AllOps(es, before).value + AllOps(fs, before).value)
  {
    if es == [] {
      assert es + fs == fs && [] + AllOps(fs, before).value == AllOps(fs, before).value;
    } else {
      assert (es + fs)[1..] == es[1..] + fs;
      OpsConcat(es[1..], fs, before);
      var first, rest, more := OpsOf(es[0], before).value, AllOps(es[1..], before).value, AllOps(fs, before).value;
      assert first + (rest + more) == first + rest + more;
    }
  }

  lemma Disconnected(m: map<Key, Tree>, k: Key)
    requires k in m && m[k].Leaf?
    ensures Run([Disconnect(m[k].v, k)], Edges(m)) == Some(Edges(m - {k}))
  {
    EdgeIs(m, m[k].v, k);
    forall e: (int, Key) ensures e in Edges(m) - {(m[k].v, k)} <==> e in Edges(m - {k}) {
      EdgeIs(m, e.0, e.1);
      EdgeIs(m - {k}, e.0, e.1);
    }
    assert Edges(m) - {(m[k].v, k)} == Edges(m - {k});
    assert [Disconnect(m[k].v, k)][1..] == [];
  }

  lemma Connected(m: map<Key, Tree>, k: Key, src: int)
    requires k !in m
    ensures Run([Connect(src, k)], Edges(m)) == Some(Edges(m[k := Leaf(src)]))
  {
    forall e: (int, Key) ensures e in Edges(m) + {(src, k)} <==> e in Edges(m[k := Leaf(src)]) {
      EdgeIs(m, e.0, e.1);
      EdgeIs(m[k := Leaf(src)], e.0, e.1);
    }
    forall s ensures (s, k) !in Edges(m) { EdgeIs(m, s, k); }
    assert Edges(m) + {(src, k)} == Edges(m[k := Leaf(src)]);
    assert [Connect(src, k)][1..] == [];
  }

  lemma Reconnected(m: map<Key, Tree>, k: Key, src: int)
    requires k in m && m[k].Leaf?
    ensures Run([Disconnect(m[k].v, k), Connect(src, k)], Edges(m)) == Some(Edges(m[k := Leaf(src)]))
  {
    Disconnected(m, k);
    Connected(m - {k}, k, src);
    RunConcat([Disconnect(m[k].v, k)], [Connect(src, k)], Edges(m));
    assert (m - {k})[k := Leaf(src)] == m[k := Leaf(src)];
    assert [Disconnect(m[k].v, k)] + [Connect(src, k)] == [Disconnect(m[k].v, k), Connect(src, k)];
  }

  /** Running the operations of some edits turns one specification's connections into another's. */
  ghost predicate Turns(es: seq<Edit>, before: Tree, m: map<Key, Tree>, m': map<Key, Tree>)
    requires before.Node?
  {
    AllOps(es, before).Some? && Run(AllOps(es, before).value, Edges(m)) == Some(Edges(m'))
  }

  lemma TurnsMore(es: seq<Edit>, fs: seq<Edit>, before: Tree, m: map<Key, Tree>, m1: map<Key, Tree>, m2: map<Key, Tree>)
    requires before.Node? && Turns(es, before, m, m1) && Turns(fs, before, m1, m2)
    ensures Turns(es + fs, before, m, m2)
  {
    OpsConcat(es, fs, before);
    RunConcat(AllOps(es, before).value, AllOps(fs, before).value, Edges(m));
  }

  lemma OneEdit(e: Edit, before: Tree)
    requires before.Node? && OpsOf(e, before).Some?
    ensures AllOps([e], before) == OpsOf(e, before)
  {
    assert OpsOf(e, before).value + [] == OpsOf(e, before).value;
  }

  lemma {:induction false} DeletesTurn(ks: seq<Key>, before: Tree, m: map<Key, Tree>)
    requires Flat(before) && Distinct(ks) && KeysIn(ks, before.m.Keys) && KeysIn(ks, m.Keys)
    requires forall i :: 0 <= i < |ks| ==> m[ks[i]] == before.m[ks[i]]
    ensures Turns(Deletes([], ks), before, m, Without(m, ks))
  {
    if ks == [] {
      assert Without(m, ks) == m;
    } else {
      var k := ks[0];
      HeadIsNew(ks);
      assert [] + [k] == [k];
      OneEdit(Delete([k]), before);
      Disconnected(m, k);
      DeletesTurn(ks[1..], before, m - {k});
      assert Without(m - {k}, ks[1..]) == Without(m, ks);
      TurnsMore([Delete([k])], Deletes([], ks[1..]), before, m, m - {k}, Without(m, ks));
    }
  }

  lemma {:induction false} InsertsTurn(ks: seq<Key>, before: Tree, b: Tree, m: map<Key, Tree>)
    requires before.Node? && Flat(b) && Distinct(ks) && KeysIn(ks, b.m.Keys)
    requires forall i :: 0 <= i < |ks| ==> ks[i] !in m
    ensures Turns(Inserts([], ks, b.m), before, m, Taking(m, b.m, ks))
  {
    if ks == [] {
      TakingNone(m, b.m);
    } else {
      var k := ks[0];
      HeadIsNew(ks);
      TakingStep(m, b.m, ks);
      assert [] + [k] == [k];
      OneEdit(Insert([k], b.m[k]), before);
      Connected(m, k, b.m[k].v);
      InsertsTurn(ks[1..], before, b, m[k := b.m[k]]);
      TurnsMore([Insert([k], b.m[k])], Inserts([], ks[1..], b.m), before, m, m[k := b.m[k]], Taking(m, b.m, ks));
    }
  }

  lemma {:induction false} UpdatesTurn(order: KeyOrder, ks: seq<Key>, a: Tree, b: Tree, m: map<Key, Tree>)
    requires IsOrder(order) && Flat(a) && Flat(b) && KeysIn(ks, a.m.Keys) && KeysIn(ks, b.m.Keys)
    requires Distinct(ks) && forall i :: 0 <= i < |ks| ==> ks[i] in m && m[ks[i]] == a.m[ks[i]]
    ensures Updates(order, [], ks, a, b).Some? && Turns(Updates(order, [], ks, a, b).value, a, m, Taking(m, b.m, ks))
  {
    if ks == [] {
      TakingNone(m, b.m);
    } else {
      var k, rest := ks[0], ks[1..];
      HeadIsNew(ks);
      TakingStep(m, b.m, ks);
      assert [] + [k] == [k];
      var first := UpdateOf(order, [] + [k], a.m[k], b.m[k]).value;
      var m1 := m[k := b.m[k]];
      if a.m[k] == b.m[k] {
        assert m1 == m;
        assert Turns([], a, m, m1);
      } else {
        OneEdit(Update([k], a.m[k], b.m[k]), a);
        Reconnected(m, k, b.m[k].v);
      }
      UpdatesTurn(order, rest, a, b, m1);
      TurnsMore(first, Updates(order, [], rest, a, b).value, a, m, m1, Taking(m, b.m, ks));
    }
  }

  /** For flat specifications the update turns exactly the old connections into the
      new ones, never disconnects what is not connected, and never gives a
      destination a second source on the way. */
  lemma {:induction false} UpdateIsExact(order: KeyOrder, before: Tree, after: Tree)
    requires IsOrder(order) && Flat(before) && Flat(after)
    ensures var ops := UpdateOps(order, before, after);
            ops.Some? && Run(ops.value, Edges(before.m)) == Some(Edges(after.m))
  {
    hide Taking, Without, Updates, Deletes, Inserts, AllOps, Run, Edges;
    var a, b := before.m, after.m;
    KeyGroups(order, a, b);
    var del, ins, common := Deleted(order, a, b), Inserted(order, a, b), Common(order, a, b);
    Rebuilt(a, b, del, ins, common);
    var m1 := Without(a, del);
    var m2 := Taking(m1, b, ins);
    DeletesTurn(del, before, a);
    InsertsTurn(ins, before, after, m1);
    UpdatesTurn(order, common, before, after, m2);
    TurnsMore(Deletes([], del), Inserts([], ins, b), before, a, m1, m2);
    TurnsMore(Deletes([], del) + Inserts([], ins, b), Updates(order, [], common, before, after).value,
      before, a, m2, b);
  }

  // ---- No more operations than needed ----

  lemma {:induction false} OpsHave(es: seq<Edit>, before: Tree, op: Op)
    requires before.Node? && AllOps(es, before).Some?
    ensures op in AllOps(es, before).value <==>
            exists e :: e in es && OpsOf(e, before).Some? && op in OpsOf(e, before).value
  {
    if es == [] {
    } else {
      OpsHave(es[1..], before, op);
      assert forall e :: e in es <==> e == es[0] || e in es[1..];
    }
  }

  /** The change that an operation makes is one that the specifications differ in. */
  predicate Changes(before: map<Key, Tree>, after: map<Key, Tree>, op: Op) {
    match op
    case Connect(src, dst) => Lookup(after, dst) == Some(Leaf(src)) && Lookup(before, dst) != Some(Leaf(src))
    case Disconnect(src, dst) => Lookup(before, dst) == Some(Leaf(src)) && Lookup(after, dst) != Some(Leaf(src))
  }

  /** The edit behind an operation on dst. */
  function EditFor(a: map<Key, Tree>, b: map<Key, Tree>, dst: Key): Edit
    requires dst in a || dst in b
  {
    if dst !in b then Delete([dst]) else if dst !in a then Insert([dst], b[dst]) else Update([dst], a[dst], b[dst])
  }

  lemma EditForIsCalled(a: Tree, b: Tree, op: Op)
    requires Flat(a) && Flat(b) && Changes(a.m, b.m, op)
    ensures var e := EditFor(a.m, b.m, op.dst); Called(a, b, e) && OpsOf(e, a).Some? && op in OpsOf(e, a).value
  {
    CalledHere(a, b, op.dst, EditFor(a.m, b.m, op.dst));
  }

  /** In flat specifications only keys of the map itself can change. */
  lemma CalledIsFlat(a: Tree, b: Tree, e: Edit)
    requires Flat(a) && Flat(b) && Called(a, b, e)
    ensures |e.path| == 1
  {
    if e.path == [] {
      CalledNowhere(a, b, e);
    } else if |e.path| > 1 {
      var k, inner := e.path[0], Strip(e);
      assert e == Under([k], inner) by { assert [k] + e.path[1..] == e.path; }
      CalledOnlyInBoth(a, b, k, inner);
      CalledUnder(a, b, k, inner);
      LeafHasNone(a.m[k], b.m[k], inner);
    }
  }

  lemma CalledChanges(a: Tree, b: Tree, e: Edit, op: Op)
    requires Flat(a) && Flat(b) && Called(a, b, e) && OpsOf(e, a).Some? && op in OpsOf(e, a).value
    ensures Changes(a.m, b.m, op)
  {
    CalledIsFlat(a, b, e);
    assert e.path == [e.path[0]];
    CalledHere(a, b, e.path[0], e);
  }

  /** The update connects exactly what is new and disconnects exactly what is gone. */
  lemma {:induction false} OpsAreExact(order: KeyOrder, before: Tree, after: Tree, op: Op)
    requires IsOrder(order) && Flat(before) && Flat(after)
    ensures var ops := UpdateOps(order, before, after);
            ops.Some? && (op in ops.value <==> Changes(before.m, after.m, op))
  {
    UpdateIsExact(order, before, after);
    var es := Diff(order, before, after).value;
    OpsHave(es, before, op);
    hide AllOps, Called, Flat;
    if Changes(before.m, after.m, op) {
      EditForIsCalled(before, after, op);
      DiffIsExact(order, before, after, EditFor(before.m, after.m, op.dst));
    }
    if e :| e in es && OpsOf(e, before).Some? && op in OpsOf(e, before).value {
      DiffIsExact(order, before, after, e);
      CalledChanges(before, after, e, op);
    }
  }
}
