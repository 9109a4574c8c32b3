/** Memoised directories of a tag_u32 server (src/tag_u32.erl): gathering the
    directory with shared interface types kept aside, folding over it again, and
    resolving symbolic paths. */
module TagU32 {
  import opened Collections

  type Name = string

  type Type = string

  /** What the server calls a node: a concrete map, or some other type. */
  datatype Kind = Map | Other(ty: Type)

  /** The server's full tree.  A node that is not a map may still have children. */
  datatype SNode = SNode(name: Name, kind: Kind, kids: seq<SNode>)

  /** The directory: a leaf names a type, a map lists its entries. */
  datatype DNode = Leaf(ty: Type) | Dir(entries: seq<Entry>)

  datatype Entry = Entry(name: Name, node: DNode)

  /** {sub, Type} to substructure. */
  type Meta = map<Type, seq<Entry>>

  // ---- dir_list_rev ----

  /** The directory of the children from number n on, gathering the substructure of
      the types marked sub when it meets them first. */
  function DirList(subs: set<Type>, nodes: seq<SNode>, n: nat, meta: Meta): (seq<Entry>, Meta)
    requires n <= |nodes|
    decreases nodes, |nodes| - n
  {
    if n == |nodes| then ([], meta)
    else
      var node := nodes[n];
      var here :=
        match node.kind
        case Map => (var sub := DirList(subs, node.kids, 0, meta); (Dir(sub.0), sub.1))
        case Other(ty) =>
          if ty in meta || ty !in subs then (Leaf(ty), meta)
          else
            var sub := DirList(subs, node.kids, 0, meta);
            (Leaf(ty), sub.1[ty := sub.0]);
      var rest := DirList(subs, nodes, n + 1, here.1);
      ([Entry(node.name, here.0)] + rest.0, rest.1)
  }

  // ---- foldl_env ----

  /** A leaf reached by a fold, with its names and its numbers, outermost first. */
  datatype Visit = Visit(keys: seq<Name>, tags: seq<nat>, ty: Type)

  /** The visits of a fold in order.  fuel bounds how deep types are expanded inside
      types; None if it does not suffice. */
  function Fold(meta: Meta, node: DNode, keys: seq<Name>, tags: seq<nat>, fuel: nat): Option<seq<Visit>>
    decreases fuel, node, 0
  {
    match node
    case Leaf(ty) =>
      if ty !in meta then Some([Visit(keys, tags, ty)])
      else if fuel == 0 then None
      else FoldDir(meta, meta[ty], 0, keys, tags, fuel - 1)
    case Dir(entries) => FoldDir(meta, entries, 0, keys, tags, fuel)
  }

  function FoldDir(meta: Meta, entries: seq<Entry>, i: nat, keys: seq<Name>, tags: seq<nat>,
                   fuel: nat): Option<seq<Visit>>
    requires i <= |entries|
    decreases fuel, entries, |entries| - i
  {
    if i == |entries| then Some([])
    else
      var first := Fold(meta, entries[i].node, keys + [entries[i].name], tags + [i], fuel);
      var rest := FoldDir(meta, entries, i + 1, keys, tags, fuel);
      if first.None? || rest.None? then None else Some(first.value + rest.value)
  }

  // ---- The full tree ----

  /** Maps and sub types have children to visit; everything else is a leaf. */
  predicate IsInner(subs: set<Type>, node: SNode) {
    node.kind.Map? || node.kind.ty in subs
  }

  /** All leaves of the full tree from child n on, in order, with their paths. */
  function Full(subs: set<Type>, nodes: seq<SNode>, n: nat, keys: seq<Name>, tags: seq<nat>): seq<Visit>
    requires n <= |nodes|
    decreases nodes, |nodes| - n
  {
    if n == |nodes| then []
    else
      var node, k, t := nodes[n], keys + [nodes[n].name], tags + [n];
      (if IsInner(subs, node) then Full(subs, node.kids, 0, k, t) else [Visit(k, t, node.kind.ty)])
      + Full(subs, nodes, n + 1, keys, tags)
  }

  /** Nodes of the same sub type have equal substructure: that in the table. */
  ghost predicate Consistent(subs: set<Type>, table: map<Type, seq<SNode>>, nodes: seq<SNode>)
    decreases nodes
  {
    forall i :: 0 <= i < |nodes| ==>
      var node := nodes[i];
      && (node.kind.Other? && node.kind.ty in subs ==> node.kind.ty in table && table[node.kind.ty] == node.kids)
      && (IsInner(subs, node) ==> Consistent(subs, table, node.kids))
  }

  /** The directory without its memo table. */
  function Compressed(nodes: seq<SNode>): (r: seq<Entry>)
    ensures |r| == |nodes|
    decreases nodes
  {
    seq(|nodes|, i requires 0 <= i < |nodes| => Entry(nodes[i].name, CompressedNode(nodes[i])))
  }

  function CompressedNode(node: SNode): DNode
    decreases node
  {
    match node.kind
    case Map => Dir(Compressed(node.kids))
    case Other(ty) => Leaf(ty)
  }

  /** The memo table has the substructure of every sub type met in the nodes. */
  ghost predicate Covered(subs: set<Type>, meta: Meta, nodes: seq<SNode>)
    decreases nodes
  {
    forall i :: 0 <= i < |nodes| ==>
      var node := nodes[i];
      && (node.kind.Other? && node.kind.ty in subs ==>
        node.kind.ty in meta && meta[node.kind.ty] == Compressed(node.kids))
      && (IsInner(subs, node) ==> Covered(subs, meta, node.kids))
  }

  ghost predicate Extends(meta: Meta, meta': Meta) {
    forall ty :: ty in meta ==> ty in meta' && meta'[ty] == meta[ty]
  }

  /** Only sub types are memoised, with the right substructure, which is covered too. */
  ghost predicate MetaOk(subs: set<Type>, table: map<Type, seq<SNode>>, meta: Meta) {
    forall ty :: ty in meta ==>
      ty in subs && ty in table && meta[ty] == Compressed(table[ty]) && Covered(subs, meta, table[ty])
  }

  lemma {:induction false} CoveredMore(subs: set<Type>, meta: Meta, meta': Meta, nodes: seq<SNode>)
    requires Covered(subs, meta, nodes) && Extends(meta, meta')
    ensures Covered(subs, meta', nodes)
    decreases nodes
  {
    forall i | 0 <= i < |nodes| && IsInner(subs, nodes[i]) ensures Covered(subs, meta', nodes[i].kids) {
      CoveredMore(subs, meta, meta', nodes[i].kids);
    }
  }

  lemma MemoAdded(subs: set<Type>, table: map<Type, seq<SNode>>, meta: Meta, ty: Type)
    requires MetaOk(subs, table, meta) && ty in subs && ty in table && Covered(subs, meta, table[ty])
    ensures MetaOk(subs, table, meta[ty := Compressed(table[ty])]) && Extends(meta, meta[ty := Compressed(table[ty])])
  {
    var meta' := meta[ty := Compressed(table[ty])];
    forall t | t in meta' ensures Covered(subs, meta', table[t]) {
      CoveredMore(subs, meta, meta', table[t]);
    }
  }

  /** The nodes from n on. */
  ghost predicate CoveredFrom(subs: set<Type>, meta: Meta, nodes: seq<SNode>, n: nat) {
    n <= |nodes| && Covered(subs, meta, nodes[n..])
  }

  lemma {:induction false} DirListOk(subs: set<Type>, table: map<Type, seq<SNode>>, nodes: seq<SNode>, n: nat,
                                     meta: Meta)
    requires n <= |nodes| && Consistent(subs, table, nodes) && MetaOk(subs, table, meta)
    ensures var r := DirList(subs, nodes, n, meta);
            && r.0 == Compressed(nodes)[n..]
            && MetaOk(subs, table, r.1) && Extends(meta, r.1) && CoveredFrom(subs, r.1, nodes, n)
    decreases nodes, |nodes| - n
  {
    var r := DirList(subs, nodes, n, meta);
    if n == |nodes| {
    } else {
      var node := nodes[n];
      var meta1 := HereOk(subs, table, nodes, n, meta);
      DirListOk(subs, table, nodes, n + 1, meta1);
      assert Compressed(nodes)[n..] == [Entry(node.name, CompressedNode(node))] + Compressed(nodes)[n + 1..];
      assert forall i :: 0 < i < |nodes[n..]| ==> nodes[n..][i] == nodes[n + 1..][i - 1];
      if IsInner(subs, node) { CoveredMore(subs, meta1, r.1, node.kids); }
    }
  }

  /** One child: its entry is right and its substructure is covered. */
  lemma {:induction false} HereOk(subs: set<Type>, table: map<Type, seq<SNode>>, nodes: seq<SNode>, n: nat,
                                  meta: Meta) returns (meta1: Meta)
    requires n < |nodes| && Consistent(subs, table, nodes) && MetaOk(subs, table, meta)
    ensures var rest := DirList(subs, nodes, n + 1, meta1);
            DirList(subs, nodes, n, meta) == ([Entry(nodes[n].name, CompressedNode(nodes[n]))] + rest.0, rest.1)
    ensures MetaOk(subs, table, meta1) && Extends(meta, meta1)
    ensures IsInner(subs, nodes[n]) ==> Covered(subs, meta1, nodes[n].kids)
    ensures nodes[n].kind.Other? && nodes[n].kind.ty in subs ==>
              nodes[n].kind.ty in meta1 && meta1[nodes[n].kind.ty] == Compressed(nodes[n].kids)
    decreases nodes, |nodes| - n, 0
  {
    var node := nodes[n];
    match node.kind
    case Map =>
      DirListOk(subs, table, node.kids, 0, meta);
      assert Compressed(node.kids)[0..] == Compressed(node.kids) && node.kids[0..] == node.kids;
      meta1 := DirList(subs, node.kids, 0, meta).1;
    case Other(ty) =>
      if ty in meta || ty !in subs {
        meta1 := meta;
      } else {
        DirListOk(subs, table, node.kids, 0, meta);
        assert Compressed(node.kids)[0..] == Compressed(node.kids) && node.kids[0..] == node.kids;
        MemoAdded(subs, table, DirList(subs, node.kids, 0, meta).1, ty);
        meta1 := DirList(subs, node.kids, 0, meta).1[ty := Compressed(node.kids)];
      }
  }

  // ---- Folding the directory visits the full tree ----

  /** How deep sub types are nested. */
  function Depth(subs: set<Type>, nodes: seq<SNode>, n: nat): nat
    requires n <= |nodes|
    decreases nodes, |nodes| - n
  {
    if n == |nodes| then 0
    else
      var node, rest := nodes[n], Depth(subs, nodes, n + 1);
      if !IsInner(subs, node) then rest
      else
        var d := Depth(subs, node.kids, 0) + if node.kind.Map? then 0 else 1;
        if d > rest then d else rest
  }

  ghost predicate OnlySubs(subs: set<Type>, meta: Meta) {
    forall ty :: ty in meta ==> ty in subs
  }

  lemma {:induction false} FoldIsFull(subs: set<Type>, meta: Meta, nodes: seq<SNode>, n: nat, keys: seq<Name>,
                                      tags: seq<nat>, fuel: nat)
    requires n <= |nodes| && Covered(subs, meta, nodes) && OnlySubs(subs, meta) && fuel >= Depth(subs, nodes, n)
    ensures FoldDir(meta, Compressed(nodes), n, keys, tags, fuel) == Some(Full(subs, nodes, n, keys, tags))
    decreases nodes, |nodes| - n
  {
    if n == |nodes| {
    } else {
      var node, k, t := nodes[n], keys + [nodes[n].name], tags + [n];
      FoldIsFull(subs, meta, nodes, n + 1, keys, tags, fuel);
      if IsInner(subs, node) {
        FoldIsFull(subs, meta, node.kids, 0, k, t, if node.kind.Map? then fuel else fuel - 1);
      }
    }
  }

  /** The memoised directory is a faithful compression: folding what dir returns
      visits exactly the leaves of the server's full tree, in order, with the right
      names and numbers, and the expansion of types ends, for any sufficient bound. */
  lemma DirIsFaithful(subs: set<Type>, table: map<Type, seq<SNode>>, nodes: seq<SNode>, fuel: nat)
    requires Consistent(subs, table, nodes) && fuel >= Depth(subs, nodes, 0)
    ensures var r := DirList(subs, nodes, 0, map[]);
            FoldDir(r.1, r.0, 0, [], [], fuel) == Some(Full(subs, nodes, 0, [], []))
  {
    DirListOk(subs, table, nodes, 0, map[]);
    var r := DirList(subs, nodes, 0, map[]);
    assert r.0 == Compressed(nodes) && nodes[0..] == nodes;
    FoldIsFull(subs, r.1, nodes, 0, [], [], fuel);
  }

  // ---- Resolving names ----

  datatype Step = Sym(name: Name) | Num(n: nat)

  /** find/3: the number of the child with a name. */
  function Find(nodes: seq<SNode>, name: Name, n: nat): Option<nat>
    requires n <= |nodes|
    decreases |nodes| - n
  {
    if n == |nodes| then None else if nodes[n].name == name then Some(n) else Find(nodes, name, n + 1)
  }

  /** resolve/3: numbers stay, names are looked up below what is resolved already. */
  function Resolve(nodes: seq<SNode>, path: seq<Step>): Option<seq<nat>>
    decreases |path|
  {
    if path == [] then Some([])
    else
      var id := match path[0] case Num(n) => Some(n) case Sym(name) => Find(nodes, name, 0);
      if id.None? then None
      else
        var rest := Resolve(if id.value < |nodes| then nodes[id.value].kids else [], path[1..]);
        if rest.None? then None else Some([id.value] + rest.value)
  }

  /** Siblings have different names. */
  ghost predicate Named(nodes: seq<SNode>)
    decreases nodes
  {
    && (forall i, j :: 0 <= i < j < |nodes| ==> nodes[i].name != nodes[j].name)
    && (forall i :: 0 <= i < |nodes| ==> Named(nodes[i].kids))
  }

  lemma {:induction false} FindNamed(nodes: seq<SNode>, i: nat, n: nat)
    requires Named(nodes) && n <= i < |nodes|
    ensures Find(nodes, nodes[i].name, n) == Some(i)
    decreases |nodes| - n
  {
    if n < i { FindNamed(nodes, i, n + 1); }
  }

  /** A path that gives each step by its name or by its number. */
  ghost predicate Spells(path: seq<Step>, keys: seq<Name>, tags: seq<nat>) {
    |path| == |keys| == |tags| && forall i :: 0 <= i < |path| ==> path[i] == Sym(keys[i]) || path[i] == Num(tags[i])
  }

  /** The names and numbers of a visit below a starting point. */
  ghost predicate Below(v: Visit, keys: seq<Name>, tags: seq<nat>) {
    keys <= v.keys && tags <= v.tags && |v.keys| - |keys| == |v.tags| - |tags|
  }

  lemma {:induction false} VisitResolves(subs: set<Type>, nodes: seq<SNode>, n: nat, keys: seq<Name>, tags: seq<nat>,
                                         v: Visit, path: seq<Step>)
    requires n <= |nodes| && Named(nodes) && v in Full(subs, nodes, n, keys, tags)
    ensures Below(v, keys, tags)
    ensures Spells(path, v.keys[|keys|..], v.tags[|tags|..]) ==> Resolve(nodes, path) == Some(v.tags[|tags|..])
    decreases nodes, |nodes| - n
  {
    hide Resolve, Named;
    var node, k, t := nodes[n], keys + [nodes[n].name], tags + [n];
    if v in Full(subs, nodes, n + 1, keys, tags) {
      VisitResolves(subs, nodes, n + 1, keys, tags, v, path);
    } else {
      KidsNamed(nodes, n);
      if IsInner(subs, node) {
        VisitResolves(subs, node.kids, 0, k, t, v, if path == [] then [] else path[1..]);
      }
      assert Below(v, k, t);
      NothingLeft(node.kids);
      var ks, ts := v.keys[|keys|..], v.tags[|tags|..];
      assert v.keys[|keys|] == k[|keys|] && v.tags[|tags|] == t[|tags|];
      assert ks == [node.name] + v.keys[|k|..] && ts == [n] + v.tags[|t|..];
      if Spells(path, ks, ts) { FirstStep(nodes, n, v.keys[|k|..], v.tags[|t|..], path); }
    }
  }

  lemma NothingLeft(nodes: seq<SNode>)
    ensures Resolve(nodes, []) == Some([])
  {
  }

  lemma KidsNamed(nodes: seq<SNode>, n: nat)
    requires Named(nodes) && n < |nodes|
    ensures Named(nodes[n].kids)
  {
  }

  lemma FirstStep(nodes: seq<SNode>, n: nat, keys: seq<Name>, tags: seq<nat>, path: seq<Step>)
    requires Named(nodes) && n < |nodes| && Spells(path, [nodes[n].name] + keys, [n] + tags)
    requires Spells(path[1..], keys, tags) ==> Resolve(nodes[n].kids, path[1..]) == Some(tags)
    ensures Resolve(nodes, path) == Some([n] + tags)
  {
    FindNamed(nodes, n, 0);
    SpellsRest(path, nodes[n].name, keys, n, tags);
    hide Find;
  }

  lemma SpellsRest(path: seq<Step>, key: Name, keys: seq<Name>, tag: nat, tags: seq<nat>)
    requires Spells(path, [key] + keys, [tag] + tags)
    ensures Spells(path[1..], keys, tags)
  {
    forall i | 0 <= i < |path| - 1 ensures path[1..][i] == Sym(keys[i]) || path[1..][i] == Num(tags[i]) {
      assert path[i + 1] == Sym(([key] + keys)[i + 1]) || path[i + 1] == Num(([tag] + tags)[i + 1]);
    }
  }

  /** Every visit's names, or its numbers, or any mixture, resolve to its numbers. */
  lemma PathsResolve(subs: set<Type>, nodes: seq<SNode>, v: Visit, path: seq<Step>)
    requires Named(nodes) && v in Full(subs, nodes, 0, [], []) && Spells(path, v.keys, v.tags)
    ensures Resolve(nodes, path) == Some(v.tags)
  {
    assert v.keys[0..] == v.keys && v.tags[0..] == v.tags;
    VisitResolves(subs, nodes, 0, [], [], v, path);
  }

  // ---- Exactly what resolves ----

  /** i is the first child with a name. */
  predicate IsFirst(nodes: seq<SNode>, name: Name, i: nat) {
    i < |nodes| && nodes[i].name == name && forall j :: 0 <= j < i ==> nodes[j].name != name
  }

  function KidsOf(nodes: seq<SNode>, i: nat): seq<SNode> {
    if i < |nodes| then nodes[i].kids else []
  }

  /** The numbers follow the path: each name is that of the first child so named, at
      its number, and each number is itself. */
  predicate Leads(nodes: seq<SNode>, path: seq<Step>, ids: seq<nat>)
    decreases |path|
  {
    |ids| == |path| &&
    (path != [] ==>
      && (if path[0].Num? then ids[0] == path[0].n else IsFirst(nodes, path[0].name, ids[0]))
      && Leads(KidsOf(nodes, ids[0]), path[1..], ids[1..]))
  }

  lemma {:induction false} FindIsFirst(nodes: seq<SNode>, name: Name, n: nat)
    requires n <= |nodes| && forall j :: 0 <= j < n ==> nodes[j].name != name
    ensures forall i: nat :: Find(nodes, name, n) == Some(i) <==> IsFirst(nodes, name, i)
    decreases |nodes| - n
  {
    if n == |nodes| || nodes[n].name == name {
    } else {
      FindIsFirst(nodes, name, n + 1);
    }
  }

  /** A path resolves to some numbers exactly if they follow it. */
  lemma {:induction false} ResolveIsExact(nodes: seq<SNode>, path: seq<Step>, ids: seq<nat>)
    ensures Resolve(nodes, path) == Some(ids) <==> Leads(nodes, path, ids)
    decreases |path|
  {
    if path == [] {
    } else {
      if path[0].Sym? { FindIsFirst(nodes, path[0].name, 0); }
      hide Find;
      if ids != [] {
        ResolveIsExact(KidsOf(nodes, ids[0]), path[1..], ids[1..]);
        assert [ids[0]] + ids[1..] == ids;
        if Resolve(nodes, path) == Some(ids) {
          ResolveStep(nodes, path, ids);
        }
      }
    }
  }

  lemma ResolveStep(nodes: seq<SNode>, path: seq<Step>, ids: seq<nat>)
    requires path != [] && ids != [] && Resolve(nodes, path) == Some(ids)
    ensures Resolve(KidsOf(nodes, ids[0]), path[1..]) == Some(ids[1..])
    ensures if path[0].Num? then ids[0] == path[0].n else Find(nodes, path[0].name, 0) == Some(ids[0])
  {
    hide Find;
    var id := if path[0].Num? then path[0].n else Find(nodes, path[0].name, 0).value;
    var rest := Resolve(KidsOf(nodes, id), path[1..]).value;
    assert ids == [id] + rest && ([id] + rest)[1..] == rest;
  }

  /** The children below some numbers. */
  function KidsAt(nodes: seq<SNode>, ids: seq<nat>): seq<SNode>
    decreases |ids|
  {
    if ids == [] then nodes else KidsAt(KidsOf(nodes, ids[0]), ids[1..])
  }

  /** Some name on the path, after what leads there, is not that of any child. */
  ghost predicate Stuck(nodes: seq<SNode>, path: seq<Step>, k: nat, ids: seq<nat>) {
    && k < |path| && Leads(nodes, path[..k], ids) && path[k].Sym?
    && forall i :: 0 <= i < |KidsAt(nodes, ids)| ==> KidsAt(nodes, ids)[i].name != path[k].name
  }

  /** It fails exactly if some name is not there. */
  lemma {:induction false} ResolveFails(nodes: seq<SNode>, path: seq<Step>)
    ensures Resolve(nodes, path).None? <==> exists k: nat, ids :: Stuck(nodes, path, k, ids)
    decreases |path|
  {
    if Resolve(nodes, path).None? {
      var k, ids := WhereStuck(nodes, path);
    }
    if k: nat, ids :| Stuck(nodes, path, k, ids) {
      StuckFails(nodes, path, k, ids);
    }
  }

  lemma {:induction false} WhereStuck(nodes: seq<SNode>, path: seq<Step>) returns (k: nat, ids: seq<nat>)
    requires Resolve(nodes, path).None?
    ensures Stuck(nodes, path, k, ids)
    decreases |path|
  {
    if path[0].Sym? { FindIsFirst(nodes, path[0].name, 0); }
    hide Find;
    var id := if path[0].Num? then Some(path[0].n) else Find(nodes, path[0].name, 0);
    if id.None? {
      k, ids := 0, [];
      NoneNamed(nodes, path[0].name);
      assert path[..0] == [] && KidsAt(nodes, ids) == nodes;
    } else {
      var j, rest := WhereStuck(KidsOf(nodes, id.value), path[1..]);
      k, ids := j + 1, [id.value] + rest;
      assert path[..k][1..] == path[1..][..j] && path[..k][0] == path[0] && ids[1..] == rest;
      assert KidsAt(nodes, ids) == KidsAt(KidsOf(nodes, id.value), rest) && path[1..][j] == path[k];
    }
  }

  lemma {:induction false} NoneNamed(nodes: seq<SNode>, name: Name)
    requires Find(nodes, name, 0).None?
    ensures forall i :: 0 <= i < |nodes| ==> nodes[i].name != name
  {
    FindIsFirst(nodes, name, 0);
    hide Find;
    if i: nat :| i < |nodes| && nodes[i].name == name {
      var first := FirstOf(nodes, name, i);
    }
  }

  lemma {:induction false} FirstOf(nodes: seq<SNode>, name: Name, i: nat) returns (first: nat)
    requires i < |nodes| && nodes[i].name == name
    ensures IsFirst(nodes, name, first)
  {
    if j: nat :| j < i && nodes[j].name == name {
      first := FirstOf(nodes, name, j);
    } else {
      first := i;
    }
  }

  lemma FoundIsNamed(nodes: seq<SNode>, name: Name)
    ensures Find(nodes, name, 0).Some? ==> exists i :: 0 <= i < |nodes| && nodes[i].name == name
  {
    FindIsFirst(nodes, name, 0);
    if Find(nodes, name, 0).Some? { assert IsFirst(nodes, name, Find(nodes, name, 0).value); }
  }

  lemma {:induction false} StuckFails(nodes: seq<SNode>, path: seq<Step>, k: nat, ids: seq<nat>)
    requires Stuck(nodes, path, k, ids)
    ensures Resolve(nodes, path).None?
    decreases k
  {
    if path[0].Sym? { FindIsFirst(nodes, path[0].name, 0); }
    hide Find;
    if k == 0 {
      assert path[..0] == [] && ids == [] && KidsAt(nodes, ids) == nodes;
      FoundIsNamed(nodes, path[0].name);
    } else {
      assert path[..k][1..] == path[1..][..k - 1] && path[..k][0] == path[0] && path[1..][k - 1] == path[k];
      assert KidsAt(nodes, ids) == KidsAt(KidsOf(nodes, ids[0]), ids[1..]);
      StuckFails(KidsOf(nodes, ids[0]), path[1..], k - 1, ids[1..]);
    }
  }
}
