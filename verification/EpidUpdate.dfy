/** What instantiating and updating descriptions means: the environment computes
    the description's values, and garbage collection keeps exactly what the current
    description uses, over any sequence of updates. */
module EpidUpdate {
  import opened Dataflow
  import opened EpidApp

  /** What an input buffer holds, by its node and source. */
  type Slots = (nat, Epid) -> Value

  /** The value of an environment node. */
  function NodeValue(env: map<nat, EnvNode>, fn: Operators, slot: Slots, n: nat): Value
    decreases n, 1
  {
    if n !in env then 0
    else
      match env[n]
      case Buffer(src) => slot(n, src)
      case App(op, ins) => fn(op, InputValues(env, fn, slot, ins, n))
  }

  function InputValues(env: map<nat, EnvNode>, fn: Operators, slot: Slots, ins: seq<Wire>, n: nat): (bs: seq<Bound>)
    ensures |bs| == |ins|
    decreases n, 0
  {
    seq(|ins|, i requires 0 <= i < |ins| =>
      Bound(ins[i].name, if ins[i].epid.node < n then NodeValue(env, fn, slot, ins[i].epid.node) else 0))
  }

  /** Buffers that hold what their sources send. */
  function Live(ext: Epid -> Value): Slots {
    (n, src) => ext(src)
  }

  function EpidValue(r: Registry, fn: Operators, ext: Epid -> Value, e: Epid): Value {
    if Local(e) then NodeValue(r.proxy.env, fn, Live(ext), e.node) else ext(e)
  }

  function WireValues(r: Registry, fn: Operators, ext: Epid -> Value, ws: seq<Wire>): (bs: seq<Bound>)
    ensures |bs| == |ws|
  {
    seq(|ws|, i requires 0 <= i < |ws| => Bound(ws[i].name, EpidValue(r, fn, ext, ws[i].epid)))
  }

  /** A processor computes its operator on the values of the inputs it was asked
      for, whether they arrive directly or through buffers. */
  lemma {:induction false} EntryValue(r: Registry, fn: Operators, ext: Epid -> Value, tag: Tag)
    requires Linked(r) && tag in r.memo
    ensures EpidValue(r, fn, ext, r.memo[tag].out) == fn(tag.op, WireValues(r, fn, ext, tag.inputs))
  {
    var e, env := r.memo[tag], r.proxy.env;
    assert EntryOk(env, tag, e);
    var ins := env[e.out.node].inputs;
    assert NodeOk(env, e.out.node);
    assert InputValues(env, fn, Live(ext), ins, e.out.node) == WireValues(r, fn, ext, tag.inputs) by {
      forall i | 0 <= i < |ins|
        ensures InputValues(env, fn, Live(ext), ins, e.out.node)[i] == WireValues(r, fn, ext, tag.inputs)[i]
      {
        assert ins[i] in ins && WireOk(env, e.tmp, tag.inputs[i], ins[i]);
      }
    }
  }

  // ---- Instantiation ----

  function TagOf(ops: seq<OpCall>, k: nat, resolve: Name -> Epid, results: seq<Epid>): Tag
    requires k < |ops|
  {
    Tag(ops[k].op, Flatten(ops[k].args, resolve, results))
  }

  /** Call k returned the table's processor for its operator and flattened inputs. */
  ghost predicate ResultOk(ops: seq<OpCall>, resolve: Name -> Epid, inst: Instance, k: nat)
    requires k < |ops| && k < |inst.results|
  {
    var tag := TagOf(ops, k, resolve, inst.results);
    tag in inst.reg.memo && inst.results[k] == inst.reg.memo[tag].out
  }

  lemma FlattenStable(args: seq<Arg>, resolve: Name -> Epid, results: seq<Epid>, more: seq<Epid>)
    requires forall a :: a in args && a.src.Result? ==> a.src.k < |results|
    ensures Flatten(args, resolve, results + more) == Flatten(args, resolve, results)
  {
    forall i | 0 <= i < |args| ensures Flatten(args, resolve, results + more)[i] == Flatten(args, resolve, results)[i] {
      assert args[i] in args;
    }
  }

  /** The first n calls have been bound, and nothing older was changed. */
  ghost predicate InstanceOk(ops: seq<OpCall>, n: nat, resolve: Name -> Epid, reg: Registry, inst: Instance) {
    && n <= |ops| && |inst.results| == n && Held(inst.reg) && Grown(reg, inst.reg)
    && inst.refs == (set e | e in inst.results)
    && forall k :: 0 <= k < n ==> ResultOk(ops, resolve, inst, k)
  }

  lemma {:induction false} BindStep(ops: Desc, n: nat, resolve: Name -> Epid, reg: Registry, prev: Instance, out: Epid,
                                    reg': Registry)
    requires n < |ops| && InstanceOk(ops, n, resolve, reg, prev) && Held(reg') && Grown(prev.reg, reg')
    requires var tag := TagOf(ops, n, resolve, prev.results); tag in reg'.memo && reg'.memo[tag].out == out
    ensures InstanceOk(ops, n + 1, resolve, reg, Instance(prev.results + [out], prev.refs + {out}, reg'))
  {
    var inst := Instance(prev.results + [out], prev.refs + {out}, reg');
    forall k | 0 <= k < n + 1 ensures ResultOk(ops, resolve, inst, k) {
      FlattenStable(ops[k].args, resolve, prev.results, [out]);
      if k < n { assert ResultOk(ops, resolve, prev, k); }
    }
    GrownTrans(reg, prev.reg, reg');
    hide Held, Grown, ResultOk;
  }

  /** Whatever names resolve to, each call returns the table's one processor for its
      operator and inputs, and nothing older is changed. */
  lemma {:induction false} InstantiateOk(ops: Desc, n: nat, resolve: Name -> Epid, reg: Registry)
    requires n <= |ops| && Held(reg)
    ensures InstanceOk(ops, n, resolve, reg, Instantiate(ops, n, resolve, reg))
  {
    if n == 0 {
    } else {
      InstantiateOk(ops, n - 1, resolve, reg);
      var prev := Instantiate(ops, n - 1, resolve, reg);
      var tag := TagOf(ops, n - 1, resolve, prev.results);
      NeedKeepsHeld(prev.reg, tag);
      BindStep(ops, n - 1, resolve, reg, prev, Need(prev.reg, tag).0, Need(prev.reg, tag).1);
    }
  }

  // ---- Names of the proxy's own nodes ----

  /** A name may resolve to a node of the proxy itself if that is the result of one
      of the description's calls, numbered before the reader. */
  predicate NameOk(inst: Instance, out: Epid, e: Epid) {
    Local(e) ==> e in inst.results && e.node < out.node
  }

  ghost predicate NamesOk(ops: seq<OpCall>, resolve: Name -> Epid, inst: Instance)
    requires |inst.results| == |ops|
  {
    forall i, a :: 0 <= i < |ops| && a in ops[i].args && a.src.External? ==>
      NameOk(inst, inst.results[i], resolve(a.src.x))
  }

  /** Call i was bound to a processor that was there before, or to a new one numbered after all. */
  lemma {:induction false} LaterIsNew(ops: Desc, n: nat, m: nat, resolve: Name -> Epid, reg: Registry)
    requires n <= m <= |ops| && Held(reg)
    ensures Instantiate(ops, n, resolve, reg).results == Instantiate(ops, m, resolve, reg).results[..n]
    ensures Grown(Instantiate(ops, n, resolve, reg).reg, Instantiate(ops, m, resolve, reg).reg)
    decreases m
  {
    hide Held, Grown;
    InstantiateOk(ops, n, resolve, reg);
    if n < m {
      LaterIsNew(ops, n, m - 1, resolve, reg);
      InstantiateOk(ops, m - 1, resolve, reg);
      var prev := Instantiate(ops, m - 1, resolve, reg);
      var tag := TagOf(ops, m - 1, resolve, prev.results);
      NeedKeepsHeld(prev.reg, tag);
      GrownTrans(Instantiate(ops, n, resolve, reg).reg, prev.reg, Need(prev.reg, tag).1);
    } else {
      GrownSelf(Instantiate(ops, n, resolve, reg).reg);
    }
  }

  lemma GrownSelf(r: Registry)
    ensures Grown(r, r)
  {
  }

  lemma GrownTrans(r: Registry, r': Registry, r'': Registry)
    requires Grown(r, r') && Grown(r', r'')
    ensures Grown(r, r'')
  {
    forall t | t in r''.memo ensures t in r.memo || r.proxy.count <= r''.memo[t].out.node {
      if t in r'.memo { assert r''.memo[t] == r'.memo[t]; }
    }
  }

  /** An entry with a number below a new one was there before it. */
  lemma EarlierEntry(prev: Registry, tag: Tag, last: Registry, u: Tag)
    requires Held(prev) && tag !in prev.memo && Grown(Need(prev, tag).1, last)
    requires u in last.memo && last.memo[u].out.node < Need(prev, tag).0.node
    ensures IsOut(prev.memo, last.memo[u].out)
  {
    NeedKeepsHeld(prev, tag);
    assert u in Need(prev, tag).1.memo;
    assert prev.memo[u].out == last.memo[u].out;
  }

  /** A result numbered before the node made by call i was there before call i. */
  lemma {:induction false} EarlierIsOut(ops: Desc, i: nat, resolve: Name -> Epid, reg: Registry, e: Epid)
    requires i < |ops| && Held(reg)
    requires var inst := Instantiate(ops, |ops|, resolve, reg); e in inst.results && e.node < inst.results[i].node
    requires var prev := Instantiate(ops, i, resolve, reg); TagOf(ops, i, resolve, prev.results) !in prev.reg.memo
    ensures IsOut(Instantiate(ops, i, resolve, reg).reg.memo, e)
  {
    hide Held, Grown, Need, IsOut;
    var inst, prev := Instantiate(ops, |ops|, resolve, reg), Instantiate(ops, i, resolve, reg);
    InstantiateOk(ops, |ops|, resolve, reg);
    InstantiateOk(ops, i, resolve, reg);
    LaterIsNew(ops, i + 1, |ops|, resolve, reg);
    var j :| 0 <= j < |ops| && inst.results[j] == e;
    assert ResultOk(ops, resolve, inst, j);
    hide InstanceOk, ResultOk;
    EarlierEntry(prev.reg, TagOf(ops, i, resolve, prev.results), inst.reg, TagOf(ops, j, resolve, inst.results));
  }

  /** The inputs of call i come from processors of the table, or from outside. */
  lemma {:induction false} TagIsSourced(ops: Desc, i: nat, resolve: Name -> Epid, reg: Registry)
    requires i < |ops| && Held(reg) && NamesOk(ops, resolve, Instantiate(ops, |ops|, resolve, reg))
    requires Linked(Instantiate(ops, i, resolve, reg).reg)
    ensures var prev := Instantiate(ops, i, resolve, reg); Sourced(prev.reg, TagOf(ops, i, resolve, prev.results))
  {
    var prev := Instantiate(ops, i, resolve, reg);
    var tag := TagOf(ops, i, resolve, prev.results);
    InstantiateOk(ops, i, resolve, reg);
    if tag !in prev.reg.memo {
      forall j | 0 <= j < |tag.inputs| && Local(tag.inputs[j].epid) ensures IsOut(prev.reg.memo, tag.inputs[j].epid) {
        InputIsOut(ops, i, resolve, reg, j);
      }
    }
  }

  lemma {:induction false} InputIsOut(ops: Desc, i: nat, resolve: Name -> Epid, reg: Registry, j: nat)
    requires i < |ops| && Held(reg) && NamesOk(ops, resolve, Instantiate(ops, |ops|, resolve, reg))
    requires InstanceOk(ops, i, resolve, reg, Instantiate(ops, i, resolve, reg))
    requires var prev := Instantiate(ops, i, resolve, reg);
             var tag := TagOf(ops, i, resolve, prev.results);
             tag !in prev.reg.memo && j < |tag.inputs| && Local(tag.inputs[j].epid)
    ensures var prev := Instantiate(ops, i, resolve, reg);
            IsOut(prev.reg.memo, TagOf(ops, i, resolve, prev.results).inputs[j].epid)
  {
    hide Held, Grown;
    var a := ops[i].args[j];
    assert a in ops[i].args;
    if a.src.External? {
      EarlierIsOut(ops, i, resolve, reg, resolve(a.src.x));
    } else {
      assert ResultOk(ops, resolve, Instantiate(ops, i, resolve, reg), a.src.k);
    }
  }

  lemma {:induction false} InstantiateLinked(ops: Desc, n: nat, resolve: Name -> Epid, reg: Registry)
    requires n <= |ops| && Held(reg) && Linked(reg) && NamesOk(ops, resolve, Instantiate(ops, |ops|, resolve, reg))
    ensures Linked(Instantiate(ops, n, resolve, reg).reg)
  {
    if n == 0 {
    } else {
      hide Linked, Held, NamesOk, Need, Sourced;
      InstantiateLinked(ops, n - 1, resolve, reg);
      TagIsSourced(ops, n - 1, resolve, reg);
      var prev := Instantiate(ops, n - 1, resolve, reg);
      NeedKeepsLinked(prev.reg, TagOf(ops, n - 1, resolve, prev.results));
    }
  }

  // ---- Meaning ----

  /** What a name stands for: an external signal, or the value of the proxy's own node. */
  function Through(r: Registry, fn: Operators, ext: Epid -> Value, resolve: Name -> Epid): Name -> Value {
    x => EpidValue(r, fn, ext, resolve(x))
  }

  ghost predicate ResultsOk(ops: seq<OpCall>, resolve: Name -> Epid, inst: Instance) {
    |inst.results| == |ops| && forall k :: 0 <= k < |ops| ==> ResultOk(ops, resolve, inst, k)
  }

  lemma {:induction false} ResultValue(ops: Desc, resolve: Name -> Epid, inst: Instance, fn: Operators,
                                       ext: Epid -> Value, k: nat)
    requires k < |ops| && Linked(inst.reg) && ResultsOk(ops, resolve, inst)
    ensures EpidValue(inst.reg, fn, ext, inst.results[k]) ==
            Meaning(ops, fn, Through(inst.reg, fn, ext, resolve), |ops|)[k]
    decreases k
  {
    assert ResultOk(ops, resolve, inst, k);
    var through := Through(inst.reg, fn, ext, resolve);
    forall j | 0 <= j < k
      ensures EpidValue(inst.reg, fn, ext, inst.results[j]) == Meaning(ops, fn, through, |ops|)[j]
    {
      ResultValue(ops, resolve, inst, fn, ext, j);
    }
    WiresCarryArgs(ops[k].args, k, resolve, inst, fn, ext, Meaning(ops, fn, through, |ops|));
    EntryValue(inst.reg, fn, ext, TagOf(ops, k, resolve, inst.results));
    MeaningAt(ops, fn, through, |ops|, k);
  }

  lemma WiresCarryArgs(args: seq<Arg>, k: nat, resolve: Name -> Epid, inst: Instance, fn: Operators,
                       ext: Epid -> Value, vs: seq<Value>)
    requires k <= |inst.results| == |vs|
    requires forall a :: a in args && a.src.Result? ==> a.src.k < k
    requires forall j :: 0 <= j < k ==> EpidValue(inst.reg, fn, ext, inst.results[j]) == vs[j]
    ensures WireValues(inst.reg, fn, ext, Flatten(args, resolve, inst.results)) ==
            ArgValues(args, Through(inst.reg, fn, ext, resolve), vs)
  {
    forall i | 0 <= i < |args|
      ensures EpidValue(inst.reg, fn, ext, Flatten(args, resolve, inst.results)[i].epid)
           == SrcValue(args[i].src, Through(inst.reg, fn, ext, resolve), vs)
    {
      assert args[i] in args;
    }
  }

  /** Instantiating preserves meaning: from any earlier registry, the node returned
      for each call has that call's direct value. */
  lemma {:induction false} InstancePreservesMeaning(ops: Desc, resolve: Name -> Epid, reg: Registry, fn: Operators,
                                                    ext: Epid -> Value, k: nat)
    requires k < |ops| && Linked(reg) && NamesOk(ops, resolve, Instantiate(ops, |ops|, resolve, reg))
    ensures var inst := Instantiate(ops, |ops|, resolve, reg);
            EpidValue(inst.reg, fn, ext, inst.results[k]) ==
              Meaning(ops, fn, Through(inst.reg, fn, ext, resolve), |ops|)[k]
  {
    InstantiateOk(ops, |ops|, resolve, reg);
    InstantiateLinked(ops, |ops|, resolve, reg);
    ResultValue(ops, resolve, Instantiate(ops, |ops|, resolve, reg), fn, ext, k);
  }

  /** Sharing is exact: two calls get the same node iff they apply the same operator to the same inputs. */
  lemma {:induction false} CallsShareExactly(ops: Desc, resolve: Name -> Epid, reg: Registry, j: nat, k: nat)
    requires j < |ops| && k < |ops| && Held(reg)
    ensures var inst := Instantiate(ops, |ops|, resolve, reg);
            inst.results[j] == inst.results[k] <==>
            ops[j].op == ops[k].op
              && Flatten(ops[j].args, resolve, inst.results) == Flatten(ops[k].args, resolve, inst.results)
  {
    var inst := Instantiate(ops, |ops|, resolve, reg);
    InstantiateOk(ops, |ops|, resolve, reg);
    assert ResultOk(ops, resolve, inst, j) && ResultOk(ops, resolve, inst, k);
    OneNodePerTag(inst.reg, TagOf(ops, j, resolve, inst.results), TagOf(ops, k, resolve, inst.results));
  }

  // ---- Garbage collection ----

  /** A kept processor's local inputs are kept. */
  ghost predicate RefsClosed(r: Registry, refs: set<Epid>) {
    forall t, w :: t in r.memo && r.memo[t].out in refs && w in t.inputs && Local(w.epid) ==> w.epid in refs
  }

  lemma {:induction false} KeptInputIsKept(ops: Desc, resolve: Name -> Epid, inst: Instance, t: Tag, w: Wire)
    requires Held(inst.reg) && ResultsOk(ops, resolve, inst) && NamesOk(ops, resolve, inst)
    requires t in inst.reg.memo && inst.reg.memo[t].out in inst.results && w in t.inputs && Local(w.epid)
    ensures w.epid in inst.results
  {
    hide Held, Flatten, Local;
    var k :| 0 <= k < |ops| && inst.results[k] == inst.reg.memo[t].out;
    assert ResultOk(ops, resolve, inst, k);
    OneNodePerTag(inst.reg, t, TagOf(ops, k, resolve, inst.results));
    LocalWireIsResult(ops, k, resolve, inst, w);
  }

  lemma LocalWireIsResult(ops: Desc, k: nat, resolve: Name -> Epid, inst: Instance, w: Wire)
    requires k < |ops| == |inst.results| && NamesOk(ops, resolve, inst)
    requires w in Flatten(ops[k].args, resolve, inst.results) && Local(w.epid)
    ensures w.epid in inst.results
  {
    var args := ops[k].args;
    var i :| 0 <= i < |args| && Flatten(args, resolve, inst.results)[i] == w;
    assert args[i] in args;
  }

  lemma {:induction false} RefsAreClosed(ops: Desc, resolve: Name -> Epid, inst: Instance)
    requires Held(inst.reg) && ResultsOk(ops, resolve, inst) && NamesOk(ops, resolve, inst)
    requires inst.refs == set e | e in inst.results
    ensures RefsClosed(inst.reg, inst.refs)
  {
    hide Held, ResultsOk, NamesOk, Local;
    forall t, w | t in inst.reg.memo && inst.reg.memo[t].out in inst.refs && w in t.inputs && Local(w.epid)
      ensures w.epid in inst.refs
    {
      KeptInputIsKept(ops, resolve, inst, t, w);
    }
  }

  /** Nothing a kept entry owns is killed. */
  lemma KeptIsNotKilled(r: Registry, refs: set<Epid>, t: Tag, o: Epid)
    requires Held(r) && t in r.memo && r.memo[t].out in refs && o in Owned(r.memo[t])
    ensures o.node !in Killed(r.memo, refs)
  {
    forall u, e | u in r.memo && r.memo[u].out !in refs && e in Owned(r.memo[u]) ensures e.node != o.node {
      assert o in Owned(r.memo[t]) && e in Owned(r.memo[u]);
    }
  }

  lemma SurvivorOwned(r: Registry, refs: set<Epid>, n: nat) returns (t: Tag)
    requires Held(r) && n in Collect(r, refs).proxy.env
    ensures t in r.memo && r.memo[t].out in refs && Epid(SELF, n) in Owned(r.memo[t])
  {
    assert IsOwned(r.memo, Epid(SELF, n));
    t :| t in r.memo && Epid(SELF, n) in Owned(r.memo[t]);
    assert r.memo[t].out !in refs ==> Epid(SELF, n).node in Killed(r.memo, refs);
  }

  /** What arrives at input i of a kept processor is kept. */
  lemma {:induction false} SurvivorWire(r: Registry, refs: set<Epid>, t: Tag, i: nat, w: Wire)
    requires Linked(r) && RefsClosed(r, refs) && t in r.memo && r.memo[t].out in refs
    requires i < |t.inputs| && WireOk(r.proxy.env, r.memo[t].tmp, t.inputs[i], w) && w.epid.node in r.proxy.env
    ensures w.epid.node in Collect(r, refs).proxy.env
  {
    assert t.inputs[i] in t.inputs;
    if Local(t.inputs[i].epid) {
      assert IsOut(r.memo, w.epid);
      var u :| u in r.memo && r.memo[u].out == w.epid;
      KeptIsNotKilled(r, refs, u, w.epid);
    } else {
      KeptIsNotKilled(r, refs, t, w.epid);
    }
  }

  /** The entry that owns a surviving node, with its wires. */
  lemma {:induction false} SurvivorApp(r: Registry, refs: set<Epid>, n: nat, w: Wire)
    requires Linked(r) && RefsClosed(r, refs) && n in Collect(r, refs).proxy.env
    requires r.proxy.env[n].App? && w in r.proxy.env[n].inputs && w.epid.node in r.proxy.env
    ensures w.epid.node in Collect(r, refs).proxy.env
  {
    hide RefsClosed, Killed, WireOk, NodeOk;
    var env := r.proxy.env;
    var t := SurvivorOwned(r, refs, n);
    assert EntryOk(env, t, r.memo[t]);
    assert r.memo[t].out == Epid(SELF, n);
    var i :| 0 <= i < |env[n].inputs| && env[n].inputs[i] == w;
    assert WireOk(env, r.memo[t].tmp, t.inputs[i], env[n].inputs[i]);
    SurvivorWire(r, refs, t, i, w);
  }

  /** Every reference inside a surviving node, buffered inputs included, names a surviving node. */
  lemma {:induction false} SurvivorNodeOk(r: Registry, refs: set<Epid>, n: nat)
    requires Linked(r) && RefsClosed(r, refs) && n in Collect(r, refs).proxy.env
    ensures NodeOk(Collect(r, refs).proxy.env, n)
  {
    hide RefsClosed, Killed, EntriesOk, Apart, AllOwned, AllSourced;
    assert NodeOk(r.proxy.env, n);
    if r.proxy.env[n].App? {
      forall w | w in r.proxy.env[n].inputs ensures w.epid.node in Collect(r, refs).proxy.env {
        SurvivorApp(r, refs, n, w);
      }
    }
  }

  /** Collection keeps what it keeps with all its nodes, whatever is referenced. */
  lemma {:induction false} CollectKeepsHeld(r: Registry, refs: set<Epid>)
    requires Held(r)
    ensures Held(Collect(r, refs))
  {
    var c := Collect(r, refs);
    forall t, o | t in c.memo && o in Owned(c.memo[t]) ensures Local(o) && o.node in c.proxy.env {
      KeptIsNotKilled(r, refs, t, o);
    }
    forall n | n in c.proxy.env ensures IsOwned(c.memo, Epid(SELF, n)) {
      var t := SurvivorOwned(r, refs, n);
      assert t in c.memo && Epid(SELF, n) in Owned(c.memo[t]);
    }
  }

  lemma {:induction false} CollectKeepsLinked(r: Registry, refs: set<Epid>)
    requires Linked(r) && RefsClosed(r, refs)
    ensures Linked(Collect(r, refs))
  {
    var c := Collect(r, refs);
    CollectKeepsHeld(r, refs);
    forall n | n in c.proxy.env ensures NodeOk(c.proxy.env, n) { SurvivorNodeOk(r, refs, n); }
    forall t | t in c.memo ensures EntryOk(c.proxy.env, t, c.memo[t]) {
      assert EntryOk(r.proxy.env, t, r.memo[t]);
      forall o | o in Owned(r.memo[t]) ensures o.node in c.proxy.env { KeptIsNotKilled(r, refs, t, o); }
      EntryKept(r.proxy.env, c.proxy.env, t, r.memo[t]);
    }
    forall t, w | t in c.memo && w in t.inputs && Local(w.epid) ensures IsOut(c.memo, w.epid) {
      assert IsOut(r.memo, w.epid);
      var u :| u in r.memo && r.memo[u].out == w.epid;
      assert c.memo[u].out == w.epid;
    }
  }

  // ---- One update ----

  /** The instance an update leaves: its results, in the registry after collection. */
  function Updated(ops: seq<OpCall>, resolve: Name -> Epid, reg: Registry): (r: Instance)
    ensures |r.results| == |ops|
  {
    Instantiate(ops, |ops|, resolve, reg).(reg := UpdateDesc(reg, ops, resolve))
  }

  lemma {:induction false} UpdatedOk(ops: Desc, resolve: Name -> Epid, reg: Registry)
    requires Held(reg)
    ensures Held(UpdateDesc(reg, ops, resolve)) && ResultsOk(ops, resolve, Updated(ops, resolve, reg))
  {
    var inst := Instantiate(ops, |ops|, resolve, reg);
    InstantiateOk(ops, |ops|, resolve, reg);
    CollectKeepsHeld(inst.reg, inst.refs);
    forall k | 0 <= k < |ops| ensures ResultOk(ops, resolve, Updated(ops, resolve, reg), k) {
      assert ResultOk(ops, resolve, inst, k);
    }
  }

  /** An update leaves table and environment linked exactly if every name that
      stands for a node of the proxy stands for an earlier result of the same
      description: otherwise a processor is left reading a node that was collected,
      was never made, or comes later. */
  lemma {:induction false} UpdateLinkedExactly(ops: Desc, resolve: Name -> Epid, reg: Registry)
    requires Linked(reg)
    ensures Linked(UpdateDesc(reg, ops, resolve)) <==> NamesOk(ops, resolve, Updated(ops, resolve, reg))
  {
    var inst := Instantiate(ops, |ops|, resolve, reg);
    InstantiateOk(ops, |ops|, resolve, reg);
    if NamesOk(ops, resolve, inst) {
      InstantiateLinked(ops, |ops|, resolve, reg);
      RefsAreClosed(ops, resolve, inst);
      CollectKeepsLinked(inst.reg, inst.refs);
    }
    if Linked(UpdateDesc(reg, ops, resolve)) {
      LinkedNamesOk(ops, resolve, reg);
    }
  }

  lemma {:induction false} LinkedNamesOk(ops: Desc, resolve: Name -> Epid, reg: Registry)
    requires Held(reg) && Linked(UpdateDesc(reg, ops, resolve))
    ensures NamesOk(ops, resolve, Updated(ops, resolve, reg))
  {
    var inst, r := Updated(ops, resolve, reg), UpdateDesc(reg, ops, resolve);
    InstantiateOk(ops, |ops|, resolve, reg);
    UpdatedOk(ops, resolve, reg);
    forall i, a | 0 <= i < |ops| && a in ops[i].args && a.src.External? && Local(resolve(a.src.x))
      ensures resolve(a.src.x) in inst.results && resolve(a.src.x).node < inst.results[i].node
    {
      assert ResultOk(ops, resolve, inst, i);
      var j :| 0 <= j < |ops[i].args| && ops[i].args[j] == a;
      LinkedInput(r, TagOf(ops, i, resolve, inst.results), j);
    }
  }

  /** In a linked table a local input is an output of the table with a smaller number. */
  lemma LinkedInput(r: Registry, tag: Tag, j: nat)
    requires Linked(r) && tag in r.memo && j < |tag.inputs| && Local(tag.inputs[j].epid)
    ensures IsOut(r.memo, tag.inputs[j].epid) && tag.inputs[j].epid.node < r.memo[tag].out.node
  {
    var env, e := r.proxy.env, r.memo[tag];
    assert EntryOk(env, tag, e) && NodeOk(env, e.out.node);
    assert WireOk(env, e.tmp, tag.inputs[j], env[e.out.node].inputs[j]);
    assert tag.inputs[j] in tag.inputs && env[e.out.node].inputs[j] in env[e.out.node].inputs;
  }

  lemma EmptyIsLinked()
    ensures Linked(EMPTY)
  {
  }

  /** The smallest description that breaks it: one operator that reads a node of the
      empty proxy, whichever.  Its processor is left reading a node that is not there,
      or itself. */
  lemma {:induction false} LocalNameBreaks(e: Epid)
    requires Local(e)
    ensures var ops: Desc := [OpCall(0, [Arg(0, External(0))])];
            !NamesOk(ops, _ => e, Updated(ops, _ => e, EMPTY)) && !Linked(UpdateDesc(EMPTY, ops, _ => e))
  {
    var ops: Desc := [OpCall(0, [Arg(0, External(0))])];
    var resolve: Name -> Epid := _ => e;
    EmptyIsLinked();
    UpdateLinkedExactly(ops, resolve, EMPTY);
    assert Instantiate(ops, 0, resolve, EMPTY) == Instance([], {}, EMPTY);
    var ws := Flatten(ops[0].args, resolve, []);
    assert ws == [Wire(0, e)] && ws[..0] == [];
    var none: seq<Wire> := [];
    assert CompileInputs(none, EMPTY.proxy) == (none, EMPTY.proxy, []);
    assert CompileInputs(ws, EMPTY.proxy) == (none + [ws[0]], EMPTY.proxy, []);
    var inst := Updated(ops, resolve, EMPTY);
    assert inst.results == [Epid(SELF, 0)];
    assert ops[0].args[0] in ops[0].args;
    assert !NameOk(inst, inst.results[0], resolve(0));
  }

  /** Updating preserves meaning, through collection: in the environment that is
      left, the node returned for each call has that call's direct value. */
  lemma {:induction false} UpdatePreservesMeaning(ops: Desc, resolve: Name -> Epid, reg: Registry, fn: Operators,
                                                  ext: Epid -> Value, k: nat)
    requires k < |ops| && Linked(reg) && NamesOk(ops, resolve, Updated(ops, resolve, reg))
    ensures var inst := Updated(ops, resolve, reg);
            EpidValue(inst.reg, fn, ext, inst.results[k]) ==
              Meaning(ops, fn, Through(inst.reg, fn, ext, resolve), |ops|)[k]
  {
    UpdateLinkedExactly(ops, resolve, reg);
    UpdatedOk(ops, resolve, reg);
    ResultValue(ops, resolve, Updated(ops, resolve, reg), fn, ext, k);
  }

  // ---- Sequences of updates ----

  datatype Revision = Revision(ops: Desc, resolve: Name -> Epid)

  function History(revs: seq<Revision>): Registry {
    if revs == [] then EMPTY
    else
      var last := revs[|revs| - 1];
      UpdateDesc(History(revs[..|revs| - 1]), last.ops, last.resolve)
  }

  /** The instance the last revision leaves. */
  function Current(revs: seq<Revision>): (r: Instance)
    requires revs != []
    ensures |r.results| == |revs[|revs| - 1].ops|
  {
    var last := revs[|revs| - 1];
    Updated(last.ops, last.resolve, History(revs[..|revs| - 1]))
  }

  /** At every revision, names of the proxy's own nodes are those of earlier results. */
  ghost predicate HistoryOk(revs: seq<Revision>) {
    revs != [] ==>
      && HistoryOk(revs[..|revs| - 1])
      && NamesOk(revs[|revs| - 1].ops, revs[|revs| - 1].resolve, Current(revs))
  }

  lemma {:induction false} HistoryHeld(revs: seq<Revision>)
    ensures Held(History(revs))
  {
    if revs == [] {
    } else {
      var before, last := revs[..|revs| - 1], revs[|revs| - 1];
      HistoryHeld(before);
      UpdatedOk(last.ops, last.resolve, History(before));
    }
  }

  /** Over any sequence of updates, table and environment stay linked, so that no
      surviving node refers to a node that was collected, exactly if at every
      revision local names are those of earlier results. */
  lemma {:induction false} HistoryLinked(revs: seq<Revision>)
    ensures HistoryOk(revs) <==> forall n :: 0 <= n <= |revs| ==> Linked(History(revs[..n]))
  {
    hide Linked, NamesOk, UpdateDesc, Instantiate;
    if revs == [] {
      assert revs[..0] == [];
      EmptyIsLinked();
    } else {
      var before, last := revs[..|revs| - 1], revs[|revs| - 1];
      HistoryLinked(before);
      assert forall n :: 0 <= n <= |before| ==> before[..n] == revs[..n];
      assert revs[..|revs|] == revs && revs[..|before|] == before == before[..|before|];
      if Linked(History(before)) { UpdateLinkedExactly(last.ops, last.resolve, History(before)); }
    }
  }

  lemma HistoryIsLinked(revs: seq<Revision>)
    requires HistoryOk(revs)
    ensures Linked(History(revs))
  {
    HistoryLinked(revs);
    assert revs[..|revs|] == revs;
  }

  /** After an update the table holds exactly the processors of the current
      description: one entry per distinct result, and none besides. */
  lemma {:induction false} TableIsCurrent(revs: seq<Revision>, e: Epid)
    requires revs != []
    ensures IsOut(History(revs).memo, e) <==> e in Current(revs).results
  {
    var before, last := revs[..|revs| - 1], revs[|revs| - 1];
    HistoryHeld(before);
    InstantiateOk(last.ops, |last.ops|, last.resolve, History(before));
    UpdatedOk(last.ops, last.resolve, History(before));
    var inst := Current(revs);
    if e in inst.results {
      var k :| 0 <= k < |inst.results| && inst.results[k] == e;
      assert ResultOk(last.ops, last.resolve, inst, k);
      assert History(revs).memo[TagOf(last.ops, k, last.resolve, inst.results)].out == e;
    }
  }

  /** And the environment holds exactly those processors and their buffers. */
  lemma {:induction false} EnvironmentIsCurrent(revs: seq<Revision>, n: nat)
    ensures n in History(revs).proxy.env <==> IsOwned(History(revs).memo, Epid(SELF, n))
  {
    HistoryHeld(revs);
  }

  /** After any sequence of updates and collections, the nodes of the current
      description have its values. */
  lemma HistoryPreservesMeaning(revs: seq<Revision>, fn: Operators, ext: Epid -> Value, k: nat)
    requires revs != [] && HistoryOk(revs) && k < |revs[|revs| - 1].ops|
    ensures var last, inst := revs[|revs| - 1], Current(revs);
            inst.reg == History(revs) &&
            EpidValue(inst.reg, fn, ext, inst.results[k]) ==
              Meaning(last.ops, fn, Through(inst.reg, fn, ext, last.resolve), |last.ops|)[k]
  {
    var before, last := revs[..|revs| - 1], revs[|revs| - 1];
    HistoryIsLinked(before);
    UpdatePreservesMeaning(last.ops, last.resolve, History(before), fn, ext, k);
  }

  // ---- Numbers are not used again ----

  /** What p had is kept or dropped, and what p' has besides has a number p had not used. */
  ghost predicate Later(p: Proxy, p': Proxy) {
    p.count <= p'.count && forall n :: n in p'.env && n < p.count ==> n in p.env && p'.env[n] == p.env[n]
  }

  lemma NeedIsLater(r: Registry, tag: Tag)
    requires Held(r)
    ensures Later(r.proxy, Need(r, tag).1.proxy)
  {
    HandleAppAdds(r.proxy, tag.op, tag.inputs);
  }

  lemma {:induction false} InstantiateIsLater(ops: Desc, n: nat, resolve: Name -> Epid, reg: Registry)
    requires n <= |ops| && Held(reg)
    ensures Later(reg.proxy, Instantiate(ops, n, resolve, reg).reg.proxy)
  {
    if n > 0 {
      InstantiateIsLater(ops, n - 1, resolve, reg);
      InstantiateOk(ops, n - 1, resolve, reg);
      var prev := Instantiate(ops, n - 1, resolve, reg);
      NeedIsLater(prev.reg, TagOf(ops, n - 1, resolve, prev.results));
      hide Need;
    }
  }

  /** A node number that was used and collected is never given to another node, so that
      an epid kept from an older revision is that node or none. */
  lemma {:induction false} NumbersStayDead(revs: seq<Revision>, i: nat)
    requires i <= |revs|
    ensures Later(History(revs[..i]).proxy, History(revs).proxy)
  {
    if i == |revs| {
      assert revs[..i] == revs;
    } else {
      var before, last := revs[..|revs| - 1], revs[|revs| - 1];
      assert before[..i] == revs[..i];
      NumbersStayDead(before, i);
      HistoryHeld(before);
      InstantiateIsLater(last.ops, |last.ops|, last.resolve, History(before));
    }
  }

  // ---- Names of other processes only ----

  /** A revision whose names are all those of other processes. */
  ghost predicate Outside(rev: Revision) {
    forall x :: !Local(rev.resolve(x))
  }

  /** Which a caller can see before the update; then there is nothing else to ask for. */
  lemma {:induction false} OutsideIsOk(revs: seq<Revision>)
    requires forall i :: 0 <= i < |revs| ==> Outside(revs[i])
    ensures HistoryOk(revs)
  {
    if revs == [] {
    } else {
      OutsideIsOk(revs[..|revs| - 1]);
      assert Outside(revs[|revs| - 1]);
    }
  }

  lemma {:induction false} SameMeaning(ops: Desc, fn: Operators, a: Name -> Value, b: Name -> Value, n: nat)
    requires n <= |ops| && forall x :: a(x) == b(x)
    ensures Meaning(ops, fn, a, n) == Meaning(ops, fn, b, n)
  {
    if n == 0 {
    } else {
      SameMeaning(ops, fn, a, b, n - 1);
      var args, vs := ops[n - 1].args, Meaning(ops, fn, a, n - 1);
      assert ArgValues(args, a, vs) == ArgValues(args, b, vs);
    }
  }

  /** With such names, the nodes of the current description have its values on what
      the other processes send, after any sequence of updates and collections. */
  lemma OutsidePreservesMeaning(revs: seq<Revision>, fn: Operators, ext: Epid -> Value, k: nat)
    requires revs != [] && k < |revs[|revs| - 1].ops| && forall i :: 0 <= i < |revs| ==> Outside(revs[i])
    ensures var last := revs[|revs| - 1];
            EpidValue(History(revs), fn, ext, Current(revs).results[k]) ==
              Meaning(last.ops, fn, x => ext(last.resolve(x)), |last.ops|)[k]
  {
    var last := revs[|revs| - 1];
    OutsideIsOk(revs);
    HistoryPreservesMeaning(revs, fn, ext, k);
    assert Outside(last);
    SameMeaning(last.ops, fn, Through(History(revs), fn, ext, last.resolve), x => ext(last.resolve(x)), |last.ops|);
  }
}
