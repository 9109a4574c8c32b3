/** Instantiating a description on a proxy (src/epid_app.erl, src/epid_dag.erl):
    the memo table of processors, the proxy's numbered node environment, the
    buffers it inserts for external inputs, and garbage collection. */
module EpidApp {
  import opened Dataflow

  type Pid = nat

  /** The proxy whose environment is modelled; epids of other pids are external. */
  const SELF: Pid := 0

  datatype Epid = Epid(pid: Pid, node: nat)

  datatype Wire = Wire(name: Key, epid: Epid)

  /** Node of the environment: an input buffer for an external epid, or a processor. */
  datatype EnvNode = Buffer(src: Epid) | App(op: Op, inputs: seq<Wire>)

  datatype Proxy = Proxy(count: nat, env: map<nat, EnvNode>)

  predicate Local(e: Epid) {
    e.pid == SELF
  }

  // ---- The proxy: handle_epid_app ----

  /** compile_app: allocate the next node number. */
  function AddNode(p: Proxy, n: EnvNode): (Epid, Proxy) {
    (Epid(SELF, p.count), Proxy(p.count + 1, p.env[p.count := n]))
  }

  /** compile_inputs: replace every external input by a fresh buffer node. */
  function CompileInputs(ws: seq<Wire>, p: Proxy): (seq<Wire>, Proxy, seq<Epid>) {
    if ws == [] then ([], p, [])
    else
      var (ins, p1, tmp) := CompileInputs(ws[..|ws| - 1], p);
      var last := ws[|ws| - 1];
      if Local(last.epid) then (ins + [last], p1, tmp)
      else
        var (b, p2) := AddNode(p1, Buffer(last.epid));
        (ins + [Wire(last.name, b)], p2, [b] + tmp)
  }

  datatype Entry = Entry(out: Epid, tmp: seq<Epid>)

  function HandleApp(p: Proxy, op: Op, ws: seq<Wire>): (Entry, Proxy) {
    var (ins, p1, tmp) := CompileInputs(ws, p);
    var (out, p2) := AddNode(p1, App(op, ins));
    (Entry(out, tmp), p2)
  }

  // ---- The memo table ----

  datatype Tag = Tag(op: Op, inputs: seq<Wire>)

  datatype Registry = Registry(memo: map<Tag, Entry>, proxy: Proxy)

  const EMPTY := Registry(map[], Proxy(0, map[]))

  /** {need, {epid_app, Tag}}: reuse a processor or make one. */
  function Need(r: Registry, tag: Tag): (Epid, Registry) {
    if tag in r.memo then (r.memo[tag].out, r)
    else
      var (entry, proxy) := HandleApp(r.proxy, tag.op, tag.inputs);
      (entry.out, Registry(r.memo[tag := entry], proxy))
  }

  /** MakeEpid: a name becomes its external epid, a result is one already. */
  function EpidOf(src: Src, resolve: Name -> Epid, results: seq<Epid>): Epid {
    match src
    case External(x) => resolve(x)
    case Result(k) => if k < |results| then results[k] else resolve(0)
  }

  function Flatten(args: seq<Arg>, resolve: Name -> Epid, results: seq<Epid>): (ws: seq<Wire>)
    ensures |ws| == |args|
  {
    seq(|args|, i requires 0 <= i < |args| => Wire(args[i].name, EpidOf(args[i].src, resolve, results)))
  }

  datatype Instance = Instance(results: seq<Epid>, refs: set<Epid>, reg: Registry)

  /** Run the first n operator calls of a description through bind. */
  function Instantiate(ops: seq<OpCall>, n: nat, resolve: Name -> Epid, reg: Registry): (r: Instance)
    requires n <= |ops|
    ensures |r.results| == n
  {
    if n == 0 then Instance([], {}, reg)
    else
      var prev := Instantiate(ops, n - 1, resolve, reg);
      var tag := Tag(ops[n - 1].op, Flatten(ops[n - 1].args, resolve, prev.results));
      var (out, reg') := Need(prev.reg, tag);
      Instance(prev.results + [out], prev.refs + {out}, reg')
  }

  // ---- Garbage collection ----

  /** The epids killed with an entry: its output and its input buffers. */
  function Owned(e: Entry): set<Epid> {
    {e.out} + set t | t in e.tmp
  }

  function Killed(memo: map<Tag, Entry>, refs: set<Epid>): set<nat> {
    set tag, e | tag in memo && memo[tag].out !in refs && e in Owned(memo[tag]) :: e.node
  }

  /** collect_garbage: drop and kill every entry whose output is not referenced. */
  function Collect(r: Registry, refs: set<Epid>): Registry {
    Registry(
      map tag | tag in r.memo && r.memo[tag].out in refs :: r.memo[tag],
      Proxy(r.proxy.count, r.proxy.env - Killed(r.memo, refs)))
  }

  /** epid_app:update. */
  function UpdateDesc(r: Registry, ops: seq<OpCall>, resolve: Name -> Epid): Registry {
    var inst := Instantiate(ops, |ops|, resolve, r);
    Collect(inst.reg, inst.refs)
  }

  // ---- Invariant ----

  ghost predicate NodeOk(env: map<nat, EnvNode>, n: nat)
    requires n in env
  {
    match env[n]
    case Buffer(src) => !Local(src)
    case App(_, ins) => forall w :: w in ins ==> Local(w.epid) && w.epid.node in env && w.epid.node < n
  }

  /** Definition before use: nodes are below the counter and read smaller, existing nodes. */
  ghost predicate WellNumbered(p: Proxy) {
    forall n :: n in p.env ==> n < p.count && NodeOk(p.env, n)
  }

  /** Input i of the tag arrives at the processor: directly if local, through a buffer otherwise. */
  ghost predicate WireOk(env: map<nat, EnvNode>, tmp: seq<Epid>, given: Wire, used: Wire) {
    && used.name == given.name
    && if Local(given.epid) then used.epid == given.epid
       else used.epid in tmp && used.epid.node in env && env[used.epid.node] == Buffer(given.epid)
  }

  ghost predicate EntryOk(env: map<nat, EnvNode>, tag: Tag, e: Entry) {
    && Local(e.out) && e.out.node in env && env[e.out.node].App? && env[e.out.node].op == tag.op
    && (forall t :: t in e.tmp ==> Local(t) && t.node in env && env[t.node].Buffer?)
    && var ins := env[e.out.node].inputs;
       |ins| == |tag.inputs| && forall i :: 0 <= i < |ins| ==> WireOk(env, e.tmp, tag.inputs[i], ins[i])
  }

  ghost predicate IsOut(memo: map<Tag, Entry>, e: Epid) {
    exists t :: t in memo && memo[t].out == e
  }

  ghost predicate IsOwned(memo: map<Tag, Entry>, e: Epid) {
    exists t :: t in memo && e in Owned(memo[t])
  }

  ghost predicate EntriesOk(r: Registry) {
    forall t :: t in r.memo ==> EntryOk(r.proxy.env, t, r.memo[t])
  }

  ghost predicate Apart(memo: map<Tag, Entry>) {
    forall t, u :: t in memo && u in memo && t != u ==> Owned(memo[t]) !! Owned(memo[u])
  }

  ghost predicate AllOwned(r: Registry) {
    forall n :: n in r.proxy.env ==> IsOwned(r.memo, Epid(SELF, n))
  }

  ghost predicate AllSourced(memo: map<Tag, Entry>) {
    forall t, w :: t in memo && w in t.inputs && Local(w.epid) ==> IsOut(memo, w.epid)
  }

  /** The table owns exactly the nodes there are, and no two entries share one. */
  ghost predicate Held(r: Registry) {
    && (forall n :: n in r.proxy.env ==> n < r.proxy.count)
    && (forall t, o :: t in r.memo && o in Owned(r.memo[t]) ==> Local(o) && o.node in r.proxy.env)
    && Apart(r.memo) && AllOwned(r)
  }

  /** The memo table and the environment describe each other exactly: every entry
      has its nodes, every node belongs to one entry, local inputs are outputs. */
  ghost predicate Linked(r: Registry) {
    Held(r) && WellNumbered(r.proxy) && EntriesOk(r) && AllSourced(r.memo)
  }

  ghost predicate Extends(p: Proxy, p': Proxy) {
    p.count <= p'.count && forall n :: n in p.env ==> n in p'.env && p'.env[n] == p.env[n]
  }

  // ---- Adding a processor ----

  /** What compile_inputs promises: nothing old is touched, what is new is a
      buffer listed in tmp, and every input arrives. */
  ghost predicate Compiled(p: Proxy, ws: seq<Wire>, ins: seq<Wire>, p': Proxy, tmp: seq<Epid>) {
    && WellNumbered(p') && Extends(p, p') && |ins| == |ws|
    && (forall t :: t in tmp ==> Local(t) && p.count <= t.node && t.node in p'.env && p'.env[t.node].Buffer?)
    && (forall n :: n in p'.env && n !in p.env ==> Epid(SELF, n) in tmp)
    && (forall i :: 0 <= i < |ws| ==> WireOk(p'.env, tmp, ws[i], ins[i]))
    && (forall i :: 0 <= i < |ws| ==> Local(ins[i].epid) && ins[i].epid.node in p'.env)
  }

  lemma AddBuffer(p: Proxy, ws: seq<Wire>, ins: seq<Wire>, p1: Proxy, tmp: seq<Epid>, last: Wire)
    requires Compiled(p, ws, ins, p1, tmp) && !Local(last.epid)
    ensures var (b, p2) := AddNode(p1, Buffer(last.epid));
            Compiled(p, ws + [last], ins + [Wire(last.name, b)], p2, [b] + tmp)
  {
    var (b, p2) := AddNode(p1, Buffer(last.epid));
    assert b !in tmp;
    forall n | n in p2.env ensures n < p2.count && NodeOk(p2.env, n) {
      if n in p1.env { assert NodeOk(p1.env, n); }
    }
    var ws', ins', tmp' := ws + [last], ins + [Wire(last.name, b)], [b] + tmp;
    forall i | 0 <= i < |ws'|
      ensures WireOk(p2.env, tmp', ws'[i], ins'[i]) && Local(ins'[i].epid) && ins'[i].epid.node in p2.env
    {
      if i < |ws| { assert WireOk(p1.env, tmp, ws[i], ins[i]); }
    }
  }

  lemma AddDirect(p: Proxy, ws: seq<Wire>, ins: seq<Wire>, p1: Proxy, tmp: seq<Epid>, last: Wire)
    requires Compiled(p, ws, ins, p1, tmp) && Local(last.epid) && last.epid.node in p.env
    ensures Compiled(p, ws + [last], ins + [last], p1, tmp)
  {
    var ws', ins' := ws + [last], ins + [last];
    forall i | 0 <= i < |ws'|
      ensures WireOk(p1.env, tmp, ws'[i], ins'[i]) && Local(ins'[i].epid) && ins'[i].epid.node in p1.env
    {
      if i < |ws| { assert WireOk(p1.env, tmp, ws[i], ins[i]); }
    }
  }

  lemma {:induction false} CompileInputsOk(ws: seq<Wire>, p: Proxy)
    requires WellNumbered(p) && forall w :: w in ws && Local(w.epid) ==> w.epid.node in p.env
    ensures var (ins, p', tmp) := CompileInputs(ws, p); Compiled(p, ws, ins, p', tmp)
  {
    if ws == [] {
    } else {
      var front, last := ws[..|ws| - 1], ws[|ws| - 1];
      assert ws == front + [last];
      CompileInputsOk(front, p);
      var (ins, p1, tmp) := CompileInputs(front, p);
      if Local(last.epid) { AddDirect(p, front, ins, p1, tmp, last); } else { AddBuffer(p, front, ins, p1, tmp, last); }
    }
  }

  /** What handle_epid_app promises for a new tag. */
  ghost predicate Added(p: Proxy, tag: Tag, e: Entry, p': Proxy) {
    && WellNumbered(p') && Extends(p, p') && EntryOk(p'.env, tag, e)
    && (forall o :: o in Owned(e) ==> p.count <= o.node)
    && (forall n :: n in p'.env && n !in p.env ==> Epid(SELF, n) in Owned(e))
  }

  lemma AppIsNumbered(p: Proxy, tag: Tag, ins: seq<Wire>, p1: Proxy, tmp: seq<Epid>)
    requires Compiled(p, tag.inputs, ins, p1, tmp)
    ensures WellNumbered(AddNode(p1, App(tag.op, ins)).1)
  {
    var p' := AddNode(p1, App(tag.op, ins)).1;
    forall n | n in p'.env ensures n < p'.count && NodeOk(p'.env, n) {
      if n in p1.env {
        assert NodeOk(p1.env, n);
      } else {
        forall w | w in ins ensures Local(w.epid) && w.epid.node in p1.env {
          var i :| 0 <= i < |ins| && ins[i] == w;
        }
      }
    }
  }

  lemma AddApp(p: Proxy, tag: Tag, ins: seq<Wire>, p1: Proxy, tmp: seq<Epid>)
    requires Compiled(p, tag.inputs, ins, p1, tmp)
    ensures var (out, p') := AddNode(p1, App(tag.op, ins)); Added(p, tag, Entry(out, tmp), p')
  {
    AppIsNumbered(p, tag, ins, p1, tmp);
    var (out, p') := AddNode(p1, App(tag.op, ins));
    assert EntryOk(p'.env, tag, Entry(out, tmp)) by {
      forall i | 0 <= i < |ins| ensures WireOk(p'.env, tmp, tag.inputs[i], ins[i]) {
        assert WireOk(p1.env, tmp, tag.inputs[i], ins[i]);
      }
    }
  }

  lemma HandleAppOk(p: Proxy, tag: Tag)
    requires WellNumbered(p) && forall w :: w in tag.inputs && Local(w.epid) ==> w.epid.node in p.env
    ensures var (e, p') := HandleApp(p, tag.op, tag.inputs); Added(p, tag, e, p')
  {
    CompileInputsOk(tag.inputs, p);
    var (ins, p1, tmp) := CompileInputs(tag.inputs, p);
    AddApp(p, tag, ins, p1, tmp);
  }

  // ---- What holds whatever the inputs name ----

  /** Only the listed nodes are new, and nothing old is touched. */
  ghost predicate Adds(p: Proxy, p': Proxy, added: set<Epid>) {
    && Extends(p, p') && (forall n :: n in p'.env ==> n < p'.count)
    && (forall o :: o in added ==> Local(o) && p.count <= o.node && o.node in p'.env)
    && (forall n :: n in p'.env && n !in p.env ==> Epid(SELF, n) in added)
  }

  lemma {:induction false} CompileInputsAdds(ws: seq<Wire>, p: Proxy)
    requires forall n :: n in p.env ==> n < p.count
    ensures var (_, p', tmp) := CompileInputs(ws, p); Adds(p, p', set t | t in tmp)
  {
    if ws == [] {
    } else {
      CompileInputsAdds(ws[..|ws| - 1], p);
    }
  }

  lemma HandleAppAdds(p: Proxy, op: Op, ws: seq<Wire>)
    requires forall n :: n in p.env ==> n < p.count
    ensures var (e, p') := HandleApp(p, op, ws); Adds(p, p', Owned(e)) && e.out.node < p'.count
    ensures var (e, p') := HandleApp(p, op, ws); forall o :: o in Owned(e) ==> o.node <= e.out.node
  {
    CompileInputsAdds(ws, p);
  }

  /** The later table knows all the earlier one did, unchanged, and what is new in it has a new node. */
  ghost predicate Grown(r: Registry, r': Registry) {
    && Extends(r.proxy, r'.proxy)
    && (forall t :: t in r.memo ==> t in r'.memo && r'.memo[t] == r.memo[t])
    && (forall t :: t in r'.memo ==> t in r.memo || r.proxy.count <= r'.memo[t].out.node)
  }

  /** `need` lists the tag, whatever its inputs are. */
  lemma {:induction false} NeedKeepsHeld(r: Registry, tag: Tag)
    requires Held(r)
    ensures var (out, r') := Need(r, tag);
            Held(r') && Grown(r, r') && tag in r'.memo && r'.memo[tag].out == out && out.node < r'.proxy.count
  {
    if tag in r.memo {
      assert r.memo[tag].out in Owned(r.memo[tag]);
    } else {
      HandleAppAdds(r.proxy, tag.op, tag.inputs);
      var (entry, proxy) := HandleApp(r.proxy, tag.op, tag.inputs);
      AddedKeepsHeld(r, tag, entry, proxy);
    }
  }

  lemma AddedKeepsHeld(r: Registry, tag: Tag, entry: Entry, proxy: Proxy)
    requires Held(r) && tag !in r.memo && Adds(r.proxy, proxy, Owned(entry))
    ensures Held(Registry(r.memo[tag := entry], proxy)) && Grown(r, Registry(r.memo[tag := entry], proxy))
  {
    assert entry.out in Owned(entry);
    forall t | t in r.memo ensures Owned(r.memo[t]) !! Owned(entry) {
      forall o | o in Owned(r.memo[t]) ensures o !in Owned(entry) {}
    }
    hide Owned, IsOwned;
    forall n | n in proxy.env ensures IsOwned(r.memo[tag := entry], Epid(SELF, n)) {
      AddedIsOwned(r, tag, entry, proxy, n);
    }
  }

  lemma AddedIsOwned(r: Registry, tag: Tag, entry: Entry, proxy: Proxy, n: nat)
    requires Held(r) && tag !in r.memo && Adds(r.proxy, proxy, Owned(entry)) && n in proxy.env
    ensures IsOwned(r.memo[tag := entry], Epid(SELF, n))
  {
    var memo' := r.memo[tag := entry];
    if n in r.proxy.env {
      assert IsOwned(r.memo, Epid(SELF, n));
      var t :| t in r.memo && Epid(SELF, n) in Owned(r.memo[t]);
      assert t in memo' && memo'[t] == r.memo[t];
    } else {
      assert tag in memo' && Epid(SELF, n) in Owned(memo'[tag]);
    }
  }

  // ---- Keeping table and environment linked ----

  /** The inputs of a tag come from processors of the table, or from outside. */
  ghost predicate Sourced(r: Registry, tag: Tag) {
    forall w :: w in tag.inputs && Local(w.epid) ==> IsOut(r.memo, w.epid)
  }

  lemma OutInEnv(r: Registry, e: Epid)
    requires Linked(r) && IsOut(r.memo, e)
    ensures Local(e) && e.node in r.proxy.env && r.proxy.env[e.node].App?
  {
    var t :| t in r.memo && r.memo[t].out == e;
    assert EntryOk(r.proxy.env, t, r.memo[t]);
  }

  lemma EntryKept(env: map<nat, EnvNode>, env': map<nat, EnvNode>, tag: Tag, e: Entry)
    requires EntryOk(env, tag, e)
    requires forall o :: o in Owned(e) ==> o.node in env' && env'[o.node] == env[o.node]
    ensures EntryOk(env', tag, e)
  {
    var ins := env[e.out.node].inputs;
    forall i | 0 <= i < |ins| ensures WireOk(env', e.tmp, tag.inputs[i], ins[i]) {
      assert WireOk(env, e.tmp, tag.inputs[i], ins[i]);
      if !Local(tag.inputs[i].epid) { assert ins[i].epid in Owned(e); }
    }
  }

  lemma NeedKeepsLinked(r: Registry, tag: Tag)
    requires Linked(r) && Sourced(r, tag)
    ensures Linked(Need(r, tag).1)
  {
    if tag !in r.memo {
      NeedKeepsHeld(r, tag);
      forall w | w in tag.inputs && Local(w.epid) ensures w.epid.node in r.proxy.env { OutInEnv(r, w.epid); }
      HandleAppOk(r.proxy, tag);
      var (entry, proxy) := HandleApp(r.proxy, tag.op, tag.inputs);
      AddedKeepsLinked(r, tag, entry, proxy);
    }
  }

  lemma AddedKeepsEntry(r: Registry, tag: Tag, entry: Entry, proxy: Proxy, t: Tag)
    requires Linked(r) && Added(r.proxy, tag, entry, proxy) && t in r.memo
    ensures EntryOk(proxy.env, t, r.memo[t])
  {
    assert EntryOk(r.proxy.env, t, r.memo[t]);
    EntryKept(r.proxy.env, proxy.env, t, r.memo[t]);
  }

  lemma AddedIsSourced(r: Registry, tag: Tag, entry: Entry, t: Tag, w: Wire)
    requires Linked(r) && Sourced(r, tag) && tag !in r.memo
    requires t in r.memo[tag := entry] && w in t.inputs && Local(w.epid)
    ensures IsOut(r.memo[tag := entry], w.epid)
  {
    assert IsOut(r.memo, w.epid);
    var u :| u in r.memo && r.memo[u].out == w.epid;
    assert r.memo[tag := entry][u].out == w.epid;
  }

  lemma AddedKeepsLinked(r: Registry, tag: Tag, entry: Entry, proxy: Proxy)
    requires Linked(r) && Sourced(r, tag) && tag !in r.memo && Added(r.proxy, tag, entry, proxy)
    requires Held(Registry(r.memo[tag := entry], proxy))
    ensures Linked(Registry(r.memo[tag := entry], proxy))
  {
    var r' := Registry(r.memo[tag := entry], proxy);
    forall t | t in r.memo ensures EntryOk(proxy.env, t, r.memo[t]) { AddedKeepsEntry(r, tag, entry, proxy, t); }
    forall t, w | t in r'.memo && w in t.inputs && Local(w.epid) ensures IsOut(r'.memo, w.epid) {
      AddedIsSourced(r, tag, entry, t, w);
    }
  }

  /** Memoisation is exact: in any registry, two tags share a processor iff they are equal. */
  lemma OneNodePerTag(r: Registry, t: Tag, u: Tag)
    requires Held(r) && t in r.memo && u in r.memo
    ensures r.memo[t].out == r.memo[u].out <==> t == u
  {
    if t != u {
      assert r.memo[t].out in Owned(r.memo[t]) && r.memo[u].out in Owned(r.memo[u]);
    }
  }
}
