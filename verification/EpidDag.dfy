/** The graph behind the generated code (src/epid_dag.erl): splitting the
    environment into inputs and processors, and the sensitivity of each processor. */
module EpidDag {
  import opened Dataflow
  import opened EpidApp
  import opened Bits

  type Env = map<nat, EnvNode>

  // ---- internalize: inputs and processors in node order ----

  datatype InputNode = InputNode(node: nat, src: Epid)

  datatype InNode = InNode(name: Key, node: nat)

  datatype Proc = Proc(node: nat, op: Op, ins: seq<InNode>)

  function InNodes(ws: seq<Wire>): (r: seq<InNode>)
    ensures |r| == |ws|
  {
    seq(|ws|, i requires 0 <= i < |ws| => InNode(ws[i].name, ws[i].epid.node))
  }

  /** The input buffers with node number below n. */
  function Inputs(env: Env, n: nat): seq<InputNode> {
    if n == 0 then []
    else Inputs(env, n - 1) + if n - 1 in env && env[n - 1].Buffer? then [InputNode(n - 1, env[n - 1].src)] else []
  }

  /** The processors with node number below n. */
  function Procs(env: Env, n: nat): seq<Proc> {
    if n == 0 then []
    else
      Procs(env, n - 1) +
      if n - 1 in env && env[n - 1].App? then [Proc(n - 1, env[n - 1].op, InNodes(env[n - 1].inputs))] else []
  }

  ghost predicate IsInput(env: Env, n: nat, i: InputNode) {
    i.node < n && i.node in env && env[i.node] == Buffer(i.src)
  }

  /** The inputs in increasing node order, all of them. */
  ghost predicate AreInputs(env: Env, n: nat, ins: seq<InputNode>) {
    && (forall i :: 0 <= i < |ins| ==> IsInput(env, n, ins[i]))
    && (forall i, j :: 0 <= i < j < |ins| ==> ins[i].node < ins[j].node)
    && (forall i :: IsInput(env, n, i) ==> i in ins)
  }

  lemma {:induction false} InputsAre(env: Env, n: nat)
    ensures AreInputs(env, n, Inputs(env, n))
  {
    if n == 0 {
    } else {
      InputsAre(env, n - 1);
      var ins, prev := Inputs(env, n), Inputs(env, n - 1);
      assert forall i :: 0 <= i < |prev| ==> ins[i] == prev[i] && IsInput(env, n - 1, prev[i]);
      forall i | IsInput(env, n, i) ensures i in ins {
        if i.node < n - 1 { assert IsInput(env, n - 1, i); }
      }
    }
  }

  /** Position of a node among the inputs; |inputs| if it is not one. */
  function IndexOf(inputs: seq<InputNode>, n: nat): (i: nat)
    ensures i <= |inputs|
    ensures i < |inputs| ==> inputs[i].node == n
    ensures i == |inputs| ==> forall j :: 0 <= j < |inputs| ==> inputs[j].node != n
  {
    if inputs == [] then 0 else if inputs[0].node == n then 0 else 1 + IndexOf(inputs[1..], n)
  }

  // ---- subgraphs: one pass over the processors ----

  type DepTable = map<nat, set<nat>>

  function DepsAt(deps: DepTable, n: nat): set<nat> {
    if n in deps then deps[n] else {}
  }

  function NodeDeps(ins: seq<InNode>, deps: DepTable): set<nat> {
    if ins == [] then {} else {ins[0].node} + DepsAt(deps, ins[0].node) + NodeDeps(ins[1..], deps)
  }

  /** The fold of subgraphs/1 over the processors of number below n. */
  function AllDeps(env: Env, n: nat): DepTable {
    if n == 0 then map[]
    else
      var deps := AllDeps(env, n - 1);
      if n - 1 in env && env[n - 1].App? then deps[n - 1 := NodeDeps(InNodes(env[n - 1].inputs), deps)] else deps
  }

  /** Node n reads node b, directly or through other processors. */
  predicate DependsOn(env: Env, n: nat, b: nat)
    decreases n
  {
    n in env && env[n].App? &&
    exists i :: 0 <= i < |env[n].inputs| &&
      var m := env[n].inputs[i].epid.node; m == b || (m < n && DependsOn(env, m, b))
  }

  lemma {:induction false} NodeDepsAre(ins: seq<InNode>, deps: DepTable, b: nat)
    ensures b in NodeDeps(ins, deps) <==>
            exists i :: 0 <= i < |ins| && (ins[i].node == b || b in DepsAt(deps, ins[i].node))
  {
    if ins == [] {
    } else {
      NodeDepsAre(ins[1..], deps, b);
      if i :| 0 <= i < |ins| && (ins[i].node == b || b in DepsAt(deps, ins[i].node)) {
        if i > 0 { assert ins[1..][i - 1] == ins[i]; }
      }
      if i :| 0 <= i < |ins[1..]| && (ins[1..][i].node == b || b in DepsAt(deps, ins[1..][i].node)) {
        assert ins[i + 1] == ins[1..][i];
      }
    }
  }

  /** Because inputs have smaller numbers, the one pass computes exact transitive reachability. */
  lemma {:induction false} OnePassIsExact(p: Proxy, k: nat, n: nat, b: nat)
    requires WellNumbered(p) && n < k
    ensures b in DepsAt(AllDeps(p.env, k), n) <==> DependsOn(p.env, n, b)
    decreases k
  {
    var env, deps := p.env, AllDeps(p.env, k - 1);
    if n < k - 1 {
      OnePassIsExact(p, k - 1, n, b);
    } else if n in env && env[n].App? {
      assert NodeOk(env, n);
      var ws := env[n].inputs;
      NodeDepsAre(InNodes(ws), deps, b);
      forall i | 0 <= i < |ws|
        ensures ws[i].epid.node < n && (b in DepsAt(deps, ws[i].epid.node) <==> DependsOn(env, ws[i].epid.node, b))
      {
        assert ws[i] in ws;
        OnePassIsExact(p, k - 1, ws[i].epid.node, b);
      }
      assert forall i :: 0 <= i < |ws| ==> InNodes(ws)[i].node == ws[i].epid.node;
    } else {
      DepsBelow(env, k - 1, n);
    }
  }

  lemma {:induction false} DepsBelow(env: Env, k: nat, n: nat)
    requires n >= k
    ensures n !in AllDeps(env, k)
  {
    if k == 0 {
    } else {
      DepsBelow(env, k - 1, n);
    }
  }

  /** The input indices a dependency set contains, largest first (the source
      prepends while walking the set in key order). */
  function IndicesBelow(inputs: seq<InputNode>, deps: set<nat>, n: nat): (l: seq<nat>)
    requires n <= |inputs|
    ensures forall i :: i in l <==> 0 <= i < n && inputs[i].node in deps
    ensures Descending(l)
  {
    if n == 0 then []
    else
      var rest := IndicesBelow(inputs, deps, n - 1);
      assert forall i :: 0 <= i < |rest| ==> rest[i] < n - 1 by {
        forall i | 0 <= i < |rest| ensures rest[i] < n - 1 { assert rest[i] in rest; }
      }
      if inputs[n - 1].node in deps then [n - 1] + rest else rest
  }

  /** The sensitivity list of a node. */
  function Sensitivity(p: Proxy, n: nat): (l: seq<nat>)
    ensures Descending(l)
  {
    var inputs := Inputs(p.env, p.count);
    IndicesBelow(inputs, DepsAt(AllDeps(p.env, p.count), n), |inputs|)
  }

  /** A node is sensitive to input i exactly if it depends on that input's buffer. */
  lemma SensitivityIsExact(p: Proxy, n: nat, i: nat)
    requires WellNumbered(p) && n in p.env && i < |Inputs(p.env, p.count)|
    ensures i in Sensitivity(p, n) <==> DependsOn(p.env, n, Inputs(p.env, p.count)[i].node)
  {
    OnePassIsExact(p, p.count, n, Inputs(p.env, p.count)[i].node);
  }
}
