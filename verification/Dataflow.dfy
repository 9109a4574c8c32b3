/** Dataflow descriptions, their direct meaning, and the compiler to a flat list
    of named bindings (src/dsl.erl). */
module Dataflow {

  type Op = int
  type Key = int
  type Name = int
  type Value = int

  /** An operand: a named external signal, or the result of an earlier operator. */
  datatype Src = External(x: Name) | Result(k: nat)

  datatype Arg = Arg(name: Key, src: Src)

  datatype OpCall = OpCall(op: Op, args: seq<Arg>)

  /** The operator calls a description makes, in order.  A description cannot look
      inside the results it passes around, so the list of calls is all there is. */
  predicate Scoped(ops: seq<OpCall>) {
    forall i, a :: 0 <= i < |ops| && a in ops[i].args && a.src.Result? ==> a.src.k < i
  }

  type Desc = ops: seq<OpCall> | Scoped(ops) witness []

  /** A named operand value, as operators receive them. */
  datatype Bound = Bound(name: Key, value: Value)

  /** Pure operators: type and named inputs determine the output. */
  type Operators = (Op, seq<Bound>) -> Value

  // ---- Direct meaning ----

  function SrcValue(src: Src, ext: Name -> Value, results: seq<Value>): Value {
    match src
    case External(x) => ext(x)
    case Result(k) => if k < |results| then results[k] else 0
  }

  function ArgValues(args: seq<Arg>, ext: Name -> Value, results: seq<Value>): (bs: seq<Bound>)
    ensures |bs| == |args|
  {
    seq(|args|, i requires 0 <= i < |args| => Bound(args[i].name, SrcValue(args[i].src, ext, results)))
  }

  /** The values of the first n operator calls. */
  function Meaning(ops: seq<OpCall>, fn: Operators, ext: Name -> Value, n: nat): (vs: seq<Value>)
    requires n <= |ops|
    ensures |vs| == n
  {
    if n == 0 then []
    else
      var vs := Meaning(ops, fn, ext, n - 1);
      vs + [fn(ops[n - 1].op, ArgValues(ops[n - 1].args, ext, vs))]
  }

  /** An operator's value is its function of its operands' values, wherever the list ends. */
  lemma {:induction false} MeaningAt(ops: Desc, fn: Operators, ext: Name -> Value, n: nat, k: nat)
    requires k < n <= |ops|
    ensures Meaning(ops, fn, ext, n)[k] == fn(ops[k].op, ArgValues(ops[k].args, ext, Meaning(ops, fn, ext, n)))
  {
    var vs := Meaning(ops, fn, ext, n);
    var prev := Meaning(ops, fn, ext, n - 1);
    assert vs[..n - 1] == prev;
    assert ArgValues(ops[k].args, ext, vs) == ArgValues(ops[k].args, ext, prev) by {
      forall i | 0 <= i < |ops[k].args|
        ensures SrcValue(ops[k].args[i].src, ext, vs) == SrcValue(ops[k].args[i].src, ext, prev)
      {
        assert ops[k].args[i] in ops[k].args;
      }
    }
    if k < n - 1 {
      MeaningAt(ops, fn, ext, n - 1, k);
    }
  }

  // ---- bind_alloc and bind_compile ----

  /** An instance name {OpType, N}. */
  datatype Node = Node(op: Op, n: nat)

  datatype Operand = Input(x: Name) | Ref(node: Node)

  datatype NamedOperand = NamedOperand(name: Key, operand: Operand)

  datatype Binding = Binding(node: Node, op: Op, args: seq<NamedOperand>)

  /** Compilation state: next instance number per operator type, bindings with the newest first. */
  datatype Compiler = Compiler(count: map<Op, nat>, env: seq<Binding>)

  function CountOf(c: Compiler, op: Op): nat {
    if op in c.count then c.count[op] else 0
  }

  function Bind(c: Compiler, op: Op, args: seq<NamedOperand>): (Node, Compiler) {
    var node := Node(op, CountOf(c, op));
    (node, Compiler(c.count[op := CountOf(c, op) + 1], [Binding(node, op, args)] + c.env))
  }

  function Operands(args: seq<Arg>, nodes: seq<Node>): seq<NamedOperand> {
    seq(|args|, i requires 0 <= i < |args| =>
      NamedOperand(args[i].name,
        match args[i].src
        case External(x) => Input(x)
        case Result(k) => if k < |nodes| then Ref(nodes[k]) else Input(0)))
  }

  /** Run the first n operator calls: the node returned by each, and the final state. */
  function Compile(ops: seq<OpCall>, n: nat): (r: (seq<Node>, Compiler))
    requires n <= |ops|
    ensures |r.0| == n
  {
    if n == 0 then ([], Compiler(map[], []))
    else
      var (nodes, c) := Compile(ops, n - 1);
      var (node, c') := Bind(c, ops[n - 1].op, Operands(ops[n - 1].args, nodes));
      (nodes + [node], c')
  }

  // ---- The emitted bindings, read from the oldest ----

  type Values = map<Node, Value>

  function OperandValue(o: Operand, ext: Name -> Value, vals: Values): Value {
    match o
    case Input(x) => ext(x)
    case Ref(node) => if node in vals then vals[node] else 0
  }

  function EvalBinding(b: Binding, fn: Operators, ext: Name -> Value, vals: Values): Values {
    vals[b.node := fn(b.op, seq(|b.args|, i requires 0 <= i < |b.args| =>
      Bound(b.args[i].name, OperandValue(b.args[i].operand, ext, vals))))]
  }

  function EvalBindings(env: seq<Binding>, fn: Operators, ext: Name -> Value): Values {
    if env == [] then map[] else EvalBinding(env[0], fn, ext, EvalBindings(env[1..], fn, ext))
  }

  /** Every instance number is below its counter, and nodes name distinct instances. */
  ghost predicate Allocated(nodes: seq<Node>, c: Compiler) {
    && (forall i :: 0 <= i < |nodes| ==> nodes[i].n < CountOf(c, nodes[i].op))
    && (forall i, j :: 0 <= i < j < |nodes| ==> nodes[i] != nodes[j])
  }

  /** Single assignment: no two calls get the same node. */
  lemma {:induction false} SingleAssignment(ops: seq<OpCall>, n: nat)
    requires n <= |ops|
    ensures Allocated(Compile(ops, n).0, Compile(ops, n).1)
  {
    if n == 0 {
    } else {
      SingleAssignment(ops, n - 1);
    }
  }

  /** How many of the first n calls are of an operator. */
  function CallsOf(ops: seq<OpCall>, n: nat, op: Op): nat
    requires n <= |ops|
  {
    if n == 0 then 0 else CallsOf(ops, n - 1, op) + if ops[n - 1].op == op then 1 else 0
  }

  /** The instances of an operator are numbered from 0 in the order of its calls. */
  lemma {:induction false} NodesAreNumbered(ops: seq<OpCall>, n: nat)
    requires n <= |ops|
    ensures forall k :: 0 <= k < n ==> Compile(ops, n).0[k] == Node(ops[k].op, CallsOf(ops, k, ops[k].op))
    ensures forall op :: CountOf(Compile(ops, n).1, op) == CallsOf(ops, n, op)
  {
    if n == 0 {
    } else {
      NodesAreNumbered(ops, n - 1);
    }
  }

  /** Definition before use: one binding per call, oldest last, whose operands name
      the nodes of earlier calls only. */
  lemma {:induction false} DefinedBeforeUse(ops: seq<OpCall>, n: nat, k: nat)
    requires k < n <= |ops|
    ensures var (nodes, c) := Compile(ops, n);
            |c.env| == n && c.env[n - 1 - k] == Binding(nodes[k], ops[k].op, Operands(ops[k].args, nodes[..k]))
  {
    var (nodes, c) := Compile(ops, n);
    var (prev, c0) := Compile(ops, n - 1);
    assert nodes[..n - 1] == prev;
    if n > 1 { DefinedBeforeUse(ops, n - 1, if k < n - 1 then k else 0); }
    if k < n - 1 {
      assert nodes[..k] == prev[..k];
      assert c.env[n - 1 - k] == c0.env[n - 2 - k];
    }
  }

  /** The bindings emitted for n calls give call k its direct value. */
  ghost predicate ValueHolds(ops: seq<OpCall>, fn: Operators, ext: Name -> Value, n: nat, k: nat)
    requires k < n <= |ops|
  {
    var (nodes, c) := Compile(ops, n);
    var vals := EvalBindings(c.env, fn, ext);
    nodes[k] in vals && vals[nodes[k]] == Meaning(ops, fn, ext, n)[k]
  }

  /** Evaluating the emitted bindings gives each node its operator's direct value. */
  lemma {:induction false} CompilePreservesMeaning(ops: Desc, fn: Operators, ext: Name -> Value, n: nat)
    requires n <= |ops|
    ensures forall k :: 0 <= k < n ==> ValueHolds(ops, fn, ext, n, k)
  {
    if n == 0 {
    } else {
      CompilePreservesMeaning(ops, fn, ext, n - 1);
      SingleAssignment(ops, n);
      var (nodes, c) := Compile(ops, n - 1);
      var (nodes', c') := Compile(ops, n);
      forall k | 0 <= k < n - 1 ensures nodes'[k] != nodes'[n - 1] {}
      var vals := EvalBindings(c.env, fn, ext);
      var b := c'.env[0];
      assert c'.env[1..] == c.env;
      var after := EvalBinding(b, fn, ext, vals);
      assert EvalBindings(c'.env, fn, ext) == after;
      assert b.node == nodes'[n - 1];
      var last := ops[n - 1];
      assert b.args == Operands(last.args, nodes);
      assert seq(|b.args|, i requires 0 <= i < |b.args| =>
        Bound(b.args[i].name, OperandValue(b.args[i].operand, ext, vals)))
          == ArgValues(last.args, ext, Meaning(ops, fn, ext, n - 1)) by {
        forall i | 0 <= i < |last.args|
          ensures OperandValue(b.args[i].operand, ext, vals) ==
                  SrcValue(last.args[i].src, ext, Meaning(ops, fn, ext, n - 1))
        {
          var src := last.args[i].src;
          assert last.args[i] in last.args;
          if src.Result? { assert ValueHolds(ops, fn, ext, n - 1, src.k); }
        }
      }
      forall k | 0 <= k < n
        ensures ValueHolds(ops, fn, ext, n, k)
      {
        if k < n - 1 {
          assert ValueHolds(ops, fn, ext, n - 1, k);
          assert nodes'[k] == nodes[k] && nodes'[k] != b.node;
        }
      }
    }
  }
}
