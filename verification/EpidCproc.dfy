/** The back end of the dataflow compiler (src/epid_cproc.erl): straight-line
    clauses, each under a guard, and running only those whose guard fires. */
module EpidCproc {
  import opened Dataflow
  import opened EpidApp
  import opened EpidUpdate
  import opened EpidDag
  import opened Bits

  // ---- Clauses ----

  datatype ClauseOperand = InputRef(index: nat) | NodeRef(node: nat)

  datatype ClauseArg = ClauseArg(name: Key, operand: ClauseOperand)

  /** PROC_COND(g & mask, n<out>, op, .name = operand, ...) */
  datatype Clause = Clause(mask: nat, out: nat, op: Op, args: seq<ClauseArg>)

  function OperandFor(inputs: seq<InputNode>, n: nat): ClauseOperand {
    var i := IndexOf(inputs, n);
    if i < |inputs| then InputRef(i) else NodeRef(n)
  }

  /** How a sensitivity list becomes a mask. */
  type Guard = seq<nat> -> nat

  /** cond_bitvec as the source has it, and as its comments describe it. */
  const CODED: Guard := l => CondBitvec(l, 0)
  const INTENDED: Guard := l => UnionBits(l)

  /** A processor's clause: its guard, and each operand read from the input array or another clause. */
  function LetClause(p: Proxy, guard: Guard, proc: Proc): Clause {
    var inputs := Inputs(p.env, p.count);
    Clause(guard(Sensitivity(p, proc.node)), proc.node, proc.op,
      seq(|proc.ins|, i requires 0 <= i < |proc.ins| =>
        ClauseArg(proc.ins[i].name, OperandFor(inputs, proc.ins[i].node))))
  }

  /** The clauses of the processors with node number below n. */
  function Clauses(p: Proxy, guard: Guard, n: nat): seq<Clause> {
    var procs := Procs(p.env, n);
    seq(|procs|, i requires 0 <= i < |procs| => LetClause(p, guard, procs[i]))
  }

  function Code(p: Proxy, guard: Guard): seq<Clause> {
    Clauses(p, guard, p.count)
  }

  // ---- Running the clauses ----

  type Outs = map<nat, Value>

  /** g & mask is nonzero. */
  ghost predicate Fires(g: nat, mask: nat) {
    exists i: nat :: Bit(g, i) && Bit(mask, i)
  }

  function Fetch(o: ClauseOperand, input: seq<Value>, outs: Outs): Value {
    match o
    case InputRef(i) => if i < |input| then input[i] else 0
    case NodeRef(n) => if n in outs then outs[n] else 0
  }

  function RunBody(c: Clause, fn: Operators, input: seq<Value>, outs: Outs): Outs {
    outs[c.out := fn(c.op, seq(|c.args|, i requires 0 <= i < |c.args| =>
      Bound(c.args[i].name, Fetch(c.args[i].operand, input, outs))))]
  }

  /** One call of cproc_update(input, g): the clauses in order, each under its guard. */
  ghost function RunUpdate(cs: seq<Clause>, fn: Operators, input: seq<Value>, g: nat, outs: Outs): Outs {
    if cs == [] then outs
    else
      var last := cs[|cs| - 1];
      var before := RunUpdate(cs[..|cs| - 1], fn, input, g, outs);
      if Fires(g, last.mask) then RunBody(last, fn, input, before) else before
  }

  /** The input array holds what the buffers hold. */
  ghost predicate Feeds(p: Proxy, slot: Slots, input: seq<Value>) {
    var inputs := Inputs(p.env, p.count);
    |input| == |inputs| && forall i :: 0 <= i < |inputs| ==> input[i] == slot(inputs[i].node, inputs[i].src)
  }

  /** Every processor's output is its value under the buffers' contents. */
  ghost predicate UpToDate(p: Proxy, fn: Operators, slot: Slots, outs: Outs) {
    forall n :: n in p.env && p.env[n].App? ==> n in outs && outs[n] == NodeValue(p.env, fn, slot, n)
  }

  /** Bits of g mark at least the inputs that changed. */
  ghost predicate Marks(p: Proxy, slot: Slots, slot': Slots, g: nat) {
    var inputs := Inputs(p.env, p.count);
    forall i: nat :: i < |inputs| && slot(inputs[i].node, inputs[i].src) != slot'(inputs[i].node, inputs[i].src) ==>
      Bit(g, i)
  }

  // ---- The guarded update is right ----

  predicate IsApp(p: Proxy, n: nat) {
    n in p.env && p.env[n].App?
  }

  /** A node's value depends on the buffers it depends on, and on nothing else. */
  lemma {:induction false} ValueDependsOnly(p: Proxy, fn: Operators, slot: Slots, slot': Slots, n: nat)
    requires WellNumbered(p) && IsApp(p, n)
    requires forall b :: b in p.env && p.env[b].Buffer? && DependsOn(p.env, n, b) ==>
             slot(b, p.env[b].src) == slot'(b, p.env[b].src)
    ensures NodeValue(p.env, fn, slot, n) == NodeValue(p.env, fn, slot', n)
    decreases n
  {
    var ins := p.env[n].inputs;
    assert NodeOk(p.env, n);
    assert InputValues(p.env, fn, slot, ins, n) == InputValues(p.env, fn, slot', ins, n) by {
      forall i | 0 <= i < |ins|
        ensures NodeValue(p.env, fn, slot, ins[i].epid.node) == NodeValue(p.env, fn, slot', ins[i].epid.node)
      {
        assert ins[i] in ins;
        if IsApp(p, ins[i].epid.node) { ValueDependsOnly(p, fn, slot, slot', ins[i].epid.node); }
      }
    }
  }

  /** A guard that has the bits of every processor's sensitivity list. */
  ghost predicate GuardHolds(p: Proxy, guard: Guard) {
    forall n, i: nat :: IsApp(p, n) && i in Sensitivity(p, n) ==> Bit(guard(Sensitivity(p, n)), i)
  }

  /** Such a guard that stays shut has seen no change. */
  lemma ShutGuardIsRight(p: Proxy, guard: Guard, fn: Operators, slot: Slots, slot': Slots, g: nat, n: nat)
    requires WellNumbered(p) && IsApp(p, n) && Marks(p, slot, slot', g)
    requires GuardHolds(p, guard) && !Fires(g, guard(Sensitivity(p, n)))
    ensures NodeValue(p.env, fn, slot, n) == NodeValue(p.env, fn, slot', n)
  {
    var inputs := Inputs(p.env, p.count);
    InputsAre(p.env, p.count);
    forall b | b in p.env && p.env[b].Buffer? && DependsOn(p.env, n, b)
      ensures slot(b, p.env[b].src) == slot'(b, p.env[b].src)
    {
      assert IsInput(p.env, p.count, InputNode(b, p.env[b].src));
      var i: nat :| i < |inputs| && inputs[i] == InputNode(b, p.env[b].src);
      SensitivityIsExact(p, n, i);
    }
    ValueDependsOnly(p, fn, slot, slot', n);
  }

  /** Processors below n have their new values, the others still their old ones. */
  ghost predicate Reached(p: Proxy, fn: Operators, slot: Slots, slot': Slots, n: nat, outs: Outs) {
    forall m: nat :: IsApp(p, m) ==> m in outs && outs[m] == NodeValue(p.env, fn, if m < n then slot' else slot, m)
  }

  /** Where an operand is fetched, it has the node's new value. */
  lemma FetchIsValue(p: Proxy, fn: Operators, slot: Slots, slot': Slots, n: nat, outs: Outs, input: seq<Value>, m: nat)
    requires WellNumbered(p) && Reached(p, fn, slot, slot', n, outs) && Feeds(p, slot', input) && m in p.env && m < n
    ensures Fetch(OperandFor(Inputs(p.env, p.count), m), input, outs) == NodeValue(p.env, fn, slot', m)
  {
    var inputs := Inputs(p.env, p.count);
    InputsAre(p.env, p.count);
    var i := IndexOf(inputs, m);
    if i < |inputs| {
      assert IsInput(p.env, p.count, inputs[i]);
    } else {
      assert p.env[m].Buffer? ==> IsInput(p.env, p.count, InputNode(m, p.env[m].src));
      assert IsApp(p, m);
    }
  }

  lemma RunBodyIsValue(p: Proxy, guard: Guard, fn: Operators, slot: Slots, slot': Slots, n: nat, outs: Outs,
                       input: seq<Value>)
    requires WellNumbered(p) && IsApp(p, n) && Reached(p, fn, slot, slot', n, outs) && Feeds(p, slot', input)
    ensures var c := LetClause(p, guard, Proc(n, p.env[n].op, InNodes(p.env[n].inputs)));
            RunBody(c, fn, input, outs) == outs[n := NodeValue(p.env, fn, slot', n)]
  {
    var ins := p.env[n].inputs;
    var c := LetClause(p, guard, Proc(n, p.env[n].op, InNodes(ins)));
    assert NodeOk(p.env, n);
    assert seq(|c.args|, i requires 0 <= i < |c.args| => Bound(c.args[i].name, Fetch(c.args[i].operand, input, outs)))
        == InputValues(p.env, fn, slot', ins, n) by {
      forall i | 0 <= i < |ins|
        ensures Bound(c.args[i].name, Fetch(c.args[i].operand, input, outs)) == InputValues(p.env, fn, slot', ins, n)[i]
      {
        assert ins[i] in ins;
        FetchIsValue(p, fn, slot, slot', n, outs, input, ins[i].epid.node);
      }
    }
  }

  lemma ClausesStep(p: Proxy, guard: Guard, n: nat)
    requires n > 0
    ensures Clauses(p, guard, n) == Clauses(p, guard, n - 1) +
              if IsApp(p, n - 1)
              then [LetClause(p, guard, Proc(n - 1, p.env[n - 1].op, InNodes(p.env[n - 1].inputs)))]
              else []
  {
  }

  /** One clause later: run if its guard fires, passed by otherwise. */
  lemma ClauseReaches(p: Proxy, guard: Guard, fn: Operators, slot: Slots, slot': Slots, input: seq<Value>, g: nat,
                      before: Outs, n: nat, c: Clause)
    requires WellNumbered(p) && IsApp(p, n) && Reached(p, fn, slot, slot', n, before)
    requires Feeds(p, slot', input) && Marks(p, slot, slot', g) && GuardHolds(p, guard)
    requires c == LetClause(p, guard, Proc(n, p.env[n].op, InNodes(p.env[n].inputs)))
    ensures Reached(p, fn, slot, slot', n + 1, if Fires(g, c.mask) then RunBody(c, fn, input, before) else before)
  {
    hide Fires, RunBody, NodeValue;
    if Fires(g, c.mask) {
      RunBodyIsValue(p, guard, fn, slot, slot', n, before, input);
    } else {
      ShutGuardIsRight(p, guard, fn, slot, slot', g, n);
    }
  }

  lemma RunMore(cs: seq<Clause>, c: Clause, fn: Operators, input: seq<Value>, g: nat, outs: Outs)
    ensures var before := RunUpdate(cs, fn, input, g, outs);
            RunUpdate(cs + [c], fn, input, g, outs) ==
              if Fires(g, c.mask) then RunBody(c, fn, input, before) else before
  {
    assert (cs + [c])[..|cs|] == cs;
  }

  lemma NoneReached(p: Proxy, guard: Guard, fn: Operators, slot: Slots, slot': Slots, input: seq<Value>, g: nat,
                    outs: Outs)
    requires UpToDate(p, fn, slot, outs)
    ensures Reached(p, fn, slot, slot', 0, RunUpdate(Clauses(p, guard, 0), fn, input, g, outs))
  {
    assert Clauses(p, guard, 0) == [];
    forall m | IsApp(p, m) ensures m in outs && outs[m] == NodeValue(p.env, fn, slot, m) {}
  }

  /** From the clauses below n to those below n + 1. */
  lemma ReachesMore(p: Proxy, guard: Guard, fn: Operators, slot: Slots, slot': Slots, input: seq<Value>, g: nat,
                    outs: Outs, n: nat)
    requires WellNumbered(p) && Feeds(p, slot', input) && Marks(p, slot, slot', g) && GuardHolds(p, guard)
    requires Reached(p, fn, slot, slot', n, RunUpdate(Clauses(p, guard, n), fn, input, g, outs))
    ensures Reached(p, fn, slot, slot', n + 1, RunUpdate(Clauses(p, guard, n + 1), fn, input, g, outs))
  {
    var prev, next := Clauses(p, guard, n), Clauses(p, guard, n + 1);
    ClausesStep(p, guard, n + 1);
    if IsApp(p, n) {
      var c := LetClause(p, guard, Proc(n, p.env[n].op, InNodes(p.env[n].inputs)));
      assert next == prev + [c];
      hide *;
      RunMore(prev, c, fn, input, g, outs);
      ClauseReaches(p, guard, fn, slot, slot', input, g, RunUpdate(prev, fn, input, g, outs), n, c);
    } else {
      assert next == prev;
      hide Clauses, RunUpdate, NodeValue;
    }
  }

  lemma {:induction false} RunReaches(p: Proxy, guard: Guard, fn: Operators, slot: Slots, slot': Slots,
                                      input: seq<Value>, g: nat, outs: Outs, n: nat)
    requires WellNumbered(p) && UpToDate(p, fn, slot, outs) && Feeds(p, slot', input) && Marks(p, slot, slot', g)
    requires GuardHolds(p, guard)
    ensures Reached(p, fn, slot, slot', n, RunUpdate(Clauses(p, guard, n), fn, input, g, outs))
  {
    hide *;
    if n == 0 {
      NoneReached(p, guard, fn, slot, slot', input, g, outs);
    } else {
      RunReaches(p, guard, fn, slot, slot', input, g, outs, n - 1);
      ReachesMore(p, guard, fn, slot, slot', input, g, outs, n - 1);
    }
  }

  /** One guarded update from a given old state: if outputs were up to date, the
      input array holds the new values and g marks what changed, the outputs end up to date. */
  ghost predicate UpdateRight(p: Proxy, cs: seq<Clause>, fn: Operators, slot: Slots, slot': Slots,
                              input: seq<Value>, g: nat, outs: Outs)
  {
    UpToDate(p, fn, slot, outs) && Feeds(p, slot', input) && Marks(p, slot, slot', g) ==>
      UpToDate(p, fn, slot', RunUpdate(cs, fn, input, g, outs))
  }

  /** Executing only the clauses whose guard fires equals full re-evaluation. */
  lemma GuardedUpdateIsRight(p: Proxy, guard: Guard, fn: Operators, slot: Slots, slot': Slots, input: seq<Value>,
                             g: nat, outs: Outs)
    requires WellNumbered(p) && GuardHolds(p, guard)
    ensures UpdateRight(p, Code(p, guard), fn, slot, slot', input, g, outs)
  {
    if UpToDate(p, fn, slot, outs) && Feeds(p, slot', input) && Marks(p, slot, slot', g) {
      RunReaches(p, guard, fn, slot, slot', input, g, outs, p.count);
      forall n | n in p.env && p.env[n].App?
        ensures n in RunUpdate(Code(p, guard), fn, input, g, outs)
        ensures RunUpdate(Code(p, guard), fn, input, g, outs)[n] == NodeValue(p.env, fn, slot', n)
      {
        assert IsApp(p, n) && n < p.count;
      }
    }
  }

  /** code/4 writes the clauses one after the other to its sink.  What it has written
      at the end is right under every guard that has the bits it needs. */
  method EmitCode(p: Proxy, guard: Guard) returns (clauses: seq<Clause>)
    ensures clauses == Code(p, guard)
    ensures WellNumbered(p) && GuardHolds(p, guard) ==>
              forall fn, slot, slot', input, g, outs :: UpdateRight(p, clauses, fn, slot, slot', input, g, outs)
  {
    clauses := [];
    var procs := Procs(p.env, p.count);
    var i := 0;
    while i < |procs|
      invariant 0 <= i <= |procs|
      invariant clauses == Code(p, guard)[..i]
    {
      clauses := clauses + [LetClause(p, guard, procs[i])];
      i := i + 1;
    }
    assert clauses == Code(p, guard);
    if WellNumbered(p) && GuardHolds(p, guard) {
      forall fn, slot, slot', input, g, outs ensures UpdateRight(p, clauses, fn, slot, slot', input, g, outs) {
        GuardedUpdateIsRight(p, guard, fn, slot, slot', input, g, outs);
      }
    }
  }

  /** The intended masks have all their bits, whatever the graph. */
  lemma IntendedHolds(p: Proxy)
    ensures GuardHolds(p, INTENDED)
  {
    forall n, i: nat | IsApp(p, n) && i in Sensitivity(p, n) ensures Bit(INTENDED(Sensitivity(p, n)), i) {
      UnionHasBits(Sensitivity(p, n), i);
    }
  }

  /** With the intended masks the guarded update is right for every graph. */
  lemma IntendedGuardsAreRight(p: Proxy, fn: Operators, slot: Slots, slot': Slots, input: seq<Value>, g: nat,
                               outs: Outs)
    requires WellNumbered(p)
    ensures UpdateRight(p, Code(p, INTENDED), fn, slot, slot', input, g, outs)
  {
    IntendedHolds(p);
    GuardedUpdateIsRight(p, INTENDED, fn, slot, slot', input, g, outs);
  }

  // ---- From description to generated code ----

  /** The output of call k of the last revision, read from the outputs of the generated code. */
  ghost predicate OutputIs(revs: seq<Revision>, outs: Outs, k: nat, v: Value)
    requires revs != [] && k < |revs[|revs| - 1].ops|
  {
    var e := Current(revs).results[k];
    Local(e) && e.node in outs && outs[e.node] == v
  }

  /** The compiler as a whole preserves meaning.  Take the environment that any
      sequence of updates and collections leaves, generate its clauses under guards
      that have their bits, and run one guarded update that feeds the sources' new
      values to outputs that were up to date with the old ones: the output of each
      call's node is that call's direct value. */
  lemma CompilerPreservesMeaning(revs: seq<Revision>, guard: Guard, fn: Operators,
                                 ext: Epid -> Value, ext': Epid -> Value,
                                 input: seq<Value>, g: nat, outs: Outs, k: nat)
    requires revs != [] && HistoryOk(revs) && k < |revs[|revs| - 1].ops| && GuardHolds(History(revs).proxy, guard)
    requires var p := History(revs).proxy;
             UpToDate(p, fn, Live(ext), outs) && Feeds(p, Live(ext'), input) && Marks(p, Live(ext), Live(ext'), g)
    ensures var r, last := History(revs), revs[|revs| - 1];
            OutputIs(revs, RunUpdate(Code(r.proxy, guard), fn, input, g, outs), k,
                     Meaning(last.ops, fn, Through(r, fn, ext', last.resolve), |last.ops|)[k])
  {
    var r, e := History(revs), Current(revs).results[k];
    HistoryIsLinked(revs);
    HistoryPreservesMeaning(revs, fn, ext', k);
    GuardedUpdateIsRight(r.proxy, guard, fn, Live(ext), Live(ext'), input, g, outs);
    TableIsCurrent(revs, e);
    OutInEnv(r, e);
  }

  /** In particular with the intended masks, for every history. */
  lemma IntendedPreservesMeaning(revs: seq<Revision>, fn: Operators, ext: Epid -> Value, ext': Epid -> Value,
                                 input: seq<Value>, g: nat, outs: Outs, k: nat)
    requires revs != [] && HistoryOk(revs) && k < |revs[|revs| - 1].ops|
    requires var p := History(revs).proxy;
             UpToDate(p, fn, Live(ext), outs) && Feeds(p, Live(ext'), input) && Marks(p, Live(ext), Live(ext'), g)
    ensures var r, last := History(revs), revs[|revs| - 1];
            OutputIs(revs, RunUpdate(Code(r.proxy, INTENDED), fn, input, g, outs), k,
                     Meaning(last.ops, fn, Through(r, fn, ext', last.resolve), |last.ops|)[k])
  {
    IntendedHolds(History(revs).proxy);
    CompilerPreservesMeaning(revs, INTENDED, fn, ext, ext', input, g, outs, k);
  }
}
