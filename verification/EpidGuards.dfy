/** The guards as the source computes them: exactly when they are right, and a
    program that shows it wherever they are not (src/epid_cproc.erl). */
module EpidGuards {
  import opened Dataflow
  import opened EpidApp
  import opened EpidUpdate
  import opened EpidDag
  import opened EpidCproc
  import opened Bits

  function SumOf(bs: seq<Bound>): Value {
    if bs == [] then 0 else bs[0].value + SumOf(bs[1..])
  }

  /** Every operator adds its inputs. */
  const ADD: Operators := (op, bs) => SumOf(bs)

  const ZERO: Slots := (n, src) => 0

  function OneAt(b: nat): Slots {
    (n, src) => if n == b then 1 else 0
  }

  lemma {:induction false} SumNonNegative(bs: seq<Bound>)
    requires forall i :: 0 <= i < |bs| ==> bs[i].value >= 0
    ensures SumOf(bs) >= 0 && forall i :: 0 <= i < |bs| ==> bs[i].value <= SumOf(bs)
  {
    if bs == [] {
    } else {
      SumNonNegative(bs[1..]);
      forall i | 0 <= i < |bs| ensures bs[i].value <= SumOf(bs) {
        if i > 0 { assert bs[i] == bs[1..][i - 1]; }
      }
    }
  }

  lemma {:induction false} SumZeros(bs: seq<Bound>)
    requires forall i :: 0 <= i < |bs| ==> bs[i].value == 0
    ensures SumOf(bs) == 0
  {
    if bs == [] {
    } else {
      SumZeros(bs[1..]);
    }
  }

  lemma {:induction false} ZeroEverywhere(env: Env, n: nat)
    ensures NodeValue(env, ADD, ZERO, n) == 0
    decreases n
  {
    if n in env && env[n].App? {
      var ins := env[n].inputs;
      forall i | 0 <= i < |ins| ensures InputValues(env, ADD, ZERO, ins, n)[i].value == 0 {
        if ins[i].epid.node < n { ZeroEverywhere(env, ins[i].epid.node); }
      }
      SumZeros(InputValues(env, ADD, ZERO, ins, n));
    }
  }

  /** With a 1 in buffer b and 0 elsewhere, exactly the dependents of b can see it. */
  lemma {:induction false} OneIsSeen(p: Proxy, b: nat, n: nat)
    requires WellNumbered(p) && b in p.env && p.env[b].Buffer?
    ensures NodeValue(p.env, ADD, OneAt(b), n) >= 0
    ensures DependsOn(p.env, n, b) || n == b ==> NodeValue(p.env, ADD, OneAt(b), n) >= 1
    decreases n
  {
    if IsApp(p, n) {
      var ins := p.env[n].inputs;
      var bs := InputValues(p.env, ADD, OneAt(b), ins, n);
      assert NodeOk(p.env, n);
      forall i | 0 <= i < |ins|
        ensures bs[i].value >= 0
        ensures (ins[i].epid.node == b || DependsOn(p.env, ins[i].epid.node, b)) ==> bs[i].value >= 1
      {
        assert ins[i] in ins;
        OneIsSeen(p, b, ins[i].epid.node);
      }
      SumNonNegative(bs);
    }
  }

  /** An output that no firing clause writes is kept. */
  lemma {:induction false} UnwrittenIsKept(cs: seq<Clause>, fn: Operators, input: seq<Value>, g: nat, outs: Outs,
                                           m: nat)
    requires m in outs && forall i :: 0 <= i < |cs| && cs[i].out == m ==> !Fires(g, cs[i].mask)
    ensures var after := RunUpdate(cs, fn, input, g, outs); m in after && after[m] == outs[m]
  {
    hide Fires;
    if cs == [] {
    } else {
      var prev := cs[..|cs| - 1];
      assert forall i :: 0 <= i < |prev| ==> prev[i] == cs[i];
      UnwrittenIsKept(prev, fn, input, g, outs, m);
    }
  }

  /** A node whose guard stays shut keeps its output. */
  lemma ShutKeepsOutput(p: Proxy, guard: Guard, fn: Operators, input: seq<Value>, g: nat, outs: Outs, m: nat)
    requires m in outs && !Fires(g, guard(Sensitivity(p, m)))
    ensures var after := RunUpdate(Code(p, guard), fn, input, g, outs); m in after && after[m] == outs[m]
  {
    UnwrittenIsKept(Code(p, guard), fn, input, g, outs, m);
  }

  /** An input whose bit the coded guard of n has lost. */
  lemma LostInput(p: Proxy, n: nat) returns (i: nat)
    requires WellNumbered(p) && IsApp(p, n) && !FoldIsRight(Sensitivity(p, n))
    ensures i < |Inputs(p.env, p.count)| && !Bit(CODED(Sensitivity(p, n)), i)
    ensures var b := Inputs(p.env, p.count)[i].node; DependsOn(p.env, n, b) && b in p.env && p.env[b].Buffer?
  {
    CondBitvecExact(Sensitivity(p, n));
    i :| i in Sensitivity(p, n) && !Bit(CondBitvec(Sensitivity(p, n), 0), i);
    InputsAre(p.env, p.count);
    assert IsInput(p.env, p.count, Inputs(p.env, p.count)[i]);
    SensitivityIsExact(p, n, i);
  }

  lemma OneBitMarks(p: Proxy, i: nat)
    requires i < |Inputs(p.env, p.count)|
    ensures Marks(p, ZERO, OneAt(Inputs(p.env, p.count)[i].node), Pow2(i))
    ensures forall mask :: !Bit(mask, i) ==> !Fires(Pow2(i), mask)
  {
    var inputs := Inputs(p.env, p.count);
    InputsAre(p.env, p.count);
    forall j: nat ensures Bit(Pow2(i), j) <==> j == i { TopBit(i, 0, j); NoBits(j); }
    forall j: nat | j < |inputs| && inputs[j].node == inputs[i].node ensures j == i {}
  }

  /** A processor with a wrong guard goes stale: change one input its guard has
      lost and every operator a sum, and the update leaves it behind. */
  lemma WrongGuardGoesStale(p: Proxy, n: nat) returns (slot': Slots, input: seq<Value>, g: nat, outs: Outs)
    requires WellNumbered(p) && IsApp(p, n) && !FoldIsRight(Sensitivity(p, n))
    ensures !UpdateRight(p, Code(p, CODED), ADD, ZERO, slot', input, g, outs)
  {
    var inputs := Inputs(p.env, p.count);
    var i := LostInput(p, n);
    OneBitMarks(p, i);
    slot' := OneAt(inputs[i].node);
    input := seq(|inputs|, j requires 0 <= j < |inputs| => slot'(inputs[j].node, inputs[j].src));
    g := Pow2(i);
    outs := map m | m in p.env && p.env[m].App? :: 0;
    assert UpToDate(p, ADD, ZERO, outs) by {
      forall m | m in p.env && p.env[m].App?
        ensures outs[m] == NodeValue(p.env, ADD, ZERO, m)
      {
        ZeroEverywhere(p.env, m);
      }
    }
    ShutKeepsOutput(p, CODED, ADD, input, g, outs, n);
    OneIsSeen(p, inputs[i].node, n);
  }

  /** Where every sensitivity list is one the coded fold gets right, the coded guards have their bits. */
  lemma CodedHolds(p: Proxy)
    requires forall n :: IsApp(p, n) ==> FoldIsRight(Sensitivity(p, n))
    ensures GuardHolds(p, CODED)
  {
    forall n, i: nat | IsApp(p, n) && i in Sensitivity(p, n) ensures Bit(CODED(Sensitivity(p, n)), i) {
      CondBitvecExact(Sensitivity(p, n));
    }
  }

  /** The compiled guards are right, for all operators, input changes and marks,
      if and only if every processor's sensitivity list is one the coded fold gets
      right: at most one input, or two of which one is input 0. */
  lemma GuardsRightExactly(p: Proxy)
    requires WellNumbered(p)
    ensures (forall n :: IsApp(p, n) ==> FoldIsRight(Sensitivity(p, n))) <==>
            (forall fn, slot, slot', input, g, outs :: UpdateRight(p, Code(p, CODED), fn, slot, slot', input, g, outs))
  {
    if forall n :: IsApp(p, n) ==> FoldIsRight(Sensitivity(p, n)) {
      CodedHolds(p);
      forall fn, slot, slot', input, g, outs ensures UpdateRight(p, Code(p, CODED), fn, slot, slot', input, g, outs) {
        GuardedUpdateIsRight(p, CODED, fn, slot, slot', input, g, outs);
      }
    } else {
      var n :| IsApp(p, n) && !FoldIsRight(Sensitivity(p, n));
      var slot', input, g, outs := WrongGuardGoesStale(p, n);
    }
  }

  /** The compiler as it stands: with the coded masks the whole path from a history of
      descriptions to the outputs of the generated code preserves meaning, if every
      processor is sensitive to at most one input, or to two of which one is input 0. */
  lemma CodedPreservesMeaning(revs: seq<Revision>, fn: Operators, ext: Epid -> Value, ext': Epid -> Value,
                              input: seq<Value>, g: nat, outs: Outs, k: nat)
    requires revs != [] && HistoryOk(revs) && k < |revs[|revs| - 1].ops|
    requires var p := History(revs).proxy; forall n :: IsApp(p, n) ==> FoldIsRight(Sensitivity(p, n))
    requires var p := History(revs).proxy;
             UpToDate(p, fn, Live(ext), outs) && Feeds(p, Live(ext'), input) && Marks(p, Live(ext), Live(ext'), g)
    ensures var r, last := History(revs), revs[|revs| - 1];
            OutputIs(revs, RunUpdate(Code(r.proxy, CODED), fn, input, g, outs), k,
                     Meaning(last.ops, fn, Through(r, fn, ext', last.resolve), |last.ops|)[k])
  {
    CodedHolds(History(revs).proxy);
    CompilerPreservesMeaning(revs, CODED, fn, ext, ext', input, g, outs, k);
  }

  // ---- A description that goes wrong ----

  /** Source x of another process. */
  function Remote(x: Name): Epid {
    Epid(SELF + 1, if x < 0 then 0 else x)
  }

  /** One processor on source 0, and one on sources 1 and 2. */
  const TWO_INPUTS: Revision := Revision([
    OpCall(0, [Arg(0, External(0))]),
    OpCall(1, [Arg(0, External(1)), Arg(1, External(2))])], Remote)

  const TAG0: Tag := Tag(0, [Wire(0, Remote(0))])
  const TAG1: Tag := Tag(1, [Wire(0, Remote(1)), Wire(1, Remote(2))])

  const ONE_ENV: map<nat, EnvNode> := map[0 := Buffer(Remote(0)), 1 := App(0, [Wire(0, Epid(SELF, 0))])]

  /** What instantiating it on an empty proxy makes. */
  const TWO_ENV: map<nat, EnvNode> := map[
    0 := Buffer(Remote(0)),
    1 := App(0, [Wire(0, Epid(SELF, 0))]),
    2 := Buffer(Remote(1)),
    3 := Buffer(Remote(2)),
    4 := App(1, [Wire(0, Epid(SELF, 2)), Wire(1, Epid(SELF, 3))])]

  lemma CompileOne(ws: seq<Wire>, w: Wire, p: Proxy)
    requires !Local(w.epid)
    ensures var (ins, p1, tmp) := CompileInputs(ws, p);
            var b := Epid(SELF, p1.count);
            CompileInputs(ws + [w], p) ==
              (ins + [Wire(w.name, b)], Proxy(p1.count + 1, p1.env[p1.count := Buffer(w.epid)]), [b] + tmp)
  {
    assert (ws + [w])[..|ws|] == ws;
  }

  lemma CompileNone(p: Proxy)
    ensures CompileInputs([], p) == ([], p, [])
  {
  }

  lemma FirstCall()
    ensures HandleApp(Proxy(0, map[]), TAG0.op, TAG0.inputs) ==
            (Entry(Epid(SELF, 1), [Epid(SELF, 0)]), Proxy(2, ONE_ENV))
  {
    var p, none: seq<Wire>, one := Proxy(0, map[]), [], Wire(0, Remote(0));
    CompileNone(p);
    CompileOne(none, one, p);
    assert none + [one] == TAG0.inputs;
    var (ins, p1, tmp) := CompileInputs(TAG0.inputs, p);
    assert ins == [Wire(0, Epid(SELF, 0))] && tmp == [Epid(SELF, 0)] && p1.count == 1;
  }

  lemma SecondCall()
    ensures HandleApp(Proxy(2, ONE_ENV), TAG1.op, TAG1.inputs) ==
            (Entry(Epid(SELF, 4), [Epid(SELF, 3), Epid(SELF, 2)]), Proxy(5, TWO_ENV))
  {
    var p, none: seq<Wire>, one, two := Proxy(2, ONE_ENV), [], Wire(0, Remote(1)), Wire(1, Remote(2));
    CompileNone(p);
    CompileOne(none, one, p);
    var first := none + [one];
    CompileOne(first, two, p);
    assert first + [two] == TAG1.inputs;
    var (ins, p1, tmp) := CompileInputs(first, p);
    assert ins == [Wire(0, Epid(SELF, 2))] && tmp == [Epid(SELF, 2)] && p1.count == 3;
    var (ins', p2, tmp') := CompileInputs(TAG1.inputs, p);
    assert ins' == [Wire(0, Epid(SELF, 2)), Wire(1, Epid(SELF, 3))] && tmp' == [Epid(SELF, 3), Epid(SELF, 2)]
      && p2.count == 4;
  }

  lemma TwoInstance()
    ensures Instantiate(TWO_INPUTS.ops, 2, Remote, EMPTY) ==
            Instance([Epid(SELF, 1), Epid(SELF, 4)], {Epid(SELF, 1), Epid(SELF, 4)},
              Registry(map[TAG0 := Entry(Epid(SELF, 1), [Epid(SELF, 0)]),
                           TAG1 := Entry(Epid(SELF, 4), [Epid(SELF, 3), Epid(SELF, 2)])],
                       Proxy(5, TWO_ENV)))
  {
    var ops := TWO_INPUTS.ops;
    assert Flatten(ops[0].args, Remote, []) == TAG0.inputs;
    FirstCall();
    var one := Instance([Epid(SELF, 1)], {Epid(SELF, 1)},
      Registry(map[TAG0 := Entry(Epid(SELF, 1), [Epid(SELF, 0)])], Proxy(2, ONE_ENV)));
    assert Instantiate(ops, 0, Remote, EMPTY) == Instance([], {}, EMPTY);
    assert Instantiate(ops, 1, Remote, EMPTY) == one;
    assert Flatten(ops[1].args, Remote, one.results) == TAG1.inputs;
    SecondCall();
  }

  lemma TwoHistory()
    ensures HistoryOk([TWO_INPUTS]) && History([TWO_INPUTS]).proxy == Proxy(5, TWO_ENV)
  {
    TwoInstance();
    var inst := Instantiate(TWO_INPUTS.ops, 2, Remote, EMPTY);
    assert [TWO_INPUTS][..0] == [];
    assert Killed(inst.reg.memo, inst.refs) == {};
    assert inst.reg.proxy.env - {} == inst.reg.proxy.env;
    assert History([]) == EMPTY;
  }

  /** The smallest description with a wrong guard: the processor of its second call
      is sensitive to inputs 2 and 1, and with the coded masks some update of the
      generated code leaves it stale. */
  lemma TwoInputsGoStale() returns (slot': Slots, input: seq<Value>, g: nat, outs: Outs)
    ensures HistoryOk([TWO_INPUTS])
    ensures var p := History([TWO_INPUTS]).proxy;
            Sensitivity(p, 4) == [2, 1] && !UpdateRight(p, Code(p, CODED), ADD, ZERO, slot', input, g, outs)
  {
    TwoHistory();
    var p := Proxy(5, TWO_ENV);
    HistoryIsLinked([TWO_INPUTS]);
    TwoSensitive(p);
    slot', input, g, outs := WrongGuardGoesStale(p, 4);
  }

  lemma TwoSensitive(p: Proxy)
    requires WellNumbered(p) && p == Proxy(5, TWO_ENV)
    ensures Sensitivity(p, 4) == [2, 1]
  {
    TwoBuffers();
    TwoDepends();
    hide DependsOn, Inputs, AllDeps;
    SensitivityIsExact(p, 4, 0);
    SensitivityIsExact(p, 4, 1);
    SensitivityIsExact(p, 4, 2);
    OneAndTwo(Sensitivity(p, 4));
  }

  lemma TwoBuffers()
    ensures Inputs(TWO_ENV, 5) == [InputNode(0, Remote(0)), InputNode(2, Remote(1)), InputNode(3, Remote(2))]
  {
    var inputs := [InputNode(0, Remote(0)), InputNode(2, Remote(1)), InputNode(3, Remote(2))];
    assert Inputs(TWO_ENV, 0) == [];
    assert Inputs(TWO_ENV, 1) == inputs[..1];
    assert Inputs(TWO_ENV, 2) == inputs[..1];
    assert Inputs(TWO_ENV, 3) == inputs[..2];
    assert Inputs(TWO_ENV, 4) == inputs;
  }

  lemma TwoDepends()
    ensures DependsOn(TWO_ENV, 4, 2) && DependsOn(TWO_ENV, 4, 3) && !DependsOn(TWO_ENV, 4, 0)
  {
    assert TWO_ENV[4].inputs[0].epid.node == 2 && TWO_ENV[4].inputs[1].epid.node == 3;
  }

  lemma OneAndTwo(l: seq<nat>)
    requires Descending(l) && 1 in l && 2 in l && 0 !in l && forall i :: i in l ==> i < 3
    ensures l == [2, 1]
  {
    assert forall k :: 0 <= k < |l| ==> l[k] in l;
    var i :| 0 <= i < |l| && l[i] == 2;
    var j :| 0 <= j < |l| && l[j] == 1;
    assert l[0] in l && l[0] >= l[i];
    assert l[1] in l && l[1] >= l[j];
  }
}
