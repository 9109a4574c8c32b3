/** The two objects behind instantiation, updated in place: the proxy that
    numbers nodes and the memo table that reuses, makes and kills them. */
module EpidObjects {
  import opened Dataflow
  import opened EpidApp

  class ProxyObject {
    var epidCount: nat
    var epidEnv: map<nat, EnvNode>

    function State(): Proxy
      reads this
    {
      Proxy(epidCount, epidEnv)
    }

    constructor ()
      ensures State() == Proxy(0, map[])
    {
      epidCount, epidEnv := 0, map[];
    }

    /** compile_app */
    method CompileApp(n: EnvNode) returns (epid: Epid)
      modifies this
      ensures (epid, State()) == AddNode(old(State()), n)
    {
      epid := Epid(SELF, epidCount);
      epidEnv := epidEnv[epidCount := n];
      epidCount := epidCount + 1;
    }

    /** {epid_app, OpType, InputPids}: buffer the external inputs, then add the processor. */
    method HandleEpidApp(op: Op, inputs: seq<Wire>) returns (entry: Entry)
      modifies this
      ensures (entry, State()) == HandleApp(old(State()), op, inputs)
    {
      var ins: seq<Wire> := [];
      var tmp: seq<Epid> := [];
      var i := 0;
      while i < |inputs|
        invariant 0 <= i <= |inputs|
        invariant (ins, State(), tmp) == CompileInputs(inputs[..i], old(State()))
      {
        assert inputs[..i + 1][..i] == inputs[..i];
        if Local(inputs[i].epid) {
          ins := ins + [inputs[i]];
        } else {
          var buffer := CompileApp(Buffer(inputs[i].epid));
          ins := ins + [Wire(inputs[i].name, buffer)];
          tmp := [buffer] + tmp;
        }
        i := i + 1;
      }
      assert inputs[..i] == inputs;
      var out := CompileApp(App(op, ins));
      entry := Entry(out, tmp);
    }

    /** {epid_kill, Epid} */
    method HandleEpidKill(e: Epid)
      modifies this`epidEnv
      ensures State() == old(State()).(env := old(epidEnv) - {e.node})
    {
      epidEnv := epidEnv - {e.node};
    }
  }

  lemma KilledStep(memo: map<Tag, Entry>, tag: Tag, entry: Entry, refs: set<Epid>)
    requires tag !in memo
    ensures Killed(memo[tag := entry], refs) ==
            Killed(memo, refs) + if entry.out in refs then {} else set o | o in Owned(entry) :: o.node
  {
    var memo' := memo[tag := entry];
    forall n | n in Killed(memo, refs) ensures n in Killed(memo', refs) {
      var t, e :| t in memo && memo[t].out !in refs && e in Owned(memo[t]) && e.node == n;
      assert memo'[t] == memo[t];
    }
    if entry.out !in refs {
      forall o | o in Owned(entry) ensures o.node in Killed(memo', refs) { assert memo'[tag] == entry; }
    }
  }

  class MemoTable {
    var memo: map<Tag, Entry>
    const proxy: ProxyObject

    function State(): Registry
      reads this, proxy
    {
      Registry(memo, proxy.State())
    }

    constructor (proxy: ProxyObject)
      requires proxy.State() == Proxy(0, map[])
      ensures this.proxy == proxy && State() == EMPTY
    {
      memo := map[];
      this.proxy := proxy;
    }

    method NeedApp(tag: Tag) returns (out: Epid)
      modifies this, proxy
      ensures (out, State()) == Need(old(State()), tag)
    {
      if tag in memo {
        out := memo[tag].out;
      } else {
        var entry := proxy.HandleEpidApp(tag.op, tag.inputs);
        memo := memo[tag := entry];
        out := entry.out;
      }
    }

    /** Kill an entry's output and its temporaries. */
    method Kill(entry: Entry)
      modifies proxy
      ensures proxy.State() == old(proxy.State()).(env := old(proxy.epidEnv) - set o | o in Owned(entry) :: o.node)
    {
      proxy.HandleEpidKill(entry.out);
      var i := 0;
      while i < |entry.tmp|
        invariant 0 <= i <= |entry.tmp|
        invariant proxy.epidCount == old(proxy.epidCount)
        invariant proxy.epidEnv == old(proxy.epidEnv) - ({entry.out.node} + set t | t in entry.tmp[..i] :: t.node)
      {
        assert entry.tmp[..i + 1] == entry.tmp[..i] + [entry.tmp[i]];
        proxy.HandleEpidKill(entry.tmp[i]);
        i := i + 1;
      }
      assert entry.tmp[..i] == entry.tmp;
      assert (set o | o in Owned(entry) :: o.node) == {entry.out.node} + set t | t in entry.tmp :: t.node;
    }

    method CollectGarbage(refs: set<Epid>)
      modifies this, proxy
      ensures State() == Collect(old(State()), refs)
    {
      ghost var all := memo;
      var todo := memo.Keys;
      while todo != {}
        invariant todo <= all.Keys
        invariant memo == map tag | tag in all && (tag in todo || all[tag].out in refs) :: all[tag]
        invariant proxy.epidCount == old(proxy.epidCount)
        invariant proxy.epidEnv == old(proxy.epidEnv) - Killed(all - todo, refs)
        decreases todo
      {
        var tag :| tag in todo;
        if memo[tag].out !in refs {
          Kill(memo[tag]);
          memo := memo - {tag};
        }
        assert all - (todo - {tag}) == (all - todo)[tag := all[tag]];
        KilledStep(all - todo, tag, all[tag], refs);
        todo := todo - {tag};
      }
      assert all - todo == all;
    }
  }
}
