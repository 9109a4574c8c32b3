/** Push: the transitive closure over the inverse table is exact, and evaluating
    it covers every product that a truthful push affects. */
module RedoPush {
  import opened Collections
  import opened RedoServer
  import opened RedoPull
  import opened RedoSystem
  import opened RedoInvariant
  import opened RedoTheorems

  /** Dependents have larger rank, bounded by `top`: the inverse graph has no cycle. */
  ghost predicate Ascends(rdeps: Table, rank: Product -> nat, top: nat) {
    forall d, p :: p in ListAt(rdeps, d) ==> rank(d) < rank(p) <= top
  }

  ghost function Above(rank: Product -> nat, top: nat, v: Product): nat {
    if rank(v) <= top then top - rank(v) else 0
  }

  /** add_outputs: collect the terminal dependents of one product. */
  function AddOutputs(rdeps: Table, v: Product, outs: set<Product>, ghost rank: Product -> nat,
                      ghost top: nat): set<Product>
    requires Ascends(rdeps, rank, top)
    decreases Above(rank, top, v), 1, 0
  {
    var vs := ListAt(rdeps, v);
    if vs == [] then outs + {v} else AddAllOutputs(rdeps, v, vs, outs, rank, top)
  }

  function AddAllOutputs(rdeps: Table, ghost v: Product, vs: seq<Product>, outs: set<Product>,
                         ghost rank: Product -> nat, ghost top: nat): set<Product>
    requires Ascends(rdeps, rank, top) && forall w :: w in vs ==> w in ListAt(rdeps, v)
    decreases Above(rank, top, v), 0, |vs|
  {
    if vs == [] then outs
    else
      assert vs[0] in vs;
      AddAllOutputs(rdeps, v, vs[1..], AddOutputs(rdeps, vs[0], outs, rank, top), rank, top)
  }

  function AddInputs(rdeps: Table, inputs: seq<Product>, outs: set<Product>, ghost rank: Product -> nat,
                     ghost top: nat): set<Product>
    requires Ascends(rdeps, rank, top)
    decreases inputs
  {
    if inputs == [] then outs
    else AddInputs(rdeps, inputs[1..], AddOutputs(rdeps, inputs[0], outs, rank, top), rank, top)
  }

  /** transitive_closure: the terminal dependents of the inputs, minus the inputs. */
  function TransitiveClosure(rdeps: Table, inputs: seq<Product>, ghost rank: Product -> nat,
                             ghost top: nat): set<Product>
    requires Ascends(rdeps, rank, top)
  {
    AddInputs(rdeps, inputs, {}, rank, top) - set i | i in inputs
  }

  // ---- Reachability, stated by paths ----

  ghost predicate IsPath(rdeps: Table, path: seq<Product>) {
    path != [] && forall i :: 0 <= i < |path| - 1 ==> path[i + 1] in ListAt(rdeps, path[i])
  }

  ghost predicate Reaches(rdeps: Table, a: Product, b: Product) {
    exists path :: IsPath(rdeps, path) && path[0] == a && path[|path| - 1] == b
  }

  lemma ReachesSelf(rdeps: Table, a: Product)
    ensures Reaches(rdeps, a, a)
  {
    assert IsPath(rdeps, [a]) && [a][|[a]| - 1] == a;
  }

  lemma ReachesStep(rdeps: Table, a: Product, w: Product, b: Product)
    requires w in ListAt(rdeps, a) && Reaches(rdeps, w, b)
    ensures Reaches(rdeps, a, b)
  {
    var path :| IsPath(rdeps, path) && path[0] == w && path[|path| - 1] == b;
    var longer := [a] + path;
    forall i | 0 <= i < |longer| - 1 ensures longer[i + 1] in ListAt(rdeps, longer[i]) {
      if i > 0 { assert longer[i] == path[i - 1] && longer[i + 1] == path[i - 1 + 1]; }
    }
    assert IsPath(rdeps, longer) && longer[|longer| - 1] == b;
  }

  lemma ReachesThrough(rdeps: Table, a: Product, b: Product, c: Product)
    requires Reaches(rdeps, a, b) && c in ListAt(rdeps, b)
    ensures Reaches(rdeps, a, c)
  {
    var path :| IsPath(rdeps, path) && path[0] == a && path[|path| - 1] == b;
    var longer := path + [c];
    assert IsPath(rdeps, longer) && longer[|longer| - 1] == c;
  }

  lemma ReachesFirst(rdeps: Table, a: Product, b: Product) returns (w: Product)
    requires Reaches(rdeps, a, b) && a != b
    ensures w in ListAt(rdeps, a) && Reaches(rdeps, w, b)
  {
    var path :| IsPath(rdeps, path) && path[0] == a && path[|path| - 1] == b;
    w := path[0 + 1];
    var rest := path[1..];
    forall i | 0 <= i < |rest| - 1 ensures rest[i + 1] in ListAt(rdeps, rest[i]) {
      assert path[i + 1 + 1] in ListAt(rdeps, path[i + 1]);
    }
    assert IsPath(rdeps, rest) && rest[|rest| - 1] == b;
  }

  ghost predicate TerminalFrom(rdeps: Table, v: Product, x: Product) {
    ListAt(rdeps, x) == [] && Reaches(rdeps, v, x)
  }

  lemma {:induction false} AddOutputsExact(rdeps: Table, v: Product, outs: set<Product>, rank: Product -> nat,
                                           top: nat, x: Product)
    requires Ascends(rdeps, rank, top)
    ensures x in AddOutputs(rdeps, v, outs, rank, top) <==> x in outs || TerminalFrom(rdeps, v, x)
    decreases Above(rank, top, v), 1, 0
  {
    var vs := ListAt(rdeps, v);
    if vs == [] {
      ReachesSelf(rdeps, v);
      if Reaches(rdeps, v, x) && x != v { var w := ReachesFirst(rdeps, v, x); }
    } else {
      AddAllExact(rdeps, v, vs, outs, rank, top, x);
      if TerminalFrom(rdeps, v, x) { var w := ReachesFirst(rdeps, v, x); }
      if w :| w in vs && TerminalFrom(rdeps, w, x) { ReachesStep(rdeps, v, w, x); }
    }
  }

  lemma {:induction false} AddAllExact(rdeps: Table, v: Product, vs: seq<Product>, outs: set<Product>,
                                       rank: Product -> nat, top: nat, x: Product)
    requires Ascends(rdeps, rank, top) && forall w :: w in vs ==> w in ListAt(rdeps, v)
    ensures x in AddAllOutputs(rdeps, v, vs, outs, rank, top) <==>
            x in outs || exists w :: w in vs && TerminalFrom(rdeps, w, x)
    decreases Above(rank, top, v), 0, |vs|
  {
    if vs == [] {
    } else {
      assert vs[0] in vs;
      AddOutputsExact(rdeps, vs[0], outs, rank, top, x);
      AddAllExact(rdeps, v, vs[1..], AddOutputs(rdeps, vs[0], outs, rank, top), rank, top, x);
      assert forall w :: w in vs <==> w == vs[0] || w in vs[1..];
    }
  }

  lemma {:induction false} AddInputsExact(rdeps: Table, inputs: seq<Product>, outs: set<Product>, rank: Product -> nat,
                                          top: nat, x: Product)
    requires Ascends(rdeps, rank, top)
    ensures x in AddInputs(rdeps, inputs, outs, rank, top) <==>
            x in outs || exists i :: i in inputs && TerminalFrom(rdeps, i, x)
    decreases inputs
  {
    if inputs == [] {
    } else {
      AddOutputsExact(rdeps, inputs[0], outs, rank, top, x);
      AddInputsExact(rdeps, inputs[1..], AddOutputs(rdeps, inputs[0], outs, rank, top), rank, top, x);
      assert forall i :: i in inputs <==> i == inputs[0] || i in inputs[1..];
    }
  }

  /** The closure is exact: the products without dependents that a changed product
      reaches through the inverse table, apart from the changed products. */
  lemma TransitiveClosureExact(rdeps: Table, inputs: seq<Product>, rank: Product -> nat, top: nat, x: Product)
    requires Ascends(rdeps, rank, top)
    ensures x in TransitiveClosure(rdeps, inputs, rank, top) <==>
            x !in inputs && ListAt(rdeps, x) == [] && exists i :: i in inputs && Reaches(rdeps, i, x)
  {
    AddInputsExact(rdeps, inputs, {}, rank, top, x);
    if i :| i in inputs && Reaches(rdeps, i, x) && ListAt(rdeps, x) == [] { assert TerminalFrom(rdeps, i, x); }
  }

  // ---- Evaluating a product evaluates what it was recorded to need ----

  ghost predicate Evaluated(s: Sys, ds: seq<Product>) {
    forall d :: d in ds ==> IsSettled(s, d) || s.env.rules.crashes(d)
  }

  /** A worker past its dependency check, and a settled product, have had their recorded needs evaluated. */
  ghost predicate NeedsChecked(s: Sys) {
    && (forall i :: 0 <= i < |s.workers| && PastCheck(s.workers[i]) ==> Evaluated(s, s.workers[i].old_))
    && (forall p :: IsSettled(s, p) && p !in s.env.preset ==> Evaluated(s, Old(s.env, p)))
  }

  lemma EvaluatedGrows(s: Sys, t: Sys, ds: seq<Product>)
    requires t.env == s.env && SettledGrows(s, t) && Evaluated(s, ds)
    ensures Evaluated(t, ds)
  {
  }

  lemma StepSettledGrows(s: Sys, a: Action, out: Outcomes)
    requires Good(s) && Inv(s, out) && Enabled(s, a) && !StartsRun(a)
    ensures SettledGrows(s, Next(s, a)) && Next(s, a).env == s.env
  {
    forall p | IsSettled(s, p) ensures IsSettled(Next(s, a), p) { PhaseMoves(s, a, p); }
    if a.ServeDone? { DoneFindsWaiters(s, a.w, out); }
  }

  /** A worker past its dependency check, or without old dependencies to check. */
  predicate PastCheck(w: Worker) {
    !w.st.Start? && !w.st.Checking?
  }

  /** A worker gets past its check only by having it answered, or by having nothing to check. */
  lemma {:induction false} WorkerMoves(s: Sys, a: Action, i: Pid)
    requires Enabled(s, a) && !StartsRun(a) && Is(Next(s, a), i) && PastCheck(Next(s, a).workers[i])
    ensures Is(s, i) && Next(s, a).workers[i].old_ == s.workers[i].old_
    ensures PastCheck(s.workers[i]) || a == Checked(i) || s.workers[i].old_ == []
  {
  }

  lemma {:induction false} CheckedEvaluates(s: Sys, out: Outcomes, w: Pid)
    requires Inv(s, out) && Enabled(s, Checked(w))
    ensures Evaluated(s, s.workers[w].old_)
  {
    var worker := s.workers[w];
    assert WorkerOk(s, out, w);
    CollectedAnswers(s, out, w, worker.st.from, Keys(worker.old_));
    forall d | d in worker.old_ ensures IsSettled(s, d) || s.env.rules.crashes(d) { assert d in Keys(worker.old_); }
  }

  lemma {:induction false} WorkerStaysChecked(s: Sys, a: Action, out: Outcomes, i: Pid)
    requires Inv(s, out) && NeedsChecked(s) && Enabled(s, a) && !StartsRun(a)
    requires SettledGrows(s, Next(s, a)) && Next(s, a).env == s.env
    requires Is(Next(s, a), i) && PastCheck(Next(s, a).workers[i])
    ensures Evaluated(Next(s, a), Next(s, a).workers[i].old_)
  {
    hide Inv, Enabled, Next;
    WorkerMoves(s, a, i);
    if a == Checked(i) { CheckedEvaluates(s, out, i); }
    EvaluatedGrows(s, Next(s, a), s.workers[i].old_);
  }

  lemma {:induction false} DoneSettlesChecked(s: Sys, out: Outcomes, w: Pid)
    requires Inv(s, out) && NeedsChecked(s) && Enabled(s, ServeDone(w))
    ensures Evaluated(s, Old(s.env, s.workers[w].product))
  {
    assert WorkerOk(s, out, w);
  }

  lemma {:induction false} StepKeepsChecked(s: Sys, a: Action)
    requires Good(s) && NeedsChecked(s) && Enabled(s, a) && !StartsRun(a)
    ensures NeedsChecked(Next(s, a))
  {
    var out :| IsPull(s.env, out) && Inv(s, out);
    StepSettledGrows(s, a, out);
    hide Inv, Enabled, Next, Good;
    var t := Next(s, a);
    forall i | 0 <= i < |t.workers| && PastCheck(t.workers[i]) ensures Evaluated(t, t.workers[i].old_) {
      WorkerStaysChecked(s, a, out, i);
    }
    forall p | IsSettled(t, p) && p !in t.env.preset ensures Evaluated(t, Old(t.env, p)) {
      if !IsSettled(s, p) {
        SettlesOnlyAtDone(s, a, p);
        DoneSettlesChecked(s, out, a.w);
      }
      EvaluatedGrows(s, t, Old(s.env, p));
    }
  }

  lemma EvalSettlesNone(s: Server, caller: CallId, q: Product, crashes: bool, worker: Pid, p: Product)
    ensures var t := RedoServer.ServeEval(s, caller, q, crashes, worker).server;
            p in t.phase && t.phase[p].Settled? ==> p in s.phase && s.phase[p].Settled?
  {
  }

  /** Only worker_done settles a product. */
  lemma SettlesOnlyAtDone(s: Sys, a: Action, p: Product)
    requires Good(s) && Enabled(s, a) && !StartsRun(a) && !IsSettled(s, p) && IsSettled(Next(s, a), p)
    ensures a.ServeDone? && s.workers[a.w].product == p
  {
    if a.ServeDone? {
      var out :| IsPull(s.env, out) && Inv(s, out);
      DoneSettles(s, a.w, out);
      hide Next, Enabled, Inv, IsPull, Good;
    } else {
      hide Good;
      if a.ServeEval? {
        var q := s.calls[a.c].product;
        EvalSettlesNone(s.srv, a.c, q, s.env.rules.crashes(q), |s.workers|, p);
      }
    }
  }

  lemma StartChecked(s: Sys, a: Action)
    requires Enabled(s, a) && StartsRun(a)
    ensures NeedsChecked(Next(s, a))
  {
    if a.NextPush? {
      forall p | p in Next(s, a).srv.phase ensures p in Next(s, a).env.preset {
        SettleAllAt(a.changed, Yes, SettleAll(a.notChanged, No, map[]), p);
        SettleAllAt(a.notChanged, No, map[], p);
      }
    }
  }

  /** A product whose update function cannot be found never records needs. */
  ghost predicate CrashedHaveNoNeeds(s: Sys) {
    forall p :: s.env.rules.crashes(p) ==> Old(s.env, p) == [] && ListAt(s.srv.deps, p) == []
  }

  /** Only worker_done changes recorded needs; a run starts with those it finds. */
  lemma DepsOnlyAtDone(s: Sys, a: Action)
    requires Enabled(s, a) && !a.ServeDone?
    ensures var t := Next(s, a);
            t.srv.deps == s.srv.deps && t.env.rules == s.env.rules && t.env.deps0 in {s.env.deps0, s.srv.deps}
  {
  }

  lemma StepKeepsCrashed(s: Sys, a: Action)
    requires Good(s) && CrashedHaveNoNeeds(s) && Enabled(s, a)
    ensures CrashedHaveNoNeeds(Next(s, a))
  {
    if a.ServeDone? {
      var out :| IsPull(s.env, out) && Inv(s, out);
      assert WorkerOk(s, out, a.w);
      DoneSettles(s, a.w, out);
      hide Next, Enabled, Inv, IsPull, WorkerOk;
    } else {
      DepsOnlyAtDone(s, a);
    }
  }

  lemma {:induction false} PushFactsHold(s: Sys, actions: seq<Action>)
    requires Good(s) && NeedsChecked(s) && CrashedHaveNoNeeds(s) && Legal(s, actions)
    ensures Good(Exec(s, actions)) && NeedsChecked(Exec(s, actions)) && CrashedHaveNoNeeds(Exec(s, actions))
    decreases |actions|
  {
    if actions == [] {
    } else {
      GoodStep(s, actions[0]);
      if StartsRun(actions[0]) { StartChecked(s, actions[0]); } else { StepKeepsChecked(s, actions[0]); }
      StepKeepsCrashed(s, actions[0]);
      PushFactsHold(Next(s, actions[0]), actions[1..]);
    }
  }

  // ---- A push covers what it changes ----

  /** The inverse table at the start of the run. */
  ghost predicate InverseOfOld(env: Env, rdeps: Table) {
    forall p, d :: p in ListAt(rdeps, d) <==> d in Old(env, p)
  }

  /** Only sources are pushed. */
  ghost predicate PushesSources(env: Env, changed: seq<Product>) {
    && (forall q :: q in env.preset ==> Old(env, q) == [] && (q in changed <==> env.preset[q] == Yes))
    && (forall q :: q in changed ==> q in env.preset)
  }

  /** And a source that is not pushed has not changed. */
  ghost predicate TruthfulPush(env: Env, out: Outcomes, changed: seq<Product>) {
    && PushesSources(env, changed)
    && (forall p, q :: q in Old(env, p) && Old(env, q) == [] && q !in changed ==> out(q).answer == No)
  }

  /** A source below d, along recorded needs, has not changed unless it was pushed. */
  ghost predicate QuietBelow(env: Env, out: Outcomes, changed: seq<Product>, d: Product)
    requires RankedDeps(env)
    decreases env.rules.rank(d)
  {
    && (Old(env, d) == [] && d !in changed ==> out(d).answer == No)
    && (forall e :: e in Old(env, d) ==> QuietBelow(env, out, changed, e))
  }

  lemma {:induction false} TruthIsQuiet(env: Env, out: Outcomes, changed: seq<Product>, p: Product, d: Product)
    requires RankedDeps(env) && TruthfulPush(env, out, changed) && d in Old(env, p)
    ensures QuietBelow(env, out, changed, d)
    decreases env.rules.rank(d)
  {
    forall e | e in Old(env, d) ensures QuietBelow(env, out, changed, e) { TruthIsQuiet(env, out, changed, d, e); }
  }

  /** A product that does not answer "unchanged" is reached from a pushed one. */
  lemma {:induction false} ChangeIsReached(s: Sys, out: Outcomes, rdeps: Table, changed: seq<Product>, d: Product)
    returns (i: Product)
    requires RankedDeps(s.env) && IsPull(s.env, out) && InverseOfOld(s.env, rdeps)
    requires PushesSources(s.env, changed) && QuietBelow(s.env, out, changed, d) && CrashedHaveNoNeeds(s)
    requires out(d).answer != No
    ensures i in changed && Reaches(rdeps, i, d)
    decreases s.env.rules.rank(d)
  {
    if Old(s.env, d) == [] {
      i := d;
      ReachesSelf(rdeps, d);
    } else {
      assert out(d) == OutcomeOf(s.env, out, d);
      var ks := Keys(Old(s.env, d));
      var j :| 0 <= j < |ks| && Answers(out, ks)[j] != No;
      assert ks[j] in Old(s.env, d);
      i := ChangeIsReached(s, out, rdeps, changed, ks[j]);
      ReachesThrough(rdeps, i, ks[j], d);
    }
  }

  /** The client has asked for the whole closure of the pushed products. */
  ghost predicate AsksForClosure(s: Sys, rdeps: Table, changed: seq<Product>, top: nat)
    requires Ascends(rdeps, s.env.rules.rank, top)
  {
    forall t :: t in TransitiveClosure(rdeps, changed, s.env.rules.rank, top) ==>
      exists c :: 0 <= c < |s.calls| && s.calls[c].owner.Client? && s.calls[c].product == t
  }

  /** What a pushed product reaches has been evaluated once the closure has been answered. */
  lemma {:induction false} ReachedIsSettled(s: Sys, out: Outcomes, rdeps: Table, changed: seq<Product>, top: nat,
                                            i: Product, p: Product)
    requires Inv(s, out) && ClientIdle(s) && NeedsChecked(s) && CrashedHaveNoNeeds(s)
    requires InverseOfOld(s.env, rdeps) && PushesSources(s.env, changed)
    requires Ascends(rdeps, s.env.rules.rank, top) && AsksForClosure(s, rdeps, changed, top)
    requires i in changed && Reaches(rdeps, i, p) && Old(s.env, p) != []
    ensures IsSettled(s, p)
    decreases Above(s.env.rules.rank, top, p)
  {
    var vs := ListAt(rdeps, p);
    if vs == [] {
      TransitiveClosureExact(rdeps, changed, s.env.rules.rank, top, p);
      var c :| 0 <= c < |s.calls| && s.calls[c].owner.Client? && s.calls[c].product == p;
      assert CallOk(s, out, c);
    } else {
      assert vs[0] in vs;
      ReachesThrough(rdeps, i, p, vs[0]);
      ReachedIsSettled(s, out, rdeps, changed, top, i, vs[0]);
      assert p in Old(s.env, vs[0]);
      assert Evaluated(s, Old(s.env, vs[0]));
    }
  }

  /** When the pushed products are the changed sources and the closure has been
      evaluated, every product with a changed recorded need has been evaluated. */
  lemma PushIsCovered(s: Sys, out: Outcomes, rdeps: Table, changed: seq<Product>, top: nat)
    requires RankedDeps(s.env) && IsPull(s.env, out) && Inv(s, out)
    requires ClientIdle(s) && NeedsChecked(s) && CrashedHaveNoNeeds(s)
    requires InverseOfOld(s.env, rdeps) && TruthfulPush(s.env, out, changed)
    requires Ascends(rdeps, s.env.rules.rank, top) && AsksForClosure(s, rdeps, changed, top)
    ensures CoveredRun(s)
  {
    forall p, d | d in Old(s.env, p) && IsSettled(s, d) && s.srv.phase[d].answer == Yes
      ensures IsSettled(s, p) && p !in s.env.preset
    {
      assert PhaseOk(s, out, d);
      TruthIsQuiet(s.env, out, changed, p, d);
      var i := ChangeIsReached(s, out, rdeps, changed, d);
      ReachesThrough(rdeps, i, d, p);
      ReachedIsSettled(s, out, rdeps, changed, top, i, p);
    }
  }

  /** At the start of a run, pull or push, the server's own inverse table is the one
      required above, and it has no cycle. */
  lemma {:induction false} RunStartsWithInverse(s: Sys, a: Action)
    requires Good(s) && Enabled(s, a) && StartsRun(a)
    ensures InverseOfOld(Next(s, a).env, Next(s, a).srv.rdeps)
    ensures exists top :: Ascends(Next(s, a).srv.rdeps, s.env.rules.rank, top)
  {
    var t := Next(s, a);
    forall p, d ensures p in ListAt(t.srv.rdeps, d) <==> d in Old(t.env, p) { InverseTableExact(s, p, d); }
    var out :| IsPull(s.env, out) && Inv(s, out);
    var top := KeyRank(s.env.rules.rank, s.srv.deps.Keys);
    forall d, p | p in ListAt(t.srv.rdeps, d) ensures s.env.rules.rank(d) < s.env.rules.rank(p) <= top {
      assert d in Old(t.env, p);
      TableRanked(s, out, p);
    }
    assert Ascends(t.srv.rdeps, s.env.rules.rank, top);
  }

  ghost function KeyRank(rank: Product -> nat, ps: set<Product>): (m: nat)
    ensures forall p :: p in ps ==> rank(p) <= m
    decreases ps
  {
    if exists p :: p in ps then
      var p :| p in ps;
      var m := KeyRank(rank, ps - {p});
      if rank(p) > m then rank(p) else m
    else 0
  }
}
