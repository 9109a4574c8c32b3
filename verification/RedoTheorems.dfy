/** What holds in every state the concurrent evaluator can reach, over any number
    of pull and push runs and any interleaving inside a run. */
module RedoTheorems {
  import opened Collections
  import opened RedoServer
  import opened RedoPull
  import opened RedoSound
  import opened RedoSystem
  import opened RedoInvariant

  // ---- Histories ----

  ghost predicate Legal(s: Sys, actions: seq<Action>)
    decreases |actions|
  {
    actions == [] || (Enabled(s, actions[0]) && Legal(Next(s, actions[0]), actions[1..]))
  }

  ghost function Exec(s: Sys, actions: seq<Action>): Sys
    requires Legal(s, actions)
    decreases |actions|
  {
    if actions == [] then s else Exec(Next(s, actions[0]), actions[1..])
  }

  ghost predicate Good(s: Sys) {
    RankedDeps(s.env) && Inverse(s.srv) && exists out :: IsPull(s.env, out) && Inv(s, out)
  }

  // ---- Dependencies stay ranked and sorted ----

  lemma {:induction false} RunNeedsRanked(env: Env, out: Outcomes, p: Product, h: History, track: bool,
                                          acc: seq<Product>)
    requires Sorted(acc) && forall d :: d in acc ==> env.rules.rank(d) < env.rules.rank(p)
    ensures var r := Run(env, out, p, h, track, acc);
            r.Gave? ==> Sorted(r.needs) && forall d :: d in r.needs ==> env.rules.rank(d) < env.rules.rank(p)
    decreases env.rules.height(p, h)
  {
    var act := Body(env.rules, env.world, p, h);
    if act.Need? && GetVals(Found(out, act.ds)).Some? {
      var acc' := if track then AddKeys(acc, act.ds) else acc;
      RunNeedsRanked(env, out, p, h + [GetVals(Found(out, act.ds)).value], track, acc');
    }
  }

  lemma OutcomeRanked(env: Env, out: Outcomes, p: Product)
    requires RankedDeps(env) && IsPull(env, out)
    ensures Sorted(out(p).deps) && forall d :: d in out(p).deps ==> env.rules.rank(d) < env.rules.rank(p)
  {
    assert out(p) == OutcomeOf(env, out, p);
    RunNeedsRanked(env, out, p, [], Old(env, p) == [], []);
  }

  lemma {:induction false} TableRanked(s: Sys, out: Outcomes, p: Product)
    requires RankedDeps(s.env) && IsPull(s.env, out) && Inv(s, out)
    ensures var ds := ListAt(s.srv.deps, p);
            Sorted(ds) && forall d :: d in ds ==> s.env.rules.rank(d) < s.env.rules.rank(p)
  {
    if p in s.srv.phase {
      assert PhaseOk(s, out, p);
      if s.srv.phase[p].Settled? {
        OutcomeRanked(s.env, out, p);
      } else {
        var i := WaitingHasWorker(s, out, p);
        assert WorkerOk(s, out, i);
      }
    }
  }

  // ---- Every step keeps Good ----

  lemma StepKeeps(s: Sys, a: Action, out: Outcomes)
    requires RankedDeps(s.env) && IsPull(s.env, out) && Inv(s, out) && Enabled(s, a) && !StartsRun(a)
    ensures Inv(Next(s, a), out) && Next(s, a).env == s.env
  {
    match a
    case ClientCall(p) => ClientCallKeeps(s, p, out);
    case ServeEval(c) =>
      var p := s.calls[c].product;
      if p in s.srv.phase && s.srv.phase[p].Waiting? { ServeEvalJoins(s, c, out); }
      else if p in s.srv.phase || s.env.rules.crashes(p) { ServeEvalReplies(s, c, out); }
      else { ServeEvalSpawns(s, c, out); }
    case Begin(w) => BeginKeeps(s, w, out);
    case Checked(w) => CheckedKeeps(s, w, out);
    case Ask(w) => AskKeeps(s, w, out);
    case Answered(w) => AnsweredKeeps(s, w, out);
    case EndRule(w) => EndRuleKeeps(s, w, out);
    case ServeDone(w) => DoneSettles(s, w, out); ServeDoneKeeps(s, w, out);
  }

  lemma {:induction false} StepKeepsInverse(s: Sys, a: Action)
    requires Inverse(s.srv) && Enabled(s, a)
    ensures Inverse(Next(s, a).srv)
  {
    hide UpdateReverseDeps, Collected, AnyChanged, FindVals, GetVals;
    if a.ServeDone? {
      var p, update := s.workers[a.w].product, s.workers[a.w].st.update;
      if RedoServer.ServeDone(s.srv, p, update).Some? { DoneKeepsInverse(s.srv, p, update); }
    } else {
      assert Next(s, a).srv.deps == s.srv.deps && Next(s, a).srv.rdeps == s.srv.rdeps;
    }
  }

  lemma StartKeeps(s: Sys, a: Action, out: Outcomes)
    requires RankedDeps(s.env) && IsPull(s.env, out) && Inv(s, out) && Enabled(s, a) && StartsRun(a)
    ensures var t := Next(s, a); RankedDeps(t.env) && exists out' :: IsPull(t.env, out') && Inv(t, out')
  {
    var t := Next(s, a);
    forall p | p in t.env.deps0
      ensures Sorted(t.env.deps0[p]) && forall d :: d in t.env.deps0[p] ==> t.env.rules.rank(d) < t.env.rules.rank(p)
    {
      TableRanked(s, out, p);
      assert ListAt(s.srv.deps, p) == t.env.deps0[p];
    }
    PullExists(t.env);
    var out' :| IsPull(t.env, out');
    if a.NextPull? { NextPullKeeps(s, a.world, out'); }
    else { NextPushKeeps(s, a.world, a.puts, a.changed, a.notChanged, out'); }
  }

  lemma GoodStep(s: Sys, a: Action)
    requires Good(s) && Enabled(s, a)
    ensures Good(Next(s, a))
  {
    var out :| IsPull(s.env, out) && Inv(s, out);
    StepKeepsInverse(s, a);
    if StartsRun(a) { StartKeeps(s, a, out); } else { StepKeeps(s, a, out); }
  }

  lemma {:induction false} GoodRun(s: Sys, actions: seq<Action>)
    requires Good(s) && Legal(s, actions)
    ensures Good(Exec(s, actions))
    decreases |actions|
  {
    if actions == [] {
    } else {
      GoodStep(s, actions[0]);
      GoodRun(Next(s, actions[0]), actions[1..]);
    }
  }

  lemma GoodInit(rules: Rules, world: Product -> Value)
    ensures Good(Init(rules, world))
  {
    var s := Init(rules, world);
    PullExists(s.env);
    var out :| IsPull(s.env, out);
    assert Inv(s, out);
  }

  /** Every reachable state is good. */
  lemma Reachable(rules: Rules, world: Product -> Value, actions: seq<Action>)
    requires Legal(Init(rules, world), actions)
    ensures Good(Exec(Init(rules, world), actions))
  {
    GoodInit(rules, world);
    GoodRun(Init(rules, world), actions);
  }

  // ---- Protocol safety ----

  /** No interleaving throws worker_done_phase_error; a product has at most one
      worker in a run; a call gets at most one reply; callers of the same product
      get the same reply. */
  lemma ProtocolSafe(s: Sys)
    requires Good(s)
    ensures !s.crashed
    ensures forall i, j :: 0 <= i < j < |s.workers| ==> s.workers[i].product != s.workers[j].product
    ensures forall c :: 0 <= c < |s.calls| ==> |s.calls[c].replies| <= 1
    ensures forall c, d :: (0 <= c < |s.calls| && 0 <= d < |s.calls| && s.calls[c].product == s.calls[d].product
                            && s.calls[c].replies != [] && s.calls[d].replies != [])
              ==> s.calls[c].replies == s.calls[d].replies
  {
    var out :| IsPull(s.env, out) && Inv(s, out);
    forall c | 0 <= c < |s.calls|
      ensures |s.calls[c].replies| <= 1
      ensures s.calls[c].replies != [] ==> s.calls[c].replies == [out(s.calls[c].product).answer]
    {
      assert CallOk(s, out, c);
    }
  }

  lemma EvalMovesPhase(s: Server, caller: CallId, q: Product, crashes: bool, worker: Pid, p: Product)
    ensures var t := RedoServer.ServeEval(s, caller, q, crashes, worker).server;
            && (p in s.phase ==> p in t.phase && (s.phase[p].Settled? ==> t.phase[p] == s.phase[p]))
            && (p !in s.phase && p in t.phase ==> t.phase[p].Waiting?)
  {
  }

  lemma DoneMovesPhase(s: Sys, a: Action, p: Product)
    requires Good(s) && Enabled(s, a) && a.ServeDone?
    ensures var t := Next(s, a);
            (p in s.srv.phase <==> p in t.srv.phase)
            && (p in s.srv.phase && s.srv.phase[p].Settled? ==> t.srv.phase[p] == s.srv.phase[p])
  {
    var out :| IsPull(s.env, out) && Inv(s, out);
    DoneSettles(s, a.w, out);
    hide Good, Inv;
  }

  /** Phases only move from absent to waiting to settled, and a settled answer never changes. */
  lemma {:induction false} PhaseMoves(s: Sys, a: Action, p: Product)
    requires Good(s) && Enabled(s, a) && !StartsRun(a)
    ensures var t := Next(s, a);
            p in s.srv.phase ==> p in t.srv.phase && (s.srv.phase[p].Settled? ==> t.srv.phase[p] == s.srv.phase[p])
    ensures var t := Next(s, a); p !in s.srv.phase && p in t.srv.phase ==> t.srv.phase[p].Waiting?
  {
    hide Good;
    if a.ServeDone? {
      DoneMovesPhase(s, a, p);
    } else if a.ServeEval? {
      var q := s.calls[a.c].product;
      EvalMovesPhase(s.srv, a.c, q, s.env.rules.crashes(q), |s.workers|, p);
    } else {
      assert Next(s, a).srv.phase == s.srv.phase;
    }
  }

  /** The inverse table is exact in every reachable state: p once under each of its recorded needs, nowhere else. */
  lemma InverseTableExact(s: Sys, p: Product, d: Product)
    requires Good(s)
    ensures p in ListAt(s.srv.rdeps, d) <==> d in ListAt(s.srv.deps, p)
    ensures Count(s.srv.rdeps, d, p) <= 1
  {
    var out :| IsPull(s.env, out) && Inv(s, out);
    TableRanked(s, out, p);
    InverseIsExact(s.srv, p, d);
  }

  /** Whatever the interleaving, a settled product holds what the functional pull gives it. */
  lemma EveryInterleavingAgrees(s: Sys, out: Outcomes, p: Product)
    requires Good(s) && IsPull(s.env, out) && IsSettled(s, p)
    ensures s.srv.phase[p].answer == out(p).answer
    ensures Lookup(s.srv.vals, p) == out(p).val && ListAt(s.srv.deps, p) == out(p).deps
  {
    var out' :| IsPull(s.env, out') && Inv(s, out');
    PullIsUnique(s.env, out, out', s.env.rules.rank(p) + 1);
    assert PhaseOk(s, out', p);
  }

  /** So a product evaluated in this run was answered "unchanged" exactly if the value
      now stored is the one stored at the start, and an error left that one in place. */
  lemma AnswerIsChange(s: Sys, p: Product)
    requires Good(s) && IsSettled(s, p) && p !in s.env.preset
    ensures var answer := s.srv.phase[p].answer;
            var same := Lookup(s.srv.vals, p) == Lookup(s.env.vals0, p);
            (answer == No ==> same) && (answer == Yes ==> !same) && (answer == Error ==> same)
  {
    var out :| IsPull(s.env, out) && Inv(s, out);
    EveryInterleavingAgrees(s, out, p);
    AnswersMean(s.env, out, p);
  }

  // ---- The end of a run ----

  function MaxRank(rules: Rules, workers: seq<Worker>): (m: nat)
    ensures forall i :: 0 <= i < |workers| ==> rules.rank(workers[i].product) <= m
  {
    if workers == [] then 0
    else
      var m := MaxRank(rules, workers[1..]);
      var r := rules.rank(workers[0].product);
      assert forall i :: 1 <= i < |workers| ==> workers[i] == workers[1..][i - 1];
      if r > m then r else m
  }

  /** Someone waits for every waiting product, and above the last worker there is only the client. */
  lemma {:induction false} IdleClientNoWaiting(s: Sys, out: Outcomes, p: Product)
    requires Inv(s, out) && ClientIdle(s)
    ensures !(p in s.srv.phase && s.srv.phase[p].Waiting?)
    decreases MaxRank(s.env.rules, s.workers) - s.env.rules.rank(p)
  {
    if p in s.srv.phase && s.srv.phase[p].Waiting? {
      var i := WaitingHasWorker(s, out, p);
      assert PhaseOk(s, out, p);
      var c := s.srv.phase[p].waiters[0];
      assert c in s.srv.phase[p].waiters;
      assert CallOk(s, out, c);
      var q := s.workers[s.calls[c].owner.w].product;
      assert WorkerOk(s, out, s.calls[c].owner.w);
      IdleClientNoWaiting(s, out, q);
    }
  }

  /** When the caller of a pull has its answers, nothing is left running: no phase
      waits, every worker has exited, every call was answered exactly once. */
  lemma PullReturnsQuiescent(s: Sys)
    requires Good(s) && ClientIdle(s)
    ensures forall p :: p in s.srv.phase ==> s.srv.phase[p].Settled?
    ensures forall i :: 0 <= i < |s.workers| ==> s.workers[i].st.Exited?
    ensures forall c :: 0 <= c < |s.calls| ==> |s.calls[c].replies| == 1
  {
    var out :| IsPull(s.env, out) && Inv(s, out);
    forall p | p in s.srv.phase ensures s.srv.phase[p].Settled? { IdleClientNoWaiting(s, out, p); }
    forall i | 0 <= i < |s.workers| ensures s.workers[i].st.Exited? { assert WorkerOk(s, out, i); }
    forall c | 0 <= c < |s.calls| ensures |s.calls[c].replies| == 1 {
      assert CallOk(s, out, c);
    }
  }

  // ---- Soundness over covered histories ----

  /** In the run that just ended, every product with a changed recorded need was evaluated. */
  ghost predicate CoveredRun(s: Sys) {
    forall p, d :: d in Old(s.env, p) && IsSettled(s, d) && s.srv.phase[d].answer == Yes
      ==> IsSettled(s, p) && p !in s.env.preset
  }

  /** A push stores values only for pushed sources, and what it seeds is right in the new world. */
  ghost predicate HonestPush(s: Sys, a: Action)
    requires a.NextPush?
  {
    && (forall p :: p in a.puts ==> p in a.changed && ListAt(s.srv.deps, p) == [])
    && forall val, p :: IsScratch(s.env.rules, a.world, val) && (p in a.changed || p in a.notChanged) ==>
         val(p).Some? && Lookup(s.srv.vals + a.puts, p) == val(p)
  }

  /** A run may start after a covered run, and a push must be honest. */
  ghost predicate SoundStart(s: Sys, a: Action) {
    StartsRun(a) ==> CoveredRun(s) && (a.NextPush? ==> HonestPush(s, a))
  }

  ghost predicate CoveredHistory(s: Sys, actions: seq<Action>)
    requires Legal(s, actions)
    decreases |actions|
  {
    actions != [] ==> SoundStart(s, actions[0]) && CoveredHistory(Next(s, actions[0]), actions[1..])
  }

  ghost predicate SoundEnv(env: Env) {
    ConsistentStore(env) && forall val :: IsScratch(env.rules, env.world, val) ==> HonestPreset(env, val)
  }

  ghost function SettledSet(s: Sys): set<Product> {
    set p | p in s.srv.phase && s.srv.phase[p].Settled?
  }

  /** The tables between two runs, seen as the store of the next one. */
  ghost function After(s: Sys, world: Product -> Value): Env {
    Env(s.env.rules, world, map[], s.srv.deps, s.srv.vals)
  }

  /** At the end of a run the tables are those the functional pull describes. */
  lemma RunLeaves(s: Sys, out: Outcomes, world: Product -> Value)
    requires Inv(s, out) && ClientIdle(s)
    ensures Leaves(s.env, out, SettledSet(s), After(s, world)) && ClosedRun(s.env, out, SettledSet(s))
    ensures forall q :: q in s.env.preset ==> q in SettledSet(s)
  {
    var S, next := SettledSet(s), After(s, world);
    forall q
      ensures Old(next, q) == (if q in S then out(q).deps else Old(s.env, q))
      ensures Lookup(next.vals0, q) == (if q in S then out(q).val else Lookup(s.env.vals0, q))
      ensures q in S && q !in s.env.preset ==> !s.env.rules.crashes(q) && forall d :: d in out(q).deps ==> d in S
    {
      IdleClientNoWaiting(s, out, q);
      if q in S { assert PhaseOk(s, out, q); }
    }
  }

  lemma CoveredIs(s: Sys, out: Outcomes)
    requires Inv(s, out) && CoveredRun(s)
    ensures Covered(s.env, out, SettledSet(s))
  {
    var S := SettledSet(s);
    forall p, d | d in Old(s.env, p) && d in S && out(d).answer == Yes ensures p in S && p !in s.env.preset {
      assert PhaseOk(s, out, d);
    }
  }

  lemma CoveredRunLeavesConsistent(s: Sys, world: Product -> Value, p: Product)
    requires Good(s) && ClientIdle(s) && SoundEnv(s.env) && CoveredRun(s) && ListAt(s.srv.deps, p) != []
    ensures Consistent(After(s, world), p)
  {
    var out :| IsPull(s.env, out) && Inv(s, out);
    RunLeaves(s, out, world);
    CoveredIs(s, out);
    CoveredRunKeepsConsistent(s.env, out, SettledSet(s), After(s, world), p);
  }

  lemma StartConsistent(s: Sys, a: Action, p: Product)
    requires Enabled(s, a) && StartsRun(a) && (a.NextPush? ==> HonestPush(s, a))
    requires Consistent(After(s, a.world), p)
    requires Old(Next(s, a).env, p) != []
    requires forall d :: d in Old(Next(s, a).env, p) ==> Lookup(Next(s, a).env.preset, d) != Some(Yes)
    ensures Consistent(Next(s, a).env, p)
  {
    var mid, env := After(s, a.world), Next(s, a).env;
    forall d | d == p || d in Old(env, p) ensures Stored(env)(d) == Stored(mid)(d) {}
    KeptConsistent(mid, env, p);
  }

  lemma StartHonest(s: Sys, a: Action, val: Valuation)
    requires Enabled(s, a) && StartsRun(a) && (a.NextPush? ==> HonestPush(s, a))
    requires IsScratch(Next(s, a).env.rules, Next(s, a).env.world, val)
    ensures HonestPreset(Next(s, a).env, val)
  {
    var env := Next(s, a).env;
    forall p | p in env.preset ensures env.preset[p] != Error && p in env.vals0 && val(p) == Some(env.vals0[p]) {
      assert p in a.changed || p in a.notChanged;
    }
  }

  lemma SoundStartStep(s: Sys, a: Action)
    requires Good(s) && Enabled(s, a) && StartsRun(a) && SoundEnv(s.env) && SoundStart(s, a)
    ensures SoundEnv(Next(s, a).env)
  {
    var env := Next(s, a).env;
    forall p | Old(env, p) != [] && (forall d :: d in Old(env, p) ==> Lookup(env.preset, d) != Some(Yes))
      ensures Consistent(env, p)
    {
      CoveredRunLeavesConsistent(s, a.world, p);
      StartConsistent(s, a, p);
    }
    forall val | IsScratch(env.rules, env.world, val) ensures HonestPreset(env, val) { StartHonest(s, a, val); }
  }

  lemma {:induction false} CoveredHistoryKeeps(s: Sys, actions: seq<Action>)
    requires Good(s) && SoundEnv(s.env) && Legal(s, actions) && CoveredHistory(s, actions)
    ensures Good(Exec(s, actions)) && SoundEnv(Exec(s, actions).env)
    decreases |actions|
  {
    if actions == [] {
    } else {
      var a := actions[0];
      GoodStep(s, a);
      if StartsRun(a) {
        SoundStartStep(s, a);
      } else {
        var out :| IsPull(s.env, out) && Inv(s, out);
        StepKeeps(s, a, out);
      }
      CoveredHistoryKeeps(Next(s, a), actions[1..]);
    }
  }

  /** The stored value of a settled product is right: an error answer exactly when
      from-scratch evaluation fails, and otherwise the from-scratch value. */
  ghost predicate StoredRight(s: Sys, val: Valuation, p: Product) {
    IsSettled(s, p) ==>
      (s.srv.phase[p].answer == Error <==> val(p).None?) && (val(p).Some? ==> Lookup(s.srv.vals, p) == val(p))
  }

  /** Incremental evaluation is sound.  After any covered history of pulls and
      pushes, in any interleaving and at any moment of a run, every settled product
      holds its from-scratch value for the world of that run. */
  lemma IncrementalIsSound(rules: Rules, world: Product -> Value, actions: seq<Action>, val: Valuation, p: Product)
    requires Legal(Init(rules, world), actions) && CoveredHistory(Init(rules, world), actions)
    requires IsScratch(rules, Exec(Init(rules, world), actions).env.world, val)
    ensures StoredRight(Exec(Init(rules, world), actions), val, p)
  {
    var s0 := Init(rules, world);
    GoodInit(rules, world);
    CoveredHistoryKeeps(s0, actions);
    RulesFixed(s0, actions);
    var s := Exec(s0, actions);
    if IsSettled(s, p) {
      var out :| IsPull(s.env, out) && Inv(s, out);
      PullIsSound(s.env, out, val, s.env.rules.rank(p) + 1);
      assert Right(out, val, p);
      assert PhaseOk(s, out, p);
    }
  }

  lemma {:induction false} RulesFixed(s: Sys, actions: seq<Action>)
    requires Legal(s, actions)
    ensures Exec(s, actions).env.rules == s.env.rules
    decreases |actions|
  {
    if actions == [] {
    } else {
      RulesFixed(Next(s, actions[0]), actions[1..]);
    }
  }
}
