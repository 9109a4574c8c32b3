/** Which runs leave every stored value right, evaluated or not, told from what the
    caller knows beforehand: the tables, the world, and what the run asks for. */
module RedoComplete {
  import opened Collections
  import opened RedoServer
  import opened RedoPull
  import opened RedoSound
  import opened RedoSystem
  import opened RedoInvariant
  import opened RedoTheorems
  import opened RedoPush

  // ---- What the tables hold in every state ----

  /** A rule that reads no product: it polls the world or is a constant. */
  predicate NeedsNothing(rules: Rules, p: Product) {
    rules.input(p) || rules.act(p, []).Give?
  }

  /** Recorded needs belong to stored products whose rule reads something, and are
      stored themselves; constants are stored with their value. */
  ghost predicate TableOk(rules: Rules, deps: Table, vals: map<Product, Value>, p: Product) {
    && (ListAt(deps, p) != [] ==> p in vals && !NeedsNothing(rules, p))
    && (forall d :: d in ListAt(deps, p) ==> d in vals)
    && (rules.crashes(p) ==> p !in vals)
    && (p in vals && !rules.input(p) && rules.act(p, []).Give? ==> vals[p] == rules.act(p, []).v)
  }

  ghost predicate TablesOk(rules: Rules, deps: Table, vals: map<Product, Value>) {
    forall p :: TableOk(rules, deps, vals, p)
  }

  ghost predicate EnvOk(env: Env) {
    TablesOk(env.rules, env.deps0, env.vals0)
  }

  lemma {:induction false} NeedsAreFound(env: Env, out: Outcomes, p: Product, h: History, track: bool,
                                         acc: seq<Product>)
    requires forall d :: d in acc ==> out(d).val.Some?
    ensures var r := Run(env, out, p, h, track, acc); r.Gave? ==> forall d :: d in r.needs ==> out(d).val.Some?
    decreases env.rules.height(p, h)
  {
    var act := Body(env.rules, env.world, p, h);
    if act.Need? && GetVals(Found(out, act.ds)).Some? {
      forall d | d in act.ds ensures out(d).val.Some? {
        var i :| 0 <= i < |act.ds| && act.ds[i] == d;
        assert Found(out, act.ds)[i] == out(d).val;
      }
      NeedsAreFound(env, out, p, h + [GetVals(Found(out, act.ds)).value], track,
        if track then AddKeys(acc, act.ds) else acc);
    }
  }

  /** What a run makes of one product fits the tables again. */
  lemma {:induction false} OutcomeFits(env: Env, out: Outcomes, p: Product)
    requires EnvOk(env) && IsPull(env, out)
    ensures out(p).deps != [] ==> out(p).val.Some? && !NeedsNothing(env.rules, p)
    ensures forall d :: d in out(p).deps ==> d in env.vals0 || out(d).val.Some?
    ensures env.rules.crashes(p) ==> out(p).val.None?
    ensures out(p).val.Some? && !env.rules.input(p) && env.rules.act(p, []).Give? ==>
              out(p).val == Some(env.rules.act(p, []).v)
    ensures p in env.vals0 ==> out(p).val.Some?
  {
    assert out(p) == OutcomeOf(env, out, p);
    assert TableOk(env.rules, env.deps0, env.vals0, p);
    NeedsAreFound(env, out, p, [], Old(env, p) == [], []);
  }

  /** In the middle of a run each product has its old or its new value and needs. */
  lemma {:induction false} TableNow(s: Sys, out: Outcomes, p: Product)
    requires Inv(s, out) && IsPull(s.env, out)
    ensures Lookup(s.srv.vals, p) == Lookup(s.env.vals0, p) || Lookup(s.srv.vals, p) == out(p).val
    ensures ListAt(s.srv.deps, p) == Old(s.env, p) || (ListAt(s.srv.deps, p) == out(p).deps && IsSettled(s, p))
    ensures IsSettled(s, p) ==> Lookup(s.srv.vals, p) == out(p).val
    ensures IsSettled(s, p) && p !in s.env.preset ==> forall d :: d in out(p).deps ==> IsSettled(s, d)
    ensures IsSettled(s, p) && p in s.env.preset ==> out(p).deps == Old(s.env, p)
  {
    assert out(p) == OutcomeOf(s.env, out, p);
    if p in s.srv.phase {
      assert PhaseOk(s, out, p);
      if s.srv.phase[p].Waiting? {
        var i := WaitingHasWorker(s, out, p);
        assert WorkerOk(s, out, i);
      }
    }
  }

  /** A stored value is never lost within a run. */
  lemma {:induction false} StaysStored(s: Sys, out: Outcomes, p: Product)
    requires Inv(s, out) && IsPull(s.env, out) && EnvOk(s.env)
    ensures p in s.env.vals0 ==> p in s.srv.vals
    ensures IsSettled(s, p) && out(p).val.Some? ==> p in s.srv.vals
  {
    TableNow(s, out, p);
    OutcomeFits(s.env, out, p);
  }

  lemma {:induction false} TablesStayOk(s: Sys, out: Outcomes)
    requires Inv(s, out) && IsPull(s.env, out) && EnvOk(s.env)
    ensures TablesOk(s.env.rules, s.srv.deps, s.srv.vals)
  {
    hide Inv, IsPull;
    forall p ensures TableOk(s.env.rules, s.srv.deps, s.srv.vals, p) {
      assert TableOk(s.env.rules, s.env.deps0, s.env.vals0, p);
      TableNow(s, out, p);
      OutcomeFits(s.env, out, p);
      StaysStored(s, out, p);
      forall d | d in ListAt(s.srv.deps, p) ensures d in s.srv.vals { StaysStored(s, out, d); }
    }
  }

  // ---- Pushes that tell the truth ----

  /** A push is about inputs, puts values only where it says changed, and leaves
      every stored input with its value in the new world. */
  ghost predicate TellsTruth(s: Sys, a: Action)
    requires a.NextPush?
  {
    var vals := s.srv.vals + a.puts;
    && (forall q :: q in a.puts ==> q in a.changed)
    && (forall q :: q in a.changed || q in a.notChanged ==>
          s.env.rules.input(q) && !s.env.rules.crashes(q) && q in vals)
    && (forall q :: q in vals && s.env.rules.input(q) ==> vals[q] == a.world(q))
  }

  lemma InputScratch(rules: Rules, world: Product -> Value, val: Valuation, q: Product)
    requires IsScratch(rules, world, val) && rules.input(q) && !rules.crashes(q)
    ensures val(q) == Some(world(q))
  {
    assert val(q) == ScratchOf(rules, world, val, q);
  }

  /** Such a push is honest: what it seeds is right in the new world. */
  lemma {:induction false} TruthIsHonest(s: Sys, a: Action)
    requires a.NextPush? && TellsTruth(s, a) && TablesOk(s.env.rules, s.srv.deps, s.srv.vals)
    ensures HonestPush(s, a)
  {
    forall p | p in a.puts ensures p in a.changed && ListAt(s.srv.deps, p) == [] {
      assert TableOk(s.env.rules, s.srv.deps, s.srv.vals, p);
    }
    forall val, p | IsScratch(s.env.rules, a.world, val) && (p in a.changed || p in a.notChanged)
      ensures val(p).Some? && Lookup(s.srv.vals + a.puts, p) == val(p)
    {
      InputScratch(s.env.rules, a.world, val, p);
    }
  }

  /** Seeded phases are those of inputs. */
  ghost predicate SeedsInputs(env: Env) {
    forall q :: q in env.preset ==> env.rules.input(q) && env.preset[q] != Error
  }

  /** Every stored product whose rule reads something has recorded needs. */
  ghost predicate Tracked(rules: Rules, deps: Table, vals: map<Product, Value>) {
    forall p :: p in vals && !NeedsNothing(rules, p) ==> ListAt(deps, p) != []
  }

  ghost predicate InputsCurrent(env: Env) {
    forall q :: q in env.vals0 && env.rules.input(q) ==> env.vals0[q] == env.world(q)
  }

  /** If p is stored, its value is the from-scratch one in the new world. */
  ghost predicate IsCurrent(env: Env, p: Product) {
    forall val :: IsScratch(env.rules, env.world, val) && p in env.vals0 ==> val(p) == Some(env.vals0[p])
  }

  /** What a push can rely on at its start: whatever it cannot reach, stored products
      without recorded needs, is current. */
  ghost predicate PushReady(env: Env) {
    forall q :: Old(env, q) == [] ==> IsCurrent(env, q)
  }

  /** The same for what is below p along recorded needs. */
  ghost predicate CurrentBelow(env: Env, p: Product)
    requires RankedDeps(env)
    decreases env.rules.rank(p)
  {
    (Old(env, p) == [] ==> IsCurrent(env, p)) && forall d :: d in Old(env, p) ==> CurrentBelow(env, d)
  }

  /** p and all below it along recorded needs have recorded needs if they read something. */
  ghost predicate TrackedBelow(env: Env, p: Product)
    requires RankedDeps(env)
    decreases env.rules.rank(p)
  {
    && (p in env.vals0 && !NeedsNothing(env.rules, p) ==> Old(env, p) != [])
    && forall d :: d in Old(env, p) ==> TrackedBelow(env, d)
  }

  lemma {:induction false} ReadyBelow(env: Env, p: Product)
    requires RankedDeps(env) && PushReady(env)
    ensures CurrentBelow(env, p)
    decreases env.rules.rank(p)
  {
    forall d | d in Old(env, p) ensures CurrentBelow(env, d) { ReadyBelow(env, d); }
  }

  /** A stored product that reads nothing is current when the stored inputs are. */
  lemma {:induction false} NothingIsCurrent(env: Env, p: Product)
    requires EnvOk(env) && InputsCurrent(env) && (p in env.vals0 ==> NeedsNothing(env.rules, p))
    ensures IsCurrent(env, p)
  {
    assert TableOk(env.rules, env.deps0, env.vals0, p);
    forall val | IsScratch(env.rules, env.world, val) && p in env.vals0 ensures val(p) == Some(env.vals0[p]) {
      assert val(p) == ScratchOf(env.rules, env.world, val, p);
    }
  }

  lemma {:induction false} TrackedIsCurrent(env: Env, p: Product)
    requires RankedDeps(env) && EnvOk(env) && InputsCurrent(env) && TrackedBelow(env, p)
    ensures CurrentBelow(env, p)
    decreases env.rules.rank(p)
  {
    if Old(env, p) == [] { NothingIsCurrent(env, p); }
    forall d | d in Old(env, p) ensures CurrentBelow(env, d) { TrackedIsCurrent(env, d); }
  }

  lemma {:induction false} StartTables(s: Sys, a: Action)
    requires Enabled(s, a) && StartsRun(a) && (a.NextPush? ==> TellsTruth(s, a))
    requires TablesOk(s.env.rules, s.srv.deps, s.srv.vals)
    ensures EnvOk(Next(s, a).env) && SeedsInputs(Next(s, a).env)
  {
    var env := Next(s, a).env;
    forall p ensures TableOk(env.rules, env.deps0, env.vals0, p) {
      assert TableOk(s.env.rules, s.srv.deps, s.srv.vals, p);
    }
  }

  /** A tracked store and a truthful push make every such product current. */
  lemma {:induction false} TruthMakesReady(s: Sys, a: Action)
    requires Enabled(s, a) && a.NextPush? && TellsTruth(s, a)
    requires TablesOk(s.env.rules, s.srv.deps, s.srv.vals) && Tracked(s.env.rules, s.srv.deps, s.srv.vals)
    ensures PushReady(Next(s, a).env)
  {
    var env := Next(s, a).env;
    StartTables(s, a);
    forall q | Old(env, q) == [] ensures IsCurrent(env, q) { NothingIsCurrent(env, q); }
  }

  ghost predicate IsChanged(env: Env, changed: seq<Product>) {
    forall q :: q in changed <==> q in env.preset && env.preset[q] == Yes
  }

  /** What a run starts from: fitting tables and a consistent store. */
  ghost predicate StartOk(env: Env) {
    RankedDeps(env) && EnvOk(env) && SoundEnv(env) && SeedsInputs(env)
  }

  /** A current product without recorded needs would answer unchanged if it were evaluated. */
  lemma {:induction false} CurrentIsUnchanged(env: Env, out: Outcomes, q: Product)
    requires StartOk(env) && IsPull(env, out) && IsCurrent(env, q)
    requires q in env.vals0 && Old(env, q) == [] && Lookup(env.preset, q) != Some(Yes)
    ensures out(q).answer == No
  {
    ScratchExists(env.rules, env.world);
    var val :| IsScratch(env.rules, env.world, val);
    PullIsSound(env, out, val, env.rules.rank(q) + 1);
    assert Right(out, val, q);
    assert out(q) == OutcomeOf(env, out, q);
  }

  lemma {:induction false} SeedsAreSources(env: Env, changed: seq<Product>)
    requires EnvOk(env) && SeedsInputs(env) && IsChanged(env, changed)
    ensures PushesSources(env, changed)
  {
    forall q | q in env.preset ensures Old(env, q) == [] { assert TableOk(env.rules, env.deps0, env.vals0, q); }
  }

  lemma {:induction false} CurrentIsQuiet(env: Env, out: Outcomes, changed: seq<Product>, p: Product)
    requires StartOk(env) && IsPull(env, out) && IsChanged(env, changed) && CurrentBelow(env, p) && p in env.vals0
    ensures QuietBelow(env, out, changed, p)
    decreases env.rules.rank(p)
  {
    if Old(env, p) == [] && p !in changed { CurrentIsUnchanged(env, out, p); }
    assert TableOk(env.rules, env.deps0, env.vals0, p);
    forall d | d in Old(env, p) ensures QuietBelow(env, out, changed, d) { CurrentIsQuiet(env, out, changed, d); }
  }

  lemma {:induction false} ReadyIsTruthful(env: Env, out: Outcomes, changed: seq<Product>)
    requires StartOk(env) && IsPull(env, out) && PushReady(env) && IsChanged(env, changed)
    ensures TruthfulPush(env, out, changed)
  {
    SeedsAreSources(env, changed);
    forall p, q | q in Old(env, p) && Old(env, q) == [] && q !in changed ensures out(q).answer == No {
      assert TableOk(env.rules, env.deps0, env.vals0, p);
      CurrentIsUnchanged(env, out, q);
    }
  }

  // ---- What is carried from run to run ----

  /** Good, and everything the theorems below need of the tables and of this run's start. */
  ghost predicate Carried(s: Sys) {
    Good(s) && NeedsChecked(s) && EnvOk(s.env) && SoundEnv(s.env) && SeedsInputs(s.env)
  }

  lemma {:induction false} NoNeedsWhereCrashed(s: Sys, out: Outcomes)
    requires Inv(s, out) && IsPull(s.env, out) && EnvOk(s.env)
    ensures CrashedHaveNoNeeds(s)
  {
    TablesStayOk(s, out);
    forall p | s.env.rules.crashes(p) ensures Old(s.env, p) == [] && ListAt(s.srv.deps, p) == [] {
      assert TableOk(s.env.rules, s.env.deps0, s.env.vals0, p);
      assert TableOk(s.env.rules, s.srv.deps, s.srv.vals, p);
    }
  }

  // ---- What a run has to ask for ----

  ghost predicate Asked(s: Sys, p: Product) {
    exists c :: 0 <= c < |s.calls| && s.calls[c].owner.Client? && s.calls[c].product == p
  }

  lemma {:induction false} AskedIsSettled(s: Sys, out: Outcomes, p: Product)
    requires Inv(s, out) && ClientIdle(s) && Asked(s, p)
    ensures IsSettled(s, p) || s.env.rules.crashes(p)
  {
    var c :| 0 <= c < |s.calls| && s.calls[c].owner.Client? && s.calls[c].product == p;
    assert CallOk(s, out, c);
  }

  ghost predicate IsTop(env: Env, p: Product) {
    forall q :: p !in Old(env, q)
  }

  /** Every stored product that no other one was recorded to need, those without
      recorded needs included. */
  ghost predicate AsksForTops(s: Sys) {
    forall p :: p in s.env.vals0 && IsTop(s.env, p) ==> Asked(s, p)
  }

  /** The transitive closure of the changed products over the inverse of the
      dependencies the run started with. */
  ghost predicate AsksForAffected(s: Sys) {
    exists rdeps, changed, top ::
      && InverseOfOld(s.env, rdeps) && IsChanged(s.env, changed)
      && Ascends(rdeps, s.env.rules.rank, top) && AsksForClosure(s, rdeps, changed, top)
  }

  /** A full run: all tops, or, after a push that is ready, the whole closure. */
  ghost predicate FullRun(s: Sys) {
    AsksForTops(s) || (PushReady(s.env) && AsksForAffected(s))
  }

  /** Everything stored at the start has been evaluated once the tops have been. */
  lemma {:induction false} TopsSettleAll(s: Sys, out: Outcomes, p: Product)
    requires Inv(s, out) && ClientIdle(s) && NeedsChecked(s) && RankedDeps(s.env) && EnvOk(s.env) && SeedsInputs(s.env)
    requires AsksForTops(s) && p in s.env.vals0
    ensures IsSettled(s, p)
    decreases KeyRank(s.env.rules.rank, s.env.vals0.Keys) - s.env.rules.rank(p)
  {
    assert TableOk(s.env.rules, s.env.deps0, s.env.vals0, p);
    if IsTop(s.env, p) {
      AskedIsSettled(s, out, p);
    } else {
      var q :| p in Old(s.env, q);
      assert TableOk(s.env.rules, s.env.deps0, s.env.vals0, q);
      TopsSettleAll(s, out, q);
      assert Evaluated(s, Old(s.env, q));
    }
  }

  /** A product that a push left alone was not affected: all its needs answer unchanged. */
  lemma {:induction false} LeftAloneIsUnaffected(s: Sys, out: Outcomes, p: Product)
    requires Inv(s, out) && IsPull(s.env, out) && StartOk(s.env) && ClientIdle(s) && NeedsChecked(s)
    requires AsksForAffected(s) && CurrentBelow(s.env, p)
    requires Old(s.env, p) != [] && !IsSettled(s, p)
    ensures Skips(s.env, out, p)
  {
    var rdeps, changed, top :|
      && InverseOfOld(s.env, rdeps) && IsChanged(s.env, changed)
      && Ascends(rdeps, s.env.rules.rank, top) && AsksForClosure(s, rdeps, changed, top);
    SeedsAreSources(s.env, changed);
    NoNeedsWhereCrashed(s, out);
    assert TableOk(s.env.rules, s.env.deps0, s.env.vals0, p);
    var ks := Keys(Old(s.env, p));
    forall j | 0 <= j < |ks| ensures Answers(out, ks)[j] == No {
      assert ks[j] in Old(s.env, p);
      if out(ks[j]).answer != No {
        CurrentIsQuiet(s.env, out, changed, ks[j]);
        var i := ChangeIsReached(s, out, rdeps, changed, ks[j]);
        ReachesThrough(rdeps, i, ks[j], p);
        ReachedIsSettled(s, out, rdeps, changed, top, i, p);
      }
    }
  }

  /** A full run evaluates every product with a changed recorded need. */
  lemma {:induction false} FullRunIsCovered(s: Sys)
    requires Carried(s) && ClientIdle(s) && FullRun(s)
    ensures CoveredRun(s)
  {
    var out :| IsPull(s.env, out) && Inv(s, out);
    forall p, d | d in Old(s.env, p) && IsSettled(s, d) && s.srv.phase[d].answer == Yes
      ensures IsSettled(s, p) && p !in s.env.preset
    {
      assert TableOk(s.env.rules, s.env.deps0, s.env.vals0, p);
      assert PhaseOk(s, out, d);
      if AsksForTops(s) {
        TopsSettleAll(s, out, p);
      } else if !IsSettled(s, p) {
        ReadyBelow(s.env, p);
        LeftAloneIsUnaffected(s, out, p);
        SkippedNeed(s.env, out, p, d);
      }
    }
  }

  // ---- Every stored value is right ----

  /** The store agrees with evaluation from scratch at p: a failed rule answered an
      error in this run, and any other stored value is the from-scratch one. */
  ghost predicate StoreRight(s: Sys, val: Valuation, p: Product) {
    p in s.srv.vals ==>
      if IsSettled(s, p) && s.srv.phase[p].answer == Error then val(p).None? else val(p) == Some(s.srv.vals[p])
  }

  lemma {:induction false} SettledIsRight(s: Sys, out: Outcomes, val: Valuation, p: Product)
    requires Inv(s, out) && Right(out, val, p) && IsSettled(s, p)
    ensures StoreRight(s, val, p)
  {
    assert PhaseOk(s, out, p);
  }

  lemma {:induction false} LeftAloneIsRight(s: Sys, out: Outcomes, val: Valuation, p: Product)
    requires Inv(s, out) && IsPull(s.env, out) && StartOk(s.env) && ClientIdle(s) && NeedsChecked(s)
    requires AsksForAffected(s) && CurrentBelow(s.env, p) && IsScratch(s.env.rules, s.env.world, val)
    requires Right(out, val, p) && p in s.srv.vals && !IsSettled(s, p)
    ensures StoreRight(s, val, p)
  {
    IdleClientNoWaiting(s, out, p);
    assert p !in s.srv.phase && p in s.env.vals0 && s.env.vals0[p] == s.srv.vals[p];
    if Old(s.env, p) == [] {
      assert IsCurrent(s.env, p);
    } else {
      LeftAloneIsUnaffected(s, out, p);
      assert out(p) == OutcomeOf(s.env, out, p);
      assert TableOk(s.env.rules, s.env.deps0, s.env.vals0, p);
    }
  }

  /** After a push whose closure was asked for, a product below which everything
      without recorded needs was current is right, whatever the rest of the store. */
  lemma {:induction false} PushIsRightBelow(s: Sys, val: Valuation, p: Product)
    requires Carried(s) && ClientIdle(s) && AsksForAffected(s) && IsScratch(s.env.rules, s.env.world, val)
    requires RankedDeps(s.env) && CurrentBelow(s.env, p)
    ensures StoreRight(s, val, p)
  {
    var out :| IsPull(s.env, out) && Inv(s, out);
    PullIsSound(s.env, out, val, s.env.rules.rank(p) + 1);
    assert Right(out, val, p);
    if p in s.srv.vals {
      if IsSettled(s, p) { SettledIsRight(s, out, val, p); } else { LeftAloneIsRight(s, out, val, p); }
    }
  }

  /** In particular a product with recorded needs all the way down. */
  lemma {:induction false} PushIsRightWhereTracked(s: Sys, val: Valuation, p: Product)
    requires Carried(s) && ClientIdle(s) && AsksForAffected(s) && IsScratch(s.env.rules, s.env.world, val)
    requires RankedDeps(s.env) && InputsCurrent(s.env) && TrackedBelow(s.env, p)
    ensures StoreRight(s, val, p)
  {
    TrackedIsCurrent(s.env, p);
    PushIsRightBelow(s, val, p);
  }

  /** After a full run every stored value, evaluated in the run or left alone, is
      that of evaluation from scratch in the run's world. */
  lemma {:induction false} FullRunIsRight(s: Sys, val: Valuation, p: Product)
    requires Carried(s) && ClientIdle(s) && FullRun(s) && IsScratch(s.env.rules, s.env.world, val)
    ensures StoreRight(s, val, p)
  {
    if AsksForTops(s) {
      var out :| IsPull(s.env, out) && Inv(s, out);
      PullIsSound(s.env, out, val, s.env.rules.rank(p) + 1);
      assert Right(out, val, p);
      IdleClientNoWaiting(s, out, p);
      if p in s.env.vals0 { TopsSettleAll(s, out, p); }
      if p in s.srv.vals { SettledIsRight(s, out, val, p); }
    } else {
      ReadyBelow(s.env, p);
      PushIsRightBelow(s, val, p);
    }
  }

  // ---- Pushes that have nothing to do with each other ----

  lemma {:induction false} RunOnRanked(rules: Rules, world: Product -> Value, val: Valuation, p: Product, h: History,
                                       acc: seq<Product>)
    requires forall d :: d in acc ==> rules.rank(d) < rules.rank(p)
    ensures var r := RunOn(rules, world, val, p, h, acc);
            r.Gave? ==> forall d :: d in r.needs ==> rules.rank(d) < rules.rank(p)
    decreases rules.height(p, h)
  {
    var act := Body(rules, world, p, h);
    if act.Need? && GetVals(Read(val, act.ds)).Some? {
      RunOnRanked(rules, world, val, p, h + [GetVals(Read(val, act.ds)).value], AddKeys(acc, act.ds));
    }
  }

  /** From scratch, the products of S have values and read products of S only. */
  ghost predicate ReadsInside(rules: Rules, world: Product -> Value, val: Valuation, S: set<Product>) {
    forall q :: q in S ==>
      && val(q).Some?
      && var r := RunOn(rules, world, val, q, [], []);
         r.Gave? && forall d :: d in r.needs ==> d in S
  }

  ghost predicate SameInputs(rules: Rules, w: Product -> Value, w': Product -> Value, S: set<Product>) {
    forall q :: q in S && rules.input(q) ==> w(q) == w'(q)
  }

  /** Their values stay while the inputs among them stay. */
  lemma {:induction false} UntouchedKeep(rules: Rules, w: Product -> Value, val: Valuation, w': Product -> Value,
                                         val': Valuation, S: set<Product>, q: Product)
    requires IsScratch(rules, w, val) && IsScratch(rules, w', val')
    requires ReadsInside(rules, w, val, S) && SameInputs(rules, w, w', S) && q in S
    ensures val'(q) == val(q)
    decreases rules.rank(q)
  {
    assert val(q) == ScratchOf(rules, w, val, q) && val'(q) == ScratchOf(rules, w', val', q);
    if !rules.input(q) {
      RunOnRanked(rules, w, val, q, [], []);
      forall d | d in RunOn(rules, w, val, q, [], []).needs ensures val'(d) == val(d) {
        UntouchedKeep(rules, w, val, w', val', S, d);
      }
      WorldIrrelevant(rules, w, w', val, q, [], []);
      RunOnAgrees(rules, w', val, val', q, [], []);
    }
  }

  /** What was run again has lost its recorded needs, but a later push is ready all
      the same if what it pushes has nothing to do with those products. */
  lemma {:induction false} IndependentMakesReady(s: Sys, a: Action, val: Valuation, S: set<Product>)
    requires Carried(s) && FullRun(s) && Enabled(s, a) && a.NextPush? && TellsTruth(s, a)
    requires IsScratch(s.env.rules, s.env.world, val)
    requires ReadsInside(s.env.rules, s.env.world, val, S) && SameInputs(s.env.rules, s.env.world, a.world, S)
    requires forall q :: q in s.srv.vals && !NeedsNothing(s.env.rules, q) && ListAt(s.srv.deps, q) == [] ==> q in S
    ensures PushReady(Next(s, a).env)
  {
    var env := Next(s, a).env;
    var out :| IsPull(s.env, out) && Inv(s, out);
    TablesStayOk(s, out);
    StartTables(s, a);
    forall q | Old(env, q) == [] ensures IsCurrent(env, q) {
      if q in env.vals0 && !NeedsNothing(env.rules, q) {
        assert q in s.srv.vals && env.vals0[q] == s.srv.vals[q];
        FullRunIsRight(s, val, q);
        forall val' | IsScratch(env.rules, env.world, val') ensures val'(q) == val(q) {
          UntouchedKeep(env.rules, s.env.world, val, env.world, val', S, q);
        }
      } else {
        NothingIsCurrent(env, q);
      }
    }
  }

  // ---- Whole histories ----

  /** Before the next run starts, the one before asked for what it should, and a push
      tells the truth.  Nothing is said of the answers. */
  ghost predicate AskingHistory(s: Sys, actions: seq<Action>)
    requires Legal(s, actions)
    decreases |actions|
  {
    actions != [] ==>
      && (StartsRun(actions[0]) ==> FullRun(s) && (actions[0].NextPush? ==> TellsTruth(s, actions[0])))
      && AskingHistory(Next(s, actions[0]), actions[1..])
  }

  lemma {:induction false} CarriedStart(s: Sys, a: Action)
    requires Carried(s) && Enabled(s, a) && StartsRun(a) && FullRun(s) && (a.NextPush? ==> TellsTruth(s, a))
    ensures Carried(Next(s, a))
  {
    var out :| IsPull(s.env, out) && Inv(s, out);
    var t := Next(s, a);
    GoodStep(s, a);
    StartChecked(s, a);
    TablesStayOk(s, out);
    FullRunIsCovered(s);
    if a.NextPush? { TruthIsHonest(s, a); }
    SoundStartStep(s, a);
    StartTables(s, a);
  }

  lemma {:induction false} CarriedStep(s: Sys, a: Action)
    requires Carried(s) && Enabled(s, a) && !StartsRun(a)
    ensures Carried(Next(s, a))
  {
    var out :| IsPull(s.env, out) && Inv(s, out);
    GoodStep(s, a);
    StepKeeps(s, a, out);
    StepKeepsChecked(s, a);
  }

  lemma {:induction false} HistoryCarries(s: Sys, actions: seq<Action>)
    requires Carried(s) && Legal(s, actions) && AskingHistory(s, actions)
    ensures Carried(Exec(s, actions))
    decreases |actions|
  {
    hide Carried, FullRun;
    if actions == [] {
    } else {
      if StartsRun(actions[0]) { CarriedStart(s, actions[0]); } else { CarriedStep(s, actions[0]); }
      HistoryCarries(Next(s, actions[0]), actions[1..]);
    }
  }

  lemma {:induction false} CarriedInit(rules: Rules, world: Product -> Value)
    ensures Carried(Init(rules, world))
  {
    GoodInit(rules, world);
    var env := Init(rules, world).env;
    assert forall p :: TableOk(rules, env.deps0, env.vals0, p);
  }

  /** Incremental evaluation is sound, told by what is asked alone: if every run so
      far has asked for all tops, or pushed the truth when everything without recorded
      needs was current and asked for the whole closure, then at any moment every settled product holds its
      from-scratch value, and at the end of a full run every stored product does. */
  lemma {:induction false} AskingIsSound(rules: Rules, world: Product -> Value, actions: seq<Action>, val: Valuation,
                                         p: Product)
    requires Legal(Init(rules, world), actions) && AskingHistory(Init(rules, world), actions)
    requires IsScratch(rules, Exec(Init(rules, world), actions).env.world, val)
    ensures var s := Exec(Init(rules, world), actions);
            StoredRight(s, val, p) && (ClientIdle(s) && FullRun(s) ==> StoreRight(s, val, p))
  {
    hide Carried, FullRun, StoreRight, AskingHistory;
    CarriedInit(rules, world);
    HistoryCarries(Init(rules, world), actions);
    RulesFixed(Init(rules, world), actions);
    var s := Exec(Init(rules, world), actions);
    CarriedIsRight(s, val, p);
    if ClientIdle(s) && FullRun(s) { FullRunIsRight(s, val, p); }
  }

  lemma {:induction false} CarriedIsRight(s: Sys, val: Valuation, p: Product)
    requires Carried(s) && IsScratch(s.env.rules, s.env.world, val)
    ensures StoredRight(s, val, p)
  {
    if IsSettled(s, p) {
      var out :| IsPull(s.env, out) && Inv(s, out);
      PullIsSound(s.env, out, val, s.env.rules.rank(p) + 1);
      assert Right(out, val, p);
      assert PhaseOk(s, out, p);
    }
  }

  // ---- When tracking is lost, and what a push can still wake ----

  /** A tracked product loses its recorded needs in a run exactly if it was evaluated
      and one of them did not answer unchanged: its rule was run again. */
  lemma {:induction false} RerunLosesNeeds(s: Sys, p: Product)
    requires Carried(s) && ClientIdle(s) && Old(s.env, p) != []
    ensures ListAt(s.srv.deps, p) == [] <==>
            IsSettled(s, p) && exists d :: d in Old(s.env, p) && IsSettled(s, d) && s.srv.phase[d].answer != No
  {
    var out :| IsPull(s.env, out) && Inv(s, out);
    IdleClientNoWaiting(s, out, p);
    assert TableOk(s.env.rules, s.env.deps0, s.env.vals0, p);
    if IsSettled(s, p) {
      assert PhaseOk(s, out, p);
      assert out(p) == OutcomeOf(s.env, out, p);
      UntrackedRun(s.env, out, p, [], []);
      SkipsIffUnchanged(s, out, p);
    }
  }

  lemma {:induction false} SkipsIffUnchanged(s: Sys, out: Outcomes, p: Product)
    requires Carried(s) && IsPull(s.env, out) && Inv(s, out) && IsSettled(s, p) && Old(s.env, p) != []
    ensures Skips(s.env, out, p) <==> forall d :: d in Old(s.env, p) && IsSettled(s, d) ==> s.srv.phase[d].answer == No
  {
    assert TableOk(s.env.rules, s.env.deps0, s.env.vals0, p);
    assert Evaluated(s, Old(s.env, p));
    var ks := Keys(Old(s.env, p));
    forall d | d in Old(s.env, p) ensures IsSettled(s, d) && s.srv.phase[d].answer == out(d).answer {
      assert TableOk(s.env.rules, s.env.deps0, s.env.vals0, d);
      assert PhaseOk(s, out, d);
    }
    if Skips(s.env, out, p) {
      forall d | d in Old(s.env, p) ensures out(d).answer == No { SkippedNeed(s.env, out, p, d); }
    } else {
      var j :| 0 <= j < |ks| && Answers(out, ks)[j] != No;
      assert ks[j] in Old(s.env, p);
    }
  }

  /** A product that nothing depends on is in the closure of some pushed set exactly
      if it has recorded needs: after a re-run no push reaches it any more. */
  lemma {:induction false} PushWakesExactly(s: Sys, p: Product, top: nat)
    requires Good(s) && Ascends(s.srv.rdeps, s.env.rules.rank, top) && ListAt(s.srv.rdeps, p) == []
    ensures ListAt(s.srv.deps, p) != [] <==>
            exists changed :: p in TransitiveClosure(s.srv.rdeps, changed, s.env.rules.rank, top)
  {
    var rdeps, rank := s.srv.rdeps, s.env.rules.rank;
    if ListAt(s.srv.deps, p) != [] {
      var d := ListAt(s.srv.deps, p)[0];
      assert d in ListAt(s.srv.deps, p);
      InverseTableExact(s, p, d);
      ReachesSelf(rdeps, p);
      ReachesStep(rdeps, d, p, p);
      TransitiveClosureExact(rdeps, [d], rank, top, p);
    }
    if changed :| p in TransitiveClosure(rdeps, changed, rank, top) {
      TransitiveClosureExact(rdeps, changed, rank, top, p);
      var i :| i in changed && Reaches(rdeps, i, p);
      var path :| IsPath(rdeps, path) && path[0] == i && path[|path| - 1] == p;
      var d := path[|path| - 2];
      assert path[|path| - 2 + 1] in ListAt(rdeps, d);
      InverseTableExact(s, p, d);
    }
  }
}
