/** From-scratch evaluation, and why a pull that skips rules agrees with it: what
    a consistent store is, and what a run leaves for the next one. */
module RedoSound {
  import opened Collections
  import opened RedoServer
  import opened RedoPull

  // ---- From-scratch evaluation ----

  /** A valuation: the value of each product, or None for a failed rule. */
  type Valuation = Product -> Option<Value>

  function Read(val: Valuation, ds: seq<Product>): seq<Option<Value>> {
    seq(|ds|, i requires 0 <= i < |ds| => val(ds[i]))
  }

  /** Run a rule to the end against a valuation: its value and the products it read. */
  ghost function RunOn(rules: Rules, world: Product -> Value, val: Valuation, p: Product, h: History,
                       acc: seq<Product>): Result
    decreases rules.height(p, h)
  {
    match Body(rules, world, p, h)
    case Give(v) => Gave(v, acc)
    case Fail => Failed
    case Need(ds) =>
      var vs := GetVals(Read(val, ds));
      if vs.None? then Failed else RunOn(rules, world, val, p, h + [vs.value], AddKeys(acc, ds))
  }

  ghost function ScratchOf(rules: Rules, world: Product -> Value, val: Valuation, p: Product): Option<Value> {
    if rules.crashes(p) then None
    else
      match RunOn(rules, world, val, p, [], [])
      case Failed => None
      case Gave(v, _) => Some(v)
  }

  /** `val` is what every product is worth when all rules are run afresh on the current world. */
  ghost predicate IsScratch(rules: Rules, world: Product -> Value, val: Valuation) {
    forall p :: val(p) == ScratchOf(rules, world, val, p)
  }

  /** A rule that succeeds reads the same history under any valuation that agrees on what it read. */
  lemma {:induction false} RunOnAgrees(rules: Rules, world: Product -> Value, a: Valuation, b: Valuation,
                                       p: Product, h: History, acc: seq<Product>)
    requires var r := RunOn(rules, world, a, p, h, acc); r.Gave? && forall d :: d in r.needs ==> a(d) == b(d)
    ensures RunOn(rules, world, b, p, h, acc) == RunOn(rules, world, a, p, h, acc)
    decreases rules.height(p, h)
  {
    var act := Body(rules, world, p, h);
    if act.Need? {
      var vs := GetVals(Read(a, act.ds)).value;
      NeedsGrow(rules, world, a, p, h + [vs], AddKeys(acc, act.ds));
      assert Read(a, act.ds) == Read(b, act.ds) by {
        forall i | 0 <= i < |act.ds| ensures a(act.ds[i]) == b(act.ds[i]) { assert act.ds[i] in AddKeys(acc, act.ds); }
      }
      RunOnAgrees(rules, world, a, b, p, h + [vs], AddKeys(acc, act.ds));
    }
  }

  lemma {:induction false} NeedsGrow(rules: Rules, world: Product -> Value, val: Valuation, p: Product, h: History,
                                     acc: seq<Product>)
    ensures var r := RunOn(rules, world, val, p, h, acc); r.Gave? ==> forall d :: d in acc ==> d in r.needs
    decreases rules.height(p, h)
  {
    var act := Body(rules, world, p, h);
    if act.Need? && GetVals(Read(val, act.ds)).Some? {
      NeedsGrow(rules, world, val, p, h + [GetVals(Read(val, act.ds)).value], AddKeys(acc, act.ds));
    }
  }

  // ---- Soundness of the incremental pull ----

  function Stored(env: Env): Valuation {
    (p: Product) => Lookup(env.vals0, p)
  }

  /** Seeded phases tell the truth: the stored value is already the right one. */
  ghost predicate HonestPreset(env: Env, val: Valuation) {
    forall p :: p in env.preset ==> env.preset[p] != Error && p in env.vals0 && val(p) == Some(env.vals0[p])
  }

  /** The stored value of p is what its rule gives on the stored values, reading recorded needs only. */
  ghost predicate Consistent(env: Env, p: Product) {
    var r := RunOn(env.rules, env.world, Stored(env), p, [], []);
    !env.rules.crashes(p) && !env.rules.input(p) && p in env.vals0 && r.Gave? && r.v == env.vals0[p]
    && forall d :: d in r.needs ==> d in Old(env, p)
  }

  /** Every product with recorded needs is consistent, unless one of those needs was pushed as changed. */
  ghost predicate ConsistentStore(env: Env) {
    forall p :: Old(env, p) != [] && (forall d :: d in Old(env, p) ==> Lookup(env.preset, d) != Some(Yes))
      ==> Consistent(env, p)
  }

  /** p's outcome is right: an error exactly when from-scratch evaluation fails, else the same value. */
  ghost predicate Right(out: Outcomes, val: Valuation, p: Product) {
    (out(p).answer == Error <==> val(p).None?) && (val(p).Some? ==> out(p).val == val(p))
  }

  ghost predicate RightBelow(env: Env, out: Outcomes, val: Valuation, n: nat) {
    forall q :: env.rules.rank(q) < n ==> Right(out, val, q)
  }

  lemma NeedIsRead(out: Outcomes, val: Valuation, ds: seq<Product>)
    requires forall d :: d in ds ==> Right(out, val, d)
    ensures if AnyChanged(Answers(out, Keys(ds))) == Error then None in Read(val, ds)
            else None !in Read(val, ds) && Found(out, ds) == Read(val, ds)
  {
    var ks := Keys(ds);
    if AnyChanged(Answers(out, ks)) == Error {
      var i :| 0 <= i < |ks| && Answers(out, ks)[i] == Error;
      assert ks[i] in ds;
      var j :| 0 <= j < |ds| && ds[j] == ks[i];
      assert Read(val, ds)[j] == None;
    } else {
      forall i | 0 <= i < |ds| ensures Found(out, ds)[i] == Read(val, ds)[i] && Read(val, ds)[i].Some? {
        assert ds[i] in ks;
        var j :| 0 <= j < |ks| && ks[j] == ds[i];
        assert Answers(out, ks)[j] == out(ds[i]).answer;
        assert Right(out, val, ds[i]);
      }
    }
  }

  /** Running a rule against right outcomes gives its from-scratch value; with tracking, also its needs. */
  lemma {:induction false} RunIsScratch(env: Env, out: Outcomes, val: Valuation, p: Product, h: History, track: bool,
                                        acc: seq<Product>, acc': seq<Product>)
    requires RightBelow(env, out, val, env.rules.rank(p))
    ensures var a := Run(env, out, p, h, track, acc);
            var b := RunOn(env.rules, env.world, val, p, h, acc');
            a.Gave? == b.Gave? && (a.Gave? ==> a.v == b.v)
    decreases env.rules.height(p, h)
  {
    var act := Body(env.rules, env.world, p, h);
    if act.Need? {
      NeedIsRead(out, val, act.ds);
      var vs := GetVals(Read(val, act.ds));
      if vs.Some? {
        RunIsScratch(env, out, val, p, h + [vs.value], track,
          if track then AddKeys(acc, act.ds) else acc, AddKeys(acc', act.ds));
      }
    }
  }

  ghost function AsValuation(out: Outcomes): Valuation {
    p => if out(p).answer == Error then None else out(p).val
  }

  lemma PullOnEmpty(env: Env, out: Outcomes)
    requires env == Env(env.rules, env.world, map[], map[], map[]) && IsPull(env, out)
    ensures IsScratch(env.rules, env.world, AsValuation(out))
  {
    var val := AsValuation(out);
    forall p ensures val(p) == ScratchOf(env.rules, env.world, val, p) {
      forall q ensures Right(out, val, q) { assert out(q) == OutcomeOf(env, out, q); }
      RunIsScratch(env, out, val, p, [], true, [], []);
      assert out(p) == OutcomeOf(env, out, p);
    }
  }

  /** From-scratch values exist: they are what a pull on empty tables gives. */
  lemma ScratchExists(rules: Rules, world: Product -> Value)
    ensures exists val :: IsScratch(rules, world, val)
  {
    var env := Env(rules, world, map[], map[], map[]);
    PullExists(env);
    var out :| IsPull(env, out);
    PullOnEmpty(env, out);
  }

  /** The incremental pull is sound for every product, skipped or not: if the
      store is consistent and seeded phases are honest, its outcomes are those of
      from-scratch evaluation on the current world. */
  lemma {:induction false} PullIsSound(env: Env, out: Outcomes, val: Valuation, n: nat)
    requires RankedDeps(env) && IsPull(env, out) && IsScratch(env.rules, env.world, val)
    requires ConsistentStore(env) && HonestPreset(env, val)
    ensures RightBelow(env, out, val, n)
  {
    if n == 0 {
    } else {
      PullIsSound(env, out, val, n - 1);
      forall p | env.rules.rank(p) == n - 1 ensures Right(out, val, p) {
        assert out(p) == OutcomeOf(env, out, p);
        assert val(p) == ScratchOf(env.rules, env.world, val, p);
        if p !in env.preset && !env.rules.crashes(p) {
          if Skips(env, out, p) {
            SkipIsSound(env, out, val, p);
          } else {
            RunIsScratch(env, out, val, p, [], Old(env, p) == [], [], []);
          }
        }
      }
    }
  }

  /** A skipped rule's recorded needs all answered unchanged, and so hold their old values. */
  lemma SkippedNeed(env: Env, out: Outcomes, p: Product, d: Product)
    requires IsPull(env, out) && Skips(env, out, p) && d in Old(env, p)
    ensures out(d).answer == No && out(d).val == Stored(env)(d) && Lookup(env.preset, d) != Some(Yes)
  {
    var ks := Keys(Old(env, p));
    assert d in ks;
    var i :| 0 <= i < |ks| && ks[i] == d;
    assert Answers(out, ks)[i] == out(d).answer;
    assert out(d) == OutcomeOf(env, out, d);
  }

  lemma SkipIsSound(env: Env, out: Outcomes, val: Valuation, p: Product)
    requires RankedDeps(env) && IsPull(env, out) && IsScratch(env.rules, env.world, val) && ConsistentStore(env)
    requires p !in env.preset && !env.rules.crashes(p) && Skips(env, out, p)
    requires RightBelow(env, out, val, env.rules.rank(p))
    ensures Right(out, val, p)
  {
    assert out(p) == OutcomeOf(env, out, p);
    forall d | d in Old(env, p)
      ensures Lookup(env.preset, d) != Some(Yes) && Stored(env)(d) == val(d)
    {
      SkippedNeed(env, out, p, d);
      assert Right(out, val, d);
    }
    assert Consistent(env, p);
    RunOnAgrees(env.rules, env.world, Stored(env), val, p, [], []);
    assert val(p) == ScratchOf(env.rules, env.world, val, p);
  }

  // ---- What a run leaves for the next one ----

  /** The tables after a run that settled the products in S: their outcomes are stored, the rest is untouched. */
  ghost predicate Leaves(env: Env, out: Outcomes, S: set<Product>, next: Env) {
    next.rules == env.rules && forall p ::
      && Old(next, p) == (if p in S then out(p).deps else Old(env, p))
      && Lookup(next.vals0, p) == (if p in S then out(p).val else Lookup(env.vals0, p))
  }

  /** A settled product's recorded needs were settled too, and it has an update function. */
  ghost predicate ClosedRun(env: Env, out: Outcomes, S: set<Product>) {
    forall p :: p in S && p !in env.preset ==> !env.rules.crashes(p) && forall d :: d in out(p).deps ==> d in S
  }

  /** Coverage: a product whose recorded need changed in this run was evaluated in this run. */
  ghost predicate Covered(env: Env, out: Outcomes, S: set<Product>) {
    forall p, d :: d in Old(env, p) && d in S && out(d).answer == Yes ==> p in S && p !in env.preset
  }

  lemma UnlessChanged(env: Env, out: Outcomes, p: Product)
    requires IsPull(env, out) && out(p).answer != Yes
    ensures out(p).val == Lookup(env.vals0, p)
  {
    assert out(p) == OutcomeOf(env, out, p);
  }

  /** The world matters to input rules only. */
  lemma {:induction false} WorldIrrelevant(rules: Rules, w: Product -> Value, w': Product -> Value, val: Valuation,
                                           p: Product, h: History, acc: seq<Product>)
    requires !rules.input(p)
    ensures RunOn(rules, w, val, p, h, acc) == RunOn(rules, w', val, p, h, acc)
    decreases rules.height(p, h)
  {
    var act := rules.act(p, h);
    if act.Need? && GetVals(Read(val, act.ds)).Some? {
      WorldIrrelevant(rules, w, w', val, p, h + [GetVals(Read(val, act.ds)).value], AddKeys(acc, act.ds));
    }
  }

  /** A tracked run replays on any valuation that holds the outcomes of what it needed. */
  lemma {:induction false} TrackedRunReplays(env: Env, out: Outcomes, val: Valuation, p: Product, h: History,
                                             acc: seq<Product>)
    requires var r := Run(env, out, p, h, true, acc); r.Gave? && forall d :: d in r.needs ==> val(d) == out(d).val
    ensures RunOn(env.rules, env.world, val, p, h, acc) == Run(env, out, p, h, true, acc)
    ensures forall d :: d in acc ==> d in Run(env, out, p, h, true, acc).needs
    decreases env.rules.height(p, h)
  {
    var act := Body(env.rules, env.world, p, h);
    if act.Need? {
      var vs := GetVals(Found(out, act.ds)).value;
      TrackedRunGrows(env, out, p, h + [vs], AddKeys(acc, act.ds));
      assert Found(out, act.ds) == Read(val, act.ds) by {
        forall i | 0 <= i < |act.ds| ensures val(act.ds[i]) == out(act.ds[i]).val {
          assert act.ds[i] in AddKeys(acc, act.ds);
        }
      }
      TrackedRunReplays(env, out, val, p, h + [vs], AddKeys(acc, act.ds));
    }
  }

  lemma {:induction false} TrackedRunGrows(env: Env, out: Outcomes, p: Product, h: History, acc: seq<Product>)
    ensures var r := Run(env, out, p, h, true, acc); r.Gave? ==> forall d :: d in acc ==> d in r.needs
    decreases env.rules.height(p, h)
  {
    var act := Body(env.rules, env.world, p, h);
    if act.Need? && GetVals(Found(out, act.ds)).Some? {
      TrackedRunGrows(env, out, p, h + [GetVals(Found(out, act.ds)).value], AddKeys(acc, act.ds));
    }
  }

  /** An untracked run records nothing. */
  lemma {:induction false} UntrackedRun(env: Env, out: Outcomes, p: Product, h: History, acc: seq<Product>)
    ensures var r := Run(env, out, p, h, false, acc); r.Gave? ==> r.needs == acc
    decreases env.rules.height(p, h)
  {
    var act := Body(env.rules, env.world, p, h);
    if act.Need? && GetVals(Found(out, act.ds)).Some? {
      UntrackedRun(env, out, p, h + [GetVals(Found(out, act.ds)).value], acc);
    }
  }

  /** A product whose rule did not run anew stays consistent if none of its needs changed value. */
  lemma KeptConsistent(env: Env, next: Env, p: Product)
    requires Consistent(env, p) && next.rules == env.rules
    requires Old(next, p) == Old(env, p) && Stored(next)(p) == Stored(env)(p)
    requires forall d :: d in Old(env, p) ==> Stored(next)(d) == Stored(env)(d)
    ensures Consistent(next, p)
  {
    RunOnAgrees(env.rules, env.world, Stored(env), Stored(next), p, [], []);
    WorldIrrelevant(env.rules, env.world, next.world, Stored(next), p, [], []);
  }

  /** A product whose rule ran for the first time is consistent with what the run left. */
  lemma FreshConsistent(env: Env, out: Outcomes, S: set<Product>, next: Env, p: Product)
    requires IsPull(env, out) && Leaves(env, out, S, next) && ClosedRun(env, out, S)
    requires p in S && p !in env.preset && !Skips(env, out, p) && Old(next, p) != []
    ensures Consistent(next, p)
  {
    assert out(p) == OutcomeOf(env, out, p);
    if Old(env, p) != [] { UntrackedRun(env, out, p, [], []); }
    assert RunRule(env, out, p) == Run(env, out, p, [], true, []);
    TrackedRunReplays(env, out, Stored(next), p, [], []);
    WorldIrrelevant(env.rules, env.world, next.world, Stored(next), p, [], []);
  }

  /** A covered run keeps the store consistent, so the next pull is sound again. */
  lemma CoveredRunKeepsConsistent(env: Env, out: Outcomes, S: set<Product>, next: Env, p: Product)
    requires RankedDeps(env) && IsPull(env, out) && ConsistentStore(env)
    requires Leaves(env, out, S, next) && ClosedRun(env, out, S) && Covered(env, out, S)
    requires forall q :: q in env.preset ==> q in S
    requires Old(next, p) != []
    ensures Consistent(next, p)
  {
    assert out(p) == OutcomeOf(env, out, p);
    if p in S && p !in env.preset && !Skips(env, out, p) {
      FreshConsistent(env, out, S, next, p);
    } else {
      forall d | d in Old(env, p)
        ensures Stored(next)(d) == Stored(env)(d) && Lookup(env.preset, d) != Some(Yes)
      {
        if p in S && p !in env.preset { SkippedNeed(env, out, p, d); }
        assert out(d) == OutcomeOf(env, out, d);
        if d in S { UnlessChanged(env, out, d); }
      }
      assert Consistent(env, p);
      KeptConsistent(env, next, p);
    }
  }
}
