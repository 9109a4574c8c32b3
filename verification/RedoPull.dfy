/** What a pull computes, without processes: rules as functions of the values
    read so far, the incremental evaluation of src/redo.erl as a fixed point over
    rank. */
module RedoPull {
  import opened Collections
  import opened RedoServer

  /** The value lists returned by the need calls a rule has made so far. */
  type History = seq<seq<Value>>

  /** The next thing a rule does: need_vals of a list, put_val_changed, or an exception. */
  datatype Act = Need(ds: seq<Product>) | Give(v: Value) | Fail

  /** The user's rules.  `crashes`: looking up the update function raises.
      `input`: the rule polls the outside world and needs nothing.  Otherwise
      `act` chooses the next step from what was read, so needs are dynamic. */
  datatype RuleTable = RuleTable(
    crashes: Product -> bool,
    input: Product -> bool,
    act: (Product, History) -> Act,
    rank: Product -> nat,
    height: (Product, History) -> ORDINAL)

  /** Needs go to products of smaller rank, and no rule asks for ever. */
  ghost predicate WellRanked(r: RuleTable) {
    forall p, h :: r.act(p, h).Need? ==>
      && (forall d :: d in r.act(p, h).ds ==> r.rank(d) < r.rank(p))
      && (forall vs :: r.height(p, h + [vs]) < r.height(p, h))
  }

  type Rules = r: RuleTable | WellRanked(r)
    witness RuleTable(p => false, p => false, (p, h) => Fail, p => 0, (p, h) => 0 as ORDINAL)

  /** Everything one run starts from: rules, the outside world at that moment,
      phases seeded by start_push, and the tables left by earlier runs. */
  datatype Env = Env(
    rules: Rules,
    world: Product -> Value,
    preset: map<Product, Answer>,
    deps0: Table,
    vals0: map<Product, Value>)

  ghost predicate RankedDeps(env: Env) {
    forall p :: p in env.deps0 ==>
      Sorted(env.deps0[p]) && forall d :: d in env.deps0[p] ==> env.rules.rank(d) < env.rules.rank(p)
  }

  function Body(rules: Rules, world: Product -> Value, p: Product, h: History): Act {
    if rules.input(p) then Give(world(p)) else rules.act(p, h)
  }

  function Old(env: Env, p: Product): seq<Product> {
    ListAt(env.deps0, p)
  }

  /** any_changed: an error wins over a change. */
  function AnyChanged(answers: seq<Answer>): Answer {
    if Error in answers then Error else if Yes in answers then Yes else No
  }

  /** get_vals: all values, or an exception if one is missing. */
  function GetVals(found: seq<Option<Value>>): Option<seq<Value>> {
    if None in found then None
    else Some(seq(|found|, i requires 0 <= i < |found| => var f := found[i]; if f.Some? then f.value else 0))
  }

  // ---- The incremental pull, product by product ----

  /** How a run leaves a product: the answer given to callers, its value and its recorded needs. */
  datatype Outcome = Outcome(answer: Answer, val: Option<Value>, deps: seq<Product>)

  type Outcomes = Product -> Outcome

  function Answers(out: Outcomes, ds: seq<Product>): seq<Answer> {
    seq(|ds|, i requires 0 <= i < |ds| => out(ds[i]).answer)
  }

  function Found(out: Outcomes, ds: seq<Product>): seq<Option<Value>> {
    seq(|ds|, i requires 0 <= i < |ds| => out(ds[i]).val)
  }

  datatype Result = Failed | Gave(v: Value, needs: seq<Product>)

  /** Run a rule from history h, collecting its needs in acc while `track` holds. */
  ghost function Run(env: Env, out: Outcomes, p: Product, h: History, track: bool, acc: seq<Product>): Result
    decreases env.rules.height(p, h), 1
  {
    match Body(env.rules, env.world, p, h)
    case Give(v) => Gave(v, acc)
    case Fail => Failed
    case Need(ds) => Resume(env, out, p, h, ds, track, if track then AddKeys(acc, ds) else acc)
  }

  /** Continue once the needs ds have been answered. */
  ghost function Resume(env: Env, out: Outcomes, p: Product, h: History, ds: seq<Product>, track: bool,
                        acc: seq<Product>): Result
    requires Body(env.rules, env.world, p, h) == Need(ds)
    decreases env.rules.height(p, h), 0
  {
    if AnyChanged(Answers(out, Keys(ds))) == Error then Failed
    else
      var vs := GetVals(Found(out, ds));
      if vs.None? then Failed else Run(env, out, p, h + [vs.value], track, acc)
  }

  /** The rule is skipped: there are recorded needs and all of them answered unchanged. */
  predicate Skips(env: Env, out: Outcomes, p: Product) {
    Old(env, p) != [] && AnyChanged(Answers(out, Keys(Old(env, p)))) == No
  }

  /** A whole run of p's rule.  Needs are recorded only if there were none before:
      collect_worker_deps has dropped the worker's entry otherwise. */
  ghost function RunRule(env: Env, out: Outcomes, p: Product): Result {
    Run(env, out, p, [], Old(env, p) == [], [])
  }

  ghost function OutcomeOf(env: Env, out: Outcomes, p: Product): Outcome {
    var val0 := Lookup(env.vals0, p);
    if p in env.preset then Outcome(env.preset[p], val0, Old(env, p))
    else if env.rules.crashes(p) then Outcome(Error, val0, Old(env, p))
    else if Skips(env, out, p) then Outcome(No, val0, Old(env, p))
    else
      match RunRule(env, out, p)
      case Failed => Outcome(Error, val0, [])
      case Gave(v, needs) => Outcome(if val0 == Some(v) then No else Yes, Some(v), needs)
  }

  /** `out` gives every product the outcome its rule computes from the other outcomes. */
  ghost predicate IsPull(env: Env, out: Outcomes) {
    forall p :: out(p) == OutcomeOf(env, out, p)
  }

  ghost predicate IsPullBelow(env: Env, out: Outcomes, n: nat) {
    forall p :: env.rules.rank(p) < n ==> out(p) == OutcomeOf(env, out, p)
  }

  ghost predicate Agree(env: Env, a: Outcomes, b: Outcomes, n: nat) {
    forall q :: env.rules.rank(q) < n ==> a(q) == b(q)
  }

  lemma NeedsLocal(env: Env, a: Outcomes, b: Outcomes, ds: seq<Product>, n: nat)
    requires Agree(env, a, b, n) && forall d :: d in ds ==> env.rules.rank(d) < n
    ensures Answers(a, Keys(ds)) == Answers(b, Keys(ds)) && Found(a, ds) == Found(b, ds)
  {
    forall d | d in ds ensures a(d) == b(d) {}
    assert forall i :: 0 <= i < |Keys(ds)| ==> Keys(ds)[i] in ds;
    assert forall i :: 0 <= i < |ds| ==> ds[i] in ds;
  }

  /** A rule sees only products of smaller rank. */
  lemma {:induction false} RunLocal(env: Env, a: Outcomes, b: Outcomes, p: Product, h: History, track: bool,
                                    acc: seq<Product>)
    requires Agree(env, a, b, env.rules.rank(p))
    ensures Run(env, a, p, h, track, acc) == Run(env, b, p, h, track, acc)
    decreases env.rules.height(p, h)
  {
    var act := Body(env.rules, env.world, p, h);
    if act.Need? {
      NeedsLocal(env, a, b, act.ds, env.rules.rank(p));
      var vs := GetVals(Found(a, act.ds));
      if vs.Some? {
        RunLocal(env, a, b, p, h + [vs.value], track, if track then AddKeys(acc, act.ds) else acc);
      }
    }
  }

  lemma OutcomeLocal(env: Env, a: Outcomes, b: Outcomes, p: Product)
    requires RankedDeps(env) && Agree(env, a, b, env.rules.rank(p))
    ensures OutcomeOf(env, a, p) == OutcomeOf(env, b, p)
  {
    NeedsLocal(env, a, b, Old(env, p), env.rules.rank(p));
    RunLocal(env, a, b, p, [], Old(env, p) == [], []);
  }

  /** The outcomes of a run are determined: one solution, by rank. */
  lemma {:induction false} PullIsUnique(env: Env, a: Outcomes, b: Outcomes, n: nat)
    requires RankedDeps(env) && IsPullBelow(env, a, n) && IsPullBelow(env, b, n)
    ensures Agree(env, a, b, n)
  {
    if n == 0 {
    } else {
      PullIsUnique(env, a, b, n - 1);
      forall q | env.rules.rank(q) < n ensures a(q) == b(q) { OutcomeLocal(env, a, b, q); }
    }
  }

  /** What the answers of a run mean: a product that is not seeded keeps its stored value
      if it failed, and answers "unchanged" exactly if its value is the stored one. */
  lemma AnswersMean(env: Env, out: Outcomes, p: Product)
    requires IsPull(env, out) && p !in env.preset
    ensures out(p).answer == Error ==> out(p).val == Lookup(env.vals0, p)
    ensures out(p).answer != Error ==> (out(p).answer == No <==> out(p).val == Lookup(env.vals0, p))
  {
    assert out(p) == OutcomeOf(env, out, p);
  }

  lemma SolutionsAgree(env: Env, a: Outcomes, m: nat, b: Outcomes, n: nat, q: Product)
    requires RankedDeps(env) && env.rules.rank(q) < m <= n
    ensures IsPullBelow(env, a, m) && IsPullBelow(env, b, n) ==> a(q) == b(q)
  {
    if IsPullBelow(env, a, m) && IsPullBelow(env, b, n) {
      PullIsUnique(env, a, b, m);
    }
  }

  ghost function Extend(env: Env, below: Outcomes, n: nat): Outcomes {
    p => if env.rules.rank(p) == n then OutcomeOf(env, below, p) else below(p)
  }

  lemma ExtendIsPull(env: Env, below: Outcomes, n: nat)
    requires RankedDeps(env) && IsPullBelow(env, below, n)
    ensures IsPullBelow(env, Extend(env, below, n), n + 1)
  {
    var out := Extend(env, below, n);
    forall p | env.rules.rank(p) < n + 1 ensures out(p) == OutcomeOf(env, out, p) {
      OutcomeLocal(env, below, out, p);
    }
  }

  lemma {:induction false} PullBelowExists(env: Env, n: nat)
    requires RankedDeps(env)
    ensures exists out :: IsPullBelow(env, out, n)
  {
    if n == 0 {
      var out: Outcomes := p => Outcome(Error, None, []);
      assert IsPullBelow(env, out, n);
    } else {
      PullBelowExists(env, n - 1);
      var below :| IsPullBelow(env, below, n - 1);
      ExtendIsPull(env, below, n - 1);
    }
  }

  /** The outcome of p in any solution that reaches its rank. */
  ghost function PullOf(env: Env, p: Product): Outcome
    requires RankedDeps(env)
  {
    PullBelowExists(env, env.rules.rank(p) + 1);
    var out :| IsPullBelow(env, out, env.rules.rank(p) + 1);
    out(p)
  }

  lemma {:induction false} PullOfIs(env: Env, a: Outcomes, n: nat, p: Product)
    requires RankedDeps(env) && IsPullBelow(env, a, n) && env.rules.rank(p) < n
    ensures PullOf(env, p) == a(p)
  {
    hide OutcomeOf;
    PullBelowExists(env, env.rules.rank(p) + 1);
    var out :| IsPullBelow(env, out, env.rules.rank(p) + 1) && PullOf(env, p) == out(p);
    SolutionsAgree(env, out, env.rules.rank(p) + 1, a, n, p);
  }

  lemma SolutionAt(env: Env, out: Outcomes, a: Outcomes, p: Product)
    requires RankedDeps(env) && IsPullBelow(env, a, env.rules.rank(p) + 1)
    requires forall q :: out(q) == PullOf(env, q)
    ensures out(p) == OutcomeOf(env, out, p)
  {
    var n := env.rules.rank(p) + 1;
    forall q | env.rules.rank(q) < n ensures out(q) == a(q) { PullOfIs(env, a, n, q); }
    OutcomeLocal(env, out, a, p);
  }

  /** The incremental pull exists: every product has an answer, a value and recorded needs for this run. */
  lemma PullExists(env: Env)
    requires RankedDeps(env)
    ensures exists out :: IsPull(env, out)
  {
    var out: Outcomes := p => PullOf(env, p);
    forall p ensures out(p) == OutcomeOf(env, out, p) {
      PullBelowExists(env, env.rules.rank(p) + 1);
      var a :| IsPullBelow(env, a, env.rules.rank(p) + 1);
      SolutionAt(env, out, a, p);
    }
    assert IsPull(env, out);
  }
}
