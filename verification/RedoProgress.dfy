/** A run cannot deadlock and cannot go on for ever: while a call is unanswered or
    a worker is live some internal action is enabled, and every internal action
    lowers a measure. */
module RedoProgress {
  import opened Collections
  import opened RedoServer
  import opened RedoPull
  import opened RedoSystem
  import opened RedoInvariant
  import opened RedoTheorems

  /** An action of the evaluator itself, as opposed to a client call or the start of a run. */
  predicate Internal(a: Action) {
    !a.ClientCall? && !StartsRun(a)
  }

  ghost predicate CanStep(s: Sys) {
    exists a :: Internal(a) && Enabled(s, a)
  }

  // ---- No deadlock ----

  /** A live worker can move, or a worker of smaller rank can. */
  lemma {:induction false} LiveWorkerSteps(s: Sys, out: Outcomes, i: Pid)
    requires Inv(s, out) && Is(s, i) && Live(s.workers[i])
    ensures CanStep(s)
    decreases s.env.rules.rank(s.workers[i].product)
  {
    hide CallOk, PhaseOk, Untouched, Run, Resume, RunRule, Skips;
    assert WorkerOk(s, out, i);
    match s.workers[i].st
    case Start => assert Enabled(s, Begin(i));
    case Ruling(_) => assert Enabled(s, Ask(i)) || Enabled(s, EndRule(i));
    case Finishing(_) => assert Enabled(s, ServeDone(i));
    case Checking(from) =>
      AwaitedSteps(s, out, i, from, Keys(s.workers[i].old_));
      assert CanStep(s) || Enabled(s, Checked(i));
    case Needing(_, ds, from) =>
      AwaitedSteps(s, out, i, from, Keys(ds));
      assert CanStep(s) || Enabled(s, Answered(i));
  }

  /** A worker blocked on calls has all replies, or something else can move. */
  lemma {:induction false} AwaitedSteps(s: Sys, out: Outcomes, i: Pid, from: nat, ks: seq<Product>)
    requires Inv(s, out) && Is(s, i) && Sent(s, i, from, ks)
    ensures AllAnswered(s, from, |ks|) || CanStep(s)
    decreases s.env.rules.rank(s.workers[i].product), 0
  {
    if !AllAnswered(s, from, |ks|) {
      var c :| from <= c < from + |ks| && s.calls[c].replies == [];
      assert CallOk(s, out, c);
      if s.calls[c].inFlight {
        assert Enabled(s, ServeEval(c));
      } else {
        var j := WaitingHasWorker(s, out, s.calls[c].product);
        LiveWorkerSteps(s, out, j);
      }
    }
  }

  /** No deadlock: an unanswered call or a live worker means that some internal action is enabled. */
  lemma NoDeadlock(s: Sys)
    requires Good(s)
    requires (exists c :: 0 <= c < |s.calls| && s.calls[c].replies == [])
             || (exists i :: 0 <= i < |s.workers| && Live(s.workers[i]))
    ensures CanStep(s)
  {
    var out :| IsPull(s.env, out) && Inv(s, out);
    if i :| 0 <= i < |s.workers| && Live(s.workers[i]) {
      LiveWorkerSteps(s, out, i);
    } else {
      var c :| 0 <= c < |s.calls| && s.calls[c].replies == [];
      assert CallOk(s, out, c);
      if s.calls[c].inFlight {
        assert Enabled(s, ServeEval(c));
      } else {
        var i := WaitingHasWorker(s, out, s.calls[c].product);
      }
    }
  }

  // ---- No infinite run ----

  /** Steps left for a worker that is about to take its next rule step after history h. */
  ghost function RuleCost(env: Env, out: Outcomes, p: Product, h: History): nat
    requires RankedDeps(env)
    decreases env.rules.rank(p), 1, env.rules.height(p, h)
  {
    match Body(env.rules, env.world, p, h)
    case Need(ds) => 1 + KeysCost(env, out, Keys(ds), env.rules.rank(p)) + ResumeCost(env, out, p, h, ds)
    case _ => 2
  }

  ghost function ResumeCost(env: Env, out: Outcomes, p: Product, h: History, ds: seq<Product>): nat
    requires RankedDeps(env) && Body(env.rules, env.world, p, h) == Need(ds)
    decreases env.rules.rank(p), 1, env.rules.height(p, h), 0
  {
    var vs := GetVals(Found(out, ds));
    if vs.None? then 2 else 2 + RuleCost(env, out, p, h + [vs.value])
  }

  /** Steps caused by one eval call per key. */
  ghost function KeysCost(env: Env, out: Outcomes, ks: seq<Product>, r: nat): nat
    requires RankedDeps(env) && forall k :: k in ks ==> env.rules.rank(k) < r
    decreases r, 0, |ks|
  {
    if ks == [] then 0 else 1 + Cost(env, out, ks[0]) + KeysCost(env, out, ks[1..], r)
  }

  /** Steps of a whole worker for p and of all the calls it makes. */
  ghost function Cost(env: Env, out: Outcomes, p: Product): nat
    requires RankedDeps(env)
    decreases env.rules.rank(p), 2
  {
    if Old(env, p) == [] then 1 + RuleCost(env, out, p, [])
    else 2 + KeysCost(env, out, Keys(Old(env, p)), env.rules.rank(p)) + RuleCost(env, out, p, [])
  }

  ghost function CallWeight(env: Env, out: Outcomes, k: Call): nat
    requires RankedDeps(env)
  {
    if k.inFlight then 1 + Cost(env, out, k.product) else 0
  }

  ghost function WorkerWeight(env: Env, out: Outcomes, w: Worker): nat
    requires RankedDeps(env)
  {
    match w.st
    case Start => Cost(env, out, w.product)
    case Checking(_) => 1 + RuleCost(env, out, w.product, [])
    case Ruling(h) => RuleCost(env, out, w.product, h)
    case Needing(h, ds, _) =>
      if Body(env.rules, env.world, w.product, h) == Need(ds) then ResumeCost(env, out, w.product, h, ds) else 0
    case Finishing(_) => 1
    case Exited => 0
  }

  function Total(ws: seq<nat>): nat {
    if ws == [] then 0 else ws[0] + Total(ws[1..])
  }

  lemma {:induction false} TotalAppend(a: seq<nat>, b: seq<nat>)
    ensures Total(a + b) == Total(a) + Total(b)
  {
    if a == [] {
      assert a + b == b;
    } else {
      assert (a + b)[1..] == a[1..] + b;
      TotalAppend(a[1..], b);
    }
  }

  lemma {:induction false} TotalUpdate(a: seq<nat>, i: nat, w: nat)
    requires i < |a|
    ensures Total(a[i := w]) + a[i] == Total(a) + w
  {
    if i == 0 {
    } else {
      TotalUpdate(a[1..], i - 1, w);
      assert a[i := w][1..] == a[1..][i - 1 := w];
    }
  }

  ghost function CallWeights(s: Sys, out: Outcomes): seq<nat>
    requires RankedDeps(s.env)
  {
    seq(|s.calls|, c requires 0 <= c < |s.calls| => CallWeight(s.env, out, s.calls[c]))
  }

  ghost function WorkerWeights(s: Sys, out: Outcomes): seq<nat>
    requires RankedDeps(s.env)
  {
    seq(|s.workers|, i requires 0 <= i < |s.workers| => WorkerWeight(s.env, out, s.workers[i]))
  }

  /** An upper bound on the internal actions left in this run. */
  ghost function Measure(s: Sys, out: Outcomes): nat
    requires RankedDeps(s.env)
  {
    Total(CallWeights(s, out)) + Total(WorkerWeights(s, out))
  }

  lemma {:induction false} SentWeights(s: Sys, out: Outcomes, w: Pid, ks: seq<Product>, r: nat)
    requires RankedDeps(s.env) && forall k :: k in ks ==> s.env.rules.rank(k) < r
    ensures Total(CallWeights(s.(calls := Send([], OfWorker(w), ks)), out)) == KeysCost(s.env, out, ks, r)
  {
    var t := s.(calls := Send([], OfWorker(w), ks));
    if ks == [] {
    } else {
      SentWeights(s, out, w, ks[1..], r);
      assert CallWeights(t, out)[1..] == CallWeights(s.(calls := Send([], OfWorker(w), ks[1..])), out);
    }
  }

  /** A step that sends calls for ks adds their cost; one that does not leaves the calls' weight. */
  lemma SendMeasure(s: Sys, t: Sys, w: Pid, ks: seq<Product>, out: Outcomes)
    requires RankedDeps(s.env) && t.env == s.env && Is(s, w) && |t.workers| == |s.workers|
    requires forall k :: k in ks ==> s.env.rules.rank(k) < s.env.rules.rank(s.workers[w].product)
    requires t.workers == s.workers[w := t.workers[w]] && t.calls == Send(s.calls, OfWorker(w), ks)
    ensures Measure(t, out) + WorkerWeight(s.env, out, s.workers[w]) ==
            Measure(s, out) + WorkerWeight(s.env, out, t.workers[w])
              + KeysCost(s.env, out, ks, s.env.rules.rank(s.workers[w].product))
  {
    var sent := s.(calls := Send([], OfWorker(w), ks));
    assert CallWeights(t, out) == CallWeights(s, out) + CallWeights(sent, out);
    TotalAppend(CallWeights(s, out), CallWeights(sent, out));
    SentWeights(s, out, w, ks, s.env.rules.rank(s.workers[w].product));
    TotalUpdate(WorkerWeights(s, out), w, WorkerWeight(s.env, out, t.workers[w]));
    assert WorkerWeights(t, out) == WorkerWeights(s, out)[w := WorkerWeight(s.env, out, t.workers[w])];
  }

  /** A step of one worker that sends nothing. */
  lemma QuietMeasure(s: Sys, t: Sys, w: Pid, out: Outcomes)
    requires RankedDeps(s.env) && t.env == s.env && Is(s, w) && |t.workers| == |s.workers| && |t.calls| == |s.calls|
    requires t.workers == s.workers[w := t.workers[w]]
    requires forall c :: 0 <= c < |s.calls| ==>
             t.calls[c].product == s.calls[c].product && t.calls[c].inFlight == s.calls[c].inFlight
    ensures Measure(t, out) + WorkerWeight(s.env, out, s.workers[w]) ==
            Measure(s, out) + WorkerWeight(s.env, out, t.workers[w])
  {
    assert CallWeights(t, out) == CallWeights(s, out);
    TotalUpdate(WorkerWeights(s, out), w, WorkerWeight(s.env, out, t.workers[w]));
    assert WorkerWeights(t, out) == WorkerWeights(s, out)[w := WorkerWeight(s.env, out, t.workers[w])];
  }

  lemma ServeEvalLowers(s: Sys, c: CallId, out: Outcomes)
    requires RankedDeps(s.env) && Inv(s, out) && Enabled(s, ServeEval(c))
    ensures Measure(Next(s, ServeEval(c)), out) < Measure(s, out)
  {
    var t := Next(s, ServeEval(c));
    assert CallWeights(t, out) == CallWeights(s, out)[c := 0];
    TotalUpdate(CallWeights(s, out), c, 0);
    if |t.workers| > |s.workers| {
      var spawned := t.workers[|s.workers|];
      assert WorkerWeights(t, out) == WorkerWeights(s, out) + [WorkerWeight(s.env, out, spawned)];
      TotalAppend(WorkerWeights(s, out), [WorkerWeight(s.env, out, spawned)]);
    } else {
      assert WorkerWeights(t, out) == WorkerWeights(s, out);
    }
  }

  lemma BeginLowers(s: Sys, w: Pid, out: Outcomes)
    requires RankedDeps(s.env) && WorkersOk(s, out) && Enabled(s, Begin(w))
    ensures Measure(Next(s, Begin(w)), out) < Measure(s, out)
  {
    assert WorkerOk(s, out, w);
    if s.workers[w].old_ == [] {
      QuietMeasure(s, Next(s, Begin(w)), w, out);
    } else {
      SendMeasure(s, Next(s, Begin(w)), w, Keys(s.workers[w].old_), out);
    }
  }

  lemma AskLowers(s: Sys, w: Pid, out: Outcomes)
    requires RankedDeps(s.env) && Enabled(s, Ask(w))
    ensures Measure(Next(s, Ask(w)), out) < Measure(s, out)
  {
    SendMeasure(s, Next(s, Ask(w)), w, Keys(BodyOf(s, w).ds), out);
  }

  lemma RuleCostPositive(env: Env, out: Outcomes, p: Product, h: History)
    requires RankedDeps(env)
    ensures RuleCost(env, out, p, h) >= 2
  {
  }

  lemma CheckedLowers(s: Sys, w: Pid, out: Outcomes)
    requires RankedDeps(s.env) && Enabled(s, Checked(w))
    ensures Measure(Next(s, Checked(w)), out) < Measure(s, out)
  {
    QuietMeasure(s, Next(s, Checked(w)), w, out);
    RuleCostPositive(s.env, out, s.workers[w].product, []);
  }

  /** After the answers the worker either goes on with the values read, or finishes. */
  lemma {:induction false} AnsweredWeighs(s: Sys, w: Pid, out: Outcomes)
    requires RankedDeps(s.env) && Inv(s, out) && IsPull(s.env, out) && Enabled(s, Answered(w))
    ensures WorkerWeight(s.env, out, Next(s, Answered(w)).workers[w]) < WorkerWeight(s.env, out, s.workers[w])
  {
    var Needing(h, ds, from) := s.workers[w].st;
    assert RunningOk(s, out, w) by { assert WorkerOk(s, out, w); }
    NeedsRead(s, out, w, from, ds);
    hide Inv, Run, Skips, OutcomeOf;
  }

  lemma {:induction false} AnsweredLowers(s: Sys, w: Pid, out: Outcomes)
    requires RankedDeps(s.env) && IsPull(s.env, out) && Inv(s, out) && Enabled(s, Answered(w))
    ensures Measure(Next(s, Answered(w)), out) < Measure(s, out)
  {
    hide Inv, Measure, WorkerWeight;
    AnsweredWeighs(s, w, out);
    QuietMeasure(s, Next(s, Answered(w)), w, out);
  }

  lemma EndRuleLowers(s: Sys, w: Pid, out: Outcomes)
    requires RankedDeps(s.env) && Enabled(s, EndRule(w))
    ensures Measure(Next(s, EndRule(w)), out) < Measure(s, out)
  {
    QuietMeasure(s, Next(s, EndRule(w)), w, out);
  }

  /** Every internal action lowers the measure, so a run makes finitely many of them. */
  lemma InternalLowers(s: Sys, a: Action, out: Outcomes)
    requires RankedDeps(s.env) && IsPull(s.env, out) && Inv(s, out) && Internal(a) && Enabled(s, a)
    ensures Measure(Next(s, a), out) < Measure(s, out)
  {
    match a
    case ServeEval(c) => ServeEvalLowers(s, c, out);
    case Begin(w) => BeginLowers(s, w, out);
    case Checked(w) => CheckedLowers(s, w, out);
    case Ask(w) => AskLowers(s, w, out);
    case Answered(w) => AnsweredLowers(s, w, out);
    case EndRule(w) => EndRuleLowers(s, w, out);
    case ServeDone(w) => DoneSettles(s, w, out); QuietMeasure(s, Next(s, a), w, out);
  }

  /** From any good state, at most Measure internal actions can be taken in a row. */
  lemma {:induction false} InternalRunsAreBounded(s: Sys, actions: seq<Action>, out: Outcomes)
    requires RankedDeps(s.env) && IsPull(s.env, out) && Inv(s, out)
    requires Legal(s, actions) && forall a :: a in actions ==> Internal(a)
    ensures |actions| <= Measure(s, out)
    decreases |actions|
  {
    if actions == [] {
    } else {
      InternalLowers(s, actions[0], out);
      StepKeeps(s, actions[0], out);
      InternalRunsAreBounded(Next(s, actions[0]), actions[1..], out);
    }
  }

  /** A pull returns: from any good state some internal actions lead to one where
      every call has exactly one reply and every worker has exited. */
  lemma {:induction false} PullReturns(s: Sys, out: Outcomes) returns (actions: seq<Action>)
    requires Good(s) && IsPull(s.env, out) && Inv(s, out)
    ensures Legal(s, actions) && forall a :: a in actions ==> Internal(a)
    ensures var t := Exec(s, actions);
            && Good(t) && t.env == s.env && |t.calls| >= |s.calls|
            && (forall c :: 0 <= c < |t.calls| ==> |t.calls[c].replies| == 1)
            && (forall i :: 0 <= i < |t.workers| ==> t.workers[i].st.Exited?)
            && (forall p :: p in t.srv.phase ==> t.srv.phase[p].Settled?)
    decreases Measure(s, out)
  {
    if (exists c :: 0 <= c < |s.calls| && s.calls[c].replies == [])
      || (exists i :: 0 <= i < |s.workers| && Live(s.workers[i]))
    {
      NoDeadlock(s);
      var a :| Internal(a) && Enabled(s, a);
      InternalLowers(s, a, out);
      StepKeeps(s, a, out);
      GoodStep(s, a);
      var rest := PullReturns(Next(s, a), out);
      actions := [a] + rest;
      assert actions[1..] == rest;
      CallsNeverDropped(s, a);
    } else {
      actions := [];
      PullReturnsQuiescent(s);
    }
  }

  lemma CallsNeverDropped(s: Sys, a: Action)
    requires Enabled(s, a) && Internal(a)
    ensures |Next(s, a).calls| >= |s.calls|
  {
  }
}
