/** Partial rebuilds: a history that pulls only part of the graph and leaves a
    stale product behind, so the coverage hypothesis cannot be dropped. */
module RedoPartial {
  import opened Collections
  import opened RedoServer
  import opened RedoPull
  import opened RedoSound
  import opened RedoSystem
  import opened RedoInvariant
  import opened RedoTheorems
  import opened RedoProgress

  /** Product 0 polls the world, product 1 copies product 0, nothing else has a rule. */
  const COPY: Rules := RuleTable(
    p => p != 0 && p != 1,
    p => p == 0,
    (p, h) => if p != 1 then Fail else if |h| == 0 then Need([0]) else if |h[0]| == 1 then Give(h[0][0]) else Fail,
    p => if p == 1 then 1 else 0,
    (p, h) => if |h| == 0 then 1 as ORDINAL else 0 as ORDINAL)

  function Shows(v: Value): Product -> Value {
    p => v
  }

  lemma {:induction false} ExecConcat(s: Sys, xs: seq<Action>, ys: seq<Action>)
    requires Legal(s, xs) && Legal(Exec(s, xs), ys)
    ensures Legal(s, xs + ys) && Exec(s, xs + ys) == Exec(Exec(s, xs), ys)
    decreases |xs|
  {
    if xs == [] {
      assert xs + ys == ys;
    } else {
      assert (xs + ys)[1..] == xs[1..] + ys;
      ExecConcat(Next(s, xs[0]), xs[1..], ys);
    }
  }

  lemma {:induction false} FirstCallKept(s: Sys, actions: seq<Action>)
    requires Legal(s, actions) && (forall a :: a in actions ==> Internal(a)) && s.calls != []
    ensures var t := Exec(s, actions);
            t.calls != []
            && t.calls[0].(inFlight := true, replies := []) == s.calls[0].(inFlight := true, replies := [])
    decreases |actions|
  {
    if actions == [] {
    } else {
      assert Internal(actions[0]);
      CallsNeverDropped(s, actions[0]);
      FirstCallKept(Next(s, actions[0]), actions[1..]);
    }
  }

  ghost predicate Quiet(actions: seq<Action>) {
    forall a :: a in actions ==> !StartsRun(a)
  }

  /** Pull one product in an empty run and let the run finish. */
  lemma PullOne(s: Sys, p: Product) returns (actions: seq<Action>)
    requires Good(s) && !s.crashed && s.calls == [] && !s.env.rules.crashes(p)
    ensures Legal(s, actions)
    ensures var t := Exec(s, actions); Good(t) && t.env == s.env && ClientIdle(t) && IsSettled(t, p)
    ensures var t := Exec(s, actions); t.calls != [] && t.calls[0].owner.Client? && t.calls[0].product == p
    ensures Quiet(actions)
  {
    var s1 := Next(s, ClientCall(p));
    GoodStep(s, ClientCall(p));
    var out :| IsPull(s1.env, out) && Inv(s1, out);
    var rest := PullReturns(s1, out);
    FirstCallKept(s1, rest);
    actions := [ClientCall(p)] + rest;
    assert actions[1..] == rest;
    var t := Exec(s, actions);
    var out' :| IsPull(t.env, out') && Inv(t, out');
    assert CallOk(t, out', 0);
  }

  /** The outcome of the input when nothing is seeded. */
  lemma InputOutcome(env: Env, out: Outcomes)
    requires env.rules == COPY && env.preset == map[] && Old(env, 0) == [] && IsPull(env, out)
    ensures var v := env.world(0);
            out(0) == Outcome(if Lookup(env.vals0, 0) == Some(v) then No else Yes, Some(v), [])
  {
    assert out(0) == OutcomeOf(env, out, 0);
  }

  lemma FirstCopy(env: Env, out: Outcomes)
    requires env == Env(COPY, env.world, map[], map[], map[]) && IsPull(env, out)
    ensures out(1).val == Some(env.world(0)) && out(1).deps == [0]
  {
    InputOutcome(env, out);
    assert out(1) == OutcomeOf(env, out, 1);
    assert Keys([0]) == [0];
    assert Answers(out, [0]) == [Yes];
    assert Found(out, [0]) == [Some(env.world(0))];
    assert GetVals([Some(env.world(0))]).value == [env.world(0)];
    var none: History := [];
    var h: History := none + [[env.world(0)]];
    assert Run(env, out, 1, h, true, [0]) == Gave(env.world(0), [0]);
    assert Resume(env, out, 1, none, [0], true, [0]) == Run(env, out, 1, h, true, [0]);
    assert AddKeys([], [0]) == [0];
    assert Run(env, out, 1, none, true, []) == Resume(env, out, 1, none, [0], true, [0]);
  }

  lemma Then(s: Sys, a: Action, rest: seq<Action>)
    requires Enabled(s, a) && Legal(Next(s, a), rest)
    ensures Legal(s, [a] + rest) && Exec(s, [a] + rest) == Exec(Next(s, a), rest)
  {
    assert ([a] + rest)[1..] == rest;
  }

  /** An idle system evaluating product 0 alone: its one worker and the client's call. */
  ghost predicate InputOnly(s: Sys, st: WorkerState, deps: Table, vals: map<Product, Value>) {
    && !s.crashed && s.env.rules == COPY
    && s.calls == [Call(Client, 0, false, [])] && s.workers == [Worker(0, [], st)]
    && s.srv.phase == map[0 := Waiting([0])] && ListAt(s.srv.need, 0) == []
    && s.srv.deps == deps && s.srv.vals == vals
  }

  lemma InputSpawned(s: Sys)
    requires !s.crashed && s.env.rules == COPY && s.calls == [] && s.workers == [] && s.srv.phase == map[]
    requires ListAt(s.srv.deps, 0) == []
    ensures Enabled(Next(s, ClientCall(0)), ServeEval(0))
    ensures InputOnly(Next(Next(s, ClientCall(0)), ServeEval(0)), Start, s.srv.deps, s.srv.vals)
  {
    assert Next(s, ClientCall(0)).calls == [Call(Client, 0, true, [])];
    DeliverNone([Call(Client, 0, false, [])]);
  }

  lemma InputEnded(s: Sys)
    requires InputOnly(s, Ruling([]), s.srv.deps, s.srv.vals)
    ensures Enabled(s, EndRule(0))
    ensures var t := Next(s, EndRule(0));
            t.workers[0].st.Finishing? && t.workers[0].st.update.deps == None
            && InputOnly(t, t.workers[0].st, s.srv.deps, s.srv.vals[0 := s.env.world(0)]) && t.env == s.env
  {
  }

  lemma InputSettled(s: Sys)
    requires |s.workers| == 1 && s.workers[0].st.Finishing? && s.workers[0].st.update.deps == None
    requires InputOnly(s, s.workers[0].st, s.srv.deps, s.srv.vals)
    ensures Enabled(s, ServeDone(0))
    ensures var t := Next(s, ServeDone(0));
            t.env == s.env && !t.crashed && ClientIdle(t) && t.srv.deps == s.srv.deps && t.srv.vals == s.srv.vals
  {
    var a := s.workers[0].st.update.answer;
    assert ReplyAll([0], a) == [Reply(0, a)];
    DeliverOne(s.calls, 0, a);
  }

  /** Evaluate only the input, on an idle system. */
  lemma PullInputOnly(s: Sys) returns (actions: seq<Action>)
    requires !s.crashed && s.env.rules == COPY && s.calls == [] && s.workers == [] && s.srv.phase == map[]
    requires ListAt(s.srv.deps, 0) == []
    ensures Legal(s, actions)
    ensures var t := Exec(s, actions);
            t.env == s.env && !t.crashed && ClientIdle(t) && t.srv.deps == s.srv.deps
            && t.srv.vals == s.srv.vals[0 := s.env.world(0)]
  {
    var s1 := Next(s, ClientCall(0));
    InputSpawned(s);
    var s2 := Next(s1, ServeEval(0));
    var s3 := Next(s2, Begin(0));
    assert InputOnly(s3, Ruling([]), s.srv.deps, s.srv.vals);
    InputEnded(s3);
    var s4 := Next(s3, EndRule(0));
    InputSettled(s4);
    Then(s4, ServeDone(0), []);
    Then(s3, EndRule(0), [ServeDone(0)] + []);
    Then(s2, Begin(0), [EndRule(0)] + ([ServeDone(0)] + []));
    Then(s1, ServeEval(0), [Begin(0)] + ([EndRule(0)] + ([ServeDone(0)] + [])));
    Then(s, ClientCall(0), [ServeEval(0)] + ([Begin(0)] + ([EndRule(0)] + ([ServeDone(0)] + []))));
    actions := [ClientCall(0)] + ([ServeEval(0)] + ([Begin(0)] + ([EndRule(0)] + ([ServeDone(0)] + []))));
  }

  /** Redo the input alone, then the copy: the copy's recorded need answers
      "unchanged" and the copy keeps its old value, 10 instead of 11. */
  lemma PartialRebuildGoesStale() returns (actions: seq<Action>)
    ensures var s0 := Init(COPY, Shows(10));
            Legal(s0, actions) && IsSettled(Exec(s0, actions), 1)
            && exists val :: IsScratch(COPY, Shows(11), val) && !StoredRight(Exec(s0, actions), val, 1)
    ensures Exec(Init(COPY, Shows(10)), actions).env.world == Shows(11)
  {
    var s0 := Init(COPY, Shows(10));
    GoodInit(COPY, Shows(10));
    var run1 := PullOne(s0, 1);
    var t1 := Exec(s0, run1);
    AfterFirstPull(t1);

    var rest := PullBehind(t1);
    ExecConcat(s0, run1, rest);
    actions := run1 + rest;
  }

  /** Redo the input alone, then the copy. */
  lemma PullBehind(t1: Sys) returns (actions: seq<Action>)
    requires Good(t1) && ClientIdle(t1) && t1.env.rules == COPY
    requires ListAt(t1.srv.deps, 1) == [0] && Lookup(t1.srv.vals, 1) == Some(10) && ListAt(t1.srv.deps, 0) == []
    ensures Legal(t1, actions)
    ensures var t := Exec(t1, actions);
            && IsSettled(t, 1) && t.env.world == Shows(11)
            && exists val :: IsScratch(COPY, Shows(11), val) && !StoredRight(t, val, 1)
  {
    var start := NextPull(Shows(11));
    ProtocolSafe(t1);
    var s2 := Next(t1, start);
    GoodStep(t1, start);
    var run2 := PullInputOnly(s2);
    var t2 := Exec(s2, run2);
    GoodRun(s2, run2);
    var rest := PullAgain(t2);
    ExecConcat(s2, run2, rest);
    Then(t1, start, run2 + rest);
    actions := [start] + (run2 + rest);
  }

  lemma PullAgain(t2: Sys) returns (actions: seq<Action>)
    requires Good(t2) && ClientIdle(t2) && t2.env.rules == COPY
    requires ListAt(t2.srv.deps, 1) == [0] && ListAt(t2.srv.deps, 0) == []
    requires Lookup(t2.srv.vals, 0) == Some(11) && Lookup(t2.srv.vals, 1) == Some(10)
    ensures Legal(t2, actions)
    ensures var t := Exec(t2, actions);
            && IsSettled(t, 1) && t.env.world == Shows(11)
            && exists val :: IsScratch(COPY, Shows(11), val) && !StoredRight(t, val, 1)
  {
    var start := NextPull(Shows(11));
    ProtocolSafe(t2);
    GoodStep(t2, start);
    var run := PullOne(Next(t2, start), 1);
    StaleAtLast(Exec(Next(t2, start), run));
    Then(t2, start, run);
    actions := [start] + run;
  }

  lemma AfterFirstPull(t: Sys)
    requires Good(t) && t.env == Init(COPY, Shows(10)).env && IsSettled(t, 1)
    ensures ListAt(t.srv.deps, 1) == [0] && Lookup(t.srv.vals, 1) == Some(10) && ListAt(t.srv.deps, 0) == []
  {
    var out :| IsPull(t.env, out) && Inv(t, out);
    FirstCopy(t.env, out);
    InputOutcome(t.env, out);
    assert PhaseOk(t, out, 1);
    assert 0 in out(1).deps;
    assert PhaseOk(t, out, 0);
  }

  lemma StaleAtLast(t: Sys)
    requires Good(t) && t.env.rules == COPY && t.env.preset == map[] && t.env.world == Shows(11) && IsSettled(t, 1)
    requires Old(t.env, 1) == [0] && Old(t.env, 0) == []
    requires Lookup(t.env.vals0, 0) == Some(11) && Lookup(t.env.vals0, 1) == Some(10)
    ensures exists val :: IsScratch(COPY, t.env.world, val) && !StoredRight(t, val, 1)
  {
    var out :| IsPull(t.env, out) && Inv(t, out);
    InputOutcome(t.env, out);
    assert Keys([0]) == [0];
    assert Answers(out, [0]) == [No];
    assert out(1) == OutcomeOf(t.env, out, 1);
    assert PhaseOk(t, out, 1);
    assert Lookup(t.srv.vals, 1) == Some(10) && out(1).answer == No;
    hide Inv, IsPull, Good;
    ScratchExists(COPY, Shows(11));
    var val :| IsScratch(COPY, Shows(11), val);
    ScratchCopy(11, val);
    assert !StoredRight(t, val, 1);
  }

  lemma ScratchCopy(v: Value, val: Valuation)
    requires IsScratch(COPY, Shows(v), val)
    ensures val(1) == Some(v)
  {
    var empty := Env(COPY, Shows(v), map[], map[], map[]);
    PullExists(empty);
    var out :| IsPull(empty, out);
    PullIsSound(empty, out, val, 2);
    FirstCopy(empty, out);
    assert out(1) == OutcomeOf(empty, out, 1);
    assert Right(out, val, 1);
  }
}
