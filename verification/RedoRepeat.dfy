/** Pushing twice: the product that the first push runs again records no needs, so
    the second push of the same source reaches nothing and leaves it stale. */
module RedoRepeat {
  import opened Collections
  import opened RedoServer
  import opened RedoPull
  import opened RedoSound
  import opened RedoSystem
  import opened RedoTheorems
  import opened RedoPush
  import opened RedoComplete
  import opened RedoPartial

  lemma {:induction false} QuietAsks(s: Sys, actions: seq<Action>)
    requires Legal(s, actions) && Quiet(actions)
    ensures AskingHistory(s, actions)
    decreases |actions|
  {
    if actions == [] {
    } else {
      assert !StartsRun(actions[0]);
      assert forall a :: a in actions[1..] ==> a in actions;
      QuietAsks(Next(s, actions[0]), actions[1..]);
    }
  }

  lemma {:induction false} AsksConcat(s: Sys, xs: seq<Action>, ys: seq<Action>)
    requires Legal(s, xs) && AskingHistory(s, xs) && Legal(Exec(s, xs), ys) && AskingHistory(Exec(s, xs), ys)
    ensures Legal(s, xs + ys) && AskingHistory(s, xs + ys) && Exec(s, xs + ys) == Exec(Exec(s, xs), ys)
    decreases |xs|
  {
    hide FullRun;
    if xs == [] {
      assert xs + ys == ys;
    } else {
      assert (xs + ys)[1..] == xs[1..] + ys;
      AsksConcat(Next(s, xs[0]), xs[1..], ys);
    }
  }

  lemma AsksThen(s: Sys, a: Action, rest: seq<Action>)
    requires Enabled(s, a) && Legal(Next(s, a), rest) && AskingHistory(Next(s, a), rest)
    requires StartsRun(a) ==> FullRun(s) && (a.NextPush? ==> TellsTruth(s, a))
    ensures Legal(s, [a] + rest) && AskingHistory(s, [a] + rest) && Exec(s, [a] + rest) == Exec(Next(s, a), rest)
  {
    assert ([a] + rest)[1..] == rest;
  }

  /** The source shows v from now on, and the push says so. */
  function PushOf(v: Value): Action {
    NextPush(Shows(v), map[0 := v], [0], [])
  }

  lemma PushTells(s: Sys, v: Value)
    requires s.env.rules == COPY
    ensures TellsTruth(s, PushOf(v))
  {
    assert 0 in (s.srv.vals + map[0 := v]);
  }

  /** What the first push leaves: the copy is up to date, and no needs are recorded at all. */
  lemma AfterPush(t: Sys, v: Value)
    requires Good(t) && t.env.rules == COPY && t.env.preset == map[0 := Yes] && IsSettled(t, 1)
    requires Old(t.env, 1) == [0] && Old(t.env, 0) == [] && Lookup(t.env.vals0, 0) == Some(v)
    ensures Lookup(t.srv.vals, 1) == Some(v) && ListAt(t.srv.deps, 1) == [] && ListAt(t.srv.deps, 0) == []
  {
    var out :| IsPull(t.env, out) && Inv(t, out);
    RerunCopy(t.env, out, v);
    assert PhaseOk(t, out, 1);
    assert PhaseOk(t, out, 0);
  }

  lemma RerunCopy(env: Env, out: Outcomes, v: Value)
    requires env.rules == COPY && env.preset == map[0 := Yes] && IsPull(env, out)
    requires Old(env, 1) == [0] && Old(env, 0) == [] && Lookup(env.vals0, 0) == Some(v)
    ensures out(0) == Outcome(Yes, Some(v), []) && out(1).val == Some(v) && out(1).deps == []
  {
    assert out(0) == OutcomeOf(env, out, 0);
    assert out(1) == OutcomeOf(env, out, 1);
    assert Keys([0]) == [0];
    assert Answers(out, [0]) == [Yes];
    assert Found(out, [0]) == [Some(v)];
    assert GetVals([Some(v)]).value == [v];
    var none: History := [];
    assert none + [[v]] == [[v]];
    assert Run(env, out, 1, [[v]], false, []) == Gave(v, []);
    assert Resume(env, out, 1, none, [0], false, []) == Run(env, out, 1, [[v]], false, []);
    assert Run(env, out, 1, none, false, []) == Resume(env, out, 1, none, [0], false, []);
  }

  /** Only these two products can have recorded needs. */
  lemma NoneTracked(s: Sys)
    requires Carried(s) && s.env.rules == COPY && ListAt(s.srv.deps, 1) == [] && ListAt(s.srv.deps, 0) == []
    ensures forall p :: ListAt(s.srv.deps, p) == []
    ensures forall w :: w !in ListAt(s.srv.rdeps, 0)
  {
    var out :| IsPull(s.env, out) && Inv(s, out);
    TablesStayOk(s, out);
    forall p ensures ListAt(s.srv.deps, p) == [] {
      if p != 0 && p != 1 { assert TableOk(s.env.rules, s.srv.deps, s.srv.vals, p); }
    }
    hide Inv, IsPull;
    forall w ensures w !in ListAt(s.srv.rdeps, 0) { InverseTableExact(s, w, 0); }
  }

  /** With no recorded needs, nothing is reached and the closure is empty. */
  lemma NothingReached(s: Sys, v: Value)
    requires Carried(s) && s.env.rules == COPY && ClientIdle(s)
    requires ListAt(s.srv.deps, 1) == [] && ListAt(s.srv.deps, 0) == []
    ensures var t := Next(s, PushOf(v));
            CoveredRun(t)
            && forall rank, top | Ascends(t.srv.rdeps, rank, top) ::
              TransitiveClosure(t.srv.rdeps, [0], rank, top) == {}
  {
    NoneTracked(s);
    var t := Next(s, PushOf(v));
    assert t.srv.rdeps == s.srv.rdeps && t.env.deps0 == s.srv.deps;
    hide Carried, TransitiveClosure, Ascends, Next;
    forall rank, top | Ascends(t.srv.rdeps, rank, top) ensures TransitiveClosure(t.srv.rdeps, [0], rank, top) == {} {
      NothingAbove(t.srv.rdeps, rank, top);
    }
  }

  lemma NothingAbove(rdeps: Table, rank: Product -> nat, top: nat)
    requires Ascends(rdeps, rank, top) && forall w :: w !in ListAt(rdeps, 0)
    ensures TransitiveClosure(rdeps, [0], rank, top) == {}
  {
    hide Reaches, TransitiveClosure, Ascends;
    forall x ensures x !in TransitiveClosure(rdeps, [0], rank, top) {
      TransitiveClosureExact(rdeps, [0], rank, top, x);
      if Reaches(rdeps, 0, x) && x != 0 { var w := ReachesFirst(rdeps, 0, x); }
    }
  }

  lemma NothingToAsk(s: Sys, v: Value)
    requires Carried(s) && s.env.rules == COPY && ClientIdle(s)
    requires ListAt(s.srv.deps, 1) == [] && ListAt(s.srv.deps, 0) == []
    ensures AsksForAffected(Next(s, PushOf(v)))
  {
    var t := Next(s, PushOf(v));
    NothingReached(s, v);
    RunStartsWithInverse(s, PushOf(v));
    var top :| Ascends(t.srv.rdeps, t.env.rules.rank, top);
    assert IsChanged(t.env, [0]);
    assert AsksForClosure(t, t.srv.rdeps, [0], top);
  }

  lemma StaleAfter(s: Sys, v: Value, val: Valuation)
    requires ClientIdle(s) && !s.crashed && s.env.rules == COPY && 1 in s.srv.vals
    requires IsScratch(COPY, Shows(v), val)
    ensures StoreRight(Next(s, PushOf(v)), val, 1) <==> s.srv.vals[1] == v
  {
    ScratchCopy(v, val);
  }

  /** Pull the copy. */
  lemma PullCopy() returns (actions: seq<Action>)
    ensures var s0 := Init(COPY, Shows(10));
            Legal(s0, actions) && AskingHistory(s0, actions)
            && var t := Exec(s0, actions);
               Carried(t) && ClientIdle(t) && FullRun(t) && t.env.rules == COPY
               && ListAt(t.srv.deps, 1) == [0] && ListAt(t.srv.deps, 0) == []
  {
    var s0 := Init(COPY, Shows(10));
    GoodInit(COPY, Shows(10));
    actions := PullOne(s0, 1);
    QuietAsks(s0, actions);
    AfterFirstPull(Exec(s0, actions));
    CarriedInit(COPY, Shows(10));
    HistoryCarries(s0, actions);
  }

  lemma PushAsksTops(t: Sys, v: Value, s: Sys)
    requires Carried(t) && t.env.rules == COPY && ListAt(t.srv.deps, 1) == [0] && ListAt(t.srv.deps, 0) == []
    requires Enabled(t, PushOf(v)) && s.env == Next(t, PushOf(v)).env && Asked(s, 1)
    ensures AsksForTops(s)
  {
    hide Carried, Asked, Next, AsksForTops;
    OnlyTwoStored(t);
    PushEnv(t, v);
    TopOfTwo(s);
  }

  lemma TopOfTwo(s: Sys)
    requires (forall p :: p in s.env.vals0 ==> p == 0 || p == 1) && Old(s.env, 1) == [0] && Asked(s, 1)
    ensures AsksForTops(s)
  {
    hide Asked;
    var deps := Old(s.env, 1);
    assert deps[0] in deps;
    assert !IsTop(s.env, 0);
  }

  lemma OnlyTwoStored(s: Sys)
    requires Carried(s) && s.env.rules == COPY
    ensures forall p :: p in s.srv.vals ==> p == 0 || p == 1
  {
    var out :| IsPull(s.env, out) && Inv(s, out);
    TablesStayOk(s, out);
    hide Carried, Inv, IsPull;
    forall p | p in s.srv.vals ensures p == 0 || p == 1 {
      assert TableOk(s.env.rules, s.srv.deps, s.srv.vals, p);
    }
  }

  lemma PushEnv(t: Sys, v: Value)
    requires ClientIdle(t) && !t.crashed && t.env.rules == COPY
    requires ListAt(t.srv.deps, 1) == [0] && ListAt(t.srv.deps, 0) == []
    ensures var s := Next(t, PushOf(v));
            && !s.crashed && s.calls == [] && s.env.rules == COPY && s.env.preset == map[0 := Yes]
            && Old(s.env, 1) == [0] && Old(s.env, 0) == [] && s.env.vals0 == t.srv.vals[0 := v]
  {
    assert Preset([0], []) == map[0 := Yes];
  }

  lemma PushStarts(t: Sys, v: Value)
    requires Good(t) && ClientIdle(t)
    ensures Enabled(t, PushOf(v)) && Good(Next(t, PushOf(v)))
  {
    ProtocolSafe(t);
    hide Good, Next;
    GoodStep(t, PushOf(v));
  }

  /** Push v and evaluate the closure, which is the copy. */
  lemma PushOnce(t: Sys, v: Value) returns (actions: seq<Action>)
    requires Carried(t) && ClientIdle(t) && FullRun(t) && t.env.rules == COPY
    requires ListAt(t.srv.deps, 1) == [0] && ListAt(t.srv.deps, 0) == []
    ensures Legal(t, actions) && AskingHistory(t, actions)
    ensures var s := Exec(t, actions);
            && ClientIdle(s) && AsksForTops(s) && s.env.rules == COPY
            && Lookup(s.srv.vals, 1) == Some(v) && ListAt(s.srv.deps, 1) == [] && ListAt(s.srv.deps, 0) == []
  {
    PushTells(t, v);
    PushStarts(t, v);
    PushEnv(t, v);
    var s := Next(t, PushOf(v));
    var run := PullOne(s, 1);
    QuietAsks(s, run);
    var end := Exec(s, run);
    AfterPush(end, v);
    assert Asked(end, 1);
    PushAsksTops(t, v, end);
    hide Good, Carried, FullRun, TellsTruth, AsksForTops, Next;
    AsksThen(t, PushOf(v), run);
    actions := [PushOf(v)] + run;
  }

  /** Pull the copy, push v and evaluate the closure, push w.  Every push tells the
      truth and every run asks for all it should.  The second push has the empty
      closure and nothing to ask for, so the copy still holds v: it is right exactly
      if nothing was changed. */
  lemma RepeatedPushGoesStale(v: Value, w: Value) returns (actions: seq<Action>)
    ensures var s0 := Init(COPY, Shows(10));
            Legal(s0, actions) && AskingHistory(s0, actions)
    ensures var s := Exec(Init(COPY, Shows(10)), actions);
            && ClientIdle(s) && CoveredRun(s) && AsksForAffected(s) && s.env.world == Shows(w)
            && (forall rank, top | Ascends(s.srv.rdeps, rank, top) ::
                  TransitiveClosure(s.srv.rdeps, [0], rank, top) == {})
            && Lookup(s.srv.vals, 1) == Some(v)
            && (forall val | IsScratch(COPY, Shows(w), val) :: StoreRight(s, val, 1) <==> v == w)
  {
    var s0 := Init(COPY, Shows(10));
    var first := PullCopy();
    var t1 := Exec(s0, first);
    var second := PushOnce(t1, v);
    var t2 := Exec(t1, second);
    AsksConcat(s0, first, second);
    HistoryCarries(t1, second);
    SecondPush(t2, v, w);
    AsksConcat(s0, first + second, [PushOf(w)] + []);
    actions := first + second + ([PushOf(w)] + []);
  }

  lemma SecondPush(t: Sys, v: Value, w: Value)
    requires Carried(t) && ClientIdle(t) && AsksForTops(t) && t.env.rules == COPY
    requires Lookup(t.srv.vals, 1) == Some(v) && ListAt(t.srv.deps, 1) == [] && ListAt(t.srv.deps, 0) == []
    ensures var a := [PushOf(w)] + [];
            Legal(t, a) && AskingHistory(t, a) && Exec(t, a) == Next(t, PushOf(w))
    ensures var s := Next(t, PushOf(w));
            && ClientIdle(s) && CoveredRun(s) && AsksForAffected(s) && s.env.world == Shows(w)
            && (forall rank, top | Ascends(s.srv.rdeps, rank, top) ::
                  TransitiveClosure(s.srv.rdeps, [0], rank, top) == {})
            && Lookup(s.srv.vals, 1) == Some(v)
            && (forall val | IsScratch(COPY, Shows(w), val) :: StoreRight(s, val, 1) <==> v == w)
  {
    PushTells(t, w);
    AsksThen(t, PushOf(w), []);
    hide Carried, FullRun, AsksForTops, CoveredRun, AsksForAffected, StoreRight, Ascends, TransitiveClosure;
    NothingReached(t, w);
    NothingToAsk(t, w);
    forall val | IsScratch(COPY, Shows(w), val) ensures StoreRight(Next(t, PushOf(w)), val, 1) <==> v == w {
      StaleAfter(t, w, val);
    }
  }
}
