/** Every step of the evaluator keeps the invariant, one lemma per action. */
module RedoInvariant {
  import opened Collections
  import opened RedoServer
  import opened RedoPull
  import opened RedoSystem

  // ---- Replies ----

  lemma {:induction false} AnswersToAll(ws: seq<CallId>, a: Answer, rs: seq<Reply>, c: CallId)
    requires rs == ReplyAll(ws, a)
    requires forall i, j :: 0 <= i < j < |ws| ==> ws[i] != ws[j]
    ensures AnswersTo(rs, c) == if c in ws then [a] else []
  {
    if ws == [] {
    } else {
      AnswersToAll(ws[1..], a, rs[1..], c);
      assert c in ws <==> c == ws[0] || c in ws[1..];
    }
  }

  lemma DeliverNone(calls: seq<Call>)
    ensures Deliver(calls, []) == calls
  {
    forall i | 0 <= i < |calls| ensures Deliver(calls, [])[i] == calls[i] {
      assert calls[i].replies + [] == calls[i].replies;
    }
  }

  lemma DeliverOne(calls: seq<Call>, c: CallId, a: Answer)
    requires c < |calls|
    ensures Deliver(calls, [Reply(c, a)]) == calls[c := calls[c].(replies := calls[c].replies + [a])]
  {
    var rs := [Reply(c, a)];
    forall i | 0 <= i < |calls|
      ensures Deliver(calls, rs)[i] == if i == c then calls[c].(replies := calls[c].replies + [a]) else calls[i]
    {
      assert AnswersTo(rs[1..], i) == [];
      assert calls[i].replies + [] == calls[i].replies;
    }
  }

  // ---- Frames: what a step of one process leaves true of the others ----

  ghost predicate CallsGrow(s: Sys, t: Sys) {
    |s.calls| <= |t.calls| &&
    forall c :: 0 <= c < |s.calls| ==>
      t.calls[c].owner == s.calls[c].owner && t.calls[c].product == s.calls[c].product
  }

  ghost predicate SettledGrows(s: Sys, t: Sys) {
    forall p :: IsSettled(s, p) ==> IsSettled(t, p)
  }

  ghost predicate SameAt(s: Sys, t: Sys, p: Product) {
    && (p in t.srv.phase <==> p in s.srv.phase)
    && (p in t.srv.phase ==> (t.srv.phase[p].Waiting? <==> s.srv.phase[p].Waiting?))
    && ListAt(t.srv.deps, p) == ListAt(s.srv.deps, p) && Lookup(t.srv.vals, p) == Lookup(s.srv.vals, p)
  }

  lemma WorkerFrame(s: Sys, t: Sys, out: Outcomes, i: Pid)
    requires Is(s, i) && Is(t, i) && WorkerOk(s, out, i)
    requires t.env == s.env && t.workers[i] == s.workers[i]
    requires CallsGrow(s, t) && SettledGrows(s, t) && SameAt(s, t, s.workers[i].product)
    requires Lookup(t.srv.need, i) == Lookup(s.srv.need, i)
    ensures WorkerOk(t, out, i)
  {
  }

  /** A waiting or settled call stays well placed when its product's phase is extended and its owner still waits. */
  lemma CallFrame(s: Sys, t: Sys, out: Outcomes, c: CallId)
    requires c < |s.calls| && c < |t.calls| && CallOk(s, out, c)
    requires t.env == s.env && t.calls[c] == s.calls[c] && SettledGrows(s, t)
    requires var p := s.calls[c].product;
             p in s.srv.phase && s.srv.phase[p].Waiting? && s.calls[c].replies == [] && !s.calls[c].inFlight ==>
             p in t.srv.phase && t.srv.phase[p].Waiting? &&
             (c in s.srv.phase[p].waiters ==> c in t.srv.phase[p].waiters)
    requires |s.workers| <= |t.workers|
    requires s.calls[c].owner.OfWorker? && Is(s, s.calls[c].owner.w) ==>
             var w := s.calls[c].owner.w;
             t.workers[w].product == s.workers[w].product &&
             (s.calls[c].replies == [] && Awaits(s.workers[w], c) ==> Awaits(t.workers[w], c))
    ensures CallOk(t, out, c)
  {
  }

  ghost predicate ProductsKept(s: Sys, t: Sys) {
    |s.workers| <= |t.workers| && forall i :: 0 <= i < |s.workers| ==> t.workers[i].product == s.workers[i].product
  }

  lemma PhaseFrame(s: Sys, t: Sys, out: Outcomes, p: Product)
    requires p in s.srv.phase && p in t.srv.phase && PhaseOk(s, out, p)
    requires t.env == s.env && t.srv.phase[p] == s.srv.phase[p]
    requires SettledGrows(s, t) && ProductsKept(s, t) && |s.calls| <= |t.calls|
    requires s.srv.phase[p].Waiting? ==>
               forall c :: c in s.srv.phase[p].waiters && c < |s.calls| ==> t.calls[c] == s.calls[c]
    requires s.srv.phase[p].Settled? ==> SameAt(s, t, p)
    ensures PhaseOk(t, out, p)
  {
    if s.srv.phase[p].Waiting? {
      var i :| 0 <= i < |s.workers| && s.workers[i].product == p;
      assert t.workers[i].product == p;
    }
  }

  /** A step that touches no worker. */
  lemma WorkersKept(s: Sys, t: Sys, out: Outcomes)
    requires WorkersOk(s, out) && t.env == s.env && t.workers == s.workers && t.srv.need == s.srv.need
    requires CallsGrow(s, t) && SettledGrows(s, t) && forall p :: SameAt(s, t, p)
    ensures WorkersOk(t, out)
  {
    hide WorkerOk, CallsGrow, SettledGrows, SameAt;
    forall i | 0 <= i < |t.workers| ensures WorkerOk(t, out, i) { WorkerFrame(s, t, out, i); }
  }

  /** A step of worker w alone. */
  lemma OthersKept(s: Sys, t: Sys, out: Outcomes, w: Pid)
    requires WorkersOk(s, out) && t.env == s.env && Is(s, w)
    requires |t.workers| == |s.workers| && t.workers == s.workers[w := t.workers[w]]
    requires t.workers[w].product == s.workers[w].product && WorkerOk(t, out, w)
    requires forall i :: i != w ==> Lookup(t.srv.need, i) == Lookup(s.srv.need, i)
    requires CallsGrow(s, t) && SettledGrows(s, t) && forall p :: p != s.workers[w].product ==> SameAt(s, t, p)
    ensures WorkersOk(t, out)
  {
    hide WorkerOk, CallsGrow, SettledGrows, SameAt;
    forall i | 0 <= i < |t.workers| ensures WorkerOk(t, out, i) {
      if i != w { WorkerFrame(s, t, out, i); }
    }
  }

  ghost predicate WaitersGrow(s: Sys, t: Sys) {
    forall p :: p in s.srv.phase && s.srv.phase[p].Waiting? ==>
      && p in t.srv.phase && t.srv.phase[p].Waiting?
      && forall c :: c in s.srv.phase[p].waiters ==> c in t.srv.phase[p].waiters
  }

  /** A step that serves call c. */
  lemma CallsKept(s: Sys, t: Sys, out: Outcomes, c: CallId)
    requires CallsOk(s, out) && t.env == s.env && t.workers == s.workers && SettledGrows(s, t) && WaitersGrow(s, t)
    requires c < |s.calls| == |t.calls| && t.calls == s.calls[c := t.calls[c]] && CallOk(t, out, c)
    ensures CallsOk(t, out)
  {
    hide CallOk, SettledGrows;
    forall d | 0 <= d < |t.calls| ensures CallOk(t, out, d) {
      if d != c { CallFrame(s, t, out, d); }
    }
  }

  /** The products whose workers have been started. */
  lemma WaitingHasWorker(s: Sys, out: Outcomes, p: Product) returns (i: Pid)
    requires Inv(s, out) && p in s.srv.phase && s.srv.phase[p].Waiting?
    ensures Is(s, i) && s.workers[i].product == p && Live(s.workers[i])
  {
    assert PhaseOk(s, out, p);
    i :| 0 <= i < |s.workers| && s.workers[i].product == p;
    assert WorkerOk(s, out, i);
  }

  // ---- Steps that only send calls ----

  lemma ClientCallKeeps(s: Sys, p: Product, out: Outcomes)
    requires Inv(s, out) && Enabled(s, ClientCall(p))
    ensures Inv(Next(s, ClientCall(p)), out)
  {
    var t := Next(s, ClientCall(p));
    forall i | 0 <= i < |t.workers| ensures WorkerOk(t, out, i) { WorkerFrame(s, t, out, i); }
    forall c | 0 <= c < |t.calls| ensures CallOk(t, out, c) {
      if c < |s.calls| { CallFrame(s, t, out, c); }
    }
    forall q | q in t.srv.phase ensures PhaseOk(t, out, q) { PhaseFrame(s, t, out, q); }
  }

  lemma SentCalls(s: Sys, t: Sys, w: Pid, st: WorkerState, ks: seq<Product>, out: Outcomes)
    requires CallsOk(s, out) && Is(s, w) && t.env == s.env && t.workers == Set(s, w, st)
    requires t.calls == Send(s.calls, OfWorker(w), ks) && t.srv.phase == s.srv.phase
    requires forall c :: 0 <= c < |s.calls| ==> !Awaits(s.workers[w], c)
    requires forall c :: |s.calls| <= c < |t.calls| ==> Awaits(t.workers[w], c)
    requires forall k :: k in ks ==> s.env.rules.rank(k) < s.env.rules.rank(s.workers[w].product)
    ensures CallsOk(t, out)
  {
    forall c | 0 <= c < |t.calls| ensures CallOk(t, out, c) {
      if c < |s.calls| { CallFrame(s, t, out, c); } else { assert t.calls[c].product in ks; }
    }
  }

  /** A step of worker w that sends calls for ks and blocks on them. */
  lemma {:induction false} SendStepKeeps(s: Sys, t: Sys, w: Pid, st: WorkerState, ks: seq<Product>, out: Outcomes)
    requires Inv(s, out) && Is(s, w) && Live(s.workers[w])
    requires t == s.(workers := Set(s, w, st), srv := t.srv, calls := Send(s.calls, OfWorker(w), ks))
    requires t.srv == s.srv.(need := t.srv.need)
    requires forall i :: i != w ==> Lookup(t.srv.need, i) == Lookup(s.srv.need, i)
    requires forall c :: 0 <= c < |s.calls| ==> !Awaits(s.workers[w], c)
    requires forall c :: |s.calls| <= c < |t.calls| ==> Awaits(t.workers[w], c)
    requires forall k :: k in ks ==> s.env.rules.rank(k) < s.env.rules.rank(s.workers[w].product)
    requires WorkerOk(t, out, w)
    ensures Inv(t, out)
  {
    hide WorkerOk, PhaseOk, WorkersOk, CallsOk, Awaits;
    OthersKept(s, t, out, w);
    SentCalls(s, t, w, st, ks, out);
    forall q | q in t.srv.phase ensures PhaseOk(t, out, q) { PhaseFrame(s, t, out, q); }
  }

  lemma {:induction false} BeginKeeps(s: Sys, w: Pid, out: Outcomes)
    requires Inv(s, out) && Enabled(s, Begin(w)) && RankedDeps(s.env)
    ensures Inv(Next(s, Begin(w)), out)
  {
    var t := Next(s, Begin(w));
    assert WorkerOk(s, out, w);
    assert WorkerOk(t, out, w);
    var old_ := s.workers[w].old_;
    if old_ == [] {
      OwnStepKeeps(s, t, w, t.workers[w].st, out);
    } else {
      SendStepKeeps(s, t, w, t.workers[w].st, Keys(old_), out);
    }
  }

  lemma RunAsks(env: Env, out: Outcomes, p: Product, h: History, ds: seq<Product>, track: bool, acc: seq<Product>)
    requires Body(env.rules, env.world, p, h) == Need(ds)
    ensures Run(env, out, p, h, track, acc) ==
            Resume(env, out, p, h, ds, track, if track then AddKeys(acc, ds) else acc)
  {
  }

  lemma NeedsAt(srv: Server, w: Pid, ds: seq<Product>)
    ensures var t := ServeNeeds(srv, w, ds);
            && t == srv.(need := t.need) && (w in t.need <==> w in srv.need)
            && ListAt(t.need, w) == (if w in srv.need then AddKeys(ListAt(srv.need, w), ds) else ListAt(srv.need, w))
    ensures forall d :: d in AddKeys(ListAt(srv.need, w), ds) <==> d in ListAt(srv.need, w) || d in ds
  {
  }

  lemma AskSends(s: Sys, w: Pid)
    requires Enabled(s, Ask(w))
    ensures var t := Next(s, Ask(w));
            var worker, ds := s.workers[w], BodyOf(s, w).ds;
            && t.env == s.env && t.srv == ServeNeeds(s.srv, w, ds) && Is(t, w)
            && t.workers[w] == worker.(st := Needing(worker.st.h, ds, |s.calls|)) && Sent(t, w, |s.calls|, Keys(ds))
  {
  }

  lemma NeedingIsRunning(t: Sys, out: Outcomes, w: Pid)
    requires Is(t, w) && t.workers[w].st.Needing?
    requires var worker := t.workers[w];
             var Needing(h, ds, from) := worker.st;
             var acc := ListAt(t.srv.need, w);
             && !Skips(t.env, out, worker.product) && (w in t.srv.need <==> worker.old_ == [])
             && Body(t.env.rules, t.env.world, worker.product, h) == Need(ds)
             && Resume(t.env, out, worker.product, h, ds, worker.old_ == [], acc) == RunRule(t.env, out, worker.product)
             && Sent(t, w, from, Keys(ds)) && forall d :: d in acc ==> d in ds || IsSettled(t, d)
    ensures RunningOk(t, out, w)
  {
    hide Run, Resume, RunRule, Skips, Sent;
  }

  lemma {:induction false} AskRunning(s: Sys, w: Pid, out: Outcomes)
    requires Enabled(s, Ask(w)) && WorkerOk(s, out, w)
    ensures RunningOk(Next(s, Ask(w)), out, w)
  {
    hide Run, Resume, RunRule, Skips, Sent, AddKeys, ServeNeeds;
    var t := Next(s, Ask(w));
    var worker, ds := s.workers[w], BodyOf(s, w).ds;
    var acc := ListAt(s.srv.need, w);
    assert RunningOk(s, out, w);
    AskSends(s, w);
    NeedsAt(s.srv, w, ds);
    RunAsks(s.env, out, worker.product, worker.st.h, ds, worker.old_ == [], acc);
    forall d | d in ListAt(t.srv.need, w) ensures d in ds || IsSettled(t, d) {
      assert d in acc ==> IsSettled(s, d);
    }
    hide Next, Enabled, WorkerOk, RunningOk;
    NeedingIsRunning(t, out, w);
  }

  lemma {:induction false} AskKeeps(s: Sys, w: Pid, out: Outcomes)
    requires Inv(s, out) && Enabled(s, Ask(w))
    ensures Inv(Next(s, Ask(w)), out)
  {
    var t := Next(s, Ask(w));
    assert WorkerOk(s, out, w);
    AskRunning(s, w, out);
    assert WorkerOk(t, out, w);
    SendStepKeeps(s, t, w, t.workers[w].st, Keys(BodyOf(s, w).ds), out);
  }

  // ---- Steps that read replies ----

  /** The replies to a list of needs are the outcomes' answers. */
  lemma CollectedAnswers(s: Sys, out: Outcomes, i: Pid, from: nat, ks: seq<Product>)
    requires CallsOk(s, out) && Sent(s, i, from, ks) && AllAnswered(s, from, |ks|)
    ensures Collected(s, from, |ks|) == Answers(out, ks)
    ensures forall k :: k in ks ==> IsSettled(s, k) || s.env.rules.crashes(k)
  {
    forall j | 0 <= j < |ks|
      ensures Collected(s, from, |ks|)[j] == out(ks[j]).answer && (IsSettled(s, ks[j]) || s.env.rules.crashes(ks[j]))
    {
      assert CallOk(s, out, from + j);
    }
  }

  /** Without an error among the answers, every need has settled. */
  lemma NoErrorSettled(s: Sys, out: Outcomes, ds: seq<Product>)
    requires PhasesOk(s, out) && IsPull(s.env, out)
    requires forall k :: k in Keys(ds) ==> IsSettled(s, k) || s.env.rules.crashes(k)
    requires AnyChanged(Answers(out, Keys(ds))) != Error
    ensures forall d :: d in ds ==> IsSettled(s, d)
  {
    forall d | d in ds ensures IsSettled(s, d) {
      assert d in Keys(ds);
      var j :| 0 <= j < |Keys(ds)| && Keys(ds)[j] == d;
      assert Answers(out, Keys(ds))[j] == out(d).answer;
      assert out(d) == OutcomeOf(s.env, out, d);
    }
  }

  /** A step of worker w that touches only its own state and need entry. */
  lemma OwnCalls(s: Sys, t: Sys, w: Pid, st: WorkerState, out: Outcomes)
    requires CallsOk(s, out) && Is(s, w) && t.calls == s.calls && t.env == s.env && t.workers == Set(s, w, st)
    requires t.srv.phase == s.srv.phase
    requires forall c :: 0 <= c < |s.calls| && Awaits(s.workers[w], c) ==> s.calls[c].replies != []
    ensures CallsOk(t, out)
  {
    hide CallOk, Awaits;
    forall c | 0 <= c < |t.calls| ensures CallOk(t, out, c) { CallFrame(s, t, out, c); }
  }

  lemma {:induction false} OwnStepKeeps(s: Sys, t: Sys, w: Pid, st: WorkerState, out: Outcomes)
    requires Inv(s, out) && Is(s, w) && Live(s.workers[w])
    requires t == s.(workers := Set(s, w, st), srv := t.srv)
    requires t.srv == s.srv.(need := t.srv.need, vals := t.srv.vals)
    requires forall i :: i != w ==> Lookup(t.srv.need, i) == Lookup(s.srv.need, i)
    requires forall p :: p != s.workers[w].product ==> Lookup(t.srv.vals, p) == Lookup(s.srv.vals, p)
    requires forall c :: 0 <= c < |s.calls| && Awaits(s.workers[w], c) ==> s.calls[c].replies != []
    requires WorkerOk(t, out, w)
    ensures Inv(t, out)
  {
    assert WorkerOk(s, out, w);
    assert s.workers[w].product in s.srv.phase && s.srv.phase[s.workers[w].product].Waiting?;
    hide WorkerOk, CallsOk, PhaseOk, Awaits, WorkersOk;
    OthersKept(s, t, out, w);
    OwnCalls(s, t, w, st, out);
    forall q | q in t.srv.phase ensures PhaseOk(t, out, q) { PhaseFrame(s, t, out, q); }
  }

  lemma {:induction false} CheckedWorker(s: Sys, w: Pid, out: Outcomes)
    requires Enabled(s, Checked(w)) && IsPull(s.env, out)
    requires WorkerOk(s, out, w) && CallsOk(s, out) && PhasesOk(s, out)
    ensures WorkerOk(Next(s, Checked(w)), out, w)
  {
    var worker := s.workers[w];
    CollectedAnswers(s, out, w, worker.st.from, Keys(worker.old_));
    if AnyChanged(Answers(out, Keys(worker.old_))) == No {
      NoErrorSettled(s, out, worker.old_);
      assert out(worker.product) == OutcomeOf(s.env, out, worker.product);
    }
  }

  lemma {:induction false} CheckedKeeps(s: Sys, w: Pid, out: Outcomes)
    requires Inv(s, out) && Enabled(s, Checked(w)) && IsPull(s.env, out)
    ensures Inv(Next(s, Checked(w)), out)
  {
    hide WorkerOk, RunningOk, CallOk, PhaseOk, IsPull;
    var t := Next(s, Checked(w));
    assert WorkerOk(s, out, w);
    CheckedWorker(s, w, out);
    OwnStepKeeps(s, t, w, t.workers[w].st, out);
  }

  /** With all replies in and no error, the values found in the store are the outcomes'. */
  lemma NeedsRead(s: Sys, out: Outcomes, i: Pid, from: nat, ds: seq<Product>)
    requires CallsOk(s, out) && PhasesOk(s, out) && IsPull(s.env, out)
    requires Sent(s, i, from, Keys(ds)) && AllAnswered(s, from, |Keys(ds)|)
    ensures Collected(s, from, |Keys(ds)|) == Answers(out, Keys(ds))
    ensures AnyChanged(Answers(out, Keys(ds))) != Error ==>
              FindVals(s.srv.vals, ds) == Found(out, ds) && forall d :: d in ds ==> IsSettled(s, d)
  {
    CollectedAnswers(s, out, i, from, Keys(ds));
    if AnyChanged(Answers(out, Keys(ds))) != Error {
      NoErrorSettled(s, out, ds);
      forall j | 0 <= j < |ds| ensures Lookup(s.srv.vals, ds[j]) == out(ds[j]).val {
        assert ds[j] in ds;
        assert PhaseOk(s, out, ds[j]);
      }
    }
  }

  lemma ResumeIs(env: Env, out: Outcomes, p: Product, h: History, ds: seq<Product>, track: bool, acc: seq<Product>)
    requires Body(env.rules, env.world, p, h) == Need(ds)
    ensures Resume(env, out, p, h, ds, track, acc) ==
            if AnyChanged(Answers(out, Keys(ds))) == Error || GetVals(Found(out, ds)).None? then Failed
            else Run(env, out, p, h + [GetVals(Found(out, ds)).value], track, acc)
  {
  }

  predicate AskFails(s: Sys, w: Pid)
    requires Enabled(s, Answered(w))
  {
    var st := s.workers[w].st;
    AnyChanged(Collected(s, st.from, |Keys(st.ds)|)) == Error || GetVals(FindVals(s.srv.vals, st.ds)).None?
  }

  lemma AnsweredFails(s: Sys, w: Pid, out: Outcomes)
    requires Enabled(s, Answered(w)) && IsPull(s.env, out) && WorkerOk(s, out, w) && AskFails(s, w)
    requires RunRule(s.env, out, s.workers[w].product).Failed?
    ensures WorkerOk(Next(s, Answered(w)), out, w)
  {
    RanOutcome(s.env, out, s.workers[w].product);
    hide IsPull, Run, Resume, RunRule, Collected, GetVals, FindVals, Sent;
  }

  lemma AnsweredRuns(s: Sys, w: Pid, out: Outcomes)
    requires Enabled(s, Answered(w)) && WorkerOk(s, out, w) && !AskFails(s, w)
    requires var worker := s.workers[w];
             var h := worker.st.h + [GetVals(FindVals(s.srv.vals, worker.st.ds)).value];
             Run(s.env, out, worker.product, h, worker.old_ == [], ListAt(s.srv.need, w)) ==
               RunRule(s.env, out, worker.product)
    requires forall d :: d in s.workers[w].st.ds ==> IsSettled(s, d)
    ensures WorkerOk(Next(s, Answered(w)), out, w)
  {
    hide Run, Resume, RunRule, Collected, GetVals, FindVals, Sent, Skips;
  }

  lemma {:induction false} AnsweredWorker(s: Sys, w: Pid, out: Outcomes)
    requires Enabled(s, Answered(w)) && IsPull(s.env, out)
    requires WorkerOk(s, out, w) && CallsOk(s, out) && PhasesOk(s, out)
    ensures WorkerOk(Next(s, Answered(w)), out, w)
  {
    var worker := s.workers[w];
    NeedsRead(s, out, w, worker.st.from, worker.st.ds);
    ResumeIs(s.env, out, worker.product, worker.st.h, worker.st.ds, worker.old_ == [], ListAt(s.srv.need, w));
    hide Run, Resume, RunRule, CallsOk, PhasesOk, IsPull;
    if AskFails(s, w) { AnsweredFails(s, w, out); } else { AnsweredRuns(s, w, out); }
  }

  /** A rule that is run leaves its value and needs, or an error, the old value and no needs. */
  lemma RanOutcome(env: Env, out: Outcomes, p: Product)
    requires IsPull(env, out)
    ensures p !in env.preset && !env.rules.crashes(p) && !Skips(env, out, p) && RunRule(env, out, p).Failed? ==>
              out(p) == Outcome(Error, Lookup(env.vals0, p), [])
    ensures p !in env.preset && !env.rules.crashes(p) && !Skips(env, out, p) && RunRule(env, out, p).Gave? ==>
              var Gave(v, needs) := RunRule(env, out, p);
              out(p) == Outcome(if Lookup(env.vals0, p) == Some(v) then No else Yes, Some(v), needs)
  {
    assert out(p) == OutcomeOf(env, out, p);
  }

  lemma {:induction false} AnsweredKeeps(s: Sys, w: Pid, out: Outcomes)
    requires Inv(s, out) && Enabled(s, Answered(w)) && IsPull(s.env, out)
    ensures Inv(Next(s, Answered(w)), out)
  {
    hide WorkerOk, RunningOk, CallOk, PhaseOk, IsPull;
    var t := Next(s, Answered(w));
    assert WorkerOk(s, out, w);
    AnsweredWorker(s, w, out);
    OwnStepKeeps(s, t, w, t.workers[w].st, out);
  }

  lemma EndRuleWorker(s: Sys, w: Pid, out: Outcomes)
    requires Enabled(s, EndRule(w)) && IsPull(s.env, out) && WorkerOk(s, out, w)
    ensures WorkerOk(Next(s, EndRule(w)), out, w)
  {
    assert RunningOk(s, out, w);
    RanOutcome(s.env, out, s.workers[w].product);
  }

  lemma {:induction false} EndRuleKeeps(s: Sys, w: Pid, out: Outcomes)
    requires Inv(s, out) && Enabled(s, EndRule(w)) && IsPull(s.env, out)
    ensures Inv(Next(s, EndRule(w)), out)
  {
    hide WorkerOk, RunningOk, CallOk, PhaseOk, IsPull;
    var t := Next(s, EndRule(w));
    assert WorkerOk(s, out, w);
    EndRuleWorker(s, w, out);
    OwnStepKeeps(s, t, w, t.workers[w].st, out);
  }

  // ---- Steps of the server ----

  /** Answered at once: the product has settled, or its update function cannot be found. */
  /** A call still in the mailbox is in no wait list. */
  lemma WaitersInFlight(s: Sys, out: Outcomes, q: Product, c: CallId)
    requires PhasesOk(s, out) && q in s.srv.phase && s.srv.phase[q].Waiting? && c < |s.calls| && s.calls[c].inFlight
    ensures c !in s.srv.phase[q].waiters
  {
    assert PhaseOk(s, out, q);
  }

  /** What a reply at once does. */
  lemma EvalReplies(s: Sys, c: CallId, out: Outcomes)
    requires Inv(s, out) && Enabled(s, ServeEval(c)) && IsPull(s.env, out)
    requires var p := s.calls[c].product; IsSettled(s, p) || (p !in s.srv.phase && s.env.rules.crashes(p))
    ensures var t := Next(s, ServeEval(c));
            t == s.(calls := s.calls[c := t.calls[c]]) && CallOk(t, out, c)
  {
    var p := s.calls[c].product;
    var a := if p in s.srv.phase then s.srv.phase[p].answer else Error;
    assert CallOk(s, out, c);
    DeliverOne(s.calls[c := s.calls[c].(inFlight := false)], c, a);
    assert a == out(p).answer by {
      if p in s.srv.phase { assert PhaseOk(s, out, p); } else { assert out(p) == OutcomeOf(s.env, out, p); }
    }
    hide WorkersOk, PhasesOk, IsPull;
  }

  lemma {:induction false} ServeEvalReplies(s: Sys, c: CallId, out: Outcomes)
    requires Inv(s, out) && Enabled(s, ServeEval(c)) && IsPull(s.env, out)
    requires var p := s.calls[c].product; IsSettled(s, p) || (p !in s.srv.phase && s.env.rules.crashes(p))
    ensures Inv(Next(s, ServeEval(c)), out)
  {
    var t := Next(s, ServeEval(c));
    EvalReplies(s, c, out);
    hide Next, Enabled, WorkersOk, CallsOk, CallOk, PhaseOk, IsPull;
    WorkersKept(s, t, out);
    CallsKept(s, t, out, c);
    forall q | q in t.srv.phase ensures PhaseOk(t, out, q) {
      if s.srv.phase[q].Waiting? { WaitersInFlight(s, out, q, c); }
      PhaseFrame(s, t, out, q);
    }
  }

  /** Joining the wait list of a product that is being evaluated. */
  /** What joining a wait list does. */
  lemma EvalJoins(s: Sys, c: CallId, out: Outcomes)
    requires Inv(s, out) && Enabled(s, ServeEval(c))
    requires var p := s.calls[c].product; p in s.srv.phase && s.srv.phase[p].Waiting?
    ensures var t := Next(s, ServeEval(c));
            var p := s.calls[c].product;
            && t == s.(srv := s.srv.(phase := t.srv.phase), calls := s.calls[c := t.calls[c]])
            && t.srv.phase == s.srv.phase[p := Waiting([c] + s.srv.phase[p].waiters)] && CallOk(t, out, c)
  {
    assert CallOk(s, out, c);
    DeliverNone(s.calls[c := s.calls[c].(inFlight := false)]);
    hide WorkersOk, PhasesOk;
  }

  lemma {:induction false} ServeEvalJoins(s: Sys, c: CallId, out: Outcomes)
    requires Inv(s, out) && Enabled(s, ServeEval(c))
    requires var p := s.calls[c].product; p in s.srv.phase && s.srv.phase[p].Waiting?
    ensures Inv(Next(s, ServeEval(c)), out)
  {
    var t := Next(s, ServeEval(c));
    var p := s.calls[c].product;
    EvalJoins(s, c, out);
    assert CallOk(s, out, c);
    hide Next, Enabled, WorkersOk, CallsOk, CallOk, PhaseOk;
    WorkersKept(s, t, out);
    CallsKept(s, t, out, c);
    forall q | q in t.srv.phase ensures PhaseOk(t, out, q) {
      if q != p {
        if s.srv.phase[q].Waiting? { WaitersInFlight(s, out, q, c); }
        PhaseFrame(s, t, out, q);
      } else {
        JoinWaiters(s, t, c, out);
      }
    }
  }

  lemma {:induction false} JoinWaiters(s: Sys, t: Sys, c: CallId, out: Outcomes)
    requires Enabled(s, ServeEval(c)) && t == Next(s, ServeEval(c)) && CallOk(s, out, c)
    requires var p := s.calls[c].product; p in s.srv.phase && s.srv.phase[p].Waiting? && PhaseOk(s, out, p)
    ensures PhaseOk(t, out, s.calls[c].product)
  {
    var p := s.calls[c].product;
    DeliverNone(s.calls[c := s.calls[c].(inFlight := false)]);
    var ws, ws' := s.srv.phase[p].waiters, t.srv.phase[p].waiters;
    assert ws' == [c] + ws;
    assert c !in ws;
    forall i, j | 0 <= i < j < |ws'| ensures ws'[i] != ws'[j] {
      assert ws'[j] == ws[j - 1];
    }
    var i :| 0 <= i < |s.workers| && s.workers[i].product == p;
    assert t.workers[i].product == p;
  }

  /** What the first call for a product does: its phase waits and its one worker starts. */
  ghost predicate Spawns(s: Sys, t: Sys, c: CallId) {
    && c < |s.calls|
    && var p := s.calls[c].product;
    && s.calls[c].inFlight && p !in s.srv.phase && !s.env.rules.crashes(p)
    && !t.crashed && t.env == s.env
    && t.srv == s.srv.(phase := s.srv.phase[p := Waiting([c])], need := s.srv.need[|s.workers| := []])
    && t.workers == s.workers + [Worker(p, ListAt(s.srv.deps, p), Start)]
    && t.calls == s.calls[c := s.calls[c].(inFlight := false)]
  }

  lemma SpawnsWorkers(s: Sys, t: Sys, c: CallId, out: Outcomes)
    requires Inv(s, out) && Spawns(s, t, c)
    ensures WorkersOk(t, out)
  {
    var p := s.calls[c].product;
    forall i | 0 <= i < |s.workers| ensures WorkerOk(t, out, i) && t.workers[i].product != p {
      assert WorkerOk(s, out, i);
      WorkerFrame(s, t, out, i);
    }
    assert p !in s.env.preset;
    assert WorkerOk(t, out, |s.workers|);
  }

  lemma SpawnsCalls(s: Sys, t: Sys, c: CallId, out: Outcomes)
    requires Inv(s, out) && Spawns(s, t, c)
    ensures CallsOk(t, out)
  {
    forall d | 0 <= d < |t.calls| ensures CallOk(t, out, d) {
      assert CallOk(s, out, d);
      if d != c { CallFrame(s, t, out, d); }
    }
  }

  lemma SpawnsPhases(s: Sys, t: Sys, c: CallId, out: Outcomes)
    requires Inv(s, out) && Spawns(s, t, c)
    ensures PhasesOk(t, out) && Untouched(t)
  {
    assert CallOk(s, out, c);
    forall q | q in t.srv.phase ensures PhaseOk(t, out, q) {
      if q != s.calls[c].product { PhaseFrame(s, t, out, q); } else { assert t.workers[|s.workers|].product == q; }
    }
  }

  /** The first call for a product starts its one worker. */
  lemma ServeEvalSpawns(s: Sys, c: CallId, out: Outcomes)
    requires Inv(s, out) && Enabled(s, ServeEval(c))
    requires s.calls[c].product !in s.srv.phase && !s.env.rules.crashes(s.calls[c].product)
    ensures Inv(Next(s, ServeEval(c)), out)
  {
    var t := Next(s, ServeEval(c));
    DeliverNone(s.calls[c := s.calls[c].(inFlight := false)]);
    SpawnsWorkers(s, t, c, out);
    SpawnsCalls(s, t, c, out);
    SpawnsPhases(s, t, c, out);
  }

  /** The worker_done phase error is never thrown: a finishing worker's product is waiting. */
  lemma DoneFindsWaiters(s: Sys, w: Pid, out: Outcomes)
    requires Inv(s, out) && Enabled(s, ServeDone(w))
    ensures RedoServer.ServeDone(s.srv, s.workers[w].product, s.workers[w].st.update).Some?
  {
    assert WorkerOk(s, out, w);
  }

  /** What worker_done does: the product settles, its waiters are answered, its worker ends. */
  ghost predicate Settles(s: Sys, t: Sys, w: Pid, out: Outcomes) {
    && Is(s, w)
    && var p := s.workers[w].product;
    && p in s.srv.phase && s.srv.phase[p].Waiting?
    && !t.crashed && t.workers == Set(s, w, Exited) && t.env == s.env && |t.calls| == |s.calls|
    && t.srv.phase == s.srv.phase[p := Settled(out(p).answer)]
    && t.srv.vals == s.srv.vals && t.srv.need == s.srv.need
    && (forall q :: ListAt(t.srv.deps, q) == if q == p then out(p).deps else ListAt(s.srv.deps, q))
    && forall c :: 0 <= c < |s.calls| ==>
         t.calls[c] == if c in s.srv.phase[p].waiters then s.calls[c].(replies := [out(p).answer]) else s.calls[c]
  }

  lemma DoneServer(srv: Server, p: Product, u: PhaseUpdate, o: Outcome)
    requires p in srv.phase && srv.phase[p].Waiting? && u.answer == o.answer
    requires (if u.deps.Some? then u.deps.value else ListAt(srv.deps, p)) == o.deps
    ensures var done := RedoServer.ServeDone(srv, p, u);
            && done.Some? && done.value.1 == ReplyAll(srv.phase[p].waiters, o.answer)
            && var t := done.value.0;
            && t.phase == srv.phase[p := Settled(o.answer)] && t.vals == srv.vals && t.need == srv.need
            && forall q :: ListAt(t.deps, q) == if q == p then o.deps else ListAt(srv.deps, q)
  {
  }

  lemma DoneCalls(calls: seq<Call>, ws: seq<CallId>, a: Answer)
    requires forall i, j :: 0 <= i < j < |ws| ==> ws[i] != ws[j]
    requires forall c :: c in ws && c < |calls| ==> calls[c].replies == []
    ensures forall c :: 0 <= c < |calls| ==>
              Deliver(calls, ReplyAll(ws, a))[c] == if c in ws then calls[c].(replies := [a]) else calls[c]
  {
    forall c | 0 <= c < |calls|
      ensures Deliver(calls, ReplyAll(ws, a))[c] == if c in ws then calls[c].(replies := [a]) else calls[c]
    {
      AnswersToAll(ws, a, ReplyAll(ws, a), c);
      assert calls[c].replies + [] == calls[c].replies;
    }
  }

  lemma DoneSettles(s: Sys, w: Pid, out: Outcomes)
    requires Inv(s, out) && Enabled(s, ServeDone(w))
    ensures Settles(s, Next(s, ServeDone(w)), w, out)
  {
    var t := Next(s, ServeDone(w));
    var p, u := s.workers[w].product, s.workers[w].st.update;
    DoneFindsWaiters(s, w, out);
    assert WorkerOk(s, out, w) && PhaseOk(s, out, p);
    var ws := s.srv.phase[p].waiters;
    DoneServer(s.srv, p, u, out(p));
    DoneCalls(s.calls, ws, out(p).answer);
    hide WorkersOk, CallsOk, PhasesOk, WorkerOk, PhaseOk, Untouched, Deliver;
  }

  lemma SettlesWorkers(s: Sys, t: Sys, w: Pid, out: Outcomes)
    requires Inv(s, out) && Settles(s, t, w, out)
    ensures WorkersOk(t, out)
  {
    assert WorkerOk(s, out, w);
    forall i | 0 <= i < |t.workers| ensures WorkerOk(t, out, i) {
      assert WorkerOk(s, out, i);
      if i != w { WorkerFrame(s, t, out, i); }
    }
  }

  lemma SettlesCalls(s: Sys, t: Sys, w: Pid, out: Outcomes)
    requires Inv(s, out) && Settles(s, t, w, out) && s.workers[w].st.Finishing?
    ensures CallsOk(t, out)
  {
    var p := s.workers[w].product;
    assert PhaseOk(s, out, p);
    forall c | 0 <= c < |t.calls| ensures CallOk(t, out, c) {
      assert CallOk(s, out, c);
      if c !in s.srv.phase[p].waiters { CallFrame(s, t, out, c); }
    }
  }

  lemma SettlesPhases(s: Sys, t: Sys, w: Pid, out: Outcomes)
    requires Inv(s, out) && Settles(s, t, w, out) && s.workers[w].st.Finishing?
    ensures PhasesOk(t, out) && Untouched(t)
  {
    var p := s.workers[w].product;
    assert WorkerOk(s, out, w);
    assert SettledGrows(s, t) && ProductsKept(s, t);
    forall q | q in t.srv.phase ensures PhaseOk(t, out, q) {
      if q != p {
        assert PhaseOk(s, out, q);
        if s.srv.phase[q].Waiting? {
          assert forall c :: c in s.srv.phase[q].waiters ==> c !in s.srv.phase[p].waiters by {
            assert PhaseOk(s, out, p);
          }
        }
        PhaseFrame(s, t, out, q);
      }
    }
  }

  lemma ServeDoneKeeps(s: Sys, w: Pid, out: Outcomes)
    requires Inv(s, out) && Enabled(s, ServeDone(w))
    ensures Inv(Next(s, ServeDone(w)), out)
  {
    var t := Next(s, ServeDone(w));
    DoneSettles(s, w, out);
    SettlesWorkers(s, t, w, out);
    SettlesCalls(s, t, w, out);
    SettlesPhases(s, t, w, out);
  }

  // ---- Starting a run ----

  lemma NextPullKeeps(s: Sys, world: Product -> Value, out: Outcomes)
    requires Enabled(s, NextPull(world))
    ensures Inv(Next(s, NextPull(world)), out)
  {
  }

  lemma NextPushKeeps(s: Sys, world: Product -> Value, puts: map<Product, Value>, changed: seq<Product>,
                      notChanged: seq<Product>, out: Outcomes)
    requires Enabled(s, NextPush(world, puts, changed, notChanged))
    requires IsPull(Next(s, NextPush(world, puts, changed, notChanged)).env, out)
    ensures Inv(Next(s, NextPush(world, puts, changed, notChanged)), out)
  {
    var t := Next(s, NextPush(world, puts, changed, notChanged));
    forall p
      ensures p in t.srv.phase <==> p in t.env.preset
      ensures p in t.srv.phase ==> t.srv.phase[p] == Settled(t.env.preset[p]) && PhaseOk(t, out, p)
    {
      SettleAllAt(changed, Yes, SettleAll(notChanged, No, map[]), p);
      SettleAllAt(notChanged, No, map[], p);
      assert out(p) == OutcomeOf(t.env, out, p);
    }
  }
}
