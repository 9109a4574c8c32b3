/** The concurrent evaluator: one server, one worker process per product, and any
    interleaving of their messages.  Every enabled action is one atomic step: a
    handler run, or a process going from one blocking call to the next. */
module RedoSystem {
  import opened Collections
  import opened RedoServer
  import opened RedoPull

  datatype Owner = Client | OfWorker(w: Pid)

  /** An eval call: in the server's mailbox while `inFlight`, then waiting, then replied to. */
  datatype Call = Call(owner: Owner, product: Product, inFlight: bool, replies: seq<Answer>)

  /** Where a worker is blocked.  `from` is the first of the calls it waits for. */
  datatype WorkerState =
    | Start
    | Checking(from: nat)
    | Ruling(h: History)
    | Needing(h: History, ds: seq<Product>, from: nat)
    | Finishing(update: PhaseUpdate)
    | Exited

  datatype Worker = Worker(product: Product, old_: seq<Product>, st: WorkerState)

  datatype Sys = Sys(env: Env, srv: Server, workers: seq<Worker>, calls: seq<Call>, crashed: bool)

  datatype Action =
    | ClientCall(p: Product)
    | ServeEval(c: CallId)
    | Begin(w: Pid)
    | Checked(w: Pid)
    | Ask(w: Pid)
    | Answered(w: Pid)
    | EndRule(w: Pid)
    | ServeDone(w: Pid)
    | NextPull(world: Product -> Value)
    | NextPush(world: Product -> Value, puts: map<Product, Value>, changed: seq<Product>, notChanged: seq<Product>)

  // ---- Steps ----

  function Init(rules: Rules, world: Product -> Value): Sys {
    Sys(Env(rules, world, map[], map[], map[]), EMPTY, [], [], false)
  }

  /** pmap: one eval call per distinct key. */
  function Send(calls: seq<Call>, owner: Owner, ks: seq<Product>): seq<Call> {
    calls + seq(|ks|, j requires 0 <= j < |ks| => Call(owner, ks[j], true, []))
  }

  function AnswersTo(rs: seq<Reply>, c: CallId): seq<Answer> {
    if rs == [] then [] else (if rs[0].to == c then [rs[0].answer] else []) + AnswersTo(rs[1..], c)
  }

  function Deliver(calls: seq<Call>, rs: seq<Reply>): seq<Call> {
    seq(|calls|, c requires 0 <= c < |calls| => calls[c].(replies := calls[c].replies + AnswersTo(rs, c)))
  }

  /** All n calls from `from` on have a reply. */
  predicate AllAnswered(s: Sys, from: nat, n: nat) {
    from + n <= |s.calls| && forall c :: from <= c < from + n ==> s.calls[c].replies != []
  }

  function Collected(s: Sys, from: nat, n: nat): seq<Answer>
    requires AllAnswered(s, from, n)
  {
    seq(n, j requires 0 <= j < n => s.calls[from + j].replies[0])
  }

  function FindVals(vals: map<Product, Value>, ds: seq<Product>): seq<Option<Value>> {
    seq(|ds|, i requires 0 <= i < |ds| => Lookup(vals, ds[i]))
  }

  /** The update sent with worker_done: dependencies only if they differ from the old ones. */
  function Update(a: Answer, new_: seq<Product>, old_: seq<Product>): PhaseUpdate {
    PhaseUpdate(a, if new_ == old_ then None else Some(new_))
  }

  predicate Is(s: Sys, w: Pid) {
    w < |s.workers|
  }

  /** The outer server starts a run only after the previous one has answered its caller. */
  predicate ClientIdle(s: Sys) {
    forall c :: 0 <= c < |s.calls| && s.calls[c].owner.Client? ==> s.calls[c].replies != []
  }

  predicate Enabled(s: Sys, a: Action) {
    !s.crashed &&
    match a
    case ClientCall(_) => true
    case ServeEval(c) => c < |s.calls| && s.calls[c].inFlight
    case Begin(w) => Is(s, w) && s.workers[w].st.Start?
    case Checked(w) =>
      Is(s, w) && s.workers[w].st.Checking? && AllAnswered(s, s.workers[w].st.from, |Keys(s.workers[w].old_)|)
    case Ask(w) =>
      Is(s, w) && s.workers[w].st.Ruling? && BodyOf(s, w).Need?
    case Answered(w) =>
      Is(s, w) && s.workers[w].st.Needing? && AllAnswered(s, s.workers[w].st.from, |Keys(s.workers[w].st.ds)|)
    case EndRule(w) =>
      Is(s, w) && s.workers[w].st.Ruling? && !BodyOf(s, w).Need?
    case ServeDone(w) => Is(s, w) && s.workers[w].st.Finishing?
    case NextPull(_) => ClientIdle(s)
    case NextPush(_, _, _, _) => ClientIdle(s)
  }

  function BodyOf(s: Sys, w: Pid): Act
    requires Is(s, w) && s.workers[w].st.Ruling?
  {
    Body(s.env.rules, s.env.world, s.workers[w].product, s.workers[w].st.h)
  }

  function Set(s: Sys, w: Pid, st: WorkerState): seq<Worker>
    requires Is(s, w)
  {
    s.workers[w := s.workers[w].(st := st)]
  }

  function Preset(changed: seq<Product>, notChanged: seq<Product>): map<Product, Answer> {
    map p | p in changed + notChanged :: if p in changed then Yes else No
  }

  function Next(s: Sys, a: Action): Sys
    requires Enabled(s, a)
  {
    match a
    case ClientCall(p) => s.(calls := Send(s.calls, Client, [p]))
    case ServeEval(c) =>
      var p := s.calls[c].product;
      var r := RedoServer.ServeEval(s.srv, c, p, s.env.rules.crashes(p), |s.workers|);
      s.(srv := r.server,
         calls := Deliver(s.calls[c := s.calls[c].(inFlight := false)], r.replies),
         workers := if r.spawn.Some? then s.workers + [Worker(p, r.spawn.value, Start)] else s.workers)
    case Begin(w) =>
      var old_ := s.workers[w].old_;
      if old_ == [] then s.(workers := Set(s, w, Ruling([])))
      else s.(srv := ServeNeeds(s.srv, w, old_),
              calls := Send(s.calls, OfWorker(w), Keys(old_)),
              workers := Set(s, w, Checking(|s.calls|)))
    case Checked(w) =>
      var affected := AnyChanged(Collected(s, s.workers[w].st.from, |Keys(s.workers[w].old_)|));
      s.(srv := ServeCollect(s.srv, w).1,
         workers := Set(s, w, if affected == No then Finishing(PhaseUpdate(No, None)) else Ruling([])))
    case Ask(w) =>
      var ds := BodyOf(s, w).ds;
      s.(srv := ServeNeeds(s.srv, w, ds),
         calls := Send(s.calls, OfWorker(w), Keys(ds)),
         workers := Set(s, w, Needing(s.workers[w].st.h, ds, |s.calls|)))
    case Answered(w) =>
      var st := s.workers[w].st;
      var vs := GetVals(FindVals(s.srv.vals, st.ds));
      if AnyChanged(Collected(s, st.from, |Keys(st.ds)|)) == Error || vs.None? then
        s.(workers := Set(s, w, Finishing(Update(Error, [], s.workers[w].old_))))
      else
        s.(workers := Set(s, w, Ruling(st.h + [vs.value])))
    case EndRule(w) =>
      var old_ := s.workers[w].old_;
      match BodyOf(s, w) {
        case Give(v) =>
          var (answer, s1) := PutVal(s.srv, s.workers[w].product, v);
          var (needs, s2) := ServeCollect(s1, w);
          s.(srv := s2, workers := Set(s, w, Finishing(Update(answer, needs, old_))))
        case _ =>
          s.(workers := Set(s, w, Finishing(Update(Error, [], old_))))
      }
    case ServeDone(w) =>
      var done := RedoServer.ServeDone(s.srv, s.workers[w].product, s.workers[w].st.update);
      if done.None? then s.(crashed := true)
      else
        s.(srv := done.value.0, calls := Deliver(s.calls, done.value.1), workers := Set(s, w, Exited))
    case NextPull(world) =>
      Sys(Env(s.env.rules, world, map[], s.srv.deps, s.srv.vals), StartPull(s.srv), [], [], false)
    case NextPush(world, puts, changed, notChanged) =>
      var srv := s.srv.(vals := s.srv.vals + puts);
      Sys(Env(s.env.rules, world, Preset(changed, notChanged), srv.deps, srv.vals),
          StartPush(srv, changed, notChanged), [], [], false)
  }

  // ---- The invariant: the tables and processes agree with the functional pull ----

  predicate IsSettled(s: Sys, p: Product) {
    p in s.srv.phase && s.srv.phase[p].Settled?
  }

  predicate Live(w: Worker) {
    !w.st.Exited?
  }

  /** The calls a blocked worker waits for. */
  predicate Awaits(w: Worker, c: CallId) {
    match w.st
    case Checking(from) => from <= c < from + |Keys(w.old_)|
    case Needing(_, ds, from) => from <= c < from + |Keys(ds)|
    case _ => false
  }

  ghost predicate Sent(s: Sys, i: Pid, from: nat, ks: seq<Product>) {
    from + |ks| <= |s.calls| &&
    forall c :: from <= c < from + |ks| ==> s.calls[c].owner == OfWorker(i) && s.calls[c].product == ks[c - from]
  }

  /** A worker inside its rule: what remains to run gives the same result as the whole rule. */
  ghost predicate RunningOk(s: Sys, out: Outcomes, i: Pid)
    requires Is(s, i)
  {
    var w := s.workers[i];
    var p, track, acc := w.product, w.old_ == [], ListAt(s.srv.need, i);
    && !Skips(s.env, out, p)
    && (i in s.srv.need <==> track)
    && match w.st
       case Ruling(h) =>
         && Run(s.env, out, p, h, track, acc) == RunRule(s.env, out, p)
         && forall d :: d in acc ==> IsSettled(s, d)
       case Needing(h, ds, from) =>
         && Body(s.env.rules, s.env.world, p, h) == Need(ds)
         && Resume(s.env, out, p, h, ds, track, acc) == RunRule(s.env, out, p)
         && Sent(s, i, from, Keys(ds))
         && forall d :: d in acc ==> d in ds || IsSettled(s, d)
       case _ => true
  }

  ghost predicate WorkerOk(s: Sys, out: Outcomes, i: Pid)
    requires Is(s, i)
  {
    var w := s.workers[i];
    var p := w.product;
    && !s.env.rules.crashes(p) && p !in s.env.preset && w.old_ == Old(s.env, p)
    && p in s.srv.phase && (Live(w) <==> s.srv.phase[p].Waiting?)
    && (Live(w) ==> ListAt(s.srv.deps, p) == w.old_)
    && (Live(w) && !w.st.Finishing? ==> Lookup(s.srv.vals, p) == Lookup(s.env.vals0, p))
    && match w.st
       case Start => i in s.srv.need && s.srv.need[i] == []
       case Checking(from) => w.old_ != [] && Sent(s, i, from, Keys(w.old_))
       case Ruling(_) => RunningOk(s, out, i)
       case Needing(_, _, _) => RunningOk(s, out, i)
       case Finishing(u) =>
         && u.answer == out(p).answer && Lookup(s.srv.vals, p) == out(p).val
         && (if u.deps.Some? then u.deps.value else w.old_) == out(p).deps
         && forall d :: d in out(p).deps ==> IsSettled(s, d)
       case Exited => true
  }

  ghost predicate CallOk(s: Sys, out: Outcomes, c: CallId)
    requires c < |s.calls|
  {
    var k := s.calls[c];
    && |k.replies| <= 1 && (k.inFlight ==> k.replies == [])
    && (!k.inFlight && k.replies == [] ==>
        k.product in s.srv.phase && s.srv.phase[k.product].Waiting? && c in s.srv.phase[k.product].waiters)
    && (k.replies != [] ==>
        k.replies[0] == out(k.product).answer && (IsSettled(s, k.product) || s.env.rules.crashes(k.product)))
    && (k.owner.OfWorker? ==>
        && Is(s, k.owner.w)
        && s.env.rules.rank(k.product) < s.env.rules.rank(s.workers[k.owner.w].product)
        && (k.replies == [] ==> Awaits(s.workers[k.owner.w], c)))
  }

  ghost predicate PhaseOk(s: Sys, out: Outcomes, p: Product)
    requires p in s.srv.phase
  {
    match s.srv.phase[p]
    case Waiting(ws) =>
      && ws != [] && (forall i, j :: 0 <= i < j < |ws| ==> ws[i] != ws[j])
      && (forall c :: c in ws ==>
            c < |s.calls| && s.calls[c].product == p && !s.calls[c].inFlight && s.calls[c].replies == [])
      && exists i :: 0 <= i < |s.workers| && s.workers[i].product == p
    case Settled(a) =>
      && a == out(p).answer && Lookup(s.srv.vals, p) == out(p).val && ListAt(s.srv.deps, p) == out(p).deps
      && (p !in s.env.preset ==> !s.env.rules.crashes(p) && forall d :: d in out(p).deps ==> IsSettled(s, d))
  }

  ghost predicate WorkersOk(s: Sys, out: Outcomes) {
    && (forall i :: 0 <= i < |s.workers| ==> WorkerOk(s, out, i))
    && (forall i, j :: 0 <= i < j < |s.workers| ==> s.workers[i].product != s.workers[j].product)
  }

  ghost predicate CallsOk(s: Sys, out: Outcomes) {
    forall c :: 0 <= c < |s.calls| ==> CallOk(s, out, c)
  }

  ghost predicate PhasesOk(s: Sys, out: Outcomes) {
    && (forall p :: p in s.srv.phase ==> PhaseOk(s, out, p))
    && (forall p :: p in s.env.preset ==> IsSettled(s, p))
  }

  ghost predicate Untouched(s: Sys) {
    forall p :: p !in s.srv.phase ==>
      ListAt(s.srv.deps, p) == Old(s.env, p) && Lookup(s.srv.vals, p) == Lookup(s.env.vals0, p)
  }

  ghost predicate Inv(s: Sys, out: Outcomes) {
    && !s.crashed
    && WorkersOk(s, out) && CallsOk(s, out) && PhasesOk(s, out) && Untouched(s)
  }

  predicate StartsRun(a: Action) {
    a.NextPull? || a.NextPush?
  }
}
