/** The message handlers of the redo evaluator (src/redo.erl, handle/2) as
    functions on its tables, and the facts that hold of the tables alone. */
module RedoServer {
  import opened Collections

  /** Product names are opaque terms; only their equality and order matter. */
  type Product = int
  type Value = int
  type Pid = nat
  type CallId = nat

  /** Lists of products by product: needs, dependencies and their inverse. */
  type Table = map<Product, seq<Product>>

  /** Answer to an eval call: true, false or error. */
  datatype Answer = Yes | No | Error

  datatype Phase = Waiting(waiters: seq<CallId>) | Settled(answer: Answer)

  datatype Reply = Reply(to: CallId, answer: Answer)

  /** The tables kept by the evaluator, one map per tag of its state. */
  datatype Server = Server(
    phase: map<Product, Phase>,
    need: map<Pid, seq<Product>>,
    deps: Table,
    rdeps: Table,
    vals: map<Product, Value>)

  const EMPTY := Server(map[], map[], map[], map[], map[])

  /** New tables, the replies sent, and the old dependencies handed to a worker
      if one is spawned. */
  datatype EvalResult = EvalResult(server: Server, replies: seq<Reply>, spawn: Option<seq<Product>>)

  /** {eval, Product}.  `crashes` says that looking up the update function
      raises; the source then computes a settled phase but returns the old
      state, so the phase stays absent. */
  function ServeEval(s: Server, caller: CallId, p: Product, crashes: bool, worker: Pid): EvalResult {
    var found: Option<Phase> := Lookup(s.phase, p);
    match found
    case Some(Settled(a)) => EvalResult(s, [Reply(caller, a)], None)
    case Some(Waiting(ws)) => EvalResult(s.(phase := s.phase[p := Waiting([caller] + ws)]), [], None)
    case None =>
      if crashes then EvalResult(s, [Reply(caller, Error)], None)
      else EvalResult(
        s.(phase := s.phase[p := Waiting([caller])], need := s.need[worker := []]),
        [],
        Some(ListAt(s.deps, p)))
  }

  /** {worker_needs, Deps}: only a worker that still has a need entry is recorded. */
  function ServeNeeds(s: Server, pid: Pid, ds: seq<Product>): Server {
    if pid in s.need then s.(need := s.need[pid := AddKeys(s.need[pid], ds)]) else s
  }

  /** collect_worker_deps: hand out the recorded needs and forget the worker. */
  function ServeCollect(s: Server, pid: Pid): (seq<Product>, Server) {
    if pid in s.need then (s.need[pid], s.(need := s.need - {pid})) else ([], s)
  }

  function RemoveRdeps(p: Product, ds: seq<Product>, rdeps: Table): Table {
    if ds == [] then rdeps
    else
      var rest := RemoveRdeps(p, ds[1..], rdeps);
      rest[ds[0] := Delete(ListAt(rest, ds[0]), p)]
  }

  function AddRdeps(p: Product, ds: seq<Product>, rdeps: Table): Table {
    if ds == [] then rdeps
    else
      var rest := AddRdeps(p, ds[1..], rdeps);
      rest[ds[0] := [p] + ListAt(rest, ds[0])]
  }

  /** update_reverse_deps: edit the inverse table by the difference of the two lists. */
  function UpdateReverseDeps(s: Server, p: Product, deps: Option<seq<Product>>): Server {
    match deps
    case None => s
    case Some(new_) =>
      var old_ := ListAt(s.deps, p);
      s.(rdeps := AddRdeps(p, Subtract(new_, old_), RemoveRdeps(p, Subtract(old_, new_), s.rdeps)))
  }

  function ReplyAll(ws: seq<CallId>, a: Answer): (rs: seq<Reply>)
    ensures |rs| == |ws|
    ensures forall i :: 0 <= i < |ws| ==> rs[i] == Reply(ws[i], a)
  {
    seq(|ws|, i requires 0 <= i < |ws| => Reply(ws[i], a))
  }

  /** The phase update carried by worker_done: an answer, and new dependencies if they changed. */
  datatype PhaseUpdate = PhaseUpdate(answer: Answer, deps: Option<seq<Product>>)

  /** {worker_done, Product, PhaseUpdate}.  None is the worker_done_phase_error throw. */
  function ServeDone(s: Server, p: Product, update: PhaseUpdate): Option<(Server, seq<Reply>)> {
    var s1 := UpdateReverseDeps(s, p, update.deps);
    var found: Option<Phase> := Lookup(s1.phase, p);
    match found
    case Some(Waiting(ws)) =>
      var s2 := s1.(phase := s1.phase[p := Settled(update.answer)]);
      var s3 := if update.deps.Some? then s2.(deps := s2.deps[p := update.deps.value]) else s2;
      Some((s3, ReplyAll(ws, update.answer)))
    case _ => None
  }

  /** put_val_changed: find the old value, store the new one only if it differs. */
  function PutVal(s: Server, p: Product, v: Value): (Answer, Server) {
    if Lookup(s.vals, p) == Some(v) then (No, s) else (Yes, s.(vals := s.vals[p := v]))
  }

  function StartPull(s: Server): Server {
    s.(phase := map[], need := map[])
  }

  function SettleAll(ps: seq<Product>, a: Answer, phase: map<Product, Phase>): map<Product, Phase> {
    if ps == [] then phase else SettleAll(ps[1..], a, phase)[ps[0] := Settled(a)]
  }

  /** {start_push, Changed, NotChanged}: seed the phases, Changed written last. */
  function StartPush(s: Server, changed: seq<Product>, notChanged: seq<Product>): Server {
    s.(phase := SettleAll(changed, Yes, SettleAll(notChanged, No, map[])))
  }

  lemma SettleAllAt(ps: seq<Product>, a: Answer, phase: map<Product, Phase>, p: Product)
    ensures Lookup(SettleAll(ps, a, phase), p) == if p in ps then Some(Settled(a)) else Lookup(phase, p)
  {
  }

  // ---- The inverse table ----

  /** How often q stands in the list that a table keeps under d. */
  function Count(table: Table, d: Product, q: Product): nat {
    Occurs(ListAt(table, d), q)
  }

  /** rdeps holds p under d exactly as often as deps holds d under p. */
  ghost predicate Inverse(s: Server) {
    forall p, d :: Count(s.rdeps, d, p) == Count(s.deps, p, d)
  }

  lemma {:induction false} RemoveRdepsAt(p: Product, ds: seq<Product>, rdeps: Table, d: Product,
                                         q: Product)
    ensures Count(RemoveRdeps(p, ds, rdeps), d, q) ==
            if q != p then Count(rdeps, d, q)
            else if Occurs(ds, d) <= Count(rdeps, d, q) then Count(rdeps, d, q) - Occurs(ds, d) else 0
  {
    if ds == [] {
    } else {
      RemoveRdepsAt(p, ds[1..], rdeps, d, q);
      var here := ListAt(RemoveRdeps(p, ds[1..], rdeps), ds[0]);
      DeleteOccurs(here, p, q);
      OccursMember(here, p);
    }
  }

  lemma {:induction false} AddRdepsAt(p: Product, ds: seq<Product>, rdeps: Table, d: Product,
                                      q: Product)
    ensures Count(AddRdeps(p, ds, rdeps), d, q) == Count(rdeps, d, q) + if q == p then Occurs(ds, d) else 0
  {
    if ds == [] {
    } else {
      AddRdepsAt(p, ds[1..], rdeps, d, q);
      var here := ListAt(AddRdeps(p, ds[1..], rdeps), ds[0]);
      assert Occurs([p] + here, q) == Occurs(here, q) + if q == p then 1 else 0;
    }
  }

  /** worker_done keeps the two tables inverse, whatever lists it carries. */
  lemma DoneKeepsInverse(s: Server, p: Product, update: PhaseUpdate)
    requires Inverse(s) && ServeDone(s, p, update).Some?
    ensures Inverse(ServeDone(s, p, update).value.0)
  {
    var t := ServeDone(s, p, update).value.0;
    if update.deps.Some? {
      var new_, old_ := update.deps.value, ListAt(s.deps, p);
      var toRemove, toAdd := Subtract(old_, new_), Subtract(new_, old_);
      forall q, d ensures Count(t.rdeps, d, q) == Count(t.deps, q, d) {
        RemoveRdepsAt(p, toRemove, s.rdeps, d, q);
        AddRdepsAt(p, toAdd, RemoveRdeps(p, toRemove, s.rdeps), d, q);
        assert Count(s.rdeps, d, q) == Count(s.deps, q, d);
        SubtractOccurs(old_, new_, d);
        SubtractOccurs(new_, old_, d);
      }
    }
  }

  /** Read as sets: p stands under d in the inverse table iff d is a recorded dependency of p, and once. */
  lemma InverseIsExact(s: Server, p: Product, d: Product)
    requires Inverse(s) && Sorted(ListAt(s.deps, p))
    ensures p in ListAt(s.rdeps, d) <==> d in ListAt(s.deps, p)
    ensures Count(s.rdeps, d, p) <= 1
  {
    SortedOnce(ListAt(s.deps, p), d);
    assert Count(s.rdeps, d, p) == Count(s.deps, p, d);
    OccursMember(ListAt(s.rdeps, d), p);
    OccursMember(ListAt(s.deps, p), d);
  }
}
