/** The evaluator object: a message-driven server that updates its tables in
    place.  Each handler is proved against the table functions that the
    transition system of RedoSystem steps through. */
module RedoEvaluator {
  import opened Collections
  import opened RedoServer

  class Evaluator {
    var phase: map<Product, Phase>
    var need: map<Pid, seq<Product>>
    var deps: Table
    var rdeps: Table
    var vals: map<Product, Value>
    /** Replies sent so far, in order. */
    var outbox: seq<Reply>

    function State(): Server
      reads this
    {
      Server(phase, need, deps, rdeps, vals)
    }

    /** The inverse table is exact. */
    ghost predicate Valid()
      reads this
    {
      Inverse(State())
    }

    constructor ()
      ensures Valid() && State() == EMPTY && outbox == []
    {
      phase, need, deps, rdeps, vals, outbox := map[], map[], map[], map[], map[], [];
    }

    method Eval(caller: CallId, p: Product, crashes: bool, worker: Pid) returns (spawn: Option<seq<Product>>)
      requires Valid()
      modifies this
      ensures Valid()
      ensures var r := ServeEval(old(State()), caller, p, crashes, worker);
              State() == r.server && outbox == old(outbox) + r.replies && spawn == r.spawn
    {
      spawn := None;
      if p in phase {
        match phase[p]
        case Settled(answer) =>
          outbox := outbox + [Reply(caller, answer)];
        case Waiting(waiters) =>
          phase := phase[p := Waiting([caller] + waiters)];
      } else if crashes {
        outbox := outbox + [Reply(caller, Error)];
      } else {
        spawn := Some(ListAt(deps, p));
        phase := phase[p := Waiting([caller])];
        need := need[worker := []];
      }
    }

    method WorkerNeeds(pid: Pid, ds: seq<Product>)
      requires Valid()
      modifies this`need
      ensures Valid() && State() == ServeNeeds(old(State()), pid, ds)
    {
      if pid in need {
        need := need[pid := AddKeys(need[pid], ds)];
      }
    }

    method CollectWorkerDeps(pid: Pid) returns (needs: seq<Product>)
      requires Valid()
      modifies this`need
      ensures Valid() && (needs, State()) == ServeCollect(old(State()), pid)
    {
      needs := [];
      if pid in need {
        needs := need[pid];
        need := need - {pid};
      }
    }

    /** `ok` is false where the source throws worker_done_phase_error; nothing is changed then. */
    method WorkerDone(p: Product, update: PhaseUpdate) returns (ok: bool)
      requires Valid()
      modifies this
      ensures Valid()
      ensures var r := ServeDone(old(State()), p, update);
              if r.None? then !ok && State() == old(State()) && outbox == old(outbox)
              else ok && State() == r.value.0 && outbox == old(outbox) + r.value.1
    {
      ghost var before := State();
      if p !in phase || phase[p].Settled? {
        return false;
      }
      var waiters := phase[p].waiters;
      rdeps := UpdateReverseDeps(State(), p, update.deps).rdeps;
      var i := 0;
      while i < |waiters|
        invariant 0 <= i <= |waiters|
        invariant outbox == old(outbox) + ReplyAll(waiters, update.answer)[..i]
        invariant State() == before.(rdeps := UpdateReverseDeps(before, p, update.deps).rdeps)
      {
        outbox := outbox + [Reply(waiters[i], update.answer)];
        i := i + 1;
      }
      phase := phase[p := Settled(update.answer)];
      if update.deps.Some? {
        deps := deps[p := update.deps.value];
      }
      assert ReplyAll(waiters, update.answer)[..|waiters|] == ReplyAll(waiters, update.answer);
      DoneKeepsInverse(before, p, update);
      return true;
    }

    /** find_vals and put_val as put_val_changed uses them. */
    method PutValChanged(p: Product, v: Value) returns (answer: Answer)
      requires Valid()
      modifies this`vals
      ensures Valid() && (answer, State()) == PutVal(old(State()), p, v)
    {
      if p in vals && vals[p] == v {
        answer := No;
      } else {
        vals := vals[p := v];
        answer := Yes;
      }
    }

    method BeginPull()
      requires Valid()
      modifies this`phase, this`need
      ensures Valid() && State() == StartPull(old(State()))
    {
      phase, need := map[], map[];
    }

    method BeginPush(changed: seq<Product>, notChanged: seq<Product>)
      requires Valid()
      modifies this`phase
      ensures Valid() && State() == StartPush(old(State()), changed, notChanged)
    {
      phase := SettleAll(changed, Yes, SettleAll(notChanged, No, map[]));
    }
  }
}
