/** The serial task queue (src/task_queue.erl): a hub process, the task processes
    it starts, and the messages between them, in any interleaving. */
module TaskQueue {
  import opened Collections

  type Pid = int

  type Task = int

  type Result = int

  /** {Pid, {task, Task}} */
  datatype Request = Request(pid: Pid, task: Task)

  datatype Finished = Finished(request: Request, rv: Result)

  datatype Reply = Reply(pid: Pid, rv: Result)

  /** The queue, the task_next and task_done messages in the hub's mailbox, the task
      processes alive, the replies sent, and whether the empty-queue throw happened. */
  datatype Hub = Hub(
    queue: seq<Request>, nexts: nat, dones: seq<Finished>, running: seq<Request>,
    replies: seq<Reply>, thrown: bool)

  const INIT := Hub([], 0, [], [], [], false)

  function Submit(h: Hub, r: Request): Hub {
    h.(queue := h.queue + [r], nexts := if h.queue == [] then h.nexts + 1 else h.nexts)
  }

  /** The body of handle(task_next). */
  function StartFirst(h: Hub): Hub {
    if h.queue == [] then h else h.(running := h.running + [h.queue[0]])
  }

  function TakeNext(h: Hub): Hub
    requires h.nexts > 0
  {
    StartFirst(h.(nexts := h.nexts - 1))
  }

  function Finish(h: Hub, i: nat, rv: Result): Hub
    requires i < |h.running|
  {
    h.(running := h.running[..i] + h.running[i + 1..], dones := h.dones + [Finished(h.running[i], rv)])
  }

  /** handle({task_done, Rv}): the reply goes to whoever is first in the queue. */
  function TakeDone(h: Hub, i: nat): Hub
    requires i < |h.dones|
  {
    var h1 := h.(dones := h.dones[..i] + h.dones[i + 1..]);
    if h.queue == [] then h1.(thrown := true)
    else
      StartFirst(h1.(queue := h.queue[1..], replies := h.replies + [Reply(h.queue[0].pid, h.dones[i].rv)]))
  }

  datatype Action = Arrives(request: Request) | Next | Ends(i: nat, rv: Result) | Done(i: nat)

  predicate Enabled(h: Hub, a: Action) {
    match a
    case Arrives(_) => true
    case Next => h.nexts > 0
    case Ends(i, _) => i < |h.running|
    case Done(i) => i < |h.dones|
  }

  function Step(h: Hub, a: Action): Hub
    requires Enabled(h, a)
  {
    match a
    case Arrives(r) => Submit(h, r)
    case Next => TakeNext(h)
    case Ends(i, rv) => Finish(h, i, rv)
    case Done(i) => TakeDone(h, i)
  }

  /** Any run: the state it reaches, if each action was enabled. */
  function Run(actions: seq<Action>): Option<Hub> {
    if actions == [] then Some(INIT)
    else
      var h, a := Run(actions[..|actions| - 1]), actions[|actions| - 1];
      if h.Some? && Enabled(h.value, a) then Some(Step(h.value, a)) else None
  }

  /** The requests in order of arrival. */
  function Arrived(actions: seq<Action>): seq<Request> {
    if actions == [] then []
    else
      var a := actions[|actions| - 1];
      Arrived(actions[..|actions| - 1]) + if a.Arrives? then [a.request] else []
  }

  /** What the tasks returned, in the order in which they ended. */
  function Returned(actions: seq<Action>): seq<Result> {
    if actions == [] then []
    else
      var a := actions[|actions| - 1];
      Returned(actions[..|actions| - 1]) + if a.Ends? then [a.rv] else []
  }

  /** Exactly one token exists while the queue is not empty, none otherwise: a
      task_next message, a running task or a task_done message; it is about the
      first request of the queue. */
  ghost predicate OneToken(h: Hub) {
    && h.nexts + |h.running| + |h.dones| == (if h.queue == [] then 0 else 1)
    && (h.running != [] ==> h.running[0] == h.queue[0])
    && (h.dones != [] ==> h.dones[0].request == h.queue[0])
    && !h.thrown
  }

  /** Requests leave in order of arrival, each with one reply, which carries what
      its own task returned. */
  ghost predicate InOrder(h: Hub, arrived: seq<Request>, returned: seq<Result>) {
    && |h.replies| + |h.queue| == |arrived| && arrived[|h.replies|..] == h.queue
    && |returned| == |h.replies| + |h.dones|
    && (forall i :: 0 <= i < |h.replies| ==> h.replies[i] == Reply(arrived[i].pid, returned[i]))
    && (h.dones != [] ==> h.dones[0].rv == returned[|h.replies|])
  }

  lemma {:induction false} StepKeeps(h: Hub, arrived: seq<Request>, returned: seq<Result>, a: Action)
    requires OneToken(h) && InOrder(h, arrived, returned) && Enabled(h, a)
    ensures OneToken(Step(h, a))
    ensures InOrder(Step(h, a),
            arrived + if a.Arrives? then [a.request] else [], returned + if a.Ends? then [a.rv] else [])
  {
    assert arrived + [] == arrived && returned + [] == returned;
    match a
    case Arrives(r) =>
      assert (arrived + [r])[|h.replies|..] == h.queue + [r];
    case Next =>
    case Ends(i, rv) =>
    case Done(i) =>
      assert h.queue[0] == arrived[|h.replies|..][0];
      assert arrived[|h.replies| + 1..] == h.queue[1..];
  }

  /** The queue serialises, in every interleaving: at most one task runs, tasks run
      in order of arrival, every requester gets what its own task returned, once,
      and a task_done never finds an empty queue. */
  lemma {:induction false} Serialises(actions: seq<Action>, h: Hub)
    requires Run(actions) == Some(h)
    ensures OneToken(h) && InOrder(h, Arrived(actions), Returned(actions))
  {
    if actions == [] {
    } else {
      var front, a := actions[..|actions| - 1], actions[|actions| - 1];
      var g := Run(front).value;
      Serialises(front, g);
      StepKeeps(g, Arrived(front), Returned(front), a);
    }
  }

  /** While anything waits, exactly one of the three internal steps is possible. */
  lemma {:induction false} NeverStuck(actions: seq<Action>, h: Hub)
    requires Run(actions) == Some(h)
    ensures h.queue != [] <==> h.nexts > 0 || h.running != [] || h.dones != []
    ensures |h.running| <= 1 && |h.dones| <= 1 && h.nexts <= 1
  {
    Serialises(actions, h);
  }

  /** Steps still needed to answer everything in the queue. */
  function Left(h: Hub): int {
    2 * |h.queue| + h.nexts - |h.dones|
  }

  /** Without new requests every step brings the empty queue nearer. */
  lemma {:induction false} StepsAreBounded(actions: seq<Action>, h: Hub, a: Action)
    requires Run(actions) == Some(h) && Enabled(h, a) && !a.Arrives?
    ensures 0 <= Left(Step(h, a)) == Left(h) - 1
    ensures h.queue == [] <==> Left(h) == 0
  {
    Serialises(actions, h);
    StepKeeps(h, Arrived(actions), Returned(actions), a);
  }

  /** Any requests can arrive, and all be answered with whatever their tasks return. */
  lemma {:induction false} AllCanBeServed(requests: seq<Request>, results: seq<Result>) returns (actions: seq<Action>)
    requires |results| == |requests|
    ensures Arrived(actions) == requests && Returned(actions) == results
    ensures var h := Run(actions);
            && h.Some? && h.value.queue == [] && |h.value.replies| == |requests|
            && forall i :: 0 <= i < |requests| ==> h.value.replies[i] == Reply(requests[i].pid, results[i])
  {
    if requests == [] {
      actions := [];
    } else {
      var n := |requests| - 1;
      var before := AllCanBeServed(requests[..n], results[..n]);
      actions := OneServed(before, requests[n], results[n]);
      hide Run, Arrived, Returned;
      Serialises(actions, Run(actions).value);
      assert requests[..n] + [requests[n]] == requests && results[..n] + [results[n]] == results;
    }
  }

  /** With an empty queue, one request can arrive, start, end and be answered. */
  lemma OneServed(before: seq<Action>, r: Request, rv: Result) returns (actions: seq<Action>)
    requires Run(before).Some? && Run(before).value.queue == []
    ensures Arrived(actions) == Arrived(before) + [r] && Returned(actions) == Returned(before) + [rv]
    ensures Run(actions).Some? && Run(actions).value.queue == []
  {
    var a1 := before + [Arrives(r)];
    var a2 := a1 + [Next];
    var a3 := a2 + [Ends(0, rv)];
    actions := a3 + [Done(0)];
    Serialises(before, Run(before).value);
    OneMore(before, Arrives(r));
    OneMore(a1, Next);
    OneMore(a2, Ends(0, rv));
    OneMore(a3, Done(0));
    hide Run, Arrived, Returned, InOrder;
    assert Arrived(actions) == Arrived(before) + [r] + [] + [] + [];
    assert Returned(actions) == Returned(before) + [] + [] + [rv] + [];
  }

  lemma OneMore(actions: seq<Action>, a: Action)
    ensures var more, h := actions + [a], Run(actions);
            && Run(more) == (if h.Some? && Enabled(h.value, a) then Some(Step(h.value, a)) else None)
            && Arrived(more) == Arrived(actions) + (if a.Arrives? then [a.request] else [])
            && Returned(more) == Returned(actions) + (if a.Ends? then [a.rv] else [])
  {
    assert (actions + [a])[..|actions + [a]| - 1] == actions;
  }

  /** The hub's handler with the field it keeps and the messages it sends. */
  class Handler {
    var queue: seq<Request>
    var nexts: nat
    var dones: seq<Finished>
    var running: seq<Request>
    var replies: seq<Reply>
    var thrown: bool

    ghost function State(): Hub
      reads this
    {
      Hub(queue, nexts, dones, running, replies, thrown)
    }

    constructor ()
      ensures State() == INIT
    {
      queue, nexts, dones, running, replies, thrown := [], 0, [], [], [], false;
    }

    method HandleTask(r: Request)
      modifies this
      ensures State() == Submit(old(State()), r)
    {
      if queue == [] { nexts := nexts + 1; }
      queue := queue + [r];
    }

    method HandleNext()
      modifies this`running
      ensures State() == StartFirst(old(State()))
    {
      if queue != [] { running := running + [queue[0]]; }
    }

    method HandleDone(i: nat)
      requires i < |dones|
      modifies this
      ensures State() == TakeDone(old(State()), i)
    {
      var rv := dones[i].rv;
      dones := dones[..i] + dones[i + 1..];
      if queue == [] {
        thrown := true;
      } else {
        replies := replies + [Reply(queue[0].pid, rv)];
        queue := queue[1..];
        HandleNext();
      }
    }
  }
}
