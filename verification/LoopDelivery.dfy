/** A connection and the loop it lives on, together: the tasks that other threads queue for the
    connection travel through the loop's task queue, among tasks of anything else. */
module LoopDelivery {
  import opened Bytes
  import T = TaskQueue
  import D = Delivery

  /** What the connection's own tasks are, by the identity they have in the loop's queue. */
  type Meaning = map<T.Task, D.Task>

  datatype Both = Both(loop: T.Loop, sys: D.Sys)

  /** The connection's tasks among these, in order. */
  function Own(tasks: seq<T.Task>, what: Meaning): (r: seq<D.Task>)
  {
    if tasks == [] then []
    else
      var last := tasks[|tasks| - 1];
      var r := Own(tasks[..|tasks| - 1], what);
      if last in what then r + [what[last]] else r
  }

  function InLoop(l: T.Loop): (tasks: seq<T.Task>)
  {
    T.Todo(l) + l.pending
  }

  datatype Action =
    | Post(who: D.Thread, id: T.Task, a: D.Action) // a step of the connection that queues a task
    | Start(w: D.ConnSpec.Write)                   // the loop starts a task of the connection
    | Local(a: D.Action)                           // any other step of the connection
    | Elsewhere(b: T.Action)                       // a step of the loop about anything else

  datatype Posted = Nothing | Task(task: D.Task)

  /** The task a step of the connection queues. */
  function Queues(s: D.Sys, a: D.Action): (p: Posted)
  {
    match a
    case OffSend(sender, data) => Task(D.Deliver(D.Message(sender, data)))
    case PushTask(_, task) => Task(task)
    case LoopForceClose => if D.ConnSpec.Open(s.conn) then Task(D.DoForceClose) else Nothing
    case _ => Nothing
  }

  predicate Enabled(b: Both, a: Action, what: Meaning)
  {
    match a
    case Post(who, id, d) =>
      && T.Enabled(b.loop, T.Push(who, id)) && D.Enabled(b.sys, d) && who == D.Actor(d)
      && id in what && Queues(b.sys, d) == Task(what[id])
    case Start(w) =>
      T.Enabled(b.loop, T.RunNext) && b.loop.phase.todo[0] in what && D.Enabled(b.sys, D.RunTask(w))
    case Local(d) => D.Enabled(b.sys, d) && Queues(b.sys, d).Nothing? && !d.RunTask?
    case Elsewhere(t) =>
      && T.Enabled(b.loop, t)
      && (t.Push? ==> t.task !in what)
      && (t.RunNext? ==> b.loop.phase.todo[0] !in what)
  }

  function Step(b: Both, a: Action, what: Meaning): (r: Both)
    requires Enabled(b, a, what)
  {
    match a
    case Post(who, id, d) => Both(T.Step(b.loop, T.Push(who, id)), D.Step(b.sys, d))
    case Start(w) => Both(T.Step(b.loop, T.RunNext), D.Step(b.sys, D.RunTask(w)))
    case Local(d) => b.(sys := D.Step(b.sys, d))
    case Elsewhere(t) => b.(loop := T.Step(b.loop, t))
  }

  ghost predicate Runs(b: Both, actions: seq<Action>, what: Meaning, r: Both)
    decreases |actions|
  {
    if actions == [] then r == b
    else Enabled(b, actions[0], what) && Runs(Step(b, actions[0], what), actions[1..], what, r)
  }

  /** The part of the run that each side sees. */
  function LoopPart(actions: seq<Action>): (r: seq<T.Action>)
  {
    if actions == [] then []
    else
      var rest := LoopPart(actions[1..]);
      match actions[0]
      case Post(who, id, _) => [T.Push(who, id)] + rest
      case Start(_) => [T.RunNext] + rest
      case Local(_) => rest
      case Elsewhere(t) => [t] + rest
  }

  function ConnPart(actions: seq<Action>): (r: seq<D.Action>)
  {
    if actions == [] then []
    else
      var rest := ConnPart(actions[1..]);
      match actions[0]
      case Post(_, _, d) => [d] + rest
      case Start(w) => [D.RunTask(w)] + rest
      case Local(d) => [d] + rest
      case Elsewhere(_) => rest
  }

  // ---- the two queues agree ----------------------------------------------------------------------

  lemma OwnSnoc(tasks: seq<T.Task>, t: T.Task, what: Meaning)
    ensures Own(tasks + [t], what) == if t in what then Own(tasks, what) + [what[t]] else Own(tasks, what)
  {
    assert (tasks + [t])[..|tasks|] == tasks;
  }

  lemma {:induction false} OwnHead(tasks: seq<T.Task>, what: Meaning)
    requires tasks != []
    ensures Own(tasks, what)
         == if tasks[0] in what then [what[tasks[0]]] + Own(tasks[1..], what) else Own(tasks[1..], what)
  {
    var last := |tasks| - 1;
    if last == 0 {
      assert tasks[..0] == [] && tasks[1..] == [];
    } else {
      OwnHead(tasks[..last], what);
      assert tasks[..last][1..] == tasks[1..][..last - 1];
    }
  }

  /** The connection's queue is its share of the loop's swapped batch and queue. */
  ghost predicate Agree(b: Both, what: Meaning)
  {
    b.sys.queue == Own(InLoop(b.loop), what)
  }

  lemma LoopQueueAfter(l: T.Loop, t: T.Action)
    requires T.Enabled(l, t)
    ensures var r := T.Step(l, t);
      InLoop(r) == match t
        case Push(_, task) => InLoop(l) + [task]
        case RunNext => InLoop(l)[1..]
        case _ => InLoop(l)
    ensures t.RunNext? ==> InLoop(l) != [] && InLoop(l)[0] == l.phase.todo[0]
  {
    if t.Push? {
      Reassociate(T.Todo(l), l.pending, [t.task]);
    }
  }

  lemma ConnQueueAfter(s: D.Sys, d: D.Action)
    requires D.Enabled(s, d)
    ensures D.Step(s, d).queue
         == if d.RunTask? then s.queue[1..] else if Queues(s, d).Task? then s.queue + [Queues(s, d).task] else s.queue
  {
  }

  lemma StepKeepsAgree(b: Both, a: Action, what: Meaning)
    requires Agree(b, what) && Enabled(b, a, what)
    ensures Agree(Step(b, a, what), what)
  {
    hide Own, InLoop, T.Step, D.Step, D.Enabled;
    match a {
      case Post(who, id, d) =>
        LoopQueueAfter(b.loop, T.Push(who, id));
        ConnQueueAfter(b.sys, d);
        OwnSnoc(InLoop(b.loop), id, what);
      case Start(w) =>
        LoopQueueAfter(b.loop, T.RunNext);
        ConnQueueAfter(b.sys, D.RunTask(w));
        OwnHead(InLoop(b.loop), what);
      case Local(d) =>
        ConnQueueAfter(b.sys, d);
      case Elsewhere(t) =>
        LoopQueueAfter(b.loop, t);
        if t.Push? {
          OwnSnoc(InLoop(b.loop), t.task, what);
        } else if t.RunNext? {
          OwnHead(InLoop(b.loop), what);
        }
    }
  }

  /** A run of both is a run of the loop and a run of the connection, and the connection's queue stays
      its share of the loop's. */
  lemma {:induction false} RunOfBoth(b: Both, actions: seq<Action>, what: Meaning, r: Both)
    requires Agree(b, what) && Runs(b, actions, what, r)
    ensures Agree(r, what)
    ensures T.Runs(b.loop, LoopPart(actions), r.loop)
    ensures D.Runs(b.sys, ConnPart(actions), r.sys)
    decreases |actions|
  {
    hide Agree, T.Step, D.Step, T.Enabled, D.Enabled, Queues;
    if actions != [] {
      var m := Step(b, actions[0], what);
      StepKeepsAgree(b, actions[0], what);
      RunOfBoth(m, actions[1..], what, r);
      var loopRest, connRest := LoopPart(actions[1..]), ConnPart(actions[1..]);
      match actions[0] {
        case Post(who, id, d) =>
          LoopCons(b.loop, T.Push(who, id), loopRest, r.loop);
          D.RunsCons(b.sys, d, connRest, r.sys);
        case Start(w) =>
          LoopCons(b.loop, T.RunNext, loopRest, r.loop);
          D.RunsCons(b.sys, D.RunTask(w), connRest, r.sys);
        case Local(d) =>
          D.RunsCons(b.sys, d, connRest, r.sys);
        case Elsewhere(t) =>
          LoopCons(b.loop, t, loopRest, r.loop);
      }
    }
  }

  lemma LoopCons(l: T.Loop, a: T.Action, rest: seq<T.Action>, r: T.Loop)
    requires T.Enabled(l, a) && T.Runs(T.Step(l, a), rest, r)
    ensures T.Runs(l, [a] + rest, r)
  {
    assert ([a] + rest)[1..] == rest;
  }

  /** Nothing sent to a connection is forgotten: whenever its loop is about to poll while a message or
      a close of another thread waits, the poll cannot block for good; and all guarantees about
      messages hold of the connection in such runs. */
  lemma NoTaskForgotten(mark: nat, highWater: bool, writeComplete: bool, actions: seq<Action>, what: Meaning,
                        r: Both, t: D.Thread)
    requires Runs(Both(T.INIT, D.Init(mark, highWater, writeComplete)), actions, what, r)
    ensures r.sys.queue == Own(InLoop(r.loop), what)
    ensures r.loop.phase.Polling? && r.sys.queue != [] ==> r.loop.eventfd > 0 || exists who :: who in r.loop.owing
    ensures r.sys.conn.wire + r.sys.conn.output == Concat(D.KeptData(r.sys.processed))
    ensures D.By(t, D.Messages(r.sys.processed)) + D.By(t, D.Waiting(r.sys.queue)) == D.By(t, r.sys.submitted)
  {
    hide Runs, T.Runs, D.Runs, D.By, D.KeptData;
    var start := Both(T.INIT, D.Init(mark, highWater, writeComplete));
    assert InLoop(T.INIT) == [];
    RunOfBoth(start, actions, what, r);
    T.NoLostWakeup(LoopPart(actions), r.loop);
    D.WholeMessages(mark, highWater, writeComplete, ConnPart(actions), r.sys, t);
    if r.loop.phase.Polling? && r.loop.pending == [] {
      assert InLoop(r.loop) == [];
    }
  }
}
