/** The loop's task queue and its wakeup protocol (src/net/EventLoop.cpp): many producers push a
    task under the lock and then write the eventfd; the loop polls, drains, swaps and runs. */
module TaskQueue {
  import opened Bytes

  type Thread = nat
  const LOOP: Thread := 0

  /** Where the loop thread is. `Polling` is the point before `epoll_wait`, which blocks only while
      the eventfd is zero; `Entering` lies between raising `callingPendingFunctors_` and the swap. */
  datatype Phase = Polling | Dispatching | Entering | Running(todo: seq<Task>)

  /** A task is whatever its submitter queued; what running it does is up to later actions. */
  type Task = nat

  /** `owing` are the threads between their push and their wakeup write. `submitted` and `executed`
      record every task in the order of its push and of its start. */
  datatype Loop = Loop(
    pending: seq<Task>, eventfd: nat, calling: bool, phase: Phase, owing: set<Thread>,
    submitted: seq<Task>, executed: seq<Task>)

  datatype Action =
    | Push(who: Thread, task: Task)
    | Wake(who: Thread)
    | Nudge                 // a wakeup for another reason: quit()
    | PollReturns
    | DrainEventfd
    | EnterPending
    | Swap
    | RunNext
    | Finish

  /** The loop thread pushes only from inside a callback or a task, and does one thing at a time. */
  predicate Enabled(l: Loop, a: Action)
  {
    match a
    case Push(who, _) => who !in l.owing && (who == LOOP ==> l.phase.Dispatching? || l.phase.Running?)
    case Wake(who) => who in l.owing
    case Nudge => true
    case PollReturns => l.phase.Polling?
    case DrainEventfd => l.phase.Dispatching? && LOOP !in l.owing
    case EnterPending => l.phase.Dispatching? && LOOP !in l.owing
    case Swap => l.phase.Entering?
    case RunNext => l.phase.Running? && l.phase.todo != [] && LOOP !in l.owing
    case Finish => l.phase.Running? && l.phase.todo == [] && LOOP !in l.owing
  }

  /** `queueInLoop` wakes the loop unless the loop thread itself queues outside the task run. */
  function Step(l: Loop, a: Action): (r: Loop)
    requires Enabled(l, a)
  {
    match a
    case Push(who, task) =>
      l.(pending := l.pending + [task], submitted := l.submitted + [task],
         owing := l.owing + (if who != LOOP || l.calling then {who} else {}))
    case Wake(who) => l.(owing := l.owing - {who}, eventfd := l.eventfd + 1)
    case Nudge => l.(eventfd := l.eventfd + 1)
    case PollReturns => l.(phase := Dispatching)
    case DrainEventfd => l.(eventfd := 0)
    case EnterPending => l.(phase := Entering, calling := true)
    case Swap => l.(phase := Running(l.pending), pending := [])
    case RunNext =>
      l.(executed := l.executed + [l.phase.todo[0]], phase := Running(l.phase.todo[1..]))
    case Finish => l.(phase := Polling, calling := false)
  }

  ghost predicate Runs(l: Loop, actions: seq<Action>, r: Loop)
    decreases |actions|
  {
    if actions == [] then r == l
    else Enabled(l, actions[0]) && Runs(Step(l, actions[0]), actions[1..], r)
  }

  const INIT: Loop := Loop([], 0, false, Polling, {}, [], [])

  function Todo(l: Loop): (todo: seq<Task>)
  {
    if l.phase.Running? then l.phase.todo else []
  }

  /** The tasks not yet started, in push order, are the swapped batch and then the queue; and after
      the swap a queued task has its wakeup on the way or already in the eventfd. */
  ghost predicate Inv(l: Loop)
  {
    && l.executed + Todo(l) + l.pending == l.submitted
    && (l.calling <==> l.phase.Entering? || l.phase.Running?)
    && (LOOP in l.owing ==> l.phase.Running?)
    && (l.phase.Running? || l.phase.Polling? ==> l.pending != [] ==> l.eventfd > 0 || l.owing != {})
  }

  lemma StepKeepsInv(l: Loop, a: Action)
    requires Inv(l) && Enabled(l, a)
    ensures Inv(Step(l, a))
  {
    var r := Step(l, a);
    match a {
      case Push(who, task) =>
        Reassociate(l.executed + Todo(l), l.pending, [task]);
        if l.phase.Running? || l.phase.Polling? {
          assert who in r.owing;
        }
      case Swap =>
        assert l.executed + [] + l.pending == l.executed + l.pending + [];
      case RunNext =>
        assert l.phase.todo == [l.phase.todo[0]] + l.phase.todo[1..];
        Reassociate(l.executed, [l.phase.todo[0]], l.phase.todo[1..]);
      case _ =>
    }
  }

  lemma {:induction false} RunKeepsInv(l: Loop, actions: seq<Action>, r: Loop)
    requires Inv(l) && Runs(l, actions, r)
    ensures Inv(r)
    decreases |actions|
  {
    if actions != [] {
      StepKeepsInv(l, actions[0]);
      RunKeepsInv(Step(l, actions[0]), actions[1..], r);
    }
  }

  /** No lost wakeup: in every reachable state where the loop is about to poll with a task queued,
      the poll cannot block for good, because the eventfd is positive or some producer stands
      between its push and its wakeup. */
  lemma NoLostWakeup(actions: seq<Action>, r: Loop)
    requires Runs(INIT, actions, r)
    ensures r.phase.Polling? && r.pending != [] ==> r.eventfd > 0 || exists who :: who in r.owing
  {
    RunKeepsInv(INIT, actions, r);
    if r.owing != {} {
      var who :| who in r.owing;
    }
  }

  /** Every pushed task is started at most once, in push order over all threads. */
  lemma FifoAtMostOnce(actions: seq<Action>, r: Loop)
    requires Runs(INIT, actions, r)
    ensures r.executed <= r.submitted
    ensures r.executed + Todo(r) + r.pending == r.submitted
  {
    RunKeepsInv(INIT, actions, r);
    Reassociate(r.executed, Todo(r), r.pending);
  }

  /** The push obliges its thread to a wakeup: another thread queues, or the loop does while its tasks run. */
  predicate Obliges(l: Loop, a: Action)
  {
    a.Push? && (a.who != LOOP || l.phase.Entering? || l.phase.Running?)
  }

  /** The wakeups that the pushes of a run call for, and those that were written. */
  ghost function AllObliged(l: Loop, actions: seq<Action>): (n: nat)
    decreases |actions|
  {
    if actions == [] || !Enabled(l, actions[0]) then 0
    else (if Obliges(l, actions[0]) then 1 else 0) + AllObliged(Step(l, actions[0]), actions[1..])
  }

  function AllWoken(actions: seq<Action>): (n: nat)
  {
    if actions == [] then 0 else (if actions[0].Wake? then 1 else 0) + AllWoken(actions[1..])
  }

  lemma StepObliges(l: Loop, a: Action)
    requires Inv(l) && Enabled(l, a)
    ensures |Step(l, a).owing| + (if a.Wake? then 1 else 0) == |l.owing| + if Obliges(l, a) then 1 else 0
  {
  }

  /** Over every run there are exactly as many wakeups written or owed as tasks were pushed by other threads
      or by running tasks: none is missing, and none is superfluous. */
  lemma {:induction false} WakeupsAccounted(l: Loop, actions: seq<Action>, r: Loop)
    requires Inv(l) && Runs(l, actions, r)
    ensures |r.owing| + AllWoken(actions) == |l.owing| + AllObliged(l, actions)
    decreases |actions|
  {
    hide Inv, Step, Enabled, Obliges;
    if actions != [] {
      StepObliges(l, actions[0]);
      StepKeepsInv(l, actions[0]);
      WakeupsAccounted(Step(l, actions[0]), actions[1..], r);
    }
  }

  /** The wakeups written since the eventfd was last read, on top of `n` if it was not read. */
  function SinceRead(actions: seq<Action>, n: nat): (k: nat)
  {
    if actions == [] then n
    else
      var a := actions[0];
      SinceRead(actions[1..], if a.DrainEventfd? then 0 else if a.Wake? || a.Nudge? then n + 1 else n)
  }

  /** The poll of any run blocks exactly if no wakeup was written since the eventfd was last read. */
  lemma {:induction false} EventfdCounts(l: Loop, actions: seq<Action>, r: Loop)
    requires Runs(l, actions, r)
    ensures r.eventfd == SinceRead(actions, l.eventfd)
    decreases |actions|
  {
    if actions != [] {
      EventfdCounts(Step(l, actions[0]), actions[1..], r);
    }
  }

  /** Logs only grow. */
  lemma {:induction false} RunGrows(l: Loop, actions: seq<Action>, r: Loop)
    requires Runs(l, actions, r)
    ensures l.executed <= r.executed && l.submitted <= r.submitted
    decreases |actions|
  {
    if actions != [] {
      RunGrows(Step(l, actions[0]), actions[1..], r);
    }
  }

  /** A run in which the loop swaps and then comes back to its poll has started everything that was
      queued before the swap. */
  lemma RoundRunsQueued(l: Loop, actions: seq<Action>, r: Loop)
    requires Inv(l) && l.phase.Entering? && actions != [] && actions[0].Swap?
    requires Runs(l, actions, r) && r.phase.Polling?
    ensures l.submitted <= r.executed
  {
    var swapped := Step(l, Swap);
    StepKeepsInv(l, Swap);
    assert swapped.executed + Todo(swapped) == l.submitted;
    RunsThroughBatch(swapped, actions[1..], r, l.submitted);
  }

  /** Until the batch of this swap is finished, what is started plus what is left of it stays put. */
  lemma {:induction false} RunsThroughBatch(l: Loop, actions: seq<Action>, r: Loop, upTo: seq<Task>)
    requires l.phase.Running? && l.executed + l.phase.todo == upTo
    requires Runs(l, actions, r) && r.phase.Polling?
    ensures upTo <= r.executed
    decreases |actions|
  {
    if actions != [] {
      var next := Step(l, actions[0]);
      if actions[0].Finish? {
        RunGrows(next, actions[1..], r);
      } else {
        if actions[0].RunNext? {
          assert l.phase.todo == [l.phase.todo[0]] + l.phase.todo[1..];
          Reassociate(l.executed, [l.phase.todo[0]], l.phase.todo[1..]);
        }
        RunsThroughBatch(next, actions[1..], r, upTo);
      }
    }
  }

  lemma {:induction false} RunsAppend(l: Loop, first: seq<Action>, m: Loop, second: seq<Action>, r: Loop)
    requires Runs(l, first, m) && Runs(m, second, r)
    ensures Runs(l, first + second, r)
    decreases |first|
  {
    if first == [] {
      assert first + second == second;
    } else {
      assert (first + second)[1..] == first[1..] + second;
      RunsAppend(Step(l, first[0]), first[1..], m, second, r);
    }
  }

  lemma RunsSnoc(l: Loop, actions: seq<Action>, m: Loop, a: Action)
    requires Runs(l, actions, m) && Enabled(m, a)
    ensures Runs(l, actions + [a], Step(m, a))
  {
    assert Runs(Step(m, a), [], Step(m, a));
    assert [a][1..] == [];
    RunsAppend(l, actions, m, [a], Step(m, a));
  }
}
