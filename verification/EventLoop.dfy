/** The loop object around the task queue: `queueInLoop`, `wakeup` and `doPendingFunctors` as the
    methods that take the steps of the machine in TaskQueue. */
module EventLoop {
  import opened TaskQueue
  import opened Bytes

  /** A functor with the tasks it queues, in order, while it runs. */
  datatype Functor = Functor(id: Task, queues: seq<Functor>)

  function Ids(fs: seq<Functor>): (ids: seq<Task>)
    ensures |ids| == |fs|
  {
    seq(|fs|, i requires 0 <= i < |fs| => fs[i].id)
  }

  /** Everything a batch queues while it runs. */
  function Spawned(fs: seq<Functor>): (r: seq<Functor>)
  {
    if fs == [] then [] else Spawned(fs[..|fs| - 1]) + fs[|fs| - 1].queues
  }

  lemma NextFunctor(fs: seq<Functor>, i: nat)
    requires i < |fs|
    ensures Ids(fs)[i..][0] == fs[i].id && Ids(fs)[i..][1..] == Ids(fs)[i + 1..]
    ensures Ids(fs[..i + 1]) == Ids(fs[..i]) + [fs[i].id]
    ensures Spawned(fs[..i + 1]) == Spawned(fs[..i]) + fs[i].queues
  {
    assert fs[..i + 1][..i] == fs[..i];
  }

  class Reactor {
    var pendingFunctors: seq<Functor>
    var callingPendingFunctors: bool
    /** The eventfd counter. */
    var wakeups: nat
    ghost var phase: Phase
    ghost var owing: set<Thread>
    ghost var submitted: seq<Task>
    ghost var executed: seq<Task>

    ghost function View(): Loop
      reads this
    {
      Loop(Ids(pendingFunctors), wakeups, callingPendingFunctors, phase, owing, submitted, executed)
    }

    constructor ()
      ensures View() == INIT
    {
      pendingFunctors, callingPendingFunctors, wakeups := [], false, 0;
      phase, owing, submitted, executed := Polling, {}, [], [];
    }

    method Wakeup(ghost who: Thread)
      requires who in owing
      modifies this
      ensures View() == Step(old(View()), Wake(who)) && pendingFunctors == old(pendingFunctors)
    {
      wakeups := wakeups + 1;
      owing := owing - {who};
    }

    method HandleWakeupRead()
      requires phase.Dispatching? && LOOP !in owing
      modifies this
      ensures View() == Step(old(View()), DrainEventfd) && pendingFunctors == old(pendingFunctors)
    {
      wakeups := 0;
    }

    /** `queueInLoop`: push under the lock, then wake the loop unless the loop thread queues outside
        a task run, where the swap is still to come. */
    method QueueInLoop(f: Functor, who: Thread) returns (ghost trace: seq<Action>)
      requires Enabled(View(), Push(who, f.id))
      modifies this
      ensures Runs(old(View()), trace, View())
      ensures pendingFunctors == old(pendingFunctors) + [f]
      ensures phase == old(phase) && owing == old(owing) && executed == old(executed)
      ensures callingPendingFunctors == old(callingPendingFunctors)
      ensures wakeups == old(wakeups) + if who != LOOP || callingPendingFunctors then 1 else 0
    {
      ghost var l := View();
      pendingFunctors := pendingFunctors + [f];
      assert Ids(pendingFunctors) == Ids(old(pendingFunctors)) + [f.id];
      submitted := submitted + [f.id];
      owing := owing + (if who != LOOP || callingPendingFunctors then {who} else {});
      trace := [];
      assert Runs(l, [], l);
      RunsSnoc(l, trace, l, Push(who, f.id));
      trace := trace + [Push(who, f.id)];
      if who != LOOP || callingPendingFunctors {
        RunsSnoc(l, trace, View(), Wake(who));
        trace := trace + [Wake(who)];
        Wakeup(who);
        assert owing == old(owing);
      }
    }

    /** Runs one functor: whatever it queues goes through `queueInLoop` on the loop thread. */
    method Run(f: Functor) returns (ghost trace: seq<Action>)
      requires phase.Running? && phase.todo != [] && phase.todo[0] == f.id
      requires callingPendingFunctors && LOOP !in owing
      modifies this
      ensures Runs(old(View()), trace, View())
      ensures phase == Running(old(phase.todo)[1..]) && callingPendingFunctors && owing == old(owing)
      ensures executed == old(executed) + [f.id]
      ensures pendingFunctors == old(pendingFunctors) + f.queues
      ensures wakeups == old(wakeups) + |f.queues|
    {
      ghost var l := View();
      executed := executed + [f.id];
      phase := Running(phase.todo[1..]);
      assert Runs(l, [], l);
      RunsSnoc(l, [], l, RunNext);
      trace := [] + [RunNext];
      var i := 0;
      while i < |f.queues|
        invariant i <= |f.queues|
        invariant Runs(l, trace, View())
        invariant phase == Running(old(phase.todo)[1..]) && callingPendingFunctors && owing == old(owing)
        invariant executed == old(executed) + [f.id]
        invariant pendingFunctors == old(pendingFunctors) + f.queues[..i]
        invariant wakeups == old(wakeups) + i
      {
        ghost var m := View();
        ghost var t := QueueInLoop(f.queues[i], LOOP);
        RunsAppend(l, trace, m, t, View());
        trace := trace + t;
        assert f.queues[..i] + [f.queues[i]] == f.queues[..i + 1];
        Reassociate(old(pendingFunctors), f.queues[..i], [f.queues[i]]);
        i := i + 1;
      }
      assert f.queues[..i] == f.queues;
    }

    /** `doPendingFunctors`: swap, then run the batch. Tasks queued meanwhile wait for the next
        round, and each of them has raised the eventfd. */
    method DoPendingFunctors() returns (ghost trace: seq<Action>)
      requires phase.Dispatching? && !callingPendingFunctors && LOOP !in owing
      modifies this
      ensures Runs(old(View()), trace, View()) && phase.Polling?
      ensures executed == old(executed) + Ids(old(pendingFunctors))
      ensures pendingFunctors == Spawned(old(pendingFunctors))
      ensures wakeups == old(wakeups) + |pendingFunctors|
    {
      ghost var l := View();
      callingPendingFunctors := true;
      phase := Entering;
      assert Runs(l, [], l);
      RunsSnoc(l, [], l, EnterPending);
      ghost var m := View();
      var functors := pendingFunctors;
      pendingFunctors := [];
      phase := Running(Ids(functors));
      assert View() == Step(m, Swap);
      RunsSnoc(l, [] + [EnterPending], m, Swap);
      trace := [] + [EnterPending] + [Swap];
      var i := 0;
      assert functors[..0] == [] && Ids(functors)[0..] == Ids(functors);
      while i < |functors|
        invariant i <= |functors|
        invariant Runs(l, trace, View())
        invariant phase == Running(Ids(functors)[i..]) && callingPendingFunctors && owing == old(owing)
        invariant executed == old(executed) + Ids(functors[..i])
        invariant pendingFunctors == Spawned(functors[..i])
        invariant wakeups == old(wakeups) + |pendingFunctors|
      {
        ghost var before := View();
        NextFunctor(functors, i);
        ghost var t := Run(functors[i]);
        RunsAppend(l, trace, before, t, View());
        trace := trace + t;
        Reassociate(old(executed), Ids(functors[..i]), [functors[i].id]);
        i := i + 1;
      }
      assert functors[..i] == functors;
      RunsSnoc(l, trace, View(), Finish);
      trace := trace + [Finish];
      callingPendingFunctors := false;
      phase := Polling;
    }
  }
}
