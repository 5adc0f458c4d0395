/** The connection object (src/net/TcpConnection.cpp): fields updated step by step, with the real
    output buffer and the tasks its loop holds. Each elementary method is one step of the machine in
    Delivery; the calls that read the state, store it and queue a task leave room in between for
    whatever other threads do. */
module TcpConnection {
  import opened Bytes
  import opened NetBuffer
  import opened ConnSpec
  import opened Delivery
  import WireAccounts

  lemma OthersKeepCall(s: Sys, a: Action, who: Thread)
    requires Enabled(s, a) && Actor(a) != who
    ensures var r := Step(s, a);
      && (who in r.calls <==> who in s.calls) && (who in s.calls ==> r.calls[who] == s.calls[who])
      && (who == LOOP ==> r.destroying == s.destroying)
  {
  }

  /** What other threads do does not touch a thread's own call. */
  lemma {:induction false} CallStays(s: Sys, actions: seq<Action>, r: Sys, who: Thread)
    requires Runs(s, actions, r) && (forall a <- actions :: Actor(a) != who)
    ensures who in r.calls <==> who in s.calls
    ensures who in s.calls ==> r.calls[who] == s.calls[who]
    ensures who == LOOP ==> r.destroying == s.destroying
    decreases |actions|
  {
    hide Step, Enabled;
    if actions != [] {
      assert actions[0] in actions && forall a <- actions[1..] :: a in actions;
      OthersKeepCall(s, actions[0], who);
      CallStays(Step(s, actions[0]), actions[1..], r, who);
    }
  }

  /** What happens during one off-loop call: `first` between its test and its store, `second` between
      the store and the push. */
  ghost predicate Interleaved(s: Sys, who: Thread, task: Task, first: seq<Action>, m1: Sys, second: seq<Action>, m2: Sys)
  {
    && (forall a <- first + second :: Actor(a) != who)
    && Enabled(s, BeginCall(who, task))
    && Runs(Step(s, BeginCall(who, task)), first, m1)
    && Enabled(m1, StoreState(who))
    && Runs(Step(m1, StoreState(who)), second, m2)
  }

  function CallTrace(who: Thread, task: Task, first: seq<Action>, second: seq<Action>): (trace: seq<Action>)
  {
    [BeginCall(who, task)] + first + [StoreState(who)] + second + [PushTask(who, task)]
  }

  lemma CallRuns(s: Sys, who: Thread, task: Task, first: seq<Action>, m1: Sys, second: seq<Action>, m2: Sys)
    requires Interleaved(s, who, task, first, m1, second, m2)
    ensures Enabled(m2, PushTask(who, task))
    ensures Runs(s, CallTrace(who, task, first, second), Step(m2, PushTask(who, task)))
  {
    hide Runs;
    var begin, store, push := BeginCall(who, task), StoreState(who), PushTask(who, task);
    assert forall a <- first :: a in first + second;
    assert forall a <- second :: a in first + second;
    CallStays(Step(s, begin), first, m1, who);
    CallStays(Step(m1, store), second, m2, who);
    RunsOne(s, begin);
    RunsAppend(s, [begin], Step(s, begin), first, m1);
    RunsOne(m1, store);
    RunsAppend(s, [begin] + first, m1, [store], Step(m1, store));
    RunsAppend(s, [begin] + first + [store], Step(m1, store), second, m2);
    RunsOne(m2, push);
    RunsAppend(s, [begin] + first + [store] + second, m2, [push], Step(m2, push));
  }

  lemma ClosedDrops(c: Conn, w: Write)
    ensures c.state == Disconnected ==> Drops(c, w)
  {
  }

  class Connection {
    var state: State
    var reading: bool
    var writing: bool
    const output: Buffer
    const highWaterMark: nat
    const hasHighWaterCallback: bool
    const hasWriteCompleteCallback: bool
    var notices: seq<Notice>
    /** The connection's tasks in the queue of its loop. */
    var queue: seq<Task>
    /** The octets handed to the kernel, the half-closes, the payloads not dropped, and whether a
        close switched interest off. */
    ghost var wire: seq<byte>
    ghost var fins: seq<nat>
    ghost var taken: seq<seq<byte>>
    ghost var closed: bool
    /** The messages sent and decided, and the threads inside a call. */
    ghost var submitted: seq<Message>
    ghost var processed: seq<Done>
    ghost var calls: map<Thread, Call>
    ghost var destroying: bool

    ghost function Sending(): Conn
      requires output.Valid()
      reads this, output, output.data
    {
      Conn(state, closed, writing, output.Contents(), wire, fins, taken, notices,
           highWaterMark, hasHighWaterCallback, hasWriteCompleteCallback)
    }

    ghost function View(): Sys
      requires output.Valid()
      reads this, output, output.data
    {
      Sys(Sending(), queue, submitted, processed, calls, destroying)
    }

    ghost predicate Valid()
      reads this, output, output.data
    {
      output.Valid() && Delivery.Inv(View())
    }

    constructor (mark: nat, highWater: bool, writeComplete: bool)
      ensures Valid() && View() == Init(mark, highWater, writeComplete)
      ensures fresh(output) && fresh(output.data)
    {
      state, reading, writing := Connecting, false, false;
      output := new Buffer();
      highWaterMark, hasHighWaterCallback, hasWriteCompleteCallback := mark, highWater, writeComplete;
      notices, queue := [], [];
      wire, fins, taken, closed := [], [], [], false;
      submitted, processed, calls, destroying := [], [], map[], false;
      new;
      InitInv(mark, highWater, writeComplete);
    }

    // ---- steps on the loop thread ----------------------------------------------------------------

    method ConnectEstablished()
      requires Valid() && Enabled(View(), Establish)
      modifies this`state, this`reading
      ensures Valid() && View() == Step(old(View()), Establish) && reading
    {
      hide Delivery.Inv;
      StepKeepsInv(View(), Establish);
      state := Connected;
      reading := true;
    }

    /** Exactly the octets the kernel took move from the output buffer to the wire. */
    method HandleWrite(w: Write)
      requires Valid() && Enabled(View(), Writable(w))
      modifies this`writing, this`notices, this`wire, this`fins, output
      ensures Valid() && View() == Step(old(View()), Writable(w))
      ensures output.data == old(output.data)
      ensures WireAccounts.WrittenAs(old(Sending()), Sending(), w)
    {
      hide Delivery.Inv, WireAccounts.WrittenAs;
      StepKeepsInv(View(), Writable(w));
      WireAccounts.WriteMoves(Sending(), w);
      if !writing { return; }
      if w.Wrote? && w.n > 0 {
        wire := wire + output.Contents()[..w.n];
        output.Retrieve(w.n);
        if output.ReadableBytes() == 0 {
          Drained();
        }
      }
    }

    /** The end of `handleWrite` when the buffer has run empty. */
    method Drained()
      requires output.Valid()
      modifies this`writing, this`notices, this`fins
      ensures var c := old(Sending()); var idle := Notify(c.(writing := false), c.wantsWriteComplete, WriteComplete);
        Sending() == if c.state == Disconnecting then ConnSpec.ShutdownInLoop(idle) else idle
    {
      writing := false;
      if hasWriteCompleteCallback {
        notices := notices + [WriteComplete];
      }
      if state == Disconnecting {
        ShutdownWrite();
      }
    }

    /** `shutdownInLoop`: the half-close waits until nothing is being written. */
    method ShutdownWrite()
      requires output.Valid()
      modifies this`fins
      ensures Sending() == ConnSpec.ShutdownInLoop(old(Sending()))
    {
      if !writing {
        fins := fins + [|wire|];
      }
    }

    /** `handleClose` up to its callbacks. */
    method HandleClose()
      requires output.Valid()
      modifies this`state, this`reading, this`writing, this`closed
      ensures Sending() == ConnSpec.HandleClose(old(Sending())) && !reading
    {
      state := Disconnected;
      closed := true;
      reading, writing := false, false;
    }

    method HangUp()
      requires Valid() && Enabled(View(), Action.HangUp)
      modifies this`state, this`reading, this`writing, this`closed
      ensures Valid() && View() == Step(old(View()), Action.HangUp) && !reading
    {
      hide Delivery.Inv;
      StepKeepsInv(View(), Action.HangUp);
      HandleClose();
    }

    /** The direct write of `sendInLoop`, when nothing waits ahead. */
    method TryWrite(len: nat, w: Write) returns (n: nat, fault: bool)
      requires output.Valid() && Fits(w, len) && state != Disconnected
      modifies this`notices
      ensures n <= len && n == WrittenBy(old(Sending()), w) && fault == Drops(old(Sending()), w)
      ensures n == if !writing && output.Contents() == [] && w.Wrote? then w.n else 0
      ensures var c := old(Sending());
        Sending() == Notify(c, c.wantsWriteComplete && WritesDirectly(c) && w.Wrote? && n == len, WriteComplete)
      ensures fault ==> Sending() == old(Sending())
    {
      n, fault := 0, false;
      if !writing && output.ReadableBytes() == 0 {
        match w {
          case Wrote(k) =>
            n := k;
            if n == len && hasWriteCompleteCallback {
              notices := notices + [WriteComplete];
            }
          case Broken => fault := true;
          case _ =>
        }
      }
    }

    /** `sendInLoop`: with nothing ahead, exactly the octets the kernel took go to the wire and the rest
        waits; otherwise the payload waits behind what is there. */
    method SendInLoop(data: seq<byte>, w: Write)
      requires output.Valid() && Fits(w, |data|)
      modifies this`writing, this`notices, this`wire, this`taken, output, output.data
      ensures output.Valid() && Sending() == ConnSpec.SendInLoop(old(Sending()), data, w)
      ensures output.data == old(output.data) || fresh(output.data)
      ensures WireAccounts.SentAs(old(Sending()), Sending(), data, w)
    {
      hide Keep, WrittenBy, Drops, WireAccounts.SentAs;
      WireAccounts.SendMoves(Sending(), data, w);
      assert state == Disconnected ==> Drops(Sending(), w) by { ClosedDrops(Sending(), w); }
      if state == Disconnected { return; }
      var n, fault := TryWrite(|data|, w);
      if !fault {
        wire := wire + data[..n];
        taken := taken + [data];
        if n < |data| {
          KeepRest(data[n..]);
        }
      }
    }

    /** The tail of `sendInLoop`: what the kernel did not take waits in the output buffer. */
    method KeepRest(rest: seq<byte>)
      requires output.Valid() && rest != []
      modifies this`writing, this`notices, output, output.data
      ensures output.Valid() && Sending() == Keep(old(Sending()), rest)
      ensures output.data == old(output.data) || fresh(output.data)
    {
      var oldLen := output.ReadableBytes();
      if oldLen + |rest| >= highWaterMark && oldLen < highWaterMark && hasHighWaterCallback {
        notices := notices + [HighWater(oldLen + |rest|)];
      }
      output.Append(rest);
      if !writing {
        writing := true;
      }
    }

    /** The send path decides on a message. */
    method Decide(m: Message, w: Write)
      requires output.Valid() && Fits(w, |m.data|)
      modifies this`writing, this`notices, this`wire, this`taken, this`processed, output, output.data
      ensures output.Valid() && View() == Delivery.Decide(old(View()), m, w)
      ensures output.data == old(output.data) || fresh(output.data)
    {
      hide ConnSpec.SendInLoop;
      processed := processed + [Done(m, !Drops(Sending(), w))];
      SendInLoop(m.data, w);
    }

    method SendOnLoop(data: seq<byte>, w: Write)
      requires Valid() && Enabled(View(), LoopSend(data, w))
      modifies this`writing, this`notices, this`wire, this`taken, this`submitted, this`processed, output, output.data
      ensures Valid() && View() == Step(old(View()), LoopSend(data, w))
      ensures output.data == old(output.data) || fresh(output.data)
    {
      hide Delivery.Inv;
      StepKeepsInv(View(), LoopSend(data, w));
      if state == Connected {
        submitted := submitted + [Message(LOOP, data)];
        Decide(Message(LOOP, data), w);
      }
    }

    /** The loop runs the connection's next task. */
    method RunTask(w: Write)
      requires Valid() && Enabled(View(), Action.RunTask(w))
      modifies this, output, output.data
      ensures Valid() && View() == Step(old(View()), Action.RunTask(w))
      ensures output.data == old(output.data) || fresh(output.data)
    {
      hide Delivery.Inv, Delivery.Decide;
      StepKeepsInv(View(), Action.RunTask(w));
      var task := queue[0];
      queue := queue[1..];
      match task {
        case Deliver(m) => Decide(m, w);
        case DoShutdown => ShutdownWrite();
        case DoForceClose =>
          if state == Connected || state == Disconnecting {
            HandleClose();
          }
      }
    }

    method ShutdownOnLoop()
      requires Valid() && Enabled(View(), LoopShutdown)
      modifies this`state, this`fins
      ensures Valid() && View() == Step(old(View()), LoopShutdown)
    {
      hide Delivery.Inv;
      StepKeepsInv(View(), LoopShutdown);
      if state == Connected {
        state := Disconnecting;
        ShutdownWrite();
      }
    }

    method ForceCloseOnLoop()
      requires Valid() && Enabled(View(), LoopForceClose)
      modifies this`state, this`queue
      ensures Valid() && View() == Step(old(View()), LoopForceClose)
    {
      hide Delivery.Inv;
      StepKeepsInv(View(), LoopForceClose);
      if state == Connected || state == Disconnecting {
        state := Disconnecting;
        queue := queue + [DoForceClose];
      }
    }

    // ---- moments of the calls ----------------------------------------------------------------------

    method TestDestroyed()
      requires Valid() && Enabled(View(), DestroyTest)
      modifies this`destroying
      ensures Valid() && View() == Step(old(View()), DestroyTest)
    {
      hide Delivery.Inv;
      StepKeepsInv(View(), DestroyTest);
      destroying := state == Connected;
    }

    method SetDestroyed()
      requires Valid() && Enabled(View(), DestroySet)
      modifies this`state, this`reading, this`writing, this`closed, this`destroying
      ensures Valid() && View() == Step(old(View()), DestroySet) && !reading
    {
      hide Delivery.Inv;
      StepKeepsInv(View(), DestroySet);
      HandleClose();
      destroying := false;
    }

    method Post(sender: Thread, msg: seq<byte>)
      requires Valid() && Enabled(View(), OffSend(sender, msg))
      modifies this`queue, this`submitted
      ensures Valid() && View() == Step(old(View()), OffSend(sender, msg))
    {
      hide Delivery.Inv;
      StepKeepsInv(View(), OffSend(sender, msg));
      submitted := submitted + [Message(sender, msg)];
      queue := queue + [Deliver(Message(sender, msg))];
    }

    method Begin(who: Thread, task: Task)
      requires Valid() && Enabled(View(), BeginCall(who, task))
      modifies this`calls
      ensures Valid() && View() == Step(old(View()), BeginCall(who, task))
    {
      hide Delivery.Inv;
      StepKeepsInv(View(), BeginCall(who, task));
      calls := calls[who := Tested(task)];
    }

    method StoreDisconnecting(who: Thread)
      requires Valid() && Enabled(View(), StoreState(who))
      modifies this`state, this`calls
      ensures Valid() && View() == Step(old(View()), StoreState(who))
    {
      hide Delivery.Inv;
      StepKeepsInv(View(), StoreState(who));
      state := Disconnecting;
      calls := calls[who := Stored(calls[who].task)];
    }

    method Push(who: Thread, task: Task)
      requires Valid() && Enabled(View(), PushTask(who, task))
      modifies this`queue, this`calls
      ensures Valid() && View() == Step(old(View()), PushTask(who, task))
    {
      hide Delivery.Inv;
      StepKeepsInv(View(), PushTask(who, task));
      queue := queue + [task];
      calls := calls - {who};
    }

    // ---- what other threads do meanwhile -----------------------------------------------------------

    /** Any step of the machine, by the method that takes it. */
    method Perform(a: Action)
      requires Valid() && Enabled(View(), a)
      modifies this, output, output.data
      ensures Valid() && View() == Step(old(View()), a)
      ensures output.data == old(output.data) || fresh(output.data)
    {
      hide Delivery.Inv, Step;
      match a {
        case Establish => ConnectEstablished();
        case LoopSend(data, w) => SendOnLoop(data, w);
        case OffSend(sender, data) => Post(sender, data);
        case RunTask(w) => RunTask(w);
        case Writable(w) => HandleWrite(w);
        case HangUp => HangUp();
        case DestroyTest => TestDestroyed();
        case DestroySet => SetDestroyed();
        case LoopShutdown => ShutdownOnLoop();
        case LoopForceClose => ForceCloseOnLoop();
        case BeginCall(t, call) => Begin(t, call);
        case StoreState(t) => StoreDisconnecting(t);
        case PushTask(t, task) => Push(t, task);
      }
    }
  
    method PerformAll(actions: seq<Action>, ghost end: Sys)
      requires Valid() && Runs(View(), actions, end)
      modifies this, output, output.data
      ensures Valid() && View() == end
      ensures output.data == old(output.data) || fresh(output.data)
    {
      hide Delivery.Inv, Step, Enabled;
      var i := 0;
      assert actions[0..] == actions;
      while i < |actions|
        invariant i <= |actions| && Valid() && Runs(View(), actions[i..], end)
        invariant output.data == old(output.data) || fresh(output.data)
      {
        assert actions[i..][0] == actions[i] && actions[i..][1..] == actions[i + 1..];
        Perform(actions[i]);
        i := i + 1;
      }
    }

    // ---- the calls -------------------------------------------------------------------------------

    /** `send`: at once on the loop thread, queued as one task from any other; `others` is what happens
        between the test and the push. */
    method Send(who: Thread, msg: seq<byte>, w: Write, others: seq<Action>, ghost mid: Sys)
      requires Valid() && Fits(w, |msg|) && who !in calls && (who == LOOP ==> !destroying)
      requires who != LOOP ==> Runs(View(), others, mid) && forall a <- others :: Actor(a) != who
      modifies this, output, output.data
      ensures Valid() && (output.data == old(output.data) || fresh(output.data))
      ensures who == LOOP ==> View() == Step(old(View()), LoopSend(msg, w))
      ensures who != LOOP && old(state) == Connected ==> Runs(old(View()), others + [OffSend(who, msg)], View())
      ensures who != LOOP && old(state) != Connected ==> View() == old(View())
    {
      hide Delivery.Inv, Runs;
      if state == Connected {
        if who == LOOP {
          SendOnLoop(msg, w);
        } else {
          CallStays(View(), others, mid, who);
          PerformAll(others, mid);
          Post(who, msg);
          RunsOne(mid, OffSend(who, msg));
          RunsAppend(old(View()), others, mid, [OffSend(who, msg)], View());
        }
      }
    }

    /** The part of `shutdown` and `forceClose` behind a passed test on another thread. */
    method Call(who: Thread, task: Task, first: seq<Action>, ghost m1: Sys, second: seq<Action>, ghost m2: Sys)
      requires Valid() && who != LOOP && Interleaved(View(), who, task, first, m1, second, m2)
      modifies this, output, output.data
      ensures Valid() && (output.data == old(output.data) || fresh(output.data))
      ensures Runs(old(View()), CallTrace(who, task, first, second), View())
    {
      hide Delivery.Inv, Runs, Step;
      CallRuns(View(), who, task, first, m1, second, m2);
      Begin(who, task);
      PerformAll(first, m1);
      StoreDisconnecting(who);
      PerformAll(second, m2);
      Push(who, task);
    }

    method Shutdown(who: Thread, first: seq<Action>, ghost m1: Sys, second: seq<Action>, ghost m2: Sys)
      requires Valid() && who !in calls && (who == LOOP ==> !destroying)
      requires who != LOOP && state == Connected ==> Interleaved(View(), who, DoShutdown, first, m1, second, m2)
      modifies this, output, output.data
      ensures Valid() && (output.data == old(output.data) || fresh(output.data))
      ensures who == LOOP ==> View() == Step(old(View()), LoopShutdown)
      ensures who != LOOP && old(state) == Connected ==> Runs(old(View()), CallTrace(who, DoShutdown, first, second), View())
      ensures who != LOOP && old(state) != Connected ==> View() == old(View())
    {
      hide Delivery.Inv, Runs, Interleaved;
      if state == Connected {
        if who == LOOP {
          ShutdownOnLoop();
        } else {
          Call(who, DoShutdown, first, m1, second, m2);
        }
      }
    }

    method ForceClose(who: Thread, first: seq<Action>, ghost m1: Sys, second: seq<Action>, ghost m2: Sys)
      requires Valid() && who !in calls && (who == LOOP ==> !destroying)
      requires who != LOOP && (state == Connected || state == Disconnecting) ==>
        Interleaved(View(), who, DoForceClose, first, m1, second, m2)
      modifies this, output, output.data
      ensures Valid() && (output.data == old(output.data) || fresh(output.data))
      ensures who == LOOP ==> View() == Step(old(View()), LoopForceClose)
      ensures who != LOOP && Open(old(View()).conn) ==> Runs(old(View()), CallTrace(who, DoForceClose, first, second), View())
      ensures who != LOOP && !Open(old(View()).conn) ==> View() == old(View())
    {
      hide Delivery.Inv, Runs, Interleaved;
      if state == Connected || state == Disconnecting {
        if who == LOOP {
          ForceCloseOnLoop();
        } else {
          Call(who, DoForceClose, first, m1, second, m2);
        }
      }
    }

    /** `connectDestroyed`, with what other threads do between its test and its store. */
    method ConnectDestroyed(others: seq<Action>, ghost mid: Sys)
      requires Valid() && Enabled(View(), DestroyTest)
      requires state == Connected ==>
        Runs(Step(View(), DestroyTest), others, mid) && forall a <- others :: Actor(a) != LOOP
      modifies this, output, output.data
      ensures Valid() && (output.data == old(output.data) || fresh(output.data))
      ensures old(state) == Connected ==>
        Runs(old(View()), [DestroyTest] + others + [DestroySet], View()) && state == Disconnected && !reading && !writing
      ensures old(state) != Connected ==> View() == old(View())
    {
      hide Delivery.Inv, Runs;
      ghost var s := View();
      TestDestroyed();
      if state == Connected {
        CallStays(View(), others, mid, LOOP);
        PerformAll(others, mid);
        SetDestroyed();
        RunsOne(s, DestroyTest);
        RunsAppend(s, [DestroyTest], Step(s, DestroyTest), others, mid);
        RunsOne(mid, DestroySet);
        RunsAppend(s, [DestroyTest] + others, mid, [DestroySet], View());
      }
    }
  }
}
