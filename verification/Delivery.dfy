/** One connection used from many threads. Sends on the loop thread go straight to the send path;
    other threads queue tasks. A `shutdown()` or `forceClose()` of another thread reads the state,
    stores it and queues its task at three moments, and so does the loop's own destruction of the
    connection at two; anything may happen in between. The kernel answers as it likes. */
module Delivery {
  import opened Bytes
  import opened ConnSpec

  type Thread = nat
  const LOOP: Thread := 0

  datatype Message = Message(sender: Thread, data: seq<byte>)
  datatype Done = Done(msg: Message, kept: bool)
  datatype Task = Deliver(msg: Message) | DoShutdown | DoForceClose

  /** A thread inside `shutdown()` or `forceClose()`, by the task it is going to queue: it has read
      the state, or has also stored it. */
  datatype Call = Tested(task: Task) | Stored(task: Task)

  /** `submitted` and `processed` record, for every message whose sender found the connection open,
      when it was sent and when the send path decided on it. `destroying` lies between the test and
      the store of `connectDestroyed`. */
  datatype Sys = Sys(
    conn: Conn, queue: seq<Task>, submitted: seq<Message>, processed: seq<Done>,
    calls: map<Thread, Call>, destroying: bool)

  /** `OffSend` needs no test of the state: the sender's test and its push are two moments, and
      anything may happen in between. */
  datatype Action =
    | Establish
    | LoopSend(data: seq<byte>, w: Write)
    | OffSend(sender: Thread, data: seq<byte>)
    | RunTask(w: Write)
    | Writable(w: Write)
    | HangUp
    | DestroyTest
    | DestroySet
    | LoopShutdown
    | LoopForceClose
    | BeginCall(t: Thread, task: Task)
    | StoreState(t: Thread)
    | PushTask(t: Thread, task: Task)

  /** Which thread takes the step. */
  function Actor(a: Action): (t: Thread)
  {
    match a
    case OffSend(sender, _) => sender
    case BeginCall(t, _) => t
    case StoreState(t) => t
    case PushTask(t, _) => t
    case _ => LOOP
  }

  /** The test of `shutdown()` and of `forceClose()`. */
  predicate Passes(c: Conn, task: Task)
  {
    match task
    case Deliver(_) => false
    case DoShutdown => c.state == Connected
    case DoForceClose => Open(c)
  }

  /** A hang-up can be reported again after a close, until the channel is removed. */
  predicate Enabled(s: Sys, a: Action)
  {
    && (Actor(a) == LOOP ==> s.destroying == a.DestroySet?)
    && match a
       case Establish => s.conn.state == Connecting
       case LoopSend(data, w) => Fits(w, |data|)
       case OffSend(sender, _) => sender != LOOP && sender !in s.calls
       case RunTask(w) => s.queue != [] && (s.queue[0].Deliver? ==> Fits(w, |s.queue[0].msg.data|))
       case Writable(w) => Fits(w, |s.conn.output|)
       case HangUp => s.conn.state != Connecting
       case BeginCall(t, task) => t != LOOP && t !in s.calls && Passes(s.conn, task)
       case StoreState(t) => t != LOOP && t in s.calls && s.calls[t].Tested?
       case PushTask(t, task) => t != LOOP && t in s.calls && s.calls[t] == Stored(task)
       case _ => true
  }

  /** The send path decides on one message. */
  function Decide(s: Sys, m: Message, w: Write): (r: Sys)
    requires Fits(w, |m.data|)
  {
    s.(conn := SendInLoop(s.conn, m.data, w), processed := s.processed + [Done(m, !Drops(s.conn, w))])
  }

  function Run(s: Sys, task: Task, w: Write): (r: Sys)
    requires task.Deliver? ==> Fits(w, |task.msg.data|)
  {
    match task
    case Deliver(m) => Decide(s, m, w)
    case DoShutdown => s.(conn := ShutdownInLoop(s.conn))
    case DoForceClose => s.(conn := ForceCloseInLoop(s.conn))
  }

  function Disconnect(c: Conn): (r: Conn)
  {
    c.(state := Disconnecting)
  }

  function Step(s: Sys, a: Action): (r: Sys)
    requires Enabled(s, a)
  {
    match a
    case Establish => s.(conn := s.conn.(state := Connected))
    case LoopSend(data, w) =>
      var m := Message(LOOP, data);
      if s.conn.state != Connected then s else Decide(s.(submitted := s.submitted + [m]), m, w)
    case OffSend(sender, data) =>
      var m := Message(sender, data);
      s.(submitted := s.submitted + [m], queue := s.queue + [Deliver(m)])
    case RunTask(w) => Run(s.(queue := s.queue[1..]), s.queue[0], w)
    case Writable(w) => s.(conn := HandleWrite(s.conn, w))
    case HangUp => s.(conn := HandleClose(s.conn))
    case DestroyTest => s.(destroying := s.conn.state == Connected)
    case DestroySet => s.(conn := HandleClose(s.conn), destroying := false)
    case LoopShutdown =>
      if s.conn.state != Connected then s else s.(conn := ShutdownInLoop(Disconnect(s.conn)))
    case LoopForceClose =>
      if !Open(s.conn) then s else s.(conn := Disconnect(s.conn), queue := s.queue + [DoForceClose])
    case BeginCall(t, task) => s.(calls := s.calls[t := Tested(task)])
    case StoreState(t) => s.(conn := Disconnect(s.conn), calls := s.calls[t := Stored(s.calls[t].task)])
    case PushTask(t, task) => s.(queue := s.queue + [task], calls := s.calls - {t})
  }

  /** `actions` is a run of enabled steps from `s` to `r`. */
  ghost predicate Runs(s: Sys, actions: seq<Action>, r: Sys)
    decreases |actions|
  {
    if actions == [] then r == s
    else Enabled(s, actions[0]) && Runs(Step(s, actions[0]), actions[1..], r)
  }

  function Init(mark: nat, highWater: bool, writeComplete: bool): (s: Sys)
  {
    Sys(Fresh(mark, highWater, writeComplete), [], [], [], map[], false)
  }

  // ---- logs --------------------------------------------------------------------------------

  function KeptData(log: seq<Done>): (d: seq<seq<byte>>)
  {
    if log == [] then []
    else KeptData(log[..|log| - 1]) + (if log[|log| - 1].kept then [log[|log| - 1].msg.data] else [])
  }

  function By(t: Thread, log: seq<Message>): (r: seq<Message>)
  {
    if log == [] then []
    else By(t, log[..|log| - 1]) + (if log[|log| - 1].sender == t then [log[|log| - 1]] else [])
  }

  function Messages(log: seq<Done>): (r: seq<Message>)
    ensures |r| == |log|
  {
    seq(|log|, i requires 0 <= i < |log| => log[i].msg)
  }

  /** The messages still in the queue. */
  function Waiting(queue: seq<Task>): (r: seq<Message>)
  {
    if queue == [] then []
    else Waiting(queue[..|queue| - 1]) + (if queue[|queue| - 1].Deliver? then [queue[|queue| - 1].msg] else [])
  }

  lemma KeptSnoc(log: seq<Done>, d: Done)
    ensures KeptData(log + [d]) == KeptData(log) + (if d.kept then [d.msg.data] else [])
  {
    assert (log + [d])[..|log|] == log;
  }

  lemma BySnoc(t: Thread, log: seq<Message>, m: Message)
    ensures By(t, log + [m]) == By(t, log) + (if m.sender == t then [m] else [])
  {
    assert (log + [m])[..|log|] == log;
  }

  lemma MessagesSnoc(log: seq<Done>, d: Done)
    ensures Messages(log + [d]) == Messages(log) + [d.msg]
  {
  }

  lemma WaitingSnoc(queue: seq<Task>, task: Task)
    ensures Waiting(queue + [task]) == Waiting(queue) + (if task.Deliver? then [task.msg] else [])
  {
    assert (queue + [task])[..|queue|] == queue;
  }

  lemma {:induction false} WaitingHead(queue: seq<Task>)
    requires queue != []
    ensures Waiting(queue) == (if queue[0].Deliver? then [queue[0].msg] else []) + Waiting(queue[1..])
  {
    var last := |queue| - 1;
    if last == 0 {
      assert queue[..0] == [] && queue[1..] == [];
    } else {
      WaitingHead(queue[..last]);
      assert queue[..last][1..] == queue[1..][..last - 1];
    }
  }

  lemma {:induction false} ByAppend(t: Thread, a: seq<Message>, b: seq<Message>)
    ensures By(t, a + b) == By(t, a) + By(t, b)
  {
    if b == [] {
      assert a + b == a;
    } else {
      var last := |b| - 1;
      ByAppend(t, a, b[..last]);
      assert a + b == (a + b[..last]) + [b[last]];
      BySnoc(t, a + b[..last], b[last]);
      Reassociate(By(t, a), By(t, b[..last]), if b[last].sender == t then [b[last]] else []);
    }
  }

  // ---- whole messages, in each sender's order --------------------------------------------------

  /** Each thread's messages are decided in the order it sent them, and the undecided ones wait in
      that order; the loop thread has none waiting. */
  ghost predicate InOrder(processed: seq<Done>, queue: seq<Task>, submitted: seq<Message>)
  {
    && (forall t: Thread :: By(t, Messages(processed)) + By(t, Waiting(queue)) == By(t, submitted))
    && (forall m <- Waiting(queue) :: m.sender != LOOP)
  }

  /** The stream is the concatenation of the kept messages. */
  ghost predicate Inv(s: Sys)
  {
    && ConnSpec.Inv(s.conn)
    && s.conn.taken == KeptData(s.processed)
    && InOrder(s.processed, s.queue, s.submitted)
    && NoEarlyFin(s)
    && (forall t <- s.calls :: t != LOOP && !s.calls[t].task.Deliver?)
    && (s.destroying ==> Open(s.conn))
  }

  /** Nothing half-closes a connection that still takes sends. */
  ghost predicate NoEarlyFin(s: Sys)
  {
    s.conn.state == Connecting || s.conn.state == Connected ==>
      s.conn.fins == [] && DoShutdown !in s.queue && forall t <- s.calls :: !s.calls[t].Stored?
  }

  lemma DecideKeepsInv(s: Sys, m: Message, w: Write)
    requires ConnSpec.Inv(s.conn) && s.conn.taken == KeptData(s.processed) && Fits(w, |m.data|)
    ensures var r := Decide(s, m, w);
      && ConnSpec.Inv(r.conn) && r.conn.taken == KeptData(r.processed)
      && r.processed == s.processed + [Done(m, !Drops(s.conn, w))]
      && r.conn.state == s.conn.state && r.conn.fins == s.conn.fins && r.conn.closed == s.conn.closed
  {
    SendKeepsInv(s.conn, m.data, w);
    KeptSnoc(s.processed, Done(m, !Drops(s.conn, w)));
  }

  lemma {:induction false} NoLoopMessage(waiting: seq<Message>)
    requires forall m <- waiting :: m.sender != LOOP
    ensures By(LOOP, waiting) == []
  {
    if waiting != [] {
      NoLoopMessage(waiting[..|waiting| - 1]);
    }
  }

  /** A send on the loop thread never overtakes a queued message of its own thread: none is there. */
  lemma LoopMessageInOrder(processed: seq<Done>, queue: seq<Task>, submitted: seq<Message>, d: Done)
    requires InOrder(processed, queue, submitted) && d.msg.sender == LOOP
    ensures InOrder(processed + [d], queue, submitted + [d.msg])
  {
    hide By, Waiting;
    MessagesSnoc(processed, d);
    NoLoopMessage(Waiting(queue));
    forall t: Thread
      ensures By(t, Messages(processed + [d])) + By(t, Waiting(queue)) == By(t, submitted + [d.msg])
    {
      BySnoc(t, submitted, d.msg);
      BySnoc(t, Messages(processed), d.msg);
    }
  }

  lemma QueuedInOrder(processed: seq<Done>, queue: seq<Task>, submitted: seq<Message>, m: Message)
    requires InOrder(processed, queue, submitted) && m.sender != LOOP
    ensures InOrder(processed, queue + [Deliver(m)], submitted + [m])
  {
    hide By, Waiting;
    WaitingSnoc(queue, Deliver(m));
    forall t: Thread
      ensures By(t, Messages(processed)) + By(t, Waiting(queue + [Deliver(m)])) == By(t, submitted + [m])
    {
      BySnoc(t, submitted, m);
      BySnoc(t, Waiting(queue), m);
      Reassociate(By(t, Messages(processed)), By(t, Waiting(queue)), if m.sender == t then [m] else []);
    }
  }

  lemma TaskInOrder(processed: seq<Done>, queue: seq<Task>, submitted: seq<Message>, task: Task)
    requires InOrder(processed, queue, submitted) && !task.Deliver?
    ensures InOrder(processed, queue + [task], submitted)
  {
    WaitingSnoc(queue, task);
    assert Waiting(queue) + [] == Waiting(queue);
  }

  lemma DecidedInOrder(processed: seq<Done>, queue: seq<Task>, submitted: seq<Message>, kept: bool)
    requires InOrder(processed, queue, submitted) && queue != [] && queue[0].Deliver?
    ensures InOrder(processed + [Done(queue[0].msg, kept)], queue[1..], submitted)
  {
    hide By, Waiting;
    var m, rest := queue[0].msg, Waiting(queue[1..]);
    WaitingHead(queue);
    MessagesSnoc(processed, Done(m, kept));
    forall t: Thread
      ensures By(t, Messages(processed + [Done(m, kept)])) + By(t, rest) == By(t, submitted)
    {
      ByAppend(t, [m], rest);
      BySnoc(t, Messages(processed), m);
      ByOne(t, m);
      Reassociate(By(t, Messages(processed)), By(t, [m]), rest);
      Reassociate(By(t, Messages(processed)), By(t, [m]), By(t, rest));
    }
  }

  lemma ByOne(t: Thread, m: Message)
    ensures By(t, [m]) == if m.sender == t then [m] else []
  {
    BySnoc(t, [], m);
    assert [] + [m] == [m];
  }

  lemma RanInOrder(processed: seq<Done>, queue: seq<Task>, submitted: seq<Message>)
    requires InOrder(processed, queue, submitted) && queue != [] && !queue[0].Deliver?
    ensures InOrder(processed, queue[1..], submitted)
  {
    WaitingHead(queue);
    assert [] + Waiting(queue[1..]) == Waiting(queue[1..]);
  }

  lemma LoopSendKeepsInv(s: Sys, data: seq<byte>, w: Write)
    requires Inv(s) && Enabled(s, LoopSend(data, w))
    ensures Inv(Step(s, LoopSend(data, w)))
  {
    hide SendInLoop, ConnSpec.Inv, Drops, InOrder;
    if s.conn.state == Connected {
      var m := Message(LOOP, data);
      DecideKeepsInv(s.(submitted := s.submitted + [m]), m, w);
      LoopMessageInOrder(s.processed, s.queue, s.submitted, Done(m, !Drops(s.conn, w)));
    }
  }

  lemma RunKeeps(s: Sys, w: Write)
    requires Inv(s) && Enabled(s, RunTask(w))
    ensures Inv(Step(s, RunTask(w)))
  {
    hide SendInLoop, Drops, InOrder;
    assert forall task <- s.queue[1..] :: task in s.queue;
    assert s.queue[0] in s.queue;
    match s.queue[0] {
      case Deliver(m) =>
        hide ConnSpec.Inv;
        DecideKeepsInv(s.(queue := s.queue[1..]), m, w);
        DecidedInOrder(s.processed, s.queue, s.submitted, !Drops(s.conn, w));
      case _ =>
        RanInOrder(s.processed, s.queue, s.submitted);
    }
  }

  lemma OtherStepKeepsInv(s: Sys, a: Action)
    requires Inv(s) && Enabled(s, a) && !a.LoopSend? && !a.RunTask?
    ensures Inv(Step(s, a))
  {
    hide InOrder;
    match a {
      case OffSend(sender, data) => QueuedInOrder(s.processed, s.queue, s.submitted, Message(sender, data));
      case Writable(w) => WriteKeepsInv(s.conn, w);
      case LoopForceClose => TaskInOrder(s.processed, s.queue, s.submitted, DoForceClose);
      case PushTask(t, task) => TaskInOrder(s.processed, s.queue, s.submitted, task);
      case _ =>
    }
  }

  lemma StepKeepsInv(s: Sys, a: Action)
    requires Inv(s) && Enabled(s, a)
    ensures Inv(Step(s, a))
  {
    hide Inv, Step, Enabled;
    match a {
      case LoopSend(data, w) => LoopSendKeepsInv(s, data, w);
      case RunTask(w) => RunKeeps(s, w);
      case _ => OtherStepKeepsInv(s, a);
    }
  }

  lemma {:induction false} RunKeepsInv(s: Sys, actions: seq<Action>, r: Sys)
    requires Inv(s) && Runs(s, actions, r)
    ensures Inv(r)
    decreases |actions|
  {
    hide Inv, Step, Enabled;
    if actions != [] {
      StepKeepsInv(s, actions[0]);
      RunKeepsInv(Step(s, actions[0]), actions[1..], r);
    }
  }

  lemma InitInv(mark: nat, highWater: bool, writeComplete: bool)
    ensures Inv(Init(mark, highWater, writeComplete))
  {
    assert Concat<byte>([]) == [];
  }

  /** In every reachable state: the octets on the wire and in the output buffer are the kept
      messages, whole and in decision order; every sender's messages are decided in the order it
      sent them; and until a close, write interest is on exactly while octets wait. */
  lemma WholeMessages(mark: nat, highWater: bool, writeComplete: bool, actions: seq<Action>, r: Sys, t: Thread)
    requires Runs(Init(mark, highWater, writeComplete), actions, r)
    ensures r.conn.wire + r.conn.output == Concat(KeptData(r.processed))
    ensures By(t, Messages(r.processed)) + By(t, Waiting(r.queue)) == By(t, r.submitted)
    ensures By(LOOP, Messages(r.processed)) == By(LOOP, r.submitted)
    ensures !r.conn.closed ==> (r.conn.writing <==> r.conn.output != [])
    ensures r.conn.writing ==> r.conn.output != []
  {
    InitInv(mark, highWater, writeComplete);
    RunKeepsInv(Init(mark, highWater, writeComplete), actions, r);
    NoLoopMessage(Waiting(r.queue));
  }

  // ---- half-close ----------------------------------------------------------------------------

  /** No FIN yet, or every FIN behind the last octet, with nothing left to send. */
  ghost predicate Quiet(s: Sys)
  {
    s.conn.fins != [] ==> (forall n <- s.conn.fins :: n == |s.conn.wire|) && s.conn.output == []
  }

  /** What breaks that: a queued message decided after the FIN, unless it is dropped, or a queued
      shutdown that finds write interest off with octets waiting (which takes a close before). */
  predicate Overtakes(s: Sys, a: Action)
  {
    a.RunTask? && s.queue != [] &&
    match s.queue[0]
    case Deliver(m) => s.conn.fins != [] && m.data != [] && s.conn.state != Disconnected && !a.w.Broken?
    case DoShutdown => !s.conn.writing && s.conn.output != []
    case DoForceClose => false
  }

  lemma OvertakingShutdownIsLate(s: Sys, a: Action)
    requires Inv(s) && Overtakes(s, a) && s.queue[0].DoShutdown?
    ensures s.conn.closed
  {
  }

  /** A step keeps every FIN behind everything exactly when it is not one of those two. */
  lemma FinStaysLastIff(s: Sys, a: Action)
    requires Inv(s) && Quiet(s) && Enabled(s, a)
    ensures Quiet(Step(s, a)) <==> !Overtakes(s, a)
  {
    hide InOrder;
    match a {
      case LoopSend(data, w) => SendKeepsInv(s.conn, data, w);
      case Writable(w) => WriteKeepsInv(s.conn, w);
      case RunTask(w) =>
        match s.queue[0] {
          case Deliver(m) => DeliverAfterFin(s.conn, m.data, w);
          case _ =>
        }
      case _ =>
    }
  }

  lemma DeliverAfterFin(c: Conn, data: seq<byte>, w: Write)
    requires ConnSpec.Inv(c) && Fits(w, |data|)
    ensures SendInLoop(c, data, w).fins == c.fins
    ensures c.fins != [] && (forall n <- c.fins :: n == |c.wire|) && c.output == [] ==>
      var r := SendInLoop(c, data, w);
      ((forall n <- r.fins :: n == |r.wire|) && r.output == [])
        <==> (data == [] || c.state == Disconnected || w.Broken?)
  {
    SendKeepsInv(c, data, w);
    if c.fins != [] {
      assert c.fins[0] in c.fins;
    }
  }

  /** An octet behind a FIN, or still waiting behind it, never comes right again. */
  lemma UnquietStays(s: Sys, a: Action)
    requires Inv(s) && !Quiet(s) && Enabled(s, a)
    ensures !Quiet(Step(s, a))
  {
    hide InOrder;
    match a {
      case LoopSend(data, w) => SendKeepsUnquiet(s.conn, data, w);
      case Writable(w) => WriteKeepsUnquiet(s.conn, w);
      case RunTask(w) =>
        match s.queue[0] {
          case Deliver(m) => SendKeepsUnquiet(s.conn, m.data, w);
          case DoShutdown => FinKeepsUnquiet(s.conn);
          case DoForceClose =>
        }
      case _ =>
    }
  }

  lemma SendKeepsUnquiet(c: Conn, data: seq<byte>, w: Write)
    requires ConnSpec.Inv(c) && Fits(w, |data|)
    requires c.fins != [] && ((exists n <- c.fins :: n != |c.wire|) || c.output != [])
    ensures var r := SendInLoop(c, data, w);
      r.fins != [] && ((exists n <- r.fins :: n != |r.wire|) || r.output != [])
  {
    hide SendInLoop;
    SendKeepsInv(c, data, w);
    if n :| n in c.fins && n != |c.wire| {
      assert n in SendInLoop(c, data, w).fins;
    } else if !Drops(c, w) {
      BufferedSend(c, data, w);
    }
  }

  lemma WriteKeepsUnquiet(c: Conn, w: Write)
    requires ConnSpec.Inv(c) && Fits(w, |c.output|)
    requires c.fins != [] && ((exists n <- c.fins :: n != |c.wire|) || c.output != [])
    ensures var r := HandleWrite(c, w);
      r.fins != [] && ((exists n <- r.fins :: n != |r.wire|) || r.output != [])
  {
    hide HandleWrite;
    var r := HandleWrite(c, w);
    WriteShape(c, w);
    if n :| n in c.fins && n != |c.wire| {
      assert n < |r.wire|;
    } else {
      assert c.fins[0] in c.fins;
    }
  }

  lemma WriteShape(c: Conn, w: Write)
    requires Fits(w, |c.output|)
    ensures var r := HandleWrite(c, w);
      && |r.wire| >= |c.wire| && (forall n <- c.fins :: n in r.fins)
      && (|r.wire| == |c.wire| ==> r.output == c.output)
  {
  }

  lemma FinKeepsUnquiet(c: Conn)
    requires c.fins != [] && ((exists n <- c.fins :: n != |c.wire|) || c.output != [])
    ensures var r := ShutdownInLoop(c);
      r.fins != [] && ((exists n <- r.fins :: n != |r.wire|) || r.output != [])
  {
    if n :| n in c.fins && n != |c.wire| {
      assert n in ShutdownInLoop(c).fins;
    }
  }

  /** No step of the run does what `bad` says. */
  ghost predicate Never(s: Sys, actions: seq<Action>, bad: (Sys, Action) -> bool)
    decreases |actions|
  {
    actions != [] && Enabled(s, actions[0]) ==>
      !bad(s, actions[0]) && Never(Step(s, actions[0]), actions[1..], bad)
  }

  /** Over whole runs: every FIN is behind the last octet, with nothing left to send, exactly if no
      step of the run overtakes. */
  lemma {:induction false} FinIsLastIff(s: Sys, actions: seq<Action>, r: Sys)
    requires Inv(s) && Runs(s, actions, r)
    ensures Quiet(r) <==> Quiet(s) && Never(s, actions, Overtakes)
    decreases |actions|
  {
    hide Inv, Quiet, Step, Enabled, Overtakes;
    if actions != [] {
      var next := Step(s, actions[0]);
      StepKeepsInv(s, actions[0]);
      FinIsLastIff(next, actions[1..], r);
      if Quiet(s) {
        FinStaysLastIff(s, actions[0]);
      } else {
        UnquietStays(s, actions[0]);
      }
    }
  }

  // ---- sends on the loop thread ------------------------------------------------------------------

  /** All sends happen on the loop thread. */
  ghost predicate SendsOnLoop(actions: seq<Action>)
  {
    forall a <- actions :: !a.OffSend?
  }

  /** A queued shutdown finds the connection closed with octets waiting. */
  predicate TooLate(s: Sys, a: Action)
  {
    a.RunTask? && s.queue != [] && s.queue[0].DoShutdown? && s.conn.closed && s.conn.output != []
  }

  /** No message waits in the queue, and nothing switches write interest on again after a close. */
  ghost predicate NoneQueued(s: Sys)
  {
    (forall task <- s.queue :: !task.Deliver?) && (s.conn.closed ==> !s.conn.writing)
  }

  lemma StepKeepsNoneQueued(s: Sys, a: Action)
    requires Inv(s) && NoneQueued(s) && Enabled(s, a) && !a.OffSend?
    ensures NoneQueued(Step(s, a))
    ensures Overtakes(s, a) <==> TooLate(s, a)
  {
    hide InOrder;
    assert s.queue != [] ==> s.queue[0] in s.queue;
    match a {
      case LoopSend(data, w) => hide SendInLoop; SendKeepsInv(s.conn, data, w);
      case Writable(w) => hide HandleWrite; WriteOnlyOpens(s.conn, w);
      case _ =>
    }
  }

  lemma WriteOnlyOpens(c: Conn, w: Write)
    requires Fits(w, |c.output|)
    ensures HandleWrite(c, w).writing ==> c.writing
    ensures HandleWrite(c, w).closed == c.closed
  {
  }

  lemma {:induction false} LateIsOvertaken(s: Sys, actions: seq<Action>, r: Sys)
    requires Inv(s) && NoneQueued(s) && Runs(s, actions, r) && SendsOnLoop(actions)
    ensures Never(s, actions, Overtakes) <==> Never(s, actions, TooLate)
    decreases |actions|
  {
    hide Inv, NoneQueued, Step, Enabled, Overtakes, TooLate;
    if actions != [] {
      StepKeepsInv(s, actions[0]);
      StepKeepsNoneQueued(s, actions[0]);
      LateIsOvertaken(Step(s, actions[0]), actions[1..], r);
    }
  }

  /** With all sends on the loop thread, and shutdowns from anywhere: every kept octet is written
      before any FIN and none after it, exactly if no queued shutdown came to run on a closed
      connection with octets waiting. */
  lemma GracefulShutdown(mark: nat, highWater: bool, writeComplete: bool, actions: seq<Action>, r: Sys)
    requires SendsOnLoop(actions) && Runs(Init(mark, highWater, writeComplete), actions, r)
    ensures Quiet(r) <==> Never(Init(mark, highWater, writeComplete), actions, TooLate)
    ensures Quiet(r) && r.conn.fins != [] ==> r.conn.wire == Concat(KeptData(r.processed))
  {
    var s := Init(mark, highWater, writeComplete);
    InitInv(mark, highWater, writeComplete);
    RunKeepsInv(s, actions, r);
    FinIsLastIff(s, actions, r);
    LateIsOvertaken(s, actions, r);
    assert r.conn.wire + [] == r.conn.wire;
  }

  /** Sends and shutdowns all happen on the loop thread. */
  ghost predicate OnLoop(actions: seq<Action>)
  {
    SendsOnLoop(actions) && forall a <- actions :: a.BeginCall? ==> a.task != DoShutdown
  }

  ghost predicate NoShutdownQueued(s: Sys)
  {
    && (forall task <- s.queue :: task.DoForceClose?)
    && (forall t <- s.calls :: s.calls[t].task.DoForceClose?)
    && (s.conn.closed ==> !s.conn.writing)
    && |s.conn.fins| <= 1
    && (s.conn.fins != [] ==> s.conn.output == [])
  }

  lemma StepKeepsNoShutdownQueued(s: Sys, a: Action)
    requires Inv(s) && NoShutdownQueued(s) && Enabled(s, a)
    requires !a.OffSend? && (a.BeginCall? ==> a.task != DoShutdown)
    ensures NoShutdownQueued(Step(s, a)) && !Overtakes(s, a)
  {
    hide InOrder;
    assert s.queue != [] ==> s.queue[0] in s.queue;
    match a {
      case LoopSend(data, w) => hide SendInLoop; SendKeepsInv(s.conn, data, w);
      case Writable(w) => hide HandleWrite; WriteOnlyOpens(s.conn, w); FinOnceOnWrite(s.conn, w);
      case _ =>
    }
  }

  lemma FinOnceOnWrite(c: Conn, w: Write)
    requires ConnSpec.Inv(c) && Fits(w, |c.output|)
    ensures |HandleWrite(c, w).fins| <= |c.fins| + 1
    ensures c.output == [] ==> HandleWrite(c, w).fins == c.fins && HandleWrite(c, w).output == []
    ensures HandleWrite(c, w).fins != c.fins ==> HandleWrite(c, w).output == []
  {
  }

  /** With sends and shutdowns on the loop thread there is at most one FIN, behind every kept octet,
      and nothing follows it. */
  lemma {:induction false} OneFin(s: Sys, actions: seq<Action>, r: Sys)
    requires Inv(s) && NoShutdownQueued(s) && OnLoop(actions) && Runs(s, actions, r)
    ensures |r.conn.fins| <= 1
    ensures Never(s, actions, Overtakes)
    decreases |actions|
  {
    hide Inv, Step, Enabled, Overtakes;
    if actions != [] {
      StepKeepsInv(s, actions[0]);
      StepKeepsNoShutdownQueued(s, actions[0]);
      OneFin(Step(s, actions[0]), actions[1..], r);
    }
  }

  lemma ShutdownOnLoop(mark: nat, highWater: bool, writeComplete: bool, actions: seq<Action>, r: Sys)
    requires OnLoop(actions) && Runs(Init(mark, highWater, writeComplete), actions, r)
    ensures r.conn.fins == [] || (r.conn.fins == [|r.conn.wire|] && r.conn.output == [])
    ensures r.conn.fins != [] ==> r.conn.wire == Concat(KeptData(r.processed))
  {
    var s := Init(mark, highWater, writeComplete);
    InitInv(mark, highWater, writeComplete);
    RunKeepsInv(s, actions, r);
    OneFin(s, actions, r);
    FinIsLastIff(s, actions, r);
    assert r.conn.wire + [] == r.conn.wire;
    if r.conn.fins != [] {
      assert r.conn.fins[0] in r.conn.fins;
      assert r.conn.fins == [r.conn.fins[0]];
    }
  }

  // ---- the failures, reached ---------------------------------------------------------------------

  lemma RunsCons(s: Sys, a: Action, rest: seq<Action>, r: Sys)
    requires Enabled(s, a) && Runs(Step(s, a), rest, r)
    ensures Runs(s, [a] + rest, r)
  {
    assert ([a] + rest)[1..] == rest;
  }

  lemma {:induction false} RunsAppend(s: Sys, first: seq<Action>, m: Sys, second: seq<Action>, r: Sys)
    requires Runs(s, first, m) && Runs(m, second, r)
    ensures Runs(s, first + second, r)
    decreases |first|
  {
    hide Step, Enabled;
    if first == [] {
      assert first + second == second;
    } else {
      assert (first + second)[1..] == first[1..] + second;
      RunsAppend(Step(s, first[0]), first[1..], m, second, r);
    }
  }

  lemma RunsOne(s: Sys, a: Action)
    requires Enabled(s, a)
    ensures Runs(s, [a], Step(s, a))
  {
    assert Runs(Step(s, a), [a][1..], Step(s, a));
  }

  /** Another thread's message waits while the loop thread shuts the idle connection down. */
  lemma MessageBehindFin() returns (s: Sys, actions: seq<Action>)
    ensures Runs(Init(1, false, false), actions, s)
    ensures s.queue == [Deliver(Message(1, [7]))] && s.conn.state == Disconnecting && WritesDirectly(s.conn)
    ensures s.conn.wire == [] && s.conn.fins == [0] && !s.destroying
  {
    var s0 := Init(1, false, false);
    var s1 := Step(s0, Establish);
    var s2 := Step(s1, OffSend(1, [7]));
    s := Step(s2, LoopShutdown);
    actions := [Establish] + ([OffSend(1, [7])] + [LoopShutdown]);
    RunsOne(s2, LoopShutdown);
    RunsCons(s1, OffSend(1, [7]), [LoopShutdown], s);
    RunsCons(s0, Establish, [OffSend(1, [7])] + [LoopShutdown], s);
  }

  /** A message another thread sent before `shutdown()` is written behind the FIN. */
  lemma QueuedSendAfterFin()
    ensures exists actions, r :: Runs(Init(1, false, false), actions, r) && !Quiet(r)
  {
    hide Runs;
    var s, before := MessageBehindFin();
    var w := Wrote(1);
    assert SendInLoop(s.conn, [7], w).wire == [] + [7][..1];
    var r := Step(s, RunTask(w));
    assert 0 in r.conn.fins;
    RunsOne(s, RunTask(w));
    RunsAppend(Init(1, false, false), before, s, [RunTask(w)], r);
  }

  lemma OctetsWait() returns (s: Sys, actions: seq<Action>)
    ensures Runs(Init(1, false, false), actions, s) && SendsOnLoop(actions)
    ensures s.conn.state == Connected && s.conn.writing && s.conn.output == [7]
    ensures s.conn.wire == [] && s.conn.fins == [] && s.queue == [] && s.calls == map[] && !s.destroying
  {
    var s0 := Init(1, false, false);
    var s1 := Step(s0, Establish);
    s := Step(s1, LoopSend([7], Again));
    assert [] + [7][0..] == [7];
    actions := [Establish] + [LoopSend([7], Again)];
    RunsOne(s1, LoopSend([7], Again));
    RunsCons(s0, Establish, [LoopSend([7], Again)], s);
  }

  /** A hang-up between the test and the store of another thread's `shutdown()`. */
  lemma StoreOverClose(s: Sys) returns (r: Sys, actions: seq<Action>)
    requires s.conn.state == Connected && s.calls == map[] && s.queue == [] && !s.destroying
    ensures Runs(s, actions, r) && SendsOnLoop(actions)
    ensures r.conn == s.conn.(state := Disconnecting, closed := true, writing := false)
    ensures r.queue == [DoShutdown] && !r.destroying
  {
    var s3 := Step(s, BeginCall(1, DoShutdown));
    var s4 := Step(s3, HangUp);
    var s5 := Step(s4, StoreState(1));
    r := Step(s5, PushTask(1, DoShutdown));
    actions := [BeginCall(1, DoShutdown)] + ([HangUp] + ([StoreState(1)] + [PushTask(1, DoShutdown)]));
    RunsOne(s5, PushTask(1, DoShutdown));
    RunsCons(s4, StoreState(1), [PushTask(1, DoShutdown)], r);
    RunsCons(s3, HangUp, [StoreState(1)] + [PushTask(1, DoShutdown)], r);
    RunsCons(s, BeginCall(1, DoShutdown), [HangUp] + ([StoreState(1)] + [PushTask(1, DoShutdown)]), r);
  }

  /** Then the state says disconnecting again, but write interest is off while octets wait. */
  lemma CallOverClose() returns (s: Sys, actions: seq<Action>)
    ensures Runs(Init(1, false, false), actions, s) && SendsOnLoop(actions)
    ensures s.conn.state == Disconnecting && s.conn.closed && !s.conn.writing && s.conn.output == [7]
    ensures s.conn.wire == [] && s.conn.fins == [] && s.queue == [DoShutdown] && !s.destroying
  {
    hide Runs;
    var m, first := OctetsWait();
    var second;
    s, second := StoreOverClose(m);
    RunsAppend(Init(1, false, false), first, m, second, s);
    actions := first + second;
  }

  /** So the state alone does not say that write interest follows the buffer; that needs `closed`. */
  lemma InterestLost()
    ensures exists actions, r ::
      Runs(Init(1, false, false), actions, r) && r.conn.state != Disconnected && !r.conn.writing && r.conn.output != []
  {
    hide Runs;
    var s, before := CallOverClose();
  }

  /** And the queued shutdown then half-closes ahead of the waiting octets. */
  lemma LateShutdown()
    ensures exists actions, r :: Runs(Init(1, false, false), actions, r) && SendsOnLoop(actions) && !Quiet(r)
  {
    hide Runs;
    var s, before := CallOverClose();
    var last := RunTask(Again);
    var r := Step(s, last);
    assert r.conn.fins == [0] && r.conn.output == [7];
    RunsOne(s, last);
    RunsAppend(Init(1, false, false), before, s, [last], r);
  }
}
