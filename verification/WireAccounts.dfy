/** What each step of a connection does to the wire, to the logs, to the half-closes and to the notices,
    in terms of the connection's fields and the kernel's answers; and what that adds up to over runs. */
module WireAccounts {
  import opened Bytes
  import opened ConnSpec
  import opened Delivery

  /** The message the send path decides on in this step. */
  datatype Decision = Nothing | Decision(msg: Message)

  function Decided(s: Sys, a: Action): (d: Decision)
    requires Enabled(s, a)
  {
    match a
    case LoopSend(data, _) => if s.conn.state == Connected then Decision(Message(LOOP, data)) else Nothing
    case RunTask(_) => if s.queue[0].Deliver? then Decision(s.queue[0].msg) else Nothing
    case _ => Nothing
  }

  /** The step asks the kernel to write: a write event that is waited for, or a message that finds the
      connection not disconnected and nothing ahead of it. */
  predicate Writes(s: Sys, a: Action)
    requires Enabled(s, a)
  {
    if a.Writable? then s.conn.writing
    else Decided(s, a).Decision? && s.conn.state != Disconnected && !s.conn.writing && |s.conn.output| == 0
  }

  function Answer(a: Action): (w: Write)
  {
    match a
    case Writable(w) => w
    case LoopSend(_, w) => w
    case RunTask(w) => w
    case _ => Again
  }

  /** How many octets the kernel reported for the step's write call. */
  function Reported(s: Sys, a: Action): (n: nat)
    requires Enabled(s, a)
  {
    if Writes(s, a) && Answer(a).Wrote? then Answer(a).n else 0
  }

  predicate Lost(s: Sys, a: Action)
    requires Enabled(s, a)
  {
    Decided(s, a).Decision? && (s.conn.state == Disconnected || (Writes(s, a) && Answer(a).Broken?))
  }

  /** The octets the step adds to the stream. */
  function Added(s: Sys, a: Action): (data: seq<byte>)
    requires Enabled(s, a)
  {
    if Decided(s, a).Decision? && !Lost(s, a) then Decided(s, a).msg.data else []
  }

  /** A shutdown is carried out in this step. */
  predicate ShutsDown(s: Sys, a: Action)
    requires Enabled(s, a)
  {
    (a.RunTask? && s.queue[0].DoShutdown?) || (a.LoopShutdown? && s.conn.state == Connected)
  }

  /** The step empties the output buffer. */
  predicate Empties(s: Sys, a: Action)
    requires Enabled(s, a)
  {
    a.Writable? && s.conn.writing && a.w.Wrote? && a.w.n > 0 && a.w.n == |s.conn.output|
  }

  predicate HalfCloses(s: Sys, a: Action)
    requires Enabled(s, a)
  {
    (ShutsDown(s, a) && !s.conn.writing) || (Empties(s, a) && s.conn.state == Disconnecting)
  }

  /** The step reports that everything was written. */
  predicate Completes(s: Sys, a: Action)
    requires Enabled(s, a)
  {
    && s.conn.wantsWriteComplete
    && (Empties(s, a) || (Decided(s, a).Decision? && Writes(s, a) && Answer(a) == Wrote(|Decided(s, a).msg.data|)))
  }

  /** The waiting octets cross the high-water mark upward. */
  predicate Crosses(s: Sys, a: Action)
    requires Enabled(s, a)
  {
    && s.conn.wantsHighWater
    && |s.conn.output| < s.conn.mark <= |s.conn.output| + |Added(s, a)| - Reported(s, a)
    && |Added(s, a)| > Reported(s, a)
  }

  // ---- the two operations that write ---------------------------------------------------------------

  /** The octets in `taken` went from the front of `before` to the end of the wire, and `after` waits. */
  ghost predicate Moves(wire: seq<byte>, before: seq<byte>, wireAfter: seq<byte>, after: seq<byte>, n: nat)
  {
    n <= |before| && wireAfter == wire + before[..n] && after == before[n..]
  }

  /** A send by what the kernel took of it: with nothing ahead that goes to the wire and the rest waits;
      otherwise all waits behind what is there; a broken or closed connection takes nothing. */
  ghost predicate SentAs(c: Conn, r: Conn, data: seq<byte>, w: Write)
  {
    var direct := !c.writing && |c.output| == 0;
    && (c.state == Disconnected ==> r == c)
    && (c.state != Disconnected && direct && w.Broken? ==> r == c)
    && (c.state != Disconnected && direct && w.Wrote? ==> Moves(c.wire, data, r.wire, r.output, w.n))
    && (c.state != Disconnected && direct && (w.Again? || w.OtherError?) ==> r.wire == c.wire && r.output == data)
    && (c.state != Disconnected && !direct ==> r.wire == c.wire && r.output == c.output + data)
  }

  /** A write event by what the kernel took of the waiting octets. */
  ghost predicate WrittenAs(c: Conn, r: Conn, w: Write)
  {
    && (c.writing && w.Wrote? ==> Moves(c.wire, c.output, r.wire, r.output, w.n))
    && (!(c.writing && w.Wrote?) ==> r == c)
  }

  lemma SendMoves(c: Conn, data: seq<byte>, w: Write)
    requires Fits(w, |data|)
    ensures SentAs(c, SendInLoop(c, data, w), data, w)
  {
    assert data[0..] == data && data[..0] == [] && c.wire + [] == c.wire;
    assert forall n | 0 <= n <= |data| && c.output == [] :: c.output + data[n..] == data[n..];
    assert data == [] ==> c.output + data == c.output;
  }

  lemma WriteMoves(c: Conn, w: Write)
    requires Fits(w, |c.output|)
    ensures WrittenAs(c, HandleWrite(c, w), w)
  {
    assert c.output[0..] == c.output && c.output[..0] == [] && c.wire + [] == c.wire;
  }

  /** Steps that neither write nor decide on a message nor shut down. */
  predicate Idles(s: Sys, a: Action)
    requires Enabled(s, a)
  {
    !a.Writable? && Decided(s, a).Nothing? && !ShutsDown(s, a)
  }

  lemma IdleStep(s: Sys, a: Action)
    requires Enabled(s, a) && Idles(s, a)
    ensures var r := Step(s, a).conn;
      r.wire == s.conn.wire && r.output == s.conn.output && r.notices == s.conn.notices && r.fins == s.conn.fins
  {
    hide Fits, Passes;
    match a {
      case RunTask(_) => assert s.queue[0].DoForceClose?;
      case _ =>
    }
  }

  lemma ShutdownStep(s: Sys, a: Action)
    requires Enabled(s, a) && ShutsDown(s, a)
    ensures var r := Step(s, a).conn;
      && r.wire == s.conn.wire && r.output == s.conn.output && r.notices == s.conn.notices
      && r.fins == s.conn.fins + (if !s.conn.writing then [|s.conn.wire|] else [])
  {
    hide Fits, Passes;
    assert s.conn.fins + [] == s.conn.fins;
  }

  lemma DecidingStep(s: Sys, a: Action)
    requires Enabled(s, a) && Decided(s, a).Decision?
    ensures Step(s, a).conn == SendInLoop(s.conn, Decided(s, a).msg.data, Answer(a))
    ensures Fits(Answer(a), |Decided(s, a).msg.data|)
  {
    hide SendInLoop, Drops;
  }

  /** The wire grows at its end by exactly what the kernel reported, taken from the front of the waiting
      octets and the message of the step; the rest waits. */
  lemma StepMoves(s: Sys, a: Action)
    requires Enabled(s, a)
    ensures var r := Step(s, a).conn; Moves(s.conn.wire, s.conn.output + Added(s, a), r.wire, r.output, Reported(s, a))
  {
    hide Step, SendInLoop, HandleWrite;
    var c := s.conn;
    assert c.output + [] == c.output && c.output[..0] == [] && c.output[0..] == c.output && c.wire + [] == c.wire;
    if a.Writable? {
      WriteMoves(c, a.w);
      assert Step(s, a).conn == HandleWrite(c, a.w) by { WritableStep(s, a); }
    } else if ShutsDown(s, a) {
      ShutdownStep(s, a);
    } else if Idles(s, a) {
      IdleStep(s, a);
    } else {
      var data := Decided(s, a).msg.data;
      assert (c.output + data)[..0] == [] && (c.output + data)[0..] == c.output + data;
      assert c.output == [] ==> c.output + data == data;
      DecidingStep(s, a);
      SendMoves(c, data, Answer(a));
    }
  }

  lemma WritableStep(s: Sys, a: Action)
    requires Enabled(s, a) && a.Writable?
    ensures Step(s, a).conn == HandleWrite(s.conn, a.w)
  {
  }

  // ---- over runs -------------------------------------------------------------------------------------

  /** The counts the kernel reported for all write calls of a run. */
  ghost function AllReported(s: Sys, actions: seq<Action>): (n: nat)
    decreases |actions|
  {
    if actions == [] || !Enabled(s, actions[0]) then 0
    else Reported(s, actions[0]) + AllReported(Step(s, actions[0]), actions[1..])
  }

  /** The octets added to the stream in a run. */
  ghost function AllAdded(s: Sys, actions: seq<Action>): (data: seq<byte>)
    decreases |actions|
  {
    if actions == [] || !Enabled(s, actions[0]) then []
    else Added(s, actions[0]) + AllAdded(Step(s, actions[0]), actions[1..])
  }

  lemma MovesOn(wire: seq<byte>, one: seq<byte>, more: seq<byte>, w1: seq<byte>, o1: seq<byte>, n: nat, w2: seq<byte>, o2: seq<byte>, k: nat)
    requires Moves(wire, one, w1, o1, n) && Moves(w1, o1 + more, w2, o2, k)
    ensures Moves(wire, one + more, w2, o2, n + k)
  {
    var all := one + more;
    assert all[..n] == one[..n] && all[n..] == o1 + more;
    assert all[..n + k] == all[..n] + all[n..][..k];
    assert all[n + k..] == all[n..][k..];
    Reassociate(wire, one[..n], (o1 + more)[..k]);
  }

  /** Over every run: the octets on the wire are the first ones of the stream, as many as the kernel
      reported for the write calls that were made; no octet is written twice. */
  lemma {:induction false} WireIsReported(s: Sys, actions: seq<Action>, r: Sys)
    requires Runs(s, actions, r)
    ensures Moves(s.conn.wire, s.conn.output + AllAdded(s, actions), r.conn.wire, r.conn.output, AllReported(s, actions))
    ensures |r.conn.wire| == |s.conn.wire| + AllReported(s, actions)
    decreases |actions|
  {
    hide Step, Enabled, Reported, Added;
    if actions == [] {
      var o := s.conn.output;
      assert o + [] == o && o[..0] == [] && o[0..] == o && s.conn.wire + [] == s.conn.wire;
    } else {
      var m := Step(s, actions[0]);
      StepMoves(s, actions[0]);
      WireIsReported(m, actions[1..], r);
      MovesOn(s.conn.wire, s.conn.output + Added(s, actions[0]), AllAdded(m, actions[1..]),
              m.conn.wire, m.conn.output, Reported(s, actions[0]), r.conn.wire, r.conn.output, AllReported(m, actions[1..]));
      Reassociate(s.conn.output, Added(s, actions[0]), AllAdded(m, actions[1..]));
    }
  }

  // ---- the logs, the half-closes and the notices -----------------------------------------------------

  /** A message is decided on exactly in these steps, and dropped exactly in those; it counts as sent
      when the loop finds the connection connected, or when another thread pushes it. */
  lemma StepLogs(s: Sys, a: Action)
    requires Enabled(s, a)
    ensures var r := Step(s, a);
      && r.processed == s.processed + (if Decided(s, a).Decision? then [Done(Decided(s, a).msg, !Lost(s, a))] else [])
      && r.submitted == s.submitted + (if a.LoopSend? && s.conn.state == Connected then [Message(LOOP, a.data)]
                                       else if a.OffSend? then [Message(a.sender, a.data)]
                                       else [])
  {
    hide SendInLoop;
    assert s.processed + [] == s.processed && s.submitted + [] == s.submitted;
  }

  lemma SendNotices(c: Conn, data: seq<byte>, w: Write)
    requires Fits(w, |data|) && c.state != Disconnected
    ensures var direct := !c.writing && |c.output| == 0;
      var taken := if direct && w.Wrote? then w.n else 0;
      var complete := c.wantsWriteComplete && direct && w == Wrote(|data|);
      var kept := !(direct && w.Broken?);
      var high := kept && c.wantsHighWater && taken < |data| && |c.output| < c.mark <= |c.output| + |data| - taken;
      SendInLoop(c, data, w).notices == c.notices
        + (if complete then [WriteComplete] else [])
        + (if high then [HighWater(|c.output| + |data| - taken)] else [])
    ensures SendInLoop(c, data, w).fins == c.fins
  {
  }

  lemma WriteNotices(c: Conn, w: Write)
    requires Fits(w, |c.output|)
    ensures var drained := c.writing && w.Wrote? && w.n > 0 && w.n == |c.output|;
      && HandleWrite(c, w).notices == c.notices + (if drained && c.wantsWriteComplete then [WriteComplete] else [])
      && HandleWrite(c, w).fins == c.fins + (if drained && c.state == Disconnecting then [|c.wire| + w.n] else [])
  {
  }

  /** A FIN goes out exactly when a shutdown finds no write interest, or when the last waiting octet of a
      disconnecting connection is written; a write-complete notice exactly when the buffer runs empty or
      a direct write takes all; a high-water notice exactly when the waiting octets cross the mark. */
  lemma StepNotices(s: Sys, a: Action)
    requires Enabled(s, a)
    ensures var r := Step(s, a).conn;
      && r.fins == s.conn.fins + (if HalfCloses(s, a) then [|r.wire|] else [])
      && r.notices == s.conn.notices
           + (if Completes(s, a) then [WriteComplete] else [])
           + (if Crosses(s, a) then [HighWater(|r.output|)] else [])
  {
    hide Step, SendInLoop, HandleWrite;
    var c := s.conn;
    StepMoves(s, a);
    assert c.notices + [] + [] == c.notices + [] == c.notices && c.fins + [] == c.fins;
    if a.Writable? {
      WritableStep(s, a);
      WriteNotices(c, a.w);
    } else if ShutsDown(s, a) {
      ShutdownStep(s, a);
    } else if Idles(s, a) {
      IdleStep(s, a);
    } else {
      DecidingStep(s, a);
      if c.state == Disconnected {
        DroppedSend(c, Decided(s, a).msg.data, Answer(a));
      } else {
        SendNotices(c, Decided(s, a).msg.data, Answer(a));
      }
    }
  }

  /** A close: a hang-up, the destruction of a connected connection, or the task of a forced close on an
      open one. */
  predicate Shuts(s: Sys, a: Action)
    requires Enabled(s, a)
  {
    || a.HangUp? || a.DestroySet?
    || (a.RunTask? && s.queue[0].DoForceClose? && (s.conn.state == Connected || s.conn.state == Disconnecting))
  }

  /** The connection begins to disconnect: its own thread asks for it while it is connected, or open, or
      another thread stores the state. */
  predicate Begins(s: Sys, a: Action)
    requires Enabled(s, a)
  {
    || (a.LoopShutdown? && s.conn.state == Connected)
    || (a.LoopForceClose? && (s.conn.state == Connected || s.conn.state == Disconnecting))
    || a.StoreState?
  }

  lemma SameState(c: Conn, data: seq<byte>, w: Write)
    requires Fits(w, |data|)
    ensures SendInLoop(c, data, w).state == c.state && SendInLoop(c, data, w).closed == c.closed
  {
  }

  lemma SameStateWriting(c: Conn, w: Write)
    requires Fits(w, |c.output|)
    ensures HandleWrite(c, w).state == c.state && HandleWrite(c, w).closed == c.closed
  {
  }

  /** The states of the connection, and its tasks: what is queued goes to the end, what runs leaves the
      front. */
  lemma StepStates(s: Sys, a: Action)
    requires Enabled(s, a)
    ensures var r := Step(s, a);
      && r.conn.state == (if a.Establish? then Connected else if Shuts(s, a) then Disconnected
                          else if Begins(s, a) then Disconnecting else s.conn.state)
      && (r.conn.closed <==> s.conn.closed || Shuts(s, a))
      && (Shuts(s, a) ==> !r.conn.writing)
  {
    hide SendInLoop, ConnSpec.HandleWrite, Fits;
    match a {
      case LoopSend(data, w) => SameState(s.conn, data, w);
      case RunTask(w) =>
        if s.queue[0].Deliver? {
          SameState(s.conn, s.queue[0].msg.data, w);
        }
      case Writable(w) => SameStateWriting(s.conn, w);
      case _ =>
    }
  }

  lemma StepQueue(s: Sys, a: Action)
    requires Enabled(s, a)
    ensures Step(s, a).queue == (if a.RunTask? then s.queue[1..] else s.queue)
      + (if a.OffSend? then [Deliver(Message(a.sender, a.data))]
         else if a.LoopForceClose? && (s.conn.state == Connected || s.conn.state == Disconnecting) then [DoForceClose]
         else if a.PushTask? then [a.task]
         else [])
  {
    hide SendInLoop, ConnSpec.HandleWrite, Fits;
    assert s.queue + [] == s.queue;
    assert a.RunTask? ==> s.queue[1..] + [] == s.queue[1..];
  }

  // ---- what was asked for happens --------------------------------------------------------------------

  /** A shutdown was carried out and its FIN is out, or waits for the last octet, or a close came. */
  ghost predicate Owed(s: Sys)
  {
    s.conn.fins != [] || (s.conn.writing && s.conn.state == Disconnecting) || s.conn.closed
  }

  lemma StepKeepsOwed(s: Sys, a: Action)
    requires Delivery.Inv(s) && Owed(s) && Enabled(s, a)
    ensures Owed(Step(s, a))
  {
    hide InOrder, NoEarlyFin;
    match a {
      case Writable(w) => WriteNotices(s.conn, w);
      case LoopSend(data, w) => SendKeepsInv(s.conn, data, w);
      case RunTask(w) =>
        if s.queue[0].Deliver? {
          SendKeepsInv(s.conn, s.queue[0].msg.data, w);
          StillWriting(s.conn, s.queue[0].msg.data, w);
        }
      case _ =>
    }
  }

  lemma StillWriting(c: Conn, data: seq<byte>, w: Write)
    requires Fits(w, |data|)
    ensures c.writing ==> SendInLoop(c, data, w).writing
  {
  }

  lemma ShutdownOwes(s: Sys, a: Action)
    requires Delivery.Inv(s) && Enabled(s, a) && ShutsDown(s, a)
    ensures Owed(Step(s, a))
  {
    hide InOrder;
    assert a.RunTask? ==> s.queue[0] in s.queue;
  }

  lemma {:induction false} RunKeepsOwed(s: Sys, actions: seq<Action>, r: Sys)
    requires Delivery.Inv(s) && Owed(s) && Runs(s, actions, r)
    ensures Delivery.Inv(r) && Owed(r)
    decreases |actions|
  {
    hide Delivery.Inv, Owed, Step, Enabled;
    if actions != [] {
      StepKeepsInv(s, actions[0]);
      StepKeepsOwed(s, actions[0]);
      RunKeepsOwed(Step(s, actions[0]), actions[1..], r);
    }
  }

  /** Once a shutdown was carried out, whatever follows: unless a close came, the FIN is out, or octets
      still wait with write interest on. */
  lemma ShutdownGetsItsFin(mark: nat, highWater: bool, writeComplete: bool, before: seq<Action>, s: Sys, a: Action, after: seq<Action>, r: Sys)
    requires Runs(Init(mark, highWater, writeComplete), before, s) && Enabled(s, a) && ShutsDown(s, a)
    requires Runs(Step(s, a), after, r)
    ensures r.conn.closed || r.conn.fins != [] || (r.conn.writing && r.conn.output != [])
  {
    hide Step, Enabled, ShutsDown;
    InitInv(mark, highWater, writeComplete);
    RunKeepsInv(Init(mark, highWater, writeComplete), before, s);
    StepKeepsInv(s, a);
    ShutdownOwes(s, a);
    RunKeepsOwed(Step(s, a), after, r);
  }

  /** A forced close is only ever under way on a connection that was open. */
  ghost predicate Leaving(s: Sys)
  {
    DoForceClose in s.queue || (exists t <- s.calls :: s.calls[t] == Stored(DoForceClose)) ==>
      s.conn.state == Disconnecting || s.conn.state == Disconnected
  }

  lemma StepKeepsLeaving(s: Sys, a: Action)
    requires Leaving(s) && Enabled(s, a)
    ensures Leaving(Step(s, a))
  {
    hide SendInLoop, HandleWrite;
    match a {
      case RunTask(w) =>
        assert forall task <- s.queue[1..] :: task in s.queue;
        if s.queue[0].Deliver? {
          SameState(s.conn, s.queue[0].msg.data, w);
        }
      case LoopSend(data, w) => SameState(s.conn, data, w);
      case Writable(w) => SameStateWriting(s.conn, w);
      case _ =>
    }
  }

  lemma {:induction false} RunKeepsLeaving(s: Sys, actions: seq<Action>, r: Sys)
    requires Leaving(s) && Runs(s, actions, r)
    ensures Leaving(r)
    decreases |actions|
  {
    hide Leaving, Step, Enabled;
    if actions != [] {
      StepKeepsLeaving(s, actions[0]);
      RunKeepsLeaving(Step(s, actions[0]), actions[1..], r);
    }
  }

  /** In every run, the task of a forced close leaves the connection disconnected, without interest in
      write events. */
  lemma ForceCloseCloses(mark: nat, highWater: bool, writeComplete: bool, actions: seq<Action>, s: Sys, w: Write)
    requires Runs(Init(mark, highWater, writeComplete), actions, s)
    requires s.queue != [] && s.queue[0].DoForceClose? && Enabled(s, RunTask(w))
    ensures var c := Step(s, RunTask(w)).conn; c.state == Disconnected && c.closed && !c.writing
  {
    InitInv(mark, highWater, writeComplete);
    RunKeepsInv(Init(mark, highWater, writeComplete), actions, s);
    RunKeepsLeaving(Init(mark, highWater, writeComplete), actions, s);
    assert s.queue[0] in s.queue;
  }

  lemma StepDestroying(s: Sys, a: Action)
    requires Enabled(s, a)
    ensures Step(s, a).destroying <==>
      (a.DestroyTest? && s.conn.state == Connected) || (s.destroying && !a.DestroySet?)
  {
  }

  lemma {:induction false} StillDestroying(s: Sys, actions: seq<Action>, r: Sys)
    requires s.destroying && Runs(s, actions, r) && forall a <- actions :: Actor(a) != LOOP
    ensures r.destroying
    decreases |actions|
  {
    hide Step, Enabled;
    if actions != [] {
      StepDestroying(s, actions[0]);
      assert actions[0] in actions && forall a <- actions[1..] :: a in actions;
      StillDestroying(Step(s, actions[0]), actions[1..], r);
    }
  }

  /** A connection that is destroyed while it is connected ends disconnected, whatever other threads do
      between the test and the store. */
  lemma DestroyedCloses(s: Sys, others: seq<Action>, m: Sys)
    requires Enabled(s, DestroyTest) && s.conn.state == Connected
    requires Runs(Step(s, DestroyTest), others, m) && forall a <- others :: Actor(a) != LOOP
    ensures Enabled(m, DestroySet)
    ensures var c := Step(m, DestroySet).conn; c.state == Disconnected && c.closed && !c.writing
  {
    hide Runs;
    StepDestroying(s, DestroyTest);
    StillDestroying(Step(s, DestroyTest), others, m);
  }
}
