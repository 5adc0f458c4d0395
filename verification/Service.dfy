/** All connections of a gateway node at once: they come up, their octets arrive in any pieces and in any
    interleaving, they are closed after errors, and the gateway's callbacks run on the packets. */
module Service {
  import opened Bytes
  import opened NetBuffer
  import opened MqttWire
  import opened Framing
  import opened Ingress
  import opened Sessions
  import opened GatewayServer
  import FanOut

  /** The packets of one connection as steps of the session machine; `clock` says when each is handled. */
  function Packets(conn: DeviceManager.Conn, events: seq<Event>, clock: nat -> int): (r: seq<Sessions.Action>)
  {
    if events == [] then []
    else
      var n := |events| - 1;
      Packets(conn, events[..n], clock) + [Packet(conn, events[n], clock(n))]
  }

  /** The tables after the first packets, and the frames put on connection `c` meanwhile. */
  ghost function TablesAfter(g: Gate, conn: DeviceManager.Conn, events: seq<Event>, clock: nat -> int): (r: Gate)
    requires conn in g.alive
    ensures r.alive == g.alive
  {
    if events == [] then g
    else
      var n := |events| - 1;
      Step(TablesAfter(g, conn, events[..n], clock), Packet(conn, events[n], clock(n)))
  }

  ghost function EmitsAll(g: Gate, conn: DeviceManager.Conn, events: seq<Event>, clock: nat -> int, c: DeviceManager.Conn)
    : (frames: seq<Text>)
    requires conn in g.alive
  {
    if events == [] then []
    else
      var n := |events| - 1;
      EmitsAll(g, conn, events[..n], clock, c) + Emits(TablesAfter(g, conn, events[..n], clock), conn, events[n], c)
  }

  lemma {:induction false} RunsOn(g: Gate, actions: seq<Sessions.Action>, m: Gate, more: seq<Sessions.Action>, r: Gate)
    requires Runs(g, actions, m) && Runs(m, more, r)
    ensures Runs(g, actions + more, r)
    decreases |actions|
  {
    hide Step, Enabled;
    if actions == [] {
      assert [] + more == more;
    } else {
      assert (actions + more)[1..] == actions[1..] + more;
      RunsOn(Step(g, actions[0]), actions[1..], m, more, r);
    }
  }

  lemma RunsOne(g: Gate, a: Sessions.Action)
    requires Enabled(g, a)
    ensures Runs(g, [a], Step(g, a))
  {
    assert Runs(Step(g, a), [a][1..], Step(g, a));
  }

  lemma {:induction false} PacketsRun(g: Gate, conn: DeviceManager.Conn, events: seq<Event>, clock: nat -> int)
    requires conn in g.alive
    ensures Runs(g, Packets(conn, events, clock), TablesAfter(g, conn, events, clock))
  {
    hide Step;
    if events != [] {
      var n := |events| - 1;
      var m, a := TablesAfter(g, conn, events[..n], clock), Packet(conn, events[n], clock(n));
      PacketsRun(g, conn, events[..n], clock);
      RunsOne(m, a);
      RunsOn(g, Packets(conn, events[..n], clock), m, [a], Step(m, a));
    }
  }

  lemma OneMore(g: Gate, conn: DeviceManager.Conn, events: seq<Event>, clock: nat -> int, n: nat)
    requires conn in g.alive && n < |events|
    ensures var m := TablesAfter(g, conn, events[..n], clock);
      && TablesAfter(g, conn, events[..n + 1], clock) == Step(m, Packet(conn, events[n], clock(n)))
      && forall c :: EmitsAll(g, conn, events[..n + 1], clock, c)
                  == EmitsAll(g, conn, events[..n], clock, c) + Emits(m, conn, events[n], c)
  {
    assert events[..n + 1][..n] == events[..n];
  }

  /** The callbacks of one connection, in order. */
  method HandleAll(gw: Gateway, conn: DeviceManager.Conn, events: seq<Event>, clock: nat -> int)
    requires gw.Valid() && conn in gw.alive
    modifies gw, gw.deviceMgr
    ensures gw.Valid() && gw.View() == TablesAfter(old(gw.View()), conn, events, clock)
    ensures forall c :: gw.Out(c) == old(gw.Out(c)) + EmitsAll(old(gw.View()), conn, events, clock, c)
  {
    hide Step, Emits, EmitsAll, TablesAfter;
    ghost var g := gw.View();
    assert events[..0] == [];
    NothingHandled(g, conn, clock);
    var i := 0;
    while i < |events|
      invariant i <= |events| && gw.Valid()
      invariant gw.View() == TablesAfter(g, conn, events[..i], clock)
      invariant forall c :: gw.Out(c) == old(gw.Out(c)) + EmitsAll(g, conn, events[..i], clock, c)
    {
      ghost var m := gw.View();
      OneMore(g, conn, events, clock, i);
      gw.OnEvent(conn, events[i], clock(i));
      forall c
        ensures gw.Out(c) == old(gw.Out(c)) + EmitsAll(g, conn, events[..i + 1], clock, c)
      {
        Reassociate(old(gw.Out(c)), EmitsAll(g, conn, events[..i], clock, c), Emits(m, conn, events[i], c));
      }
      i := i + 1;
    }
    assert events[..i] == events;
  }

  lemma NothingHandled(g: Gate, conn: DeviceManager.Conn, clock: nat -> int)
    requires conn in g.alive
    ensures TablesAfter(g, conn, [], clock) == g && forall c :: EmitsAll(g, conn, [], clock, c) == []
  {
  }

  // ---- all connections -----------------------------------------------------------------------------

  /** The input of one connection: the octets no frame was made of yet, and whether the loop met an error
      and asked for the connection to be closed. */
  datatype Line = Line(rest: Text, failed: bool)

  datatype Hub = Hub(gate: Gate, lines: map<DeviceManager.Conn, Line>)

  datatype Input =
    | Accepts(conn: DeviceManager.Conn)
    | Reads(conn: DeviceManager.Conn, io: ReadResult, clock: nat -> int)
    | Closes(conn: DeviceManager.Conn) // a hang-up, or the task of a forced close
    | Sweeps(now: int)

  ghost predicate Coherent(h: Hub)
  {
    h.lines.Keys == h.gate.alive
  }

  /** The task of a forced close runs before the next poll, so that nothing is read after an error. */
  ghost predicate Possible(h: Hub, i: Input)
  {
    match i
    case Accepts(conn) => conn !in h.lines
    case Reads(conn, _, _) => conn in h.lines && !h.lines[conn].failed
    case Closes(conn) => conn in h.lines
    case Sweeps(_) => true
  }

  predicate Delivers(i: Input)
  {
    i.Reads? && i.io.Received? && i.io.octets != []
  }

  predicate Ending(i: Input)
  {
    i.Closes? || (i.Reads? && i.io == Received([]))
  }

  /** The steps of the session machine that an input amounts to. */
  ghost function Deeds(h: Hub, i: Input): (s: seq<Sessions.Action>)
    requires Possible(h, i)
  {
    if Ending(i) then [Down(i.conn)]
    else if Delivers(i) then
      var d := Drain(h.lines[i.conn].rest + i.io.octets);
      Packets(i.conn, d.events, i.clock) + if d.failed then [Closing(i.conn)] else []
    else
      match i
      case Accepts(conn) => [Up(conn)]
      case Sweeps(now) => [Sweep(now)]
      case _ => []
  }

  ghost function Next(h: Hub, i: Input): (r: Hub)
    requires Coherent(h) && Possible(h, i)
    ensures Coherent(r)
  {
    if Ending(i) then Hub(Step(h.gate, Down(i.conn)), h.lines - {i.conn})
    else if Delivers(i) then
      var d := Drain(h.lines[i.conn].rest + i.io.octets);
      var g := TablesAfter(h.gate, i.conn, d.events, i.clock);
      Hub(if d.failed then Step(g, Closing(i.conn)) else g, h.lines[i.conn := Line(d.rest, d.failed)])
    else
      match i
      case Accepts(conn) => Hub(Step(h.gate, Up(conn)), h.lines[conn := Line([], false)])
      case Sweeps(now) => Hub(Step(h.gate, Sweep(now)), h.lines)
      case _ => h
  }

  /** The frames an input puts on connection `c`. */
  ghost function Puts(h: Hub, i: Input, c: DeviceManager.Conn): (frames: seq<Text>)
    requires Coherent(h) && Possible(h, i)
  {
    if Delivers(i) then EmitsAll(h.gate, i.conn, Drain(h.lines[i.conn].rest + i.io.octets).events, i.clock, c) else []
  }

  lemma NextRuns(h: Hub, i: Input)
    requires Coherent(h) && Possible(h, i)
    ensures Runs(h.gate, Deeds(h, i), Next(h, i).gate)
  {
    hide Runs, Step, Drain, TablesAfter, Packets;
    var g := h.gate;
    if Ending(i) {
      RunsOne(g, Down(i.conn));
    } else if Delivers(i) {
      var d := Drain(h.lines[i.conn].rest + i.io.octets);
      var m := TablesAfter(g, i.conn, d.events, i.clock);
      PacketsRun(g, i.conn, d.events, i.clock);
      if d.failed {
        RunsOne(m, Closing(i.conn));
        RunsOn(g, Packets(i.conn, d.events, i.clock), m, [Closing(i.conn)], Step(m, Closing(i.conn)));
      } else {
        assert Packets(i.conn, d.events, i.clock) + [] == Packets(i.conn, d.events, i.clock);
      }
    } else {
      match i {
        case Accepts(conn) => RunsOne(g, Up(conn));
        case Sweeps(now) => RunsOne(g, Sweep(now));
        case _ => NoRun(g);
      }
    }
  }

  lemma NoRun(g: Gate)
    ensures Runs(g, [], g)
  {
  }

  // ---- whole histories -----------------------------------------------------------------------------

  ghost predicate Goes(inputs: seq<Input>)
    decreases |inputs|, 0
  {
    inputs != [] ==>
      var n := |inputs| - 1;
      Goes(inputs[..n]) && Possible(HubAfter(inputs[..n]), inputs[n])
  }

  ghost function HubAfter(inputs: seq<Input>): (h: Hub)
    requires Goes(inputs)
    ensures Coherent(h)
    decreases |inputs|, 1
  {
    if inputs == [] then Hub(INIT, map[])
    else
      var n := |inputs| - 1;
      Next(HubAfter(inputs[..n]), inputs[n])
  }

  ghost function AllDeeds(inputs: seq<Input>): (s: seq<Sessions.Action>)
    requires Goes(inputs)
  {
    if inputs == [] then []
    else
      var n := |inputs| - 1;
      AllDeeds(inputs[..n]) + Deeds(HubAfter(inputs[..n]), inputs[n])
  }

  ghost function AllPuts(inputs: seq<Input>, c: DeviceManager.Conn): (frames: seq<Text>)
    requires Goes(inputs)
  {
    if inputs == [] then []
    else
      var n := |inputs| - 1;
      AllPuts(inputs[..n], c) + Puts(HubAfter(inputs[..n]), inputs[n], c)
  }

  /** However the reads of many connections interleave, with errors, closes and sweeps in between, the
      history is a run of the session machine. */
  lemma {:induction false} HistoryIsRun(inputs: seq<Input>)
    requires Goes(inputs)
    ensures Runs(INIT, AllDeeds(inputs), HubAfter(inputs).gate)
  {
    hide Next, Deeds, Runs;
    if inputs == [] {
      NoRun(INIT);
    } else {
      var n := |inputs| - 1;
      var h := HubAfter(inputs[..n]);
      HistoryIsRun(inputs[..n]);
      NextRuns(h, inputs[n]);
      RunsOn(INIT, AllDeeds(inputs[..n]), h.gate, Deeds(h, inputs[n]), HubAfter(inputs).gate);
    }
  }

  /** The pieces that arrived on a connection since it came up. */
  function Chunks(inputs: seq<Input>, conn: DeviceManager.Conn): (r: seq<seq<byte>>)
  {
    if inputs == [] then []
    else
      var n := |inputs| - 1;
      if inputs[n] == Accepts(conn) then []
      else Chunks(inputs[..n], conn) + if Delivers(inputs[n]) && inputs[n].conn == conn then [inputs[n].io.octets] else []
  }

  /** What the session machine saw of a connection since it came up: its packets in order, and whether it
      was closed for an error. */
  datatype Seen = Seen(events: seq<Event>, closing: bool)

  function SeenOf(actions: seq<Sessions.Action>, conn: DeviceManager.Conn): (s: Seen)
  {
    if actions == [] then Seen([], false)
    else
      var n := |actions| - 1;
      var before := SeenOf(actions[..n], conn);
      match actions[n]
      case Up(c) => if c == conn then Seen([], false) else before
      case Packet(c, event, _) => if c == conn then before.(events := before.events + [event]) else before
      case Closing(c) => if c == conn then before.(closing := true) else before
      case _ => before
  }

  lemma SeenSnoc(actions: seq<Sessions.Action>, a: Sessions.Action, conn: DeviceManager.Conn)
    ensures var before := SeenOf(actions, conn);
      SeenOf(actions + [a], conn) ==
        if a == Up(conn) then Seen([], false)
        else if a.Packet? && a.conn == conn then before.(events := before.events + [a.event])
        else if a == Closing(conn) then before.(closing := true)
        else before
  {
    assert (actions + [a])[..|actions|] == actions;
  }

  lemma {:induction false} SeenPackets(actions: seq<Sessions.Action>, c: DeviceManager.Conn, events: seq<Event>, clock: nat -> int, conn: DeviceManager.Conn)
    ensures var before := SeenOf(actions, conn);
      SeenOf(actions + Packets(c, events, clock), conn)
        == if c == conn then before.(events := before.events + events) else before
    decreases |events|
  {
    hide SeenOf;
    var before := SeenOf(actions, conn);
    if events == [] {
      assert actions + [] == actions;
      assert before.events + [] == before.events;
    } else {
      var n := |events| - 1;
      var front, a := Packets(c, events[..n], clock), Packet(c, events[n], clock(n));
      SeenPackets(actions, c, events[..n], clock, conn);
      Reassociate(actions, front, [a]);
      SeenSnoc(actions + front, a, conn);
      assert events == events[..n] + [events[n]];
      Reassociate(before.events, events[..n], [events[n]]);
    }
  }

  /** What the session machine has seen of a connection, and what is left of its input, is what parsing
      its octets in one piece gives. */
  ghost predicate Parsed(h: Hub, actions: seq<Sessions.Action>, chunks: seq<seq<byte>>, conn: DeviceManager.Conn)
  {
    var whole := Drain(Concat(chunks));
    && SeenOf(actions, conn) == Seen(whole.events, whole.failed)
    && (conn in h.lines ==> h.lines[conn] == Line(whole.rest, whole.failed))
  }

  lemma ParsedFurther(h: Hub, i: Input, actions: seq<Sessions.Action>, chunks: seq<seq<byte>>, conn: DeviceManager.Conn)
    requires Coherent(h) && Possible(h, i) && Delivers(i) && Parsed(h, actions, chunks, conn)
    ensures Parsed(Next(h, i), actions + Deeds(h, i), if i.conn == conn then chunks + [i.io.octets] else chunks, conn)
  {
    hide Drain, TablesAfter, Step, SeenOf, Packets;
    var d := Drain(h.lines[i.conn].rest + i.io.octets);
    var packets := Packets(i.conn, d.events, i.clock);
    SeenPackets(actions, i.conn, d.events, i.clock, conn);
    if i.conn == conn {
      OnePieceMore(chunks, i.io.octets);
    }
    if d.failed {
      SeenSnoc(actions + packets, Closing(i.conn), conn);
      Reassociate(actions, packets, [Closing(i.conn)]);
    } else {
      assert packets + [] == packets;
    }
  }

  lemma ParsedStill(h: Hub, i: Input, actions: seq<Sessions.Action>, chunks: seq<seq<byte>>, conn: DeviceManager.Conn)
    requires Coherent(h) && Possible(h, i) && !Delivers(i) && Parsed(h, actions, chunks, conn)
    ensures Parsed(Next(h, i), actions + Deeds(h, i), if i == Accepts(conn) then [] else chunks, conn)
  {
    hide Drain, Step, SeenOf;
    assert actions + [] == actions;
    DrainNothing();
    if Ending(i) {
      SeenSnoc(actions, Down(i.conn), conn);
    } else {
      match i {
        case Accepts(c) => SeenSnoc(actions, Up(c), conn);
        case Sweeps(now) => SeenSnoc(actions, Sweep(now), conn);
        case _ =>
      }
    }
  }

  /** However the reads of many connections interleave: what the session machine sees of each connection
      is exactly what parsing that connection's octets in one piece gives, in order, and the connection
      is closed for an error exactly if that parsing meets one. */
  lemma {:induction false} EachStreamParsed(inputs: seq<Input>, conn: DeviceManager.Conn)
    requires Goes(inputs)
    ensures Parsed(HubAfter(inputs), AllDeeds(inputs), Chunks(inputs, conn), conn)
  {
    hide Next, Deeds, Parsed;
    if inputs == [] {
      NothingParsed(conn);
    } else {
      var n := |inputs| - 1;
      var h := HubAfter(inputs[..n]);
      EachStreamParsed(inputs[..n], conn);
      var chunks := Chunks(inputs[..n], conn);
      assert chunks + [] == chunks;
      if Delivers(inputs[n]) {
        ParsedFurther(h, inputs[n], AllDeeds(inputs[..n]), chunks, conn);
      } else {
        ParsedStill(h, inputs[n], AllDeeds(inputs[..n]), chunks, conn);
      }
    }
  }

  lemma NothingParsed(conn: DeviceManager.Conn)
    ensures Parsed(Hub(INIT, map[]), [], [], conn)
  {
    DrainNothing();
  }

  lemma HistorySnoc(inputs: seq<Input>, i: Input)
    requires Goes(inputs) && Possible(HubAfter(inputs), i)
    ensures Goes(inputs + [i]) && HubAfter(inputs + [i]) == Next(HubAfter(inputs), i)
    ensures forall c :: AllPuts(inputs + [i], c) == AllPuts(inputs, c) + Puts(HubAfter(inputs), i, c)
  {
    hide Next, Puts, Possible;
    assert (inputs + [i])[..|inputs|] == inputs;
  }

  // ---- the node ------------------------------------------------------------------------------------

  /** The input of no other connection changed. */
  ghost predicate OthersKept(before: Hub, now: Hub, conn: DeviceManager.Conn)
  {
    && (forall d <- before.lines | d != conn :: d in now.lines && now.lines[d] == before.lines[d])
    && (forall d <- now.lines | d != conn :: d in before.lines)
  }

  lemma OthersLines(h: Hub, i: Input)
    requires Coherent(h) && Possible(h, i) && !i.Sweeps?
    ensures OthersKept(h, Next(h, i), i.conn)
  {
  }

  lemma ReadNext(h: Hub, i: Input)
    requires Coherent(h) && Possible(h, i) && Delivers(i)
    ensures var d := Drain(h.lines[i.conn].rest + i.io.octets); var r := Next(h, i);
      && i.conn in r.lines && r.lines[i.conn] == Line(d.rest, d.failed)
      && (var g := TablesAfter(h.gate, i.conn, d.events, i.clock);
          r.gate == if d.failed then Step(g, Closing(i.conn)) else g)
      && forall c :: Puts(h, i, c) == EmitsAll(h.gate, i.conn, d.events, i.clock, c)
  {
  }

  lemma QuietNext(h: Hub, i: Input)
    requires Coherent(h) && Possible(h, i) && i.Reads? && !Delivers(i)
    ensures Next(h, i) == if i.io.Received? then Hub(Step(h.gate, Down(i.conn)), h.lines - {i.conn}) else h
    ensures forall c :: Puts(h, i, c) == []
  {
  }

  ghost function LineOf(side: InputSide): (line: Line)
    requires side.input.Valid()
    reads side, side.input, side.input.data
  {
    Line(side.input.Contents(), side.closing)
  }

  /** The gateway as its connections call it. Every connection owns its input side. The codec that all
      connections share there has no state but its callbacks, so every side has its own here. */
  class Host {
    const gw: Gateway
    /** Everything so far. */
    ghost var inputs: seq<Input>

    ghost predicate Valid()
      reads this, gw, gw.deviceMgr
    {
      && gw.Valid() && Goes(inputs) && gw.View() == HubAfter(inputs).gate
      && forall c :: gw.Out(c) == AllPuts(inputs, c)
    }

    /** This is the input side of this connection, and the connection is up. */
    ghost predicate Serves(conn: DeviceManager.Conn, side: InputSide)
      requires Goes(inputs)
      reads this, side, side.input, side.input.data
    {
      side.input.Valid() && conn in HubAfter(inputs).lines && HubAfter(inputs).lines[conn] == LineOf(side)
    }

    constructor ()
      ensures Valid() && inputs == [] && fresh(gw) && fresh(gw.deviceMgr)
    {
      gw := new Gateway();
      inputs := [];
    }

    /** The tables are those of a run of the session machine, in which every connection's packets are what
        parsing its octets in one piece gives. */
    lemma EveryStreamServed(conn: DeviceManager.Conn)
      requires Valid()
      ensures Runs(INIT, AllDeeds(inputs), gw.View())
      ensures var whole := Drain(Concat(Chunks(inputs, conn)));
        SeenOf(AllDeeds(inputs), conn) == Seen(whole.events, whole.failed)
    {
      HistoryIsRun(inputs);
      EachStreamParsed(inputs, conn);
    }

    /** A step of the hub that was made on the real objects is entered into the history. */
    ghost method Note(i: Input)
      requires gw.Valid() && Goes(inputs) && Possible(HubAfter(inputs), i)
      requires gw.View() == Next(HubAfter(inputs), i).gate
      requires forall c :: gw.Out(c) == AllPuts(inputs, c) + Puts(HubAfter(inputs), i, c)
      modifies this`inputs
      ensures Valid() && inputs == old(inputs) + [i]
      ensures HubAfter(inputs) == Next(old(HubAfter(inputs)), i)
    {
      hide Next, Puts, Possible, HubAfter, AllPuts, Goes;
      HistorySnoc(inputs, i);
      inputs := inputs + [i];
    }

    method Accept(conn: DeviceManager.Conn) returns (side: InputSide)
      requires Valid() && conn !in HubAfter(inputs).lines
      modifies this, gw, gw.deviceMgr
      ensures Valid() && inputs == old(inputs) + [Accepts(conn)]
      ensures fresh(side) && fresh(side.codec) && fresh(side.input) && fresh(side.input.data) && Serves(conn, side)
      ensures OthersKept(old(HubAfter(inputs)), HubAfter(inputs), conn)
    {
      hide HubAfter, AllPuts, Goes, Step;
      side := new InputSide();
      gw.OnConnection(conn, true);
      Note(Accepts(conn));
    }

    /** `handleClose`, with the connection callback. */
    method HandleClose(conn: DeviceManager.Conn)
      requires Valid() && conn in HubAfter(inputs).lines
      modifies this, gw, gw.deviceMgr
      ensures Valid() && inputs == old(inputs) + [Closes(conn)]
      ensures conn !in HubAfter(inputs).lines && OthersKept(old(HubAfter(inputs)), HubAfter(inputs), conn)
    {
      hide HubAfter, AllPuts, Goes, Step;
      gw.OnConnection(conn, false);
      Note(Closes(conn));
    }

    method StartHeartbeatCheck(now: int)
      requires Valid()
      modifies this, gw, gw.deviceMgr
      ensures Valid() && inputs == old(inputs) + [Sweeps(now)]
      ensures HubAfter(inputs).lines == old(HubAfter(inputs).lines)
    {
      hide HubAfter, AllPuts, Goes, Step;
      gw.StartHeartbeatCheck(now);
      Note(Sweeps(now));
    }

    /** `handleRead` of one connection: the packets that its octets complete are handled at once, an
        error asks for the close, the end of the stream closes. */
    method HandleRead(conn: DeviceManager.Conn, side: InputSide, io: ReadResult, clock: nat -> int)
      requires Valid() && Serves(conn, side) && !side.closing && FitsRead(io, side.input.WritableBytes())
      modifies this, gw, gw.deviceMgr, side, side.codec, side.input, side.input.data
      ensures Valid() && inputs == old(inputs) + [Reads(conn, io, clock)]
      ensures io == Received([]) || Serves(conn, side)
      ensures side.input.Valid() && (side.input.data == old(side.input.data) || fresh(side.input.data))
      ensures OthersKept(old(HubAfter(inputs)), HubAfter(inputs), conn)
    {
      hide HubAfter, AllPuts, Goes, Step, Drain, TablesAfter, EmitsAll, Next, Puts;
      ghost var i := Reads(conn, io, clock);
      ghost var h := HubAfter(inputs);
      OthersLines(h, i);
      var n := |side.codec.fired|;
      side.HandleRead(io);
      if io.Received? && io.octets != [] {
        ReadNext(h, i);
        HandleAll(gw, conn, side.codec.fired[n..], clock);
        if side.closing {
          gw.ForceClose(conn);
        }
      } else {
        QuietNext(h, i);
        if io.Received? {
          gw.OnConnection(conn, false);
        }
      }
      Note(i);
    }
  }

  /** Every publication in the stream, whatever its octets, is forwarded in a frame that its receivers
      read as the same topic and payload at QoS 0. */
  lemma {:induction false} PublicationsDecode(s: seq<byte>, e: Event, suffix: seq<byte>)
    requires e in Drain(s).events && e.Published?
    ensures var p := Forwarded(e.topic, e.body);
      NextFrame(Encode(p) + suffix)
        == Frame(|Encode(p)|, Accepted([Published(e.topic, e.body, 0, false, 0)]))
    decreases |s|
  {
    hide ParseBody, Encode;
    var r := NextFrame(s);
    if r.Frame? && r.outcome.Accepted? {
      if e in r.outcome.events {
        OneEvent(s);
        FanOut.ForwardedFrameDecodes(s, r.total, e, suffix);
      } else {
        PublicationsDecode(s[r.total..], e, suffix);
      }
    }
  }

  /** A frame fires at most one callback. */
  lemma OneEvent(s: seq<byte>)
    ensures var r := NextFrame(s); r.Frame? && r.outcome.Accepted? ==> |r.outcome.events| <= 1
  {
  }
}
