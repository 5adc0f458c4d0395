/** Which client a connection speaks for, and which connection a client is reached on: the tables
    of one gateway node as its callbacks change them, one atomic callback at a time. */
module Sessions {
  import opened Bytes
  import opened DeviceManager
  import opened MqttWire

  /** `owner` is `g_connClientMap`. `alive` are the connections that came up and did not go down,
      `open` those of them that still report `connected()`. */
  datatype Gate = Gate(
    devices: map<Client, Device>, pairs: set<(Client, Topic)>, owner: map<Conn, Client>,
    alive: set<Conn>, open: set<Conn>)

  const INIT: Gate := Gate(map[], {}, map[], {}, {})

  datatype Action =
    | Up(conn: Conn)
    | Closing(conn: Conn)
    | Down(conn: Conn)
    | Packet(conn: Conn, event: Event, now: int)
    | Sweep(now: int)

  ghost predicate Enabled(g: Gate, a: Action)
  {
    match a
    case Up(conn) => conn !in g.alive
    case Closing(conn) => conn in g.alive
    case Down(conn) => conn in g.alive
    case Packet(conn, _, _) => conn in g.alive
    case Sweep(_) => true
  }

  /** `deviceOffline` */
  ghost function Offline(g: Gate, gone: set<Client>): (r: Gate)
  {
    g.(devices := g.devices - gone, pairs := Without(g.pairs, gone))
  }

  /** The common part of a DISCONNECT packet and of a closed connection. */
  ghost function Leave(g: Gate, conn: Conn): (r: Gate)
  {
    if conn in g.owner then Offline(g, {g.owner[conn]}).(owner := g.owner - {conn}) else g
  }

  ghost function Join(g: Gate, conn: Conn, p: ConnectPayload, now: int): (r: Gate)
  {
    var id := p.texts.clientId;
    g.(devices := g.devices[id := Device(p.texts.username, p.keepAlive, now, now, conn)],
       owner := g.owner[conn := id])
  }

  ghost function Wanted(client: Client, filters: seq<TopicFilter>): (r: set<(Client, Topic)>)
  {
    set f | f in filters :: (client, f.topic)
  }

  ghost function Heard(g: Gate, conn: Conn, now: int): (r: Gate)
  {
    if conn in g.owner && g.owner[conn] in g.devices then
      var id := g.owner[conn];
      g.(devices := g.devices[id := g.devices[id].(lastHeartbeat := now)])
    else g
  }

  ghost function LateDevices(g: Gate, now: int): (late: set<Client>)
  {
    set c | c in g.devices && Manager.Late(g.devices[c], now)
  }

  ghost function OnPacket(g: Gate, conn: Conn, event: Event, now: int): (r: Gate)
  {
    match event
    case Connected(p) => Join(g, conn, p, now)
    case Subscribed(_, filters) =>
      if conn in g.owner then g.(pairs := g.pairs + Wanted(g.owner[conn], filters)) else g
    case Pinged => Heard(g, conn, now)
    case Disconnected => Leave(g, conn)
    case _ => g
  }

  ghost function Step(g: Gate, a: Action): (r: Gate)
    requires Enabled(g, a)
  {
    match a
    case Up(conn) => g.(alive := g.alive + {conn}, open := g.open + {conn})
    case Closing(conn) => g.(open := g.open - {conn})
    case Down(conn) => Leave(g.(alive := g.alive - {conn}, open := g.open - {conn}), conn)
    case Packet(conn, event, now) => OnPacket(g, conn, event, now)
    case Sweep(now) => Offline(g, LateDevices(g, now))
  }

  ghost predicate Runs(g: Gate, actions: seq<Action>, r: Gate)
    decreases |actions|
  {
    if actions == [] then r == g
    else Enabled(g, actions[0]) && Runs(Step(g, actions[0]), actions[1..], r)
  }

  /** Every registered device is reached on a connection that is alive and speaks for it. */
  ghost predicate Session(g: Gate)
  {
    && (forall c <- g.devices :: g.devices[c].connection in g.owner && g.owner[g.devices[c].connection] == c)
    && g.owner.Keys <= g.alive
    && g.open <= g.alive
  }

  /** A CONNECT on a connection that already speaks for another, still reachable, client. */
  ghost predicate Usurps(g: Gate, conn: Conn, client: Client)
  {
    && conn in g.owner && g.owner[conn] != client
    && g.owner[conn] in g.devices && g.devices[g.owner[conn]].connection == conn
  }

  /** A CONNECT keeps the session tables consistent exactly when it does not leave such a client
      behind. */
  lemma ConnectKeepsSessionIff(g: Gate, conn: Conn, p: ConnectPayload, now: int)
    requires Session(g) && conn in g.alive
    ensures Session(Join(g, conn, p, now)) <==> !Usurps(g, conn, p.texts.clientId)
  {
    var id := p.texts.clientId;
    var r := Join(g, conn, p, now);
    if Usurps(g, conn, id) {
      assert g.owner[conn] in r.devices && r.owner[conn] == id;
    } else {
      forall c | c in r.devices
        ensures r.devices[c].connection in r.owner && r.owner[r.devices[c].connection] == c
      {
        if c != id {
          assert g.devices[c].connection in g.owner && g.owner[g.devices[c].connection] == c;
        }
      }
    }
  }

  lemma StepKeepsSession(g: Gate, a: Action)
    requires Session(g) && Enabled(g, a)
    requires a.Packet? && a.event.Connected? ==> !Usurps(g, a.conn, a.event.payload.texts.clientId)
    ensures Session(Step(g, a))
  {
    if a.Packet? && a.event.Connected? {
      ConnectKeepsSessionIff(g, a.conn, a.event.payload, a.now);
    }
  }

  /** No CONNECT leaves a reachable client of its own connection behind. */
  ghost predicate NoUsurper(g: Gate, actions: seq<Action>)
    decreases |actions|
  {
    actions != [] && Enabled(g, actions[0]) ==>
      && (var a := actions[0];
          a.Packet? && a.event.Connected? ==> !Usurps(g, a.conn, a.event.payload.texts.clientId))
      && NoUsurper(Step(g, actions[0]), actions[1..])
  }

  lemma {:induction false} RunKeepsSession(g: Gate, actions: seq<Action>, r: Gate)
    requires Session(g) && Runs(g, actions, r) && NoUsurper(g, actions)
    ensures Session(r)
    decreases |actions|
  {
    if actions != [] {
      StepKeepsSession(g, actions[0]);
      RunKeepsSession(Step(g, actions[0]), actions[1..], r);
    }
  }

  /** Over any such run: a connection that goes down is referred to by no device
      entry and by no table afterwards. */
  lemma DownForgetsConnection(actions: seq<Action>, g: Gate, conn: Conn)
    requires Runs(INIT, actions, g) && NoUsurper(INIT, actions) && conn in g.alive
    ensures var r := Step(g, Down(conn));
      && conn !in r.owner
      && (forall c <- r.devices :: r.devices[c].connection != conn)
      && Session(r)
  {
    RunKeepsSession(INIT, actions, g);
    StepKeepsSession(g, Down(conn));
  }

  /** What the close of an old connection takes down with it: the devices reached elsewhere all stay
      registered exactly when the client it speaks for has not moved to a newer connection. */
  lemma DownSparesOthersIff(g: Gate, conn: Conn)
    requires Session(g) && conn in g.alive
    ensures (forall c <- g.devices | g.devices[c].connection != conn :: c in Step(g, Down(conn)).devices)
      <==> !(conn in g.owner && g.owner[conn] in g.devices && g.devices[g.owner[conn]].connection != conn)
  {
    var r := Step(g, Down(conn));
    if conn in g.owner && g.owner[conn] in g.devices && g.devices[g.owner[conn]].connection != conn {
      assert g.owner[conn] !in r.devices;
    }
  }

  ghost predicate SessionThroughout(g: Gate, actions: seq<Action>)
    decreases |actions|
  {
    && Session(g)
    && (actions != [] && Enabled(g, actions[0]) ==> SessionThroughout(Step(g, actions[0]), actions[1..]))
  }

  /** Over any run: the tables are consistent after every prefix if and only if no
      CONNECT leaves a reachable client of its own connection behind. */
  lemma {:induction false} SessionHoldsIff(g: Gate, actions: seq<Action>, r: Gate)
    requires Session(g) && Runs(g, actions, r)
    ensures SessionThroughout(g, actions) <==> NoUsurper(g, actions)
    decreases |actions|
  {
    hide Session, Usurps;
    if actions != [] {
      var a := actions[0];
      if a.Packet? && a.event.Connected? && Usurps(g, a.conn, a.event.payload.texts.clientId) {
        ConnectKeepsSessionIff(g, a.conn, a.event.payload, a.now);
      } else {
        StepKeepsSession(g, a);
        SessionHoldsIff(Step(g, a), actions[1..], r);
      }
    }
  }

  // ---- which closes take others down ---------------------------------------------------------------

  /** Whichever connection closes next, the devices reached elsewhere stay registered. */
  ghost predicate Spares(g: Gate)
  {
    forall conn, c | conn in g.alive && c in g.devices && g.devices[c].connection != conn ::
      c in Step(g, Down(conn)).devices
  }

  /** A CONNECT for a client that another connection speaks for. */
  ghost predicate TakesOver(g: Gate, a: Action)
  {
    && a.Packet? && a.event.Connected?
    && exists k <- g.owner :: k != a.conn && g.owner[k] == a.event.payload.texts.clientId
  }

  ghost predicate SparesThroughout(g: Gate, actions: seq<Action>)
    decreases |actions|
  {
    && Spares(g)
    && (actions != [] && Enabled(g, actions[0]) ==> SparesThroughout(Step(g, actions[0]), actions[1..]))
  }

  ghost predicate NoTakeover(g: Gate, actions: seq<Action>)
    decreases |actions|
  {
    actions != [] && Enabled(g, actions[0]) ==>
      !TakesOver(g, actions[0]) && NoTakeover(Step(g, actions[0]), actions[1..])
  }

  /** No two connections speak for one client. */
  ghost predicate Injective(g: Gate)
  {
    forall k, l | k in g.owner && l in g.owner && g.owner[k] == g.owner[l] :: k == l
  }

  lemma InjectiveSpares(g: Gate)
    requires Session(g) && Injective(g)
    ensures Spares(g)
  {
    forall conn, c | conn in g.alive && c in g.devices && g.devices[c].connection != conn
      ensures c in Step(g, Down(conn)).devices
    {
      assert g.devices[c].connection in g.owner && g.owner[g.devices[c].connection] == c;
    }
  }

  lemma StepKeepsInjective(g: Gate, a: Action)
    requires Injective(g) && Enabled(g, a) && !TakesOver(g, a)
    ensures Injective(Step(g, a))
  {
  }

  /** After the take-over the old connection's close removes the session of the new one. */
  lemma TakeoverBreaks(g: Gate, a: Action)
    requires Session(g) && Enabled(g, a) && TakesOver(g, a)
    ensures !Spares(Step(g, a))
  {
    var r := Step(g, a);
    var id := a.event.payload.texts.clientId;
    var k :| k in g.owner && k != a.conn && g.owner[k] == id;
    assert k in r.alive && id in r.devices && r.devices[id].connection != k;
    assert id !in Step(r, Down(k)).devices;
  }

  /** Over whole runs in which no CONNECT leaves a reachable client of its own connection behind: after
      every prefix every possible close spares the devices reached elsewhere, if and only if no CONNECT
      names a client that another connection speaks for. */
  lemma {:induction false} ClosesSpareOthersIff(g: Gate, actions: seq<Action>, r: Gate)
    requires Session(g) && Injective(g) && Runs(g, actions, r) && NoUsurper(g, actions)
    ensures SparesThroughout(g, actions) <==> NoTakeover(g, actions)
    decreases |actions|
  {
    hide Session, Injective, Step, Spares, TakesOver, Usurps;
    InjectiveSpares(g);
    if actions != [] {
      var a := actions[0];
      StepKeepsSession(g, a);
      if TakesOver(g, a) {
        TakeoverBreaks(g, a);
      } else {
        StepKeepsInjective(g, a);
        ClosesSpareOthersIff(Step(g, a), actions[1..], r);
      }
    }
  }

  /** The same from the start. */
  lemma OldCloseSparesNewSessionIff(actions: seq<Action>, r: Gate)
    requires Runs(INIT, actions, r) && NoUsurper(INIT, actions)
    ensures SparesThroughout(INIT, actions) <==> NoTakeover(INIT, actions)
  {
    ClosesSpareOthersIff(INIT, actions, r);
  }

  /** In a consistent state at most one client is reached on a connection. */
  lemma OneClientPerConnection(g: Gate, c: Client, d: Client)
    requires Session(g) && c in g.devices && d in g.devices
    requires g.devices[c].connection == g.devices[d].connection
    ensures c == d
  {
  }

  // ---- the failures, reached -----------------------------------------------------------------------

  function Hello(id: Client): (e: Event)
  {
    Connected(ConnectPayload([], 4, 0, 60, ConnectTexts(id, [], [], [], [])))
  }

  lemma RunsCons(g: Gate, a: Action, rest: seq<Action>, r: Gate)
    requires Enabled(g, a) && Runs(Step(g, a), rest, r)
    ensures Runs(g, [a] + rest, r)
  {
    assert ([a] + rest)[1..] == rest;
  }

  lemma NoUsurperCons(g: Gate, a: Action, rest: seq<Action>)
    requires Enabled(g, a) && NoUsurper(Step(g, a), rest)
    requires a.Packet? && a.event.Connected? ==> !Usurps(g, a.conn, a.event.payload.texts.clientId)
    ensures NoUsurper(g, [a] + rest)
  {
    assert ([a] + rest)[1..] == rest;
  }

  /** A client that comes back on a new connection loses its session when the old one closes. */
  lemma OldCloseTakesNewSession()
    ensures exists actions, g :: Runs(INIT, actions, g) && NoUsurper(INIT, actions) && Session(g) && !Spares(g)
  {
    var up1, up2 := Up(1), Up(2);
    var on1, on2 := Packet(1, Hello([99]), 0), Packet(2, Hello([99]), 0);
    var g1 := Step(INIT, up1);
    var g2 := Step(g1, up2);
    var g3 := Step(g2, on1);
    var g4 := Step(g3, on2);
    RunsCons(g3, on2, [], g4);
    RunsCons(g2, on1, [on2] + [], g4);
    RunsCons(g1, up2, [on1] + ([on2] + []), g4);
    RunsCons(INIT, up1, [up2] + ([on1] + ([on2] + [])), g4);
    NoUsurperCons(g3, on2, []);
    NoUsurperCons(g2, on1, [on2] + []);
    NoUsurperCons(g1, up2, [on1] + ([on2] + []));
    NoUsurperCons(INIT, up1, [up2] + ([on1] + ([on2] + [])));
    RunKeepsSession(INIT, [up1] + ([up2] + ([on1] + ([on2] + []))), g4);
    assert [99] in g4.devices && g4.devices[[99]].connection == 2 && 1 in g4.alive;
    assert [99] !in Step(g4, Down(1)).devices;
  }

  /** A second CONNECT on a connection leaves a device whose connection speaks for another client. */
  lemma SecondConnectBreaksSession()
    ensures exists actions, g :: Runs(INIT, actions, g) && !Session(g)
  {
    var up, first, second := Up(1), Packet(1, Hello([98]), 0), Packet(1, Hello([99]), 0);
    var g1 := Step(INIT, up);
    var g2 := Step(g1, first);
    var g3 := Step(g2, second);
    RunsCons(g2, second, [], g3);
    RunsCons(g1, first, [second] + [], g3);
    RunsCons(INIT, up, [first] + ([second] + []), g3);
    assert [98] in g3.devices && g3.devices[[98]].connection == 1 && g3.owner[1] == [99];
  }
}
