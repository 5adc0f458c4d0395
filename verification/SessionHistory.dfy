/** What the tables of a gateway node hold after a run, told from the callbacks of the run alone: who
    speaks on which connection, who is registered, who subscribed to what, and who gets a publication. */
module SessionHistory {
  import opened Bytes
  import opened DeviceManager
  import opened MqttWire
  import opened Sessions
  import opened GatewayServer

  /** A run with the tables before, between and after its steps. */
  ghost predicate Trace(states: seq<Gate>, actions: seq<Action>)
  {
    && |states| == |actions| + 1
    && states[0] == INIT
    && forall i | 0 <= i < |actions| :: Enabled(states[i], actions[i]) && states[i + 1] == Step(states[i], actions[i])
  }

  /** Every run has its tables. */
  lemma {:induction false} TraceOfRun(g: Gate, actions: seq<Action>, r: Gate) returns (states: seq<Gate>)
    requires Runs(g, actions, r)
    ensures |states| == |actions| + 1 && states[0] == g && states[|actions|] == r
    ensures forall i | 0 <= i < |actions| :: Enabled(states[i], actions[i]) && states[i + 1] == Step(states[i], actions[i])
    decreases |actions|
  {
    hide Step, Enabled;
    if actions == [] {
      states := [g];
    } else {
      var rest := TraceOfRun(Step(g, actions[0]), actions[1..], r);
      states := [g] + rest;
      forall i | 0 <= i < |actions|
        ensures Enabled(states[i], actions[i]) && states[i + 1] == Step(states[i], actions[i])
      {
        if i > 0 {
          assert actions[i] == actions[1..][i - 1];
        }
      }
    }
  }

  // ---- the callbacks, by the tables they find ---------------------------------------------------------

  /** A CONNECT for the client is handled on the connection. */
  predicate Connects(a: Action, conn: Conn, client: Client)
  {
    a.Packet? && a.conn == conn && a.event.Connected? && a.event.payload.texts.clientId == client
  }

  /** The connection says goodbye, or goes down. */
  predicate Parts(a: Action, conn: Conn)
  {
    (a.Down? && a.conn == conn) || (a.Packet? && a.conn == conn && a.event.Disconnected?)
  }

  /** More than one and a half keep-alive intervals have passed since the last sign of life. */
  predicate Overdue(d: Device, now: int)
  {
    now as real - d.lastHeartbeat as real > 1.5 * (d.keepAlive as real * 1000000.0)
  }

  /** The step takes the client offline: the connection that speaks for it parts, or a sweep finds it
      overdue. */
  predicate TakesOff(g: Gate, a: Action, client: Client)
  {
    || (a.Down? && a.conn in g.owner && g.owner[a.conn] == client)
    || (a.Packet? && a.event.Disconnected? && a.conn in g.owner && g.owner[a.conn] == client)
    || (a.Sweep? && client in g.devices && Overdue(g.devices[client], a.now))
  }

  /** A SUBSCRIBE that names the topic is handled on a connection that speaks for the client. */
  predicate AsksFor(g: Gate, a: Action, client: Client, topic: Topic)
  {
    && a.Packet? && a.event.Subscribed? && a.conn in g.owner && g.owner[a.conn] == client
    && exists f <- a.event.filters :: f.topic == topic
  }

  /** A CONNECT for the client, or a PINGREQ on a connection that speaks for it. */
  predicate ShowsLife(g: Gate, a: Action, client: Client)
  {
    && a.Packet?
    && ((a.event.Connected? && a.event.payload.texts.clientId == client)
        || (a.event.Pinged? && a.conn in g.owner && g.owner[a.conn] == client))
  }

  // ---- one step -----------------------------------------------------------------------------------------

  lemma LateIsOverdue(d: Device, now: int)
    ensures Manager.Late(d, now) <==> Overdue(d, now)
  {
  }

  lemma StepOwner(g: Gate, a: Action, conn: Conn, client: Client)
    requires Enabled(g, a)
    ensures var r := Step(g, a);
      (conn in r.owner && r.owner[conn] == client) <==>
      (Connects(a, conn, client)
       || (conn in g.owner && g.owner[conn] == client && !Parts(a, conn)
           && !(a.Packet? && a.conn == conn && a.event.Connected?)))
  {
  }

  lemma StepPairs(g: Gate, a: Action, client: Client, topic: Topic)
    requires Enabled(g, a)
    ensures (client, topic) in Step(g, a).pairs
      <==> AsksFor(g, a, client, topic) || ((client, topic) in g.pairs && !TakesOff(g, a, client))
  {
    if a.Sweep? && client in g.devices {
      LateIsOverdue(g.devices[client], a.now);
    }
  }

  lemma StepDevices(g: Gate, a: Action, client: Client)
    requires Enabled(g, a)
    ensures client in Step(g, a).devices
      <==> (a.Packet? && a.event.Connected? && a.event.payload.texts.clientId == client)
           || (client in g.devices && !TakesOff(g, a, client))
  {
    if a.Sweep? && client in g.devices {
      LateIsOverdue(g.devices[client], a.now);
    }
  }

  /** The entry of a registered client: what its last CONNECT said, and when it last showed life. */
  lemma StepDevice(g: Gate, a: Action, client: Client)
    requires Enabled(g, a) && client in Step(g, a).devices
    ensures var d := Step(g, a).devices[client];
      if a.Packet? && a.event.Connected? && a.event.payload.texts.clientId == client then
        && d.username == a.event.payload.texts.username && d.keepAlive == a.event.payload.keepAlive
        && d.connection == a.conn && d.lastHeartbeat == a.now
      else
        && client in g.devices
        && d.username == g.devices[client].username && d.keepAlive == g.devices[client].keepAlive
        && d.connection == g.devices[client].connection
        && d.lastHeartbeat == if ShowsLife(g, a, client) then a.now else g.devices[client].lastHeartbeat
  {
  }

  lemma StepOpen(g: Gate, a: Action, conn: Conn)
    requires Enabled(g, a)
    ensures conn in Step(g, a).open <==>
      a == Up(conn) || (conn in g.open && a != Closing(conn) && a != Down(conn))
    ensures conn in Step(g, a).alive <==> a == Up(conn) || (conn in g.alive && a != Down(conn))
  {
  }

  // ---- over runs ------------------------------------------------------------------------------------------

  /** A SUBSCRIBE for the topic was handled for the client before position `n`, and nothing took the client
      offline since. */
  ghost predicate Subscribed(states: seq<Gate>, actions: seq<Action>, n: nat, client: Client, topic: Topic)
    requires n <= |actions| && |states| == |actions| + 1
  {
    exists k | 0 <= k < n ::
      && AsksFor(states[k], actions[k], client, topic)
      && forall j | k < j < n :: !TakesOff(states[j], actions[j], client)
  }

  /** A CONNECT for the client was handled before, and nothing took the client offline since. */
  ghost predicate Registered(states: seq<Gate>, actions: seq<Action>, n: nat, client: Client)
    requires n <= |actions| && |states| == |actions| + 1
  {
    exists k | 0 <= k < n ::
      && actions[k].Packet? && actions[k].event.Connected? && actions[k].event.payload.texts.clientId == client
      && forall j | k < j < n :: !TakesOff(states[j], actions[j], client)
  }

  /** The last CONNECT on the connection was for this client, and the connection did not part since. */
  ghost predicate SpeaksFor(actions: seq<Action>, n: nat, conn: Conn, client: Client)
    requires n <= |actions|
  {
    exists k | 0 <= k < n ::
      && Connects(actions[k], conn, client)
      && forall j | k < j < n ::
           !Parts(actions[j], conn) && !(actions[j].Packet? && actions[j].conn == conn && actions[j].event.Connected?)
  }

  /** Over every run: a pair is in the subscription tables if and only if some SUBSCRIBE naming the topic
      was handled on a connection that spoke for the client, and no later step took the client offline. */
  lemma {:induction false} SubscribedIff(states: seq<Gate>, actions: seq<Action>, n: nat, client: Client, topic: Topic)
    requires Trace(states, actions) && n <= |actions|
    ensures (client, topic) in states[n].pairs <==> Subscribed(states, actions, n, client, topic)
    decreases n
  {
    hide Step, Enabled, AsksFor, TakesOff;
    if n > 0 {
      var m := n - 1;
      SubscribedIff(states, actions, m, client, topic);
      StepPairs(states[m], actions[m], client, topic);
      if Subscribed(states, actions, m, client, topic) && !TakesOff(states[m], actions[m], client) {
        var k :| 0 <= k < m && AsksFor(states[k], actions[k], client, topic)
          && forall j | k < j < m :: !TakesOff(states[j], actions[j], client);
        assert forall j | k < j < n :: !TakesOff(states[j], actions[j], client);
      }
    }
  }

  /** A client is registered if and only if a CONNECT for it was handled and no later step took it
      offline. */
  lemma {:induction false} RegisteredIff(states: seq<Gate>, actions: seq<Action>, n: nat, client: Client)
    requires Trace(states, actions) && n <= |actions|
    ensures client in states[n].devices <==> Registered(states, actions, n, client)
    decreases n
  {
    hide Step, Enabled, TakesOff;
    if n > 0 {
      var m := n - 1;
      RegisteredIff(states, actions, m, client);
      StepDevices(states[m], actions[m], client);
      if Registered(states, actions, m, client) && !TakesOff(states[m], actions[m], client) {
        var k :| 0 <= k < m
          && actions[k].Packet? && actions[k].event.Connected? && actions[k].event.payload.texts.clientId == client
          && forall j | k < j < m :: !TakesOff(states[j], actions[j], client);
        assert forall j | k < j < n :: !TakesOff(states[j], actions[j], client);
      }
    }
  }

  /** A connection speaks for a client if and only if its last CONNECT named it and it did not part since. */
  lemma {:induction false} SpeaksForIff(states: seq<Gate>, actions: seq<Action>, n: nat, conn: Conn, client: Client)
    requires Trace(states, actions) && n <= |actions|
    ensures conn in states[n].owner && states[n].owner[conn] == client <==> SpeaksFor(actions, n, conn, client)
    decreases n
  {
    hide Step, Enabled, Connects, Parts;
    if n > 0 {
      var m := n - 1;
      SpeaksForIff(states, actions, m, conn, client);
      StepOwner(states[m], actions[m], conn, client);
      if SpeaksFor(actions, m, conn, client) && conn in states[n].owner && states[n].owner[conn] == client
         && !Connects(actions[m], conn, client) {
        var k :| 0 <= k < m && Connects(actions[k], conn, client)
          && forall j | k < j < m ::
               !Parts(actions[j], conn) && !(actions[j].Packet? && actions[j].conn == conn && actions[j].event.Connected?);
        assert forall j | k < j < n ::
          !Parts(actions[j], conn) && !(actions[j].Packet? && actions[j].conn == conn && actions[j].event.Connected?);
      }
    }
  }

  /** The last CONNECT for the client. */
  ghost predicate LastConnect(actions: seq<Action>, n: nat, client: Client, k: nat)
    requires n <= |actions|
  {
    && k < n && actions[k].Packet? && Connects(actions[k], actions[k].conn, client)
    && forall j | k < j < n :: !(actions[j].Packet? && Connects(actions[j], actions[j].conn, client))
  }

  /** The last sign of life of the client. */
  ghost predicate LastLife(states: seq<Gate>, actions: seq<Action>, n: nat, client: Client, k: nat)
    requires n <= |actions| && |states| == |actions| + 1
  {
    k < n && ShowsLife(states[k], actions[k], client) && forall j | k < j < n :: !ShowsLife(states[j], actions[j], client)
  }

  /** The entry says what the last CONNECT for the client said. */
  ghost predicate AsConnected(d: Device, a: Action)
    requires a.Packet? && a.event.Connected?
  {
    && d.username == a.event.payload.texts.username && d.keepAlive == a.event.payload.keepAlive
    && d.connection == a.conn
  }

  lemma {:induction false} EntryOf(states: seq<Gate>, actions: seq<Action>, n: nat, client: Client) returns (k: nat)
    requires Trace(states, actions) && n <= |actions| && client in states[n].devices
    ensures LastConnect(actions, n, client, k) && AsConnected(states[n].devices[client], actions[k])
    decreases n
  {
    hide Step, Enabled, ShowsLife;
    var m := n - 1;
    StepDevice(states[m], actions[m], client);
    if actions[m].Packet? && Connects(actions[m], actions[m].conn, client) {
      k := m;
    } else {
      k := EntryOf(states, actions, m, client);
    }
  }

  lemma {:induction false} LifeOf(states: seq<Gate>, actions: seq<Action>, n: nat, client: Client) returns (k: nat)
    requires Trace(states, actions) && n <= |actions| && client in states[n].devices
    ensures LastLife(states, actions, n, client, k) && states[n].devices[client].lastHeartbeat == actions[k].now
    decreases n
  {
    hide Step, Enabled;
    var m := n - 1;
    StepDevice(states[m], actions[m], client);
    if ShowsLife(states[m], actions[m], client) {
      k := m;
    } else {
      k := LifeOf(states, actions, m, client);
    }
  }

  /** The entry of a registered client: user name, keep-alive and connection of the last CONNECT for it, and
      the clock of its last sign of life. */
  lemma EntryIs(states: seq<Gate>, actions: seq<Action>, n: nat, client: Client, c: nat, k: nat)
    requires Trace(states, actions) && n <= |actions| && client in states[n].devices
    requires LastConnect(actions, n, client, c) && LastLife(states, actions, n, client, k)
    ensures AsConnected(states[n].devices[client], actions[c])
    ensures states[n].devices[client].lastHeartbeat == actions[k].now
  {
    var c' := EntryOf(states, actions, n, client);
    var k' := LifeOf(states, actions, n, client);
    assert c == c' && k == k';
  }

  /** A sweep removes a registered client if and only if its last sign of life is more than one and a half
      keep-alive intervals old: one that pings in time survives every sweep, a silent one goes. */
  lemma SweptIff(states: seq<Gate>, actions: seq<Action>, n: nat, client: Client, c: nat, k: nat)
    requires Trace(states, actions) && n < |actions| && actions[n].Sweep? && client in states[n].devices
    requires LastConnect(actions, n, client, c) && LastLife(states, actions, n, client, k)
    ensures client !in states[n + 1].devices
      <==> (actions[n].now - actions[k].now) as real > 1.5 * (actions[c].event.payload.keepAlive as real * 1000000.0)
  {
    EntryIs(states, actions, n, client, c, k);
    StepDevices(states[n], actions[n], client);
  }

  /** The connection came up and neither asked to close nor went down since. */
  ghost predicate IsOpen(actions: seq<Action>, n: nat, conn: Conn)
    requires n <= |actions|
  {
    exists k | 0 <= k < n ::
      actions[k] == Up(conn) && forall j | k < j < n :: actions[j] != Closing(conn) && actions[j] != Down(conn)
  }

  lemma {:induction false} OpenIff(states: seq<Gate>, actions: seq<Action>, n: nat, conn: Conn)
    requires Trace(states, actions) && n <= |actions|
    ensures conn in states[n].open <==> IsOpen(actions, n, conn)
    decreases n
  {
    hide Step, Enabled;
    if n > 0 {
      var m := n - 1;
      OpenIff(states, actions, m, conn);
      StepOpen(states[m], actions[m], conn);
      if IsOpen(actions, m, conn) && actions[m] != Closing(conn) && actions[m] != Down(conn) {
        var k :| 0 <= k < m && actions[k] == Up(conn)
          && forall j | k < j < m :: actions[j] != Closing(conn) && actions[j] != Down(conn);
        assert forall j | k < j < n :: actions[j] != Closing(conn) && actions[j] != Down(conn);
      }
    }
  }

  // ---- who gets a publication ---------------------------------------------------------------------------

  /** The last CONNECT for a registered client came on this connection. */
  ghost predicate ReachedOn(actions: seq<Action>, n: nat, client: Client, conn: Conn)
    requires n <= |actions|
  {
    exists k | 0 <= k < n :: LastConnect(actions, n, client, k) && actions[k].conn == conn
  }

  /** Told from the run: the connection is open, speaks for a client that is registered and was last reached
      on it, and that client subscribed to the topic and stayed online. */
  ghost predicate Hears(states: seq<Gate>, actions: seq<Action>, n: nat, conn: Conn, client: Client, topic: Topic)
    requires n <= |actions| && |states| == |actions| + 1
  {
    && IsOpen(actions, n, conn) && SpeaksFor(actions, n, conn, client)
    && Registered(states, actions, n, client) && ReachedOn(actions, n, client, conn)
    && Subscribed(states, actions, n, client, topic)
  }

  lemma HearsIff(states: seq<Gate>, actions: seq<Action>, n: nat, conn: Conn, client: Client, topic: Topic)
    requires Trace(states, actions) && n <= |actions|
    ensures Hears(states, actions, n, conn, client, topic) <==>
      (Subscriber(states[n], conn, topic) && states[n].owner[conn] == client)
  {
    hide IsOpen, SpeaksFor, Registered, Subscribed, Step, Enabled, LastConnect;
    OpenIff(states, actions, n, conn);
    SpeaksForIff(states, actions, n, conn, client);
    RegisteredIff(states, actions, n, client);
    SubscribedIff(states, actions, n, client, topic);
    if client in states[n].devices {
      ReachedOnIs(states, actions, n, client, conn);
    }
  }

  lemma ReachedOnIs(states: seq<Gate>, actions: seq<Action>, n: nat, client: Client, conn: Conn)
    requires Trace(states, actions) && n <= |actions| && client in states[n].devices
    ensures ReachedOn(actions, n, client, conn) <==> states[n].devices[client].connection == conn
  {
    var k := EntryOf(states, actions, n, client);
    if ReachedOn(actions, n, client, conn) {
      var c :| 0 <= c < n && LastConnect(actions, n, client, c) && actions[c].conn == conn;
      assert c == k;
    }
  }

  /** A PUBLISH handled in a run in which no CONNECT left a reachable client of its own connection behind:
      exactly one copy goes to every connection, but the sender's, that hears the topic by the run; none
      to any other. */
  lemma PublishedToHearers(actions: seq<Action>, states: seq<Gate>, r: Gate, sender: Conn, topic: Topic, frame: Text, conn: Conn)
    requires Runs(INIT, actions, r) && NoUsurper(INIT, actions) && Trace(states, actions) && states[|actions|] == r
    ensures Fanned(r, sender, topic, frame, conn)
         == if conn != sender && exists client :: Hears(states, actions, |actions|, conn, client, topic) then [frame] else []
  {
    hide Hears, Fanned, Session, Runs, NoUsurper;
    RunKeepsSession(INIT, actions, r);
    OneCopyPerSubscriber(r, sender, topic, frame, conn);
    forall client
      ensures Hears(states, actions, |actions|, conn, client, topic) <==>
        (Subscriber(r, conn, topic) && r.owner[conn] == client)
    {
      HearsIff(states, actions, |actions|, conn, client, topic);
    }
    if Subscriber(r, conn, topic) {
      assert Hears(states, actions, |actions|, conn, r.owner[conn], topic);
    }
  }
}
