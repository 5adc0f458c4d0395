/** The gateway's callbacks (src/gateway/GatewayServer.cpp): the connection table, the device
    manager, the frames each callback hands to connections, and, as lists of calls, what it hands to
    the time-series writer, the cache and the store. Logging is left out; callbacks are atomic, as the
    original declares. */
module GatewayServer {
  import opened Bytes
  import opened NetBuffer
  import opened MqttWire
  import opened MqttCodec
  import opened DeviceManager
  import opened Sessions

  function Forwarded(topic: Text, body: Text): (p: Packet)
    ensures p.Valid()
  {
    Publish(topic, body, 0, 0, false)
  }

  /** How many of the listed connections are `c`, leaving out the sender's. */
  function Copies(result: seq<Conn>, sender: Conn, c: Conn): (n: nat)
  {
    if result == [] || c == sender then 0
    else Copies(result[..|result| - 1], sender, c) + (if result[|result| - 1] == c then 1 else 0)
  }

  function Repeat(frame: Text, n: nat): (r: seq<Text>)
    ensures |r| == n
  {
    seq(n, _ => frame)
  }

  /** The frames handed to one connection so far. */
  function Frames(sent: map<Conn, seq<Text>>, c: Conn): (frames: seq<Text>)
  {
    if c in sent then sent[c] else []
  }

  function Given(sent: map<Conn, seq<Text>>, c: Conn, frame: Text): (r: map<Conn, seq<Text>>)
  {
    sent[c := Frames(sent, c) + [frame]]
  }

  lemma {:induction false} CopiesCount(result: seq<Conn>, sender: Conn, c: Conn)
    ensures Copies(result, sender, c) == if c == sender then 0 else multiset(result)[c]
  {
    if result != [] && c != sender {
      var last := |result| - 1;
      CopiesCount(result[..last], sender, c);
      assert result == result[..last] + [result[last]];
    }
  }

  /** The client a connection is the entry of, subscribed to the topic. */
  ghost predicate Subscriber(g: Gate, c: Conn, topic: Topic)
  {
    && c in g.open && c in g.owner && g.owner[c] in g.devices
    && g.devices[g.owner[c]].connection == c && (g.owner[c], topic) in g.pairs
  }

  /** The clients a PUBLISH on the topic reaches on this connection. */
  ghost function Hearing(g: Gate, c: Conn, topic: Topic): (r: set<Client>)
  {
    Reached(Audience(g.pairs, topic), g.devices, g.open, c)
  }

  /** What the forwarding loop of a PUBLISH puts on a connection. */
  ghost function Fanned(g: Gate, sender: Conn, topic: Topic, frame: Text, c: Conn): (frames: seq<Text>)
  {
    Repeat(frame, if c == sender then 0 else |Hearing(g, c, topic)|)
  }

  /** In a consistent state every subscribed connection is reached for exactly one client, and no
      other connection for any: one copy each, and none for the sender. */
  lemma OneCopyPerSubscriber(g: Gate, sender: Conn, topic: Topic, frame: Text, c: Conn)
    requires Session(g)
    ensures Fanned(g, sender, topic, frame, c) == if c != sender && Subscriber(g, c, topic) then [frame] else []
  {
    if Subscriber(g, c, topic) {
      assert Hearing(g, c, topic) == {g.owner[c]};
    } else {
      assert Hearing(g, c, topic) == {};
    }
  }

  /** The frames one callback of the codec puts on connection `c`. */
  ghost function Emits(g: Gate, conn: Conn, event: Event, c: Conn): (frames: seq<Text>)
  {
    var reply := c == conn && conn in g.open;
    match event
    case Connected(_) => if reply then [Encode(ConnAck(0))] else []
    case Published(topic, body, qos, _, id) =>
      Fanned(g, conn, topic, Encode(Forwarded(topic, body)), c) + if reply && qos == 1 then [Encode(PubAck(id))] else []
    case Subscribed(id, filters) => if reply && conn in g.owner then [Encode(SubAck(id, Codes(filters)))] else []
    case PubAcked(_) => []
    case Pinged => if reply then [Encode(PingResp)] else []
    case Disconnected => []
  }

  lemma ListedAreOpen(result: seq<Conn>, clients: set<Client>, devices: map<Client, Device>, open: set<Conn>)
    requires Lists(result, clients, devices, open)
    ensures forall i | 0 <= i < |result| :: result[i] in open
  {
    forall i | 0 <= i < |result|
      ensures result[i] in open
    {
      assert multiset(result)[result[i]] > 0;
      assert Reached(clients, devices, open, result[i]) != {};
    }
  }

  /** One publication as the writer and the cache get it. */
  datatype Reading = Reading(client: Text, topic: Text, payload: Text)

  /** `markCommandSent` and `ackCommand` */
  datatype Report = CommandSent(id: int) | CommandAcked(streamId: Text)

  /** "unknown" */
  const UNKNOWN: Text := [117, 110, 107, 110, 111, 119, 110]

  class Gateway {
    const deviceMgr: Manager
    /** `g_connClientMap` */
    var connClientMap: map<Conn, Client>
    /** The frames handed to each connection that was open then. */
    var sent: map<Conn, seq<Text>>
    var packetId: uint16
    /** What went to the time-series writer and, while the store is connected, to its cache. */
    var written: seq<Reading>
    var cached: seq<Reading>
    /** What was reported to the store about commands. */
    var reports: seq<Report>
    ghost var alive: set<Conn>
    /** The connections that report `connected()`. */
    var open: set<Conn>

    ghost function View(): Gate
      reads this, deviceMgr
    {
      Gate(deviceMgr.devices, Pairs(deviceMgr.subscriptions), connClientMap, alive, open)
    }

    ghost predicate Valid()
      reads this, deviceMgr
    {
      deviceMgr.Valid()
    }

    function Out(c: Conn): (frames: seq<Text>)
      reads this
    {
      Frames(sent, c)
    }

    constructor ()
      ensures Valid() && View() == INIT && sent == map[] && packetId == 0
      ensures fresh(deviceMgr)
    {
      deviceMgr := new Manager();
      connClientMap, sent, packetId, alive, open := map[], map[], 0, {}, {};
      written, cached, reports := [], [], [];
    }

    /** `conn->send(&buf)`: taken only while the connection is open. */
    method Send(conn: Conn, frame: Text)
      modifies this`sent
      ensures sent == (if conn in open then Given(old(sent), conn, frame) else old(sent))
      ensures forall c :: Out(c) == old(Out(c)) + (if c == conn && conn in open then [frame] else [])
    {
      if conn in open {
        sent := sent[conn := Out(conn) + [frame]];
      }
    }

    method OnConnection(conn: Conn, connected: bool)
      requires Valid() && Enabled(View(), if connected then Up(conn) else Down(conn))
      modifies this, deviceMgr
      ensures Valid() && View() == Step(old(View()), if connected then Up(conn) else Down(conn))
      ensures sent == old(sent)
    {
      if connected {
        alive, open := alive + {conn}, open + {conn};
      } else {
        alive, open := alive - {conn}, open - {conn};
        OnDisconnect(conn);
      }
    }

    /** The connection no longer reports `connected()`; its close comes later. */
    method ForceClose(conn: Conn)
      requires Valid() && conn in alive
      modifies this`open
      ensures Valid() && View() == Step(old(View()), Closing(conn))
    {
      open := open - {conn};
    }

    method OnDisconnect(conn: Conn)
      requires Valid()
      modifies this`connClientMap, deviceMgr
      ensures Valid() && View() == Leave(old(View()), conn)
    {
      if conn in connClientMap {
        deviceMgr.DeviceOffline(connClientMap[conn]);
        connClientMap := connClientMap - {conn};
      }
    }

    method HandleConnect(conn: Conn, payload: ConnectPayload, now: int)
      requires Valid()
      modifies this`connClientMap, this`sent, deviceMgr
      ensures Valid() && View() == Join(old(View()), conn, payload, now)
      ensures forall c :: Out(c) == old(Out(c)) + (if c == conn && conn in open then [Encode(ConnAck(0))] else [])
    {
      deviceMgr.DeviceOnline(payload.texts.clientId, conn, payload.keepAlive, payload.texts.username, now);
      connClientMap := connClientMap[conn := payload.texts.clientId];
      var ack := ConnAckFrame(0);
      Send(conn, ack);
    }

    /** One frame per subscriber entry other than the sender's, then the acknowledgement at QoS 1. In
        a consistent state that is one frame on each subscribed connection but the sender's. */
    method HandlePublish(conn: Conn, topic: Text, body: Text, qos: nat, id: uint16)
      requires Valid()
      modifies this`sent, this`written, this`cached
      ensures Valid() && View() == old(View())
      ensures var reading := Reading(if conn in connClientMap then connClientMap[conn] else UNKNOWN, topic, body);
        && written == old(written) + [reading]
        && cached == if deviceMgr.registryUp then old(cached) + [reading] else old(cached)
      ensures forall c :: Out(c) == old(Out(c))
                                      + Fanned(View(), conn, topic, Encode(Forwarded(topic, body)), c)
                                      + (if c == conn && conn in open && qos == 1 then [Encode(PubAck(id))] else [])
      ensures Session(View()) ==> forall c :: Out(c) == old(Out(c))
                                      + (if c != conn && Subscriber(View(), c, topic) then [Encode(Forwarded(topic, body))] else [])
                                      + (if c == conn && conn in open && qos == 1 then [Encode(PubAck(id))] else [])
    {
      hide Encode, Served, Fanned, Subscriber, Session;
      var reading := Reading(if conn in connClientMap then connClientMap[conn] else UNKNOWN, topic, body);
      written := written + [reading];
      if deviceMgr.registryUp {
        cached := cached + [reading];
      }
      var subscribers := deviceMgr.GetSubscribers(topic, open);
      ListedAreOpen(subscribers, Audience(View().pairs, topic), deviceMgr.devices, open);
      Forward(conn, subscribers, topic, body);
      ghost var frame := Encode(Forwarded(topic, body));
      ForwardedToHearers(old(sent), sent, frame, subscribers, conn, View(), topic);
      if Session(View()) {
        forall c
          ensures Fanned(View(), conn, topic, frame, c) == if c != conn && Subscriber(View(), c, topic) then [frame] else []
        {
          OneCopyPerSubscriber(View(), conn, topic, frame, c);
        }
      }
      if qos == 1 {
        var ack := PubAckFrame(id);
        Send(conn, ack);
      } else {
        assert forall c :: Out(c) + [] == Out(c);
      }
    }

    method Forward(conn: Conn, subscribers: seq<Conn>, topic: Text, body: Text)
      requires forall i | 0 <= i < |subscribers| :: subscribers[i] in open
      modifies this`sent
      ensures Served(old(sent), sent, Encode(Forwarded(topic, body)), subscribers, conn)
    {
      hide Encode, Served;
      ghost var frame := Encode(Forwarded(topic, body));
      var i := 0;
      ServedNothing(sent, frame, conn);
      assert subscribers[..0] == [];
      while i < |subscribers|
        invariant i <= |subscribers|
        invariant Served(old(sent), sent, frame, subscribers[..i], conn)
      {
        ServedStep(old(sent), sent, frame, subscribers, i, conn);
        if subscribers[i] != conn {
          var fwd := ForwardFrame(topic, body);
          Send(subscribers[i], fwd);
        }
        i := i + 1;
      }
      assert subscribers[..i] == subscribers;
    }

    method HandleSubscribe(conn: Conn, id: uint16, filters: seq<TopicFilter>)
      requires Valid()
      modifies this`sent, deviceMgr
      ensures Valid() && View() == OnPacket(old(View()), conn, Subscribed(id, filters), 0)
      ensures forall c, t :: (c, t) in Pairs(deviceMgr.subscriptions) <==>
        ((c, t) in Pairs(old(deviceMgr.subscriptions))
         || (conn in connClientMap && c == connClientMap[conn] && exists f <- filters :: f.topic == t))
      ensures forall c :: Out(c) == old(Out(c))
                                      + (if c == conn && conn in open && conn in connClientMap then [Encode(SubAck(id, Codes(filters)))] else [])
    {
      if conn !in connClientMap {
        assert forall c :: Out(c) + [] == Out(c);
        return;
      }
      var client := connClientMap[conn];
      var returnCodes: seq<byte> := [];
      var i := 0;
      while i < |filters|
        invariant i <= |filters| && Valid() && deviceMgr.devices == old(deviceMgr.devices) && sent == old(sent)
        invariant Pairs(deviceMgr.subscriptions) == Pairs(old(deviceMgr.subscriptions)) + Wanted(client, filters[..i])
        invariant returnCodes == Codes(filters[..i])
      {
        WantedSnoc(client, filters, i);
        deviceMgr.Subscribe(client, filters[i].topic);
        returnCodes := returnCodes + [filters[i].qos];
        i := i + 1;
      }
      assert filters[..i] == filters;
      var ack := SubAckFrame(id, returnCodes);
      Send(conn, ack);
    }

    method HandlePingReq(conn: Conn, now: int)
      requires Valid()
      modifies this`sent, deviceMgr
      ensures Valid() && View() == Heard(old(View()), conn, now)
      ensures forall c :: Out(c) == old(Out(c)) + (if c == conn && conn in open then [Encode(PingResp)] else [])
    {
      if conn in connClientMap {
        deviceMgr.UpdateHeartbeat(connClientMap[conn], now);
      }
      var resp := PingRespFrame();
      Send(conn, resp);
    }

    method StartHeartbeatCheck(now: int)
      requires Valid()
      modifies deviceMgr
      ensures Valid() && View() == Step(old(View()), Sweep(now))
    {
      var timeoutDevices := deviceMgr.CheckHeartbeatTimeout(now);
      assert Members(timeoutDevices) == LateDevices(old(View()), now);
    }

    /** The codec's callbacks, by event; a PUBACK has no handler. */
    method OnEvent(conn: Conn, event: Event, now: int)
      requires Valid() && conn in alive
      modifies this, deviceMgr
      ensures Valid() && View() == Step(old(View()), Packet(conn, event, now))
      ensures forall c :: Out(c) == old(Out(c)) + Emits(old(View()), conn, event, c)
    {
      hide Encode, Fanned, Session, Subscriber;
      match event {
        case Connected(payload) => HandleConnect(conn, payload, now);
        case Published(topic, body, qos, _, id) =>
          HandlePublish(conn, topic, body, qos, id);
        case Subscribed(id, filters) => HandleSubscribe(conn, id, filters);
        case Pinged => HandlePingReq(conn, now);
        case Disconnected => OnDisconnect(conn);
        case PubAcked(_) =>
      }
    }

    /** The static counter of `sendCommandToDevice`, which wraps in 16 bits and skips 0. */
    method NextPacketId()
      modifies this`packetId
      ensures packetId == old(packetId) % 65535 + 1
    {
      packetId := (packetId + 1) % 0x1_0000;
      if packetId == 0 {
        packetId := (packetId + 1) % 0x1_0000;
      }
    }

    /** `sendCommandToDevice`: one QoS 1 frame with a packet id that is never 0. */
    method SendCommandToDevice(id: int, streamId: Text, deviceId: Client, topic: Topic, body: Text, defaultTopic: Topic)
      returns (done: bool)
      requires Valid()
      modifies this`sent, this`packetId, this`reports
      ensures Valid() && View() == old(View())
      ensures done <==> deviceMgr.FindDevice(deviceId, open)
      ensures !done ==> sent == old(sent) && packetId == old(packetId) && reports == old(reports)
      ensures done ==> reports == old(reports) + [CommandSent(id), CommandAcked(streamId)]
      ensures done ==>
        && 1 <= packetId && packetId == old(packetId) % 65535 + 1
        && var p := Publish(if topic == [] then defaultTopic else topic, body, 1, packetId, false);
           forall c :: Out(c) == old(Out(c)) + (if c == deviceMgr.devices[deviceId].connection then [Encode(p)] else [])
    {
      if !deviceMgr.FindDevice(deviceId, open) { return false; }
      var t := if topic == [] then defaultTopic else topic;
      NextPacketId();
      var frame := CommandFrame(t, body, packetId);
      Send(deviceMgr.devices[deviceId].connection, frame);
      reports := reports + [CommandSent(id), CommandAcked(streamId)];
      return true;
    }
  }

  // ---- the local buffers of the callbacks ------------------------------------------------------

  method ConnAckFrame(code: byte) returns (frame: Text)
    ensures frame == Encode(ConnAck(code))
  {
    var buf := new Buffer();
    EncodeConnAck(buf, code);
    frame := buf.data[buf.readerIndex..buf.writerIndex];
    assert [] + frame == frame;
  }

  method SubAckFrame(id: uint16, returnCodes: seq<byte>) returns (frame: Text)
    ensures frame == Encode(SubAck(id, returnCodes))
  {
    hide Encode;
    var buf := new Buffer();
    EncodeSubAck(buf, id, returnCodes);
    frame := buf.data[buf.readerIndex..buf.writerIndex];
    assert [] + Encode(SubAck(id, returnCodes)) == Encode(SubAck(id, returnCodes));
  }

  method PubAckFrame(id: uint16) returns (frame: Text)
    ensures frame == Encode(PubAck(id))
  {
    var buf := new Buffer();
    EncodePubAck(buf, id);
    frame := buf.data[buf.readerIndex..buf.writerIndex];
    assert [] + frame == frame;
  }

  method PingRespFrame() returns (frame: Text)
    ensures frame == Encode(PingResp)
  {
    var buf := new Buffer();
    EncodePingResp(buf);
    frame := buf.data[buf.readerIndex..buf.writerIndex];
    assert [] + frame == frame;
  }

  method ForwardFrame(topic: Text, body: Text) returns (frame: Text)
    ensures frame == Encode(Forwarded(topic, body))
  {
    hide Encode;
    var buf := new Buffer();
    EncodePublish(buf, topic, body, 0, 0, false);
    frame := buf.data[buf.readerIndex..buf.writerIndex];
    assert [] + Encode(Forwarded(topic, body)) == Encode(Forwarded(topic, body));
  }

  method CommandFrame(topic: Text, body: Text, id: uint16) returns (frame: Text)
    ensures frame == Encode(Publish(topic, body, 1, id, false))
  {
    hide Encode;
    var buf := new Buffer();
    EncodePublish(buf, topic, body, 1, id, false);
    frame := buf.data[buf.readerIndex..buf.writerIndex];
    assert [] + Encode(Publish(topic, body, 1, id, false)) == Encode(Publish(topic, body, 1, id, false));
  }

  lemma CopiesSnoc(result: seq<Conn>, i: nat, sender: Conn, c: Conn)
    requires i < |result|
    ensures Copies(result[..i + 1], sender, c)
         == Copies(result[..i], sender, c) + (if c != sender && result[i] == c then 1 else 0)
  {
    assert result[..i + 1][..i] == result[..i];
  }

  ghost predicate Served(before: map<Conn, seq<Text>>, now: map<Conn, seq<Text>>, frame: Text,
                         result: seq<Conn>, sender: Conn)
  {
    forall c :: Frames(now, c) == Frames(before, c) + Repeat(frame, Copies(result, sender, c))
  }

  lemma ForwardedToHearers(before: map<Conn, seq<Text>>, now: map<Conn, seq<Text>>, frame: Text,
                           result: seq<Conn>, sender: Conn, g: Gate, topic: Topic)
    requires Served(before, now, frame, result, sender)
    requires Lists(result, Audience(g.pairs, topic), g.devices, g.open)
    ensures forall c :: Frames(now, c) == Frames(before, c) + Fanned(g, sender, topic, frame, c)
  {
    forall c
      ensures Copies(result, sender, c) == if c == sender then 0 else |Hearing(g, c, topic)|
    {
      CopiesCount(result, sender, c);
    }
  }

  lemma ServedNothing(before: map<Conn, seq<Text>>, frame: Text, sender: Conn)
    ensures Served(before, before, frame, [], sender)
  {
  }

  lemma ServedStep(before: map<Conn, seq<Text>>, now: map<Conn, seq<Text>>, frame: Text,
                   result: seq<Conn>, i: nat, sender: Conn)
    requires i < |result| && Served(before, now, frame, result[..i], sender)
    ensures Served(before, if result[i] != sender then Given(now, result[i], frame) else now, frame,
                   result[..i + 1], sender)
  {
    var next := if result[i] != sender then Given(now, result[i], frame) else now;
    forall c
      ensures Frames(next, c) == Frames(before, c) + Repeat(frame, Copies(result[..i + 1], sender, c))
    {
      CopiesSnoc(result, i, sender, c);
      RepeatSnoc(frame, Copies(result[..i], sender, c));
      if c != sender && result[i] == c {
        Reassociate(Frames(before, c), Repeat(frame, Copies(result[..i], sender, c)), [frame]);
      }
    }
  }

  lemma RepeatSnoc(frame: Text, n: nat)
    ensures Repeat(frame, n + 1) == Repeat(frame, n) + [frame]
  {
  }

  function Codes(filters: seq<TopicFilter>): (codes: seq<byte>)
    ensures |codes| == |filters|
  {
    seq(|filters|, i requires 0 <= i < |filters| => filters[i].qos)
  }

  lemma WantedSnoc(client: Client, filters: seq<TopicFilter>, i: nat)
    requires i < |filters|
    ensures Wanted(client, filters[..i + 1]) == Wanted(client, filters[..i]) + {(client, filters[i].topic)}
    ensures Codes(filters[..i + 1]) == Codes(filters[..i]) + [filters[i].qos]
  {
    assert filters[..i + 1] == filters[..i] + [filters[i]];
  }
}
