/** What the receivers of the gateway's frames read in them. */
module FanOut {
  import opened Bytes
  import opened MqttWire
  import opened DeviceManager
  import opened Sessions
  import opened GatewayServer
  import PacketOctets
  import RoundTrip
  import RemainingLength

  lemma ParsedBodyFits(flags: nat, f: seq<byte>, e: Event)
    requires flags < 16 && |f| < 0x1000_0000 && e.Published?
    requires ParsePublish(flags, f) == Accepted([e])
    ensures |e.topic| < 0x1_0000 && 2 + |e.topic| + |e.body| < 0x1000_0000
  {
    var topic := ReadString(f, 0);
    assert topic.text != [] ==> topic.next == 2 + |topic.text|;
  }

  lemma OnlyPublishPublishes(first: byte, f: seq<byte>, e: Event)
    requires ParseBody(first, f) == Accepted([e]) && e.Published?
    ensures KindOf(first) == PUBLISH && ParsePublish(FlagsOf(first), f) == Accepted([e])
  {
  }

  /** Whatever PUBLISH frame the codec accepted, its topic and payload can be forwarded: the frame
      the gateway builds for subscribers decodes to the same topic and payload at QoS 0, without
      the retain flag. */
  lemma ForwardedFrameDecodes(s: seq<byte>, total: nat, e: Event, suffix: seq<byte>)
    requires NextFrame(s) == Frame(total, Accepted([e])) && e.Published?
    ensures var p := Forwarded(e.topic, e.body);
      NextFrame(Encode(p) + suffix)
        == Frame(|Encode(p)|, Accepted([Published(e.topic, e.body, 0, false, 0)]))
  {
    hide ParseBody, Encode;
    var rl := RemainingLength.Decode(s[1..]);
    var f := s[1 + rl.consumed..total];
    RemainingLength.DecodeBounded(s[1..], RemainingLength.MAX_GROUPS);
    RemainingLength.Pow128Four();
    OnlyPublishPublishes(s[0], f, e);
    ParsedBodyFits(FlagsOf(s[0]), f, e);
    var p := Forwarded(e.topic, e.body);
    assert |p.Body()| == 2 + |e.topic| + |e.body|;
    RoundTrip.RoundTripIff(p, suffix);
  }

  /** The acknowledgement of a QoS 1 PUBLISH decodes to the same packet id. */
  lemma AckDecodes(id: uint16, suffix: seq<byte>)
    ensures NextFrame(Encode(PubAck(id)) + suffix) == Frame(|Encode(PubAck(id))|, Accepted([PubAcked(id)]))
  {
    RoundTrip.RoundTripIff(PubAck(id), suffix);
  }

  /** The answers to a client, in octets: CONNACK with code 0, PINGRESP, SUBACK with the packet id and the
      QoS of every filter in order, PUBACK with the packet id behind whatever a publication at QoS 1 brings;
      each to the connection the packet came on, while it is open, and to no other. */
  lemma AnswersInOctets(g: Gate, conn: Conn, event: Event, c: Conn)
    ensures var open := c == conn && conn in g.open;
      && (event.Connected? ==> Emits(g, conn, event, c) == if open then [[32, 2, 0, 0]] else [])
      && (event.Pinged? ==> Emits(g, conn, event, c) == if open then [[208, 0]] else [])
      && (event.PubAcked? || event.Disconnected? ==> Emits(g, conn, event, c) == [])
      && (event.Published? && !(open && event.qos == 1) ==>
            Emits(g, conn, event, c) == Fanned(g, conn, event.topic, Encode(Forwarded(event.topic, event.body)), c))
      && (event.Published? && open && event.qos == 1 ==>
            Emits(g, conn, event, c) == [[64, 2] + PacketOctets.Num(event.packetId)])
  {
    hide Encode;
    PacketOctets.SentOctets(0, if event.Published? then event.packetId else 0, []);
    if event.Published? {
      var fanned := Fanned(g, conn, event.topic, Encode(Forwarded(event.topic, event.body)), c);
      assert fanned + [] == fanned;
      assert c == conn ==> fanned == [] && [] + [Encode(PubAck(event.packetId))] == [Encode(PubAck(event.packetId))];
    }
  }

  lemma SubAckInOctets(g: Gate, conn: Conn, id: uint16, filters: seq<TopicFilter>, c: Conn)
    requires |filters| < 268_435_454
    ensures Emits(g, conn, Subscribed(id, filters), c) ==
      if c == conn && conn in g.open && conn in g.owner then
        [[144] + RemainingLength.Encode(2 + |filters|)
         + (PacketOctets.Num(id) + seq(|filters|, i requires 0 <= i < |filters| => filters[i].qos))]
      else []
  {
    hide Encode;
    PacketOctets.SentOctets(0, id, Codes(filters));
  }

  /** A forwarded publication, in octets: QoS 0, no flags, no packet id. */
  lemma ForwardedInOctets(topic: Text, body: Text)
    requires |topic| < 65536 && 4 + |topic| + |body| < 268_435_456
    ensures Encode(Forwarded(topic, body))
         == [48] + RemainingLength.Encode(2 + |topic| + |body|) + (PacketOctets.Str(topic) + body)
  {
    hide Encode, RemainingLength.Encode, PacketOctets.Str;
    var str := PacketOctets.Str(topic);
    PacketOctets.PublishOctets(topic, body, 0, 0, false);
    NoId(str, body);
  }

  lemma NoId(topic: seq<byte>, body: seq<byte>)
    ensures topic + [] + body == topic + body
  {
  }
}
