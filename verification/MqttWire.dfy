/** The MQTT 3.1.1 wire format as the gateway's codec reads and writes it: a declarative reading
    of one frame, and the octets of every packet the codec can emit. */
module MqttWire {
  import opened Bytes
  import RemainingLength

  const CONNECT: nat := 1
  const CONNACK: nat := 2
  const PUBLISH: nat := 3
  const PUBACK: nat := 4
  const SUBSCRIBE: nat := 8
  const SUBACK: nat := 9
  const UNSUBACK: nat := 11
  const PINGREQ: nat := 12
  const PINGRESP: nat := 13
  const DISCONNECT: nat := 14

  datatype ConnectPayload = ConnectPayload(
    protocolName: Text, protocolLevel: byte, flags: byte, keepAlive: uint16, texts: ConnectTexts)

  datatype TopicFilter = TopicFilter(topic: Text, qos: byte)

  /** One callback invocation of the codec. */
  datatype Event =
    | Connected(payload: ConnectPayload)
    | Published(topic: Text, body: Text, qos: nat, retain: bool, packetId: uint16)
    | Subscribed(packetId: uint16, filters: seq<TopicFilter>)
    | PubAcked(packetId: uint16)
    | Pinged
    | Disconnected

  /** What one complete frame amounts to: the callbacks it fires, or a protocol error. */
  datatype Outcome = Accepted(events: seq<Event>) | Rejected

  datatype Reading = Incomplete | Frame(total: nat, outcome: Outcome)

  // ---- first octet -------------------------------------------------------------------------

  /** `(type << 4) | (flags & 0x0F)` */
  function TypeByte(kind: nat, flags: nat): (b: byte)
    requires kind < 16
  {
    kind * 16 + flags % 16
  }

  function KindOf(b: byte): (kind: nat)
    ensures kind < 16
  {
    b / 16
  }

  function FlagsOf(b: byte): (flags: nat)
    ensures flags < 16
  {
    b % 16
  }

  lemma FirstOctetRoundTrip(kind: nat, flags: nat, b: byte)
    requires kind < 16
    ensures KindOf(TypeByte(kind, flags)) == kind && FlagsOf(TypeByte(kind, flags)) == flags % 16
    ensures flags < 16 ==> FlagsOf(TypeByte(kind, flags)) == flags
    ensures TypeByte(KindOf(b), FlagsOf(b)) == b
  {
  }

  /** The three connect flags that announce optional strings: 0x04, 0x80 and 0x40. */
  predicate HasWill(flags: byte)
  {
    flags / 4 % 2 == 1
  }

  predicate HasUsername(flags: byte)
  {
    flags / 128 % 2 == 1
  }

  predicate HasPassword(flags: byte)
  {
    flags / 64 % 2 == 1
  }

  // ---- strings -----------------------------------------------------------------------------

  datatype StringRead = StringRead(text: Text, next: nat)

  /** Reads a length-prefixed string at `p`; on a short frame the text is empty, and the cursor
      has moved past the length if the length itself was there. */
  function ReadString(f: seq<byte>, p: nat): (r: StringRead)
    requires p <= |f|
    ensures p <= r.next <= |f|
  {
    if p + 2 > |f| then StringRead([], p)
    else
      var len := Word(f[p], f[p + 1]);
      if p + 2 + len > |f| then StringRead([], p + 2)
      else StringRead(f[p + 2..p + 2 + len], p + 2 + len)
  }

  /** The 16-bit cast cuts the length, not the text. */
  function WriteString(s: Text): (r: seq<byte>)
  {
    WordBytes(|s| % 0x1_0000) + s
  }

  // ---- packet bodies -----------------------------------------------------------------------

  function ReadStringIf(present: bool, f: seq<byte>, p: nat): (r: StringRead)
    requires p <= |f|
    ensures p <= r.next <= |f|
  {
    if present then ReadString(f, p) else StringRead([], p)
  }

  datatype ConnectTexts = ConnectTexts(
    clientId: Text, willTopic: Text, willMessage: Text, username: Text, password: Text)

  /** The strings of a CONNECT payload; the flags say which optional ones are there. */
  function ReadConnectTexts(will: bool, user: bool, pass: bool, f: seq<byte>, p: nat): (r: ConnectTexts)
    requires p <= |f|
  {
    var clientId := ReadString(f, p);
    var willTopic := ReadStringIf(will, f, clientId.next);
    var willMessage := ReadStringIf(will, f, willTopic.next);
    var username := ReadStringIf(user, f, willMessage.next);
    var password := ReadStringIf(pass, f, username.next);
    ConnectTexts(clientId.text, willTopic.text, willMessage.text, username.text, password.text)
  }

  /** The keep-alive word is only meaningful when both its octets belong to the frame; the
      original loads it first and then rejects the frame. */
  function ParseConnect(f: seq<byte>): (o: Outcome)
  {
    var name := ReadString(f, 0);
    var p := name.next;
    if p + 4 > |f| then Rejected
    else
      Accepted([Connected(ConnectPayload(
        name.text, f[p], f[p + 1], Word(f[p + 2], f[p + 3]),
        ReadConnectTexts(HasWill(f[p + 1]), HasUsername(f[p + 1]), HasPassword(f[p + 1]), f, p + 4)))])
  }

  function ParsePublish(flags: nat, f: seq<byte>): (o: Outcome)
    requires flags < 16
  {
    var retain := flags % 2 == 1;
    var qos := flags / 2 % 4;
    var topic := ReadString(f, 0);
    var p := topic.next;
    if qos == 0 then Accepted([Published(topic.text, f[p..], 0, retain, 0)])
    else if p + 2 > |f| then Rejected
    else Accepted([Published(topic.text, f[p + 2..], qos, retain, Word(f[p], f[p + 1]))])
  }

  datatype FilterRead = Filters(filters: seq<TopicFilter>) | Truncated

  function ReadFilters(f: seq<byte>, p: nat): (r: FilterRead)
    requires p <= |f|
    decreases |f| - p
  {
    if p == |f| then Filters([])
    else
      var topic := ReadString(f, p);
      if topic.next >= |f| then Truncated
      else
        match ReadFilters(f, topic.next + 1)
        case Truncated => Truncated
        case Filters(rest) => Filters([TopicFilter(topic.text, f[topic.next])] + rest)
  }

  function ParseSubscribe(f: seq<byte>): (o: Outcome)
  {
    if 2 > |f| then Rejected
    else
      match ReadFilters(f, 2)
      case Truncated => Rejected
      case Filters(filters) => Accepted([Subscribed(Word(f[0], f[1]), filters)])
  }

  function ParsePubAck(f: seq<byte>): (o: Outcome)
  {
    if |f| < 2 then Rejected else Accepted([PubAcked(Word(f[0], f[1]))])
  }

  /** Dispatch on the packet type; types the gateway does not handle are skipped silently. */
  function ParseBody(first: byte, f: seq<byte>): (o: Outcome)
  {
    var kind := KindOf(first);
    if kind == CONNECT then ParseConnect(f)
    else if kind == PUBLISH then ParsePublish(FlagsOf(first), f)
    else if kind == PUBACK then ParsePubAck(f)
    else if kind == SUBSCRIBE then ParseSubscribe(f)
    else if kind == PINGREQ then Accepted([Pinged])
    else if kind == DISCONNECT then Accepted([Disconnected])
    else Accepted([])
  }

  // ---- framing -----------------------------------------------------------------------------

  /** The first frame of `s`, if all of it is there. */
  function NextFrame(s: seq<byte>): (r: Reading)
    ensures r.Frame? ==> 2 <= r.total <= |s|
  {
    if |s| < 2 then Incomplete
    else
      var rl := RemainingLength.Decode(s[1..]);
      var start := 1 + rl.consumed;
      var total := start + rl.value;
      if |s| < total then Incomplete
      else Frame(total, ParseBody(s[0], s[start..total]))
  }

  /** A frame is recognised as soon as its last octet is there, from its own octets alone, and
      not before. */
  lemma FrameIsLocal(t: seq<byte>, more: seq<byte>)
    ensures NextFrame(t).Frame? ==> NextFrame(t + more) == NextFrame(t)
    ensures NextFrame(t).Incomplete? && NextFrame(t + more).Frame? ==> |t| < NextFrame(t + more).total
  {
    hide ParseBody;
    if |t| >= 2 {
      var s := t + more;
      assert s[1..] == t[1..] + more;
      RemainingLength.DecodePrefix(t[1..], more, RemainingLength.MAX_GROUPS);
      var rl := RemainingLength.Decode(t[1..]);
      var start := 1 + rl.consumed;
      var total := start + rl.value;
      if total <= |t| {
        assert s[start..total] == t[start..total];
      }
    }
  }

  /** Every proper prefix of a complete frame is incomplete. */
  lemma ProperPrefixIncomplete(s: seq<byte>, k: nat)
    requires NextFrame(s).Frame? && k < NextFrame(s).total
    ensures NextFrame(s[..k]).Incomplete?
  {
    FrameIsLocal(s[..k], s[k..]);
    assert s[..k] + s[k..] == s;
  }

  // ---- packets the codec emits ---------------------------------------------------------------

  function PublishBody(topic: Text, body: Text, qos: nat, packetId: uint16): (s: seq<byte>)
  {
    WriteString(topic) + (if qos > 0 then WordBytes(packetId) else []) + body
  }

  /** `qos` ranges over the three levels of `MqttQoS`. */
  datatype Packet =
    | ConnAck(code: byte)
    | SubAck(packetId: uint16, codes: seq<byte>)
    | PubAck(packetId: uint16)
    | Publish(topic: Text, body: Text, qos: nat, packetId: uint16, retain: bool)
    | PingResp
    | UnsubAck(packetId: uint16)
  {
    predicate Valid() {
      Publish? ==> qos <= 2
    }

    function Kind(): (k: nat)
      ensures k < 16
    {
      match this
      case ConnAck(_) => CONNACK
      case SubAck(_, _) => SUBACK
      case PubAck(_) => PUBACK
      case Publish(_, _, _, _, _) => PUBLISH
      case PingResp => PINGRESP
      case UnsubAck(_) => UNSUBACK
    }

    function Flags(): (flags: nat)
      requires Valid()
      ensures flags < 16
    {
      if Publish? then (if retain then 1 else 0) + 2 * qos else 0
    }

    function Body(): (s: seq<byte>)
    {
      match this
      case ConnAck(code) => [0, code]
      case SubAck(id, codes) => WordBytes(id) + codes
      case PubAck(id) => WordBytes(id)
      case Publish(topic, body, qos, id, _) => PublishBody(topic, body, qos, id)
      case PingResp => []
      case UnsubAck(id) => WordBytes(id)
    }
  }

  /** The octets of one packet; the length is computed in 32 bits. */
  function Encode(p: Packet): (s: seq<byte>)
    requires p.Valid()
  {
    [TypeByte(p.Kind(), p.Flags())] + RemainingLength.Encode(|p.Body()| % 0x1_0000_0000) + p.Body()
  }

  /** The callbacks a reader of the packet should see. */
  function Meaning(p: Packet): (events: seq<Event>)
  {
    match p
    case Publish(topic, body, qos, id, retain) =>
      [Published(topic, body, qos, retain, if qos > 0 then id else 0)]
    case PubAck(id) => [PubAcked(id)]
    case _ => []
  }
}
