/** The packets of MQTT 3.1.1 octet by octet, with every number written out: what clients send and the
    codec must read, and what the codec sends. */
module PacketOctets {
  import opened Bytes
  import opened MqttWire
  import RemainingLength
  import RoundTrip

  /** Section 1.5.2: a 16-bit number, high octet first. */
  function Num(w: uint16): (s: seq<byte>)
    ensures |s| == 2
  {
    [w / 256, w % 256]
  }

  /** Section 1.5.3: a string behind its length. */
  function Str(t: Text): (s: seq<byte>)
    requires |t| < 65536
    ensures |s| == 2 + |t|
  {
    Num(|t|) + t
  }

  // ---- what clients send -----------------------------------------------------------------------------

  datatype ClientPacket =
    | Connect(name: Text, level: byte, flags: byte, keepAlive: uint16, texts: ConnectTexts)
    | Publication(topic: Text, body: Text, qos: nat, packetId: uint16, retain: bool, dup: bool)
    | Acknowledgement(packetId: uint16)
    | Subscription(packetId: uint16, filters: seq<TopicFilter>)
    | Ping
    | Goodbye

  /** The connect flags 0x04, 0x80 and 0x40. */
  predicate Will(flags: byte)
  {
    flags % 8 >= 4
  }

  predicate User(flags: byte)
  {
    flags >= 128
  }

  predicate Pass(flags: byte)
  {
    flags % 128 >= 64
  }

  lemma FlagMasks(flags: bv8)
    ensures flags & 0x04 != 0 <==> Will(flags as int)
    ensures flags & 0x80 != 0 <==> User(flags as int)
    ensures flags & 0x40 != 0 <==> Pass(flags as int)
  {
  }

  predicate Short(t: ConnectTexts)
  {
    |t.clientId| < 65536 && |t.willTopic| < 65536 && |t.willMessage| < 65536 && |t.username| < 65536 && |t.password| < 65536
  }

  /** Every string fits its length, and the QoS is one of the three. */
  predicate Proper(p: ClientPacket)
  {
    match p
    case Connect(name, _, _, _, texts) => |name| < 65536 && Short(texts)
    case Publication(topic, _, qos, _, _, _) => |topic| < 65536 && qos <= 2
    case Subscription(_, filters) => forall f <- filters :: |f.topic| < 65536
    case _ => true
  }

  function StrIf(present: bool, t: Text): (s: seq<byte>)
    requires |t| < 65536
  {
    if present then Str(t) else []
  }

  /** Section 3.1.3: client id, will topic, will message, user name, password, in this order. */
  function TextOctets(flags: byte, t: ConnectTexts): (s: seq<byte>)
    requires Short(t)
  {
    Str(t.clientId) + (StrIf(Will(flags), t.willTopic) + (StrIf(Will(flags), t.willMessage)
      + (StrIf(User(flags), t.username) + StrIf(Pass(flags), t.password))))
  }

  function FilterOctets(filters: seq<TopicFilter>): (s: seq<byte>)
    requires forall f <- filters :: |f.topic| < 65536
  {
    if filters == [] then [] else Str(filters[0].topic) + ([filters[0].qos] + FilterOctets(filters[1..]))
  }

  function FirstOctet(p: ClientPacket): (b: byte)
    requires Proper(p)
  {
    match p
    case Connect(_, _, _, _, _) => 16
    case Publication(_, _, qos, _, retain, dup) => 48 + (if dup then 8 else 0) + 2 * qos + (if retain then 1 else 0)
    case Acknowledgement(_) => 64
    case Subscription(_, _) => 130
    case Ping => 192
    case Goodbye => 224
  }

  function Payload(p: ClientPacket): (s: seq<byte>)
    requires Proper(p)
  {
    match p
    case Connect(name, level, flags, keepAlive, texts) =>
      Str(name) + ([level, flags] + (Num(keepAlive) + TextOctets(flags, texts)))
    case Publication(topic, body, qos, id, _, _) => Str(topic) + ((if qos > 0 then Num(id) else []) + body)
    case Acknowledgement(id) => Num(id)
    case Subscription(id, filters) => Num(id) + FilterOctets(filters)
    case Ping => []
    case Goodbye => []
  }

  /** What the packet says; strings that the flags do not announce are empty. */
  function Says(p: ClientPacket): (e: Event)
  {
    match p
    case Connect(name, level, flags, keepAlive, t) =>
      Connected(ConnectPayload(name, level, flags, keepAlive, ConnectTexts(
        t.clientId, if Will(flags) then t.willTopic else [], if Will(flags) then t.willMessage else [],
        if User(flags) then t.username else [], if Pass(flags) then t.password else [])))
    case Publication(topic, body, qos, id, retain, _) => Published(topic, body, qos, retain, if qos > 0 then id else 0)
    case Acknowledgement(id) => PubAcked(id)
    case Subscription(id, filters) => Subscribed(id, filters)
    case Ping => Pinged
    case Goodbye => Disconnected
  }

  // ---- reading strings -------------------------------------------------------------------------------

  /** A string that is there, in front of anything. */
  lemma StrRead(f: seq<byte>, p: nat, t: Text, rest: seq<byte>)
    requires p <= |f| && |t| < 65536 && f[p..] == Str(t) + rest
    ensures ReadString(f, p) == StringRead(t, p + 2 + |t|)
    ensures p + 2 + |t| <= |f| && f[p + 2 + |t|..] == rest
  {
    var n := 2 + |t|;
    assert f[p] == f[p..][0] && f[p + 1] == f[p..][1];
    assert Word(|t| / 256, |t| % 256) == |t|;
    assert (Str(t) + rest)[2..n] == t && (Str(t) + rest)[n..] == rest;
    assert f[p + 2..p + n] == f[p..][2..n] && f[p + n..] == f[p..][n..];
  }

  lemma StrIfRead(present: bool, f: seq<byte>, p: nat, t: Text, rest: seq<byte>)
    requires p <= |f| && |t| < 65536 && f[p..] == StrIf(present, t) + rest
    ensures var r := ReadStringIf(present, f, p);
      r.text == (if present then t else []) && r.next <= |f| && f[r.next..] == rest
  {
    hide ReadString, Str;
    if present {
      StrRead(f, p, t, rest);
    } else {
      assert [] + rest == rest;
    }
  }

  /** A string that is not all there reads as empty: the cursor stays in front of a length that is cut off,
      and goes behind a length that promises too much. */
  lemma CutStringRead(f: seq<byte>, p: nat, n: uint16, t: Text)
    requires p <= |f|
    ensures |f| - p < 2 ==> ReadString(f, p) == StringRead([], p)
    ensures f[p..] == Num(n) + t && |t| < n ==> ReadString(f, p) == StringRead([], p + 2)
  {
    if f[p..] == Num(n) + t {
      assert f[p] == f[p..][0] && f[p + 1] == f[p..][1];
    }
  }

  lemma FlagsAnnounce(flags: byte)
    ensures HasWill(flags) == Will(flags) && HasUsername(flags) == User(flags) && HasPassword(flags) == Pass(flags)
  {
  }

  lemma TextsRead(flags: byte, t: ConnectTexts, f: seq<byte>, p: nat)
    requires Short(t) && p <= |f| && f[p..] == TextOctets(flags, t)
    ensures ReadConnectTexts(Will(flags), User(flags), Pass(flags), f, p) == ConnectTexts(
        t.clientId, if Will(flags) then t.willTopic else [], if Will(flags) then t.willMessage else [],
        if User(flags) then t.username else [], if Pass(flags) then t.password else [])
  {
    hide ReadString, ReadStringIf, Str, StrIf, Will, User, Pass;
    var pass := StrIf(Pass(flags), t.password);
    var user := StrIf(User(flags), t.username) + pass;
    var message := StrIf(Will(flags), t.willMessage) + user;
    var topic := StrIf(Will(flags), t.willTopic) + message;
    StrRead(f, p, t.clientId, topic);
    var p1 := ReadString(f, p).next;
    StrIfRead(Will(flags), f, p1, t.willTopic, message);
    var p2 := ReadStringIf(Will(flags), f, p1).next;
    StrIfRead(Will(flags), f, p2, t.willMessage, user);
    var p3 := ReadStringIf(Will(flags), f, p2).next;
    StrIfRead(User(flags), f, p3, t.username, pass);
    var p4 := ReadStringIf(User(flags), f, p3).next;
    assert pass + [] == pass;
    StrIfRead(Pass(flags), f, p4, t.password, []);
  }

  lemma NumRead(w: uint16)
    ensures Word(Num(w)[0], Num(w)[1]) == w
  {
  }

  lemma ConnectRead(p: ClientPacket)
    requires Proper(p) && p.Connect?
    ensures ParseConnect(Payload(p)) == Accepted([Says(p)])
  {
    hide ReadString, ReadConnectTexts, TextOctets, Str, Num, HasWill, HasUsername, HasPassword, Will, User, Pass;
    var f := Payload(p);
    var texts := TextOctets(p.flags, p.texts);
    var tail := [p.level, p.flags] + (Num(p.keepAlive) + texts);
    assert f[0..] == f;
    StrRead(f, 0, p.name, tail);
    var q := 2 + |p.name|;
    var num := Num(p.keepAlive);
    assert tail[0] == p.level && tail[1] == p.flags && tail[2] == num[0] && tail[3] == num[1] && tail[4..] == texts;
    assert f[q] == f[q..][0] && f[q + 1] == f[q..][1] && f[q + 2] == f[q..][2] && f[q + 3] == f[q..][3];
    assert f[q + 4..] == f[q..][4..];
    NumRead(p.keepAlive);
    FlagsAnnounce(p.flags);
    TextsRead(p.flags, p.texts, f, q + 4);
  }

  lemma {:induction false} FiltersRead(f: seq<byte>, p: nat, filters: seq<TopicFilter>)
    requires (forall g <- filters :: |g.topic| < 65536) && p <= |f| && f[p..] == FilterOctets(filters)
    ensures ReadFilters(f, p) == Filters(filters)
    decreases |filters|
  {
    hide ReadString, Str;
    if filters != [] {
      var g := filters[0];
      var rest := FilterOctets(filters[1..]);
      StrRead(f, p, g.topic, [g.qos] + rest);
      var q := p + 2 + |g.topic|;
      assert f[q] == f[q..][0] == g.qos;
      assert f[q + 1..] == f[q..][1..] == rest;
      FiltersRead(f, q + 1, filters[1..]);
      assert [g] + filters[1..] == filters;
    }
  }

  lemma SubscriptionRead(p: ClientPacket)
    requires Proper(p) && p.Subscription?
    ensures ParseSubscribe(Payload(p)) == Accepted([Says(p)])
  {
    hide ReadFilters, FilterOctets, Num;
    var f := Payload(p);
    var num := Num(p.packetId);
    assert f[0] == num[0] && f[1] == num[1] && f[2..] == FilterOctets(p.filters);
    NumRead(p.packetId);
    FiltersRead(f, 2, p.filters);
  }

  lemma PublicationRead(p: ClientPacket)
    requires Proper(p) && p.Publication?
    ensures ParsePublish(FirstOctet(p) % 16, Payload(p)) == Accepted([Says(p)])
  {
    hide ReadString, Str, Num, FirstOctet;
    var f := Payload(p);
    var id := if p.qos > 0 then Num(p.packetId) else [];
    assert f[0..] == f;
    StrRead(f, 0, p.topic, id + p.body);
    NumRead(p.packetId);
    PublicationFlags(p);
    BehindTopic(f, 2 + |p.topic|, id, p.body);
    assert p.qos == 0 ==> [] + p.body == p.body;
  }

  lemma PublicationFlags(p: ClientPacket)
    requires Proper(p) && p.Publication?
    ensures var flags := FirstOctet(p) % 16;
      (flags % 2 == 1) == p.retain && flags / 2 % 4 == p.qos
  {
  }

  lemma BehindTopic(f: seq<byte>, q: nat, id: seq<byte>, body: seq<byte>)
    requires q <= |f| && f[q..] == id + body
    ensures |id| == 2 ==> f[q] == id[0] && f[q + 1] == id[1] && f[q + 2..] == body
  {
    if |id| == 2 {
      assert f[q] == f[q..][0] && f[q + 1] == f[q..][1];
      assert f[q + 2..] == f[q..][2..];
    }
  }

  lemma PayloadRead(p: ClientPacket)
    requires Proper(p)
    ensures ParseBody(FirstOctet(p), Payload(p)) == Accepted([Says(p)])
  {
    hide ParseConnect, ParsePublish, ParseSubscribe, Says;
    match p {
      case Connect(_, _, _, _, _) => ConnectRead(p);
      case Publication(_, _, _, _, _, _) => PublicationRead(p);
      case Subscription(_, _) => SubscriptionRead(p);
      case Acknowledgement(id) => AcknowledgementRead(p);
      case _ => NothingToRead(p);
    }
  }

  lemma AcknowledgementRead(p: ClientPacket)
    requires p.Acknowledgement?
    ensures ParsePubAck(Payload(p)) == Accepted([Says(p)])
  {
    NumRead(p.packetId);
  }

  lemma NothingToRead(p: ClientPacket)
    requires p.Ping? || p.Goodbye?
    ensures ParseBody(FirstOctet(p), Payload(p)) == Accepted([Says(p)])
  {
  }

  /** A client's packet as it arrives: first octet, Remaining Length, payload. */
  function Arriving(p: ClientPacket): (s: seq<byte>)
    requires Proper(p)
  {
    [FirstOctet(p)] + (RemainingLength.Encode(|Payload(p)|) + Payload(p))
  }

  /** Every packet a client may send, with any flags and any strings its lengths can express, in front of
      anything, is split off at its last octet and read as exactly what it says. */
  lemma ClientPacketRead(p: ClientPacket, suffix: seq<byte>)
    requires Proper(p) && |Payload(p)| < 268_435_456
    ensures NextFrame(Arriving(p) + suffix) == Frame(|Arriving(p)|, Accepted([Says(p)]))
  {
    hide NextFrame, ParseBody, Payload, FirstOctet, Says;
    var rl := RemainingLength.Encode(|Payload(p)|);
    RoundTrip.FrameWithBody(FirstOctet(p), Payload(p), suffix);
    PayloadRead(p);
    Reassociate([FirstOctet(p)], rl + Payload(p), suffix);
    Reassociate(rl, Payload(p), suffix);
  }

  /** The packets that are refused for what they lack, whatever they hold otherwise; and the types nobody
      handles, which are skipped. */
  lemma CutPacketsRefused(first: byte, name: Text, rest: seq<byte>, id: uint16, filters: seq<TopicFilter>)
    requires |name| < 65536 && forall g <- filters :: |g.topic| < 65536
    ensures first / 16 == 1 && |rest| < 4 ==> ParseBody(first, Str(name) + rest) == Rejected
    ensures first / 16 == 3 && first / 2 % 4 > 0 && |rest| < 2 ==> ParseBody(first, Str(name) + rest) == Rejected
    ensures (first / 16 == 4 || first / 16 == 8) && |rest| < 2 ==> ParseBody(first, rest) == Rejected
    ensures first / 16 == 8 ==> ParseBody(first, Num(id) + (FilterOctets(filters) + Str(name))) == Rejected
    ensures first / 16 !in {1, 3, 4, 8, 12, 14} ==> ParseBody(first, rest) == Accepted([])
  {
    hide ReadString, Str, Num, ReadFilters, FilterOctets, ReadConnectTexts;
    var f := Str(name) + rest;
    assert f[0..] == f;
    StrRead(f, 0, name, rest);
    CutFilters(Num(id) + (FilterOctets(filters) + Str(name)), 2, filters, name);
  }

  lemma {:induction false} CutFilters(f: seq<byte>, p: nat, filters: seq<TopicFilter>, name: Text)
    requires |name| < 65536 && (forall g <- filters :: |g.topic| < 65536)
    requires p <= |f| && f[p..] == FilterOctets(filters) + Str(name)
    ensures ReadFilters(f, p) == Truncated
    decreases |filters|
  {
    hide ReadString, Str;
    if filters == [] {
      assert f[p..] == Str(name) + [];
      StrRead(f, p, name, []);
    } else {
      var g := filters[0];
      var rest := FilterOctets(filters[1..]) + Str(name);
      assert f[p..] == Str(g.topic) + ([g.qos] + rest);
      StrRead(f, p, g.topic, [g.qos] + rest);
      var q := p + 2 + |g.topic|;
      assert f[q + 1..] == f[q..][1..] == rest;
      CutFilters(f, q + 1, filters[1..], name);
    }
  }

  // ---- what the codec sends --------------------------------------------------------------------------

  lemma LengthStep(n: nat)
    ensures n < 128 ==> RemainingLength.Encode(n) == [n]
    ensures n >= 128 ==> RemainingLength.Encode(n) == [n % 128 + 128] + RemainingLength.Encode(n / 128)
  {
  }

  /** Section 2.2.3: one to four groups of seven bits, lowest first, with bit 8 set on all but the last. */
  lemma LengthOctets(n: nat, a: nat, b: nat, c: nat)
    requires a == n / 128 && b == a / 128 && c == b / 128
    ensures n < 128 ==> RemainingLength.Encode(n) == [n]
    ensures n >= 128 && a < 128 ==> RemainingLength.Encode(n) == [n % 128 + 128, a]
    ensures n >= 128 && a >= 128 && b < 128 ==> RemainingLength.Encode(n) == [n % 128 + 128, a % 128 + 128, b]
    ensures n >= 128 && a >= 128 && b >= 128 && c < 128 ==>
      RemainingLength.Encode(n) == [n % 128 + 128, a % 128 + 128, b % 128 + 128, c]
  {
    hide RemainingLength.Encode;
    LengthStep(n);
    LengthStep(a);
    LengthStep(b);
    LengthStep(c);
  }

  lemma FitsWord(n: nat)
    requires n < 268_435_456
    ensures n % 0x1_0000_0000 == n
  {
  }

  /** A packet whose body the Remaining Length can express. */
  lemma SentParts(p: Packet)
    requires p.Valid() && |p.Body()| < 268_435_456
    ensures Encode(p) == [TypeByte(p.Kind(), p.Flags())] + RemainingLength.Encode(|p.Body()|) + p.Body()
  {
    hide RemainingLength.Encode, TypeByte, Packet.Kind, Packet.Flags, Packet.Body;
    FitsWord(|p.Body()|);
  }

  lemma SentNum(p: Packet, id: uint16)
    requires p == PubAck(id) || p == UnsubAck(id)
    ensures Encode(p) == [if p.PubAck? then 64 else 176, 2] + Num(id)
  {
    hide Encode, RemainingLength.Encode;
    SentParts(p);
    LengthStep(2);
  }

  /** Every packet the codec sends, in octets. */
  lemma SentOctets(code: byte, id: uint16, codes: seq<byte>)
    ensures Encode(ConnAck(code)) == [32, 2, 0, code]
    ensures Encode(PubAck(id)) == [64, 2] + Num(id)
    ensures Encode(UnsubAck(id)) == [176, 2] + Num(id)
    ensures Encode(PingResp) == [208, 0]
    ensures |codes| < 268_435_454 ==>
      Encode(SubAck(id, codes)) == [144] + RemainingLength.Encode(2 + |codes|) + (Num(id) + codes)
  {
    hide RemainingLength.Encode, Encode, Num;
    SentNum(PubAck(id), id);
    SentNum(UnsubAck(id), id);
    SentParts(ConnAck(code));
    LengthStep(2);
    SentParts(PingResp);
    LengthStep(0);
    if |codes| < 268_435_454 {
      SubAckOctets(id, codes);
    }
  }

  lemma SubAckParts(id: uint16, codes: seq<byte>)
    ensures var p := SubAck(id, codes);
      TypeByte(p.Kind(), p.Flags()) == 144 && p.Body() == Num(id) + codes && |p.Body()| == 2 + |codes|
  {
    hide Num, WordBytes;
    SameWord(id);
  }

  lemma SubAckOctets(id: uint16, codes: seq<byte>)
    requires |codes| < 268_435_454
    ensures Encode(SubAck(id, codes)) == [144] + RemainingLength.Encode(2 + |codes|) + (Num(id) + codes)
  {
    hide RemainingLength.Encode, Encode, TypeByte, Num, Packet.Body, Packet.Kind, Packet.Flags;
    SubAckParts(id, codes);
    SentParts(SubAck(id, codes));
  }

  lemma SameWord(w: uint16)
    ensures WordBytes(w) == Num(w)
  {
  }

  lemma LengthWord(topic: Text)
    requires |topic| < 65536
    ensures WriteString(topic) == Str(topic)
  {
  }

  lemma PublishOctets(topic: Text, body: Text, qos: nat, id: uint16, retain: bool)
    requires qos <= 2 && |topic| < 65536 && 4 + |topic| + |body| < 268_435_456
    ensures var payload := Str(topic) + (if qos > 0 then Num(id) else []) + body;
      Encode(Publish(topic, body, qos, id, retain))
        == [48 + 2 * qos + (if retain then 1 else 0)] + RemainingLength.Encode(|payload|) + payload
  {
    hide RemainingLength.Encode, Encode, WriteString, Str;
    LengthWord(topic);
    PublishFirst(topic, body, qos, id, retain);
    SentParts(Publish(topic, body, qos, id, retain));
  }

  lemma PublishFirst(topic: Text, body: Text, qos: nat, id: uint16, retain: bool)
    requires qos <= 2
    ensures var p := Publish(topic, body, qos, id, retain);
      TypeByte(p.Kind(), p.Flags()) == 48 + 2 * qos + (if retain then 1 else 0)
  {
  }
}
