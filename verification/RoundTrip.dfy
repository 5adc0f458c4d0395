/** What the codec writes, the codec reads back; and exactly when it does. */
module RoundTrip {
  import opened Bytes
  import opened MqttWire
  import RemainingLength

  /** What the two length fields can express. */
  predicate Expressible(p: Packet)
  {
    |p.Body()| < 0x1000_0000 && (p.Publish? ==> |p.topic| < 0x1_0000)
  }

  lemma ReadWrittenString(topic: Text, rest: seq<byte>)
    requires |topic| < 0x1_0000
    ensures ReadString(WriteString(topic) + rest, 0) == StringRead(topic, 2 + |topic|)
  {
    var n: uint16 := |topic|;
    var len := WordBytes(n);
    var f := len + topic + rest;
    assert n % 0x1_0000 == n;
    assert f[0] == len[0] && f[1] == len[1];
    assert f[2..2 + n] == topic;
  }

  lemma FlagBits(retain: bool, qos: nat)
    requires qos <= 2
    ensures var flags := (if retain then 1 else 0) + 2 * qos;
      flags < 16 && (flags % 2 == 1) == retain && flags / 2 % 4 == qos
  {
  }

  lemma PublishRead(flags: nat, topic: Text, body: Text, qos: nat, packetId: uint16, retain: bool)
    requires flags < 16 && qos <= 2 && (flags % 2 == 1) == retain && flags / 2 % 4 == qos
    requires |topic| < 0x1_0000
    ensures ParsePublish(flags, PublishBody(topic, body, qos, packetId))
         == Accepted([Published(topic, body, qos, retain, if qos > 0 then packetId else 0)])
  {
    var id := if qos > 0 then WordBytes(packetId) else [];
    var f := PublishBody(topic, body, qos, packetId);
    Reassociate(WriteString(topic), id, body);
    ReadWrittenString(topic, id + body);
    var p := 2 + |topic|;
    assert f[p..] == id + body;
    if qos > 0 {
      assert f[p] == f[p..][0] && f[p + 1] == f[p..][1];
      assert f[p + 2..] == f[p..][2..];
    }
  }

  lemma PublishBodyRoundTrip(p: Packet)
    requires p.Publish? && p.Valid() && |p.topic| < 0x1_0000
    ensures ParsePublish(p.Flags(), p.Body()) == Accepted(Meaning(p))
  {
    FlagBits(p.retain, p.qos);
    PublishRead(p.Flags(), p.topic, p.body, p.qos, p.packetId, p.retain);
  }

  lemma BodyRead(first: byte, p: Packet)
    requires p.Valid() && Expressible(p)
    requires KindOf(first) == p.Kind() && FlagsOf(first) == p.Flags()
    ensures ParseBody(first, p.Body()) == Accepted(Meaning(p))
  {
    if p.Publish? {
      PublishBodyRoundTrip(p);
    }
  }

  lemma FrameOf(first: byte, rest: seq<byte>, rl: RemainingLength.Length)
    requires |rest| >= 1 && RemainingLength.Decode(rest) == rl
    requires rl.consumed + rl.value <= |rest|
    ensures NextFrame([first] + rest)
         == Frame(1 + rl.consumed + rl.value, ParseBody(first, rest[rl.consumed..rl.consumed + rl.value]))
  {
    hide ParseBody;
    var s := [first] + rest;
    assert s[1..] == rest;
    assert s[1 + rl.consumed..1 + rl.consumed + rl.value] == rest[rl.consumed..rl.consumed + rl.value];
  }

  /** A body behind a length that expresses it. */
  lemma FrameWithBody(first: byte, body: seq<byte>, suffix: seq<byte>)
    requires |body| < 0x1000_0000
    ensures var rl := RemainingLength.Encode(|body|);
      NextFrame([first] + (rl + (body + suffix))) == Frame(1 + |rl| + |body|, ParseBody(first, body))
  {
    hide NextFrame, ParseBody;
    var rl := RemainingLength.Encode(|body|);
    var rest := rl + (body + suffix);
    RemainingLength.EncodeIsMinimalAndInverse(|body|, body + suffix, []);
    assert rest[|rl|..|rl| + |body|] == body;
    FrameOf(first, rest, RemainingLength.Length(|body|, |rl|));
  }

  /** A body too long for its length field: the reader splits the stream inside the body. */
  lemma FrameTooLong(first: byte, body: seq<byte>, suffix: seq<byte>)
    requires |body| >= 0x1000_0000
    ensures var rl := RemainingLength.Encode(|body| % 0x1_0000_0000);
      var r := NextFrame([first] + (rl + (body + suffix)));
      r.Frame? && r.total < 1 + |rl| + |body|
  {
    var m := |body| % 0x1_0000_0000;
    var rl := RemainingLength.Encode(m);
    var rest := rl + (body + suffix);
    RemainingLength.Pow128Four();
    if m < 0x1000_0000 {
      RemainingLength.EncodeIsMinimalAndInverse(m, body + suffix, []);
    } else {
      RemainingLength.DecodeEncodeOverlong(m, body + suffix, RemainingLength.MAX_GROUPS);
    }
    FrameOf(first, rest, RemainingLength.Decode(rest));
  }

  lemma LongTopicUnreadable(first: byte, p: Packet)
    requires p.Valid() && p.Publish? && |p.topic| >= 0x1_0000
    requires KindOf(first) == PUBLISH
    ensures ParseBody(first, p.Body()) != Accepted(Meaning(p))
  {
    assert |ReadString(p.Body(), 0).text| < 0x1_0000;
  }

  lemma EncodeShape(p: Packet, first: byte, body: seq<byte>, suffix: seq<byte>)
    requires p.Valid() && first == TypeByte(p.Kind(), p.Flags()) && body == p.Body()
    ensures var rl := RemainingLength.Encode(|body| % 0x1_0000_0000);
      && Encode(p) + suffix == [first] + (rl + (body + suffix))
      && |Encode(p)| == 1 + |rl| + |body|
    ensures |body| < 0x1_0000_0000 ==> |body| % 0x1_0000_0000 == |body|
  {
    var rl := RemainingLength.Encode(|body| % 0x1_0000_0000);
    Reassociate([first], rl, body);
    Reassociate([first], rl + body, suffix);
    Reassociate(rl, body, suffix);
  }

  lemma ReadAt(p: Packet, first: byte, body: seq<byte>, suffix: seq<byte>, s: seq<byte>, n: nat)
    requires p.Valid() && body == p.Body()
    requires var rl := RemainingLength.Encode(|body| % 0x1_0000_0000);
      s == [first] + (rl + (body + suffix)) && n == 1 + |rl| + |body|
    requires |body| < 0x1_0000_0000 ==> |body| % 0x1_0000_0000 == |body|
    requires KindOf(first) == p.Kind() && FlagsOf(first) == p.Flags()
    ensures NextFrame(s) == Frame(n, Accepted(Meaning(p))) <==> Expressible(p)
  {
    if Expressible(p) {
      FrameWithBody(first, body, suffix);
      BodyRead(first, p);
    } else if |body| < 0x1000_0000 {
      FrameWithBody(first, body, suffix);
      LongTopicUnreadable(first, p);
    } else {
      FrameTooLong(first, body, suffix);
    }
  }

  lemma FirstOctetOf(p: Packet, first: byte)
    requires p.Valid() && first == TypeByte(p.Kind(), p.Flags())
    ensures KindOf(first) == p.Kind() && FlagsOf(first) == p.Flags()
  {
    FirstOctetRoundTrip(p.Kind(), p.Flags(), first);
  }

  lemma EncodedRead(p: Packet, first: byte, suffix: seq<byte>)
    requires p.Valid() && first == TypeByte(p.Kind(), p.Flags())
    requires KindOf(first) == p.Kind() && FlagsOf(first) == p.Flags()
    ensures NextFrame(Encode(p) + suffix) == Frame(|Encode(p)|, Accepted(Meaning(p))) <==> Expressible(p)
  {
    EncodeShape(p, first, p.Body(), suffix);
    ReadAt(p, first, p.Body(), suffix, Encode(p) + suffix, |Encode(p)|);
  }

  /** The codec reads back what it wrote, in front of any further octets, if and only if topic and
      body fit the length fields of the format: a longer topic loses its length's high bits, and a
      longer body does not fit the Remaining Length. */
  lemma RoundTripIff(p: Packet, suffix: seq<byte>)
    requires p.Valid()
    ensures NextFrame(Encode(p) + suffix) == Frame(|Encode(p)|, Accepted(Meaning(p))) <==> Expressible(p)
  {
    FirstOctetOf(p, TypeByte(p.Kind(), p.Flags()));
    EncodedRead(p, TypeByte(p.Kind(), p.Flags()), suffix);
  }
}
