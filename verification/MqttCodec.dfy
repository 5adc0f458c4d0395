/** The codec itself (src/protocol/MqttCodec.cpp): a cursor over the input buffer, running values
    in its loops, and encoders that append to an output buffer. */
module MqttCodec {
  import opened Bytes
  import opened NetBuffer
  import opened MqttWire
  import RemainingLength

  datatype ParseResult = OK | INCOMPLETE | ERROR

  /** What the decoder has so far, put in front of what the remaining octets decode to. */
  ghost function Scaled(value: nat, multiplier: nat, i: nat, rest: RemainingLength.Length): RemainingLength.Length
  {
    RemainingLength.Length(value + multiplier * rest.value, i + rest.consumed)
  }

  lemma ScaledStep(s: seq<byte>, i: nat, value: nat, multiplier: nat)
    requires i < |s| && i < 4 && s[i] >= 128
    ensures Scaled(value, multiplier, i, RemainingLength.Decode(s[i..], 4 - i))
         == Scaled(value + (s[i] - 128) * multiplier, multiplier * 128, i + 1, RemainingLength.Decode(s[i + 1..], 3 - i))
  {
    var low, rest := s[i] - 128, RemainingLength.Decode(s[i + 1..], 3 - i);
    assert s[i..][0] == s[i] && s[i..][1..] == s[i + 1..];
    Distribute(multiplier, low, rest.value);
  }

  lemma DecodeLast(s: seq<byte>, i: nat, value: nat, multiplier: nat)
    requires i < |s| && i < 4 && s[i] < 128
    ensures Scaled(value, multiplier, i, RemainingLength.Decode(s[i..], 4 - i))
         == RemainingLength.Length(value + multiplier * s[i], i + 1)
  {
    assert s[i..][0] == s[i];
  }

  lemma Distribute(m: nat, low: nat, high: nat)
    ensures m * (low + 128 * high) == low * m + m * 128 * high
  {
  }

  /** `decodeRemainingLength` over the octets `s` behind the first one. */
  method DecodeRemainingLength(s: seq<byte>) returns (value: nat, consumed: nat)
    ensures RemainingLength.Decode(s) == RemainingLength.Length(value, consumed)
  {
    hide RemainingLength.Decode, Scaled;
    value := 0;
    var multiplier: nat := 1;
    var i := 0;
    assert s[0..] == s;
    ScaledEnds(0, 1, 0, RemainingLength.Decode(s));
    while i < |s| && i < 4
      invariant i <= |s| && i <= 4
      invariant RemainingLength.Decode(s) == Scaled(value, multiplier, i, RemainingLength.Decode(s[i..], 4 - i))
    {
      if s[i] < 128 {
        DecodeLast(s, i, value, multiplier);
        value := value + multiplier * s[i];
        return value, i + 1;
      }
      ScaledStep(s, i, value, multiplier);
      value := value + (s[i] - 128) * multiplier;
      multiplier := multiplier * 128;
      i := i + 1;
    }
    DecodeNothing(s[i..], 4 - i);
    ScaledEnds(value, multiplier, i, RemainingLength.Length(0, 1));
    consumed := i + 1;
  }

  lemma ScaledEnds(value: nat, multiplier: nat, i: nat, rest: RemainingLength.Length)
    ensures Scaled(0, 1, 0, rest) == rest
    ensures rest == RemainingLength.Length(0, 1) ==> Scaled(value, multiplier, i, rest) == RemainingLength.Length(value, i + 1)
  {
  }

  lemma DecodeNothing(s: seq<byte>, groups: nat)
    requires s == [] || groups == 0
    ensures RemainingLength.Decode(s, groups) == RemainingLength.Length(0, 1)
  {
  }

  /** `readMqttString`: the cursor `p` into the frame `f` is handed back. */
  method ReadMqttString(f: seq<byte>, p: nat) returns (text: Text, next: nat)
    requires p <= |f|
    ensures p <= next <= |f| && ReadString(f, p) == StringRead(text, next)
  {
    if p + 2 > |f| {
      return [], p;
    }
    var len := Word(f[p], f[p + 1]);
    next := p + 2;
    if next + len > |f| {
      return [], next;
    }
    text := f[next..next + len];
    next := next + len;
  }

  method ReadMqttStringIf(present: bool, f: seq<byte>, p: nat) returns (text: Text, next: nat)
    requires p <= |f|
    ensures p <= next <= |f| && ReadStringIf(present, f, p) == StringRead(text, next)
  {
    text, next := [], p;
    if present {
      text, next := ReadMqttString(f, p);
    }
  }

  method ReadTexts(will: bool, user: bool, pass: bool, f: seq<byte>, start: nat) returns (texts: ConnectTexts)
    requires start <= |f|
    ensures texts == ReadConnectTexts(will, user, pass, f, start)
  {
    var clientId, p := ReadMqttString(f, start);
    var willTopic, willMessage, username, password;
    willTopic, p := ReadMqttStringIf(will, f, p);
    willMessage, p := ReadMqttStringIf(will, f, p);
    username, p := ReadMqttStringIf(user, f, p);
    password, p := ReadMqttStringIf(pass, f, p);
    texts := ConnectTexts(clientId, willTopic, willMessage, username, password);
  }

  /** The topic filter loop of `parseSubscribe`, measured by the octets left. */
  method ReadFilterList(f: seq<byte>) returns (r: FilterRead)
    requires 2 <= |f|
    ensures r == ReadFilters(f, 2)
  {
    hide ReadFilters, ReadString;
    var p := 2;
    var filters: seq<TopicFilter> := [];
    BehindNothing(f, 2);
    while p < |f|
      invariant 2 <= p <= |f|
      invariant ReadFilters(f, 2) == Behind(filters, ReadFilters(f, p))
      decreases |f| - p
    {
      var topic, next := ReadMqttString(f, p);
      ReadFiltersStep(f, p, topic, next);
      if next >= |f| { return Truncated; }
      var filter := TopicFilter(topic, f[next]);
      BehindBehind(filters, [filter], ReadFilters(f, next + 1));
      filters := filters + [filter];
      p := next + 1;
    }
    BehindNothing(f, p);
    assert filters + [] == filters;
    return Filters(filters);
  }

  class Codec {
    /** The callbacks invoked so far, in order. */
    var fired: seq<Event>

    constructor ()
      ensures fired == []
    {
      fired := [];
    }

    method ParseConnect(f: seq<byte>) returns (result: ParseResult)
      modifies this
      ensures Reports(MqttWire.ParseConnect(f), result, old(fired))
    {
      var end := |f|;
      var protocolName, p := ReadMqttString(f, 0);
      if p >= end { return ERROR; }
      var protocolLevel := f[p];
      p := p + 1;
      if p >= end { return ERROR; }
      var flags := f[p];
      p := p + 1;
      if p >= end { return ERROR; }
      // The original loads the word before this test; a word cut off by the frame's end is dropped.
      if p + 2 > end { return ERROR; }
      var keepAlive := Word(f[p], f[p + 1]);
      p := p + 2;
      var texts := ReadTexts(HasWill(flags), HasUsername(flags), HasPassword(flags), f, p);
      fired := fired + [Connected(ConnectPayload(protocolName, protocolLevel, flags, keepAlive, texts))];
      return OK;
    }

    method ParsePublish(flags: nat, f: seq<byte>) returns (result: ParseResult)
      requires flags < 16
      modifies this
      ensures Reports(MqttWire.ParsePublish(flags, f), result, old(fired))
    {
      var retain := flags % 2 == 1;
      var qos := flags / 2 % 4;
      var topic, p := ReadMqttString(f, 0);
      var packetId: uint16 := 0;
      if qos > 0 {
        if p + 2 > |f| { return ERROR; }
        packetId := Word(f[p], f[p + 1]);
        p := p + 2;
      }
      fired := fired + [Published(topic, f[p..], qos, retain, packetId)];
      return OK;
    }

    method ParseSubscribe(f: seq<byte>) returns (result: ParseResult)
      modifies this
      ensures Reports(MqttWire.ParseSubscribe(f), result, old(fired))
    {
      if 2 > |f| { return ERROR; }
      var packetId := Word(f[0], f[1]);
      var read := ReadFilterList(f);
      if read.Truncated? { return ERROR; }
      fired := fired + [Subscribed(packetId, read.filters)];
      return OK;
    }

    method ParsePubAck(f: seq<byte>) returns (result: ParseResult)
      modifies this
      ensures Reports(MqttWire.ParsePubAck(f), result, old(fired))
    {
      if |f| < 2 { return ERROR; }
      fired := fired + [PubAcked(Word(f[0], f[1]))];
      return OK;
    }

    /** `result` and the callbacks fired since `before` are what the frame amounts to. */
    ghost predicate Reports(o: Outcome, result: ParseResult, before: seq<Event>)
      reads this
    {
      match o
      case Rejected => result == ERROR && fired == before
      case Accepted(events) => result == OK && fired == before + events
    }

    method Dispatch(first: byte, f: seq<byte>) returns (result: ParseResult)
      modifies this
      ensures Reports(ParseBody(first, f), result, old(fired))
    {
      var kind := KindOf(first);
      if kind == CONNECT {
        result := ParseConnect(f);
      } else if kind == PUBLISH {
        result := ParsePublish(FlagsOf(first), f);
      } else if kind == PUBACK {
        result := ParsePubAck(f);
      } else if kind == SUBSCRIBE {
        result := ParseSubscribe(f);
      } else {
        if kind == PINGREQ {
          fired := fired + [Pinged];
        } else if kind == DISCONNECT {
          fired := fired + [Disconnected];
        }
        result := OK;
      }
    }

    /** Parses one frame off the front of the buffer. An incomplete frame consumes nothing and
        fires nothing; a complete one is consumed whole, also when it is in error. */
    method Parse(buf: Buffer) returns (result: ParseResult)
      requires buf.Valid()
      modifies this, buf
      ensures buf.Valid() && buf.data == old(buf.data)
      ensures match NextFrame(old(buf.Contents()))
        case Incomplete =>
          result == INCOMPLETE && buf.Contents() == old(buf.Contents()) && fired == old(fired)
        case Frame(total, o) =>
          buf.Contents() == old(buf.Contents())[total..] && Reports(o, result, old(fired))
    {
      var readable := buf.ReadableBytes();
      if readable < 2 { return INCOMPLETE; }
      var s := buf.data[buf.readerIndex..buf.writerIndex];
      var remainingLen, rlBytes := DecodeRemainingLength(s[1..]);
      var data := 1 + rlBytes;
      var totalLen := data + remainingLen;
      if readable < totalLen { return INCOMPLETE; }
      assert NextFrame(s) == Frame(totalLen, ParseBody(s[0], s[data..totalLen]));
      result := Dispatch(s[0], s[data..totalLen]);
      buf.Retrieve(totalLen);
    }
  }

  function Behind(filters: seq<TopicFilter>, r: FilterRead): FilterRead
  {
    match r
    case Truncated => Truncated
    case Filters(rest) => Filters(filters + rest)
  }

  lemma ReadFiltersStep(f: seq<byte>, p: nat, topic: Text, next: nat)
    requires p < |f| && ReadString(f, p) == StringRead(topic, next)
    ensures next >= |f| ==> ReadFilters(f, p) == Truncated
    ensures next < |f| ==> ReadFilters(f, p) == Behind([TopicFilter(topic, f[next])], ReadFilters(f, next + 1))
  {
  }

  lemma BehindNothing(f: seq<byte>, p: nat)
    requires p <= |f|
    ensures Behind([], ReadFilters(f, p)) == ReadFilters(f, p)
    ensures p == |f| ==> ReadFilters(f, p) == Filters([])
  {
  }

  lemma BehindBehind(first: seq<TopicFilter>, second: seq<TopicFilter>, r: FilterRead)
    ensures Behind(first, Behind(second, r)) == Behind(first + second, r)
  {
    if r.Filters? {
      assert first + (second + r.filters) == (first + second) + r.filters;
    }
  }

  // ---- encoders --------------------------------------------------------------------------------

  /** `encodeRemainingLength`: the do-while loop, lowest group first. */
  method EncodeRemainingLength(out: Buffer, n: nat)
    requires out.Valid()
    modifies out, out.data
    ensures out.Valid() && (out.data == old(out.data) || fresh(out.data))
    ensures out.Contents() == old(out.Contents()) + RemainingLength.Encode(n)
  {
    var len := n;
    ghost var before := out.Contents();
    ghost var emitted: seq<byte> := [];
    while len >= 128
      invariant out.Valid() && (out.data == old(out.data) || fresh(out.data))
      invariant out.Contents() == before + emitted
      invariant emitted + RemainingLength.Encode(len) == RemainingLength.Encode(n)
      decreases len
    {
      var b := len % 128 + 128;
      assert emitted + RemainingLength.Encode(len) == (emitted + [b]) + RemainingLength.Encode(len / 128);
      out.Append([b]);
      emitted := emitted + [b];
      len := len / 128;
    }
    out.Append([len]);
  }

  method WriteMqttString(out: Buffer, str: Text)
    requires out.Valid()
    modifies out, out.data
    ensures out.Valid() && (out.data == old(out.data) || fresh(out.data))
    ensures out.Contents() == old(out.Contents()) + WriteString(str)
  {
    ghost var before := out.Contents();
    var len := WordBytes(|str| % 0x1_0000);
    out.Append(len);
    out.Append(str);
    Reassociate(before, len, str);
  }

  method EncodeHeader(out: Buffer, kind: nat, flags: nat, remaining: nat)
    requires out.Valid() && kind < 16
    modifies out, out.data
    ensures out.Valid() && (out.data == old(out.data) || fresh(out.data))
    ensures out.Contents() == old(out.Contents()) + ([TypeByte(kind, flags)] + RemainingLength.Encode(remaining))
  {
    ghost var before := out.Contents();
    var first := TypeByte(kind, flags);
    out.Append([first]);
    EncodeRemainingLength(out, remaining);
    Reassociate(before, [first], RemainingLength.Encode(remaining));
  }

  method EncodeConnAck(out: Buffer, code: byte)
    requires out.Valid()
    modifies out, out.data
    ensures out.Valid() && (out.data == old(out.data) || fresh(out.data))
    ensures out.Contents() == old(out.Contents()) + Encode(ConnAck(code))
  {
    ghost var before := out.Contents();
    EncodeHeader(out, CONNACK, 0, 2);
    ghost var header := [TypeByte(CONNACK, 0)] + RemainingLength.Encode(2);
    out.Append([0]);
    out.Append([code]);
    Reassociate(before + header, [0], [code]);
    Reassociate(before, header, ConnAck(code).Body());
  }

  method AppendEach(out: Buffer, returnCodes: seq<byte>)
    requires out.Valid()
    modifies out, out.data
    ensures out.Valid() && (out.data == old(out.data) || fresh(out.data))
    ensures out.Contents() == old(out.Contents()) + returnCodes
  {
    ghost var before := out.Contents();
    var i := 0;
    while i < |returnCodes|
      invariant i <= |returnCodes|
      invariant out.Valid() && (out.data == old(out.data) || fresh(out.data))
      invariant out.Contents() == before + returnCodes[..i]
    {
      out.Append([returnCodes[i]]);
      Reassociate(before, returnCodes[..i], [returnCodes[i]]);
      assert returnCodes[..i] + [returnCodes[i]] == returnCodes[..i + 1];
      i := i + 1;
    }
    assert returnCodes[..i] == returnCodes;
  }

  method EncodeSubAck(out: Buffer, packetId: uint16, returnCodes: seq<byte>)
    requires out.Valid()
    modifies out, out.data
    ensures out.Valid() && (out.data == old(out.data) || fresh(out.data))
    ensures out.Contents() == old(out.Contents()) + Encode(SubAck(packetId, returnCodes))
  {
    ghost var before := out.Contents();
    ghost var p := SubAck(packetId, returnCodes);
    var n := (2 + |returnCodes|) % 0x1_0000_0000;
    EncodeHeader(out, SUBACK, 0, n);
    var id := WordBytes(packetId);
    out.Append(id);
    AppendEach(out, returnCodes);
    ghost var header := [TypeByte(SUBACK, 0)] + RemainingLength.Encode(n);
    Reassociate(before + header, id, returnCodes);
    assert p.Body() == id + returnCodes;
    Reassociate(before, header, p.Body());
    assert Encode(p) == header + p.Body();
  }

  method EncodePubAck(out: Buffer, packetId: uint16)
    requires out.Valid()
    modifies out, out.data
    ensures out.Valid() && (out.data == old(out.data) || fresh(out.data))
    ensures out.Contents() == old(out.Contents()) + Encode(PubAck(packetId))
  {
    EncodeHeader(out, PUBACK, 0, 2);
    out.Append(WordBytes(packetId));
  }

  method EncodePublish(out: Buffer, topic: Text, body: Text, qos: nat, packetId: uint16, retain: bool)
    requires out.Valid() && qos <= 2
    modifies out, out.data
    ensures out.Valid() && (out.data == old(out.data) || fresh(out.data))
    ensures out.Contents() == old(out.Contents()) + Encode(Publish(topic, body, qos, packetId, retain))
  {
    ghost var before := out.Contents();
    ghost var p := Publish(topic, body, qos, packetId, retain);
    var flags := (if retain then 1 else 0) + 2 * qos;
    var remainingLen := PublishLength(|topic|, qos, |body|);
    EncodeHeader(out, PUBLISH, flags, remainingLen);
    EncodePublishBody(out, topic, body, qos, packetId);
    PublishParts(p, flags, remainingLen, before);
  }

  lemma PublishParts(p: Packet, flags: nat, n: nat, before: seq<byte>)
    requires p.Valid() && p.Publish? && flags == p.Flags()
    requires n == (2 + |p.topic| + (if p.qos > 0 then 2 else 0) + |p.body|) % 0x1_0000_0000
    ensures before + ([TypeByte(PUBLISH, flags)] + RemainingLength.Encode(n)) + p.Body() == before + Encode(p)
  {
    Reassociate(before, [TypeByte(PUBLISH, flags)] + RemainingLength.Encode(n), p.Body());
  }

  method EncodePublishBody(out: Buffer, topic: Text, body: Text, qos: nat, packetId: uint16)
    requires out.Valid()
    modifies out, out.data
    ensures out.Valid() && (out.data == old(out.data) || fresh(out.data))
    ensures out.Contents() == old(out.Contents()) + PublishBody(topic, body, qos, packetId)
  {
    ghost var before := out.Contents();
    WriteMqttString(out, topic);
    var id: seq<byte> := if qos > 0 then WordBytes(packetId) else [];
    if qos > 0 {
      out.Append(id);
    }
    assert out.Contents() == before + WriteString(topic) + id;
    out.Append(body);
    Reassociate(before, WriteString(topic), id);
    Reassociate(before, WriteString(topic) + id, body);
  }

  /** The 32-bit sums of `encodePublish`. */
  method PublishLength(topic: nat, qos: nat, body: nat) returns (n: nat)
    ensures n == (2 + topic + (if qos > 0 then 2 else 0) + body) % 0x1_0000_0000
  {
    n := (2 + topic) % 0x1_0000_0000;
    if qos > 0 {
      n := (n + 2) % 0x1_0000_0000;
    }
    n := (n + body) % 0x1_0000_0000;
  }

  method EncodePingResp(out: Buffer)
    requires out.Valid()
    modifies out, out.data
    ensures out.Valid() && (out.data == old(out.data) || fresh(out.data))
    ensures out.Contents() == old(out.Contents()) + Encode(PingResp)
  {
    out.Append([TypeByte(PINGRESP, 0)]);
    out.Append([0]);
  }

  method EncodeUnsubAck(out: Buffer, packetId: uint16)
    requires out.Valid()
    modifies out, out.data
    ensures out.Valid() && (out.data == old(out.data) || fresh(out.data))
    ensures out.Contents() == old(out.Contents()) + Encode(UnsubAck(packetId))
  {
    EncodeHeader(out, UNSUBACK, 0, 2);
    out.Append(WordBytes(packetId));
  }
}
