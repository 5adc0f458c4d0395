/** The device simulator's hand-built CONNECT (apps/simulator_main.cpp), an encoder written apart
    from the codec, read by the codec's parser. */
module Simulator {
  import opened Bytes
  import opened NetBuffer
  import opened MqttWire
  import RemainingLength
  import PacketOctets
  import RoundTrip
  import opened MqttCodec

  const CLEAN_SESSION: byte := 0x02

  /** "MQTT" behind its length, protocol level 4, the flags, keep-alive 60. */
  const HEADER: seq<byte> := [0x00, 0x04, 77, 81, 84, 84, 4, CLEAN_SESSION, 0, 60]

  function ConnectBody(clientId: Text): (s: seq<byte>)
    ensures |s| == 12 + |clientId|
  {
    HEADER + WriteString(clientId)
  }

  function ConnectBytes(clientId: Text): (s: seq<byte>)
  {
    [TypeByte(CONNECT, 0)] + RemainingLength.Encode((12 + |clientId|) % 0x1_0000_0000) + ConnectBody(clientId)
  }

  /** What the gateway should make of it. */
  function Expected(clientId: Text): (payload: ConnectPayload)
  {
    ConnectPayload([77, 81, 84, 84], 4, CLEAN_SESSION, 60, ConnectTexts(clientId, [], [], [], []))
  }

  lemma NoOptionalTexts(f: seq<byte>, p: nat, clientId: Text)
    requires p <= |f|
    ensures ReadConnectTexts(false, false, false, f, p) == ConnectTexts(ReadString(f, p).text, [], [], [], [])
  {
  }

  lemma ConnectBodyRead(clientId: Text)
    ensures ParseConnect(ConnectBody(clientId)).Accepted?
    ensures ParseConnect(ConnectBody(clientId)) == Accepted([Connected(Expected(clientId))]) <==> |clientId| < 0x1_0000
  {
    var f := ConnectBody(clientId);
    assert f[..10] == HEADER;
    assert f[0] == 0 && f[1] == 4 && f[6] == 4 && f[7] == CLEAN_SESSION && f[8] == 0 && f[9] == 60;
    assert f[2..6] == HEADER[2..6] == [77, 81, 84, 84];
    assert ReadString(f, 0) == StringRead([77, 81, 84, 84], 6);
    NoOptionalTexts(f, 10, clientId);
    ClientIdRead(clientId);
  }

  lemma SliceOfTail(f: seq<byte>, p: nat, i: nat, j: nat)
    requires i <= j && p + j <= |f|
    ensures f[p + i..p + j] == f[p..][i..j]
  {
  }

  lemma SliceBehind(head: seq<byte>, rest: seq<byte>, n: nat)
    requires n <= |rest|
    ensures (head + rest)[|head|..|head| + n] == rest[..n]
  {
  }

  lemma ReadStringAt(f: seq<byte>, p: nat, len: uint16, rest: seq<byte>)
    requires p <= |f| && f[p..] == WordBytes(len) + rest
    ensures ReadString(f, p).text == if len <= |rest| then rest[..len] else []
  {
    var w := WordBytes(len);
    assert f[p] == f[p..][0] == w[0] && f[p + 1] == f[p..][1] == w[1];
    if len <= |rest| {
      SliceOfTail(f, p, 2, 2 + len);
      SliceBehind(w, rest, len);
    }
  }

  lemma ClientIdRead(clientId: Text)
    ensures ReadString(ConnectBody(clientId), 10).text == clientId <==> |clientId| < 0x1_0000
  {
    var len: uint16 := |clientId| % 0x1_0000;
    var f := ConnectBody(clientId);
    assert f[10..] == WriteString(clientId) == WordBytes(len) + clientId;
    ReadStringAt(f, 10, len, clientId);
    if |clientId| < 0x1_0000 {
      assert clientId[..len] == clientId;
    }
  }

  /** For every client id whose frame the length field can express, the codec splits the frame off
      and accepts it; it gives back the same id and keep-alive 60 exactly for ids under 65536. */
  lemma ConnectDecoded(clientId: Text, suffix: seq<byte>)
    requires 12 + |clientId| < 0x1000_0000
    ensures NextFrame(ConnectBytes(clientId) + suffix).Frame?
    ensures NextFrame(ConnectBytes(clientId) + suffix).total == |ConnectBytes(clientId)|
    ensures NextFrame(ConnectBytes(clientId) + suffix).outcome == Accepted([Connected(Expected(clientId))])
      <==> |clientId| < 0x1_0000
  {
    hide ParseBody, NextFrame, ParseConnect, ConnectBytes, ConnectBody;
    ConnectShape(clientId, suffix);
    RoundTrip.FrameWithBody(TypeByte(CONNECT, 0), ConnectBody(clientId), suffix);
    ConnectBodyRead(clientId);
    ConnectDispatch(ConnectBody(clientId));
  }

  /** The simulator's CONNECT in octets: protocol "MQTT", level 4, clean session, keep-alive 60. */
  lemma ConnectInOctets(clientId: Text)
    requires |clientId| < 65536
    ensures ConnectBytes(clientId)
         == [16] + RemainingLength.Encode(12 + |clientId|)
            + ([0, 4, 77, 81, 84, 84, 4, 2, 0, 60] + PacketOctets.Str(clientId))
  {
    hide RemainingLength.Encode, WriteString, PacketOctets.Str;
    PacketOctets.LengthWord(clientId);
    PacketOctets.FitsWord(12 + |clientId|);
    assert TypeByte(CONNECT, 0) == 16;
    assert HEADER == [0, 4, 77, 81, 84, 84, 4, 2, 0, 60];
  }

  lemma ConnectShape(clientId: Text, suffix: seq<byte>)
    requires 12 + |clientId| < 0x1000_0000
    ensures var body := ConnectBody(clientId); var rl := RemainingLength.Encode(|body|);
      && ConnectBytes(clientId) + suffix == [TypeByte(CONNECT, 0)] + (rl + (body + suffix))
      && |ConnectBytes(clientId)| == 1 + |rl| + |body|
  {
    hide ConnectBody;
    var first, body := TypeByte(CONNECT, 0), ConnectBody(clientId);
    var rl := RemainingLength.Encode(|body|);
    Reassociate([first], rl, body);
    Reassociate([first], rl + body, suffix);
    Reassociate(rl, body, suffix);
  }

  lemma ConnectDispatch(f: seq<byte>)
    ensures ParseBody(TypeByte(CONNECT, 0), f) == ParseConnect(f)
  {
    hide ParseConnect;
  }

  /** The do-while loop that fills the four-octet array; `overrun` when it would store a fifth octet
      behind it, which the original does not prevent. */
  method FillLength(rlBytes: array<byte>, remaining: nat) returns (rlLen: nat, overrun: bool)
    requires rlBytes.Length == 4
    modifies rlBytes
    ensures overrun <==> remaining >= 0x1000_0000
    ensures rlLen <= 4 && (!overrun ==> rlBytes[..rlLen] == RemainingLength.Encode(remaining))
  {
    var tmp := remaining;
    rlLen := 0;
    RemainingLength.Pow128Four();
    RemainingLength.EncodeLength(remaining, 4);
    while tmp >= 128
      invariant rlLen <= 4 && rlLen + |RemainingLength.Encode(tmp)| == |RemainingLength.Encode(remaining)|
      invariant rlBytes[..rlLen] + RemainingLength.Encode(tmp) == RemainingLength.Encode(remaining)
      decreases tmp
    {
      if rlLen == 4 {
        return rlLen, true;
      }
      ghost var before, b := rlBytes[..rlLen], tmp % 128 + 128;
      Reassociate(before, [b], RemainingLength.Encode(tmp / 128));
      rlBytes[rlLen] := tmp % 128 + 128;
      assert rlBytes[..rlLen + 1] == before + [b];
      tmp := tmp / 128;
      rlLen := rlLen + 1;
    }
    if rlLen == 4 {
      return rlLen, true;
    }
    ghost var before := rlBytes[..rlLen];
    rlBytes[rlLen] := tmp;
    rlLen := rlLen + 1;
    overrun := false;
    assert rlBytes[..rlLen] == before + [tmp];
  }

  method AppendBody(buf: Buffer, clientId: Text)
    requires buf.Valid()
    modifies buf, buf.data
    ensures buf.Valid() && (buf.data == old(buf.data) || fresh(buf.data))
    ensures buf.Contents() == old(buf.Contents()) + ConnectBody(clientId)
  {
    ghost var start := buf.Contents();
    buf.Append([0x00, 0x04, 77, 81, 84, 84]);
    buf.Append([4]);
    buf.Append([CLEAN_SESSION]);
    buf.Append([0, 60]);
    assert buf.Contents() == start + HEADER;
    WriteMqttString(buf, clientId);
    Reassociate(start, HEADER, WriteString(clientId));
  }

  /** `sendConnect`, up to the point where its length array would be overrun; the length is computed in
      32 bits. */
  method SendConnect(buf: Buffer, clientId: Text) returns (overrun: bool)
    requires buf.Valid() && buf.Contents() == []
    modifies buf, buf.data
    ensures buf.Valid()
    ensures overrun <==> (12 + |clientId|) % 0x1_0000_0000 >= 0x1000_0000
    ensures !overrun ==> buf.Contents() == ConnectBytes(clientId)
  {
    var remaining := (10 + 2 + |clientId|) % 0x1_0000_0000;
    var first := TypeByte(CONNECT, 0);
    buf.Append([first]);
    assert buf.Contents() == [first];
    var rlBytes := new byte[4](_ => 0);
    var rlLen;
    rlLen, overrun := FillLength(rlBytes, remaining);
    if overrun { return; }
    buf.Append(rlBytes[..rlLen]);
    AppendBody(buf, clientId);
  }
}
