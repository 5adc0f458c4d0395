/** The batching writer of the time-series store (src/storage/TsdbClient.cpp). */
module Tsdb {
  import opened Bytes
  import opened Registry

  const LINE_ROOM: nat := 4096
  const MAX_BATCH_LINES: nat := 100
  const MAX_BATCH_BYTES: nat := 1024 * 1024

  // ---- escaping ----------------------------------------------------------------------------------

  predicate Special(c: char)
  {
    c == '"' || c == '\\'
  }

  function Escaped(value: string): (r: string)
  {
    if value == "" then ""
    else
      var k := |value| - 1;
      var r := Escaped(value[..k]);
      if Special(value[k]) then r + ['\\', value[k]] else r + [value[k]]
  }

  datatype Field = Field(value: string, rest: string) | Unclosed

  /** A string field as the line protocol reads it, behind its opening quote. */
  function ReadField(s: string): (r: Field)
  {
    if s == "" then Unclosed
    else if s[0] == '"' then Field("", s[1..])
    else
      var skip := if s[0] == '\\' && |s| > 1 && Special(s[1]) then 1 else 0;
      match ReadField(s[skip + 1..])
      case Field(value, rest) => Field([s[skip]] + value, rest)
      case Unclosed => Unclosed
  }

  /** Reading back, one escaped character before the rest. */
  lemma ReadOne(c: char, s: string)
    ensures ReadField((if Special(c) then ['\\', c] else [c]) + s)
         == match ReadField(s) case Field(value, rest) => Field([c] + value, rest) case Unclosed => Unclosed
  {
    var t := (if Special(c) then ['\\', c] else [c]) + s;
    assert t[if Special(c) then 2 else 1..] == s;
  }

  /** What was escaped is read back, with whatever follows it. */
  lemma {:induction false} EscapeRoundTrip(value: string, tail: string, more: string)
    requires ReadField(tail).Field? && ReadField(tail).value == more
    ensures ReadField(Escaped(value) + tail) == Field(value + more, ReadField(tail).rest)
  {
    hide ReadField;
    if value == "" {
      assert Escaped("") + tail == tail && "" + more == more;
    } else {
      var k := |value| - 1;
      var one := if Special(value[k]) then ['\\', value[k]] else [value[k]];
      ReadOne(value[k], tail);
      EscapeRoundTrip(value[..k], one + tail, [value[k]] + more);
      assert Escaped(value) + tail == Escaped(value[..k]) + (one + tail);
      assert value + more == value[..k] + ([value[k]] + more);
    }
  }

  lemma {:induction false} EscapedAppend(a: string, b: string)
    ensures Escaped(a + b) == Escaped(a) + Escaped(b)
  {
    if b == "" {
      assert a + b == a;
    } else {
      var k := |b| - 1;
      assert (a + b)[..|a + b| - 1] == a + b[..k];
      EscapedAppend(a, b[..k]);
    }
  }

  lemma {:induction false} EscapedPlain(value: string)
    requires '\0' !in value
    ensures '\0' !in Escaped(value)
  {
    if value != "" {
      EscapedPlain(value[..|value| - 1]);
    }
  }

  lemma {:induction false} CStrCut(s: string, more: string)
    requires '\0' !in s
    ensures CStr(s + ['\0'] + more) == s
  {
    var t := s + ['\0'] + more;
    if s != "" {
      assert t[1..] == s[1..] + ['\0'] + more;
      CStrCut(s[1..], more);
    }
  }

  lemma {:induction false} FirstNul(s: string)
    ensures CStr(s) == s || (|CStr(s)| < |s| && s == CStr(s) + ['\0'] + s[|CStr(s)| + 1..])
  {
    if s != "" && s[0] != '\0' {
      FirstNul(s[1..]);
    }
  }

  /** Escaping commutes with the cut that formatting makes at the first NUL. */
  lemma EscapedCut(value: string)
    ensures CStr(Escaped(value)) == Escaped(CStr(value))
  {
    hide CStr, Escaped;
    var front := CStr(value);
    FirstNul(value);
    EscapedPlain(front);
    if front != value {
      var more := value[|front| + 1..];
      EscapedAppend(front + ['\0'], more);
      EscapedAppend(front, ['\0']);
      assert Escaped(['\0']) == ['\0'] by { EscapedNul(); }
      CStrCut(Escaped(front), Escaped(more));
    }
  }

  lemma EscapedNul()
    ensures Escaped(['\0']) == ['\0']
  {
    assert ['\0'][..0] == "";
  }

  // ---- lines ---------------------------------------------------------------------------------------

  /** Everything up to the value's opening quote. */
  function LineHead(deviceId: string, topic: string): (r: string)
  {
    "device_data,device_id=" + CStr(deviceId) + ",topic=" + CStr(topic) + " value=\""
  }

  function LineTail(micros: int): (r: string)
    ensures |r| > 0
  {
    "\" " + Decimal(micros * 1000) + "\n"
  }

  function Line(deviceId: string, topic: string, value: string, micros: int): (r: string)
    ensures |r| > 0
  {
    LineHead(deviceId, topic) + CStr(Escaped(value)) + LineTail(micros)
  }

  lemma TailField(micros: int)
    ensures ReadField(LineTail(micros)) == Field("", LineTail(micros)[1..])
  {
  }

  lemma LineBody(head: string, body: string, tail: string)
    ensures (head + body + tail)[|head|..] == body + tail
  {
  }

  /** The field of a line, read behind its head, is the value that was written if and only if the
      value has no NUL. */
  lemma FieldReadsBackIff(deviceId: string, topic: string, value: string, micros: int)
    ensures ReadField(Line(deviceId, topic, value, micros)[|LineHead(deviceId, topic)|..])
         == Field(value, LineTail(micros)[1..])
       <==> '\0' !in value
  {
    hide ReadField, CStr, Escaped, LineHead, LineTail;
    var tail := LineTail(micros);
    TailField(micros);
    EscapedCut(value);
    EscapeRoundTrip(CStr(value), tail, "");
    assert CStr(value) + "" == CStr(value);
    LineBody(LineHead(deviceId, topic), CStr(Escaped(value)), tail);
  }

  // ---- reading lines -------------------------------------------------------------------------------

  const UP_TO_DEVICE := "device_data,device_id="
  const UP_TO_TOPIC := ",topic="
  const UP_TO_VALUE := " value=\""

  datatype Token = Token(text: string, rest: string)

  /** A tag value as a reader without escapes takes it: up to a comma or a space. */
  function ReadTag(s: string): (t: Token)
  {
    if s == "" || s[0] == ',' || s[0] == ' ' then Token("", s)
    else var t := ReadTag(s[1..]); Token([s[0]] + t.text, t.rest)
  }

  datatype LineRead = NoLine | LineRead(device: string, topic: string, value: string, time: string)

  function ReadLine(line: string): (r: LineRead)
  {
    if !(UP_TO_DEVICE <= line) then NoLine
    else
      var device := ReadTag(line[|UP_TO_DEVICE|..]);
      if !(UP_TO_TOPIC <= device.rest) then NoLine
      else
        var topic := ReadTag(device.rest[|UP_TO_TOPIC|..]);
        if !(UP_TO_VALUE <= topic.rest) then NoLine
        else
          match ReadField(topic.rest[|UP_TO_VALUE|..])
          case Unclosed => NoLine
          case Field(value, rest) =>
            if |rest| >= 2 && rest[0] == ' ' && rest[|rest| - 1] == '\n'
            then LineRead(device.text, topic.text, value, rest[1..|rest| - 1])
            else NoLine
  }

  predicate PlainTag(s: string)
  {
    ',' !in s && ' ' !in s
  }

  lemma TagStep(c: char, s: string)
    ensures ReadTag([c] + s) ==
      if c == ',' || c == ' ' then Token("", [c] + s) else Token([c] + ReadTag(s).text, ReadTag(s).rest)
    ensures PlainTag([c] + s) <==> c != ',' && c != ' ' && PlainTag(s)
  {
    assert ([c] + s)[1..] == s;
    assert forall x :: x in [c] + s <==> x == c || x in s;
  }

  /** A tag in front of a comma or a space is read whole if and only if it has neither itself. */
  lemma {:induction false} TagRead(tag: string, more: string)
    requires more != "" && (more[0] == ',' || more[0] == ' ')
    ensures PlainTag(tag) ==> ReadTag(tag + more) == Token(tag, more)
    ensures !PlainTag(tag) ==> |ReadTag(tag + more).text| < |tag|
  {
    hide ReadTag, PlainTag;
    if tag == "" {
      assert "" + more == more;
      assert more == [more[0]] + more[1..];
      TagStep(more[0], more[1..]);
      NothingPlain();
    } else {
      var rest := tag[1..];
      assert tag == [tag[0]] + rest && tag + more == [tag[0]] + (rest + more);
      TagRead(rest, more);
      TagStep(tag[0], rest + more);
      TagStep(tag[0], rest);
    }
  }

  lemma NothingPlain()
    ensures PlainTag("")
  {
  }

  /** The end of a line, behind its value. */
  lemma TailRead(micros: int)
    ensures var rest := LineTail(micros)[1..];
      |rest| >= 2 && rest[0] == ' ' && rest[|rest| - 1] == '\n' && rest[1..|rest| - 1] == Decimal(1000 * micros)
  {
    hide Decimal;
    assert LineTail(micros)[1..] == " " + Decimal(micros * 1000) + "\n";
  }

  predicate TagSurvives(s: string)
  {
    PlainTag(s) && '\0' !in s
  }

  lemma CutTagRead(tag: string, more: string)
    requires more != "" && (more[0] == ',' || more[0] == ' ')
    ensures ReadTag(CStr(tag) + more).text == tag <==> TagSurvives(tag)
    ensures TagSurvives(tag) ==> ReadTag(CStr(tag) + more).rest == more
  {
    hide ReadTag, CStr;
    TagRead(CStr(tag), more);
  }

  lemma LineParts(deviceId: string, topic: string, value: string, micros: int)
    ensures Line(deviceId, topic, value, micros)
         == UP_TO_DEVICE + (CStr(deviceId) + (UP_TO_TOPIC + (CStr(topic) + (UP_TO_VALUE + (CStr(Escaped(value)) + LineTail(micros))))))
  {
    hide CStr, Escaped, LineTail;
  }

  lemma Behind(head: string, rest: string)
    ensures head <= head + rest && (head + rest)[|head|..] == rest
  {
  }

  lemma ValueRead(value: string, micros: int)
    ensures ReadField(CStr(Escaped(value)) + LineTail(micros)) == Field(CStr(value), LineTail(micros)[1..])
  {
    hide ReadField, CStr, Escaped, LineTail;
    TailField(micros);
    EscapedCut(value);
    EscapeRoundTrip(CStr(value), LineTail(micros), "");
    assert CStr(value) + "" == CStr(value);
  }

  /** A line is read back as the device, topic, value and time in nanoseconds it was written for, if and only
      if device and topic have no comma, space or NUL and the value has no NUL. */
  lemma LineReadsBackIff(deviceId: string, topic: string, value: string, micros: int)
    ensures ReadLine(Line(deviceId, topic, value, micros)) == LineRead(deviceId, topic, value, Decimal(1000 * micros))
      <==> TagSurvives(deviceId) && TagSurvives(topic) && '\0' !in value
  {
    hide Line, ReadField, ReadTag, CStr, Escaped, LineTail, Decimal, TagSurvives;
    var behindValue := CStr(Escaped(value)) + LineTail(micros);
    var behindTopic := UP_TO_VALUE + behindValue;
    var behindDevice := UP_TO_TOPIC + (CStr(topic) + behindTopic);
    LineParts(deviceId, topic, value, micros);
    Behind(UP_TO_DEVICE, CStr(deviceId) + behindDevice);
    CutTagRead(deviceId, behindDevice);
    Behind(UP_TO_TOPIC, CStr(topic) + behindTopic);
    CutTagRead(topic, behindTopic);
    Behind(UP_TO_VALUE, behindValue);
    ValueRead(value, micros);
    TailRead(micros);
  }

  // ---- batches ---------------------------------------------------------------------------------------

  /** Every request is a run of whole lines within the limits. */
  ghost predicate Booked(posted: seq<string>, batches: seq<seq<string>>)
  {
    && |batches| == |posted|
    && (forall i | 0 <= i < |posted| :: posted[i] == Concat(batches[i]))
    && (forall i | 0 <= i < |posted| :: 1 <= |batches[i]| <= MAX_BATCH_LINES)
    && (forall i | 0 <= i < |posted| :: |posted[i]| < MAX_BATCH_BYTES + LINE_ROOM)
  }

  ghost predicate Buffered(buffer: string, count: int, waiting: seq<string>)
  {
    && buffer == Concat(waiting) && count == |waiting|
    && (forall line <- waiting :: 0 < |line| < LINE_ROOM)
  }

  lemma BufferLine(buffer: string, count: int, waiting: seq<string>, line: string)
    requires Buffered(buffer, count, waiting) && 0 < |line| < LINE_ROOM
    ensures Buffered(buffer + line, count + 1, waiting + [line])
  {
    ConcatSnoc(waiting, line);
  }

  lemma BookBatch(posted: seq<string>, batches: seq<seq<string>>, buffer: string, count: int, waiting: seq<string>)
    requires Booked(posted, batches) && Buffered(buffer, count, waiting) && buffer != ""
    requires |waiting| <= MAX_BATCH_LINES && |buffer| < MAX_BATCH_BYTES + LINE_ROOM
    ensures Booked(posted + [buffer], batches + [waiting])
    ensures Concat(batches + [waiting]) + [] == Concat(batches) + waiting
  {
    ConcatSnoc(batches, waiting);
  }

  lemma NothingBuffered(buffer: string, count: int, waiting: seq<string>)
    requires Buffered(buffer, count, waiting)
    ensures buffer == "" <==> waiting == []
  {
    if waiting != [] {
      assert |waiting[0]| > 0;
    }
  }

  lemma NothingJoined()
    ensures Concat<char>([]) == ""
  {
  }

  lemma BufferedCount(buffer: string, count: int, waiting: seq<string>)
    requires Buffered(buffer, count, waiting)
    ensures count == |waiting|
  {
  }

  class TsdbClient {
    var connected: bool
    var batchBuffer: string
    var batchCount: int
    /** The bodies of the POST requests made so far. */
    var posted: seq<string>
    /** The accepted lines of each request, and those not sent yet. */
    ghost var batches: seq<seq<string>>
    ghost var waiting: seq<string>

    ghost predicate Valid()
      reads this
    {
      && Booked(posted, batches) && Buffered(batchBuffer, batchCount, waiting)
      && |waiting| < MAX_BATCH_LINES && |batchBuffer| < MAX_BATCH_BYTES
    }

    /** All lines accepted so far, in order. */
    ghost function Accepted(): (r: seq<string>)
      reads this
    {
      Concat(batches) + waiting
    }

    constructor ()
      ensures Valid() && Accepted() == [] && posted == [] && !connected
    {
      connected, batchBuffer, batchCount, posted, batches, waiting := false, "", 0, [], [], [];
    }

    method Connect()
      requires Valid()
      modifies this`connected
      ensures Valid() && connected
    {
      connected := true;
    }

    method Flush()
      requires Booked(posted, batches) && Buffered(batchBuffer, batchCount, waiting)
      requires |waiting| <= MAX_BATCH_LINES && |batchBuffer| < MAX_BATCH_BYTES + LINE_ROOM
      modifies this
      ensures Valid() && connected == old(connected) && batchBuffer == "" && batchCount == 0
      ensures Accepted() == old(Accepted())
      ensures old(batchBuffer) == "" ==> posted == old(posted)
      ensures old(batchBuffer) != "" ==> posted == old(posted) + [old(batchBuffer)]
    {
      hide Booked, Concat;
      NothingBuffered(batchBuffer, batchCount, waiting);
      if batchBuffer == "" { return; }
      BookBatch(posted, batches, batchBuffer, batchCount, waiting);
      posted := posted + [batchBuffer];
      batchBuffer, batchCount := "", 0;
      batches, waiting := batches + [waiting], [];
      assert Concat<char>([]) == "" by { NothingJoined(); }
    }

    /** The escaping loop. */
    method Escape(value: string) returns (escaped: string)
      ensures escaped == Escaped(value)
    {
      escaped := "";
      var i := 0;
      while i < |value|
        invariant i <= |value| && escaped == Escaped(value[..i])
      {
        assert value[..i + 1][..i] == value[..i];
        if Special(value[i]) {
          escaped := escaped + ['\\'];
        }
        escaped := escaped + [value[i]];
        i := i + 1;
      }
      assert value[..i] == value;
    }

    method WriteDeviceData(deviceId: string, topic: string, value: string, micros: int)
      requires Valid()
      modifies this
      ensures Valid() && connected == old(connected)
      ensures var line := Line(deviceId, topic, value, micros);
        Accepted() == if old(connected) && |line| < LINE_ROOM then old(Accepted()) + [line] else old(Accepted())
      ensures old(posted) <= posted
    {
      hide Booked, Buffered, Concat, Escaped, LineHead, LineTail, CStr;
      if !connected { return; }
      var escaped := Escape(value);
      var line := LineHead(deviceId, topic) + CStr(escaped) + LineTail(micros);
      if |line| >= LINE_ROOM { return; }
      BufferLine(batchBuffer, batchCount, waiting, line);
      BufferedCount(batchBuffer, batchCount, waiting);
      Reassociate(Concat(batches), waiting, [line]);
      batchBuffer := batchBuffer + line;
      batchCount := batchCount + 1;
      waiting := waiting + [line];
      if batchCount >= MAX_BATCH_LINES || |batchBuffer| >= MAX_BATCH_BYTES {
        Flush();
      }
    }

    method Disconnect()
      requires Valid()
      modifies this
      ensures Valid() && !connected && batchBuffer == "" && Accepted() == old(Accepted())
    {
      Flush();
      connected := false;
    }
  }
}
