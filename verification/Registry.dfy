/** The hand-made JSON record of the distributed device registry: written by `registerDevice`,
    edited in place by `updateDeviceHeartbeat` (src/storage/RedisClient.cpp), and read by
    `extractJsonField` (src/gateway/ClusterManager.cpp). */
module Registry {

  // ---- std::string searches ------------------------------------------------------------------

  /** `pat` occurs in `s` at `i`. */
  predicate At(s: string, pat: string, i: nat)
  {
    i + |pat| <= |s| && s[i..i + |pat|] == pat
  }

  /** `s.find(pat, from)`; -1 stands for npos. */
  function Find(s: string, pat: string, from: nat): (i: int)
    ensures i == -1 || (from <= i && At(s, pat, i))
    ensures forall j: nat | from <= j && At(s, pat, j) :: 0 <= i <= j
    decreases |s| - from
  {
    if from + |pat| > |s| then -1
    else if s[from..from + |pat|] == pat then from
    else Find(s, pat, from + 1)
  }

  predicate Ends(c: char)
  {
    c == ',' || c == '}'
  }

  /** `s.find_first_of(",}", from)` */
  function FindEnd(s: string, from: nat): (i: int)
    ensures i == -1 || (from <= i < |s| && Ends(s[i]))
    ensures forall j: nat | from <= j < |s| && Ends(s[j]) :: 0 <= i <= j
    decreases |s| - from
  {
    if from >= |s| then -1
    else if Ends(s[from]) then from
    else FindEnd(s, from + 1)
  }

  // ---- numbers and C strings -----------------------------------------------------------------

  function Digit(d: nat): (c: char)
    requires d < 10
    ensures '0' <= c <= '9'
  {
    '0' + d as char
  }

  function Digits(n: nat): (s: string)
    ensures s != [] && forall i | 0 <= i < |s| :: '0' <= s[i] <= '9'
  {
    if n < 10 then [Digit(n)] else Digits(n / 10) + [Digit(n % 10)]
  }

  /** `%lld`, `%d` and `std::to_string` */
  function Decimal(n: int): (s: string)
    ensures s != [] && forall c <- s :: c != '"' && !Ends(c)
  {
    if n < 0 then ['-'] + Digits(-n) else Digits(n)
  }

  function DigitsValue(s: string): (n: nat)
  {
    if s == [] then 0
    else
      var c := s[|s| - 1];
      10 * DigitsValue(s[..|s| - 1]) + (if '0' <= c <= '9' then (c - '0') as nat else 0)
  }

  function Value(s: string): (n: int)
  {
    if s != [] && s[0] == '-' then 0 - DigitsValue(s[1..]) else DigitsValue(s)
  }

  lemma {:induction false} DigitsRoundTrip(n: nat)
    ensures DigitsValue(Digits(n)) == n
  {
    if n >= 10 {
      DigitsRoundTrip(n / 10);
      assert Digits(n)[..|Digits(n)| - 1] == Digits(n / 10);
    } else {
      assert Digits(n)[..0] == [];
    }
  }

  /** The text says which number it is. */
  lemma DecimalRoundTrip(n: int)
    ensures Value(Decimal(n)) == n
  {
    hide Digits, DigitsValue;
    if n < 0 {
      assert Decimal(n)[1..] == Digits(-n);
      DigitsRoundTrip(-n);
    } else {
      DigitsRoundTrip(n);
    }
  }

  /** What `c_str()` shows to `%s`. */
  function CStr(s: string): (r: string)
    ensures r <= s && '\0' !in r && (r == s <==> '\0' !in s)
  {
    if s == [] || s[0] == '\0' then [] else [s[0]] + CStr(s[1..])
  }

  // ---- the record ------------------------------------------------------------------------------

  const OPEN: string := "{\"gateway\":\""
  const GATEWAY_KEY: string := "\"gateway\":\""
  const HEARTBEAT_KEY: string := "\"heartbeat\":"
  /** `char json[512]`, less the terminating NUL. */
  const ROOM: nat := 511

  /** The record with its three fields as texts. */
  function Record(node: string, heartbeat: string, keepAlive: string): (r: string)
  {
    OPEN + node + "\",\"heartbeat\":" + heartbeat + ",\"keepalive\":" + keepAlive + "}"
  }

  function Truncate(s: string): (r: string)
    ensures r <= s
  {
    if |s| <= ROOM then s else s[..ROOM]
  }

  /** What `registerDevice` stores; `seconds` is the clock. */
  function Registered(nodeId: string, seconds: int, keepAlive: int): (r: string)
  {
    Truncate(Record(CStr(nodeId), Decimal(seconds), Decimal(keepAlive)))
  }

  /** `extractJsonField` */
  function Extract(json: string, key: string): (field: string)
  {
    var search := "\"" + key + "\":\"";
    var pos := Find(json, search, 0);
    if pos == -1 then ""
    else
      var start := pos + |search|;
      var end := Find(json, "\"", start);
      if end == -1 then "" else json[start..end]
  }

  /** The in-place replacement of `updateDeviceHeartbeat`; the text is left alone when the field or
      its end is not found. */
  function Rewritten(json: string, seconds: int): (r: string)
  {
    var pos := Find(json, HEARTBEAT_KEY, 0);
    if pos == -1 then json
    else
      var numStart := pos + 12;
      var numEnd := FindEnd(json, numStart);
      if numEnd == -1 then json
      else json[..numStart] + Decimal(seconds) + json[numEnd..]
  }

  /** Any number of heartbeats. */
  function Rewrites(json: string, clock: seq<int>): (r: string)
  {
    if clock == [] then json else Rewritten(Rewrites(json, clock[..|clock| - 1]), clock[|clock| - 1])
  }

  // ---- reading the gateway ---------------------------------------------------------------------

  /** The record up to and including the quote that ends its first field. */
  function Head(node: string): (r: string)
    ensures |r| == 13 + |node|
  {
    OPEN + node + "\""
  }

  lemma OpenFacts()
    ensures |OPEN| == 12 && OPEN[0] == '{' && OPEN[1..12] == GATEWAY_KEY && |GATEWAY_KEY| == 11
    ensures forall i | 0 <= i < 12 :: OPEN[i] == '"' <==> i == 1 || i == 9 || i == 11
    ensures OPEN[2] == 'g' && OPEN[10] == ':'
    ensures |HEARTBEAT_KEY| == 12 && HEARTBEAT_KEY[0] == '"' && HEARTBEAT_KEY[1] == 'h' && HEARTBEAT_KEY[10] == '"'
    ensures HEARTBEAT_KEY[11] == ':'
    ensures "\"" + "gateway" + "\":\"" == GATEWAY_KEY
  {
  }

  /** The key is found right behind the brace. */
  lemma KeyFound(json: string)
    requires OPEN <= json
    ensures Find(json, GATEWAY_KEY, 0) == 1
  {
    OpenFacts();
    assert json[1..12] == OPEN[1..12];
    assert At(json, GATEWAY_KEY, 1);
    assert json[0] == OPEN[0] != GATEWAY_KEY[0];
    assert json[0..11][0] == json[0];
  }

  /** Every text that starts with the head of `node` reads back `node`. */
  lemma ExtractHead(json: string, node: string)
    requires '"' !in node && Head(node) <= json
    ensures Extract(json, "gateway") == node
  {
    OpenFacts();
    var head := Head(node);
    assert OPEN <= head <= json;
    assert json[..12] == head[..12] == OPEN;
    KeyFound(json);
    var end := 12 + |node|;
    assert json[..end + 1] == head;
    assert json[12..end] == head[12..end] == node;
    assert json[end..end + 1] == head[end..end + 1] == "\"";
    assert At(json, "\"", end);
    forall j: nat | 12 <= j < end
      ensures !At(json, "\"", j)
    {
      assert json[j] == json[12..end][j - 12] == node[j - 12] != '"';
      assert j < |json| ==> json[j..j + 1][0] == json[j];
    }
  }

  /** Without the closing quote nothing is read. */
  lemma ExtractUnclosed(json: string)
    requires OPEN <= json && forall j | 12 <= j < |json| :: json[j] != '"'
    ensures Extract(json, "gateway") == ""
  {
    OpenFacts();
    KeyFound(json);
    forall j: nat | 12 <= j
      ensures !At(json, "\"", j)
    {
      assert j < |json| ==> json[j..j + 1][0] == json[j];
    }
  }

  // ---- what a rewrite leaves alone ---------------------------------------------------------------

  lemma KeyShape(json: string, i: nat)
    requires At(json, HEARTBEAT_KEY, i)
    ensures json[i] == '"' && json[i + 1] == 'h' && json[i + 10] == '"' && json[i + 11] == ':'
  {
    OpenFacts();
    var m := json[i..i + 12];
    assert m[0] == json[i] && m[1] == json[i + 1] && m[10] == json[i + 10] && m[11] == json[i + 11];
  }

  /** A heartbeat key never ends before the head does. */
  lemma KeyBehindHead(json: string, node: string, i: nat)
    requires '"' !in node && Head(node) <= json && At(json, HEARTBEAT_KEY, i)
    ensures i + 12 >= |Head(node)|
  {
    OpenFacts();
    KeyShape(json, i);
    var head := Head(node);
    assert forall j | 0 <= j < |head| :: json[j] == head[j];
    assert forall j | 12 <= j < 12 + |node| :: head[j] == node[j - 12] && head[j] != '"';
    assert forall j | 0 <= j < 12 :: head[j] == OPEN[j];
  }

  lemma RewriteKeepsHead(json: string, node: string, seconds: int)
    requires '"' !in node && Head(node) <= json
    ensures Head(node) <= Rewritten(json, seconds)
  {
    var pos := Find(json, HEARTBEAT_KEY, 0);
    if pos != -1 {
      KeyBehindHead(json, node, pos);
      assert json[..pos + 12][..|Head(node)|] == json[..|Head(node)|] == Head(node);
    }
  }

  lemma {:induction false} RewritesKeepHead(json: string, node: string, clock: seq<int>)
    requires '"' !in node && Head(node) <= json
    ensures Head(node) <= Rewrites(json, clock)
  {
    if clock != [] {
      RewritesKeepHead(json, node, clock[..|clock| - 1]);
      RewriteKeepsHead(Rewrites(json, clock[..|clock| - 1]), node, clock[|clock| - 1]);
    }
  }

  /** A record cut off inside the node id is never changed: it holds no heartbeat key. */
  lemma UnclosedHasNoKey(json: string, i: nat)
    requires OPEN <= json && forall j | 12 <= j < |json| :: json[j] != '"'
    ensures !At(json, HEARTBEAT_KEY, i)
  {
    OpenFacts();
    assert forall j | 0 <= j < 12 :: json[j] == OPEN[j];
    if At(json, HEARTBEAT_KEY, i) {
      KeyShape(json, i);
    }
  }

  lemma {:induction false} RewritesUnclosed(json: string, clock: seq<int>)
    requires OPEN <= json && forall j | 12 <= j < |json| :: json[j] != '"'
    ensures Rewrites(json, clock) == json
  {
    if clock != [] {
      RewritesUnclosed(json, clock[..|clock| - 1]);
      var pos := Find(json, HEARTBEAT_KEY, 0);
      if pos != -1 {
        UnclosedHasNoKey(json, pos);
      }
    }
  }

  // ---- when the gateway survives -----------------------------------------------------------------

  /** The longest node id whose closing quote still fits the stack buffer. */
  const LONGEST_NODE: nat := 498

  predicate Plain(nodeId: string)
  {
    '"' !in nodeId && '\0' !in nodeId && |nodeId| <= LONGEST_NODE
  }

  function FirstQuote(s: string): (k: nat)
    ensures k <= |s| && '"' !in s[..k] && (k < |s| ==> s[k] == '"')
    ensures k == |s| <==> '"' !in s
  {
    if s == [] || s[0] == '"' then 0
    else
      var k := FirstQuote(s[1..]);
      assert s[..k + 1] == [s[0]] + s[1..][..k];
      k + 1
  }

  /** The text behind the node id starts with its closing quote. */
  lemma RecordShape(node: string, heartbeat: string, keepAlive: string)
    ensures var r := Record(node, heartbeat, keepAlive);
      && OPEN <= r && Head(node) <= r
      && (forall j | 12 <= j < 12 + |node| :: r[j] == node[j - 12])
      && r[12 + |node|] == '"'
  {
    OpenFacts();
    var r := Record(node, heartbeat, keepAlive);
    var tail := ",\"heartbeat\":" + heartbeat + ",\"keepalive\":" + keepAlive + "}";
    assert "\",\"heartbeat\":" == "\"" + ",\"heartbeat\":";
    assert r == Head(node) + tail;
  }

  /** What the registered text starts with: the head of everything before its first quote, or an
      unclosed field. */
  lemma RegisteredShape(nodeId: string, seconds: int, keepAlive: int)
    ensures var r := Registered(nodeId, seconds, keepAlive); var node := CStr(nodeId); var k := FirstQuote(node);
      if 12 + k < ROOM then Head(node[..k]) <= r
      else OPEN <= r && forall j | 12 <= j < |r| :: r[j] != '"'
  {
    var node := CStr(nodeId);
    var full := Record(node, Decimal(seconds), Decimal(keepAlive));
    RecordShape(node, Decimal(seconds), Decimal(keepAlive));
    if 12 + FirstQuote(node) < ROOM {
      ClosedHead(full, node, FirstQuote(node));
    } else {
      UnclosedField(full, node, FirstQuote(node));
    }
  }

  lemma ClosedHead(full: string, node: string, k: nat)
    requires OPEN <= full && 12 + |node| < |full| && k <= |node| && 12 + k < ROOM
    requires (forall j | 12 <= j < 12 + |node| :: full[j] == node[j - 12]) && full[12 + |node|] == '"'
    requires k < |node| ==> node[k] == '"'
    ensures Head(node[..k]) <= Truncate(full)
  {
    OpenFacts();
    var r := Truncate(full);
    assert full[..12] == OPEN;
    assert full[12 + k] == '"';
    assert full[12..12 + k] == node[..k];
    assert full[..12 + k + 1] == full[..12] + full[12..12 + k] + [full[12 + k]];
    assert r[..12 + k + 1] == full[..12 + k + 1];
  }

  lemma UnclosedField(full: string, node: string, k: nat)
    requires OPEN <= full && 12 + |node| < |full| && k <= |node| && 12 + k >= ROOM
    requires forall j | 12 <= j < 12 + |node| :: full[j] == node[j - 12]
    requires '"' !in node[..k]
    ensures var r := Truncate(full); OPEN <= r && forall j | 12 <= j < |r| :: r[j] != '"'
  {
    OpenFacts();
    var r := Truncate(full);
    assert full[..12] == r[..12] == OPEN;
    forall j | 12 <= j < |r|
      ensures r[j] != '"'
    {
      assert r[j] == node[..k][j - 12];
    }
  }

  /** After registration and any number of heartbeats, the gateway read from the record is the node
      that registered, if and only if its id has no double quote and no NUL and is at most 498
      characters long. */
  lemma GatewaySurvivesIff(nodeId: string, seconds: int, keepAlive: int, clock: seq<int>)
    ensures Extract(Rewrites(Registered(nodeId, seconds, keepAlive), clock), "gateway") == nodeId <==> Plain(nodeId)
  {
    var r := Registered(nodeId, seconds, keepAlive);
    var node := CStr(nodeId);
    var k := FirstQuote(node);
    RegisteredShape(nodeId, seconds, keepAlive);
    if 12 + k < ROOM {
      RewritesKeepHead(r, node[..k], clock);
      ExtractHead(Rewrites(r, clock), node[..k]);
      assert node[..k] == node <==> k == |node|;
    } else {
      RewritesUnclosed(r, clock);
      ExtractUnclosed(r);
    }
  }

  // ---- the whole record --------------------------------------------------------------------------

  lemma RecordParts(node: string, heartbeat: string, keepAlive: string)
    ensures var r := Record(node, heartbeat, keepAlive); var n := 26 + |node|;
      && |r| == n + |heartbeat| + 13 + |keepAlive| + 1
      && r[..n] == OPEN + node + "\",\"heartbeat\":"
      && r[n..n + |heartbeat|] == heartbeat
      && r[n + |heartbeat|..] == ",\"keepalive\":" + keepAlive + "}"
  {
    OpenFacts();
    var front, back := OPEN + node + "\",\"heartbeat\":", ",\"keepalive\":" + keepAlive + "}";
    assert Record(node, heartbeat, keepAlive) == front + heartbeat + back;
  }

  /** The heartbeat key is found behind the node id, whatever the id without quotes says. */
  lemma HeartbeatFound(node: string, heartbeat: string, keepAlive: string)
    requires '"' !in node
    ensures Find(Record(node, heartbeat, keepAlive), HEARTBEAT_KEY, 0) == 14 + |node|
  {
    OpenFacts();
    var r := Record(node, heartbeat, keepAlive);
    var at := 14 + |node|;
    RecordParts(node, heartbeat, keepAlive);
    RecordShape(node, heartbeat, keepAlive);
    var front := OPEN + node + "\",\"heartbeat\":";
    assert front[at..at + 12] == HEARTBEAT_KEY;
    assert r[at..at + 12] == r[..at + 12][at..at + 12];
    assert At(r, HEARTBEAT_KEY, at);
    forall i: nat | i < at
      ensures !At(r, HEARTBEAT_KEY, i)
    {
      NoEarlierKey(node, heartbeat, keepAlive, i);
    }
  }

  lemma NoEarlierKey(node: string, heartbeat: string, keepAlive: string, i: nat)
    requires '"' !in node && i < 14 + |node|
    ensures !At(Record(node, heartbeat, keepAlive), HEARTBEAT_KEY, i)
  {
    OpenFacts();
    var r := Record(node, heartbeat, keepAlive);
    var front := OPEN + node + "\",\"heartbeat\":";
    RecordParts(node, heartbeat, keepAlive);
    assert forall j | 0 <= j < |front| :: r[j] == r[..|front|][j] == front[j];
    assert forall j | 12 <= j < 12 + |node| :: front[j] == node[j - 12] && front[j] != '"';
    assert forall j | 0 <= j < 12 :: front[j] == OPEN[j];
    assert front[12 + |node|] == '"' && front[13 + |node|] == ',' && front[14 + |node|] == '"';
    if At(r, HEARTBEAT_KEY, i) {
      KeyShape(r, i);
    }
  }

  lemma RewrittenAt(json: string, pos: nat, numEnd: nat, seconds: int)
    requires Find(json, HEARTBEAT_KEY, 0) == pos && FindEnd(json, pos + 12) == numEnd
    ensures pos + 12 <= numEnd <= |json|
    ensures Rewritten(json, seconds) == json[..pos + 12] + Decimal(seconds) + json[numEnd..]
  {
    hide Find, FindEnd, Decimal;
  }

  lemma EndFound(r: string, start: nat, heartbeat: string)
    requires start + |heartbeat| < |r| && r[start..start + |heartbeat|] == heartbeat
    requires r[start + |heartbeat|..][0] == ',' && forall c <- heartbeat :: !Ends(c)
    ensures FindEnd(r, start) == start + |heartbeat|
  {
    hide FindEnd;
    assert forall j | start <= j < start + |heartbeat| :: r[j] == heartbeat[j - start];
  }

  /** A heartbeat replaces exactly the heartbeat field. */
  lemma RewriteReplacesHeartbeat(node: string, heartbeat: string, keepAlive: string, seconds: int)
    requires '"' !in node && forall c <- heartbeat :: !Ends(c)
    ensures Rewritten(Record(node, heartbeat, keepAlive), seconds) == Record(node, Decimal(seconds), keepAlive)
  {
    hide Record, Find, FindEnd, Decimal, Rewritten;
    var r := Record(node, heartbeat, keepAlive);
    var start := 26 + |node|;
    var end := start + |heartbeat|;
    HeartbeatFound(node, heartbeat, keepAlive);
    RecordParts(node, heartbeat, keepAlive);
    EndFound(r, start, heartbeat);
    RewrittenAt(r, start - 12, end, seconds);
    RecordOf(node, Decimal(seconds), keepAlive, r[..start], r[end..]);
  }

  lemma RecordOf(node: string, heartbeat: string, keepAlive: string, front: string, back: string)
    requires front == OPEN + node + "\",\"heartbeat\":" && back == ",\"keepalive\":" + keepAlive + "}"
    ensures Record(node, heartbeat, keepAlive) == front + heartbeat + back
  {
  }

  /** The last clock value written. */
  function Latest(seconds: int, clock: seq<int>): (t: int)
  {
    if clock == [] then seconds else clock[|clock| - 1]
  }

  lemma {:induction false} RewritesOfRecord(node: string, seconds: int, keepAlive: string, clock: seq<int>)
    requires '"' !in node
    ensures Rewrites(Record(node, Decimal(seconds), keepAlive), clock)
         == Record(node, Decimal(Latest(seconds, clock)), keepAlive)
  {
    if clock != [] {
      var before := clock[..|clock| - 1];
      RewritesOfRecord(node, seconds, keepAlive, before);
      RewriteReplacesHeartbeat(node, Decimal(Latest(seconds, before)), keepAlive, clock[|clock| - 1]);
    }
  }

  /** A record that fits the stack buffer stays the same record but for its heartbeat, which is the
      latest clock value: node id and keep-alive text are untouched. */
  lemma RecordSurvives(nodeId: string, seconds: int, keepAlive: int, clock: seq<int>)
    requires '"' !in nodeId && '\0' !in nodeId
    requires |Record(nodeId, Decimal(seconds), Decimal(keepAlive))| <= ROOM
    ensures Rewrites(Registered(nodeId, seconds, keepAlive), clock)
         == Record(nodeId, Decimal(Latest(seconds, clock)), Decimal(keepAlive))
    ensures Extract(Rewrites(Registered(nodeId, seconds, keepAlive), clock), "gateway") == nodeId
  {
    RewritesOfRecord(nodeId, seconds, Decimal(keepAlive), clock);
    RecordParts(nodeId, Decimal(seconds), Decimal(keepAlive));
    GatewaySurvivesIff(nodeId, seconds, keepAlive, clock);
  }

  // ---- what every text in the registry carries -----------------------------------------------------

  /** The gateway a reader finds in the record of this node, whatever its id looks like. */
  function Readable(nodeId: string): (name: string)
  {
    var node := CStr(nodeId);
    if 12 + FirstQuote(node) < ROOM then node[..FirstQuote(node)] else ""
  }

  lemma ReadableIff(nodeId: string)
    ensures Readable(nodeId) == nodeId <==> Plain(nodeId)
  {
    var node := CStr(nodeId);
    assert node[..FirstQuote(node)] == node <==> FirstQuote(node) == |node|;
  }

  /** A text with a closed gateway field, or one that is cut off inside it. */
  ghost predicate Carries(text: string, name: string)
  {
    || ('"' !in name && Head(name) <= text)
    || (name == "" && OPEN <= text && forall j | 12 <= j < |text| :: text[j] != '"')
  }

  lemma CarriesReads(text: string, name: string)
    requires Carries(text, name)
    ensures Extract(text, "gateway") == name && OPEN <= text
  {
    if '"' !in name && Head(name) <= text {
      ExtractHead(text, name);
      assert OPEN <= Head(name);
    } else {
      ExtractUnclosed(text);
    }
  }

  lemma RegisteredCarries(nodeId: string, seconds: int, keepAlive: int)
    ensures Carries(Registered(nodeId, seconds, keepAlive), Readable(nodeId))
  {
    RegisteredShape(nodeId, seconds, keepAlive);
  }

  lemma RewriteCarries(text: string, name: string, seconds: int)
    requires Carries(text, name)
    ensures Carries(Rewritten(text, seconds), name)
  {
    if '"' !in name && Head(name) <= text {
      RewriteKeepsHead(text, name, seconds);
    } else {
      RewritesUnclosed(text, [seconds]);
      assert [seconds][..0] == [];
    }
  }

  /** The search of a heartbeat finds its field and the field's end; only then is anything stored. */
  predicate Editable(text: string)
  {
    var pos := Find(text, HEARTBEAT_KEY, 0);
    pos != -1 && FindEnd(text, pos + 12) != -1
  }

  lemma RecordEditable(node: string, heartbeat: string, keepAlive: string)
    requires '"' !in node && forall c <- heartbeat :: !Ends(c)
    ensures Editable(Record(node, heartbeat, keepAlive))
  {
    hide Record, Find, FindEnd;
    HeartbeatFound(node, heartbeat, keepAlive);
    RecordParts(node, heartbeat, keepAlive);
    EndFound(Record(node, heartbeat, keepAlive), 26 + |node|, heartbeat);
  }
}
