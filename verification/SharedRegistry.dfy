/** The hash `iot:devices` that all gateway nodes share (src/storage/RedisClient.cpp), over every
    history of store commands. A heartbeat is two of them, a read and a write, and anything may come in
    between. Client ids reach the store as C strings. */
module SharedRegistry {
  import opened Registry

  /** Whoever is inside a heartbeat. */
  type Caller = nat

  datatype Op =
    | Registers(client: string, node: string, keepAlive: int, seconds: int) // HSET
    | Leaves(client: string)                                                // HDEL
    | Reads(who: Caller, client: string)                                    // HGET of a heartbeat
    | Writes(who: Caller, seconds: int)                                     // HSET of a heartbeat

  datatype Text = Nothing | Text(text: string)

  /** What a caller inside a heartbeat has read. */
  datatype Held = Held(key: string, text: Text)

  datatype Store = Store(records: map<string, string>, held: map<Caller, Held>)

  function Get(records: map<string, string>, key: string): (t: Text)
  {
    if key in records then Text(records[key]) else Nothing
  }

  /** The heartbeat of this caller is going to store something. */
  predicate Stores(s: Store, who: Caller)
  {
    who in s.held && s.held[who].text.Text? && Editable(s.held[who].text.text)
  }

  function Applied(s: Store, op: Op): (r: Store)
  {
    match op
    case Registers(client, node, keepAlive, seconds) =>
      s.(records := s.records[CStr(client) := Registered(node, seconds, keepAlive)])
    case Leaves(client) => s.(records := s.records - {CStr(client)})
    case Reads(who, client) => s.(held := s.held[who := Held(CStr(client), Get(s.records, CStr(client)))])
    case Writes(who, seconds) =>
      Store(if Stores(s, who) then s.records[s.held[who].key := Rewritten(s.held[who].text.text, seconds)] else s.records,
            s.held - {who})
  }

  function After(ops: seq<Op>): (s: Store)
  {
    if ops == [] then Store(map[], map[]) else Applied(After(ops[..|ops| - 1]), ops[|ops| - 1])
  }

  /** What a lookup gives after a history. */
  function Lookup(ops: seq<Op>, client: string): (record: string)
  {
    var t := Get(After(ops).records, CStr(client));
    if t.Text? then t.text else ""
  }

  // ---- who is registered, whatever the texts say -------------------------------------------------

  /** `at` tells registrations apart: it is the position in the history. */
  datatype Standing = Unregistered | Registration(node: string, keepAlive: int, since: int, at: nat)

  function StandingOf(ops: seq<Op>, key: string): (s: Standing)
  {
    if ops == [] then Unregistered
    else
      var n := |ops| - 1;
      var before := StandingOf(ops[..n], key);
      match ops[n]
      case Registers(c, node, keepAlive, seconds) =>
        if CStr(c) == key then Registration(node, keepAlive, seconds, n) else before
      case Leaves(c) => if CStr(c) == key then Unregistered else before
      case _ => before
  }

  /** What a caller inside a heartbeat is about: the client's standing when it read. */
  datatype Reading = NotReading | Reading(key: string, standing: Standing)

  function ReadingOf(ops: seq<Op>, who: Caller): (r: Reading)
  {
    if ops == [] then NotReading
    else
      var n := |ops| - 1;
      var before := ReadingOf(ops[..n], who);
      match ops[n]
      case Reads(w, client) => if w == who then Reading(CStr(client), StandingOf(ops[..n], CStr(client))) else before
      case Writes(w, _) => if w == who then NotReading else before
      case _ => before
  }

  // ---- when the registry tells the truth ---------------------------------------------------------

  /** The text says what the standing is: there is none for an unregistered client, and otherwise its
      gateway field reads as that of a record of the registering node. */
  predicate Says(t: Text, s: Standing)
  {
    match s
    case Unregistered => t.Nothing?
    case Registration(node, _, _, _) => t.Text? && Extract(t.text, "gateway") == Readable(node)
  }

  ghost predicate Truthful(ops: seq<Op>)
  {
    forall key: string :: Says(Get(After(ops).records, key), StandingOf(ops, key))
  }

  ghost predicate TruthfulThroughout(ops: seq<Op>)
  {
    Truthful(ops) && (ops != [] ==> TruthfulThroughout(ops[..|ops| - 1]))
  }

  /** A heartbeat puts back a text it read before the client left, or before a node with another
      readable name registered the client. */
  predicate Misleads(ops: seq<Op>, op: Op)
  {
    op.Writes? && Stores(After(ops), op.who) &&
    match ReadingOf(ops, op.who)
    case NotReading => false
    case Reading(key, then_) =>
      var now := StandingOf(ops, key);
      now.Unregistered? || (then_.Registration? && Readable(then_.node) != Readable(now.node))
  }

  ghost predicate NoneMisleads(ops: seq<Op>)
  {
    ops != [] ==> NoneMisleads(ops[..|ops| - 1]) && !Misleads(ops[..|ops| - 1], ops[|ops| - 1])
  }

  /** Every text in the store is readable all through its edits. */
  ghost predicate Sound(s: Store)
  {
    && (forall key <- s.records :: Carries(s.records[key], Extract(s.records[key], "gateway")))
    && (forall who <- s.held :: s.held[who].text.Text? ==>
          Carries(s.held[who].text.text, Extract(s.held[who].text.text, "gateway")))
  }

  /** The texts callers hold say what the standing was when they read. */
  ghost predicate HeldSay(ops: seq<Op>)
  {
    forall who: Caller ::
      match ReadingOf(ops, who)
      case NotReading => who !in After(ops).held
      case Reading(key, standing) =>
        who in After(ops).held && After(ops).held[who].key == key && Says(After(ops).held[who].text, standing)
  }

  lemma AppliedSound(s: Store, op: Op)
    requires Sound(s)
    ensures Sound(Applied(s, op))
  {
    hide Carries, Registered, Rewritten, Extract, Editable;
    match op {
      case Registers(_, node, keepAlive, seconds) =>
        RegisteredCarries(node, seconds, keepAlive);
        CarriesReads(Registered(node, seconds, keepAlive), Readable(node));
      case Writes(who, seconds) =>
        if Stores(s, who) {
          EditCarries(s.held[who].text.text, seconds);
        }
      case _ =>
    }
  }

  lemma EditCarries(text: string, seconds: int)
    requires Carries(text, Extract(text, "gateway"))
    ensures Extract(Rewritten(text, seconds), "gateway") == Extract(text, "gateway")
    ensures Carries(Rewritten(text, seconds), Extract(Rewritten(text, seconds), "gateway"))
  {
    hide Carries, Rewritten, Extract;
    RewriteCarries(text, Extract(text, "gateway"), seconds);
    CarriesReads(Rewritten(text, seconds), Extract(text, "gateway"));
  }

  lemma {:induction false} AfterSound(ops: seq<Op>)
    ensures Sound(After(ops))
  {
    hide Sound, Applied;
    if ops == [] {
      assert Sound(Store(map[], map[])) by { NothingSound(); }
    } else {
      AfterSound(ops[..|ops| - 1]);
      AppliedSound(After(ops[..|ops| - 1]), ops[|ops| - 1]);
    }
  }

  lemma NothingSound()
    ensures Sound(Store(map[], map[]))
  {
  }

  /** While the registry is truthful, so are the texts read from it. */
  lemma HeldSayAfter(ops: seq<Op>)
    requires ops != [] && Truthful(ops[..|ops| - 1]) && HeldSay(ops[..|ops| - 1])
    ensures HeldSay(ops)
  {
    hide Says, Extract, Registered, Rewritten, StandingOf;
    var n := |ops| - 1;
    assert After(ops) == Applied(After(ops[..n]), ops[n]);
  }

  lemma {:induction false} TruthHolds(ops: seq<Op>)
    requires ops != [] ==> TruthfulThroughout(ops[..|ops| - 1])
    ensures HeldSay(ops)
  {
    hide HeldSay, Truthful;
    if ops == [] {
      NobodyReads();
    } else {
      TruthHolds(ops[..|ops| - 1]);
      HeldSayAfter(ops);
    }
  }

  lemma NobodyReads()
    ensures HeldSay([]) && Truthful([])
  {
  }

  /** One more command keeps the registry truthful exactly if it does not mislead. */
  lemma StepTruthfulIff(ops: seq<Op>)
    requires ops != [] && Truthful(ops[..|ops| - 1]) && HeldSay(ops[..|ops| - 1])
    ensures Truthful(ops) <==> !Misleads(ops[..|ops| - 1], ops[|ops| - 1])
  {
    var n := |ops| - 1;
    var before, op := ops[..n], ops[n];
    AfterSound(before);
    match op {
      case Registers(_, _, _, _) => RegistersTruthful(ops);
      case Writes(who, seconds) => WritesTruthfulIff(ops);
      case _ => QuietTruthful(ops);
    }
  }

  lemma RegistersTruthful(ops: seq<Op>)
    requires ops != [] && Truthful(ops[..|ops| - 1]) && ops[|ops| - 1].Registers?
    ensures Truthful(ops)
  {
    hide Registered, Extract, Readable;
    var n := |ops| - 1;
    RegisteredCarries(ops[n].node, ops[n].seconds, ops[n].keepAlive);
    CarriesReads(Registered(ops[n].node, ops[n].seconds, ops[n].keepAlive), Readable(ops[n].node));
    forall key: string
      ensures Says(Get(After(ops).records, key), StandingOf(ops, key))
    {
      assert Says(Get(After(ops[..n]).records, key), StandingOf(ops[..n], key));
    }
  }

  lemma QuietTruthful(ops: seq<Op>)
    requires ops != [] && Truthful(ops[..|ops| - 1]) && (ops[|ops| - 1].Leaves? || ops[|ops| - 1].Reads?)
    ensures Truthful(ops)
  {
    hide Extract, Readable;
    var n := |ops| - 1;
    forall key: string
      ensures Says(Get(After(ops).records, key), StandingOf(ops, key))
    {
      assert Says(Get(After(ops[..n]).records, key), StandingOf(ops[..n], key));
    }
  }

  lemma WritesTruthfulIff(ops: seq<Op>)
    requires ops != [] && Truthful(ops[..|ops| - 1]) && HeldSay(ops[..|ops| - 1]) && ops[|ops| - 1].Writes?
    requires Sound(After(ops[..|ops| - 1]))
    ensures Truthful(ops) <==> !Misleads(ops[..|ops| - 1], ops[|ops| - 1])
  {
    hide Extract, Readable, Rewritten, Carries, Editable;
    var n := |ops| - 1;
    var before, who, s := ops[..n], ops[n].who, After(ops[..n]);
    assert forall key: string :: StandingOf(ops, key) == StandingOf(before, key);
    assert forall key: string :: Says(Get(s.records, key), StandingOf(before, key));
    if Stores(s, who) {
      var held := s.held[who];
      assert ReadingOf(before, who).Reading?;
      EditCarries(held.text.text, ops[n].seconds);
      assert Get(After(ops).records, held.key) == Text(Rewritten(held.text.text, ops[n].seconds));
      assert forall key: string | key != held.key :: Get(After(ops).records, key) == Get(s.records, key);
    }
  }

  /** Over whole histories: after every command the registry is truthful (no record exactly for clients
      that are not registered, and otherwise the gateway read from it is what a record of the last
      registering node reads as) if and only if no heartbeat puts back a text it read before the client
      left or before a node with another readable name registered it. */
  lemma {:induction false} TruthfulIff(ops: seq<Op>)
    ensures TruthfulThroughout(ops) <==> NoneMisleads(ops)
  {
    hide Truthful, Misleads, HeldSay;
    if ops == [] {
      NobodyReads();
    } else {
      TruthfulIff(ops[..|ops| - 1]);
      if TruthfulThroughout(ops[..|ops| - 1]) {
        TruthHoldsBefore(ops);
        StepTruthfulIff(ops);
      }
    }
  }

  lemma TruthHoldsBefore(ops: seq<Op>)
    requires ops != [] && TruthfulThroughout(ops[..|ops| - 1])
    ensures HeldSay(ops[..|ops| - 1])
  {
    hide Truthful, HeldSay;
    TruthHolds(ops[..|ops| - 1]);
  }

  // ---- what a lookup is worth ----------------------------------------------------------------------

  /** Whatever happened, a lookup gives nothing or a text that opens like a record. */
  lemma LookupOpens(ops: seq<Op>, client: string)
    ensures Get(After(ops).records, CStr(client)).Text? ==> OPEN <= Lookup(ops, client)
    ensures Lookup(ops, client) == "" <==> Get(After(ops).records, CStr(client)).Nothing?
  {
    hide Carries, Extract, After;
    AfterSound(ops);
    var key := CStr(client);
    if key in After(ops).records {
      CarriesReads(After(ops).records[key], Extract(After(ops).records[key], "gateway"));
      assert OPEN[0] == '{';
    }
  }

  /** In a history without misleading heartbeats, a lookup is empty exactly for clients that are not
      registered; otherwise the gateway read from it is the node that registered the client last, if and
      only if that node's id is plain. */
  lemma LookupFindsHome(ops: seq<Op>, client: string)
    requires NoneMisleads(ops)
    ensures Lookup(ops, client) == "" <==> StandingOf(ops, CStr(client)).Unregistered?
    ensures var s := StandingOf(ops, CStr(client));
      s.Registration? ==>
        && Extract(Lookup(ops, client), "gateway") == Readable(s.node)
        && (Extract(Lookup(ops, client), "gateway") == s.node <==> Plain(s.node))
  {
    hide Extract, After, StandingOf, Readable;
    TruthfulIff(ops);
    LookupOpens(ops, client);
    assert Says(Get(After(ops).records, CStr(client)), StandingOf(ops, CStr(client)));
    if StandingOf(ops, CStr(client)).Registration? {
      ReadableIff(StandingOf(ops, CStr(client)).node);
    }
  }

  // ---- heartbeats in time --------------------------------------------------------------------------

  /** No registration or departure of the client comes between the two commands of a heartbeat. */
  predicate InTime(ops: seq<Op>)
  {
    ops == [] ||
    var n := |ops| - 1;
    && InTime(ops[..n])
    && (ops[n].Writes? ==>
          match ReadingOf(ops[..n], ops[n].who)
          case NotReading => true
          case Reading(key, standing) => standing == StandingOf(ops[..n], key))
  }

  lemma {:induction false} InTimeMisleadsNever(ops: seq<Op>)
    requires InTime(ops)
    ensures NoneMisleads(ops) && TruthfulThroughout(ops)
  {
    hide Truthful, TruthfulThroughout;
    if ops != [] {
      var n := |ops| - 1;
      InTimeMisleadsNever(ops[..n]);
      TruthHolds(ops[..n]) by { TruthfulBefore(ops[..n]); }
      InTimeStep(ops);
    }
    TruthfulIff(ops);
  }

  lemma TruthfulBefore(ops: seq<Op>)
    requires TruthfulThroughout(ops)
    ensures ops != [] ==> TruthfulThroughout(ops[..|ops| - 1])
  {
  }

  lemma InTimeStep(ops: seq<Op>)
    requires ops != [] && InTime(ops) && HeldSay(ops[..|ops| - 1])
    ensures !Misleads(ops[..|ops| - 1], ops[|ops| - 1])
  {
    hide Editable, Readable, Extract, After;
    var n := |ops| - 1;
    if ops[n].Writes? && Stores(After(ops[..n]), ops[n].who) {
      assert ReadingOf(ops[..n], ops[n].who).Reading?;
    }
  }

  /** The latest heartbeat written for the client since it registered. */
  function SeenOf(ops: seq<Op>, key: string): (seconds: int)
  {
    if ops == [] then 0
    else
      var n := |ops| - 1;
      var before := SeenOf(ops[..n], key);
      match ops[n]
      case Registers(c, _, _, seconds) => if CStr(c) == key then seconds else before
      case Writes(who, seconds) =>
        if ReadingOf(ops[..n], who).Reading? && ReadingOf(ops[..n], who).key == key then seconds else before
      case _ => before
  }

  /** The record of this registration fits the stack buffer and can be read back. */
  predicate Proper(s: Standing)
  {
    s.Registration? && Plain(s.node) && |Record(s.node, Decimal(s.since), Decimal(s.keepAlive))| <= ROOM
  }

  function RecordOf(s: Standing, seen: int): (r: string)
    requires s.Registration?
  {
    Record(s.node, Decimal(seen), Decimal(s.keepAlive))
  }

  ghost predicate KeyExact(ops: seq<Op>, key: string)
  {
    Proper(StandingOf(ops, key)) ==>
      Get(After(ops).records, key) == Text(RecordOf(StandingOf(ops, key), SeenOf(ops, key)))
  }

  ghost predicate HeldExact(ops: seq<Op>, who: Caller)
  {
    match ReadingOf(ops, who)
    case NotReading => who !in After(ops).held
    case Reading(key, standing) =>
      && who in After(ops).held && After(ops).held[who].key == key
      && (Proper(standing) ==> exists seen :: After(ops).held[who].text == Text(RecordOf(standing, seen)))
  }

  ghost predicate RecordsExact(ops: seq<Op>)
  {
    (forall key: string :: KeyExact(ops, key)) && (forall who: Caller :: HeldExact(ops, who))
  }

  lemma RegisteredExact(node: string, seconds: int, keepAlive: int, at: nat)
    requires Proper(Registration(node, keepAlive, seconds, at))
    ensures Registered(node, seconds, keepAlive) == RecordOf(Registration(node, keepAlive, seconds, at), seconds)
  {
  }

  lemma EditExact(s: Standing, seen: int, seconds: int)
    requires Proper(s)
    ensures Editable(RecordOf(s, seen)) && Rewritten(RecordOf(s, seen), seconds) == RecordOf(s, seconds)
  {
    hide Record, Decimal, Rewritten, Editable;
    RecordEditable(s.node, Decimal(seen), Decimal(s.keepAlive));
    RewriteReplacesHeartbeat(s.node, Decimal(seen), Decimal(s.keepAlive), seconds);
  }

  lemma KeyStep(ops: seq<Op>, key: string)
    requires ops != [] && InTime(ops) && RecordsExact(ops[..|ops| - 1])
    ensures KeyExact(ops, key)
  {
    hide Proper, RecordOf, Registered, Rewritten, Editable, CStr;
    var n := |ops| - 1;
    var before, op := ops[..n], ops[n];
    assert KeyExact(before, key);
    NoRecord();
    match op {
      case Registers(c, node, keepAlive, seconds) =>
        if Proper(Registration(node, keepAlive, seconds, n)) {
          RegisteredExact(node, seconds, keepAlive, n);
        }
      case Writes(who, seconds) =>
        assert HeldExact(before, who);
        if ReadingOf(before, who).Reading? && ReadingOf(before, who).key == key && Proper(StandingOf(before, key)) {
          var seen :| After(before).held[who].text == Text(RecordOf(StandingOf(before, key), seen));
          EditExact(StandingOf(before, key), seen, seconds);
        }
      case _ =>
    }
  }

  lemma NoRecord()
    ensures !Proper(Unregistered)
  {
  }

  lemma HeldStep(ops: seq<Op>, who: Caller)
    requires ops != [] && RecordsExact(ops[..|ops| - 1])
    ensures HeldExact(ops, who)
  {
    hide Proper, RecordOf, Registered, Rewritten, Editable, CStr;
    var n := |ops| - 1;
    assert HeldExact(ops[..n], who);
    if ops[n].Reads? && ops[n].who == who {
      assert KeyExact(ops[..n], CStr(ops[n].client));
    }
  }

  lemma StepExact(ops: seq<Op>)
    requires ops != [] && InTime(ops) && RecordsExact(ops[..|ops| - 1])
    ensures RecordsExact(ops)
  {
    hide KeyExact, HeldExact, InTime;
    forall key: string
      ensures KeyExact(ops, key)
    {
      KeyStep(ops, key);
    }
    forall who: Caller
      ensures HeldExact(ops, who)
    {
      HeldStep(ops, who);
    }
  }

  lemma {:induction false} AllExact(ops: seq<Op>)
    requires InTime(ops)
    ensures RecordsExact(ops)
  {
    hide RecordsExact;
    if ops == [] {
      assert RecordsExact([]) by { NothingExact(); }
    } else {
      AllExact(ops[..|ops| - 1]);
      StepExact(ops);
    }
  }

  lemma NothingExact()
    ensures RecordsExact([])
  {
    hide Proper;
    NoRecord();
  }

  /** With heartbeats in time, a record that fits holds the registering node, its keep-alive, and the
      latest heartbeat, character by character. */
  lemma LookupIsLatestRecord(ops: seq<Op>, client: string)
    requires InTime(ops) && Proper(StandingOf(ops, CStr(client)))
    ensures var s := StandingOf(ops, CStr(client));
      Lookup(ops, client) == Record(s.node, Decimal(SeenOf(ops, CStr(client))), Decimal(s.keepAlive))
  {
    hide After, StandingOf, Proper;
    AllExact(ops);
    assert KeyExact(ops, CStr(client));
  }

  // ---- the failures, reached -----------------------------------------------------------------------

  function Stale(client: string, first: string, seconds: int, change: Op): (ops: seq<Op>)
  {
    [Registers(client, first, 60, 0)] + [Reads(0, client)] + [change] + [Writes(0, seconds)]
  }

  lemma StaleStep(client: string, first: string, seconds: int, change: Op)
    requires change.Registers? || change.Leaves?
    ensures var r := Registered(first, 0, 60);
      Editable(r) ==> Get(After(Stale(client, first, seconds, change)).records, CStr(client)) == Text(Rewritten(r, seconds))
    ensures StandingOf(Stale(client, first, seconds, change), CStr(client))
         == StandingOf([Registers(client, first, 60, 0)] + [Reads(0, client)] + [change], CStr(client))
  {
    hide Registered, Rewritten, Editable, CStr, After, StandingOf;
    var one := [Registers(client, first, 60, 0)];
    var two := one + [Reads(0, client)];
    var three := two + [change];
    assert [] + one == one;
    assert After([]) == Store(map[], map[]) by { NothingYet(); }
    AfterSnoc([], one[0]);
    AfterSnoc(one, Reads(0, client));
    AfterSnoc(two, change);
    AfterSnoc(three, Writes(0, seconds));
    StandingSnoc(three, Writes(0, seconds), CStr(client));
  }

  lemma NothingYet()
    ensures After([]) == Store(map[], map[])
  {
  }

  lemma AfterSnoc(ops: seq<Op>, op: Op)
    ensures After(ops + [op]) == Applied(After(ops), op)
  {
    assert (ops + [op])[..|ops|] == ops;
  }

  lemma StandingSnoc(ops: seq<Op>, op: Op, key: string)
    ensures StandingOf(ops + [op], key) == match op
      case Registers(c, node, keepAlive, seconds) =>
        if CStr(c) == key then Registration(node, keepAlive, seconds, |ops|) else StandingOf(ops, key)
      case Leaves(c) => if CStr(c) == key then Unregistered else StandingOf(ops, key)
      case _ => StandingOf(ops, key)
  {
    assert (ops + [op])[..|ops|] == ops;
  }

  lemma ShortIsEditable(node: string)
    requires Plain(node) && |node| <= 100
    ensures Editable(Registered(node, 0, 60))
  {
    assert Decimal(0) == ['0'] && |Decimal(60)| == 2 by { SmallNumbers(); }
    RecordParts(node, Decimal(0), Decimal(60));
    RecordEditable(node, Decimal(0), Decimal(60));
  }

  lemma SmallNumbers()
    ensures Decimal(0) == ['0'] && |Decimal(60)| == 2
  {
    assert Digits(0) == [Digit(0)];
    assert Digits(60) == Digits(6) + [Digit(0)] && Digits(6) == [Digit(6)];
  }

  /** A heartbeat of the old node that spans the registration at a new one: the record names the old
      node again. */
  lemma StaleHeartbeatNamesOldNode(client: string, first: string, second: string, seconds: int)
    requires Plain(first) && Plain(second) && first != second && |first| <= 100
    ensures var ops := Stale(client, first, seconds, Registers(client, second, 60, 0));
      && StandingOf(ops, CStr(client)).Registration? && StandingOf(ops, CStr(client)).node == second
      && Extract(Lookup(ops, client), "gateway") == first
      && !NoneMisleads(ops)
  {
    hide Registered, Rewritten, Editable, CStr, Extract, After, StandingOf, NoneMisleads, Readable;
    var change := Registers(client, second, 60, 0);
    var ops := Stale(client, first, seconds, change);
    ShortIsEditable(first);
    StaleStep(client, first, seconds, change);
    StandingSnoc([Registers(client, first, 60, 0)] + [Reads(0, client)], change, CStr(client));
    RegisteredCarries(first, 0, 60);
    RewriteCarries(Registered(first, 0, 60), Readable(first), seconds);
    CarriesReads(Rewritten(Registered(first, 0, 60), seconds), Readable(first));
    ReadableIff(first);
    ReadableIff(second);
    if NoneMisleads(ops) {
      LookupFindsHome(ops, client);
    }
  }

  /** A heartbeat that spans the client's departure: the client is back in the registry. */
  lemma StaleHeartbeatRevives(client: string, first: string, seconds: int)
    requires Plain(first) && |first| <= 100
    ensures var ops := Stale(client, first, seconds, Leaves(client));
      && StandingOf(ops, CStr(client)).Unregistered?
      && Extract(Lookup(ops, client), "gateway") == first && Lookup(ops, client) != ""
      && !NoneMisleads(ops)
  {
    hide Registered, Rewritten, Editable, CStr, Extract, After, StandingOf, NoneMisleads, Readable;
    var ops := Stale(client, first, seconds, Leaves(client));
    ShortIsEditable(first);
    StaleStep(client, first, seconds, Leaves(client));
    StandingSnoc([Registers(client, first, 60, 0)] + [Reads(0, client)], Leaves(client), CStr(client));
    RegisteredCarries(first, 0, 60);
    RewriteCarries(Registered(first, 0, 60), Readable(first), seconds);
    CarriesReads(Rewritten(Registered(first, 0, 60), seconds), Readable(first));
    ReadableIff(first);
    LookupOpens(ops, client);
    if NoneMisleads(ops) {
      LookupFindsHome(ops, client);
    }
  }

  // ---- clients with the same C string ---------------------------------------------------------------

  /** The standing of one client, told apart by its whole id. */
  function StandingById(ops: seq<Op>, client: string): (s: Standing)
    ensures s.Registration? ==> s.at < |ops|
  {
    if ops == [] then Unregistered
    else
      var n := |ops| - 1;
      var before := StandingById(ops[..n], client);
      match ops[n]
      case Registers(c, node, keepAlive, seconds) =>
        if c == client then Registration(node, keepAlive, seconds, n) else before
      case Leaves(c) => if c == client then Unregistered else before
      case _ => before
  }

  /** A client with another id but the same C string registers, or leaves while this one is there. */
  predicate Intrudes(ops: seq<Op>, op: Op, client: string)
  {
    match op
    case Registers(c, _, _, _) => c != client && CStr(c) == CStr(client)
    case Leaves(c) => c != client && CStr(c) == CStr(client) && StandingById(ops, client).Registration?
    case _ => false
  }

  predicate NoneIntrudes(ops: seq<Op>, client: string)
  {
    ops != [] ==> NoneIntrudes(ops[..|ops| - 1], client) && !Intrudes(ops[..|ops| - 1], ops[|ops| - 1], client)
  }

  predicate OwnStandingThroughout(ops: seq<Op>, client: string)
  {
    && StandingById(ops, client) == StandingOf(ops, CStr(client))
    && (ops != [] ==> OwnStandingThroughout(ops[..|ops| - 1], client))
  }

  /** The standing the registry goes by is the client's own, after every command, if and only if no
      other client with the same C string intrudes. */
  lemma {:induction false} OwnStandingIff(ops: seq<Op>, client: string)
    ensures OwnStandingThroughout(ops, client) <==> NoneIntrudes(ops, client)
  {
    hide CStr;
    if ops != [] {
      OwnStandingIff(ops[..|ops| - 1], client);
    }
  }

  /** Two ids that differ only behind a NUL share one record. */
  lemma SharedCString(client: string, tail: string, node: string)
    requires '\0' !in client
    ensures var other := client + ['\0'] + tail; var ops := [Registers(other, node, 60, 0)];
      && StandingById(ops, client).Unregistered? && StandingOf(ops, CStr(client)).Registration?
      && Lookup(ops, client) != "" && !NoneIntrudes(ops, client)
  {
    hide CStr, Registered, After, Lookup;
    var other := client + ['\0'] + tail;
    var ops := [Registers(other, node, 60, 0)];
    CutAtNul(client, tail);
    CutAtNul(client, []);
    assert ops[..0] == [];
    AfterSnoc([], ops[0]);
    assert [] + ops == ops;
    LookupOpens(ops, client);
    OwnStandingIff(ops, client);
  }

  lemma {:induction false} CutAtNul(s: string, tail: string)
    requires '\0' !in s
    ensures CStr(s + ['\0'] + tail) == s && CStr(s) == s
  {
    var t := s + ['\0'] + tail;
    if s != [] {
      assert t[1..] == s[1..] + ['\0'] + tail;
      CutAtNul(s[1..], tail);
    }
  }

  lemma {:induction false} NoneMisleadsBefore(log: seq<Op>, changes: seq<Op>)
    requires NoneMisleads(log + changes)
    ensures NoneMisleads(log)
    decreases |changes|
  {
    hide Misleads;
    if changes == [] {
      assert log + changes == log;
    } else {
      var n := |changes| - 1;
      assert (log + changes)[..|log + changes| - 1] == log + changes[..n];
      NoneMisleadsBefore(log, changes[..n]);
    }
  }

  // ---- the store -----------------------------------------------------------------------------------

  /** The hash `iot:devices`, with what callers inside a heartbeat have read, and the telemetry hashes of
      the clients. */
  class DeviceHash {
    var records: map<string, string>
    var held: map<Caller, Held>
    var telemetry: map<string, map<string, string>>
    /** Every command so far. */
    ghost var log: seq<Op>

    ghost predicate Valid()
      reads this
    {
      Store(records, held) == After(log)
    }

    constructor ()
      ensures Valid() && log == [] && telemetry == map[]
    {
      records, held, telemetry, log := map[], map[], map[], [];
    }

    ghost method Note(op: Op)
      requires Store(records, held) == Applied(After(log), op)
      modifies this`log
      ensures Valid() && log == old(log) + [op]
    {
      AfterSnoc(log, op);
      log := log + [op];
    }

    method RegisterDevice(clientId: string, gatewayNodeId: string, keepAlive: int, seconds: int)
      requires Valid()
      modifies this`records, this`log
      ensures Valid() && log == old(log) + [Registers(clientId, gatewayNodeId, keepAlive, seconds)]
    {
      hide CStr, Record, Decimal;
      var json := Record(CStr(gatewayNodeId), Decimal(seconds), Decimal(keepAlive));
      if |json| > ROOM {
        json := json[..ROOM];
      }
      records := records[CStr(clientId) := json];
      Note(Registers(clientId, gatewayNodeId, keepAlive, seconds));
    }

    /** The client's telemetry goes, too. */
    method UnregisterDevice(clientId: string)
      requires Valid()
      modifies this`records, this`telemetry, this`log
      ensures Valid() && log == old(log) + [Leaves(clientId)]
      ensures telemetry == old(telemetry) - {CStr(clientId)}
    {
      hide CStr;
      records := records - {CStr(clientId)};
      telemetry := telemetry - {CStr(clientId)};
      Note(Leaves(clientId));
    }

    /** The HGET of a heartbeat. */
    method ReadForHeartbeat(who: Caller, clientId: string) returns (json: Text)
      requires Valid()
      modifies this`held, this`log
      ensures Valid() && log == old(log) + [Reads(who, clientId)]
      ensures json == Get(records, CStr(clientId)) && held == old(held)[who := Held(CStr(clientId), json)]
      ensures records == old(records)
    {
      hide CStr;
      json := Get(records, CStr(clientId));
      held := held[who := Held(CStr(clientId), json)];
      Note(Reads(who, clientId));
    }

    /** The search-and-replace on the text that was read, and the HSET if both ends are found. */
    method WriteHeartbeat(who: Caller, seconds: int)
      requires Valid()
      modifies this`records, this`held, this`log
      ensures Valid() && log == old(log) + [Writes(who, seconds)]
    {
      hide Find, FindEnd, Decimal, CStr;
      ghost var before := Store(records, held);
      if who in held && held[who].text.Text? {
        var json := held[who].text.text;
        var pos := Find(json, HEARTBEAT_KEY, 0);
        if pos != -1 {
          var numStart := pos + 12;
          var numEnd := FindEnd(json, numStart);
          if numEnd != -1 {
            json := json[..numStart] + Decimal(seconds) + json[numEnd..];
            records := records[held[who].key := json];
          }
        }
      }
      held := held - {who};
      Note(Writes(who, seconds));
    }

    /** `updateDeviceHeartbeat`: whatever others do comes between its two commands. */
    method UpdateDeviceHeartbeat(who: Caller, clientId: string, seconds: int, between: seq<Op>)
      requires Valid() && forall op <- between :: (op.Reads? || op.Writes?) ==> op.who != who
      modifies this
      ensures Valid() && log == old(log) + [Reads(who, clientId)] + between + [Writes(who, seconds)]
    {
      hide After;
      var _ := ReadForHeartbeat(who, clientId);
      PerformAll(between);
      WriteHeartbeat(who, seconds);
    }

    /** The text a caller gets is what the history makes of it: in a history without misleading
        heartbeats, nothing exactly for an unregistered client, and otherwise a gateway field that names
        the node that registered last, if and only if its id is plain. */
    method GetDeviceGateway(clientId: string) returns (result: string)
      requires Valid()
      ensures result == Lookup(log, clientId)
      ensures result == "" || OPEN <= result
      ensures NoneMisleads(log) ==> (result == "" <==> StandingOf(log, CStr(clientId)).Unregistered?)
      ensures var s := StandingOf(log, CStr(clientId));
        NoneMisleads(log) && s.Registration? ==> (Extract(result, "gateway") == s.node <==> Plain(s.node))
    {
      hide NoneMisleads, StandingOf, CStr, Extract, Plain;
      LookupOpens(log, clientId);
      if NoneMisleads(log) {
        LookupFindsHome(log, clientId);
      }
      result := if CStr(clientId) in records then records[CStr(clientId)] else "";
    }

    method CacheTelemetry(clientId: string, topic: string, payload: string)
      modifies this`telemetry
      ensures telemetry == old(telemetry)[CStr(clientId) :=
        (if CStr(clientId) in old(telemetry) then old(telemetry)[CStr(clientId)] else map[])[CStr(topic) := CStr(payload)]]
    {
      var fields := if CStr(clientId) in telemetry then telemetry[CStr(clientId)] else map[];
      telemetry := telemetry[CStr(clientId) := fields[CStr(topic) := CStr(payload)]];
    }

    /** One command of some node. */
    method Perform(op: Op)
      requires Valid()
      modifies this
      ensures Valid() && log == old(log) + [op]
    {
      hide After;
      match op {
        case Registers(client, node, keepAlive, seconds) => RegisterDevice(client, node, keepAlive, seconds);
        case Leaves(client) => UnregisterDevice(client);
        case Reads(who, client) => var _ := ReadForHeartbeat(who, client);
        case Writes(who, seconds) => WriteHeartbeat(who, seconds);
      }
    }

    method PerformAll(ops: seq<Op>)
      requires Valid()
      modifies this
      ensures Valid() && log == old(log) + ops
    {
      hide After;
      var i := 0;
      while i < |ops|
        invariant i <= |ops| && Valid() && log == old(log) + ops[..i]
      {
        assert log + [ops[i]] == old(log) + ops[..i + 1];
        Perform(ops[i]);
        i := i + 1;
      }
      assert ops[..i] == ops;
    }
  }
}
