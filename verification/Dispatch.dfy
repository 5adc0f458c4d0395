/** The dispatch loop of one gateway node (src/gateway/GatewayServer.cpp), with the routing decision
    of src/gateway/ClusterManager.cpp, against the store that all nodes share. */
module Dispatch {
  import opened DispatchSpec
  import Registry
  import SharedRegistry

  /** What the world decides about one command: whether the device is connected here, whether the
      store is reachable for the first and for the second lookup of its record, how many subscribers a
      PUBLISH reaches and whether its reply arrives, and whether an XACK reaches the store. */
  datatype Env = Env(
    online: bool, foundUp: bool, recordUp: bool, receivers: nat, heard: bool, reached: bool)

  /** What the node then goes by: the same, with the records it reads, empty when there is none. */
  datatype Answers = Answers(
    online: bool, found: string, record: string, receivers: nat, heard: bool, reached: bool)

  /** What the node learns from a registry with this history; `changes` is what others do to it between
      the two lookups. A device connected here is not looked up. */
  function Learned(log: seq<SharedRegistry.Op>, client: string, env: Env, changes: seq<SharedRegistry.Op>): (a: Answers)
  {
    Answers(env.online,
            if !env.online && env.foundUp then SharedRegistry.Lookup(log, client) else "",
            if !env.online && env.recordUp then SharedRegistry.Lookup(log + changes, client) else "",
            env.receivers, env.heard, env.reached)
  }

  function LogBefore(log: seq<SharedRegistry.Op>, changes: nat -> seq<SharedRegistry.Op>, n: nat): (r: seq<SharedRegistry.Op>)
  {
    if n == 0 then log else LogBefore(log, changes, n - 1) + changes(n - 1)
  }

  /** What the node learns for the commands of a batch, one after the other. */
  function AnswersTo(log: seq<SharedRegistry.Op>, clients: seq<string>, env: nat -> Env,
                     changes: nat -> seq<SharedRegistry.Op>): (answers: seq<Answers>)
    ensures |answers| == |clients|
  {
    if clients == [] then []
    else
      var k := |clients| - 1;
      AnswersTo(log, clients[..k], env, changes) + [Learned(LogBefore(log, changes, k), clients[k], env(k), changes(k))]
  }

  /** The devices the entries are for. */
  function Clients(stream: seq<Command>, entries: seq<nat>): (r: seq<string>)
    requires forall i | 0 <= i < |entries| :: entries[i] < |stream|
    ensures |r| == |entries|
  {
    seq(|entries|, i requires 0 <= i < |entries| => stream[entries[i]].deviceId)
  }

  datatype Plan = Local | Drop | Route(target: Node)

  /** The target channel `forwardCommand` computes from a record. */
  function Target(record: string): (target: Node)
  {
    var parsed := Registry.Extract(record, "gateway");
    if parsed != "" then parsed else record
  }

  function Decide(nodeId: Node, a: Answers): (p: Plan)
  {
    if a.online then Local
    else if a.found == nodeId || a.found == "" then Drop
    else if a.record == "" || Target(a.record) == nodeId then Drop
    else Route(Target(a.record))
  }

  const BATCH_SIZE: nat := 10

  /** `n` consecutive entries. */
  function Span(start: nat, n: nat): (s: seq<nat>)
    ensures |s| == n && forall i | 0 <= i < n :: s[i] == start + i
  {
    seq(n, i => start + i)
  }

  predicate HandsOff(nodeId: Node, a: Answers)
  {
    match Decide(nodeId, a)
    case Local => true
    case Drop => false
    case Route(_) => a.heard && a.receivers > 0
  }

  /** The steps one command takes. */
  function Deeds(nodeId: Node, a: Answers): (s: seq<Action>)
  {
    match Decide(nodeId, a)
    case Local => [Deliver(nodeId), Ack(nodeId, a.reached)]
    case Drop => [Fail(nodeId)]
    case Route(target) =>
      [Forward(nodeId, target, a.receivers, a.heard)] + if HandsOff(nodeId, a) then [Ack(nodeId, a.reached)] else []
  }

  function AllDeeds(nodeId: Node, answers: seq<Answers>): (s: seq<Action>)
  {
    if answers == [] then []
    else
      var k := |answers| - 1;
      AllDeeds(nodeId, answers[..k]) + Deeds(nodeId, answers[k])
  }

  /** How many commands went to other nodes. */
  function Forwarded(nodeId: Node, answers: seq<Answers>): (n: nat)
  {
    if answers == [] then 0
    else
      var k := |answers| - 1;
      Forwarded(nodeId, answers[..k]) + if Decide(nodeId, answers[k]).Route? && HandsOff(nodeId, answers[k]) then 1 else 0
  }

  /** Where the entry ends up. */
  function Outcome(nodeId: Node, a: Answers): (s: Status)
    ensures Mine(s, nodeId)
  {
    if !HandsOff(nodeId, a) then Abandoned(nodeId)
    else if a.reached then Acknowledged
    else Pending(nodeId)
  }

  /** Where an entry ends up, by the answers: acknowledged, or still pending if the XACK was lost, when the
      device is connected here or a PUBLISH to another node was heard to reach somebody; otherwise given up. */
  lemma OutcomeByAnswers(nodeId: Node, a: Answers)
    ensures var name := Registry.Extract(a.record, "gateway");
      var target := if name != "" then name else a.record;
      var sent := a.online || (a.found != "" && a.found != nodeId && a.record != "" && target != nodeId
                               && a.heard && a.receivers > 0);
      && (sent && a.reached ==> Outcome(nodeId, a) == Acknowledged)
      && (sent && !a.reached ==> Outcome(nodeId, a) == Pending(nodeId))
      && (!sent ==> Outcome(nodeId, a) == Abandoned(nodeId))
      && (Deliver(nodeId) in Deeds(nodeId, a) <==> a.online)
      && (Ack(nodeId, a.reached) in Deeds(nodeId, a) <==> sent)
      && Forwarded(nodeId, [a]) == if sent && !a.online then 1 else 0
  {
    hide Registry.Extract;
    assert [a][..0] == [];
    assert Forwarded(nodeId, []) == 0;
  }

  /** The node's own steps among all steps. */
  function OwnPart(trace: seq<Action>, nodeId: Node): (s: seq<Action>)
  {
    if trace == [] then []
    else
      var k := |trace| - 1;
      OwnPart(trace[..k], nodeId) + if Own(trace[k], nodeId) then [trace[k]] else []
  }

  // ---- the registry's part ---------------------------------------------------------------------

  /** Where the command of a device that is not connected here goes. The branch for a device that is
      registered here but disconnected is never taken: the lookup gives the record, which is not a node
      id. If no heartbeat has misled the registry, the command goes nowhere for an unregistered device;
      otherwise to what the record of the node that registered it last reads as, unless that is this
      node, or to a channel named by the whole record if it reads as nothing. So it goes to that node
      if and only if the node is another one with a plain, non-empty id. */
  lemma RoutedByRegistry(nodeId: Node, log: seq<SharedRegistry.Op>, client: string, env: Env,
                         changes: seq<SharedRegistry.Op>)
    requires Registry.Plain(nodeId) && !env.online && env.foundUp && env.recordUp
    ensures Learned(log, client, env, changes).found != nodeId || nodeId == ""
    ensures SharedRegistry.NoneMisleads(log + changes) ==>
      var key := Registry.CStr(client);
      var first, home := SharedRegistry.StandingOf(log, key), SharedRegistry.StandingOf(log + changes, key);
      var plan := Decide(nodeId, Learned(log, client, env, changes));
      if first.Unregistered? || home.Unregistered? then plan == Drop
      else
        var name := Registry.Readable(home.node);
        && plan == (if name == "" then Route(SharedRegistry.Lookup(log + changes, client))
                    else if name == nodeId then Drop
                    else Route(name))
        && (plan == Route(home.node) <==> Registry.Plain(home.node) && home.node != "" && home.node != nodeId)
  {
    hide SharedRegistry.Lookup, SharedRegistry.StandingOf, SharedRegistry.NoneMisleads, Registry.Extract, Registry.Readable, Registry.CStr, Decide;
    var a := Learned(log, client, env, changes);
    SharedRegistry.LookupOpens(log, client);
    SharedRegistry.LookupOpens(log + changes, client);
    NotAnId(nodeId, a);
    if SharedRegistry.NoneMisleads(log + changes) {
      SharedRegistry.NoneMisleadsBefore(log, changes);
      SharedRegistry.LookupFindsHome(log, client);
      SharedRegistry.LookupFindsHome(log + changes, client);
      var home := SharedRegistry.StandingOf(log + changes, Registry.CStr(client));
      if a.found != "" && home.Registration? {
        PlanFor(nodeId, home.node, a);
      }
    }
  }

  /** A record is no plain node id. */
  lemma NotAnId(nodeId: Node, a: Answers)
    requires Registry.Plain(nodeId) && !a.online && (a.found == "" || Registry.OPEN <= a.found)
    ensures a.found != nodeId || nodeId == ""
    ensures a.found == "" || a.record == "" ==> Decide(nodeId, a) == Drop
  {
    hide Registry.Extract;
    if a.found != "" {
      assert a.found[1] == '"';
    }
  }

  /** The target of a command whose record reads as that of the node `home`. */
  lemma PlanFor(nodeId: Node, home: Node, a: Answers)
    requires Registry.Plain(nodeId) && !a.online
    requires Registry.OPEN <= a.found && Registry.OPEN <= a.record
    requires Registry.Extract(a.record, "gateway") == Registry.Readable(home)
    ensures var name := Registry.Readable(home); var plan := Decide(nodeId, a);
      && plan == (if name == "" then Route(a.record) else if name == nodeId then Drop else Route(name))
      && (plan == Route(home) <==> Registry.Plain(home) && home != "" && home != nodeId)
  {
    hide Registry.Extract, Registry.Readable, Registry.CStr;
    assert a.found[1] == a.record[1] == '"';
    Registry.ReadableIff(home);
    RecordIsNoNode(home);
  }

  /** A text that opens like a record has a readable name, as a node id. */
  lemma RecordIsNoNode(node: string)
    ensures Registry.OPEN <= node ==> Registry.Readable(node) == "{"
  {
    if Registry.OPEN <= node {
      assert node[0] == '{' && node[1] == '"';
      var n := Registry.CStr(node);
      assert n == ['{'] + Registry.CStr(node[1..]) && Registry.CStr(node[1..])[0] == '"';
      assert Registry.FirstQuote(n) == 1;
    }
  }

  // ---- runs ------------------------------------------------------------------------------------

  lemma {:induction false} RunsAppend(w: World, s: seq<Action>, mid: World, t: seq<Action>, r: World)
    requires Runs(w, s, mid) && Runs(mid, t, r)
    ensures Runs(w, s + t, r)
    decreases |s|
  {
    hide Step, Enabled;
    if s == [] {
      assert s + t == t;
    } else {
      assert (s + t)[1..] == s[1..] + t;
      RunsAppend(Step(w, s[0]), s[1..], mid, t, r);
    }
  }

  lemma RunsOne(w: World, a: Action)
    requires Enabled(w, a)
    ensures Runs(w, [a], Step(w, a))
  {
    assert Runs(Step(w, a), [a][1..], Step(w, a));
  }

  lemma {:induction false} OwnPartAppend(s: seq<Action>, t: seq<Action>, nodeId: Node)
    ensures OwnPart(s + t, nodeId) == OwnPart(s, nodeId) + OwnPart(t, nodeId)
    decreases |t|
  {
    if t == [] {
      assert s + t == s;
    } else {
      var k := |t| - 1;
      assert (s + t)[..|s + t| - 1] == s + t[..k];
      OwnPartAppend(s, t[..k], nodeId);
    }
  }

  lemma AfterHandOff(w: World, nodeId: Node, a: Action)
    requires Inv(w) && Enabled(w, a)
    requires a == Deliver(nodeId) || (a.Forward? && a.node == nodeId && a.receivers > 0 && a.heard)
    ensures var r := Step(w, a);
      && Enabled(r, Ack(nodeId, true)) && Batch(r, nodeId) == Batch(w, nodeId) && r.cursor == w.cursor
      && forall d: nat :: StatusOf(r, d) == StatusOf(w, d)
  {
    hide Inv, Next;
  }

  lemma AfterAck(w: World, nodeId: Node, reached: bool)
    requires Inv(w) && Enabled(w, Ack(nodeId, reached))
    ensures var r := Step(w, Ack(nodeId, reached)); var e := Batch(w, nodeId)[0];
      && Batch(r, nodeId) == Batch(w, nodeId)[1..] && nodeId !in r.atHand && r.cursor == w.cursor
      && StatusOf(r, e) == (if reached then Acknowledged else Pending(nodeId))
      && forall d: nat | d != e :: StatusOf(r, d) == StatusOf(w, d)
  {
    hide OneHop, Times, Next;
    assert AtHand(w, Batch(w, nodeId)[0]);
  }

  lemma AfterGiveUp(w: World, nodeId: Node, a: Action)
    requires Inv(w) && Enabled(w, a)
    requires a == Fail(nodeId) || (a.Forward? && a.node == nodeId && !(a.receivers > 0 && a.heard))
    ensures var r := Step(w, a); var e := Batch(w, nodeId)[0];
      && Batch(r, nodeId) == Batch(w, nodeId)[1..] && nodeId !in r.atHand && r.cursor == w.cursor
      && StatusOf(r, e) == Abandoned(nodeId)
      && forall d: nat | d != e :: StatusOf(r, d) == StatusOf(w, d)
  {
    hide OneHop, Times, Next, Ledger;
  }

  lemma AfterRead(w: World, nodeId: Node, heard: bool)
    requires Inv(w) && Enabled(w, Read(nodeId, BATCH_SIZE, heard))
    ensures var r := Step(w, Read(nodeId, BATCH_SIZE, heard));
      && (nodeId in r.atHand <==> nodeId in w.atHand) && r.cursor >= w.cursor
      && r.cursor == w.cursor + Taken(w, BATCH_SIZE) && r.stream == w.stream
      && (forall e: nat | w.cursor <= e < r.cursor :: StatusOf(r, e) == Pending(nodeId))
      && (heard ==> Batch(r, nodeId) == Span(w.cursor, Taken(w, BATCH_SIZE)))
      && (!heard ==> Batch(r, nodeId) == [])
  {
    hide OneHop, Times, Waiting, AtHand;
    ReadFacts(w, nodeId, BATCH_SIZE, heard);
  }

  lemma NoSteps(w: World, nodeId: Node)
    ensures Runs(w, [], w) && OwnPart([], nodeId) == []
  {
  }

  /** One more step of a run. */
  lemma Extend(w: World, trace: seq<Action>, mid: World, a: Action, nodeId: Node)
    requires Runs(w, trace, mid) && Enabled(mid, a)
    ensures Runs(w, trace + [a], Step(mid, a))
    ensures OwnPart(trace + [a], nodeId) == OwnPart(trace, nodeId) + if Own(a, nodeId) then [a] else []
  {
    hide Step, Enabled;
    RunsOne(mid, a);
    RunsAppend(w, trace, mid, [a], Step(mid, a));
    assert (trace + [a])[..|trace|] == trace;
  }

  // ---- the shared store and the loop -------------------------------------------------------------

  /** The store, and everything that happened to it so far. */
  class Store {
    var world: World

    ghost predicate Valid()
      reads this
    {
      Inv(world)
    }

    constructor ()
      ensures Valid() && world == INIT
    {
      world := INIT;
      new;
      InitInv();
    }

    method Perform(a: Action)
      requires Valid() && Enabled(world, a)
      modifies this
      ensures Valid() && world == Step(old(world), a)
    {
      StepKeepsInv(world, a);
      world := Step(world, a);
    }

    /** The other nodes get to work: those of their wishes that are possible come true. */
    method LetOthers(nodeId: Node, wishes: seq<Action>) returns (ghost done: seq<Action>)
      requires Valid()
      modifies this
      ensures Valid() && Runs(old(world), done, world) && OwnPart(done, nodeId) == []
      ensures Untouched(old(world), world, nodeId)
    {
      hide Inv, Step, Enabled, StatusOf, Batch, Own;
      done := [];
      var i := 0;
      while i < |wishes|
        invariant i <= |wishes| && Valid() && Runs(old(world), done, world) && OwnPart(done, nodeId) == []
        invariant Untouched(old(world), world, nodeId)
      {
        var a := wishes[i];
        if Enabled(world, a) && !Own(a, nodeId) {
          ghost var before := world;
          OthersStep(world, a, nodeId);
          Perform(a);
          Extend(old(world), done, before, a, nodeId);
          done := done + [a];
        }
        i := i + 1;
      }
    }
  }

  /** The entry reached its outcome; the node's other entries stand as before. */
  ghost predicate Settled(w: World, r: World, nodeId: Node, e: nat, outcome: Status)
  {
    && w.cursor <= r.cursor
    && StatusOf(r, e) == outcome
    && forall d: nat | d < w.cursor && d != e && Mine(StatusOf(w, d), nodeId) :: StatusOf(r, d) == StatusOf(w, d)
  }

  /** The first entries of the batch reached their outcomes, the others wait. */
  ghost predicate Progress(w: World, nodeId: Node, entries: seq<nat>, answers: seq<Answers>)
    requires |answers| <= |entries|
  {
    && Batch(w, nodeId) == entries[|answers|..]
    && Distinct(entries)
    && (forall j | 0 <= j < |entries| :: entries[j] < w.cursor)
    && (forall j | 0 <= j < |answers| :: StatusOf(w, entries[j]) == Outcome(nodeId, answers[j]))
    && (forall j | |answers| <= j < |entries| :: StatusOf(w, entries[j]) == Pending(nodeId))
  }

  lemma ProgressStart(w: World, nodeId: Node, entries: seq<nat>)
    requires entries == Batch(w, nodeId) && Inv(w)
    requires forall e <- entries :: StatusOf(w, e) == Pending(nodeId)
    ensures Progress(w, nodeId, entries, [])
    ensures forall i | 0 <= i < |entries| :: entries[i] < |w.stream|
  {
    hide Ledger, OneHop, StatusOf, Batch;
    assert Owned(w);
    forall j | 0 <= j < |entries|
      ensures entries[j] < w.cursor
    {
      assert entries[j] in Batch(w, nodeId) && entries[j] in w.pending;
      assert Partition(w);
    }
  }

  lemma ProgressHead(w: World, nodeId: Node, entries: seq<nat>, answers: seq<Answers>)
    requires |answers| < |entries| && Progress(w, nodeId, entries, answers)
    ensures Batch(w, nodeId) != [] && Batch(w, nodeId)[0] == entries[|answers|]
  {
  }

  lemma ProgressStep(w: World, r: World, nodeId: Node, entries: seq<nat>, answers: seq<Answers>, a: Answers)
    requires |answers| < |entries| && Progress(w, nodeId, entries, answers)
    requires Settled(w, r, nodeId, entries[|answers|], Outcome(nodeId, a))
    requires Batch(r, nodeId) == Batch(w, nodeId)[1..]
    ensures Progress(r, nodeId, entries, answers + [a])
  {
    hide StatusOf, Batch, Outcome;
  }

  lemma ProgressEnd(w: World, nodeId: Node, entries: seq<nat>, answers: seq<Answers>)
    requires |answers| == |entries| && Progress(w, nodeId, entries, answers)
    ensures Batch(w, nodeId) == []
    ensures forall j | 0 <= j < |entries| :: StatusOf(w, entries[j]) == Outcome(nodeId, answers[j])
  {
  }

  lemma NoDeeds(nodeId: Node)
    ensures AllDeeds(nodeId, []) == [] && Forwarded(nodeId, []) == 0
  {
  }

  /** One turn of the loop, in the run and in the node's own steps. */
  lemma TurnDone(w: World, trace: seq<Action>, mid: World, steps: seq<Action>, r: World,
                 nodeId: Node, answers: seq<Answers>, a: Answers, start: seq<Action>)
    requires Runs(w, trace, mid) && Runs(mid, steps, r)
    requires OwnPart(trace, nodeId) == start + AllDeeds(nodeId, answers)
    requires OwnPart(steps, nodeId) == Deeds(nodeId, a)
    ensures Runs(w, trace + steps, r)
    ensures OwnPart(trace + steps, nodeId) == start + AllDeeds(nodeId, answers + [a])
    ensures Forwarded(nodeId, answers + [a])
         == Forwarded(nodeId, answers) + if Decide(nodeId, a).Route? && HandsOff(nodeId, a) then 1 else 0
  {
    hide Runs, Deeds, Decide, HandsOff;
    RunsAppend(w, trace, mid, steps, r);
    OwnPartAppend(trace, steps, nodeId);
    assert (answers + [a])[..|answers|] == answers;
  }

  lemma AnswersSnoc(log: seq<SharedRegistry.Op>, clients: seq<string>, env: nat -> Env, changes: nat -> seq<SharedRegistry.Op>, i: nat)
    requires i < |clients|
    ensures AnswersTo(log, clients[..i + 1], env, changes)
         == AnswersTo(log, clients[..i], env, changes) + [Learned(LogBefore(log, changes, i), clients[i], env(i), changes(i))]
  {
    assert clients[..i + 1][..i] == clients[..i];
  }

  lemma ClientsOfPrefix(stream: seq<Command>, longer: seq<Command>, entries: seq<nat>)
    requires stream <= longer && forall i | 0 <= i < |entries| :: entries[i] < |stream|
    ensures Clients(longer, entries) == Clients(stream, entries)
  {
  }

  class Dispatcher {
    const nodeId: Node
    const store: Store
    const registry: SharedRegistry.DeviceHash
    var cmdConsumed: nat
    var cmdForwarded: nat

    constructor (id: Node, shared: Store, devices: SharedRegistry.DeviceHash)
      ensures nodeId == id && store == shared && registry == devices && cmdConsumed == cmdForwarded == 0
    {
      nodeId, store, registry, cmdConsumed, cmdForwarded := id, shared, devices, 0, 0;
    }

    /** The two lookups of a command's record, with what others do to the registry in between. */
    method Consult(clientId: string, env: Env, changes: seq<SharedRegistry.Op>) returns (a: Answers)
      requires registry.Valid()
      modifies registry
      ensures registry.Valid() && registry.log == old(registry.log) + changes
      ensures a == Learned(old(registry.log), clientId, env, changes)
    {
      var found, record := "", "";
      if !env.online && env.foundUp {
        found := registry.GetDeviceGateway(clientId);
      }
      registry.PerformAll(changes);
      if !env.online && env.recordUp {
        record := registry.GetDeviceGateway(clientId);
      }
      a := Answers(env.online, found, record, env.receivers, env.heard, env.reached);
    }

    /** The checks of `forwardCommand` before its PUBLISH; empty when it refuses. */
    method ForwardTarget(record: string) returns (target: Node)
      ensures target == if record == "" || Target(record) == nodeId then "" else Target(record)
    {
      if record == "" { return ""; }
      target := record;
      var parsedNode := Registry.Extract(record, "gateway");
      if parsedNode != "" {
        target := parsedNode;
      }
      if target == nodeId { return ""; }
    }

    /** `ackCommand` for the command at hand, after other nodes acted. */
    method Acknowledge(reached: bool, between: seq<Action>) returns (ghost trace: seq<Action>)
      requires store.Valid() && Enabled(store.world, Ack(nodeId, true))
      modifies store
      ensures store.Valid() && nodeId !in store.world.atHand
      ensures Runs(old(store.world), trace, store.world) && OwnPart(trace, nodeId) == [Ack(nodeId, reached)]
      ensures Batch(store.world, nodeId) == old(Batch(store.world, nodeId))[1..]
      ensures Settled(old(store.world), store.world, nodeId, old(Batch(store.world, nodeId))[0],
                if reached then Acknowledged else Pending(nodeId))
    {
      hide Inv, Step, StatusOf, Batch;
      trace := store.LetOthers(nodeId, between);
      ghost var mid := store.world;
      store.Perform(Ack(nodeId, reached));
      AfterAck(mid, nodeId, reached);
      Extend(old(store.world), trace, mid, Ack(nodeId, reached), nodeId);
      trace := trace + [Ack(nodeId, reached)];
    }

    /** The branches of the loop: a command's first step, and whether that handed it off. */
    method TakeUp(a: Answers) returns (handed: bool)
      requires store.Valid() && Batch(store.world, nodeId) != [] && nodeId !in store.world.atHand
      modifies this`cmdForwarded, store
      ensures var first := Deeds(nodeId, a)[0];
        store.Valid() && Enabled(old(store.world), first) && store.world == Step(old(store.world), first)
      ensures handed <==> HandsOff(nodeId, a)
      ensures cmdForwarded == old(cmdForwarded) + if Decide(nodeId, a).Route? && handed then 1 else 0
    {
      hide Inv, Step, Batch;
      handed := false;
      if a.online {
        store.Perform(Deliver(nodeId));
        handed := true;
      } else if a.found == nodeId || a.found == "" {
        store.Perform(Fail(nodeId));
      } else {
        var target := ForwardTarget(a.record);
        if target == "" {
          store.Perform(Fail(nodeId));
        } else {
          store.Perform(Forward(nodeId, target, a.receivers, a.heard));
          handed := a.heard && a.receivers > 0;
          if handed {
            cmdForwarded := cmdForwarded + 1;
          }
        }
      }
    }

    /** One turn of the loop. Other nodes may act before it and before its acknowledgement. The step
        of a PUBLISH without a heard receiver includes marking the command failed. */
    method HandleCommand(clientId: string, env: Env, changes: seq<SharedRegistry.Op>, before: seq<Action>, between: seq<Action>)
      returns (a: Answers, ghost trace: seq<Action>)
      requires registry.Valid() && store.Valid() && Batch(store.world, nodeId) != [] && nodeId !in store.world.atHand
      modifies this, store, registry
      ensures registry.Valid() && registry.log == old(registry.log) + changes
      ensures a == Learned(old(registry.log), clientId, env, changes)
      ensures store.Valid() && nodeId !in store.world.atHand
      ensures Runs(old(store.world), trace, store.world) && OwnPart(trace, nodeId) == Deeds(nodeId, a)
      ensures Batch(store.world, nodeId) == old(Batch(store.world, nodeId))[1..]
      ensures Settled(old(store.world), store.world, nodeId, old(Batch(store.world, nodeId))[0], Outcome(nodeId, a))
      ensures cmdConsumed == old(cmdConsumed) + 1
      ensures cmdForwarded == old(cmdForwarded) + if Decide(nodeId, a).Route? && HandsOff(nodeId, a) then 1 else 0
    {
      hide Inv, Step, StatusOf, Batch, Runs, OwnPart, Learned;
      trace := store.LetOthers(nodeId, before);
      a := Consult(clientId, env, changes);
      cmdConsumed := cmdConsumed + 1;
      ghost var first := Deeds(nodeId, a)[0];
      ghost var mid := store.world;
      var handed := TakeUp(a);
      Extend(old(store.world), trace, mid, first, nodeId);
      trace := trace + [first];
      if handed {
        AfterHandOff(mid, nodeId, first);
        ghost var after := store.world;
        ghost var rest := Acknowledge(a.reached, between);
        RunsAppend(old(store.world), trace, after, rest, store.world);
        OwnPartAppend(trace, rest, nodeId);
        trace := trace + rest;
      } else {
        AfterGiveUp(mid, nodeId, first);
      }
    }
  
    /** `processCommand`: one batch of the group's entries for this node, each taken to its outcome,
        while other nodes act in between on the stream and on the registry. The other nodes' steps
        apart, the run consists of the read and of the steps of each command, in order, as the records
        read from the registry call for. */
    method ProcessCommand(running: bool, connected: bool, heard: bool, env: nat -> Env, changes: nat -> seq<SharedRegistry.Op>,
                          before: nat -> seq<Action>, between: nat -> seq<Action>)
      returns (entries: seq<nat>, answers: seq<Answers>, ghost trace: seq<Action>)
      requires registry.Valid() && store.Valid() && Batch(store.world, nodeId) == [] && nodeId !in store.world.atHand
      modifies this, store, registry
      ensures store.Valid() && Batch(store.world, nodeId) == [] && nodeId !in store.world.atHand
      ensures entries == if running && connected && heard
        then Span(old(store.world).cursor, Taken(old(store.world), BATCH_SIZE)) else []
      ensures forall i | 0 <= i < |entries| :: entries[i] < |store.world.stream|
      ensures answers == AnswersTo(old(registry.log), Clients(store.world.stream, entries), env, changes)
      ensures registry.Valid() && registry.log == LogBefore(old(registry.log), changes, |entries|)
      ensures Runs(old(store.world), trace, store.world)
      ensures OwnPart(trace, nodeId)
           == if running && connected then [Read(nodeId, BATCH_SIZE, heard)] + AllDeeds(nodeId, answers) else []
      ensures forall i | 0 <= i < |entries| :: StatusOf(store.world, entries[i]) == Outcome(nodeId, answers[i])
      ensures cmdConsumed == old(cmdConsumed) + |entries|
      ensures cmdForwarded == old(cmdForwarded) + Forwarded(nodeId, answers)
    {
      hide Inv, Step, StatusOf, Batch, Runs, OwnPart, Taken, Decide, HandsOff, Outcome, Settled, Progress, AllDeeds, Forwarded, Deeds, Learned, AnswersTo, Clients, LogBefore;
      entries, answers, trace := [], [], [];
      NoAnswers(registry.log, env, changes, store.world.stream);
      NoSteps(store.world, nodeId);
      NoDeeds(nodeId);
      if !running || !connected { return; }
      var read := Read(nodeId, BATCH_SIZE, heard);
      AfterRead(store.world, nodeId, heard);
      Extend(store.world, [], store.world, read, nodeId);
      store.Perform(read);
      trace := [] + [read];
      entries := Batch(store.world, nodeId);
      ProgressStart(store.world, nodeId, entries);
      ghost var stream := store.world.stream;
      var clients := Clients(store.world.stream, entries);
      while |answers| < |entries|
        invariant |answers| <= |entries| && store.Valid() && registry.Valid() && nodeId !in store.world.atHand
        invariant Progress(store.world, nodeId, entries, answers)
        invariant Runs(old(store.world), trace, store.world)
        invariant OwnPart(trace, nodeId) == [read] + AllDeeds(nodeId, answers)
        invariant answers == AnswersTo(old(registry.log), clients[..|answers|], env, changes)
        invariant registry.log == LogBefore(old(registry.log), changes, |answers|)
        invariant cmdConsumed == old(cmdConsumed) + |answers|
        invariant cmdForwarded == old(cmdForwarded) + Forwarded(nodeId, answers)
        decreases |entries| - |answers|
      {
        ghost var mid := store.world;
        var i := |answers|;
        ProgressHead(mid, nodeId, entries, answers);
        AnswersSnoc(old(registry.log), clients, env, changes, i);
        LogStep(old(registry.log), changes, i);
        var a;
        ghost var steps;
        a, steps := HandleCommand(clients[i], env(i), changes(i), before(i), between(i));
        ProgressStep(mid, store.world, nodeId, entries, answers, a);
        TurnDone(old(store.world), trace, mid, steps, store.world, nodeId, answers, a, [read]);
        trace := trace + steps;
        answers := answers + [a];
      }
      assert clients[..|answers|] == clients;
      ProgressEnd(store.world, nodeId, entries, answers);
      RunForgetsNothing(old(store.world), trace, store.world);
      ClientsOfPrefix(stream, store.world.stream, entries);
    }
  }

  lemma NoAnswers(log: seq<SharedRegistry.Op>, env: nat -> Env, changes: nat -> seq<SharedRegistry.Op>, stream: seq<Command>)
    ensures Clients(stream, []) == [] && AnswersTo(log, [], env, changes) == [] && LogBefore(log, changes, 0) == log
  {
  }

  lemma LogStep(log: seq<SharedRegistry.Op>, changes: nat -> seq<SharedRegistry.Op>, i: nat)
    ensures LogBefore(log, changes, i + 1) == LogBefore(log, changes, i) + changes(i)
  {
  }
}
