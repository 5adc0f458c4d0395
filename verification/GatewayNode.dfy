/** The parts of one gateway node put together: what its device manager tells the shared registry, and
    the commands its dispatch loop hands to its own connections. */
module GatewayNode {
  import opened Bytes
  import opened DeviceManager
  import opened Sessions
  import opened GatewayServer
  import MqttWire
  import Registry
  import SharedRegistry
  import Dispatch
  import DispatchSpec

  /** A text of octets as the store's text. */
  function Chars(t: Text): (s: string)
    ensures |s| == |t|
  {
    seq(|t|, i requires 0 <= i < |t| => t[i] as char)
  }

  lemma CharsTellApart(t: Text, u: Text)
    ensures Chars(t) == Chars(u) <==> t == u
  {
    if Chars(t) == Chars(u) {
      forall i | 0 <= i < |t|
        ensures t[i] == u[i]
      {
        assert Chars(t)[i] == Chars(u)[i];
      }
    }
  }

  lemma {:induction false} WholeText(s: string)
    requires '\0' !in s
    ensures Registry.CStr(s) == s
  {
    if s != [] {
      WholeText(s[1..]);
    }
  }

  lemma WholeId(client: Client)
    requires 0 !in client
    ensures Registry.CStr(Chars(client)) == Chars(client)
  {
    forall i | 0 <= i < |client|
      ensures Chars(client)[i] != '\0'
    {
      assert client[i] in client;
      assert client[i] != 0;
    }
    WholeText(Chars(client));
  }

  // ---- the registry of a node that is alone --------------------------------------------------------

  /** The store commands of the calls of one node, `who`, made at these times. */
  function CommandsOf(calls: seq<Sync>, node: string, who: SharedRegistry.Caller, clock: nat -> int): (ops: seq<SharedRegistry.Op>)
  {
    if calls == [] then []
    else
      var n := |calls| - 1;
      var before := CommandsOf(calls[..n], node, who, clock);
      match calls[n]
      case Register(c, keepAlive) => before + [SharedRegistry.Registers(Chars(c), node, keepAlive, clock(n))]
      case Beat(c) => before + [SharedRegistry.Reads(who, Chars(c))] + [SharedRegistry.Writes(who, clock(n))]
      case Unregister(c) => before + [SharedRegistry.Leaves(Chars(c))]
  }

  predicate NulFree(calls: seq<Sync>)
  {
    forall call <- calls :: 0 !in call.client
  }

  lemma InTimeSnoc(ops: seq<SharedRegistry.Op>, op: SharedRegistry.Op)
    requires SharedRegistry.InTime(ops) && !op.Writes?
    ensures SharedRegistry.InTime(ops + [op])
  {
    assert (ops + [op])[..|ops|] == ops;
  }

  lemma BeatInTime(ops: seq<SharedRegistry.Op>, who: SharedRegistry.Caller, client: string, seconds: int)
    requires SharedRegistry.InTime(ops)
    ensures SharedRegistry.InTime(ops + [SharedRegistry.Reads(who, client)] + [SharedRegistry.Writes(who, seconds)])
  {
    hide SharedRegistry.StandingOf, Registry.CStr;
    var one := ops + [SharedRegistry.Reads(who, client)];
    var two := one + [SharedRegistry.Writes(who, seconds)];
    InTimeSnoc(ops, SharedRegistry.Reads(who, client));
    assert one[..|ops|] == ops && two[..|one|] == one;
    SharedRegistry.StandingSnoc(ops, SharedRegistry.Reads(who, client), Registry.CStr(client));
  }

  lemma {:induction false} AloneInTime(calls: seq<Sync>, node: string, who: SharedRegistry.Caller, clock: nat -> int)
    ensures SharedRegistry.InTime(CommandsOf(calls, node, who, clock))
  {
    if calls != [] {
      var n := |calls| - 1;
      var before := CommandsOf(calls[..n], node, who, clock);
      AloneInTime(calls[..n], node, who, clock);
      match calls[n] {
        case Register(c, keepAlive) => InTimeSnoc(before, SharedRegistry.Registers(Chars(c), node, keepAlive, clock(n)));
        case Beat(c) => BeatInTime(before, who, Chars(c), clock(n));
        case Unregister(c) => InTimeSnoc(before, SharedRegistry.Leaves(Chars(c)));
      }
    }
  }

  /** What the last call that registered the client said. */
  function KeepAliveOf(calls: seq<Sync>, client: Client): (keepAlive: int)
  {
    if calls == [] then 0
    else
      var n := |calls| - 1;
      if calls[n].Register? && calls[n].client == client then calls[n].keepAlive else KeepAliveOf(calls[..n], client)
  }

  /** The registry lists the client as this node's. */
  predicate HomeIs(s: SharedRegistry.Standing, node: string, listed: bool, keepAlive: int)
  {
    if listed then s.Registration? && s.node == node && s.keepAlive == keepAlive else s.Unregistered?
  }

  lemma {:induction false} StandingOfCalls(calls: seq<Sync>, node: string, who: SharedRegistry.Caller, clock: nat -> int, client: Client)
    requires NulFree(calls) && 0 !in client
    ensures HomeIs(SharedRegistry.StandingOf(CommandsOf(calls, node, who, clock), Chars(client)), node, Listed(calls, client), KeepAliveOf(calls, client))
  {
    hide SharedRegistry.StandingOf, Registry.CStr, Chars;
    if calls == [] {
      NobodyStands(Chars(client));
    } else {
      var n := |calls| - 1;
      var key := Chars(client);
      var before := CommandsOf(calls[..n], node, who, clock);
      StandingOfCalls(calls[..n], node, who, clock, client);
      var c := calls[n].client;
      WholeId(c);
      CharsTellApart(c, client);
      match calls[n] {
        case Register(_, keepAlive) =>
          SharedRegistry.StandingSnoc(before, SharedRegistry.Registers(Chars(c), node, keepAlive, clock(n)), key);
        case Beat(_) =>
          SharedRegistry.StandingSnoc(before, SharedRegistry.Reads(who, Chars(c)), key);
          SharedRegistry.StandingSnoc(before + [SharedRegistry.Reads(who, Chars(c))], SharedRegistry.Writes(who, clock(n)), key);
        case Unregister(_) =>
          SharedRegistry.StandingSnoc(before, SharedRegistry.Leaves(Chars(c)), key);
      }
    }
  }

  lemma NobodyStands(key: string)
    ensures SharedRegistry.StandingOf([], key).Unregistered?
  {
  }

  /** While only this node writes to the registry and the registry has been connected all along, it has a
      record exactly of the devices in this node's table, and commands for devices that are not connected
      here are never sent to any node. */
  lemma AloneNeverForwards(mgr: Manager, node: string, who: SharedRegistry.Caller, clock: nat -> int, client: Client, env: Dispatch.Env)
    requires mgr.Mirrored() && NulFree(mgr.synced) && 0 !in client
    requires Registry.Plain(node) && node != "" && !env.online && env.foundUp && env.recordUp
    ensures var log := CommandsOf(mgr.synced, node, who, clock);
      && (SharedRegistry.Lookup(log, Chars(client)) == "" <==> client !in mgr.devices)
      && Dispatch.Decide(node, Dispatch.Learned(log, Chars(client), env, [])).Drop?
  {
    hide SharedRegistry.StandingOf, SharedRegistry.Lookup, SharedRegistry.NoneMisleads, Registry.CStr, Registry.Readable, Registry.Extract, Dispatch.Decide, Dispatch.Learned, CommandsOf, Chars, Listed;
    var log := CommandsOf(mgr.synced, node, who, clock);
    AloneInTime(mgr.synced, node, who, clock);
    SharedRegistry.InTimeMisleadsNever(log);
    StandingOfCalls(mgr.synced, node, who, clock, client);
    WholeId(client);
    assert log + [] == log;
    assert Listed(mgr.synced, client) <==> client in mgr.devices;
    SharedRegistry.LookupFindsHome(log, Chars(client));
    Registry.ReadableIff(node);
    Dispatch.RoutedByRegistry(node, log, Chars(client), env, []);
  }

  // ---- what the node caches ------------------------------------------------------------------------

  type Telemetry = map<string, map<string, string>>

  /** One topic of one client in the telemetry hashes. */
  function FieldOf(t: Telemetry, client: string, topic: string): (value: SharedRegistry.Text)
  {
    if client in t then SharedRegistry.Get(t[client], topic) else SharedRegistry.Nothing
  }

  predicate IsFor(r: Reading, client: string, topic: string)
  {
    Registry.CStr(Chars(r.client)) == client && Registry.CStr(Chars(r.topic)) == topic
  }

  /** The value is the payload of the last of the readings that is for this client and topic; it is `was`
      if there is none. */
  ghost predicate IsLatest(readings: seq<Reading>, client: string, topic: string, was: SharedRegistry.Text, value: SharedRegistry.Text)
  {
    if exists r <- readings :: IsFor(r, client, topic) then
      exists i | 0 <= i < |readings| ::
        && IsFor(readings[i], client, topic)
        && value == SharedRegistry.Text(Registry.CStr(Chars(readings[i].payload)))
        && forall j | i < j < |readings| :: !IsFor(readings[j], client, topic)
    else value == was
  }

  lemma LatestSnoc(readings: seq<Reading>, r: Reading, client: string, topic: string, was: SharedRegistry.Text, value: SharedRegistry.Text)
    requires IsLatest(readings, client, topic, was, value)
    ensures IsLatest(readings + [r], client, topic, was,
              if IsFor(r, client, topic) then SharedRegistry.Text(Registry.CStr(Chars(r.payload))) else value)
  {
    hide IsFor, Registry.CStr, Chars;
    var longer := readings + [r];
    assert longer[|readings|] == r;
    if IsFor(r, client, topic) {
      assert r in longer;
    } else if exists q <- readings :: IsFor(q, client, topic) {
      var i :| 0 <= i < |readings| && IsFor(readings[i], client, topic)
        && value == SharedRegistry.Text(Registry.CStr(Chars(readings[i].payload)))
        && forall j | i < j < |readings| :: !IsFor(readings[j], client, topic);
      assert longer[i] == readings[i];
      assert longer[i] in longer;
    } else {
      forall q <- longer
        ensures !IsFor(q, client, topic)
      {
        assert q in readings || q == r;
      }
    }
  }

  /** The readings a gateway handed to the cache, as the store gets them one by one: every topic of every
      client has the latest payload. */
  method CacheAll(hash: SharedRegistry.DeviceHash, readings: seq<Reading>)
    modifies hash`telemetry
    ensures forall client, topic ::
      IsLatest(readings, client, topic, FieldOf(old(hash.telemetry), client, topic), FieldOf(hash.telemetry, client, topic))
  {
    hide IsLatest, Registry.CStr, Chars;
    var i := 0;
    NothingCached(hash.telemetry);
    assert readings[..0] == [];
    while i < |readings|
      invariant i <= |readings|
      invariant forall client, topic ::
        IsLatest(readings[..i], client, topic, FieldOf(old(hash.telemetry), client, topic), FieldOf(hash.telemetry, client, topic))
    {
      ghost var was := hash.telemetry;
      var r := readings[i];
      hash.CacheTelemetry(Chars(r.client), Chars(r.topic), Chars(r.payload));
      forall client, topic
        ensures IsLatest(readings[..i + 1], client, topic, FieldOf(old(hash.telemetry), client, topic), FieldOf(hash.telemetry, client, topic))
      {
        LatestSnoc(readings[..i], r, client, topic, FieldOf(old(hash.telemetry), client, topic), FieldOf(was, client, topic));
        assert readings[..i + 1] == readings[..i] + [r];
      }
      i := i + 1;
    }
    assert readings[..i] == readings;
  }

  lemma NothingCached(t: Telemetry)
    ensures forall client, topic :: IsLatest([], client, topic, FieldOf(t, client, topic), FieldOf(t, client, topic))
  {
  }

  // ---- commands to the node's own connections ------------------------------------------------------

  /** The step that hands a command to a device here is made exactly if the device is connected here. */
  lemma DeliversIff(log: seq<SharedRegistry.Op>, client: string, env: Dispatch.Env, changes: seq<SharedRegistry.Op>,
                    node: DispatchSpec.Node)
    ensures DispatchSpec.Deliver(node) in Dispatch.Deeds(node, Dispatch.Learned(log, client, env, changes)) <==> env.online
  {
    hide SharedRegistry.Lookup;
  }

  class CommandLoop {
    const gw: Gateway
    const dispatcher: Dispatch.Dispatcher

    constructor (gateway: Gateway, loop: Dispatch.Dispatcher)
      ensures gw == gateway && dispatcher == loop
    {
      gw, dispatcher := gateway, loop;
    }

    /** One turn of `processCommand` with the device table of this node: exactly if the turn makes the
        step that hands the command to a device here, one QoS 1 frame goes to that device's connection,
        and no other turn puts a frame on any. */
    method TakeCommand(id: int, streamId: Text, deviceId: Client, topic: Topic, body: Text, defaultTopic: Topic,
                       env: Dispatch.Env, changes: seq<SharedRegistry.Op>,
                       before: seq<DispatchSpec.Action>, between: seq<DispatchSpec.Action>)
      returns (a: Dispatch.Answers, ghost trace: seq<DispatchSpec.Action>)
      requires gw.Valid() && dispatcher.registry.Valid() && dispatcher.store.Valid()
      requires DispatchSpec.Batch(dispatcher.store.world, dispatcher.nodeId) != []
      requires dispatcher.nodeId !in dispatcher.store.world.atHand
      modifies gw, dispatcher, dispatcher.store, dispatcher.registry
      ensures gw.Valid() && gw.View() == old(gw.View()) && dispatcher.registry.Valid() && dispatcher.store.Valid()
      ensures a == Dispatch.Learned(old(dispatcher.registry.log), Chars(deviceId),
                                    env.(online := old(gw.deviceMgr.FindDevice(deviceId, gw.open))), changes)
      ensures DispatchSpec.Runs(old(dispatcher.store.world), trace, dispatcher.store.world)
      ensures Dispatch.OwnPart(trace, dispatcher.nodeId) == Dispatch.Deeds(dispatcher.nodeId, a)
      ensures var taken := DispatchSpec.Deliver(dispatcher.nodeId) in Dispatch.Deeds(dispatcher.nodeId, a);
        && (taken <==> old(gw.deviceMgr.FindDevice(deviceId, gw.open)))
        && (!taken ==> gw.sent == old(gw.sent) && gw.reports == old(gw.reports))
        && (taken ==>
              && gw.packetId == old(gw.packetId) % 65535 + 1
              && gw.reports == old(gw.reports) + [CommandSent(id), CommandAcked(streamId)]
              && var p := MqttWire.Publish(if topic == [] then defaultTopic else topic, body, 1, gw.packetId, false);
                 forall c :: gw.Out(c) == old(gw.Out(c))
                                           + (if c == gw.deviceMgr.devices[deviceId].connection then [MqttWire.Encode(p)] else []))
    {
      hide MqttWire.Encode, DispatchSpec.Runs, Dispatch.OwnPart, DispatchSpec.Batch, Dispatch.Learned, Dispatch.Deeds, DispatchSpec.Inv, Dispatch.Settled;
      var here := gw.deviceMgr.FindDevice(deviceId, gw.open);
      if here {
        var _ := gw.SendCommandToDevice(id, streamId, deviceId, topic, body, defaultTopic);
      }
      a, trace := dispatcher.HandleCommand(Chars(deviceId), env.(online := here), changes, before, between);
      DeliversIff(old(dispatcher.registry.log), Chars(deviceId), env.(online := here), changes, dispatcher.nodeId);
    }
  }
}
