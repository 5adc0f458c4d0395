/** The device table and the two subscription indexes of one node (src/gateway/DeviceManager.cpp).
    Calls to the distributed registry are recorded in the order they are made. */
module DeviceManager {
  import opened Bytes

  type Client = Text
  type Topic = Text
  /** The identity of a connection object. */
  type Conn = nat

  datatype Device = Device(username: Text, keepAlive: int, lastHeartbeat: int, onlineTime: int, connection: Conn)

  type Forward = map<Client, set<Topic>>
  type Inverted = map<Topic, set<Client>>

  ghost predicate Related(subs: Forward, c: Client, t: Topic)
  {
    c in subs && t in subs[c]
  }

  ghost predicate RelatedBack(tops: Inverted, c: Client, t: Topic)
  {
    t in tops && c in tops[t]
  }

  /** Both indexes say the same, and neither keeps an empty set. */
  ghost predicate Agree(subs: Forward, tops: Inverted)
  {
    && (forall c, t :: Related(subs, c, t) <==> RelatedBack(tops, c, t))
    && (forall c <- subs :: subs[c] != {})
    && (forall t <- tops :: tops[t] != {})
  }

  /** The subscriptions as a plain set of pairs. */
  ghost function Pairs(subs: Forward): (r: set<(Client, Topic)>)
    ensures forall c, t :: (c, t) in r <==> Related(subs, c, t)
  {
    set c, t | c in subs && t in subs[c] :: (c, t)
  }

  function Members<T(!new)>(s: seq<T>): (r: set<T>)
    ensures forall x :: x in r <==> x in s
  {
    set x | x in s
  }

  ghost function Without(pairs: set<(Client, Topic)>, gone: set<Client>): (r: set<(Client, Topic)>)
  {
    set p | p in pairs && p.0 !in gone
  }

  // ---- one update of an index ------------------------------------------------------------------

  function Entry<K, V>(m: map<K, set<V>>, k: K): (s: set<V>)
  {
    if k in m then m[k] else {}
  }

  /** `m[k].insert(v)` */
  function Insert<K, V>(m: map<K, set<V>>, k: K, v: V): (r: map<K, set<V>>)
  {
    m[k := Entry(m, k) + {v}]
  }

  /** Erases `v` under `k`, and the entry of `k` with its last element. */
  function Erase<K, V>(m: map<K, set<V>>, k: K, v: V): (r: map<K, set<V>>)
  {
    var s := Entry(m, k) - {v};
    if s == {} then m - {k} else m[k := s]
  }

  lemma InsertAgrees(subs: Forward, tops: Inverted, c: Client, t: Topic)
    requires Agree(subs, tops)
    ensures Agree(Insert(subs, c, t), Insert(tops, t, c))
    ensures Pairs(Insert(subs, c, t)) == Pairs(subs) + {(c, t)}
  {
    var s, r := Insert(subs, c, t), Insert(tops, t, c);
    forall c', t'
      ensures Related(s, c', t') <==> Related(subs, c', t') || (c', t') == (c, t)
      ensures RelatedBack(r, c', t') <==> RelatedBack(tops, c', t') || (c', t') == (c, t)
    {
    }
  }

  lemma EraseAgrees(subs: Forward, tops: Inverted, c: Client, t: Topic)
    requires Agree(subs, tops)
    ensures Agree(Erase(subs, c, t), Erase(tops, t, c))
    ensures Pairs(Erase(subs, c, t)) == Pairs(subs) - {(c, t)}
  {
    var s, r := Erase(subs, c, t), Erase(tops, t, c);
    forall c', t'
      ensures Related(s, c', t') <==> Related(subs, c', t') && (c', t') != (c, t)
      ensures RelatedBack(r, c', t') <==> RelatedBack(tops, c', t') && (c', t') != (c, t)
    {
    }
  }

  // ---- who hears a topic -----------------------------------------------------------------------

  ghost function Audience(pairs: set<(Client, Topic)>, topic: Topic): (r: set<Client>)
    ensures forall c :: c in r <==> (c, topic) in pairs
  {
    set p | p in pairs && p.1 == topic :: p.0
  }

  /** Those of the clients that are registered and reached on this open connection. */
  ghost function Reached(clients: set<Client>, devices: map<Client, Device>, open: set<Conn>, conn: Conn): (r: set<Client>)
  {
    set c | c in clients && c in devices && devices[c].connection == conn && conn in open
  }

  lemma AudienceIs(subs: Forward, tops: Inverted, topic: Topic)
    requires Agree(subs, tops)
    ensures Audience(Pairs(subs), topic) == if topic in tops then tops[topic] else {}
  {
    assert forall c :: Related(subs, c, topic) <==> RelatedBack(tops, c, topic);
  }

  /** Each connection is listed as often as there are such clients. */
  ghost predicate Lists(result: seq<Conn>, clients: set<Client>, devices: map<Client, Device>, open: set<Conn>)
  {
    forall conn :: multiset(result)[conn] == |Reached(clients, devices, open, conn)|
  }

  lemma ListsOneMore(result: seq<Conn>, clients: set<Client>, c: Client, devices: map<Client, Device>, open: set<Conn>)
    requires Lists(result, clients, devices, open) && c !in clients
    ensures Lists(if c in devices && devices[c].connection in open then result + [devices[c].connection] else result,
                  clients + {c}, devices, open)
  {
    var more := if c in devices && devices[c].connection in open then result + [devices[c].connection] else result;
    forall conn
      ensures multiset(more)[conn] == |Reached(clients + {c}, devices, open, conn)|
    {
      var before := Reached(clients, devices, open, conn);
      assert Reached(clients + {c}, devices, open, conn)
          == if c in devices && devices[c].connection == conn && conn in open then before + {c} else before;
    }
  }

  lemma ListsNobody(devices: map<Client, Device>, open: set<Conn>)
    ensures Lists([], {}, devices, open)
  {
    forall conn
      ensures |Reached({}, devices, open, conn)| == 0
    {
      assert Reached({}, devices, open, conn) == {};
    }
  }

  /** A call to the distributed registry. */
  datatype Sync = Register(client: Client, keepAlive: int) | Beat(client: Client) | Unregister(client: Client)

  function Unregisters(ids: seq<Client>): (r: seq<Sync>)
    ensures |r| == |ids|
  {
    seq(|ids|, i requires 0 <= i < |ids| => Unregister(ids[i]))
  }

  /** By these calls the registry lists the client: the last one that registers or unregisters it
      registers it. */
  predicate Listed(calls: seq<Sync>, client: Client)
  {
    if calls == [] then false
    else
      var n := |calls| - 1;
      match calls[n]
      case Register(c, _) => c == client || Listed(calls[..n], client)
      case Beat(_) => Listed(calls[..n], client)
      case Unregister(c) => c != client && Listed(calls[..n], client)
  }

  lemma ListedSnoc(calls: seq<Sync>, call: Sync, client: Client)
    ensures Listed(calls + [call], client) <==>
      if call.Beat? || call.client != client then Listed(calls, client) else call.Register?
  {
    assert (calls + [call])[..|calls|] == calls;
  }

  lemma {:induction false} ListedWithout(calls: seq<Sync>, ids: seq<Client>, client: Client)
    ensures Listed(calls + Unregisters(ids), client) <==> Listed(calls, client) && client !in ids
    decreases |ids|
  {
    hide Listed;
    if ids == [] {
      assert calls + Unregisters([]) == calls;
    } else {
      var front, last := ids[..|ids| - 1], ids[|ids| - 1];
      assert ids == front + [last];
      assert calls + Unregisters(ids) == (calls + Unregisters(front)) + [Unregister(last)];
      ListedWithout(calls, front, client);
      ListedSnoc(calls + Unregisters(front), Unregister(last), client);
    }
  }

  class Manager {
    var devices: map<Client, Device>
    var subscriptions: Forward
    var topicSubscribers: Inverted
    /** Whether the registry is there and connected; calls to it are made only then. */
    var registryUp: bool
    var synced: seq<Sync>

    ghost predicate Valid()
      reads this
    {
      Agree(subscriptions, topicSubscribers)
    }

    /** The registry lists exactly the devices of this table, going by this node's calls alone. */
    ghost predicate Mirrored()
      reads this
    {
      forall c :: Listed(synced, c) <==> c in devices
    }

    constructor ()
      ensures Valid() && devices == map[] && Pairs(subscriptions) == {} && synced == [] && Mirrored()
    {
      devices, subscriptions, topicSubscribers := map[], map[], map[];
      registryUp, synced := false, [];
    }

    method Tell(call: Sync)
      modifies this`synced
      ensures synced == if registryUp then old(synced) + [call] else old(synced)
    {
      if registryUp {
        synced := synced + [call];
      }
    }

    method DeviceOnline(clientId: Client, conn: Conn, keepAlive: int, username: Text, now: int)
      requires Valid()
      modifies this`devices, this`synced
      ensures Valid() && devices == old(devices)[clientId := Device(username, keepAlive, now, now, conn)]
      ensures synced == if registryUp then old(synced) + [Register(clientId, keepAlive)] else old(synced)
      ensures old(Mirrored()) && registryUp ==> Mirrored()
    {
      devices := devices[clientId := Device(username, keepAlive, now, now, conn)];
      Tell(Register(clientId, keepAlive));
      forall c
        ensures Listed(old(synced) + [Register(clientId, keepAlive)], c) <==> if c != clientId then Listed(old(synced), c) else true
      {
        ListedSnoc(old(synced), Register(clientId, keepAlive), c);
      }
    }

    method UpdateHeartbeat(clientId: Client, now: int)
      requires Valid()
      modifies this`devices, this`synced
      ensures Valid() && devices ==
        if clientId in old(devices) then old(devices)[clientId := old(devices)[clientId].(lastHeartbeat := now)]
        else old(devices)
      ensures synced == if registryUp then old(synced) + [Beat(clientId)] else old(synced)
      ensures old(Mirrored()) && registryUp ==> Mirrored()
    {
      if clientId in devices {
        devices := devices[clientId := devices[clientId].(lastHeartbeat := now)];
      }
      Tell(Beat(clientId));
      forall c
        ensures Listed(old(synced) + [Beat(clientId)], c) <==> Listed(old(synced), c)
      {
        ListedSnoc(old(synced), Beat(clientId), c);
      }
    }

    /** `findDevice`: `open` are the connections that report `connected()`. */
    function FindDevice(clientId: Client, open: set<Conn>): (found: bool)
      reads this
    {
      clientId in devices && devices[clientId].connection in open
    }

    method Subscribe(clientId: Client, topic: Topic)
      requires Valid()
      modifies this`subscriptions, this`topicSubscribers
      ensures Valid() && Pairs(subscriptions) == Pairs(old(subscriptions)) + {(clientId, topic)}
    {
      InsertAgrees(subscriptions, topicSubscribers, clientId, topic);
      subscriptions := Insert(subscriptions, clientId, topic);
      topicSubscribers := Insert(topicSubscribers, topic, clientId);
    }

    method Unsubscribe(clientId: Client, topic: Topic)
      requires Valid()
      modifies this`subscriptions, this`topicSubscribers
      ensures Valid() && Pairs(subscriptions) == Pairs(old(subscriptions)) - {(clientId, topic)}
    {
      EraseAgrees(subscriptions, topicSubscribers, clientId, topic);
      subscriptions := Removed(subscriptions, clientId, topic);
      topicSubscribers := Removed(topicSubscribers, topic, clientId);
    }

    /** One of the two erasures: an entry that becomes empty goes away. */
    method Removed(m: map<Text, set<Text>>, key: Text, value: Text) returns (r: map<Text, set<Text>>)
      ensures r == Erase(m, key, value)
    {
      r := m;
      if key in r {
        var left := r[key] - {value};
        r := r[key := left];
        if left == {} {
          r := r - {key};
        }
      }
    }

    method DeviceOffline(clientId: Client)
      requires Valid()
      modifies this`devices, this`subscriptions, this`topicSubscribers, this`synced
      ensures Valid() && devices == old(devices) - {clientId}
      ensures Pairs(subscriptions) == Without(Pairs(old(subscriptions)), {clientId})
      ensures synced == if registryUp then old(synced) + [Unregister(clientId)] else old(synced)
      ensures old(Mirrored()) && registryUp ==> Mirrored()
    {
      OfflineLocked(clientId);
      Tell(Unregister(clientId));
      forall c
        ensures Listed(old(synced) + [Unregister(clientId)], c) <==> if c != clientId then Listed(old(synced), c) else false
      {
        ListedSnoc(old(synced), Unregister(clientId), c);
      }
    }

    /** `deviceOfflineLocked`: the forward index says which inverted entries to erase. */
    method OfflineLocked(clientId: Client)
      requires Valid()
      modifies this`devices, this`subscriptions, this`topicSubscribers
      ensures Valid() && devices == old(devices) - {clientId}
      ensures Pairs(subscriptions) == Without(Pairs(old(subscriptions)), {clientId})
    {
      devices := devices - {clientId};
      if clientId in subscriptions {
        var rest := subscriptions[clientId];
        while rest != {}
          invariant devices == old(devices) - {clientId} && subscriptions == old(subscriptions)
          invariant rest <= subscriptions[clientId]
          invariant forall c, t :: RelatedBack(topicSubscribers, c, t) <==>
            RelatedBack(old(topicSubscribers), c, t) && (c != clientId || t in rest)
          invariant forall t <- topicSubscribers :: topicSubscribers[t] != {}
        {
          var topic :| topic in rest;
          topicSubscribers := Erased(topicSubscribers, topic, clientId);
          rest := rest - {topic};
        }
        subscriptions := subscriptions - {clientId};
      }
    }

    /** The body of the erase loop; `topicSubscribers[topic]` creates a missing entry first. */
    method Erased(tops: Inverted, topic: Topic, clientId: Client) returns (r: Inverted)
      requires forall t <- tops :: tops[t] != {}
      ensures forall t <- r :: r[t] != {}
      ensures forall c, t :: RelatedBack(r, c, t) <==> RelatedBack(tops, c, t) && (c, t) != (clientId, topic)
    {
      var subbers := Entry(tops, topic) - {clientId};
      r := tops[topic := subbers];
      if subbers == {} {
        r := r - {topic};
      }
    }

    /** One entry per online client subscribed to the topic: each connection is listed as often as
        there are such clients reached on it. */
    method GetSubscribers(topic: Topic, open: set<Conn>) returns (result: seq<Conn>)
      requires Valid()
      ensures Lists(result, Audience(Pairs(subscriptions), topic), devices, open)
    {
      hide Lists, Audience;
      result := [];
      ghost var done: set<Client> := {};
      var rest := if topic in topicSubscribers then topicSubscribers[topic] else {};
      ghost var all := rest;
      assert Audience(Pairs(subscriptions), topic) == all by { AudienceIs(subscriptions, topicSubscribers, topic); }
      ListsNobody(devices, open);
      while rest != {}
        invariant done + rest == all && done !! rest
        invariant Lists(result, done, devices, open)
      {
        var clientId :| clientId in rest;
        ListsOneMore(result, done, clientId, devices, open);
        done := done + {clientId};
        rest := rest - {clientId};
        if clientId in devices && devices[clientId].connection in open {
          result := result + [devices[clientId].connection];
        }
      }
      assert done == all;
    }

    /** More than one and a half keep-alive intervals without a sign of life, in microseconds. */
    static predicate Late(d: Device, now: int)
    {
      2 * (now - d.lastHeartbeat) > 3 * d.keepAlive * 1_000_000
    }

    method CheckHeartbeatTimeout(now: int) returns (timedOut: seq<Client>)
      requires Valid()
      modifies this`devices, this`subscriptions, this`topicSubscribers, this`synced
      ensures Valid()
      ensures synced == if registryUp then old(synced) + Unregisters(timedOut) else old(synced)
      ensures old(Mirrored()) && registryUp ==> Mirrored()
      ensures forall c :: c in timedOut <==> c in old(devices) && Late(old(devices)[c], now)
      ensures devices == old(devices) - Members(timedOut)
      ensures Pairs(subscriptions) == Without(Pairs(old(subscriptions)), Members(timedOut))
    {
      timedOut := [];
      var rest := devices.Keys;
      while rest != {}
        invariant rest <= devices.Keys && devices == old(devices) && subscriptions == old(subscriptions)
        invariant topicSubscribers == old(topicSubscribers)
        invariant forall c :: c in timedOut <==> c in devices && c !in rest && Late(devices[c], now)
      {
        var clientId :| clientId in rest;
        rest := rest - {clientId};
        if Late(devices[clientId], now) {
          timedOut := timedOut + [clientId];
        }
      }
      AllOffline(timedOut);
      if registryUp {
        synced := synced + Unregisters(timedOut);
      }
      forall c
        ensures Listed(old(synced) + Unregisters(timedOut), c) <==> Listed(old(synced), c) && c !in timedOut
      {
        ListedWithout(old(synced), timedOut, c);
      }
    }

    /** The second loop of the sweep. */
    method AllOffline(ids: seq<Client>)
      requires Valid()
      modifies this`devices, this`subscriptions, this`topicSubscribers
      ensures Valid()
      ensures devices == old(devices) - Members(ids)
      ensures Pairs(subscriptions) == Without(Pairs(old(subscriptions)), Members(ids))
    {
      var i := 0;
      while i < |ids|
        invariant i <= |ids| && Valid()
        invariant devices == old(devices) - Members(ids[..i])
        invariant Pairs(subscriptions) == Without(Pairs(old(subscriptions)), Members(ids[..i]))
      {
        assert Members(ids[..i + 1]) == Members(ids[..i]) + {ids[i]};
        OfflineLocked(ids[i]);
        i := i + 1;
      }
      assert ids[..i] == ids;
    }
  }
}
