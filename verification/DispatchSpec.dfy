/** Commands on their way from the shared stream to the devices, over every interleaving of the
    gateway nodes, of crashes and of lost replies of the store. Nodes compete for the entries of one
    stream as consumers of one group; a store operation is atomic. */
module DispatchSpec {

  type Node = string

  datatype Command = Command(id: int, deviceId: string, topic: string, payload: string)

  datatype Way = ToDevice | ToNode(target: Node)

  /** Node `giver` queued the entry's command to a local device connection, or published it to the
      route channel of another node with at least one subscriber. */
  datatype Handoff = Handoff(entry: nat, giver: Node, way: Way)

  /** A command on the route channel of node `to`. The stream id is not part of the message. */
  datatype Relay = Relay(entry: nat, to: Node)

  /** The command of the entry was queued to a device connection by `node`. */
  datatype Sent = Sent(entry: nat, node: Node)

  /** Stream entries are named by their position. `cursor` is the group's last delivered position,
      `pending` its pending list with the consumer of each entry. `batch` are the entries a node has
      read and not finished; the first one is at hand once it was handed off and not acknowledged
      yet. `givenUp` are the entries whose node called `markCommandFailed`, `muted` those whose
      PUBLISH was received although its reply got lost. */
  datatype World = World(
    stream: seq<Command>, cursor: nat, pending: map<nat, Node>, acked: set<nat>,
    batch: map<Node, seq<nat>>, atHand: set<Node>,
    handoffs: seq<Handoff>, givenUp: set<nat>, muted: set<nat>,
    relays: multiset<Relay>, sent: seq<Sent>)

  const INIT: World := World([], 0, map[], {}, map[], {}, [], {}, {}, multiset{}, [])

  datatype Action =
    | Add(cmd: Command)                                             // XADD
    | Read(node: Node, count: nat, heard: bool)                     // XREADGROUP
    | Deliver(node: Node)                                           // to a local device
    | Forward(node: Node, target: Node, receivers: nat, heard: bool) // PUBLISH
    | Ack(node: Node, reached: bool)                                // XACK
    | Fail(node: Node)                                              // no PUBLISH was made
    | Crash(node: Node)
    | Relayed(node: Node, relay: Relay, online: bool)               // processCrossNodeCommand

  function Batch(w: World, node: Node): (s: seq<nat>)
  {
    if node in w.batch then w.batch[node] else []
  }

  /** A node reads only after its last batch, and takes its batch in order. */
  predicate Enabled(w: World, a: Action)
  {
    match a
    case Add(_) => true
    case Read(node, _, _) => Batch(w, node) == []
    case Deliver(node) => Batch(w, node) != [] && node !in w.atHand
    case Forward(node, target, _, _) => Batch(w, node) != [] && node !in w.atHand && target != node
    case Ack(node, _) => node in w.atHand && Batch(w, node) != []
    case Fail(node) => Batch(w, node) != [] && node !in w.atHand
    case Crash(_) => true
    case Relayed(node, relay, _) => relay in w.relays && relay.to == node
  }

  /** How many entries an XREADGROUP with this count delivers. */
  function Taken(w: World, count: nat): (n: nat)
  {
    if w.cursor + count <= |w.stream| then count
    else if w.cursor <= |w.stream| then |w.stream| - w.cursor
    else 0
  }

  /** The pending list after `n` entries went to a node. */
  function Assigned(pending: map<nat, Node>, start: nat, n: nat, node: Node): (r: map<nat, Node>)
    ensures forall e: nat :: e in r <==> e in pending || start <= e < start + n
    ensures forall e <- r :: r[e] == if start <= e < start + n then node else pending[e]
  {
    if n == 0 then pending else Assigned(pending, start, n - 1, node)[start + n - 1 := node]
  }

  /** The node is done with the first entry of its batch. */
  function Next(w: World, node: Node): (r: World)
    requires Batch(w, node) != []
    ensures forall n :: Batch(r, n) == if n == node then Batch(w, node)[1..] else Batch(w, n)
    ensures r == w.(batch := r.batch, atHand := w.atHand - {node})
  {
    w.(batch := w.batch[node := Batch(w, node)[1..]], atHand := w.atHand - {node})
  }

  /** Every subscriber of the channel gets its own copy. */
  function OnForward(w: World, node: Node, target: Node, receivers: nat, heard: bool): (r: World)
    requires Enabled(w, Forward(node, target, receivers, heard))
  {
    var e := Batch(w, node)[0];
    var out := if receivers == 0 then w else
      w.(handoffs := w.handoffs + [Handoff(e, node, ToNode(target))],
         relays := w.relays[Relay(e, target) := w.relays[Relay(e, target)] + receivers]);
    if receivers > 0 && heard then out.(atHand := out.atHand + {node})
    else Next(out.(givenUp := out.givenUp + {e},
                   muted := if receivers > 0 then out.muted + {e} else out.muted), node)
  }

  /** A lost XREADGROUP reply leaves the entries in the pending list of a node that never saw them.
      An XACK that does not reach the store changes nothing there; its result is ignored. */
  function Step(w: World, a: Action): (r: World)
    requires Enabled(w, a)
  {
    match a
    case Add(cmd) => w.(stream := w.stream + [cmd])
    case Read(node, count, heard) =>
      var n := Taken(w, count);
      w.(cursor := w.cursor + n,
         pending := Assigned(w.pending, w.cursor, n, node),
         batch := if heard then w.batch[node := seq(n, i => w.cursor + i)] else w.batch)
    case Deliver(node) =>
      var e := Batch(w, node)[0];
      w.(handoffs := w.handoffs + [Handoff(e, node, ToDevice)], sent := w.sent + [Sent(e, node)],
         atHand := w.atHand + {node})
    case Forward(node, target, receivers, heard) => OnForward(w, node, target, receivers, heard)
    case Ack(node, reached) =>
      var e := Batch(w, node)[0];
      Next(if reached && e in w.pending then w.(pending := w.pending - {e}, acked := w.acked + {e}) else w, node)
    case Fail(node) => Next(w.(givenUp := w.givenUp + {Batch(w, node)[0]}), node)
    case Crash(node) => w.(batch := w.batch - {node}, atHand := w.atHand - {node})
    case Relayed(node, relay, online) =>
      var taken := w.(relays := w.relays - multiset{relay});
      if online then taken.(sent := taken.sent + [Sent(relay.entry, node)]) else taken
  }

  predicate Runs(w: World, actions: seq<Action>, r: World)
    decreases |actions|
  {
    if actions == [] then r == w
    else Enabled(w, actions[0]) && Runs(Step(w, actions[0]), actions[1..], r)
  }

  /** How often an entry was handed off. */
  function Times(handoffs: seq<Handoff>, e: nat): (n: nat)
  {
    if handoffs == [] then 0
    else Times(handoffs[..|handoffs| - 1], e) + (if handoffs[|handoffs| - 1].entry == e then 1 else 0)
  }

  lemma TimesSnoc(handoffs: seq<Handoff>, h: Handoff)
    ensures forall e :: Times(handoffs + [h], e) == Times(handoffs, e) + if h.entry == e then 1 else 0
  {
    assert (handoffs + [h])[..|handoffs|] == handoffs;
  }

  // ---- the invariant -----------------------------------------------------------------------------

  /** Every entry is in exactly one of undelivered, pending, acknowledged. */
  ghost predicate Partition(w: World)
  {
    && w.cursor <= |w.stream|
    && (forall e: nat :: e < w.cursor <==> e in w.pending || e in w.acked)
    && (forall e :: e in w.pending ==> e !in w.acked)
  }

  ghost predicate Distinct(s: seq<nat>)
  {
    forall i, j | 0 <= i < j < |s| :: s[i] != s[j]
  }

  /** What a node works on is pending for it, each entry once. */
  ghost predicate Owned(w: World)
  {
    && (forall n, e | e in Batch(w, n) :: e in w.pending && w.pending[e] == n)
    && (forall n :: Distinct(Batch(w, n)))
    && (forall n <- w.atHand :: Batch(w, n) != [])
  }

  /** A node has this entry before it and has not handed it off. */
  ghost predicate Waiting(w: World, e: nat)
  {
    && e in w.pending && e in Batch(w, w.pending[e])
    && (w.pending[e] in w.atHand ==> Batch(w, w.pending[e])[0] != e)
  }

  ghost predicate AtHand(w: World, e: nat)
  {
    e in w.pending && w.pending[e] in w.atHand && Batch(w, w.pending[e]) != [] && Batch(w, w.pending[e])[0] == e
  }

  ghost predicate Ledger(w: World)
  {
    && (forall e: nat :: Times(w.handoffs, e) <= 1)
    && (forall e: nat | e >= w.cursor || Waiting(w, e) :: Times(w.handoffs, e) == 0)
    && (forall e: nat | e in w.acked || AtHand(w, e) :: Times(w.handoffs, e) == 1)
    && (forall e <- w.givenUp :: e in w.pending && e !in Batch(w, w.pending[e]))
    && (forall e <- w.givenUp :: Times(w.handoffs, e) == 1 <==> e in w.muted)
    && w.muted <= w.givenUp
  }

  /** Another node published the entry to this node. */
  ghost predicate Routed(handoffs: seq<Handoff>, e: nat, node: Node)
  {
    exists h <- handoffs :: h.entry == e && h.giver != node && h.way == ToNode(node)
  }

  /** No command travels more than one hop: what sits on a route channel, and what goes to a device
      without the node having read it, was published by the node that read it. */
  ghost predicate OneHop(handoffs: seq<Handoff>, relays: multiset<Relay>, sent: seq<Sent>)
  {
    && (forall h <- handoffs :: h.way != ToNode(h.giver))
    && (forall r | r in relays :: Routed(handoffs, r.entry, r.to))
    && (forall s <- sent :: Handoff(s.entry, s.node, ToDevice) in handoffs || Routed(handoffs, s.entry, s.node))
  }

  ghost predicate Inv(w: World)
  {
    Partition(w) && Owned(w) && Ledger(w) && OneHop(w.handoffs, w.relays, w.sent)
  }

  lemma InitInv()
    ensures Inv(INIT)
  {
  }

  // ---- every step keeps it ---------------------------------------------------------------------

  lemma TailFacts(s: seq<nat>)
    requires Distinct(s) && s != []
    ensures Distinct(s[1..]) && s[0] !in s[1..]
    ensures forall e :: e in s <==> e == s[0] || e in s[1..]
  {
    assert s == [s[0]] + s[1..];
  }

  /** Finishing the first entry of a batch. */
  lemma NextOwned(w: World, node: Node)
    requires Owned(w) && Batch(w, node) != []
    ensures Owned(Next(w, node)) && Batch(w, node)[0] !in Batch(Next(w, node), node)
    ensures forall n, e :: e in Batch(w, n) <==> e in Batch(Next(w, node), n) || (n == node && e == Batch(w, node)[0])
  {
    hide Batch, Distinct;
    TailFacts(Batch(w, node));
  }

  /** Moving on hands nothing off, and the finished entry is in no stage any more. */
  lemma NextStages(w: World, node: Node)
    requires Owned(w) && Batch(w, node) != []
    ensures var r := Next(w, node); var e := Batch(w, node)[0];
      && Owned(r) && e in w.pending && w.pending[e] == node && e !in Batch(r, node)
      && (forall d: nat | Waiting(r, d) :: Waiting(w, d) && d != e)
      && (forall d: nat | AtHand(r, d) :: AtHand(w, d) && d != e)
      && (forall n, d | d in Batch(r, n) :: d in Batch(w, n))
  {
    hide Batch, Distinct, Next;
    NextOwned(w, node);
  }

  lemma AddKeepsInv(w: World, cmd: Command)
    requires Inv(w)
    ensures Inv(Step(w, Add(cmd)))
  {
    hide Times, OneHop, Distinct;
    var r := Step(w, Add(cmd));
    assert forall n :: Batch(r, n) == Batch(w, n);
  }

  /** The batches and the pending list after a read. */
  lemma ReadFacts(w: World, node: Node, count: nat, heard: bool)
    requires Inv(w) && Enabled(w, Read(node, count, heard))
    ensures var r := Step(w, Read(node, count, heard));
      && w.cursor <= r.cursor <= |r.stream| && Distinct(Batch(r, node))
      && (forall n | n != node :: Batch(r, n) == Batch(w, n))
      && (forall e <- Batch(r, node) :: w.cursor <= e < r.cursor)
      && (forall e: nat :: e in r.pending <==> e in w.pending || w.cursor <= e < r.cursor)
      && (forall e <- r.pending :: r.pending[e] == if e < w.cursor then w.pending[e] else node)
  {
    hide Times, OneHop, Ledger;
    var n := Taken(w, count);
    var taken := seq(n, i => w.cursor + i);
    assert Distinct(taken) && forall e <- taken :: w.cursor <= e < w.cursor + n;
  }

  lemma ReadOwned(w: World, r: World, node: Node)
    requires Partition(w) && Owned(w) && node !in w.atHand && r.atHand == w.atHand
    requires w.cursor <= r.cursor && Distinct(Batch(r, node))
    requires forall n | n != node :: Batch(r, n) == Batch(w, n)
    requires forall e <- Batch(r, node) :: w.cursor <= e < r.cursor
    requires forall e: nat :: e in r.pending <==> e in w.pending || w.cursor <= e < r.cursor
    requires forall e <- r.pending :: r.pending[e] == if e < w.cursor then w.pending[e] else node
    ensures Owned(r)
  {
    hide Distinct, Batch;
    forall n, e | e in Batch(r, n)
      ensures e in r.pending && r.pending[e] == n
    {
      if n != node {
        assert e in Batch(w, n) && e in w.pending;
      }
    }
  }

  lemma ReadKeepsInv(w: World, node: Node, count: nat, heard: bool)
    requires Inv(w) && Enabled(w, Read(node, count, heard))
    ensures Inv(Step(w, Read(node, count, heard)))
  {
    hide Times, OneHop, Distinct, Batch;
    ReadFacts(w, node, count, heard);
    var r := Step(w, Read(node, count, heard));
    assert node !in w.atHand;
    ReadOwned(w, r, node);
    forall e: nat
      ensures Waiting(r, e) ==> Waiting(w, e) || e >= w.cursor
      ensures AtHand(r, e) ==> AtHand(w, e)
    {
    }
  }

  lemma MoreHandoffs(handoffs: seq<Handoff>, h: Handoff, relays: multiset<Relay>, sent: seq<Sent>)
    requires OneHop(handoffs, relays, sent) && h.way != ToNode(h.giver)
    ensures OneHop(handoffs + [h], relays, sent)
  {
    forall e: nat, n | Routed(handoffs, e, n)
      ensures Routed(handoffs + [h], e, n)
    {
      var g :| g in handoffs && g.entry == e && g.giver != n && g.way == ToNode(n);
      assert g in handoffs + [h];
    }
  }

  /** Handing off the first entry of a batch. */
  lemma HandKeepsLedger(w: World, r: World, node: Node, way: Way)
    requires Partition(w) && Owned(w) && Ledger(w) && Batch(w, node) != [] && node !in w.atHand
    requires r == w.(handoffs := w.handoffs + [Handoff(Batch(w, node)[0], node, way)], relays := r.relays, sent := r.sent,
                     atHand := w.atHand + {node})
    ensures Partition(r) && Owned(r) && Ledger(r)
  {
    hide Times, Distinct, Batch;
    assert forall n :: Batch(r, n) == Batch(w, n) by { BatchOf(w, r); }
    var e := Batch(w, node)[0];
    TimesSnoc(w.handoffs, Handoff(e, node, way));
    assert Waiting(w, e);
    forall d: nat
      ensures Waiting(r, d) ==> Waiting(w, d) && d != e
      ensures AtHand(r, d) ==> AtHand(w, d) || d == e
    {
    }
  }

  lemma BatchOf(w: World, r: World)
    requires r.batch == w.batch
    ensures forall n :: Batch(r, n) == Batch(w, n)
  {
  }

  lemma DeliverKeepsInv(w: World, node: Node)
    requires Inv(w) && Enabled(w, Deliver(node))
    ensures Inv(Step(w, Deliver(node)))
  {
    hide Times, Ledger, Owned, Partition;
    var r := Step(w, Deliver(node));
    HandKeepsLedger(w, r, node, ToDevice);
    MoreHandoffs(w.handoffs, Handoff(Batch(w, node)[0], node, ToDevice), w.relays, w.sent);
  }

  lemma GiveUpLedger(w: World, out: World, r: World, e: nat, muted: bool)
    requires Ledger(w) && Waiting(w, e) && e < w.cursor && e !in w.acked
    requires r == w.(handoffs := out.handoffs, relays := r.relays, batch := r.batch, atHand := r.atHand,
                     givenUp := w.givenUp + {e}, muted := if muted then w.muted + {e} else w.muted)
    requires forall d: nat :: Times(out.handoffs, d) == Times(w.handoffs, d) + if muted && d == e then 1 else 0
    requires forall d: nat | Waiting(r, d) :: Waiting(w, d) && d != e
    requires forall d: nat | AtHand(r, d) :: AtHand(w, d) && d != e
    requires forall n, d | d in Batch(r, n) :: d in Batch(w, n)
    requires e in w.pending && e !in Batch(r, w.pending[e])
    ensures Ledger(r)
  {
    hide Times, Batch, Waiting, AtHand;
  }

  /** Giving up the first entry of a batch, whether or not it was handed off unnoticed; `out` is the
      world before the node moves on. */
  lemma GiveUpKeepsLedger(w: World, out: World, node: Node, muted: bool, way: Way)
    requires Partition(w) && Owned(w) && Ledger(w) && Batch(w, node) != [] && node !in w.atHand
    requires var e := Batch(w, node)[0];
      out == w.(handoffs := if muted then w.handoffs + [Handoff(e, node, way)] else w.handoffs,
                relays := out.relays, givenUp := w.givenUp + {e},
                muted := if muted then w.muted + {e} else w.muted)
    ensures Batch(out, node) == Batch(w, node)
    ensures var r := Next(out, node); Partition(r) && Owned(r) && Ledger(r)
  {
    hide Times, Distinct, Batch, Next;
    var e := Batch(w, node)[0];
    BatchOf(w, out);
    assert forall d: nat :: (Waiting(out, d) <==> Waiting(w, d)) && (AtHand(out, d) <==> AtHand(w, d));
    NextStages(out, node);
    TimesSnoc(w.handoffs, Handoff(e, node, way));
    assert Waiting(w, e);
    GiveUpLedger(w, out, Next(out, node), e, muted);
  }

  lemma RoutedHop(w: World, node: Node, target: Node, receivers: nat)
    requires Inv(w) && Enabled(w, Forward(node, target, receivers, true)) && receivers > 0
    ensures var e := Batch(w, node)[0]; var relay := Relay(e, target);
      OneHop(w.handoffs + [Handoff(e, node, ToNode(target))],
             w.relays[relay := w.relays[relay] + receivers], w.sent)
  {
    hide Times, Ledger, Owned, Partition;
    var e := Batch(w, node)[0];
    var h := Handoff(e, node, ToNode(target));
    MoreHandoffs(w.handoffs, h, w.relays, w.sent);
    assert h in w.handoffs + [h];
    assert Routed(w.handoffs + [h], e, target);
  }

  lemma ForwardKeepsInv(w: World, node: Node, target: Node, receivers: nat, heard: bool)
    requires Inv(w) && Enabled(w, Forward(node, target, receivers, heard))
    ensures Inv(Step(w, Forward(node, target, receivers, heard)))
  {
    hide Times, Ledger, Owned, Partition, OneHop, Next;
    var r := OnForward(w, node, target, receivers, heard);
    var e := Batch(w, node)[0];
    var out := if receivers == 0 then w else
      w.(handoffs := w.handoffs + [Handoff(e, node, ToNode(target))],
         relays := w.relays[Relay(e, target) := w.relays[Relay(e, target)] + receivers]);
    if receivers > 0 {
      RoutedHop(w, node, target, receivers);
    }
    if receivers > 0 && heard {
      HandKeepsLedger(w, r, node, ToNode(target));
    } else {
      var lost := out.(givenUp := out.givenUp + {e}, muted := if receivers > 0 then out.muted + {e} else out.muted);
      GiveUpKeepsLedger(w, lost, node, receivers > 0, ToNode(target));
      assert r == Next(lost, node);
    }
  }

  lemma FailKeepsInv(w: World, node: Node)
    requires Inv(w) && Enabled(w, Fail(node))
    ensures Inv(Step(w, Fail(node)))
  {
    hide Times, Ledger, Owned, Partition, OneHop, Next;
    GiveUpKeepsLedger(w, w.(givenUp := w.givenUp + {Batch(w, node)[0]}), node, false, ToDevice);
  }

  /** The entry a node acknowledges is handed off, and leaves the pending list for good. */
  lemma AckKeepsInv(w: World, node: Node, reached: bool)
    requires Inv(w) && Enabled(w, Ack(node, reached))
    ensures Inv(Step(w, Ack(node, reached)))
  {
    hide Times, Distinct, Batch, OneHop, Next, Ledger;
    var e := Batch(w, node)[0];
    NextStages(w, node);
    AckShape(w, node, reached);
    GivenUpOut(w);
    assert AtHand(w, e);
    AckBooks(w, node, reached);
    LedgerOf(w, Step(w, Ack(node, reached)));
  }

  lemma AckBooks(w: World, node: Node, reached: bool)
    requires Partition(w) && Owned(w) && Enabled(w, Ack(node, reached))
    ensures var r := Step(w, Ack(node, reached)); var mid := Next(w, node);
      && Partition(r) && Owned(r)
      && (forall n :: Batch(r, n) == Batch(mid, n))
      && (forall d: nat | Waiting(r, d) :: Waiting(mid, d))
      && (forall d: nat | AtHand(r, d) :: AtHand(mid, d))
  {
    hide Distinct, Batch, Next;
    NextStages(w, node);
    AckShape(w, node, reached);
    BatchOf(Next(w, node), Step(w, Ack(node, reached)));
  }

  /** A step that hands nothing off keeps the ledger if it only acknowledges what is at hand. */
  lemma LedgerOf(w: World, r: World)
    requires Ledger(w) && r.cursor >= w.cursor
    requires r == w.(cursor := r.cursor, pending := r.pending, acked := r.acked, batch := r.batch, atHand := r.atHand)
    requires forall d: nat | Waiting(r, d) :: Waiting(w, d) || d >= w.cursor
    requires forall d: nat | d in r.acked || AtHand(r, d) :: d in w.acked || AtHand(w, d)
    requires forall d <- w.givenUp :: d in r.pending && d !in Batch(r, r.pending[d])
    ensures Ledger(r)
  {
    hide Waiting, AtHand, Times, Batch;
  }

  lemma AckShape(w: World, node: Node, reached: bool)
    requires Owned(w) && Enabled(w, Ack(node, reached))
    ensures var r := Step(w, Ack(node, reached)); var mid := Next(w, node); var e := Batch(w, node)[0];
      r == if reached then mid.(pending := w.pending - {e}, acked := w.acked + {e}) else mid
  {
  }

  lemma CrashKeepsInv(w: World, node: Node)
    requires Inv(w)
    ensures Inv(Step(w, Crash(node)))
  {
    hide Times, Distinct, OneHop, Batch, Ledger;
    var r := Step(w, Crash(node));
    CrashBatch(w, node);
    assert forall d <- w.givenUp :: d in w.pending && d !in Batch(w, w.pending[d]) by { GivenUpOut(w); }
    forall d: nat
      ensures Waiting(r, d) ==> Waiting(w, d)
      ensures AtHand(r, d) ==> AtHand(w, d)
    {
    }
    LedgerOf(w, r);
  }

  lemma CrashBatch(w: World, node: Node)
    ensures var r := Step(w, Crash(node));
      Batch(r, node) == [] && Distinct([]) && forall n | n != node :: Batch(r, n) == Batch(w, n)
  {
  }

  lemma GivenUpOut(w: World)
    requires Ledger(w)
    ensures forall d <- w.givenUp :: d in w.pending && d !in Batch(w, w.pending[d])
  {
  }

  lemma RelayedKeepsInv(w: World, node: Node, relay: Relay, online: bool)
    requires Inv(w) && Enabled(w, Relayed(node, relay, online))
    ensures Inv(Step(w, Relayed(node, relay, online)))
  {
    hide Times, Distinct, Batch, Partition, Owned, Ledger;
    var r := Step(w, Relayed(node, relay, online));
    SameBooks(w, r);
    assert Routed(w.handoffs, relay.entry, node);
  }

  lemma SameBooks(w: World, r: World)
    requires Partition(w) && Owned(w) && Ledger(w)
    requires r == w.(relays := r.relays, sent := r.sent)
    ensures Partition(r) && Owned(r) && Ledger(r)
  {
    hide Times, Distinct, Batch;
    BatchOf(w, r);
    assert forall d: nat :: (Waiting(r, d) <==> Waiting(w, d)) && (AtHand(r, d) <==> AtHand(w, d));
  }

  /** No step of any node, and no loss, breaks the ledger. */
  lemma StepKeepsInv(w: World, a: Action)
    requires Inv(w) && Enabled(w, a)
    ensures Inv(Step(w, a))
  {
    hide Inv, Step, Enabled;
    match a
    case Add(cmd) => AddKeepsInv(w, cmd);
    case Read(node, count, heard) => ReadKeepsInv(w, node, count, heard);
    case Deliver(node) => DeliverKeepsInv(w, node);
    case Forward(node, target, receivers, heard) => ForwardKeepsInv(w, node, target, receivers, heard);
    case Ack(node, reached) => AckKeepsInv(w, node, reached);
    case Fail(node) => FailKeepsInv(w, node);
    case Crash(node) => CrashKeepsInv(w, node);
    case Relayed(node, relay, online) => RelayedKeepsInv(w, node, relay, online);
  }

  // ---- whole runs --------------------------------------------------------------------------------

  lemma {:induction false} RunKeepsInv(w: World, actions: seq<Action>, r: World)
    requires Inv(w) && Runs(w, actions, r)
    ensures Inv(r)
    decreases |actions|
  {
    hide Inv, Step, Enabled;
    if actions != [] {
      StepKeepsInv(w, actions[0]);
      RunKeepsInv(Step(w, actions[0]), actions[1..], r);
    }
  }

  /** In every run of any number of nodes: each entry is in exactly one of undelivered, one node's
      pending list, acknowledged; it was handed off at most once, and exactly once if acknowledged;
      a command given up stays pending; and a command that reached a device connection had made at
      most one hop. */
  lemma DispatchLedger(actions: seq<Action>, w: World)
    requires Runs(INIT, actions, w)
    ensures forall e: nat | e < |w.stream| ::
      && (e < w.cursor <==> e in w.pending || e in w.acked)
      && !(e in w.pending && e in w.acked)
    ensures forall e: nat :: Times(w.handoffs, e) <= 1
    ensures forall e <- w.acked :: Times(w.handoffs, e) == 1
    ensures forall e <- w.givenUp :: e in w.pending
    ensures forall h <- w.handoffs :: h.way != ToNode(h.giver)
    ensures forall s <- w.sent :: Handoff(s.entry, s.node, ToDevice) in w.handoffs || Routed(w.handoffs, s.entry, s.node)
  {
    hide Runs, Times, Routed, Owned, Waiting, AtHand;
    InitInv();
    RunKeepsInv(INIT, actions, w);
  }

  /** What is acknowledged, given up or handed off stays so. */
  lemma {:induction false} RunForgetsNothing(w: World, actions: seq<Action>, r: World)
    requires Runs(w, actions, r)
    ensures w.acked <= r.acked && w.givenUp <= r.givenUp && w.muted <= r.muted
    ensures w.handoffs <= r.handoffs && w.cursor <= r.cursor && w.stream <= r.stream
    decreases |actions|
  {
    if actions != [] {
      StepForgetsNothing(w, actions[0]);
      RunForgetsNothing(Step(w, actions[0]), actions[1..], r);
    }
  }

  lemma StepForgetsNothing(w: World, a: Action)
    requires Enabled(w, a)
    ensures var r := Step(w, a);
      && w.acked <= r.acked && w.givenUp <= r.givenUp && w.muted <= r.muted
      && w.handoffs <= r.handoffs && w.cursor <= r.cursor && w.stream <= r.stream
      && r.muted == w.muted + if LostReply(a) then {Batch(w, a.node)[0]} else {}
  {
  }

  /** A PUBLISH that subscribers got although the publisher saw no reply. */
  predicate LostReply(a: Action)
  {
    a.Forward? && a.receivers > 0 && !a.heard
  }

  lemma {:induction false} RunMutes(w: World, actions: seq<Action>, r: World)
    requires Runs(w, actions, r)
    ensures r.muted == {} <==> w.muted == {} && forall a <- actions :: !LostReply(a)
    decreases |actions|
  {
    hide Step, Enabled;
    if actions != [] {
      StepForgetsNothing(w, actions[0]);
      RunMutes(Step(w, actions[0]), actions[1..], r);
      assert actions == [actions[0]] + actions[1..];
    }
  }

  /** No command that was given up was handed off, in exactly the runs in which no PUBLISH loses its
      reply. */
  lemma GivenUpUntouchedIff(actions: seq<Action>, w: World)
    requires Runs(INIT, actions, w)
    ensures (forall e <- w.givenUp :: Times(w.handoffs, e) == 0) <==> (forall a <- actions :: !LostReply(a))
  {
    hide Runs, Times, Owned, Partition, OneHop, Waiting, AtHand;
    InitInv();
    RunKeepsInv(INIT, actions, w);
    RunMutes(INIT, actions, w);
    if e :| e in w.muted {
      assert e in w.givenUp && Times(w.handoffs, e) == 1;
    }
  }

  lemma RunsCons(w: World, a: Action, rest: seq<Action>, r: World)
    requires Enabled(w, a) && Runs(Step(w, a), rest, r)
    ensures Runs(w, [a] + rest, r)
  {
    assert ([a] + rest)[1..] == rest;
  }

  lemma AfterLostReply(w: World, a: Action)
    requires a == Forward("a", "b", 1, false) && Batch(w, "a") == [0] && w.atHand == {} && w.handoffs == []
    ensures Enabled(w, a) && 0 in Step(w, a).givenUp
    ensures Step(w, a).handoffs == [Handoff(0, "a", ToNode("b"))]
  {
    hide Next;
  }

  /** A PUBLISH whose reply is lost: the other node has the command, and this one gives it up. */
  lemma LostReplyGivesUp(cmd: Command)
    ensures exists actions, r :: Runs(INIT, actions, r) && 0 in r.givenUp && Times(r.handoffs, 0) == 1
  {
    var add, read, lost := Add(cmd), Read("a", 1, true), Forward("a", "b", 1, false);
    var w1 := Step(INIT, add);
    var w2 := Step(w1, read);
    assert Taken(w1, 1) == 1 && Batch(w2, "a") == [0];
    AfterLostReply(w2, lost);
    var r := Step(w2, lost);
    hide Step, Enabled;
    RunsCons(w2, lost, [], r);
    RunsCons(w1, read, [lost] + [], r);
    RunsCons(INIT, add, [read] + ([lost] + []), r);
    TimesSnoc([], Handoff(0, "a", ToNode("b")));
    assert r.handoffs == [] + [Handoff(0, "a", ToNode("b"))];
  }

  // ---- one node among others ---------------------------------------------------------------------

  /** The step is one of this node's own dispatch loop. */
  predicate Own(a: Action, node: Node)
  {
    match a
    case Add(_) => false
    case Read(n, _, _) => n == node
    case Deliver(n) => n == node
    case Forward(n, _, _, _) => n == node
    case Ack(n, _) => n == node
    case Fail(n) => n == node
    case Crash(n) => n == node
    case Relayed(n, _, _) => n == node
  }

  /** Where an entry stands. */
  datatype Status = Undelivered | Pending(owner: Node) | Abandoned(owner: Node) | Acknowledged

  function StatusOf(w: World, e: nat): (s: Status)
  {
    if e in w.acked then Acknowledged
    else if e !in w.pending then Undelivered
    else if e in w.givenUp then Abandoned(w.pending[e])
    else Pending(w.pending[e])
  }

  lemma BooksAfter(w: World, a: Action, e: nat)
    requires Enabled(w, a) && e < w.cursor && !a.Read?
    requires a.Forward? || a.Ack? || a.Fail? ==> Batch(w, a.node)[0] != e
    ensures var r := Step(w, a);
      && (e in r.acked <==> e in w.acked) && (e in r.givenUp <==> e in w.givenUp)
      && (e in r.pending <==> e in w.pending) && (e in w.pending ==> r.pending[e] == w.pending[e])
  {
    hide Batch;
  }

  /** A node only ever changes the standing of the first entry of its own batch, and reads entries
      that were undelivered. */
  lemma OnlyHeadsMove(w: World, a: Action, e: nat)
    requires Inv(w) && Enabled(w, a) && e < w.cursor
    requires a.Forward? || a.Ack? || a.Fail? ==> Batch(w, a.node)[0] != e
    ensures StatusOf(Step(w, a), e) == StatusOf(w, e)
  {
    hide Ledger, Owned, OneHop, Times, Enabled, Batch;
    if !a.Read? {
      hide Step;
      BooksAfter(w, a, e);
    }
  }

  lemma OthersBatch(w: World, a: Action, node: Node)
    requires Enabled(w, a) && !Own(a, node)
    ensures var r := Step(w, a);
      Batch(r, node) == Batch(w, node) && (node in r.atHand <==> node in w.atHand) && w.cursor <= r.cursor
  {
  }

  predicate Mine(s: Status, node: Node)
  {
    match s
    case Undelivered => false
    case Pending(owner) => owner == node
    case Abandoned(owner) => owner == node
    case Acknowledged => true
  }

  /** A node's batch, and the standing of its entries, stay as they are. */
  ghost predicate Untouched(w: World, r: World, node: Node)
  {
    && w.cursor <= r.cursor
    && Batch(r, node) == Batch(w, node)
    && (node in r.atHand <==> node in w.atHand)
    && forall e: nat | e < w.cursor && Mine(StatusOf(w, e), node) :: StatusOf(r, e) == StatusOf(w, e)
  }

  /** The steps of the others leave a node's work alone. */
  lemma OthersStep(w: World, a: Action, node: Node)
    requires Inv(w) && Enabled(w, a) && !Own(a, node)
    ensures Untouched(w, Step(w, a), node)
  {
    hide Ledger, OneHop, Times, Step, Partition, Batch;
    OthersBatch(w, a, node);
    forall e: nat | e < w.cursor && Mine(StatusOf(w, e), node)
      ensures StatusOf(Step(w, a), e) == StatusOf(w, e)
    {
      hide StatusOf;
      HeadIsOwn(w, a, node, e);
      OnlyHeadsMove(w, a, e);
    }
  }

  lemma HeadIsOwn(w: World, a: Action, node: Node, e: nat)
    requires Inv(w) && Enabled(w, a) && !Own(a, node) && Mine(StatusOf(w, e), node)
    ensures a.Forward? || a.Ack? || a.Fail? ==> Batch(w, a.node)[0] != e
  {
    hide Ledger, OneHop, Times, Batch;
  }
}
