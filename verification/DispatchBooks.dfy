/** The books of the dispatch machine against the steps that were taken: what was published, taken from
    the channels, sent, handed off, acknowledged and given up is what the steps of the run say. */
module DispatchBooks {
  import opened DispatchSpec

  // ---- what a step says -----------------------------------------------------------------------------

  /** The step works on this entry, the first of its node's batch. */
  predicate WorksOn(w: World, a: Action, e: nat)
    requires Enabled(w, a)
  {
    (a.Deliver? || a.Forward? || a.Ack? || a.Fail?) && Batch(w, a.node)[0] == e
  }

  /** How many copies of the entry's command the step puts on the channel of a node. */
  function Published(w: World, a: Action, e: nat, to: Node): (n: nat)
    requires Enabled(w, a)
  {
    if a.Forward? && WorksOn(w, a, e) && a.target == to then a.receivers else 0
  }

  function Fetched(a: Action, e: nat, to: Node): (n: nat)
  {
    if a.Relayed? && a.relay == Relay(e, to) then 1 else 0
  }

  /** How often the step sends the entry's command to a device of this node. */
  function Delivered(w: World, a: Action, e: nat, node: Node): (n: nat)
    requires Enabled(w, a)
  {
    if a.Deliver? && a.node == node && WorksOn(w, a, e) then 1
    else if a.Relayed? && a.node == node && a.relay.entry == e && a.online then 1
    else 0
  }

  predicate HandsOff(w: World, a: Action, e: nat)
    requires Enabled(w, a)
  {
    WorksOn(w, a, e) && (a.Deliver? || (a.Forward? && a.receivers > 0))
  }

  predicate GivesUp(w: World, a: Action, e: nat)
    requires Enabled(w, a)
  {
    WorksOn(w, a, e) && (a.Fail? || (a.Forward? && !(a.receivers > 0 && a.heard)))
  }

  predicate Acknowledges(w: World, a: Action, e: nat)
    requires Enabled(w, a)
  {
    WorksOn(w, a, e) && a.Ack? && a.reached
  }

  lemma SentSnoc(sent: seq<Sent>, x: Sent, y: Sent)
    ensures multiset(sent + [x])[y] == multiset(sent)[y] + if x == y then 1 else 0
  {
  }

  lemma StepRelays(w: World, a: Action, e: nat, to: Node)
    requires Enabled(w, a)
    ensures Step(w, a).relays[Relay(e, to)] + Fetched(a, e, to) == w.relays[Relay(e, to)] + Published(w, a, e, to)
  {
  }

  lemma SentAfter(w: World, a: Action)
    requires Enabled(w, a)
    ensures a.Deliver? ==> Step(w, a).sent == w.sent + [Sent(Batch(w, a.node)[0], a.node)]
    ensures a.Relayed? && a.online ==> Step(w, a).sent == w.sent + [Sent(a.relay.entry, a.node)]
    ensures !a.Deliver? && !(a.Relayed? && a.online) ==> Step(w, a).sent == w.sent
  {
    hide Assigned, Taken;
  }

  lemma StepSent(w: World, a: Action, e: nat, node: Node)
    requires Enabled(w, a)
    ensures multiset(Step(w, a).sent)[Sent(e, node)] == multiset(w.sent)[Sent(e, node)] + Delivered(w, a, e, node)
  {
    hide Step, Batch;
    SentAfter(w, a);
    if a.Deliver? {
      SentSnoc(w.sent, Sent(Batch(w, a.node)[0], a.node), Sent(e, node));
    } else if a.Relayed? && a.online {
      SentSnoc(w.sent, Sent(a.relay.entry, a.node), Sent(e, node));
    }
  }

  lemma StepHandoffs(w: World, a: Action, e: nat)
    requires Enabled(w, a)
    ensures Times(Step(w, a).handoffs, e) == Times(w.handoffs, e) + if HandsOff(w, a, e) then 1 else 0
  {
    hide Times;
    match a {
      case Deliver(node) => TimesSnoc(w.handoffs, Handoff(Batch(w, node)[0], node, ToDevice));
      case Forward(node, target, _, _) => TimesSnoc(w.handoffs, Handoff(Batch(w, node)[0], node, ToNode(target)));
      case _ =>
    }
  }

  lemma StepStanding(w: World, a: Action, e: nat)
    requires Inv(w) && Enabled(w, a)
    ensures e in Step(w, a).acked <==> e in w.acked || Acknowledges(w, a, e)
    ensures e in Step(w, a).givenUp <==> e in w.givenUp || GivesUp(w, a, e)
  {
    hide Ledger, OneHop, Partition, Times;
    if a.Ack? {
      assert Batch(w, a.node)[0] in Batch(w, a.node);
    }
  }

  /** A read delivers the next entries of the stream, in order, at most as many as it asks for. */
  lemma StepRead(w: World, a: Action)
    requires Inv(w) && Enabled(w, a)
    ensures var r := Step(w, a);
      && r.stream == w.stream + (if a.Add? then [a.cmd] else [])
      && (!a.Read? ==> r.cursor == w.cursor)
      && (a.Read? ==> r.cursor == if w.cursor + a.count < |w.stream| then w.cursor + a.count else |w.stream|)
      && (a.Read? && a.heard ==>
            |Batch(r, a.node)| == r.cursor - w.cursor
            && forall i | 0 <= i < |Batch(r, a.node)| :: Batch(r, a.node)[i] == w.cursor + i)
      && (a.Read? ==> forall e: nat | w.cursor <= e < r.cursor :: e in r.pending && r.pending[e] == a.node)
  {
    hide Ledger, OneHop, Times, Owned;
    assert w.stream + [] == w.stream;
  }

  // ---- over runs --------------------------------------------------------------------------------------

  ghost function AllPublished(w: World, actions: seq<Action>, e: nat, to: Node): (n: nat)
    decreases |actions|
  {
    if actions == [] || !Enabled(w, actions[0]) then 0
    else Published(w, actions[0], e, to) + AllPublished(Step(w, actions[0]), actions[1..], e, to)
  }

  ghost function AllFetched(w: World, actions: seq<Action>, e: nat, to: Node): (n: nat)
    decreases |actions|
  {
    if actions == [] || !Enabled(w, actions[0]) then 0
    else Fetched(actions[0], e, to) + AllFetched(Step(w, actions[0]), actions[1..], e, to)
  }

  ghost function AllDelivered(w: World, actions: seq<Action>, e: nat, node: Node): (n: nat)
    decreases |actions|
  {
    if actions == [] || !Enabled(w, actions[0]) then 0
    else Delivered(w, actions[0], e, node) + AllDelivered(Step(w, actions[0]), actions[1..], e, node)
  }

  /** Over every run: what is on a route channel is what was published to it less what was fetched from it,
      copy for copy, and every command that was sent to a device was sent by a step that said so. */
  lemma {:induction false} ChannelsBalance(w: World, actions: seq<Action>, r: World, e: nat, node: Node)
    requires Runs(w, actions, r)
    ensures r.relays[Relay(e, node)] + AllFetched(w, actions, e, node)
         == w.relays[Relay(e, node)] + AllPublished(w, actions, e, node)
    ensures multiset(r.sent)[Sent(e, node)] == multiset(w.sent)[Sent(e, node)] + AllDelivered(w, actions, e, node)
    decreases |actions|
  {
    hide Step, Enabled, Published, Fetched, Delivered;
    if actions != [] {
      StepRelays(w, actions[0], e, node);
      StepSent(w, actions[0], e, node);
      ChannelsBalance(Step(w, actions[0]), actions[1..], r, e, node);
    }
  }

  /** Some step of the run acknowledges the entry, or gives it up. */
  ghost predicate SomeAcknowledges(w: World, actions: seq<Action>, e: nat)
    decreases |actions|
  {
    actions != [] && Enabled(w, actions[0])
    && (Acknowledges(w, actions[0], e) || SomeAcknowledges(Step(w, actions[0]), actions[1..], e))
  }

  ghost predicate SomeGivesUp(w: World, actions: seq<Action>, e: nat)
    decreases |actions|
  {
    actions != [] && Enabled(w, actions[0])
    && (GivesUp(w, actions[0], e) || SomeGivesUp(Step(w, actions[0]), actions[1..], e))
  }

  ghost function AllHandedOff(w: World, actions: seq<Action>, e: nat): (n: nat)
    decreases |actions|
  {
    if actions == [] || !Enabled(w, actions[0]) then 0
    else (if HandsOff(w, actions[0], e) then 1 else 0) + AllHandedOff(Step(w, actions[0]), actions[1..], e)
  }

  /** An entry is acknowledged if and only if an XACK of its node reached the store while it was first in the
      batch; given up if and only if its node marked it failed, or saw no receiver for its PUBLISH; and
      handed off as often as steps did so. */
  lemma {:induction false} StandingIff(w: World, actions: seq<Action>, r: World, e: nat)
    requires Inv(w) && Runs(w, actions, r)
    ensures e in r.acked <==> e in w.acked || SomeAcknowledges(w, actions, e)
    ensures e in r.givenUp <==> e in w.givenUp || SomeGivesUp(w, actions, e)
    ensures Times(r.handoffs, e) == Times(w.handoffs, e) + AllHandedOff(w, actions, e)
    decreases |actions|
  {
    hide Inv, Step, Enabled, Acknowledges, GivesUp, HandsOff, Times;
    if actions != [] {
      StepStanding(w, actions[0], e);
      StepHandoffs(w, actions[0], e);
      StepKeepsInv(w, actions[0]);
      StandingIff(Step(w, actions[0]), actions[1..], r, e);
    }
  }

  // ---- crashes ----------------------------------------------------------------------------------------

  /** A node's pending entry that no node works on. */
  ghost predicate Stuck(w: World, e: nat, node: Node)
  {
    e < w.cursor && e in w.pending && w.pending[e] == node && forall n :: e !in Batch(w, n)
  }

  lemma StepKeepsStuck(w: World, a: Action, e: nat, node: Node)
    requires Inv(w) && Enabled(w, a) && Stuck(w, e, node)
    ensures Stuck(Step(w, a), e, node) && !WorksOn(w, a, e)
  {
    hide Ledger, OneHop, Times, Distinct;
    if a.Read? {
      ReadFacts(w, a.node, a.count, a.heard);
      forall n
        ensures e !in Batch(Step(w, a), n)
      {
        assert n != a.node ==> Batch(Step(w, a), n) == Batch(w, n);
      }
    } else {
      OtherStepStuck(w, a, e);
    }
  }

  /** Outside a read, batches only shrink from the front, or vanish. */
  lemma BatchesShrink(w: World, a: Action, n: Node)
    requires Enabled(w, a) && !a.Read?
    ensures var b := Batch(Step(w, a), n);
      b == Batch(w, n) || b == [] || (Batch(w, n) != [] && b == Batch(w, n)[1..])
  {
    hide Assigned, Taken;
  }

  lemma OtherStepStuck(w: World, a: Action, e: nat)
    requires Enabled(w, a) && !a.Read? && forall n :: e !in Batch(w, n)
    ensures forall n :: e !in Batch(Step(w, a), n)
    ensures !WorksOn(w, a, e)
    ensures e in Step(w, a).pending <==> e in w.pending
    ensures e in w.pending ==> Step(w, a).pending[e] == w.pending[e]
  {
    if a.Deliver? || a.Forward? || a.Ack? || a.Fail? {
      assert Batch(w, a.node)[0] in Batch(w, a.node);
    }
    forall n
      ensures e !in Batch(Step(w, a), n)
    {
      hide Step, Batch, Enabled;
      BatchesShrink(w, a, n);
    }
  }

  lemma {:induction false} RunKeepsStuck(w: World, actions: seq<Action>, r: World, e: nat, node: Node)
    requires Inv(w) && Runs(w, actions, r) && Stuck(w, e, node)
    ensures Inv(r) && Stuck(r, e, node) && Times(r.handoffs, e) == Times(w.handoffs, e)
    decreases |actions|
  {
    hide Inv, Step, Enabled, Stuck, Times;
    if actions != [] {
      StepKeepsInv(w, actions[0]);
      StepKeepsStuck(w, actions[0], e, node);
      StepHandoffs(w, actions[0], e);
      RunKeepsStuck(Step(w, actions[0]), actions[1..], r, e, node);
    }
  }

  lemma CrashStrands(w: World, node: Node, e: nat)
    requires Inv(w) && e in Batch(w, node)
    ensures Stuck(Step(w, Crash(node)), e, node) && Step(w, Crash(node)).handoffs == w.handoffs
  {
    hide Ledger, OneHop, Times, Distinct;
    var r := Step(w, Crash(node));
    assert e in w.pending && w.pending[e] == node && r.pending == w.pending && r.cursor == w.cursor;
    assert Partition(w);
    forall n
      ensures e !in Batch(r, n)
    {
      if n != node {
        assert Batch(r, n) == Batch(w, n);
      } else {
        assert Batch(r, n) == [];
      }
    }
  }

  /** What a node had read and not finished when it crashed stays on its pending list for ever, whatever the
      other nodes do: no one acknowledges it or hands it off. */
  lemma CrashedStaysPending(before: seq<Action>, w: World, node: Node, e: nat, after: seq<Action>, r: World)
    requires Runs(INIT, before, w) && e in Batch(w, node) && Runs(Step(w, Crash(node)), after, r)
    ensures e in r.pending && r.pending[e] == node && e !in r.acked
    ensures Times(r.handoffs, e) == Times(w.handoffs, e)
  {
    hide Step, Times, Ledger, OneHop, Owned;
    InitInv();
    RunKeepsInv(INIT, before, w);
    StepKeepsInv(w, Crash(node));
    CrashStrands(w, node, e);
    RunKeepsStuck(Step(w, Crash(node)), after, r, e, node);
  }
}
