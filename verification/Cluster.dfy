/** Membership of the cluster as one node sees it (src/gateway/ClusterManager.cpp): snapshots of the
    heartbeat hash are diffed against the last one, and the differences are notified. */
module Cluster {

  import opened Bytes

  type Node = string

  /** One call of the node-change callback. */
  datatype Notice = Notice(node: Node, up: bool)

  /** The keys of a hash, in any order, each once. */
  ghost predicate Distinct(ids: seq<Node>)
  {
    forall i, j | 0 <= i < j < |ids| :: ids[i] != ids[j]
  }

  /** The members of `ids`, other than this node, that are not in `others`. */
  function Missing(ids: seq<Node>, others: seq<Node>, self: Node): (r: seq<Node>)
    ensures forall n :: n in r <==> n in ids && n !in others && n != self
    ensures Distinct(ids) ==> Distinct(r)
  {
    if ids == [] then []
    else
      var last := ids[|ids| - 1];
      var r := Missing(ids[..|ids| - 1], others, self);
      assert ids == ids[..|ids| - 1] + [last];
      if last != self && last !in others then r + [last] else r
  }

  function Notices(ids: seq<Node>, up: bool): (r: seq<Notice>)
    ensures |r| == |ids|
  {
    seq(|ids|, i requires 0 <= i < |ids| => Notice(ids[i], up))
  }

  /** What one `discoverNodes` notifies: the new nodes, then the lost ones. */
  function Diff(known: seq<Node>, online: seq<Node>, self: Node): (r: seq<Notice>)
  {
    Notices(Missing(online, known, self), true) + Notices(Missing(known, online, self), false)
  }

  /** The nodes a listener believes up after the notices. */
  function Believed(notices: seq<Notice>): (up: set<Node>)
  {
    if notices == [] then {}
    else
      var n := notices[|notices| - 1];
      var before := Believed(notices[..|notices| - 1]);
      if n.up then before + {n.node} else before - {n.node}
  }

  /** Every notice changes what the listener believes: each node's notices alternate up, down, up. */
  ghost predicate Alternates(notices: seq<Notice>)
  {
    notices != [] ==>
      var n := notices[|notices| - 1];
      Alternates(notices[..|notices| - 1]) && (n.up <==> n.node !in Believed(notices[..|notices| - 1]))
  }

  /** The last notice about a node before `i`, if any, says the opposite; the first says up. */
  ghost predicate TakesTurns(notices: seq<Notice>)
  {
    && (forall i | 0 <= i < |notices| && !notices[i].up ::
          exists j | 0 <= j < i :: notices[j].node == notices[i].node)
    && (forall i, j | 0 <= i < j < |notices| && notices[i].node == notices[j].node && notices[i].up == notices[j].up ::
          exists k | i < k < j :: notices[k].node == notices[i].node && notices[k].up != notices[i].up)
  }

  ghost function AsSet(ids: seq<Node>, self: Node): (s: set<Node>)
    ensures forall n :: n in s <==> n in ids && n != self
  {
    set n | n in ids && n != self
  }

  /** One more notice that changes the belief. */
  lemma AppendNotice(log: seq<Notice>, n: Notice)
    requires Alternates(log) && (n.up <==> n.node !in Believed(log))
    ensures Alternates(log + [n])
    ensures Believed(log + [n]) == (if n.up then Believed(log) + {n.node} else Believed(log) - {n.node})
  {
    assert (log + [n])[..|log|] == log;
  }

  lemma NoticesSnoc(log: seq<Notice>, front: seq<Node>, last: Node, up: bool)
    ensures log + Notices(front + [last], up) == (log + Notices(front, up)) + [Notice(last, up)]
  {
  }

  /** Appending notices about distinct nodes that all change the belief. */
  lemma {:induction false} AppendNotices(log: seq<Notice>, ids: seq<Node>, up: bool)
    requires Alternates(log) && Distinct(ids)
    requires forall n <- ids :: up <==> n !in Believed(log)
    ensures Alternates(log + Notices(ids, up))
    ensures forall n :: n in Believed(log + Notices(ids, up)) <==>
      (if n in ids then up else n in Believed(log))
  {
    hide Alternates, Believed, Notices;
    if ids == [] {
      assert log + Notices([], up) == log;
    } else {
      var front, last := ids[..|ids| - 1], ids[|ids| - 1];
      assert ids == front + [last];
      AppendNotices(log, front, up);
      NoticesSnoc(log, front, last, up);
      AppendNotice(log + Notices(front, up), Notice(last, up));
    }
  }

  /** One discovery keeps the belief equal to the known nodes and the turns strict. */
  lemma DiffKeepsBelief(log: seq<Notice>, known: seq<Node>, online: seq<Node>, self: Node)
    requires Alternates(log) && Believed(log) == AsSet(known, self)
    requires Distinct(known) && Distinct(online)
    ensures var r := log + Diff(known, online, self);
      Alternates(r) && Believed(r) == AsSet(online, self)
  {
    hide Alternates, Distinct, Believed;
    var news, lost := Missing(online, known, self), Missing(known, online, self);
    AppendNotices(log, news, true);
    var mid := log + Notices(news, true);
    AppendNotices(mid, lost, false);
    assert log + Diff(known, online, self) == mid + Notices(lost, false);
    assert Believed(mid + Notices(lost, false)) == AsSet(online, self);
  }

  /** Before a notice down there was one about the same node. */
  lemma {:induction false} NotifiedBefore(notices: seq<Notice>, i: nat) returns (j: nat)
    requires Alternates(notices) && i < |notices| && !notices[i].up
    ensures j < i && notices[j].node == notices[i].node
  {
    var last := |notices| - 1;
    if i == last {
      j := LatestUp(notices[..last], notices[last].node);
    } else {
      j := NotifiedBefore(notices[..last], i);
    }
  }

  /** Between two equal notices there was an opposite one. */
  lemma {:induction false} Separated(notices: seq<Notice>, i: nat, j: nat) returns (k: nat)
    requires Alternates(notices) && i < j < |notices|
    requires notices[i].node == notices[j].node && notices[i].up == notices[j].up
    ensures i < k < j && notices[k].node == notices[i].node && notices[k].up != notices[i].up
  {
    var last := |notices| - 1;
    if j == last {
      k := Opposite(notices[..last], notices[last].node, i);
    } else {
      k := Separated(notices[..last], i, j);
    }
  }

  /** Strict turns in terms of positions. */
  lemma AlternatesTakesTurns(notices: seq<Notice>)
    requires Alternates(notices)
    ensures TakesTurns(notices)
  {
    hide Alternates;
    forall i | 0 <= i < |notices| && !notices[i].up
      ensures exists j | 0 <= j < i :: notices[j].node == notices[i].node
    {
      var j := NotifiedBefore(notices, i);
    }
    forall i, j | 0 <= i < j < |notices| && notices[i].node == notices[j].node && notices[i].up == notices[j].up
      ensures exists k | i < k < j :: notices[k].node == notices[i].node && notices[k].up != notices[i].up
    {
      var k := Separated(notices, i, j);
    }
  }

  /** A node believed up was notified up. */
  lemma {:induction false} LatestUp(notices: seq<Notice>, n: Node) returns (j: nat)
    requires n in Believed(notices)
    ensures j < |notices| && notices[j].node == n
  {
    var last := |notices| - 1;
    if notices[last].node == n {
      j := last;
    } else {
      j := LatestUp(notices[..last], n);
    }
  }

  /** If the belief about a node differs from what notice `i` said, a later one said otherwise. */
  lemma {:induction false} Opposite(notices: seq<Notice>, n: Node, i: nat) returns (k: nat)
    requires i < |notices| && notices[i].node == n && notices[i].up != (n in Believed(notices))
    ensures i < k < |notices| && notices[k].node == n && notices[k].up != notices[i].up
  {
    var last := |notices| - 1;
    if i == last || notices[last].node == n {
      k := last;
    } else {
      k := Opposite(notices[..last], n, i);
    }
  }

  class ClusterManager {
    const nodeId: Node
    var knownNodes: seq<Node>
    /** The calls of the node-change callback, which is installed from the start. */
    var notified: seq<Notice>

    ghost predicate Valid()
      reads this
    {
      && Distinct(knownNodes)
      && Alternates(notified)
      && Believed(notified) == AsSet(knownNodes, nodeId)
    }

    constructor (id: Node)
      ensures Valid() && knownNodes == [] && nodeId == id && notified == []
    {
      nodeId, knownNodes, notified := id, [], [];
    }

    /** The comparison loops of `discoverNodes` and `detectFailedNodes`. */
    method FindMissing(ids: seq<Node>, others: seq<Node>) returns (r: seq<Node>)
      ensures r == Missing(ids, others, nodeId)
    {
      r := [];
      var i := 0;
      while i < |ids|
        invariant i <= |ids| && r == Missing(ids[..i], others, nodeId)
      {
        assert ids[..i + 1][..i] == ids[..i];
        if ids[i] != nodeId && ids[i] !in others {
          r := r + [ids[i]];
        }
        i := i + 1;
      }
      assert ids[..i] == ids;
    }

    method NotifyAll(ids: seq<Node>, up: bool)
      modifies this`notified
      ensures notified == old(notified) + Notices(ids, up)
    {
      var i := 0;
      while i < |ids|
        invariant i <= |ids| && notified == old(notified) + Notices(ids[..i], up)
      {
        notified := notified + [Notice(ids[i], up)];
        assert Notices(ids[..i + 1], up) == Notices(ids[..i], up) + [Notice(ids[i], up)];
        i := i + 1;
      }
      assert ids[..i] == ids;
    }

    /** `discoverNodes` on a snapshot, or without a connection to the store. */
    method DiscoverNodes(connected: bool, onlineNodes: seq<Node>)
      requires Valid() && Distinct(onlineNodes)
      modifies this
      ensures Valid()
      ensures !connected ==> knownNodes == old(knownNodes) && notified == old(notified)
      ensures connected ==> knownNodes == onlineNodes
      ensures connected ==> notified == old(notified) + Diff(old(knownNodes), onlineNodes, nodeId)
    {
      hide Alternates, Believed, Notices, Missing;
      if !connected { return; }
      DiffKeepsBelief(notified, knownNodes, onlineNodes, nodeId);
      var newNodes := FindMissing(onlineNodes, knownNodes);
      var lostNodes := FindMissing(knownNodes, onlineNodes);
      NotifyAll(newNodes, true);
      NotifyAll(lostNodes, false);
      Reassociate(old(notified), Notices(newNodes, true), Notices(lostNodes, false));
      knownNodes := onlineNodes;
    }

    /** `detectFailedNodes`, taken right before `discoverNodes` on the same snapshot. */
    method DetectFailedNodes(connected: bool, aliveNodes: seq<Node>) returns (failed: seq<Node>)
      ensures !connected ==> failed == []
      ensures connected ==> failed == Missing(knownNodes, aliveNodes, nodeId)
    {
      if !connected { return []; }
      failed := FindMissing(knownNodes, aliveNodes);
    }

    /** One turn of the failure-detection timer, which reads the heartbeats twice: the failed nodes are
        those believed up and missing from the first snapshot, the discovery reports as lost those
        missing from the second. On equal snapshots these are the same. */
    method DetectAndDiscover(first: seq<Node>, second: seq<Node>) returns (failed: seq<Node>)
      requires Valid() && Distinct(second)
      modifies this
      ensures Valid() && knownNodes == second
      ensures forall n :: n in failed <==> n in Believed(old(notified)) && n !in first
      ensures forall n :: n in Believed(old(notified)) && n !in Believed(notified) <==> n in Believed(old(notified)) && n !in second
      ensures notified == old(notified) + Diff(old(knownNodes), second, nodeId)
      ensures first == second ==>
        (forall n :: n in failed <==> n in Believed(old(notified)) && n !in Believed(notified))
        && exists news :: notified == old(notified) + Notices(news, true) + Notices(failed, false)
    {
      hide Believed, Alternates, Notices, Missing, Distinct, AsSet;
      failed := DetectFailedNodes(true, first);
      DiscoverNodes(true, second);
      ghost var news := Missing(second, old(knownNodes), nodeId);
      ghost var lost := Missing(old(knownNodes), second, nodeId);
      Reassociate(old(notified), Notices(news, true), Notices(lost, false));
    }
  }

  // ---- whole histories -------------------------------------------------------------------------

  /** All notices of a node that saw these snapshots, one discovery each. */
  function History(snapshots: seq<seq<Node>>, self: Node): (log: seq<Notice>)
  {
    if snapshots == [] then []
    else
      var n := |snapshots| - 1;
      History(snapshots[..n], self) + Diff(if n == 0 then [] else snapshots[n - 1], snapshots[n], self)
  }

  /** Whatever snapshots come, folding all notices gives the last snapshot minus the node itself,
      and each node's notices take strict turns, starting with up. */
  lemma {:induction false} HistoryIsFaithful(snapshots: seq<seq<Node>>, self: Node)
    requires forall s <- snapshots :: Distinct(s)
    ensures Believed(History(snapshots, self))
         == (if snapshots == [] then {} else AsSet(snapshots[|snapshots| - 1], self))
    ensures Alternates(History(snapshots, self)) && TakesTurns(History(snapshots, self))
  {
    if snapshots != [] {
      var n := |snapshots| - 1;
      HistoryIsFaithful(snapshots[..n], self);
      var known := if n == 0 then [] else snapshots[n - 1];
      assert AsSet([], self) == {};
      assert Distinct(known);
      DiffKeepsBelief(History(snapshots[..n], self), known, snapshots[n], self);
    }
    AlternatesTakesTurns(History(snapshots, self));
  }
}
