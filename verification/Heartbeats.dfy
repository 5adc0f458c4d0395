/** The heartbeat hash of the nodes (src/storage/RedisClient.cpp): a heartbeat sets the node's own field,
    but renews the life of the whole hash, so that fields only go together. */
module Heartbeats {
  import opened Cluster

  /** 15 seconds, in milliseconds. */
  const LIFE: int := 15_000

  /** Commands as the store executes them: the two of a heartbeat, and that of a node that leaves. */
  datatype Op =
    | Sets(node: Node, at: int)    // HSET
    | Expires(at: int)             // EXPIRE
    | Deletes(node: Node, at: int) // HDEL

  datatype Deadline = Never | At(time: int)

  datatype Hash = Hash(fields: set<Node>, deadline: Deadline)

  const NO_KEY: Hash := Hash({}, Never)

  function Aged(h: Hash, now: int): (r: Hash)
  {
    if h.deadline.At? && h.deadline.time <= now then NO_KEY else h
  }

  /** A new key has no deadline, an EXPIRE without a key does nothing, and the last field takes the key
      with it. */
  function Applied(h: Hash, op: Op): (r: Hash)
  {
    var now := Aged(h, op.at);
    match op
    case Sets(node, _) => now.(fields := now.fields + {node})
    case Expires(at) => if now.fields == {} then now else now.(deadline := At(at + LIFE))
    case Deletes(node, _) => if now.fields - {node} == {} then NO_KEY else now.(fields := now.fields - {node})
  }

  function After(ops: seq<Op>): (h: Hash)
  {
    if ops == [] then NO_KEY else Applied(After(ops[..|ops| - 1]), ops[|ops| - 1])
  }

  /** `getOnlineNodes` at a time after the commands. */
  function Online(ops: seq<Op>, now: int): (nodes: set<Node>)
  {
    Aged(After(ops), now).fields
  }

  /** The time of the last of these commands, which come after `start`. */
  function LastTime(start: int, more: seq<Op>): (t: int)
  {
    if more == [] then start else more[|more| - 1].at
  }

  predicate Ordered(start: int, more: seq<Op>)
  {
    more != [] ==>
      var n := |more| - 1;
      Ordered(start, more[..n]) && LastTime(start, more[..n]) <= more[n].at
  }

  /** Somebody renewed the hash less than its life before `x`. */
  predicate Covered(start: int, more: seq<Op>, x: int)
  {
    if more == [] then start < x < start + LIFE
    else
      var last := more[|more| - 1];
      Covered(start, more[..|more| - 1], x) || (last.Expires? && last.at < x < last.at + LIFE)
  }

  /** At no time since `start` was everybody silent for the life of the hash. */
  ghost predicate NoSilence(start: int, more: seq<Op>, now: int)
  {
    forall x: int | start < x <= now :: Covered(start, more, x)
  }

  function LastRenewal(start: int, more: seq<Op>): (t: int)
  {
    if more == [] then start
    else
      var last := more[|more| - 1];
      if last.Expires? then last.at else LastRenewal(start, more[..|more| - 1])
  }

  lemma {:induction false} LastRenewalBounds(start: int, more: seq<Op>)
    requires Ordered(start, more)
    ensures start <= LastRenewal(start, more) <= LastTime(start, more)
  {
    if more != [] {
      LastRenewalBounds(start, more[..|more| - 1]);
    }
  }

  /** Behind the last command only the last renewal matters. */
  lemma {:induction false} CoveredLate(start: int, more: seq<Op>, x: int)
    requires Ordered(start, more) && LastTime(start, more) < x
    ensures Covered(start, more, x) <==> x < LastRenewal(start, more) + LIFE
  {
    if more != [] {
      var front := more[..|more| - 1];
      CoveredLate(start, front, x);
      LastRenewalBounds(start, front);
    }
  }

  /** Silence up to `now`, behind the last command. */
  lemma SilenceLate(start: int, more: seq<Op>, now: int)
    requires Ordered(start, more) && LastTime(start, more) <= now
    requires LastTime(start, more) < LastRenewal(start, more) + LIFE
    ensures NoSilence(start, more, now)
      <==> NoSilence(start, more, LastTime(start, more)) && now < LastRenewal(start, more) + LIFE
  {
    hide Covered, LastRenewal, LastTime, Ordered;
    LastRenewalBounds(start, more);
    var last := LastTime(start, more);
    if last < now {
      CoveredLate(start, more, now);
    }
    forall x: int | last < x <= now && now < LastRenewal(start, more) + LIFE
      ensures Covered(start, more, x)
    {
      CoveredLate(start, more, x);
    }
  }

  /** A command does not change what was covered before it. */
  lemma SilenceBefore(start: int, more: seq<Op>, op: Op)
    ensures NoSilence(start, more + [op], op.at) <==> NoSilence(start, more, op.at)
  {
    assert (more + [op])[..|more|] == more;
    forall x: int | x <= op.at
      ensures Covered(start, more + [op], x) <==> Covered(start, more, x)
    {
    }
  }

  predicate Undeleted(node: Node, more: seq<Op>)
  {
    forall op <- more :: !(op.Deletes? && op.node == node)
  }

  predicate Dead(node: Node, more: seq<Op>)
  {
    forall op <- more :: !(op.Sets? && op.node == node)
  }

  /** A node's field is there, and the hash has the deadline of its last renewal. */
  ghost predicate Kept(node: Node, h: Hash, renewed: int)
  {
    node in h.fields && h.deadline == At(renewed + LIFE)
  }

  lemma KeptStep(node: Node, h: Hash, renewed: int, op: Op)
    requires !(op.Sets? && op.node == node)
    ensures node !in h.fields ==> node !in Applied(h, op).fields
    ensures Kept(node, h, renewed) ==>
      (node in Applied(h, op).fields <==> op.at < renewed + LIFE && !(op.Deletes? && op.node == node))
    ensures Kept(node, h, renewed) && node in Applied(h, op).fields ==>
      Kept(node, Applied(h, op), if op.Expires? then op.at else renewed)
  {
  }

  lemma OpsSnoc(start: int, more: seq<Op>, op: Op)
    ensures LastTime(start, more + [op]) == op.at
    ensures LastRenewal(start, more + [op]) == if op.Expires? then op.at else LastRenewal(start, more)
    ensures Ordered(start, more + [op]) <==> Ordered(start, more) && LastTime(start, more) <= op.at
  {
    assert (more + [op])[..|more|] == more;
  }

  lemma AfterSnoc(ops: seq<Op>, op: Op)
    ensures After(ops + [op]) == Applied(After(ops), op)
  {
    assert (ops + [op])[..|ops|] == ops;
  }

  lemma {:induction false} KeptIff(ops: seq<Op>, node: Node, start: int, more: seq<Op>)
    requires Kept(node, After(ops), start) && Ordered(start, more) && Dead(node, more)
    ensures node in After(ops + more).fields <==> Undeleted(node, more) && NoSilence(start, more, LastTime(start, more))
    ensures node in After(ops + more).fields ==>
      Kept(node, After(ops + more), LastRenewal(start, more)) && LastTime(start, more) < LastRenewal(start, more) + LIFE
    decreases |more|
  {
    hide After, Applied, NoSilence, LastTime, LastRenewal, Ordered;
    if more == [] {
      assert ops + more == ops;
      NothingMore(start);
    } else {
      var n := |more| - 1;
      var front, op := more[..n], more[n];
      assert more == front + [op];
      OpsSnoc(start, front, op);
      KeptIff(ops, node, start, front);
      assert ops + more == (ops + front) + [op];
      AfterSnoc(ops + front, op);
      KeptStep(node, After(ops + front), LastRenewal(start, front), op);
      SilenceBefore(start, front, op);
      SilenceShorter(start, front, LastTime(start, front), op.at);
      if node in After(ops + front).fields {
        SilenceLate(start, front, op.at);
      }
    }
  }

  lemma NothingMore(start: int)
    ensures LastTime(start, []) == LastRenewal(start, []) == start && NoSilence(start, [], start)
  {
  }

  lemma SilenceShorter(start: int, more: seq<Op>, t: int, now: int)
    requires t <= now
    ensures NoSilence(start, more, now) ==> NoSilence(start, more, t)
  {
  }

  /** A node that stops beating stays in every snapshot until it is deleted by name or until everybody,
      not just this node, has been silent for 15 seconds: exactly then. */
  lemma StaysUntilSilenceIff(ops: seq<Op>, node: Node, more: seq<Op>, now: int)
    requires ops != [] && ops[|ops| - 1].Expires? && node in After(ops).fields
    requires Ordered(ops[|ops| - 1].at, more) && LastTime(ops[|ops| - 1].at, more) <= now
    requires Dead(node, more)
    ensures node in Online(ops + more, now) <==> Undeleted(node, more) && NoSilence(ops[|ops| - 1].at, more, now)
  {
    hide NoSilence, LastTime, LastRenewal, Ordered, Undeleted, Dead;
    var start := ops[|ops| - 1].at;
    assert Kept(node, After(ops), start);
    KeptIff(ops, node, start, more);
    SilenceShorter(start, more, LastTime(start, more), now);
    if node in After(ops + more).fields {
      SilenceLate(start, more, now);
    }
  }

  /** While somebody beats, the failure detection of no node reports a dead node. */
  lemma DeadNodeUnreported(ops: seq<Op>, node: Node, more: seq<Op>, now: int, known: seq<Node>, alive: seq<Node>, self: Node)
    requires ops != [] && ops[|ops| - 1].Expires? && node in After(ops).fields
    requires Ordered(ops[|ops| - 1].at, more) && LastTime(ops[|ops| - 1].at, more) <= now
    requires Dead(node, more) && Undeleted(node, more) && NoSilence(ops[|ops| - 1].at, more, now)
    requires forall n :: n in alive <==> n in Online(ops + more, now)
    ensures node !in Missing(known, alive, self)
  {
    StaysUntilSilenceIff(ops, node, more, now);
  }

  // ---- the failure, reached ------------------------------------------------------------------------

  /** A node beats once, at time 0; another one beats every five seconds. */
  function Survivor(dead: Node, other: Node, rounds: nat): (ops: seq<Op>)
  {
    if rounds == 0 then [Sets(dead, 0)] + [Expires(0)]
    else Survivor(dead, other, rounds - 1) + [Sets(other, 5_000 * rounds)] + [Expires(5_000 * rounds)]
  }

  /** However long it lasts, the node that never beat again is still listed. */
  lemma {:induction false} DeadNodeListedForever(dead: Node, other: Node, rounds: nat, now: int)
    requires 5_000 * rounds <= now < 5_000 * rounds + LIFE
    ensures Kept(dead, After(Survivor(dead, other, rounds)), 5_000 * rounds)
    ensures dead in Online(Survivor(dead, other, rounds), now)
  {
    if rounds == 0 {
      AfterSnoc([Sets(dead, 0)], Expires(0));
      AfterSnoc([], Sets(dead, 0));
      assert [] + [Sets(dead, 0)] == [Sets(dead, 0)];
    } else {
      var before := Survivor(dead, other, rounds - 1);
      DeadNodeListedForever(dead, other, rounds - 1, now - 5_000);
      AfterSnoc(before, Sets(other, 5_000 * rounds));
      AfterSnoc(before + [Sets(other, 5_000 * rounds)], Expires(5_000 * rounds));
    }
  }
}
