/** The loop's cancellable timers (src/net/EventLoop.cpp) as a step machine. User callbacks are
    arbitrary: while one runs, and whenever no batch is processed, the loop thread may add timers;
    any thread may cancel one at any moment. */
module TimerSpec {
  type Id = nat
  type Time = int

  const MIN_DELAY: Time := 100

  datatype Option<+T> = None | Some(value: T)

  datatype Kind = OneShot | Every(interval: Time)

  /** `stamp` numbers the insertions into `timers_`: it is what orders ties. */
  datatype Entry = Entry(due: Time, stamp: nat, id: Id, kind: Kind)

  datatype Firing = Firing(entry: Entry, at: Time, batch: nat)

  /** What timerfd was last set for, and when it becomes readable. */
  datatype Arming = Arming(due: Time, deadline: Time)

  /** `tokens` are the keys of `timerCancelTokens_`, `cancelled` the tokens set to true. `expired`
      is the part of `expiredTimers_` that was not started yet. */
  datatype Timers = Timers(
    timers: seq<Entry>, expired: seq<Entry>, running: Option<Entry>,
    tokens: set<Id>, cancelled: set<Id>, nextId: Id, nextStamp: nat,
    processing: bool, now: Time, batch: nat, fired: seq<Firing>, armed: Option<Arming>)

  const INIT: Timers := Timers([], [], None, {}, {}, 1, 0, false, 0, 0, [], None)

  datatype Action =
    | RunAt(due: Time, now: Time)
    | RunEvery(interval: Time, now: Time)
    | Cancel(id: Id)
    | Collect(now: Time)          // timerfd was read; due entries leave `timers_`
    | Begin                       // the next expired callback starts
    | End(now: Time)              // it returns; a live periodic timer is put back
    | Settle(now: Time)           // the batch is over; timerfd is set again

  predicate Enabled(q: Timers, a: Action)
  {
    match a
    case RunAt(_, _) => !q.processing || q.running.Some?
    case RunEvery(_, _) => !q.processing || q.running.Some?
    case Cancel(_) => true
    case Collect(_) => !q.processing
    case Begin => q.processing && q.running.None? && q.expired != []
    case End(_) => q.running.Some?
    case Settle(_) => q.processing && q.running.None? && q.expired == []
  }

  /** `multimap::emplace`: behind every entry that is due no later. */
  function Insert(ts: seq<Entry>, e: Entry): (r: seq<Entry>)
  {
    if ts == [] || e.due < ts[0].due then [e] + ts else [ts[0]] + Insert(ts[1..], e)
  }

  /** How many entries are due by `now`, counted from the front. */
  function DueBy(ts: seq<Entry>, now: Time): (k: nat)
    ensures k <= |ts|
  {
    if ts == [] || ts[0].due > now then 0 else 1 + DueBy(ts[1..], now)
  }

  /** `resetTimerFd`: at the due time, but no sooner than 100 microseconds from now. */
  function Arm(due: Time, now: Time): (a: Arming)
  {
    Arming(due, if due - now < MIN_DELAY then now + MIN_DELAY else due)
  }

  /** Puts an entry into `timers_` and sets timerfd if it is now the first. */
  function Schedule(q: Timers, due: Time, id: Id, kind: Kind, now: Time): (r: Timers)
  {
    var ts := Insert(q.timers, Entry(due, q.nextStamp, id, kind));
    q.(timers := ts, nextStamp := q.nextStamp + 1,
       armed := if ts != [] && ts[0].due == due then Some(Arm(due, now)) else q.armed)
  }

  function NewTimer(q: Timers, due: Time, kind: Kind, now: Time): (r: Timers)
  {
    Schedule(q.(tokens := q.tokens + {q.nextId}, nextId := q.nextId + 1), due, q.nextId, kind, now)
  }

  function EndOf(q: Timers, e: Entry, now: Time): (r: Timers)
  {
    var idle := q.(running := None);
    match e.kind
    case OneShot => idle.(tokens := q.tokens - {e.id})
    case Every(interval) =>
      if e.id in q.cancelled then idle else Schedule(idle, now + interval, e.id, e.kind, now)
  }

  function Step(q: Timers, a: Action): (r: Timers)
    requires Enabled(q, a)
  {
    match a
    case RunAt(due, now) => NewTimer(q, due, OneShot, now)
    case RunEvery(interval, now) => NewTimer(q, now + interval, Every(interval), now)
    case Cancel(id) =>
      if id in q.tokens then q.(tokens := q.tokens - {id}, cancelled := q.cancelled + {id}) else q
    case Collect(now) =>
      var k := DueBy(q.timers, now);
      q.(timers := q.timers[k..], expired := q.timers[..k], processing := true, now := now,
         batch := q.batch + 1, armed := None)
    case Begin =>
      var e := q.expired[0];
      q.(expired := q.expired[1..], running := Some(e),
         fired := if e.id in q.cancelled then q.fired else q.fired + [Firing(e, q.now, q.batch)])
    case End(now) => EndOf(q, q.running.value, now)
    case Settle(now) =>
      q.(processing := false,
         armed := if q.timers != [] then Some(Arm(q.timers[0].due, now)) else q.armed)
  }

  ghost predicate Runs(q: Timers, actions: seq<Action>, r: Timers)
    decreases |actions|
  {
    if actions == [] then r == q
    else Enabled(q, actions[0]) && Runs(Step(q, actions[0]), actions[1..], r)
  }

  // ---- the ledger ----------------------------------------------------------------------------

  ghost function Ids(es: seq<Entry>): multiset<Id>
  {
    if es == [] then multiset{} else multiset{es[0].id} + Ids(es[1..])
  }

  ghost function Waiting(q: Timers): multiset<Id>
  {
    Ids(q.timers) + Ids(q.expired)
  }

  /** Every entry wherever it is: queued, expired and not started, or running. */
  ghost function Pending(q: Timers): multiset<Id>
  {
    Waiting(q) + (if q.running.Some? then multiset{q.running.value.id} else multiset{})
  }

  /** The cancel tokens are exactly the live entries, each entry is there once, and an entry whose
      token is gone was cancelled. */
  ghost predicate Balanced(pending: multiset<Id>, tokens: set<Id>, cancelled: set<Id>, nextId: Id)
  {
    && (forall id :: pending[id] <= 1)
    && (forall id <- pending :: id < nextId && (id in tokens || id in cancelled))
    && (forall id <- tokens :: id in pending && id !in cancelled)
    && (forall id <- cancelled :: id < nextId)
  }

  ghost predicate Ledger(q: Timers)
  {
    && Balanced(Pending(q), q.tokens, q.cancelled, q.nextId)
    && (!q.processing ==> q.expired == [] && q.running.None?)
  }

  lemma IdsCons(e: Entry, ts: seq<Entry>)
    ensures Ids([e] + ts) == multiset{e.id} + Ids(ts)
  {
    assert ([e] + ts)[1..] == ts;
  }

  lemma {:induction false} IdsInsert(ts: seq<Entry>, e: Entry)
    ensures Ids(Insert(ts, e)) == Ids(ts) + multiset{e.id}
  {
    hide Ids;
    if ts == [] || e.due < ts[0].due {
      IdsCons(e, ts);
    } else {
      var tail := Insert(ts[1..], e);
      IdsInsert(ts[1..], e);
      IdsCons(ts[0], tail);
      IdsCons(ts[0], ts[1..]);
      assert ts == [ts[0]] + ts[1..] && Insert(ts, e) == [ts[0]] + tail;
      MultisetGrouping(multiset{ts[0].id}, Ids(ts[1..]), multiset{e.id});
    }
  }

  lemma MultisetGrouping(a: multiset<Id>, b: multiset<Id>, c: multiset<Id>)
    ensures a + (b + c) == (a + b) + c
  {
  }

  lemma {:induction false} IdsAppend(a: seq<Entry>, b: seq<Entry>)
    ensures Ids(a + b) == Ids(a) + Ids(b)
    decreases |a|
  {
    if a == [] {
      assert a + b == b;
    } else {
      assert (a + b)[0] == a[0] && (a + b)[1..] == a[1..] + b;
      IdsAppend(a[1..], b);
    }
  }

  lemma IdsSplit(ts: seq<Entry>, k: nat)
    requires k <= |ts|
    ensures Ids(ts) == Ids(ts[..k]) + Ids(ts[k..])
  {
    hide Ids;
    assert ts == ts[..k] + ts[k..];
    IdsAppend(ts[..k], ts[k..]);
  }

  lemma ScheduleIds(q: Timers, due: Time, id: Id, kind: Kind, now: Time)
    ensures Pending(Schedule(q, due, id, kind, now)) == Pending(q) + multiset{id}
  {
    IdsInsert(q.timers, Entry(due, q.nextStamp, id, kind));
  }

  lemma BalancedNew(pending: multiset<Id>, tokens: set<Id>, cancelled: set<Id>, id: Id)
    requires Balanced(pending, tokens, cancelled, id)
    ensures Balanced(pending + multiset{id}, tokens + {id}, cancelled, id + 1)
  {
    assert id !in pending;
  }

  lemma BalancedGone(rest: multiset<Id>, tokens: set<Id>, cancelled: set<Id>, nextId: Id, id: Id)
    requires Balanced(rest + multiset{id}, tokens, cancelled, nextId)
    ensures Balanced(rest, tokens - {id}, cancelled, nextId)
  {
    assert (rest + multiset{id})[id] <= 1;
    assert forall other :: rest[other] <= (rest + multiset{id})[other];
    assert forall other <- rest :: other in rest + multiset{id};
  }

  lemma BalancedCancel(pending: multiset<Id>, tokens: set<Id>, cancelled: set<Id>, nextId: Id, id: Id)
    requires Balanced(pending, tokens, cancelled, nextId) && id in tokens
    ensures Balanced(pending, tokens - {id}, cancelled + {id}, nextId)
  {
  }

  lemma NewTimerKeepsLedger(q: Timers, due: Time, kind: Kind, now: Time)
    requires Ledger(q)
    ensures Ledger(NewTimer(q, due, kind, now))
  {
    hide Balanced, Pending;
    var named := q.(tokens := q.tokens + {q.nextId}, nextId := q.nextId + 1);
    ScheduleIds(named, due, q.nextId, kind, now);
    SamePending(q, named);
    BalancedNew(Pending(q), q.tokens, q.cancelled, q.nextId);
  }

  lemma SamePending(q: Timers, r: Timers)
    requires q.timers == r.timers && q.expired == r.expired && q.running == r.running
    ensures Pending(q) == Pending(r) && Waiting(q) == Waiting(r)
  {
  }

  lemma SplitWaiting(ts: seq<Entry>, k: nat)
    requires k <= |ts|
    ensures Ids(ts[k..]) + Ids(ts[..k]) == Ids(ts) + Ids([])
  {
    IdsSplit(ts, k);
    assert Ids([]) == multiset{};
  }

  lemma CollectPending(q: Timers, now: Time)
    requires !q.processing && q.expired == [] && q.running.None?
    ensures Pending(Step(q, Collect(now))) == Pending(q)
    ensures Waiting(Step(q, Collect(now))) == Waiting(q)
  {
    hide Ids;
    SplitWaiting(q.timers, DueBy(q.timers, now));
  }

  lemma BeginPending(q: Timers)
    requires Enabled(q, Begin)
    ensures Pending(Step(q, Begin)) == Pending(q)
    ensures Waiting(q) == Waiting(Step(q, Begin)) + multiset{q.expired[0].id}
  {
    assert Ids(q.expired) == multiset{q.expired[0].id} + Ids(q.expired[1..]);
  }

  lemma EndKeepsLedger(q: Timers, now: Time)
    requires Ledger(q) && q.running.Some?
    ensures Ledger(EndOf(q, q.running.value, now))
  {
    hide Balanced;
    var e := q.running.value;
    var idle := q.(running := None);
    assert Pending(q) == Pending(idle) + multiset{e.id};
    if e.kind.OneShot? {
      SamePending(idle, EndOf(q, e, now));
      BalancedGone(Pending(idle), q.tokens, q.cancelled, q.nextId, e.id);
    } else if e.id in q.cancelled {
      CancelledEnds(Pending(idle), q, e.id);
    } else {
      ScheduleIds(idle, now + e.kind.interval, e.id, e.kind, now);
    }
  }

  lemma CancelledEnds(rest: multiset<Id>, q: Timers, id: Id)
    requires Balanced(rest + multiset{id}, q.tokens, q.cancelled, q.nextId) && id in q.cancelled
    ensures Balanced(rest, q.tokens, q.cancelled, q.nextId)
  {
    BalancedGone(rest, q.tokens, q.cancelled, q.nextId, id);
    assert q.tokens - {id} == q.tokens;
  }

  lemma StepKeepsLedger(q: Timers, a: Action)
    requires Ledger(q) && Enabled(q, a)
    ensures Ledger(Step(q, a))
  {
    hide Balanced, Pending;
    match a {
      case RunAt(due, now) => NewTimerKeepsLedger(q, due, OneShot, now);
      case RunEvery(interval, now) => NewTimerKeepsLedger(q, now + interval, Every(interval), now);
      case Cancel(id) =>
        SamePending(q, Step(q, a));
        if id in q.tokens {
          BalancedCancel(Pending(q), q.tokens, q.cancelled, q.nextId, id);
        }
      case Collect(now) => CollectPending(q, now);
      case Begin => BeginPending(q);
      case End(now) => EndKeepsLedger(q, now);
      case Settle(now) => SamePending(q, Step(q, a));
    }
  }

  // ---- order and firing ----------------------------------------------------------------------

  /** Due-time order, ties in insertion order. */
  predicate Before(a: Entry, b: Entry)
  {
    a.due < b.due || (a.due == b.due && a.stamp < b.stamp)
  }

  ghost predicate Sorted(es: seq<Entry>)
  {
    forall i, j | 0 <= i < j < |es| :: Before(es[i], es[j])
  }

  ghost predicate StampsBelow(es: seq<Entry>, stamp: nat)
  {
    forall e <- es :: e.stamp < stamp
  }

  /** Nothing fired early, and each batch fired in order, ahead of what it has still to start. */
  ghost predicate History(fired: seq<Firing>, expired: seq<Entry>, batch: nat)
  {
    && (forall f <- fired :: f.entry.due <= f.at && f.batch <= batch)
    && (forall f <- fired, e <- expired | f.batch == batch :: Before(f.entry, e))
    && (forall i, j | 0 <= i < j < |fired| && fired[i].batch == fired[j].batch ::
          Before(fired[i].entry, fired[j].entry))
  }

  ghost predicate Ordered(q: Timers)
  {
    && Sorted(q.timers) && Sorted(q.expired)
    && StampsBelow(q.timers, q.nextStamp)
    && (forall e <- q.expired :: e.due <= q.now)
    && History(q.fired, q.expired, q.batch)
  }

  lemma {:induction false} InsertMembers(ts: seq<Entry>, e: Entry, x: Entry)
    ensures x in Insert(ts, e) <==> x == e || x in ts
  {
    if ts == [] || e.due < ts[0].due {
    } else {
      InsertMembers(ts[1..], e, x);
    }
  }

  lemma {:induction false} InsertSorted(ts: seq<Entry>, e: Entry)
    requires Sorted(ts) && StampsBelow(ts, e.stamp)
    ensures Sorted(Insert(ts, e)) && StampsBelow(Insert(ts, e), e.stamp + 1)
    ensures Insert(ts, e) != [] && (Insert(ts, e)[0] == e || (ts != [] && Insert(ts, e)[0] == ts[0]))
  {
    if ts == [] || e.due < ts[0].due {
      assert forall i | 0 <= i < |ts| :: Before(e, ts[i]);
    } else {
      assert Sorted(ts[1..]) && StampsBelow(ts[1..], e.stamp);
      InsertSorted(ts[1..], e);
      var tail := Insert(ts[1..], e);
      assert ts[0] in ts;
      forall x | x in tail
        ensures Before(ts[0], x)
      {
        InsertMembers(ts[1..], e, x);
      }
      assert forall i | 0 <= i < |tail| :: tail[i] in tail;
    }
  }

  lemma {:induction false} DueByFront(ts: seq<Entry>, now: Time)
    requires Sorted(ts)
    ensures forall e <- ts[..DueBy(ts, now)] :: e.due <= now
    ensures forall e <- ts[DueBy(ts, now)..] :: e.due > now
  {
    if ts == [] {
    } else if ts[0].due > now {
      assert forall i | 0 < i < |ts| :: Before(ts[0], ts[i]);
    } else {
      DueByFront(ts[1..], now);
      var k := DueBy(ts[1..], now);
      assert ts[..k + 1] == [ts[0]] + ts[1..][..k];
      assert ts[k + 1..] == ts[1..][k..];
    }
  }

  lemma ScheduleKeepsOrdered(q: Timers, due: Time, id: Id, kind: Kind, now: Time)
    requires Ordered(q)
    ensures Ordered(Schedule(q, due, id, kind, now))
  {
    InsertSorted(q.timers, Entry(due, q.nextStamp, id, kind));
  }

  lemma CollectKeepsOrdered(q: Timers, now: Time)
    requires Ordered(q) && !q.processing
    ensures Ordered(Step(q, Collect(now)))
  {
    DueByFront(q.timers, now);
  }

  lemma HistoryFire(fired: seq<Firing>, expired: seq<Entry>, now: Time, batch: nat)
    requires expired != [] && Sorted(expired) && expired[0].due <= now
    requires History(fired, expired, batch)
    ensures History(fired, expired[1..], batch)
    ensures History(fired + [Firing(expired[0], now, batch)], expired[1..], batch)
  {
    var e := expired[0];
    assert e in expired;
    assert forall x <- expired[1..] :: x in expired && Before(e, x);
  }

  lemma BeginKeepsOrdered(q: Timers)
    requires Ordered(q) && Enabled(q, Begin)
    ensures Ordered(Step(q, Begin))
  {
    hide History;
    assert q.expired[0] in q.expired;
    HistoryFire(q.fired, q.expired, q.now, q.batch);
  }

  lemma StepKeepsOrdered(q: Timers, a: Action)
    requires Ordered(q) && Enabled(q, a)
    ensures Ordered(Step(q, a))
  {
    hide Sorted, StampsBelow, History;
    match a {
      case RunAt(due, now) =>
        ScheduleKeepsOrdered(q.(tokens := q.tokens + {q.nextId}, nextId := q.nextId + 1), due, q.nextId, OneShot, now);
      case RunEvery(interval, now) =>
        ScheduleKeepsOrdered(q.(tokens := q.tokens + {q.nextId}, nextId := q.nextId + 1), now + interval, q.nextId, Every(interval), now);
      case Collect(now) => CollectKeepsOrdered(q, now);
      case Begin => BeginKeepsOrdered(q);
      case End(now) =>
        var e := q.running.value;
        if e.kind.Every? && e.id !in q.cancelled {
          ScheduleKeepsOrdered(q.(running := None), now + e.kind.interval, e.id, e.kind, now);
        }
      case _ =>
    }
  }

  /** A one-shot that has fired is no longer waiting, and its id is not reused. */
  ghost predicate OnceOnly(q: Timers)
  {
    && (forall f <- q.fired :: f.entry.id < q.nextId)
    && (forall f <- q.fired | f.entry.kind.OneShot? ::
          f.entry.id !in Waiting(q)
          && (q.running.Some? && q.running.value.id == f.entry.id ==> q.running.value.kind.OneShot?))
    && (forall i, j | 0 <= i < j < |q.fired| && q.fired[i].entry.kind.OneShot? ::
          q.fired[i].entry.id != q.fired[j].entry.id)
  }

  lemma BeginKeepsOnceOnly(q: Timers)
    requires Ledger(q) && OnceOnly(q) && Enabled(q, Begin)
    ensures OnceOnly(Step(q, Begin))
  {
    hide Ids;
    var e := q.expired[0];
    var r := Step(q, Begin);
    BeginPending(q);
    assert Waiting(q) == Waiting(r) + multiset{e.id};
    assert Pending(q) == Waiting(q);
    assert Pending(q)[e.id] <= 1;
    assert e.id in Waiting(q) && e.id !in Waiting(r);
    assert forall f <- q.fired :: f in r.fired;
    assert forall id <- Waiting(r) :: id in Waiting(q);
  }

  lemma AddKeepsOnceOnly(q: Timers, due: Time, id: Id, kind: Kind, now: Time)
    requires OnceOnly(q)
    requires forall f <- q.fired | f.entry.kind.OneShot? :: f.entry.id != id
    ensures OnceOnly(Schedule(q, due, id, kind, now))
  {
    IdsInsert(q.timers, Entry(due, q.nextStamp, id, kind));
  }

  lemma NewTimerKeepsOnceOnly(q: Timers, due: Time, kind: Kind, now: Time)
    requires OnceOnly(q)
    ensures OnceOnly(NewTimer(q, due, kind, now))
  {
    var named := q.(tokens := q.tokens + {q.nextId}, nextId := q.nextId + 1);
    SamePending(q, named);
    AddKeepsOnceOnly(named, due, q.nextId, kind, now);
  }

  lemma StepKeepsOnceOnly(q: Timers, a: Action)
    requires Ledger(q) && OnceOnly(q) && Enabled(q, a)
    ensures OnceOnly(Step(q, a))
  {
    hide Waiting;
    match a {
      case RunAt(due, now) => NewTimerKeepsOnceOnly(q, due, OneShot, now);
      case RunEvery(interval, now) => NewTimerKeepsOnceOnly(q, now + interval, Every(interval), now);
      case Collect(now) => CollectPending(q, now);
      case Begin => BeginKeepsOnceOnly(q);
      case End(now) =>
        var e := q.running.value;
        SameWaiting(q, q.(running := None));
        if e.kind.Every? && e.id !in q.cancelled {
          AddKeepsOnceOnly(q.(running := None), now + e.kind.interval, e.id, e.kind, now);
        } else {
          SameWaiting(q, Step(q, a));
        }
      case _ => SameWaiting(q, Step(q, a));
    }
  }

  lemma SameWaiting(q: Timers, r: Timers)
    requires q.timers == r.timers && q.expired == r.expired
    ensures Waiting(q) == Waiting(r)
  {
  }

  /** Outside a batch, timerfd is set for the earliest timer, so none is stranded. */
  ghost predicate NotStranded(q: Timers)
  {
    !q.processing && q.timers != [] ==>
      q.armed.Some? && q.armed.value.due == q.timers[0].due && q.armed.value.due <= q.armed.value.deadline
  }

  lemma ScheduleKeepsArmed(q: Timers, due: Time, id: Id, kind: Kind, now: Time)
    requires Ordered(q) && NotStranded(q)
    ensures NotStranded(Schedule(q, due, id, kind, now))
  {
    InsertSorted(q.timers, Entry(due, q.nextStamp, id, kind));
  }

  lemma StepKeepsArmed(q: Timers, a: Action)
    requires Ledger(q) && Ordered(q) && NotStranded(q) && Enabled(q, a)
    ensures NotStranded(Step(q, a))
  {
    hide Balanced, History, Sorted;
    match a {
      case RunAt(due, now) =>
        ScheduleKeepsArmed(q.(tokens := q.tokens + {q.nextId}, nextId := q.nextId + 1), due, q.nextId, OneShot, now);
      case RunEvery(interval, now) =>
        ScheduleKeepsArmed(q.(tokens := q.tokens + {q.nextId}, nextId := q.nextId + 1), now + interval, q.nextId, Every(interval), now);
      case End(now) =>
        var e := q.running.value;
        if e.kind.Every? && e.id !in q.cancelled {
          ScheduleKeepsArmed(q.(running := None), now + e.kind.interval, e.id, e.kind, now);
        }
      case _ =>
    }
  }

  // ---- over whole runs -----------------------------------------------------------------------

  ghost predicate Inv(q: Timers)
  {
    Ledger(q) && Ordered(q) && OnceOnly(q) && NotStranded(q)
  }

  lemma InitInv()
    ensures Inv(INIT)
  {
  }

  lemma StepKeepsInv(q: Timers, a: Action)
    requires Inv(q) && Enabled(q, a)
    ensures Inv(Step(q, a))
  {
    hide Ledger, Ordered, OnceOnly, NotStranded, Step;
    StepKeepsLedger(q, a);
    StepKeepsOrdered(q, a);
    StepKeepsOnceOnly(q, a);
    StepKeepsArmed(q, a);
  }

  lemma {:induction false} RunKeepsInv(q: Timers, actions: seq<Action>, r: Timers)
    requires Inv(q) && Runs(q, actions, r)
    ensures Inv(r)
    decreases |actions|
  {
    hide Inv;
    if actions != [] {
      StepKeepsInv(q, actions[0]);
      RunKeepsInv(Step(q, actions[0]), actions[1..], r);
    }
  }

  /** In every reachable state, whatever callbacks and other threads did: the token map holds
      exactly the timers that are neither cancelled nor done, each with exactly one entry in
      `timers_`, the unstarted part of the batch, or the running callback. */
  lemma TokensAreLive(actions: seq<Action>, q: Timers, id: Id)
    requires Runs(INIT, actions, q)
    ensures id in q.tokens <==> id in Pending(q) && id !in q.cancelled
    ensures id in q.tokens ==> Pending(q)[id] == 1
  {
    InitInv();
    RunKeepsInv(INIT, actions, q);
    assert Pending(q)[id] <= 1;
  }

  /** No timer fires before it is due, a one-shot fires at most once, a batch fires in due-time
      order with ties in insertion order, and no timer is stranded between batches. */
  lemma FiringsAreRight(actions: seq<Action>, q: Timers)
    requires Runs(INIT, actions, q)
    ensures forall f <- q.fired :: f.entry.due <= f.at
    ensures forall i, j | 0 <= i < j < |q.fired| && q.fired[i].entry.kind.OneShot? ::
      q.fired[i].entry.id != q.fired[j].entry.id
    ensures forall i, j | 0 <= i < j < |q.fired| && q.fired[i].batch == q.fired[j].batch ::
      Before(q.fired[i].entry, q.fired[j].entry)
    ensures NotStranded(q)
  {
    InitInv();
    RunKeepsInv(INIT, actions, q);
  }

  /** A timer that can never start again: its token is set, or it has no entry left. */
  ghost predicate Dead(q: Timers, id: Id)
  {
    id < q.nextId && (id in q.cancelled || id !in Pending(q))
  }

  /** Entries only ever come from fresh ids or from the entry that was running. */
  lemma StepPending(q: Timers, a: Action, id: Id)
    requires Ledger(q) && Enabled(q, a) && id < q.nextId && id !in Pending(q)
    ensures id !in Pending(Step(q, a))
  {
    hide Ids, Balanced, Waiting;
    match a {
      case RunAt(due, now) =>
        var named := q.(tokens := q.tokens + {q.nextId}, nextId := q.nextId + 1);
        SamePending(q, named);
        ScheduleIds(named, due, q.nextId, OneShot, now);
      case RunEvery(interval, now) =>
        var named := q.(tokens := q.tokens + {q.nextId}, nextId := q.nextId + 1);
        SamePending(q, named);
        ScheduleIds(named, now + interval, q.nextId, Every(interval), now);
      case Collect(now) => CollectPending(q, now);
      case Begin => BeginPending(q);
      case End(now) => EndPending(q, now, id);
      case _ => SamePending(q, Step(q, a));
    }
  }

  lemma EndPending(q: Timers, now: Time, id: Id)
    requires q.running.Some? && id !in Pending(q)
    ensures id !in Pending(EndOf(q, q.running.value, now))
  {
    hide Ids, Waiting;
    var e := q.running.value;
    var idle := q.(running := None);
    SameWaiting(q, idle);
    assert Pending(q) == Pending(idle) + multiset{e.id};
    if e.kind.Every? && e.id !in q.cancelled {
      ScheduleIds(idle, now + e.kind.interval, e.id, e.kind, now);
    } else {
      SamePending(idle, EndOf(q, e, now));
    }
  }

  lemma StepKeepsDead(q: Timers, a: Action, id: Id)
    requires Ledger(q) && Dead(q, id) && Enabled(q, a)
    ensures Dead(Step(q, a), id)
    ensures q.fired <= Step(q, a).fired
    ensures forall k | |q.fired| <= k < |Step(q, a).fired| :: Step(q, a).fired[k].entry.id != id
  {
    hide Ids, Balanced, Pending;
    if id !in Pending(q) {
      StepPending(q, a, id);
    }
    if a.Begin? {
      ExpiredIsPending(q);
    }
  }

  lemma ExpiredIsPending(q: Timers)
    requires q.expired != []
    ensures q.expired[0].id in Pending(q)
  {
  }

  lemma CancelKills(q: Timers, id: Id)
    requires Ledger(q) && id < q.nextId
    ensures Dead(Step(q, Cancel(id)), id)
    ensures Step(q, Cancel(id)).fired == q.fired
  {
    hide Ids;
    SamePending(q, Step(q, Cancel(id)));
  }

  lemma {:induction false} DeadStaysSilent(q: Timers, actions: seq<Action>, r: Timers, id: Id)
    requires Inv(q) && Dead(q, id) && Runs(q, actions, r)
    ensures q.fired <= r.fired
    ensures forall k | |q.fired| <= k < |r.fired| :: r.fired[k].entry.id != id
    decreases |actions|
  {
    hide Inv, Dead, Step;
    if actions != [] {
      var m := Step(q, actions[0]);
      LedgerOf(q);
      StepKeepsDead(q, actions[0], id);
      StepKeepsInv(q, actions[0]);
      DeadStaysSilent(m, actions[1..], r, id);
    }
  }

  lemma LedgerOf(q: Timers)
    requires Inv(q)
    ensures Ledger(q)
  {
  }

  /** After `cancelTimer` on an id already handed out, that timer never starts firing again,
      wherever its entry was. */
  lemma CancelIsFinal(before: seq<Action>, q: Timers, id: Id, after: seq<Action>, r: Timers)
    requires Runs(INIT, before, q) && id < q.nextId
    requires Runs(Step(q, Cancel(id)), after, r)
    ensures q.fired <= r.fired
    ensures forall k | |q.fired| <= k < |r.fired| :: r.fired[k].entry.id != id
  {
    hide Inv, Dead, Step;
    InitInv();
    RunKeepsInv(INIT, before, q);
    StepKeepsInv(q, Cancel(id));
    LedgerOf(q);
    CancelKills(q, id);
    DeadStaysSilent(Step(q, Cancel(id)), after, r, id);
  }

  // ---- periodic timers -------------------------------------------------------------------------

  ghost predicate Repeats(es: seq<Entry>, id: Id)
  {
    forall e <- es | e.id == id :: e.kind.Every?
  }

  /** A live timer created by `runEvery`. */
  ghost predicate Periodic(q: Timers, id: Id)
  {
    && id in q.tokens && id < q.nextId
    && Repeats(q.timers, id) && Repeats(q.expired, id)
    && (q.running.Some? ==> Repeats([q.running.value], id))
  }

  lemma ScheduleRepeats(q: Timers, due: Time, id: Id, kind: Kind, now: Time, other: Id)
    requires Repeats(q.timers, other) && (id == other ==> kind.Every?)
    ensures Repeats(Schedule(q, due, id, kind, now).timers, other)
  {
    var e := Entry(due, q.nextStamp, id, kind);
    forall x | x in Insert(q.timers, e) && x.id == other
      ensures x.kind.Every?
    {
      InsertMembers(q.timers, e, x);
    }
  }

  lemma StepKeepsPeriodic(q: Timers, a: Action, id: Id)
    requires Periodic(q, id) && Enabled(q, a) && a != Cancel(id)
    ensures Periodic(Step(q, a), id)
  {
    match a {
      case RunAt(due, now) =>
        ScheduleRepeats(q.(tokens := q.tokens + {q.nextId}, nextId := q.nextId + 1), due, q.nextId, OneShot, now, id);
      case RunEvery(interval, now) =>
        ScheduleRepeats(q.(tokens := q.tokens + {q.nextId}, nextId := q.nextId + 1), now + interval, q.nextId, Every(interval), now, id);
      case Begin => assert q.expired[0] in q.expired;
      case End(now) =>
        var e := q.running.value;
        assert e in [e];
        if e.kind.Every? && e.id !in q.cancelled {
          ScheduleRepeats(q.(running := None), now + e.kind.interval, e.id, e.kind, now, id);
        }
      case _ =>
    }
  }

  lemma {:induction false} RunKeepsPeriodic(q: Timers, actions: seq<Action>, r: Timers, id: Id)
    requires Periodic(q, id) && Runs(q, actions, r) && Cancel(id) !in actions
    ensures Periodic(r, id)
    decreases |actions|
  {
    hide Periodic, Step;
    if actions != [] {
      StepKeepsPeriodic(q, actions[0], id);
      RunKeepsPeriodic(Step(q, actions[0]), actions[1..], r, id);
    }
  }

  /** A periodic timer that nobody cancels always has exactly one entry waiting or running. */
  lemma PeriodicNeverLost(before: seq<Action>, q: Timers, interval: Time, now: Time, after: seq<Action>, r: Timers)
    requires Runs(INIT, before, q) && Enabled(q, RunEvery(interval, now))
    requires Runs(Step(q, RunEvery(interval, now)), after, r) && Cancel(q.nextId) !in after
    ensures q.nextId in r.tokens && Pending(r)[q.nextId] == 1
  {
    hide Inv, Step, Periodic, Pending;
    InitInv();
    RunKeepsInv(INIT, before, q);
    LedgerOf(q);
    NewIsPeriodic(q, interval, now);
    var c := Step(q, RunEvery(interval, now));
    StepKeepsInv(q, RunEvery(interval, now));
    RunKeepsPeriodic(c, after, r, q.nextId);
    RunKeepsInv(c, after, r);
    LedgerOf(r);
    PeriodicIsLive(r, q.nextId);
    LiveOnce(r, q.nextId);
  }

  lemma NewIsPeriodic(q: Timers, interval: Time, now: Time)
    requires Ledger(q)
    ensures Enabled(q, RunEvery(interval, now)) ==> Periodic(Step(q, RunEvery(interval, now)), q.nextId)
  {
    hide Ledger;
    FreshIdUnused(q);
    ScheduleRepeats(q.(tokens := q.tokens + {q.nextId}, nextId := q.nextId + 1), now + interval, q.nextId,
      Every(interval), now, q.nextId);
  }

  lemma PeriodicIsLive(q: Timers, id: Id)
    requires Periodic(q, id)
    ensures id in q.tokens
  {
  }

  lemma LiveOnce(q: Timers, id: Id)
    requires Ledger(q) && id in q.tokens
    ensures Pending(q)[id] == 1
  {
    assert Pending(q)[id] <= 1;
  }

  lemma {:induction false} IdsMember(es: seq<Entry>, e: Entry)
    requires e in es
    ensures e.id in Ids(es)
  {
    if e != es[0] {
      IdsMember(es[1..], e);
    }
  }

  lemma FreshIdUnused(q: Timers)
    requires Ledger(q)
    ensures Repeats(q.timers, q.nextId) && Repeats(q.expired, q.nextId)
    ensures q.running.Some? ==> q.running.value.id != q.nextId
  {
    assert q.nextId !in Pending(q);
    forall e | e in q.timers || e in q.expired
      ensures e.id != q.nextId
    {
      if e in q.timers {
        IdsMember(q.timers, e);
      } else {
        IdsMember(q.expired, e);
      }
    }
  }
}
