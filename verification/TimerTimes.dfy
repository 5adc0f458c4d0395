/** When timers fire, against the times their callers gave and the clocks the loop read. */
module TimerTimes {
  import opened TimerSpec

  /** The clock of the last batch that was collected, `t` if there was none. */
  function BatchClock(actions: seq<Action>, t: Time): (clock: Time)
  {
    if actions == [] then t
    else BatchClock(actions[1..], if actions[0].Collect? then actions[0].now else t)
  }

  /** The clock of the last return of this timer's callback, `t` if there was none. */
  ghost function LastEnd(q: Timers, actions: seq<Action>, id: Id, t: Time): (clock: Time)
    decreases |actions|
  {
    if actions == [] || !Enabled(q, actions[0]) then t
    else
      var a := actions[0];
      LastEnd(Step(q, a), actions[1..], id, if a.End? && q.running.value.id == id then a.now else t)
  }

  /** Wherever the timer has an entry, it is of this kind and due no sooner than this. */
  ghost predicate DueFrom(q: Timers, id: Id, kind: Kind, bound: Time)
  {
    && id < q.nextId
    && (forall e <- q.timers | e.id == id :: e.kind == kind && e.due >= bound)
    && (forall e <- q.expired | e.id == id :: e.kind == kind && e.due >= bound)
    && (q.running.Some? && q.running.value.id == id ==> q.running.value.kind == kind)
  }

  lemma ScheduleDueFrom(q: Timers, due: Time, other: Id, otherKind: Kind, now: Time, id: Id, kind: Kind, bound: Time)
    requires DueFrom(q, id, kind, bound) && (other == id ==> otherKind == kind && due >= bound)
    ensures DueFrom(Schedule(q, due, other, otherKind, now), id, kind, bound)
  {
    var e := Entry(due, q.nextStamp, other, otherKind);
    forall x | x in Insert(q.timers, e) && x.id == id
      ensures x.kind == kind && x.due >= bound
    {
      InsertMembers(q.timers, e, x);
    }
  }

  /** A running timer has no other entry. */
  lemma RunningIsAlone(q: Timers, e: Entry)
    requires Ledger(q) && q.running.Some? && q.running.value.id == e.id
    ensures e !in q.timers && e !in q.expired
  {
    assert Pending(q)[e.id] <= 1;
    if e in q.timers {
      IdsMember(q.timers, e);
    }
    if e in q.expired {
      IdsMember(q.expired, e);
    }
  }

  lemma EndDueFrom(q: Timers, now: Time, id: Id, kind: Kind, bound: Time)
    requires Ledger(q) && DueFrom(q, id, kind, bound) && q.running.Some?
    ensures var again := q.running.value.id == id && kind.Every?;
      DueFrom(EndOf(q, q.running.value, now), id, kind, if again then now + kind.interval else bound)
  {
    var e := q.running.value;
    var idle := q.(running := None);
    if e.id == id {
      forall x | x in q.timers || x in q.expired
        ensures x.id != id
      {
        if x.id == id {
          RunningIsAlone(q, x);
        }
      }
    }
    if e.kind.Every? && e.id !in q.cancelled {
      var next := if e.id == id then now + e.kind.interval else bound;
      ScheduleDueFrom(idle, now + e.kind.interval, e.id, e.kind, now, id, kind, next);
    }
  }

  lemma StepDueFrom(q: Timers, a: Action, id: Id, kind: Kind, bound: Time)
    requires Ledger(q) && Enabled(q, a) && DueFrom(q, id, kind, bound)
    ensures var again := a.End? && q.running.value.id == id && kind.Every?;
      DueFrom(Step(q, a), id, kind, if again then a.now + kind.interval else bound)
  {
    hide Ledger;
    match a {
      case RunAt(due, now) =>
        ScheduleDueFrom(q.(tokens := q.tokens + {q.nextId}, nextId := q.nextId + 1), due, q.nextId, OneShot, now, id, kind, bound);
      case RunEvery(interval, now) =>
        ScheduleDueFrom(q.(tokens := q.tokens + {q.nextId}, nextId := q.nextId + 1), now + interval, q.nextId, Every(interval), now, id, kind, bound);
      case Collect(now) =>
        assert forall e <- q.timers[DueBy(q.timers, now)..] :: e in q.timers;
        assert forall e <- q.timers[..DueBy(q.timers, now)] :: e in q.timers;
      case Begin =>
        assert forall e <- q.expired[1..] :: e in q.expired;
        assert q.expired[0] in q.expired;
      case End(now) => EndDueFrom(q, now, id, kind, bound);
      case _ =>
    }
  }

  lemma NewDueFrom(q: Timers, due: Time, kind: Kind, now: Time)
    requires Ledger(q)
    ensures DueFrom(NewTimer(q, due, kind, now), q.nextId, kind, due)
  {
    hide Ledger;
    FreshIdUnused(q);
    NoEntries(q);
    var named := q.(tokens := q.tokens + {q.nextId}, nextId := q.nextId + 1);
    ScheduleDueFrom(named, due, q.nextId, kind, now, q.nextId, kind, due);
  }

  lemma NoEntries(q: Timers)
    requires Ledger(q)
    ensures forall e | e in q.timers || e in q.expired :: e.id != q.nextId
  {
    assert q.nextId !in Pending(q);
    forall e | e in q.timers || e in q.expired
      ensures e.id != q.nextId
    {
      if e in q.timers {
        IdsMember(q.timers, e);
      } else {
        IdsMember(q.expired, e);
      }
    }
  }

  lemma {:induction false} RunDueFrom(q: Timers, actions: seq<Action>, r: Timers, id: Id, kind: Kind, t: Time, bound: Time)
    requires TimerSpec.Inv(q) && Runs(q, actions, r) && DueFrom(q, id, kind, bound)
    requires kind.Every? ==> bound == t + kind.interval
    ensures TimerSpec.Inv(r)
    ensures DueFrom(r, id, kind, if kind.Every? then LastEnd(q, actions, id, t) + kind.interval else bound)
    decreases |actions|
  {
    hide TimerSpec.Inv, DueFrom, Step;
    if actions != [] {
      var a := actions[0];
      var again := a.End? && q.running.value.id == id && kind.Every?;
      LedgerOf(q);
      StepKeepsInv(q, a);
      StepDueFrom(q, a, id, kind, bound);
      RunDueFrom(Step(q, a), actions[1..], r, id, kind, if a.End? && q.running.value.id == id then a.now else t,
                 if again then a.now + kind.interval else bound);
    }
  }

  // ---- one-shot timers ---------------------------------------------------------------------------------

  /** All firings of this timer are of a one-shot, and none was early. */
  ghost predicate FiredFrom(q: Timers, id: Id, due: Time)
  {
    forall f <- q.fired | f.entry.id == id :: f.entry.kind.OneShot? && f.at >= due
  }

  lemma StepFiredFrom(q: Timers, a: Action, id: Id, due: Time)
    requires TimerSpec.Inv(q) && Enabled(q, a) && DueFrom(q, id, OneShot, due) && FiredFrom(q, id, due)
    ensures FiredFrom(Step(q, a), id, due)
  {
    hide Ledger, OnceOnly, NotStranded, History;
    if a.Begin? {
      assert q.expired[0] in q.expired;
    }
  }

  lemma {:induction false} RunFiredFrom(q: Timers, actions: seq<Action>, r: Timers, id: Id, due: Time)
    requires TimerSpec.Inv(q) && Runs(q, actions, r) && DueFrom(q, id, OneShot, due) && FiredFrom(q, id, due)
    ensures TimerSpec.Inv(r) && FiredFrom(r, id, due)
    decreases |actions|
  {
    hide TimerSpec.Inv, DueFrom, Step, FiredFrom;
    if actions != [] {
      LedgerOf(q);
      StepFiredFrom(q, actions[0], id, due);
      StepDueFrom(q, actions[0], id, OneShot, due);
      StepKeepsInv(q, actions[0]);
      RunFiredFrom(Step(q, actions[0]), actions[1..], r, id, due);
    }
  }

  /** The id that `runAt` hands out, in any reachable state and whatever follows: no firing before the
      time the caller gave, and at most one. */
  lemma RunAtOnTime(before: seq<Action>, q: Timers, due: Time, now: Time, after: seq<Action>, r: Timers)
    requires Runs(INIT, before, q) && Enabled(q, RunAt(due, now)) && Runs(Step(q, RunAt(due, now)), after, r)
    ensures forall f <- r.fired | f.entry.id == q.nextId :: f.at >= due
    ensures forall i, j | 0 <= i < j < |r.fired| && r.fired[i].entry.id == q.nextId :: r.fired[j].entry.id != q.nextId
  {
    hide TimerSpec.Inv, DueFrom, NewTimer, FiredFrom;
    InitInv();
    RunKeepsInv(INIT, before, q);
    LedgerOf(q);
    NewDueFrom(q, due, OneShot, now);
    StepKeepsInv(q, RunAt(due, now));
    NeverFired(q, due, now);
    RunFiredFrom(Step(q, RunAt(due, now)), after, r, q.nextId, due);
    AtMostOnce(r, q.nextId, due);
  }

  lemma NeverFired(q: Timers, due: Time, now: Time)
    requires TimerSpec.Inv(q)
    ensures FiredFrom(NewTimer(q, due, OneShot, now), q.nextId, due)
  {
  }

  lemma AtMostOnce(q: Timers, id: Id, due: Time)
    requires TimerSpec.Inv(q) && FiredFrom(q, id, due)
    ensures forall f <- q.fired | f.entry.id == id :: f.at >= due
    ensures forall i, j | 0 <= i < j < |q.fired| && q.fired[i].entry.id == id :: q.fired[j].entry.id != id
  {
    hide Ledger, Ordered, NotStranded;
    forall i, j | 0 <= i < j < |q.fired| && q.fired[i].entry.id == id
      ensures q.fired[j].entry.id != id
    {
      assert q.fired[i] in q.fired;
    }
  }

  // ---- periodic timers ---------------------------------------------------------------------------------

  /** The id that `runEvery` hands out: whenever it starts, the clock of the batch is at least one interval
      past the call or, later, past the last return of its callback. */
  lemma RunEveryOnTime(before: seq<Action>, q: Timers, interval: Time, now: Time, after: seq<Action>, m: Timers)
    requires Runs(INIT, before, q) && Enabled(q, RunEvery(interval, now))
    requires Runs(Step(q, RunEvery(interval, now)), after, m) && Enabled(m, Begin) && m.expired[0].id == q.nextId
    ensures forall k | |m.fired| <= k < |Step(m, Begin).fired| ::
      var f := Step(m, Begin).fired[k];
      f.entry.id == q.nextId && f.at >= LastEnd(Step(q, RunEvery(interval, now)), after, q.nextId, now) + interval
  {
    hide TimerSpec.Inv, DueFrom, NewTimer;
    InitInv();
    RunKeepsInv(INIT, before, q);
    LedgerOf(q);
    NewDueFrom(q, now + interval, Every(interval), now);
    StepKeepsInv(q, RunEvery(interval, now));
    RunDueFrom(Step(q, RunEvery(interval, now)), after, m, q.nextId, Every(interval), now, now + interval);
    StartsDue(m, q.nextId, Every(interval), LastEnd(Step(q, RunEvery(interval, now)), after, q.nextId, now) + interval);
  }

  lemma StartsDue(q: Timers, id: Id, kind: Kind, bound: Time)
    requires TimerSpec.Inv(q) && DueFrom(q, id, kind, bound) && Enabled(q, Begin) && q.expired[0].id == id
    ensures q.now >= bound
  {
    hide Ledger, OnceOnly, NotStranded, History;
    assert q.expired[0] in q.expired;
  }

  // ---- the clock, and what a batch must do ------------------------------------------------------------

  lemma {:induction false} NowIsBatchClock(q: Timers, actions: seq<Action>, r: Timers)
    requires Runs(q, actions, r)
    ensures r.now == BatchClock(actions, q.now)
    decreases |actions|
  {
    if actions != [] {
      NowIsBatchClock(Step(q, actions[0]), actions[1..], r);
    }
  }

  /** Every firing is recorded with the clock its batch was collected at; a callback is started exactly if
      its timer was not cancelled, and nothing else starts one. */
  lemma FiresAtBatchClock(actions: seq<Action>, q: Timers, a: Action)
    requires Runs(INIT, actions, q) && Enabled(q, a)
    ensures a.Begin? && q.expired[0].id !in q.cancelled ==>
      && |Step(q, a).fired| == |q.fired| + 1 && q.fired <= Step(q, a).fired
      && Step(q, a).fired[|q.fired|].entry == q.expired[0]
      && Step(q, a).fired[|q.fired|].at == BatchClock(actions, 0)
    ensures !(a.Begin? && q.expired[0].id !in q.cancelled) ==> Step(q, a).fired == q.fired
  {
    NowIsBatchClock(INIT, actions, q);
  }

  /** Steps within a batch. */
  predicate Within(actions: seq<Action>)
  {
    forall a <- actions :: !a.Collect? && !a.Settle?
  }

  ghost predicate Started(fired: seq<Firing>, from: nat, e: Entry, at: Time)
  {
    exists k | from <= k < |fired| :: fired[k].entry == e && fired[k].at == at
  }

  /** The entry waits in the batch, or was started in it, or its timer was cancelled. */
  ghost predicate Seen(q: Timers, from: nat, e: Entry, at: Time)
  {
    from <= |q.fired| && q.now == at && (e in q.expired || Started(q.fired, from, e, at) || e.id in q.cancelled)
  }

  lemma StepSeen(q: Timers, a: Action, from: nat, e: Entry, at: Time)
    requires Enabled(q, a) && !a.Collect? && Seen(q, from, e, at)
    ensures Seen(Step(q, a), from, e, at)
  {
    var r := Step(q, a);
    if Started(q.fired, from, e, at) {
      var k :| from <= k < |q.fired| && q.fired[k].entry == e && q.fired[k].at == at;
      assert r.fired[k] == q.fired[k];
    } else if a.Begin? && e in q.expired {
      assert q.expired == [q.expired[0]] + q.expired[1..];
      if e == q.expired[0] && e.id !in q.cancelled {
        assert r.fired[|q.fired|].entry == e && r.fired[|q.fired|].at == at;
      }
    }
  }

  lemma {:induction false} RunSeen(q: Timers, actions: seq<Action>, r: Timers, from: nat, e: Entry, at: Time)
    requires Runs(q, actions, r) && Within(actions) && Seen(q, from, e, at)
    ensures Seen(r, from, e, at)
    decreases |actions|
  {
    hide Step, Seen;
    if actions != [] {
      StepSeen(q, actions[0], from, e, at);
      assert actions[0] in actions && forall a <- actions[1..] :: a in actions;
      RunSeen(Step(q, actions[0]), actions[1..], r, from, e, at);
    }
  }

  /** A batch leaves nothing due behind: every timer due by its clock is started in it, unless it is
      cancelled; and what it leaves in the queue at its start is due later. */
  lemma BatchStartsAllDue(before: seq<Action>, q: Timers, now: Time, inner: seq<Action>, m: Timers, end: Time, e: Entry)
    requires Runs(INIT, before, q) && Enabled(q, Collect(now))
    requires Runs(Step(q, Collect(now)), inner, m) && Within(inner) && Enabled(m, Settle(end))
    requires e in q.timers
    ensures e.due <= now ==> Started(m.fired, |q.fired|, e, now) || e.id in m.cancelled
    ensures e.due > now ==> e in Step(q, Collect(now)).timers
  {
    InitInv();
    RunKeepsInv(INIT, before, q);
    DueByFront(q.timers, now);
    var k := DueBy(q.timers, now);
    assert q.timers == q.timers[..k] + q.timers[k..];
    if e.due <= now {
      RunSeen(Step(q, Collect(now)), inner, m, |q.fired|, e, now);
    }
  }

  /** The clocks at which timerfd may have been set. */
  ghost predicate ClockOf(a: Action, x: Time)
  {
    match a
    case RunAt(_, now) => now == x
    case RunEvery(_, now) => now == x
    case End(now) => now == x
    case Settle(now) => now == x
    case _ => false
  }

  /** timerfd becomes readable at the due time it was set for, or 100 microseconds after it was set, if
      that is later. */
  ghost predicate SetBy(armed: Arming, x: Time)
  {
    armed.deadline == if armed.due < x + 100 then x + 100 else armed.due
  }

  lemma StepSets(q: Timers, a: Action)
    requires Enabled(q, a)
    ensures var r := Step(q, a);
      r.armed == q.armed || r.armed.None? || exists x :: ClockOf(a, x) && SetBy(r.armed.value, x)
  {
    var r := Step(q, a);
    if r.armed != q.armed && r.armed.Some? {
      match a {
        case RunAt(_, now) => assert ClockOf(a, now) && SetBy(r.armed.value, now);
        case RunEvery(_, now) => assert ClockOf(a, now) && SetBy(r.armed.value, now);
        case End(now) => assert ClockOf(a, now) && SetBy(r.armed.value, now);
        case Settle(now) => assert ClockOf(a, now) && SetBy(r.armed.value, now);
        case _ =>
      }
    }
  }

  ghost predicate SetDuring(actions: seq<Action>, armed: Arming)
  {
    exists i, x | 0 <= i < |actions| :: ClockOf(actions[i], x) && SetBy(armed, x)
  }

  lemma {:induction false} RunSets(q: Timers, actions: seq<Action>, r: Timers)
    requires Runs(q, actions, r)
    ensures r.armed == q.armed || r.armed.None? || SetDuring(actions, r.armed.value)
    decreases |actions|
  {
    hide Step, ClockOf, SetBy;
    if actions != [] {
      var m := Step(q, actions[0]);
      StepSets(q, actions[0]);
      RunSets(m, actions[1..], r);
      if r.armed.Some? && SetDuring(actions[1..], r.armed.value) {
        var i, x :| 0 <= i < |actions[1..]| && ClockOf(actions[1..][i], x) && SetBy(r.armed.value, x);
        assert actions[i + 1] == actions[1..][i];
      }
    }
  }

  /** Between batches, with timers waiting, timerfd becomes readable at the due time of the first, or 100
      microseconds after one of the clocks it was set at, if that is later. */
  lemma WakesInTime(actions: seq<Action>, q: Timers)
    requires Runs(INIT, actions, q) && !q.processing && q.timers != []
    ensures q.armed.Some? && q.armed.value.due == q.timers[0].due && SetDuring(actions, q.armed.value)
  {
    InitInv();
    RunKeepsInv(INIT, actions, q);
    RunSets(INIT, actions, q);
  }
}
