/** The timer part of the loop object (src/net/EventLoop.cpp), taking the steps of TimerSpec. */
module Timers {
  import opened TimerSpec

  /** What a callback may do to the timers while it runs. */
  datatype Call = CallRunAt(due: Time, now: Time) | CallRunEvery(interval: Time, now: Time) | CallCancel(id: Id)

  /** Around the i-th callback of a batch: cancellations by other threads before it starts, its own
      calls if it is not cancelled, and the clock when it returns. */
  datatype Turn = Turn(cancels: seq<Id>, calls: seq<Call>, end: Time)

  lemma {:induction false} RunsAppend(q: TimerSpec.Timers, first: seq<Action>, m: TimerSpec.Timers, second: seq<Action>, r: TimerSpec.Timers)
    requires Runs(q, first, m) && Runs(m, second, r)
    ensures Runs(q, first + second, r)
    decreases |first|
  {
    if first == [] {
      assert first + second == second;
    } else {
      assert (first + second)[1..] == first[1..] + second;
      RunsAppend(Step(q, first[0]), first[1..], m, second, r);
    }
  }

  lemma RunsSnoc(q: TimerSpec.Timers, actions: seq<Action>, m: TimerSpec.Timers, a: Action)
    requires Runs(q, actions, m) && Enabled(m, a)
    ensures Runs(q, actions + [a], Step(m, a))
  {
    assert [a][1..] == [];
    assert Runs(Step(m, a), [], Step(m, a));
    RunsAppend(q, actions, m, [a], Step(m, a));
  }

  /** The position `multimap::emplace` finds, walking from the front. */
  method Inserted(timers: seq<Entry>, e: Entry) returns (r: seq<Entry>)
    ensures r == Insert(timers, e) && r != []
  {
    var k := 0;
    assert timers[0..] == timers;
    while k < |timers| && timers[k].due <= e.due
      invariant k <= |timers|
      invariant Insert(timers, e) == timers[..k] + Insert(timers[k..], e)
    {
      ghost var behind := Insert(timers[k + 1..], e);
      assert timers[k..][1..] == timers[k + 1..];
      assert timers[..k] + ([timers[k]] + behind) == timers[..k + 1] + behind;
      k := k + 1;
    }
    r := timers[..k] + ([e] + timers[k..]);
  }

  /** Steps that neither open nor close a batch. */
  predicate Inner(a: Action)
  {
    !a.Collect? && !a.Settle?
  }

  lemma OneMoreDue(ts: seq<Entry>, k: nat, now: Time)
    requires k < |ts| && ts[k].due <= now
    ensures DueBy(ts[k..], now) == 1 + DueBy(ts[k + 1..], now)
    ensures ts[k..][1..] == ts[k + 1..] && ts[..k] + [ts[k]] == ts[..k + 1]
  {
    assert ts[k..][1..] == ts[k + 1..];
  }

  lemma NoMoreDue(ts: seq<Entry>, now: Time)
    requires ts == [] || ts[0].due > now
    ensures DueBy(ts, now) == 0
  {
  }

  class TimerQueue {
    var timers: seq<Entry>
    var expiredTimers: seq<Entry>
    /** How much of `expiredTimers` was started. */
    var started: nat
    var tokens: set<Id>
    /** The shared flags behind the tokens that were set to true. */
    var cancelled: set<Id>
    var nextTimerId: Id
    var nextStamp: nat
    var armed: Option<Arming>
    ghost var running: Option<Entry>
    ghost var processing: bool
    ghost var batchNow: Time
    ghost var batch: nat
    ghost var fired: seq<Firing>

    ghost function View(): TimerSpec.Timers
      requires started <= |expiredTimers|
      reads this
    {
      TimerSpec.Timers(timers, expiredTimers[started..], running, tokens, cancelled, nextTimerId, nextStamp,
        processing, batchNow, batch, fired, armed)
    }

    ghost predicate Valid()
      reads this
    {
      started <= |expiredTimers| && (!processing ==> expiredTimers == [] && running.None?)
    }

    constructor ()
      ensures Valid() && View() == INIT
    {
      timers, expiredTimers, started, tokens, cancelled := [], [], 0, {}, {};
      nextTimerId, nextStamp, armed, running := 1, 0, None, None;
      processing, batchNow, batch, fired := false, 0, 0, [];
    }

    method ResetTimerFd(due: Time, now: Time)
      modifies this`armed
      ensures armed == Some(Arm(due, now))
    {
      var microSec := due - now;
      if microSec < MIN_DELAY {
        microSec := MIN_DELAY;
      }
      armed := Some(Arming(due, now + microSec));
    }

    /** `timers_.emplace` and the test whether the new entry comes first. */
    method Emplace(due: Time, id: Id, kind: Kind, now: Time)
      requires Valid()
      modifies this`timers, this`nextStamp, this`armed
      ensures Valid() && View() == Schedule(old(View()), due, id, kind, now)
    {
      timers := Inserted(timers, Entry(due, nextStamp, id, kind));
      nextStamp := nextStamp + 1;
      if timers[0].due == due {
        ResetTimerFd(due, now);
      }
    }

    method NewTimer(due: Time, kind: Kind, now: Time) returns (id: Id)
      requires Valid()
      modifies this`nextTimerId, this`tokens, this`timers, this`nextStamp, this`armed
      ensures Valid() && View() == TimerSpec.NewTimer(old(View()), due, kind, now)
      ensures id == old(nextTimerId)
    {
      hide Schedule;
      ghost var q := View();
      id := nextTimerId;
      nextTimerId := nextTimerId + 1;
      tokens := tokens + {id};
      assert View() == q.(tokens := q.tokens + {q.nextId}, nextId := q.nextId + 1);
      Emplace(due, id, kind, now);
    }

    method RunAt(due: Time, now: Time) returns (id: Id)
      requires Valid() && Enabled(View(), Action.RunAt(due, now))
      modifies this`nextTimerId, this`tokens, this`timers, this`nextStamp, this`armed
      ensures Valid() && View() == Step(old(View()), Action.RunAt(due, now))
      ensures id == old(nextTimerId)
    {
      hide Schedule, TimerSpec.NewTimer;
      id := NewTimer(due, OneShot, now);
    }

    method RunEvery(interval: Time, now: Time) returns (id: Id)
      requires Valid() && Enabled(View(), Action.RunEvery(interval, now))
      modifies this`nextTimerId, this`tokens, this`timers, this`nextStamp, this`armed
      ensures Valid() && View() == Step(old(View()), Action.RunEvery(interval, now))
      ensures id == old(nextTimerId)
    {
      hide Schedule, TimerSpec.NewTimer;
      id := NewTimer(now + interval, Every(interval), now);
    }

    method CancelTimer(id: Id)
      requires Valid()
      modifies this`tokens, this`cancelled
      ensures Valid() && View() == Step(old(View()), Cancel(id))
    {
      if id in tokens {
        cancelled := cancelled + {id};
        tokens := tokens - {id};
      }
    }

    /** The first loop of `processTimers`. */
    method CollectExpired(now: Time)
      requires Valid() && !processing
      modifies this
      ensures Valid() && processing && View() == Step(old(View()), Collect(now))
      ensures started == 0 && running.None?
    {
      hide DueBy;
      ghost var ts := timers;
      started := 0;
      assert ts[0..] == ts;
      while timers != [] && timers[0].due <= now
        invariant |expiredTimers| <= |ts| && timers == ts[|expiredTimers|..] && expiredTimers == ts[..|expiredTimers|]
        invariant DueBy(ts, now) == |expiredTimers| + DueBy(timers, now)
        invariant started == 0 && running.None? && tokens == old(tokens) && cancelled == old(cancelled)
        invariant nextTimerId == old(nextTimerId) && nextStamp == old(nextStamp)
        invariant batch == old(batch) && fired == old(fired)
        decreases |timers|
      {
        OneMoreDue(ts, |expiredTimers|, now);
        expiredTimers := expiredTimers + [timers[0]];
        timers := timers[1..];
      }
      NoMoreDue(timers, now);
      assert expiredTimers[0..] == expiredTimers;
      armed := None;
      processing, batchNow, batch := true, now, batch + 1;
    }

    method Perform(call: Call) returns (ghost a: Action)
      requires Valid() && running.Some?
      modifies this
      ensures Valid() && running == old(running) && processing == old(processing)
      ensures expiredTimers == old(expiredTimers) && started == old(started)
      ensures Inner(a) && Enabled(old(View()), a) && View() == Step(old(View()), a)
    {
      hide Schedule, TimerSpec.NewTimer;
      match call {
        case CallRunAt(due, now) =>
          var _ := RunAt(due, now);
          a := Action.RunAt(due, now);
        case CallRunEvery(interval, now) =>
          var _ := RunEvery(interval, now);
          a := Action.RunEvery(interval, now);
        case CallCancel(id) =>
          CancelTimer(id);
          a := Cancel(id);
      }
    }

    /** The user callback: any calls back into the timers. */
    method Callback(calls: seq<Call>) returns (ghost trace: seq<Action>)
      requires Valid() && processing && running.Some?
      modifies this
      ensures Valid() && processing && running == old(running)
      ensures expiredTimers == old(expiredTimers) && started == old(started)
      ensures Runs(old(View()), trace, View()) && (forall a <- trace :: Inner(a))
    {
      ghost var q := View();
      trace := [];
      var i := 0;
      while i < |calls|
        invariant Valid() && processing && running == old(running)
        invariant expiredTimers == old(expiredTimers) && started == old(started)
        invariant Runs(q, trace, View()) && (forall a <- trace :: Inner(a))
      {
        ghost var m := View();
        ghost var a := Perform(calls[i]);
        RunsSnoc(q, trace, m, a);
        trace := trace + [a];
        i := i + 1;
      }
    }

    /** What the wrapper does after the callback. */
    method Wrapup(e: Entry, now: Time)
      requires Valid() && processing && running == Some(e)
      modifies this
      ensures Valid() && processing && running.None?
      ensures expiredTimers == old(expiredTimers) && started == old(started)
      ensures View() == Step(old(View()), End(now))
    {
      running := None;
      match e.kind {
        case OneShot =>
          tokens := tokens - {e.id};
        case Every(interval) =>
          if e.id !in cancelled {
            Emplace(now + interval, e.id, e.kind, now);
          }
      }
    }

    /** The token is read once, before the user callback. */
    method Start() returns (e: Entry, live: bool)
      requires Valid() && processing && running.None? && started < |expiredTimers|
      modifies this`started, this`running, this`fired
      ensures Valid() && running == Some(e) && started == old(started) + 1
      ensures View() == Step(old(View()), Begin)
    {
      e := expiredTimers[started];
      ghost var rest := expiredTimers[started..];
      assert rest[0] == e && rest[1..] == expiredTimers[started + 1..];
      live := e.id !in cancelled;
      started := started + 1;
      running := Some(e);
      fired := if live then fired + [Firing(e, batchNow, batch)] else fired;
    }

    method CancelAll(ids: seq<Id>) returns (ghost trace: seq<Action>)
      requires Valid()
      modifies this`tokens, this`cancelled
      ensures Valid() && Runs(old(View()), trace, View()) && (forall a <- trace :: Inner(a))
    {
      ghost var q := View();
      trace := [];
      var i := 0;
      while i < |ids|
        invariant Valid() && Runs(q, trace, View()) && (forall a <- trace :: Inner(a))
      {
        RunsSnoc(q, trace, View(), Cancel(ids[i]));
        trace := trace + [Cancel(ids[i])];
        CancelTimer(ids[i]);
        i := i + 1;
      }
    }

    /** One wrapped callback of the batch. */
    method Invoke(turn: Turn) returns (ghost trace: seq<Action>)
      requires Valid() && processing && running.None? && started < |expiredTimers|
      modifies this
      ensures Valid() && processing && running.None?
      ensures started == old(started) + 1 && expiredTimers == old(expiredTimers)
      ensures Runs(old(View()), trace, View()) && (forall a <- trace :: Inner(a))
    {
      ghost var q := View();
      trace := CancelAll(turn.cancels);
      RunsSnoc(q, trace, View(), Begin);
      trace := trace + [Begin];
      var e, live := Start();
      if live {
        ghost var m := View();
        ghost var t := Callback(turn.calls);
        RunsAppend(q, trace, m, t, View());
        trace := trace + t;
      }
      RunsSnoc(q, trace, View(), End(turn.end));
      trace := trace + [End(turn.end)];
      Wrapup(e, turn.end);
    }

    /** The second loop of `processTimers`. */
    method InvokeAll(turns: nat -> Turn) returns (ghost trace: seq<Action>)
      requires Valid() && processing && running.None?
      modifies this
      ensures Valid() && processing && running.None? && started == |expiredTimers|
      ensures Runs(old(View()), trace, View()) && (forall a <- trace :: Inner(a))
    {
      hide Step, Enabled;
      ghost var q := View();
      trace := [];
      var i := 0;
      while started < |expiredTimers|
        invariant Valid() && processing && running.None?
        invariant Runs(q, trace, View()) && (forall a <- trace :: Inner(a))
        decreases |expiredTimers| - started
      {
        ghost var m := View();
        ghost var t := Invoke(turns(i));
        RunsAppend(q, trace, m, t, View());
        trace := trace + t;
        i := i + 1;
      }
    }

    method SettleBatch(end: Time)
      requires Valid() && processing && running.None? && started == |expiredTimers|
      modifies this
      ensures Valid() && !processing
      ensures Enabled(old(View()), Settle(end)) && View() == Step(old(View()), Settle(end))
    {
      expiredTimers, started := [], 0;
      processing := false;
      if timers != [] {
        ResetTimerFd(timers[0].due, end);
      }
    }

    /** `processTimers`, whatever its callbacks and the other threads do meanwhile: one batch of the
        machine, collected at `now`, started to the last entry, and settled. */
    method ProcessTimers(now: Time, turns: nat -> Turn, end: Time) returns (ghost inner: seq<Action>)
      requires Valid() && !processing
      modifies this
      ensures Valid() && !processing && (forall a <- inner :: Inner(a))
      ensures Runs(old(View()), [Collect(now)] + inner + [Settle(end)], View())
    {
      hide Step;
      ghost var q := View();
      assert Runs(q, [], q);
      RunsSnoc(q, [], q, Collect(now));
      assert [] + [Collect(now)] == [Collect(now)];
      CollectExpired(now);
      ghost var m := View();
      inner := InvokeAll(turns);
      RunsAppend(q, [Collect(now)], m, inner, View());
      ghost var s := View();
      SettleBatch(end);
      RunsSnoc(q, [Collect(now)] + inner, s, Settle(end));
    }
  }
}
