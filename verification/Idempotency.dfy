/**
 * Triggering is idempotent: over every run a routine has at most one execution per
 * idempotency key and per schedule slot, and asking again with a key answers with
 * the execution the first request created.
 */
module Idempotency {
  import opened Base
  import opened Templates
  import opened Control
  import opened Progress
  import opened Store
  import opened Engine
  import opened AdvanceLoop
  import opened Issues
  import opened Invariants
  import opened Transactions
  import opened Evolution
  import opened Network

  predicate SameRequest(x: Exec, y: Exec) {
    x.routineId == y.routineId &&
    ((x.idempotencyKey.Some? && x.idempotencyKey == y.idempotencyKey) || (x.scheduledFor.Some? && x.scheduledFor == y.scheduledFor))
  }

  predicate TriggersUnique(execs: seq<Exec>) { forall c, d :: 0 <= c < d < |execs| ==> !SameRequest(execs[c], execs[d]) }

  /** Executions keep what they were triggered by; any new ones were called, not triggered. */
  predicate NoNewTriggers(db: Db, db': Db) {
    |db.execs| <= |db'.execs| &&
    (forall e :: 0 <= e < |db.execs| ==> SameTrigger(db.execs[e], db'.execs[e])) &&
    (forall e :: |db.execs| <= e < |db'.execs| ==> db'.execs[e].idempotencyKey.None? && db'.execs[e].scheduledFor.None?)
  }

  predicate SameTrigger(x: Exec, y: Exec) { y.routineId == x.routineId && y.idempotencyKey == x.idempotencyKey && y.scheduledFor == x.scheduledFor }

  lemma NoneThenNone(a: Db, b: Db, c: Db)
    requires NoNewTriggers(a, b) && NoNewTriggers(b, c)
    ensures NoNewTriggers(a, c)
  {
    assert forall e :: 0 <= e < |a.execs| ==> SameTrigger(a.execs[e], b.execs[e]);
    assert forall e :: 0 <= e < |b.execs| ==> SameTrigger(b.execs[e], c.execs[e]);
  }

  lemma NoNewKeepsUnique(db: Db, db': Db)
    requires TriggersUnique(db.execs) && NoNewTriggers(db, db')
    ensures TriggersUnique(db'.execs)
  {
    forall c, d | 0 <= c < d < |db'.execs| ensures !SameRequest(db'.execs[c], db'.execs[d]) {
      if d < |db.execs| {
        assert SameTrigger(db.execs[c], db'.execs[c]) && SameTrigger(db.execs[d], db'.execs[d]);
        assert !SameRequest(db.execs[c], db.execs[d]);
      }
    }
  }

  lemma ProcessOneTriggersNone(env: Env, t: Tx, i: nat)
    requires t.Bounded() && i < |t.mem|
    ensures NoNewTriggers(t.db, ProcessOne(env, t, i).0.db)
  {
    hide Skip, FailRow, Expand, Call, Script, Resolve, Scope, Evaluate, TargetOf, RunIfHolds, NoNewTriggers;
    Unchanged(t.db);
    RowTriggersNone(env, t, i);
    forall items { LoopTriggersNone(t, i, items); }
    forall target, params { CallTriggersNone(t, i, target, params); }
    forall params { ScriptTriggersNone(env, t, i, params); }
  }

  lemma RowTriggersNone(env: Env, t: Tx, i: nat)
    requires t.Bounded() && i < |t.mem|
    ensures NoNewTriggers(t.db, Skip(t, i).db) && NoNewTriggers(t.db, FailRow(t, i).db)
  {
  }

  lemma LoopTriggersNone(t: Tx, i: nat, items: seq<Json>)
    requires t.Bounded() && i < |t.mem|
    ensures NoNewTriggers(t.db, Expand(t, i, items).db)
  {
  }

  lemma CallTriggersNone(t: Tx, i: nat, target: Routine, params: Json)
    requires t.Bounded() && i < |t.mem|
    ensures NoNewTriggers(t.db, Call(t, i, target, params).db)
  {
  }

  lemma ScriptTriggersNone(env: Env, t: Tx, i: nat, params: Json)
    requires t.Bounded() && i < |t.mem|
    ensures NoNewTriggers(t.db, Script(env, t, i, params).db)
  {
    hide Evaluate;
  }

  lemma {:induction false} BatchTriggersNone(env: Env, t: Tx, batch: seq<nat>)
    requires t.Bounded() && forall k :: 0 <= k < |batch| ==> batch[k] < |t.mem|
    ensures NoNewTriggers(t.db, RunBatch(env, t, batch).0.db)
  {
    hide NoNewTriggers, ProcessOne;
    if batch == [] { Unchanged(t.db); } else {
      var t1 := RunBatch(env, t, batch[..|batch| - 1]).0;
      BatchTriggersNone(env, t, batch[..|batch| - 1]);
      ProcessOneTriggersNone(env, t1, batch[|batch| - 1]);
      NoneThenNone(t.db, t1.db, RunBatch(env, t, batch).0.db);
    }
  }

  lemma Unchanged(db: Db)
    ensures NoNewTriggers(db, db)
  {
  }

  lemma {:induction false} SendAllTriggersNone(t: Tx, sends: seq<Send>)
    requires t.Bounded() && forall k :: 0 <= k < |sends| ==> sends[k].i < |t.mem|
    ensures NoNewTriggers(t.db, SendAll(t, sends).db)
  {
    if sends != [] {
      var t1 := SendAll(t, sends[..|sends| - 1]);
      SendAllTriggersNone(t, sends[..|sends| - 1]);
      assert NoNewTriggers(t1.db, SendAll(t, sends).db);
      NoneThenNone(t.db, t1.db, SendAll(t, sends).db);
    }
  }

  lemma AfterSendsTriggersNone(t: Tx, sends: seq<Send>)
    requires t.Bounded() && forall k :: 0 <= k < |sends| ==> sends[k].i < |t.mem|
    ensures NoNewTriggers(t.db, AfterSends(t, sends).db)
  {
    SendAllTriggersNone(t, sends);
    assert NoNewTriggers(SendAll(t, sends).db, AfterSends(t, sends).db);
  }

  lemma EndsTriggerNone(env: Env, t: Tx, key: string)
    requires t.Bounded()
    ensures NoNewTriggers(t.db, CompleteExecution(env, t).db) && NoNewTriggers(t.db, FailExecution(t, key).db) && NoNewTriggers(t.db, WaitForResults(env, t).db)
  {
  }

  lemma {:induction false} AdvanceTriggersNone(env: Env, t: Tx)
    requires TxOk(t)
    ensures NoNewTriggers(t.db, Advance(env, t).db)
    decreases Measure(t.mem)
  {
    hide TxOk, NoNewTriggers, RunBatch, BatchOf, BatchFailed, AfterSends, CompleteExecution, FailExecution, WaitForResults;
    if DecideNext(t.mem).Dispatch? {
      AdvanceDispatches(env, t);
      assert t.Bounded() by { TxBounded(t); }
      var batch := BatchOf(t.mem, DecideNext(t.mem).keys);
      var (t1, sends) := RunBatch(env, t, batch);
      BatchTriggersNone(env, t, batch);
      if BatchFailed(t1.mem, batch) {
        AdvanceTriggersNone(env, t1);
        NoneThenNone(t.db, t1.db, Advance(env, t).db);
      } else {
        var t2 := AfterSends(t1, sends);
        AfterSendsTriggersNone(t1, sends);
        NoneThenNone(t.db, t1.db, t2.db);
        if sends == [] {
          AdvanceTriggersNone(env, t2);
          NoneThenNone(t.db, t2.db, Advance(env, t).db);
        }
      }
    } else {
      assert t.Bounded() by { TxBounded(t); }
      EndsTriggerNone(env, t, if DecideNext(t.mem).Fail? then DecideNext(t.mem).failedKey else "");
    }
  }

  lemma TxBounded(t: Tx)
    requires TxOk(t)
    ensures t.Bounded()
  {
  }

  lemma StartTriggersNone(env: Env, db: Db, e: nat, now: nat)
    requires LayoutOk(db)
    ensures NoNewTriggers(db, Start(env, db, e, now))
  {
    hide Advance;
    if e < |db.execs| && db.execs[e].status.PENDING? {
      var db1 := SetStatus(db, e, RUNNING, now);
      LockOk(db1, e, now);
      AdvanceTriggersNone(env, Lock(db1, e, now));
      NoneThenNone(db, db1, Start(env, db, e, now));
    }
  }

  lemma RecordTriggersNone(t: Tx, i: nat, report: Report)
    requires t.Bounded() && i < |t.mem|
    ensures NoNewTriggers(t.db, Record(t, i, report).db)
  {
  }

  lemma ApplyResultTriggersNone(env: Env, db: Db, e: nat, id: nat, report: Report, now: nat)
    requires LayoutOk(db)
    ensures NoNewTriggers(db, ApplyResult(env, db, e, id, report, now))
  {
    hide Advance, NoNewTriggers, Record, LayoutOk;
    Unchanged(db);
    if e < |db.execs| {
      var t := Lock(db, e, now);
      LockOk(db, e, now);
      var found := FindId(t.mem, id);
      if found.Some? && !t.mem[found.value].status.Terminal() {
        RecordUpdates(t, found.value, report);
        RecordTriggersNone(t, found.value, report);
        var t1 := Record(t, found.value, report);
        if !t.loaded.Terminal() {
          AdvanceTriggersNone(env, t1);
          NoneThenNone(db, t1.db, Advance(env, t1).db);
        }
      }
    }
  }

  lemma SlotOfTrigger(trigger: Trigger, routine: Routine)
    ensures NewExec(routine, trigger).routineId == routine.id && NewExec(routine, trigger).idempotencyKey == trigger.idempotencyKey &&
            NewExec(routine, trigger).scheduledFor == trigger.scheduledFor
  {
  }

  lemma CreationKeepsUnique(db: Db, routine: Routine, trigger: Trigger)
    requires TriggersUnique(db.execs)
    ensures TriggersUnique(CreateExecution(db, routine, trigger).0.execs)
  {
    var (db', c) := CreateExecution(db, routine, trigger);
    if c.Created? {
      forall e | 0 <= e < |db.execs| ensures !SameRequest(db.execs[e], NewExec(routine, trigger)) {}
    }
  }

  lemma EventKeepsUnique(env: Env, g: System, ev: Event)
    requires Enabled(g, ev) && LayoutOk(g.db) && TriggersUnique(g.db.execs)
    ensures TriggersUnique(After(env, g, ev).db.execs)
  {
    hide TriggersUnique, NoNewTriggers, Start, ApplyResult, LayoutOk;
    match ev
    case TriggerRun(id, kind, slot, key, payload) => CreationKeepsUnique(g.db, g.db.routines[id], Engine.Trigger(kind, slot, key, payload, None, 0));
    case StartRun(c, ack, now) =>
      StartTriggersNone(env, g.db, c.payload.message.exec, now);
      NoNewKeepsUnique(g.db, After(env, g, ev).db);
    case TakeResult(c, ack, now) =>
      var (e, a) := TargetOfResult(c.payload);
      ApplyResultTriggersNone(env, g.db, e, a, ReportOf(c.payload), now);
      NoNewKeepsUnique(g.db, After(env, g, ev).db);
    case Sweep(now) =>
      SweepTriggersNone(g.db, now, env.waitingAfter);
      NoNewKeepsUnique(g.db, After(env, g, ev).db);
    case _ =>
  }

  lemma SweepTriggersNone(db: Db, now: nat, waitingAfter: nat)
    ensures NoNewTriggers(db, MarkStale(db, now, waitingAfter))
  {
  }

  /** At most one execution of a routine per idempotency key, and at most one per schedule slot, in every run. */
  lemma {:induction false} RunsTriggerOnce(env: Env, states: seq<System>, events: seq<Event>, k: nat)
    requires IsRun(env, states, events) && k < |states|
    ensures TriggersUnique(states[k].db.execs)
  {
    hide After, Enabled, LayoutOk;
    if k > 0 {
      RunsTriggerOnce(env, states, events, k - 1);
      EventKeepsUnique(env, states[k - 1], events[k - 1]);
    }
  }

  lemma KeyStays(db: Db, later: Db, e: nat, routineId: string, key: string)
    requires Evolves(db, later) && e < |db.execs| && db.execs[e].routineId == routineId && db.execs[e].idempotencyKey == Some(key)
    requires TriggersUnique(later.execs)
    ensures FindByKey(later.execs, routineId, key) == Some(e)
  {
    assert ExecEvolves(db.execs[e], later.execs[e]);
    var found := FindByKey(later.execs, routineId, key);
    assert later.execs[e].routineId == routineId && later.execs[e].idempotencyKey == Some(key) by { HeaderKeeps(db.execs[e], later.execs[e]); }
    assert forall c, d :: 0 <= c < d < |later.execs| ==> !SameRequest(later.execs[c], later.execs[d]);
  }

  lemma HeaderKeeps(x: Exec, y: Exec)
    requires SameHeader(x, y)
    ensures SameTrigger(x, y)
  {
    assert x.(status := PENDING, startedAt := None, rows := []).routineId == y.(status := PENDING, startedAt := None, rows := []).routineId;
    assert x.(status := PENDING, startedAt := None, rows := []).idempotencyKey == y.(status := PENDING, startedAt := None, rows := []).idempotencyKey;
    assert x.(status := PENDING, startedAt := None, rows := []).scheduledFor == y.(status := PENDING, startedAt := None, rows := []).scheduledFor;
  }

  lemma CreatedHasKey(db: Db, routine: Routine, trigger: Trigger, key: string)
    requires trigger.idempotencyKey == Some(key) && key != "" && !CreateExecution(db, routine, trigger).1.Refused?
    ensures var (db1, c) := CreateExecution(db, routine, trigger);
            c.exec < |db1.execs| && db1.execs[c.exec].routineId == routine.id && db1.execs[c.exec].idempotencyKey == Some(key)
  {
  }

  /** Whenever a key is used again, even long after, the answer is the execution of the first request and nothing is created. */
  lemma SameKeySameExecution(db: Db, routine: Routine, trigger: Trigger, key: string, later: Db, again: Trigger)
    requires trigger.idempotencyKey == Some(key) == again.idempotencyKey && key != "" && !CreateExecution(db, routine, trigger).1.Refused?
    requires Evolves(CreateExecution(db, routine, trigger).0, later) && TriggersUnique(later.execs)
    ensures CreateExecution(later, routine, again) == (later, Existing(CreateExecution(db, routine, trigger).1.exec))
  {
    hide Evolves, TriggersUnique;
    CreatedHasKey(db, routine, trigger, key);
    var (db1, c) := CreateExecution(db, routine, trigger);
    KeyStays(db1, later, c.exec, routine.id, key);
  }
}
