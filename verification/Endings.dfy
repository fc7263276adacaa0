/**
 * What an execution announces when it ends is true and stays true: the event
 * matches the status, the reported key is that of a failed action, and a calling
 * action hears of success exactly when the called run completed.
 */
module Endings {
  import opened Base
  import opened Templates
  import opened Control
  import opened Progress
  import opened Store
  import opened RowInvariants
  import opened Engine
  import opened AdvanceLoop
  import opened Issues
  import opened Invariants
  import opened Transactions
  import opened Evolution
  import opened Network

  predicate FailedWith(x: Exec, key: string) {
    x.status.FAILED? && exists a :: 0 <= a < |x.rows| && x.rows[a].status.Failed? && x.rows[a].key == key
  }

  /** The message agrees with the tables. */
  predicate Told(execs: seq<Exec>, m: Message) {
    match m
    case ExecutionCompleted(e) => e < |execs| && execs[e].status.COMPLETED?
    case ExecutionFailed(e, key) => e < |execs| && FailedWith(execs[e], key)
    case ActionResult(e, a, outcome) => exists c :: 0 <= c < |execs| && Answers(execs[c], Caller(e, a), outcome)
    case _ => true
  }

  predicate Answers(x: Exec, caller: Caller, outcome: Outcome) {
    x.caller == Some(caller) && x.status == if outcome.OkResult? then COMPLETED else FAILED
  }

  predicate AllTold(db: Db) { forall k :: 0 <= k < |db.log| ==> Told(db.execs, db.log[k]) }

  /** What was logged since is told. */
  predicate NewTold(log: seq<Message>, db': Db) {
    log <= db'.log && forall k :: |log| <= k < |db'.log| ==> Told(db'.execs, db'.log[k])
  }

  predicate NoEnds(log: seq<Message>, log': seq<Message>) {
    log <= log' && forall k :: |log| <= k < |log'| ==> log'[k].RoutineTriggered? || log'[k].ActionRequested?
  }

  lemma StillTold(db: Db, db': Db, m: Message)
    requires Evolves(db, db') && Told(db.execs, m)
    ensures Told(db'.execs, m)
  {
    match m
    case ExecutionCompleted(e) => assert ExecEvolves(db.execs[e], db'.execs[e]);
    case ExecutionFailed(e, key) =>
      assert ExecEvolves(db.execs[e], db'.execs[e]);
      var a :| 0 <= a < |db.execs[e].rows| && db.execs[e].rows[a].status.Failed? && db.execs[e].rows[a].key == key;
      assert RowEvolves(db.execs[e].rows[a], db'.execs[e].rows[a]);
    case ActionResult(e, a, outcome) =>
      var c :| 0 <= c < |db.execs| && Answers(db.execs[c], Caller(e, a), outcome);
      assert ExecEvolves(db.execs[c], db'.execs[c]);
      assert Answers(db'.execs[c], Caller(e, a), outcome);
    case _ =>
  }

  lemma ToldAfter(db: Db, db': Db)
    requires AllTold(db) && Evolves(db, db') && NewTold(db.log, db')
    ensures AllTold(db')
  {
    hide Evolves, Told;
    assert db.log <= db'.log;
    forall k | 0 <= k < |db'.log| ensures Told(db'.execs, db'.log[k]) {
      if k < |db.log| {
        assert db'.log[k] == db.log[k];
        StillTold(db, db', db.log[k]);
      }
    }
  }

  lemma ToldThrough(log: seq<Message>, log1: seq<Message>, db': Db)
    requires NoEnds(log, log1) && NewTold(log1, db')
    ensures NewTold(log, db')
  {
    hide Answers, FailedWith;
    assert forall k :: |log| <= k < |log1| ==> db'.log[k] == log1[k];
  }

  lemma ProcessOneEndsNothing(env: Env, t: Tx, i: nat)
    requires t.Bounded() && i < |t.mem|
    ensures NoEnds(t.db.log, ProcessOne(env, t, i).0.db.log)
  {
    hide Resolve, Scope, Evaluate, TargetOf, RunIfHolds;
  }

  lemma {:induction false} BatchEndsNothing(env: Env, t: Tx, batch: seq<nat>)
    requires t.Bounded() && forall k :: 0 <= k < |batch| ==> batch[k] < |t.mem|
    ensures NoEnds(t.db.log, RunBatch(env, t, batch).0.db.log)
  {
    if batch != [] {
      var t1 := RunBatch(env, t, batch[..|batch| - 1]).0;
      BatchEndsNothing(env, t, batch[..|batch| - 1]);
      ProcessOneEndsNothing(env, t1, batch[|batch| - 1]);
    }
  }

  lemma {:induction false} SendsEndNothing(t: Tx, sends: seq<Send>)
    requires t.Bounded() && forall k :: 0 <= k < |sends| ==> sends[k].i < |t.mem|
    ensures NoEnds(t.db.log, SendAll(t, sends).db.log)
  {
    if sends != [] { SendsEndNothing(t, sends[..|sends| - 1]); }
  }

  lemma AfterSendsEndsNothing(t: Tx, sends: seq<Send>)
    requires t.Bounded() && forall k :: 0 <= k < |sends| ==> sends[k].i < |t.mem|
    ensures NoEnds(t.db.log, AfterSends(t, sends).db.log)
  {
    hide SendAll;
    SendsEndNothing(t, sends);
  }

  lemma CompletionTold(env: Env, t: Tx)
    requires t.Bounded()
    ensures NewTold(t.db.log, CompleteExecution(env, t).db)
  {
    hide SubRoutineOutput;
    var db' := CompleteExecution(env, t).db;
    if t.db.execs[t.e].caller.Some? {
      var c := t.db.execs[t.e].caller.value;
      assert Answers(db'.execs[t.e], c, OkResult(SubRoutineOutput(env, t.e, t.mem)));
    }
  }

  /** The key reported with a failure is that of a row that failed, in the table as in memory. */
  lemma FailureTold(t: Tx)
    requires TxOk(t) && DecideNext(t.mem).Fail?
    ensures NewTold(t.db.log, FailExecution(t, DecideNext(t.mem).failedKey).db)
  {
    hide WfRows, LoopOrder, StepSorted;
    var f := FirstFailed(t.mem);
    var id, key := t.mem[f].id, t.mem[f].key;
    MirrorRow(t.mem, t.Rows(), f);
    var db' := FailExecution(t, key).db;
    assert SkipPendingRows(t.Rows())[id] == t.Rows()[id];
    assert db'.execs[t.e].rows[id].status.Failed? && db'.execs[t.e].rows[id].key == key;
    assert FailedWith(db'.execs[t.e], key);
    if t.db.execs[t.e].caller.Some? {
      assert Answers(db'.execs[t.e], t.db.execs[t.e].caller.value, FailedResult);
    }
  }

  lemma NothingTold(log: seq<Message>, db': Db)
    requires NoEnds(log, db'.log)
    ensures NewTold(log, db')
  {
    assert forall k :: |log| <= k < |db'.log| ==> Told(db'.execs, db'.log[k]);
  }

  lemma {:induction false} AdvanceTells(env: Env, t: Tx)
    requires TxOk(t)
    ensures NewTold(t.db.log, Advance(env, t).db)
    decreases Measure(t.mem)
  {
    hide Told, WfRows, LoopOrder, Mirror, StepSorted, MemAfter, SendsFit, DecideNext, RunBatch, AfterSends;
    var d := DecideNext(t.mem);
    if d.Dispatch? {
      var batch := BatchOf(t.mem, d.keys);
      var (t1, sends) := RunBatch(env, t, batch);
      AdvanceDispatches(env, t);
      TxBatchBounded(t, batch);
      BatchEndsNothing(env, t, batch);
      if BatchFailed(t1.mem, batch) {
        AdvanceTells(env, t1);
        ToldThrough(t.db.log, t1.db.log, Advance(env, t).db);
      } else {
        BatchProgress(env, t);
        TxBatchBounded(t1, batch);
        AfterSendsEndsNothing(t1, sends);
        var t2 := AfterSends(t1, sends);
        if sends == [] { AdvanceTells(env, t2); } else { NothingTold(t2.db.log, t2.db); }
        ToldThrough(t1.db.log, t2.db.log, Advance(env, t).db);
        ToldThrough(t.db.log, t1.db.log, Advance(env, t).db);
      }
    } else {
      EndTells(env, t);
    }
  }

  lemma TxBatchBounded(t: Tx, batch: seq<nat>)
    requires TxOk(t)
    ensures t.Bounded()
  {
  }

  lemma EndTells(env: Env, t: Tx)
    requires TxOk(t) && !DecideNext(t.mem).Dispatch?
    ensures NewTold(t.db.log, Advance(env, t).db)
  {
    match DecideNext(t.mem)
    case Complete => CompletionTold(env, t);
    case Fail(key) => FailureTold(t);
    case Wait => NothingTold(t.db.log, WaitForResults(env, t).db);
  }

  lemma StartTells(env: Env, db: Db, e: nat, now: nat)
    requires LayoutOk(db)
    ensures NewTold(db.log, Start(env, db, e, now))
  {
    hide Told, Advance;
    if e < |db.execs| && db.execs[e].status.PENDING? {
      var db1 := SetStatus(db, e, RUNNING, now);
      LockOk(db1, e, now);
      AdvanceTells(env, Lock(db1, e, now));
    }
  }

  lemma ResultTells(env: Env, db: Db, e: nat, id: nat, report: Report, now: nat)
    requires LayoutOk(db)
    ensures NewTold(db.log, ApplyResult(env, db, e, id, report, now))
  {
    hide Told, Advance, Load, WfRows, LoopOrder, Mirror, StepSorted, Updated;
    if e < |db.execs| {
      var t := Lock(db, e, now);
      LockOk(db, e, now);
      var found := FindId(t.mem, id);
      if found.Some? && !t.mem[found.value].status.Terminal() {
        var t1 := Record(t, found.value, report);
        RecordUpdates(t, found.value, report);
        if !db.execs[e].status.Terminal() { AdvanceTells(env, t1); }
      }
    }
  }

  lemma EventTells(env: Env, g: System, ev: Event)
    requires Inv(g) && Enabled(g, ev) && LayoutOk(g.db)
    ensures NewTold(g.db.log, After(env, g, ev).db)
  {
    hide Told, Start, ApplyResult, Inv;
    match ev
    case TriggerRun(id, kind, slot, key, payload) => NothingTold(g.db.log, After(env, g, ev).db);
    case StartRun(c, _, now) => StartTells(env, g.db, c.payload.message.exec, now);
    case TakeResult(c, _, now) =>
      var (e, a) := TargetOfResult(c.payload);
      ResultTells(env, g.db, e, a, ReportOf(c.payload), now);
    case _ =>
  }
}
