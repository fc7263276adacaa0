/**
 * How the database changes over time: nothing disappears, terminal statuses and
 * the outputs recorded with them never change, and the outbox log only grows. From
 * this and the accounting of Issues follows that everything happens at most once.
 */
module Evolution {
  import opened Base
  import opened Templates
  import opened Control
  import opened Progress
  import opened Store
  import opened RowInvariants
  import opened Engine
  import opened AdvanceLoop
  import opened Issues
  import opened Invariants
  import opened Transactions

  predicate RowEvolves(r: Row, r': Row) {
    StaticSame(r, r') && (r.status.Terminal() ==> r'.status == r.status && r'.output == r.output) &&
    (!r.status.Pending? ==> !r'.status.Pending?)
  }

  predicate RowsEvolve(rows: seq<Row>, rows': seq<Row>) {
    |rows| <= |rows'| && forall a :: 0 <= a < |rows| ==> RowEvolves(rows[a], rows'[a])
  }

  predicate ExecEvolves(x: Exec, x': Exec) {
    SameHeader(x, x') && (x.status.Terminal() ==> x'.status == x.status) && (!x.status.PENDING? ==> !x'.status.PENDING?) &&
    RowsEvolve(x.rows, x'.rows)
  }

  predicate Evolves(db: Db, db': Db) {
    |db.execs| <= |db'.execs| && (forall e :: 0 <= e < |db.execs| ==> ExecEvolves(db.execs[e], db'.execs[e])) &&
    db.log <= db'.log
  }

  lemma EvolvesTransitively(a: Db, b: Db, c: Db)
    requires Evolves(a, b) && Evolves(b, c)
    ensures Evolves(a, c)
  {
    forall e | 0 <= e < |a.execs| ensures ExecEvolves(a.execs[e], c.execs[e]) {
      assert ExecEvolves(a.execs[e], b.execs[e]) && ExecEvolves(b.execs[e], c.execs[e]);
      forall i | 0 <= i < |a.execs[e].rows| ensures RowEvolves(a.execs[e].rows[i], c.execs[e].rows[i]) {
        assert RowEvolves(a.execs[e].rows[i], b.execs[e].rows[i]) && RowEvolves(b.execs[e].rows[i], c.execs[e].rows[i]);
      }
    }
  }

  /** One execution moves on, executions and messages may be added. */
  lemma OneEvolves(db: Db, db': Db, e: nat)
    requires e < |db.execs| <= |db'.execs| && db.log <= db'.log
    requires forall f :: 0 <= f < |db.execs| && f != e ==> db'.execs[f] == db.execs[f]
    requires ExecEvolves(db.execs[e], db'.execs[e])
    ensures Evolves(db, db')
  {
  }

  lemma UpdateEvolves(t: Tx, i: nat)
    requires TxOk(t) && i < |t.mem| && t.mem[i].status.Pending?
    ensures Evolves(t.db, Skip(t, i).db) && Evolves(t.db, FailRow(t, i).db)
  {
    hide WfRows, LoopOrder, StepSorted;
    assert SameButTimes(t.mem[i], t.Rows()[t.mem[i].id]);
    OneEvolves(t.db, Skip(t, i).db, t.e);
    OneEvolves(t.db, FailRow(t, i).db, t.e);
  }

  lemma ScriptEvolves(env: Env, t: Tx, i: nat, params: Json)
    requires TxOk(t) && i < |t.mem| && t.mem[i].status.Pending?
    ensures Evolves(t.db, Script(env, t, i, params).db)
  {
    hide WfRows, LoopOrder, StepSorted;
    assert SameButTimes(t.mem[i], t.Rows()[t.mem[i].id]);
    var id := t.mem[i].id;
    var db' := Script(env, t, i, params).db;
    WithRowTwice(t.db, t.e, id, t.Rows()[id].(status := Dispatched, dispatchedAt := Some(t.now)), db'.execs[t.e].rows[id]);
    OneEvolves(t.db, db', t.e);
  }

  lemma ExpandEvolves(t: Tx, i: nat, items: seq<Json>)
    requires TxOk(t) && i < |t.mem| && t.mem[i].status.Pending?
    ensures Evolves(t.db, Expand(t, i, items).db)
  {
    hide WfRows, LoopOrder, StepSorted;
    assert SameButTimes(t.mem[i], t.Rows()[t.mem[i].id]);
    OneEvolves(t.db, Expand(t, i, items).db, t.e);
  }

  lemma CallEvolves(t: Tx, i: nat, target: Routine, params: Json)
    requires TxOk(t) && i < |t.mem| && t.mem[i].status.Pending?
    ensures Evolves(t.db, Call(t, i, target, params).db)
  {
    hide WfRows, LoopOrder, StepSorted;
    assert SameButTimes(t.mem[i], t.Rows()[t.mem[i].id]);
    OneEvolves(t.db, Call(t, i, target, params).db, t.e);
  }

  lemma ProcessOneEvolves(env: Env, t: Tx, i: nat)
    requires TxOk(t) && i < |t.mem| && t.mem[i].status.Pending?
    ensures Evolves(t.db, ProcessOne(env, t, i).0.db)
  {
    hide Evolves, WfRows, LoopOrder, StepSorted, Mirror;
    var a := t.mem[i];
    Reflexive(t.db);
    UpdateEvolves(t, i);
    if a.runIf.Some? && !RunIfHolds(t.mem, a.runIf.value) {
    } else if a.LoopHead() {
      match Resolve(Str(a.forEach.value), ScopeFor(env, t, i), env.render)
      case Some(Arr(items)) => ExpandEvolves(t, i, items);
      case _ =>
    } else {
      match Resolve(a.params, ScopeFor(env, t, i), env.render)
      case None =>
      case Some(params) =>
        ScriptEvolves(env, t, i, params);
        var target := TargetOf(t.db, t.db.execs[t.e].owner, params);
        if target.Some? { CallEvolves(t, i, target.value, params); }
    }
  }

  lemma {:induction false} RunBatchEvolves(env: Env, t: Tx, s: nat, batch: seq<nat>, k: nat)
    requires TxOk(t) && IsBatch(t.mem, s, batch) && k <= |batch|
    ensures Evolves(t.db, RunBatch(env, t, batch[..k]).0.db)
  {
    hide Evolves, MemAfter, SendsFit, Handled, FirstPendingHead, WfRows, LoopOrder, Mirror, StepSorted;
    if k == 0 {
      Reflexive(t.db);
    } else {
      var done, i := batch[..k - 1], batch[k - 1];
      assert batch[..k][..k - 1] == done && batch[..k][|batch[..k]| - 1] == i;
      RunBatchEvolves(env, t, s, batch, k - 1);
      RunBatchKeeps(env, t, s, batch, k - 1);
      var (t1, sends) := RunBatch(env, t, done);
      NextRowReady(t.mem, t1.mem, s, batch, k, sends);
      ProcessOneEvolves(env, t1, i);
      EvolvesTransitively(t.db, t1.db, ProcessOne(env, t1, i).0.db);
    }
  }

  lemma Reflexive(db: Db)
    ensures Evolves(db, db)
  {
  }

  lemma SendOneEvolves(t: Tx, s: Send)
    requires TxOk(t) && s.i < |t.mem| && t.mem[s.i].status.Pending?
    ensures Evolves(t.db, SendOne(t, s).db)
  {
    hide WfRows, LoopOrder, StepSorted;
    assert SameButTimes(t.mem[s.i], t.Rows()[t.mem[s.i].id]);
    OneEvolves(t.db, SendOne(t, s).db, t.e);
  }

  lemma {:induction false} SendAllEvolves(t: Tx, sends: seq<Send>)
    requires TxOk(t) && forall q :: 0 <= q < |sends| ==> sends[q].i < |t.mem| && t.mem[sends[q].i].status.Pending?
    requires forall q, r :: 0 <= q < r < |sends| ==> sends[q].i != sends[r].i
    ensures Evolves(t.db, SendAll(t, sends).db)
  {
    hide Evolves, WfRows, LoopOrder, Mirror, StepSorted;
    if sends == [] {
      Reflexive(t.db);
    } else {
      var front, last := sends[..|sends| - 1], sends[|sends| - 1];
      SendAllEvolves(t, front);
      SendAllKeeps(t, front);
      SentGrows(t.mem, SendAll(t, front).mem, sends, t.now);
      SendOneEvolves(SendAll(t, front), last);
      EvolvesTransitively(t.db, SendAll(t, front).db, SendAll(t, sends).db);
    }
  }

  lemma StatusEvolves(db: Db, e: nat, status: ExecStatus, now: nat)
    requires e < |db.execs| && !db.execs[e].status.Terminal() && !status.PENDING?
    ensures Evolves(db, SetStatus(db, e, status, now))
  {
    OneEvolves(db, SetStatus(db, e, status, now), e);
  }

  lemma EndEvolves(db: Db, e: nat, status: ExecStatus, now: nat, end: Message, outcome: Outcome)
    requires e < |db.execs| && !db.execs[e].status.Terminal() && !status.PENDING?
    ensures Evolves(db, ReportToCaller(Enqueue(SetStatus(db, e, status, now), end), e, outcome))
  {
    OneEvolves(db, ReportToCaller(Enqueue(SetStatus(db, e, status, now), end), e, outcome), e);
  }

  lemma SkipPendingEvolves(db: Db, e: nat)
    requires e < |db.execs|
    ensures Evolves(db, SkipPending(db, e))
  {
    OneEvolves(db, SkipPending(db, e), e);
  }

  lemma DispatchEvolves(env: Env, t: Tx)
    requires TxInv(t) && DecideNext(t.mem).Dispatch?
    ensures var batch := BatchOf(t.mem, DecideNext(t.mem).keys);
            var (t1, sends) := RunBatch(env, t, batch);
            Evolves(t.db, t1.db) && (!BatchFailed(t1.mem, batch) ==> Evolves(t.db, AfterSends(t1, sends).db))
  {
    hide Evolves, MidTx, Barrier, Mirror, StepSorted, WfRows, LoopOrder, BarrierAt, MemAfter, IsBatch, SendsFit, RunBatch, BatchOf, BatchFailed, AfterSends;
    var batch := BatchOf(t.mem, DecideNext(t.mem).keys);
    var (t1, sends) := RunBatch(env, t, batch);
    BatchProgress(env, t);
    DispatchEffect(env, t);
    RunBatchEvolves(env, t, DecideNext(t.mem).step, batch, |batch|);
    assert batch[..|batch|] == batch;
    if !BatchFailed(t1.mem, batch) {
      AfterSendsEvolves(t1, batch, sends);
      EvolvesTransitively(t.db, t1.db, AfterSends(t1, sends).db);
    }
  }

  lemma EndsEvolve(env: Env, t: Tx)
    requires TxInv(t)
    ensures Evolves(t.db, CompleteExecution(env, t).db) && Evolves(t.db, WaitForResults(env, t).db)
    ensures forall key :: Evolves(t.db, FailExecution(t, key).db)
  {
    hide Evolves, Issued, Settled, Mirror, StepSorted, WfRows, LoopOrder, BarrierAt;
    EndEvolves(t.db, t.e, COMPLETED, t.now, ExecutionCompleted(t.e), OkResult(SubRoutineOutput(env, t.e, t.mem)));
    SkipPendingEvolves(t.db, t.e);
    forall key ensures Evolves(t.db, FailExecution(t, key).db) {
      EndEvolves(SkipPending(t.db, t.e), t.e, FAILED, t.now, ExecutionFailed(t.e, key), FailedResult);
      EvolvesTransitively(t.db, SkipPending(t.db, t.e), FailExecution(t, key).db);
    }
    Reflexive(t.db);
    StatusEvolves(t.db, t.e, RUNNING, t.now);
    StatusEvolves(t.db, t.e, WAITING, t.now);
  }

  /** A pass of the loop never undoes anything. */
  lemma {:induction false} AdvanceEvolves(env: Env, t: Tx)
    requires TxInv(t)
    ensures Evolves(t.db, Advance(env, t).db)
    decreases Measure(t.mem)
  {
    hide Evolves, MidTx, Barrier, Mirror, StepSorted, WfRows, LoopOrder, MemAfter, SendsFit;
    EndsEvolve(env, t);
    if DecideNext(t.mem).Dispatch? {
      var batch := BatchOf(t.mem, DecideNext(t.mem).keys);
      var (t1, sends) := RunBatch(env, t, batch);
      BatchProgress(env, t);
      DispatchEvolves(env, t);
      PassContinues(env, t);
      if BatchFailed(t1.mem, batch) {
        AdvanceEvolves(env, t1);
        EvolvesTransitively(t.db, t1.db, Advance(env, t).db);
      } else {
        var t2 := AfterSends(t1, sends);
        AfterSendsKeeps(t1, batch, sends);
        if sends == [] {
          AdvanceEvolves(env, t2);
          EvolvesTransitively(t.db, t2.db, Advance(env, t).db);
        }
      }
    }
  }

  /** The transaction is consistent again when the loop goes round. */
  lemma PassContinues(env: Env, t: Tx)
    requires TxInv(t) && DecideNext(t.mem).Dispatch?
    ensures var batch := BatchOf(t.mem, DecideNext(t.mem).keys);
            var (t1, sends) := RunBatch(env, t, batch);
            TxInv(t1) && (!BatchFailed(t1.mem, batch) ==> TxInv(AfterSends(t1, sends)))
  {
    hide Issued, Settled, Mirror, StepSorted, WfRows, LoopOrder, BarrierAt;
    DispatchEffect(env, t);
    SendsCommit(env, t);
  }

  lemma AfterSendsEvolves(t1: Tx, batch: seq<nat>, sends: seq<Send>)
    requires TxOk(t1) && MidTx(t1.db, t1.e) && SendsFit(t1.mem, batch, sends)
    ensures Evolves(t1.db, AfterSends(t1, sends).db)
  {
    hide Evolves, Issued, Settled, Mirror, StepSorted, WfRows, LoopOrder;
    assert forall q :: 0 <= q < |sends| ==> SendReady(t1.mem[sends[q].i]);
    SendAllEvolves(t1, sends);
    SendAllStatus(t1, sends);
    var t2 := SendAll(t1, sends);
    StatusEvolves(t2.db, t2.e, RUNNING, t2.now);
    EvolvesTransitively(t1.db, t2.db, AfterSends(t1, sends).db);
  }

  lemma {:induction false} SendAllStatus(t: Tx, sends: seq<Send>)
    requires t.Bounded() && forall k :: 0 <= k < |sends| ==> sends[k].i < |t.mem|
    ensures SendAll(t, sends).e == t.e && SendAll(t, sends).db.execs[t.e].status == t.db.execs[t.e].status
  {
    if sends != [] { SendAllStatus(t, sends[..|sends| - 1]); }
  }

  // ---------------------------------------------------------------- whole transactions

  lemma StartEvolves(env: Env, db: Db, e: nat, now: nat)
    requires DbInv(db)
    ensures LayoutOk(db) && Evolves(db, Start(env, db, e, now))
  {
    hide Issued, Settled, Evolves, WfRows, LoopOrder;
    DbInvLayout(db);
    Reflexive(db);
    if e < |db.execs| && db.execs[e].status.PENDING? {
      var db1 := SetStatus(db, e, RUNNING, now);
      StartOpens(db, e, now);
      StatusEvolves(db, e, RUNNING, now);
      AdvanceEvolves(env, Lock(db1, e, now));
      EvolvesTransitively(db, db1, Start(env, db, e, now));
    }
  }

  lemma StartOpens(db: Db, e: nat, now: nat)
    requires DbInv(db) && e < |db.execs| && db.execs[e].status.PENDING?
    ensures TxInv(Lock(SetStatus(db, e, RUNNING, now), e, now))
  {
    var db1 := SetStatus(db, e, RUNNING, now);
    MoveRows(db.execs, db.log, e, db1.execs[e]);
    LockOk(db1, e, now);
    PendingBarrier(db1.execs[e].rows);
  }

  lemma RecordEvolves(t: Tx, i: nat, report: Report)
    requires TxOk(t) && i < |t.mem| && t.mem[i].status.InFlight()
    ensures Evolves(t.db, Record(t, i, report).db)
  {
    hide WfRows, LoopOrder, StepSorted;
    assert SameButTimes(t.mem[i], t.Rows()[t.mem[i].id]);
    OneEvolves(t.db, Record(t, i, report).db, t.e);
  }

  lemma ApplyResultEvolves(env: Env, db: Db, e: nat, id: nat, report: Report, now: nat)
    requires DbInv(db) && WasDispatched(db, e, id)
    ensures LayoutOk(db) && Evolves(db, ApplyResult(env, db, e, id, report, now))
  {
    hide Issued, Settled, Evolves, WfRows, LoopOrder;
    DbInvLayout(db);
    Reflexive(db);
    if e < |db.execs| {
      hide DbInv;
      var t := Lock(db, e, now);
      LockOk(db, e, now);
      LockFinds(db, e, id, now);
      var found := FindId(t.mem, id);
      if found.Some? && !t.mem[found.value].status.Terminal() {
        var t1 := Record(t, found.value, report);
        RecordUpdates(t, found.value, report);
        RecordEvolves(t, found.value, report);
        if !t.loaded.Terminal() {
          RecordInTime(t, found.value, report);
          AdvanceEvolves(env, t1);
          EvolvesTransitively(db, t1.db, Advance(env, t1).db);
        }
      }
    }
  }

  lemma TriggerEvolves(db: Db, routine: Routine, kind: string, slot: Option<nat>, key: Option<string>, payload: Option<Json>)
    ensures Evolves(db, TriggerRoutine(db, routine, kind, slot, key, payload).0)
  {
  }

  lemma MarkStaleEvolves(db: Db, now: nat, waitingAfter: nat)
    ensures Evolves(db, MarkStale(db, now, waitingAfter))
  {
  }

  // ---------------------------------------------------------------- at most once, counted

  /** How often an identity occurs in the log. */
  function Occurrences(log: seq<Message>, id: MsgId): nat {
    if log == [] then 0 else Occurrences(log[..|log| - 1], id) + if IdOf(log[|log| - 1]) == id then 1 else 0
  }

  lemma {:induction false} OccurrencesUnique(log: seq<Message>, id: MsgId)
    requires LogUnique(log)
    ensures Occurrences(log, id) == if Logged(log, id) then 1 else 0
  {
    if log != [] {
      var front, last := log[..|log| - 1], log[|log| - 1];
      assert log == front + [last];
      OccurrencesUnique(front, id);
      LoggedAppend(front, last);
      if Logged(front, id) {
        var k :| 0 <= k < |front| && IdOf(front[k]) == id;
        assert IdOf(log[k]) == id;
      }
    }
  }

  /** How many executions a row has started. */
  function Calls(execs: seq<Exec>, e: nat, a: nat): nat {
    if execs == [] then 0 else Calls(execs[..|execs| - 1], e, a) + if execs[|execs| - 1].caller == Some(Caller(e, a)) then 1 else 0
  }

  lemma {:induction false} CallsUnique(execs: seq<Exec>, e: nat, a: nat)
    requires CallersUnique(execs)
    ensures Calls(execs, e, a) == if Called(execs, e, a) then 1 else 0
  {
    if execs != [] {
      var front, last := execs[..|execs| - 1], execs[|execs| - 1];
      assert execs == front + [last];
      assert CallersUnique(front) by { assert forall c :: 0 <= c < |front| ==> front[c] == execs[c]; }
      CallsUnique(front, e, a);
      CalledAppend(front, last);
      if Called(front, e, a) {
        var c :| 0 <= c < |front| && front[c].caller == Some(Caller(e, a));
        assert execs[c].caller == Some(Caller(e, a));
      }
    }
  }

  /** What one row has caused: a request or a started execution, never more than one of them. */
  lemma RowActsOnce(db: Db, e: nat, a: nat)
    requires DbInv(db) && Exists(db.execs, e, a)
    ensures var row := db.execs[e].rows[a];
            var acts := Occurrences(db.log, RequestOf(e, a)) + Calls(db.execs, e, a);
            acts <= 1 && (row.status.InFlight() ==> acts == 1) && (row.status.Pending? || row.status.Skipped? ==> acts == 0)
  {
    OccurrencesUnique(db.log, RequestOf(e, a));
    CallsUnique(db.execs, e, a);
    assert RowIssued(db.execs, db.log, e, a);
  }

  /** One trigger event, one end event exactly when terminal, one answer to the caller exactly when terminal. */
  lemma ExecutionSpeaksOnce(db: Db, e: nat)
    requires DbInv(db) && e < |db.execs|
    ensures var x := db.execs[e];
            Occurrences(db.log, TriggerOf(e)) == 1 &&
            Occurrences(db.log, EndOf(e)) == (if x.status.Terminal() then 1 else 0) &&
            (x.caller.Some? ==> Occurrences(db.log, AnswerTo(x.caller.value.exec, x.caller.value.action)) == if x.status.Terminal() then 1 else 0)
  {
    assert ExecIssued(db.execs, db.log, e);
    OccurrencesUnique(db.log, TriggerOf(e));
    OccurrencesUnique(db.log, EndOf(e));
    if db.execs[e].caller.Some? {
      OccurrencesUnique(db.log, AnswerTo(db.execs[e].caller.value.exec, db.execs[e].caller.value.action));
    }
  }

  // ---------------------------------------------------------------- a failed batch reaches no worker

  predicate NoRequests(log: seq<Message>, log': seq<Message>) {
    log <= log' && forall k :: |log| <= k < |log'| ==> !log'[k].ActionRequested?
  }

  lemma {:induction false} BatchRequestsNothing(env: Env, t: Tx, batch: seq<nat>)
    requires t.Bounded() && forall k :: 0 <= k < |batch| ==> batch[k] < |t.mem|
    ensures NoRequests(t.db.log, RunBatch(env, t, batch).0.db.log)
  {
    if batch != [] {
      var t1 := RunBatch(env, t, batch[..|batch| - 1]).0;
      BatchRequestsNothing(env, t, batch[..|batch| - 1]);
      ProcessOneRequestsNothing(env, t1, batch[|batch| - 1]);
    }
  }

  lemma ProcessOneRequestsNothing(env: Env, t: Tx, i: nat)
    requires t.Bounded() && i < |t.mem|
    ensures NoRequests(t.db.log, ProcessOne(env, t, i).0.db.log)
  {
    hide Resolve, Scope, Evaluate, TargetOf, RunIfHolds;
  }

  lemma FailExecutionEnds(t: Tx, failedKey: string)
    requires t.Bounded()
    ensures var t' := FailExecution(t, failedKey);
            NoRequests(t.db.log, t'.db.log) && t.e < |t'.db.execs| && t'.db.execs[t.e].status.FAILED?
  {
  }

  lemma FailedPassEnds(env: Env, t: Tx, batch: seq<nat>)
    requires TxOk(t) && BatchFailed(t.mem, batch)
    ensures var t' := Advance(env, t); NoRequests(t.db.log, t'.db.log) && t.e < |t'.db.execs| && t'.db.execs[t.e].status.FAILED?
  {
    hide WfRows, LoopOrder, Mirror, StepSorted, FailExecution, RunBatch;
    var k :| 0 <= k < |batch| && batch[k] < |t.mem| && t.mem[batch[k]].status.Failed?;
    assert AnyFailed(t.mem);
    FailExecutionEnds(t, t.mem[FirstFailed(t.mem)].key);
  }

  lemma FailedBatchGoesRound(env: Env, t: Tx, batch: seq<nat>, t1: Tx)
    requires TxOk(t) && DecideNext(t.mem).Dispatch? && batch == BatchOf(t.mem, DecideNext(t.mem).keys)
    requires t1 == RunBatch(env, t, batch).0 && BatchFailed(t1.mem, batch)
    ensures TxOk(t1) && t1.e == t.e && Advance(env, t) == Advance(env, t1)
  {
    hide TxOk, MemAfter, SendsFit, FailExecution, CompleteExecution, WaitForResults, DecideNext, IsBatch;
    BatchProgress(env, t);
  }

  /** Once a row of a batch failed, the run ends FAILED and nothing of that batch is requested from a worker. */
  lemma FailedBatchReachesNoWorker(env: Env, t: Tx, batch: seq<nat>)
    requires TxOk(t) && DecideNext(t.mem).Dispatch? && batch == BatchOf(t.mem, DecideNext(t.mem).keys)
    requires BatchFailed(RunBatch(env, t, batch).0.mem, batch)
    ensures var t' := Advance(env, t); NoRequests(t.db.log, t'.db.log) && t.e < |t'.db.execs| && t'.db.execs[t.e].status.FAILED?
  {
    hide DecideNext, WfRows, LoopOrder, Mirror, StepSorted, Advance, BatchFailed;
    var t1 := RunBatch(env, t, batch).0;
    FailedBatchGoesRound(env, t, batch, t1);
    BatchRequestsNothing(env, t, batch);
    FailedPassEnds(env, t1, batch);
  }
}
