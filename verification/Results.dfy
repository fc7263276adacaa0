/**
 * What a reported result does to the tables, exactly: a retry that was announced, a
 * failure, and a success while other results are awaited or when it was the last one.
 */
module Results {
  import opened Base
  import opened Templates
  import opened Control
  import opened Progress
  import opened Store
  import opened RowInvariants
  import opened Engine
  import opened AdvanceLoop
  import opened Issues
  import opened Invariants
  import opened Transactions

  /** A row in flight of an execution that has not ended. */
  predicate Awaited(db: Db, e: nat, id: nat) { Exists(db.execs, e, id) && db.execs[e].rows[id].status.InFlight() && !db.execs[e].status.Terminal() }

  /** The transaction on the awaited row, once its report is recorded. */
  lemma Reported(env: Env, db: Db, e: nat, id: nat, report: Report, now: nat) returns (t: Tx)
    requires DbInv(db) && Awaited(db, e, id)
    ensures LayoutOk(db) && TxOk(t) && t.e == e && t.now == now && t.loaded == db.execs[e].status && t.db.log == db.log && t.db.routines == db.routines
    ensures t.db.execs == db.execs[e := db.execs[e].(rows := t.Rows())] && ApplyResult(env, db, e, id, report, now) == Advance(env, t).db
    ensures var row := db.execs[e].rows[id];
            t.Rows() == db.execs[e].rows[id := match report
              case Final(OkResult(output)) => row.(status := Completed, output := Some(output), finishedAt := Some(now))
              case Final(FailedResult) => row.(status := Failed, finishedAt := Some(now))
              case RetryScheduled => row.(status := Retrying)]
    ensures forall j :: 0 <= j < |t.mem| ==> t.mem[j].id < |t.Rows()| && (t.mem[j].id != id ==> t.mem[j] == t.Rows()[t.mem[j].id])
  {
    hide Issued, Settled, WfRows, LoopOrder, Advance, Load;
    DbInvLayout(db);
    LockOk(db, e, now);
    LockFinds(db, e, id, now);
    var t0 := Lock(db, e, now);
    var i := FindId(t0.mem, id).value;
    RecordUpdates(t0, i, report);
    t := Record(t0, i, report);
    forall j | 0 <= j < |t.mem| ensures t.mem[j].id < |t.Rows()| && (t.mem[j].id != id ==> t.mem[j] == t.Rows()[t.mem[j].id]) {
      LockLists(db, e, now, j);
    }
  }

  lemma NoneFailed(db: Db, e: nat)
    requires DbInv(db) && e < |db.execs| && (db.execs[e].status.RUNNING? || db.execs[e].status.WAITING?)
    ensures !AnyFailed(db.execs[e].rows)
  {
  }

  lemma UnfinishedRuns(db: Db, e: nat, id: nat)
    requires DbInv(db) && Awaited(db, e, id)
    ensures db.execs[e].status.RUNNING? || db.execs[e].status.WAITING?
  {
  }

  /**
   * A retry was announced: the row is RETRYING, the execution WAITING, and nothing else
   * changed; no message, and the clock of the sweeper is as it was.
   */
  lemma RetryIsReported(env: Env, db: Db, e: nat, id: nat, now: nat)
    requires DbInv(db) && Awaited(db, e, id)
    ensures LayoutOk(db)
    ensures var x := db.execs[e];
            ApplyResult(env, db, e, id, RetryScheduled, now) ==
            db.(execs := db.execs[e := x.(status := WAITING, rows := x.rows[id := x.rows[id].(status := Retrying)])])
  {
    hide DbInv, LayoutOk, TxOk, ApplyResult;
    UnfinishedRuns(db, e, id);
    NoneFailed(db, e);
    var t := Reported(env, db, e, id, RetryScheduled, now);
    RetryWaits(env, t, id);
    var x := db.execs[e];
    assert t.db.execs[e := t.db.execs[e].(status := WAITING)] == db.execs[e := x.(status := WAITING, rows := t.Rows())];
  }

  lemma RetryWaits(env: Env, t: Tx, id: nat)
    requires TxOk(t) && id < |t.Rows()| && t.Rows()[id].status.Retrying? && !AnyFailed(t.Rows()) && (t.loaded == t.db.execs[t.e].status)
    ensures Advance(env, t).db == t.db.(execs := t.db.execs[t.e := t.db.execs[t.e].(status := WAITING)])
  {
    hide WfRows, LoopOrder, StepSorted;
    MirrorAgrees(t.mem, t.Rows());
    assert t.Rows()[id].status.InFlight();
    var m := FoundIn(t.mem, t.Rows(), id);
    assert Stale(t.mem[m], t.now, env.waitingAfter);
    DecisionMeans(t.mem);
  }

  // ---------------------------------------------------------------- a failure

  function Answer(x: Exec, outcome: Outcome): seq<Message> {
    match x.caller case Some(c) => [ActionResult(c.exec, c.action, outcome)] case None => []
  }

  /**
   * A failure: the row is FAILED, what was pending is SKIPPED, what is in flight stays
   * so; the execution is FAILED, says so with the key of the action, and answers its caller.
   */
  lemma FailureIsReported(env: Env, db: Db, e: nat, id: nat, now: nat)
    requires DbInv(db) && Awaited(db, e, id)
    ensures LayoutOk(db)
    ensures var x, db' := db.execs[e], ApplyResult(env, db, e, id, Final(FailedResult), now);
            |db'.execs| == |db.execs| && (forall f :: 0 <= f < |db.execs| && f != e ==> db'.execs[f] == db.execs[f]) &&
            db'.execs[e] == x.(status := FAILED, rows := db'.execs[e].rows) && |db'.execs[e].rows| == |x.rows| &&
            (forall a :: 0 <= a < |x.rows| && a != id ==>
              db'.execs[e].rows[a] == if x.rows[a].status.Pending? then x.rows[a].(status := Skipped) else x.rows[a]) &&
            db'.execs[e].rows[id] == x.rows[id].(status := Failed, finishedAt := Some(now)) &&
            db'.log == db.log + [ExecutionFailed(e, x.rows[id].key)] + Answer(x, FailedResult)
  {
    hide DbInv, LayoutOk, TxOk, ApplyResult;
    UnfinishedRuns(db, e, id);
    NoneFailed(db, e);
    var t := Reported(env, db, e, id, Final(FailedResult), now);
    FailureEnds(env, t, id);
  }

  lemma FailureEnds(env: Env, t: Tx, id: nat)
    requires TxOk(t) && id < |t.Rows()| && t.Rows()[id].status.Failed? && forall a :: 0 <= a < |t.Rows()| && a != id ==> !t.Rows()[a].status.Failed?
    ensures Advance(env, t) == FailExecution(t, t.Rows()[id].key)
  {
    hide WfRows, LoopOrder, StepSorted, FailExecution;
    MirrorAgrees(t.mem, t.Rows());
    DecisionMeans(t.mem);
    assert AnyFailed(t.Rows());
    var i := FirstFailed(t.mem);
    MirrorRow(t.mem, t.Rows(), i);
  }

  // ---------------------------------------------------------------- a success

  /** A success while other results are awaited: the row is COMPLETED with its output, the status says whether one of the others is late. */
  lemma SuccessIsReported(env: Env, db: Db, e: nat, id: nat, other: nat, output: Json, now: nat)
    requires DbInv(db) && Awaited(db, e, id) && Awaited(db, e, other) && other != id
    ensures LayoutOk(db)
    ensures var x := db.execs[e];
            var rows := x.rows[id := x.rows[id].(status := Completed, output := Some(output), finishedAt := Some(now))];
            var late := exists a :: 0 <= a < |rows| && Stale(rows[a], now, env.waitingAfter);
            ApplyResult(env, db, e, id, Final(OkResult(output)), now) ==
            db.(execs := db.execs[e := x.(status := if late then WAITING else RUNNING, rows := rows)])
  {
    hide DbInv, LayoutOk, TxOk, ApplyResult;
    UnfinishedRuns(db, e, id);
    NoneFailed(db, e);
    var x := db.execs[e];
    var t := Reported(env, db, e, id, Final(OkResult(output)), now);
    assert t.Rows()[other] == x.rows[other];
    assert x.startedAt.Some? by { StartedRuns(db, e); }
    SuccessWaits(env, t, id, other);
    var status := InFlightStatus(t.Rows(), now, env.waitingAfter);
    assert t.db.execs[e := t.db.execs[e].(status := status)] == db.execs[e := x.(status := status, rows := t.Rows())];
  }

  lemma StartedRuns(db: Db, e: nat)
    requires DbInv(db) && e < |db.execs| && (db.execs[e].status.RUNNING? || db.execs[e].status.WAITING?)
    ensures db.execs[e].startedAt.Some?
  {
  }

  lemma SuccessWaits(env: Env, t: Tx, id: nat, other: nat)
    requires TxOk(t) && id < |t.Rows()| && t.Rows()[id].status.Completed? && other < |t.Rows()| && t.Rows()[other].status.InFlight()
    requires !AnyFailed(t.Rows()) && t.loaded == t.db.execs[t.e].status && t.db.execs[t.e].startedAt.Some?
    requires forall j :: 0 <= j < |t.mem| ==> t.mem[j].id < |t.Rows()| && (t.mem[j].id != id ==> t.mem[j] == t.Rows()[t.mem[j].id])
    ensures Advance(env, t).db ==
            t.db.(execs := t.db.execs[t.e := t.db.execs[t.e].(status := InFlightStatus(t.Rows(), t.now, env.waitingAfter))])
  {
    hide WfRows, LoopOrder, StepSorted, Mirror;
    MirrorAgrees(t.mem, t.Rows());
    DecisionMeans(t.mem);
    SameLateness(t, id, env.waitingAfter);
  }

  lemma SameLateness(t: Tx, id: nat, waitingAfter: nat)
    requires TxOk(t) && id < |t.Rows()| && t.Rows()[id].status.Completed?
    requires forall j :: 0 <= j < |t.mem| ==> t.mem[j].id < |t.Rows()| && (t.mem[j].id != id ==> t.mem[j] == t.Rows()[t.mem[j].id])
    ensures InFlightStatus(t.mem, t.now, waitingAfter) == InFlightStatus(t.Rows(), t.now, waitingAfter)
  {
    hide WfRows, LoopOrder, StepSorted;
    if j :| 0 <= j < |t.mem| && Stale(t.mem[j], t.now, waitingAfter) {
      MirrorRow(t.mem, t.Rows(), j);
      assert Stale(t.Rows()[t.mem[j].id], t.now, waitingAfter);
    }
    if a: nat :| a < |t.Rows()| && Stale(t.Rows()[a], t.now, waitingAfter) {
      var j := FoundIn(t.mem, t.Rows(), a);
      assert Stale(t.mem[j], t.now, waitingAfter);
    }
  }

  /** The last success: the execution is COMPLETED, says so, and answers its caller with its variables. */
  lemma LastSuccessCompletes(env: Env, db: Db, e: nat, id: nat, output: Json, now: nat)
    requires DbInv(db) && Awaited(db, e, id) && forall a :: 0 <= a < |db.execs[e].rows| && a != id ==> db.execs[e].rows[a].status.Done()
    ensures LayoutOk(db)
    ensures var x, db' := db.execs[e], ApplyResult(env, db, e, id, Final(OkResult(output)), now);
            db'.execs == db.execs[e := x.(status := COMPLETED, rows := x.rows[id := x.rows[id].(status := Completed, output := Some(output), finishedAt := Some(now))])] &&
            exists answer :: db'.log == db.log + [ExecutionCompleted(e)] + Answer(x, OkResult(answer))
  {
    hide DbInv, LayoutOk, TxOk, ApplyResult;
    var x := db.execs[e];
    var t := Reported(env, db, e, id, Final(OkResult(output)), now);
    SuccessEnds(env, t, id);
    assert t.db.execs[e := t.db.execs[e].(status := COMPLETED)] == db.execs[e := x.(status := COMPLETED, rows := t.Rows())];
    var answer := SubRoutineOutput(env, t.e, t.mem);
    assert Advance(env, t).db.log == db.log + [ExecutionCompleted(e)] + Answer(x, OkResult(answer));
  }

  lemma SuccessEnds(env: Env, t: Tx, id: nat)
    requires TxOk(t) && forall a :: 0 <= a < |t.Rows()| ==> t.Rows()[a].status.Done()
    ensures Advance(env, t) == CompleteExecution(env, t)
  {
    hide WfRows, LoopOrder, StepSorted, CompleteExecution;
    MirrorAgrees(t.mem, t.Rows());
    DecisionMeans(t.mem);
    forall i | 0 <= i < |t.mem| ensures t.mem[i].status.Done() { MirrorRow(t.mem, t.Rows(), i); }
  }

  /** A result that comes when the execution has already ended is recorded on its row, and that is all. */
  lemma LateResultIsRecorded(env: Env, db: Db, e: nat, id: nat, report: Report, now: nat)
    requires DbInv(db) && Exists(db.execs, e, id) && db.execs[e].rows[id].status.InFlight() && db.execs[e].status.Terminal()
    ensures LayoutOk(db)
    ensures var x := db.execs[e];
            var row := x.rows[id];
            ApplyResult(env, db, e, id, report, now) ==
            db.(execs := db.execs[e := x.(rows := x.rows[id := match report
              case Final(OkResult(output)) => row.(status := Completed, output := Some(output), finishedAt := Some(now))
              case Final(FailedResult) => row.(status := Failed, finishedAt := Some(now))
              case RetryScheduled => row.(status := Retrying)])])
  {
    hide Issued, Settled, WfRows, LoopOrder, Advance, Load;
    DbInvLayout(db);
    LockOk(db, e, now);
    LockFinds(db, e, id, now);
  }

  // ---------------------------------------------------------------- the start

  lemma TurnKeepsStart(env: Env, t: Tx, i: nat)
    requires t.Bounded() && i < |t.mem|
    ensures var t1 := ProcessOne(env, t, i).0; t1.e == t.e && t1.db.execs[t.e].startedAt == t.db.execs[t.e].startedAt
  {
    hide Resolve, Scope, Evaluate, TargetOf, RunIfHolds;
  }

  lemma {:induction false} BatchKeepsStart(env: Env, t: Tx, batch: seq<nat>)
    requires t.Bounded() && forall k :: 0 <= k < |batch| ==> batch[k] < |t.mem|
    ensures var t1 := RunBatch(env, t, batch).0; t1.e == t.e && t1.db.execs[t.e].startedAt == t.db.execs[t.e].startedAt
  {
    if batch != [] {
      var t1 := RunBatch(env, t, batch[..|batch| - 1]).0;
      BatchKeepsStart(env, t, batch[..|batch| - 1]);
      TurnKeepsStart(env, t1, batch[|batch| - 1]);
    }
  }

  lemma {:induction false} SendsKeepStart(t: Tx, sends: seq<Send>)
    requires t.Bounded() && forall k :: 0 <= k < |sends| ==> sends[k].i < |t.mem|
    ensures SendAll(t, sends).e == t.e && SendAll(t, sends).db.execs[t.e].startedAt == t.db.execs[t.e].startedAt
  {
    if sends != [] { SendsKeepStart(t, sends[..|sends| - 1]); }
  }

  lemma {:induction false} PassKeepsStart(env: Env, t: Tx)
    requires TxOk(t) && t.db.execs[t.e].startedAt.Some?
    ensures t.e < |Advance(env, t).db.execs| && Advance(env, t).db.execs[t.e].startedAt == t.db.execs[t.e].startedAt
    decreases Measure(t.mem)
  {
    hide WfRows, LoopOrder, Mirror, StepSorted, MemAfter, SendsFit, IsBatch, RunBatch, BatchOf, BatchFailed, DecideNext;
    if DecideNext(t.mem).Dispatch? {
      var batch := BatchOf(t.mem, DecideNext(t.mem).keys);
      var (t1, sends) := RunBatch(env, t, batch);
      BatchProgress(env, t);
      AdvanceDispatches(env, t);
      BatchKeepsStart(env, t, batch);
      if BatchFailed(t1.mem, batch) { PassKeepsStart(env, t1); }
      else {
        AfterSendsKeeps(t1, batch, sends);
        SendsKeepStart(t1, sends);
        if sends == [] { PassKeepsStart(env, AfterSends(t1, sends)); }
      }
    }
  }

  /** A triggered execution carries the time of its first transaction, and keeps it through every result. */
  lemma StartTimeIsKept(env: Env, db: Db, e: nat, now: nat, id: nat, report: Report, later: nat)
    requires DbInv(db) && e < |db.execs|
    ensures LayoutOk(db)
    ensures db.execs[e].status.PENDING? && db.execs[e].startedAt.None? ==>
              e < |Start(env, db, e, now).execs| && Start(env, db, e, now).execs[e].startedAt == Some(now)
    ensures Awaited(db, e, id) ==>
              e < |ApplyResult(env, db, e, id, report, later).execs| && ApplyResult(env, db, e, id, report, later).execs[e].startedAt == db.execs[e].startedAt
  {
    hide DbInv, LayoutOk, TxOk, ApplyResult, Advance;
    DbInvLayout(db);
    if db.execs[e].status.PENDING? && db.execs[e].startedAt.None? {
      StartingKeeps(env, db, e, now);
    }
    if Awaited(db, e, id) {
      UnfinishedRuns(db, e, id);
      StartedRuns(db, e);
      var t := Reported(env, db, e, id, report, later);
      PassKeepsStart(env, t);
    }
  }

  lemma StartingKeeps(env: Env, db: Db, e: nat, now: nat)
    requires LayoutOk(db) && e < |db.execs| && db.execs[e].status.PENDING? && db.execs[e].startedAt.None?
    ensures e < |Start(env, db, e, now).execs| && Start(env, db, e, now).execs[e].startedAt == Some(now)
  {
    hide WfRows, LoopOrder, Advance;
    var db1 := SetStatus(db, e, RUNNING, now);
    LockOk(db1, e, now);
    PassKeepsStart(env, Lock(db1, e, now));
  }
}
