/**
 * The entry points of the engine as transactions on the database, and the proof
 * that each keeps the database invariant.
 */
module Transactions {
  import opened Base
  import opened Templates
  import opened Control
  import opened Progress
  import opened Store
  import opened RowInvariants
  import opened Engine
  import opened AdvanceLoop
  import opened Issues
  import opened Invariants

  /** Every execution's rows are laid out as insertion and loop expansion leave them. */
  ghost predicate LayoutOk(db: Db) {
    forall e :: 0 <= e < |db.execs| ==> WfRows(db.execs[e].rows, db.execs[e].authored) && LoopOrder(db.execs[e].rows, db.execs[e].authored)
  }

  /** Locks execution `e` and reads its rows. */
  function Lock(db: Db, e: nat, now: nat): Tx
    requires e < |db.execs|
  {
    Tx(e, now, db.execs[e].status, db, Load(db.execs[e].rows))
  }

  lemma LockOk(db: Db, e: nat, now: nat)
    requires LayoutOk(db) && e < |db.execs|
    ensures TxOk(Lock(db, e, now))
  {
    LoadMirrors(db.execs[e].rows, db.execs[e].authored);
  }

  lemma LockLists(db: Db, e: nat, now: nat, m: nat)
    requires LayoutOk(db) && e < |db.execs| && m < |Lock(db, e, now).mem|
    ensures var t := Lock(db, e, now); t.mem[m].id < |db.execs[e].rows| && t.mem[m] == db.execs[e].rows[t.mem[m].id]
  {
    LoadMirrors(db.execs[e].rows, db.execs[e].authored);
  }

  /** Handles RoutineTriggered: PENDING to RUNNING and the first pass. */
  ghost function Start(env: Env, db: Db, e: nat, now: nat): Db
    requires LayoutOk(db)
  {
    if e >= |db.execs| || !db.execs[e].status.PENDING? then db
    else
      var db1 := SetStatus(db, e, RUNNING, now);
      LockOk(db1, e, now);
      Advance(env, Lock(db1, e, now)).db
  }

  function FindId(rows: seq<Row>, id: nat): (found: Option<nat>)
    ensures found.Some? ==> found.value < |rows| && rows[found.value].id == id
    ensures found.None? ==> !Holds(rows, id)
  {
    if rows == [] then None
    else if rows[0].id == id then Some(0)
    else
      var r := FindId(rows[1..], id);
      assert forall i :: 1 <= i < |rows| ==> rows[i] == rows[1..][i - 1];
      if r.Some? then Some(r.value + 1) else None
  }

  /** What a worker or a called routine reports about an action. */
  datatype Report = Final(outcome: Outcome) | RetryScheduled

  /** Records a result on row `i`, in the table and in memory. */
  function Record(t: Tx, i: nat, report: Report): (t': Tx)
    requires t.Bounded() && i < |t.mem|
    ensures t'.Bounded()
  {
    match report
    case Final(OkResult(output)) => CompleteRow(t, i, output)
    case Final(FailedResult) => FailRow(t, i)
    case RetryScheduled => t.(db := MarkRetrying(t.db, t.e, t.mem[i].id), mem := t.mem[i := t.mem[i].(status := Retrying)])
  }

  lemma RecordUpdates(t: Tx, i: nat, report: Report)
    requires TxOk(t) && i < |t.mem| && !t.mem[i].status.Terminal()
    ensures Updated(t, Record(t, i, report), i) && TxOk(Record(t, i, report)) && SameTx(t, Record(t, i, report))
  {
    assert SameButTimes(t.mem[i], t.Rows()[t.mem[i].id]);
    UpdateKeepsTx(t, Record(t, i, report), i);
  }

  /** Handles ActionCompleted, ActionFailed and ActionRetryScheduled. */
  ghost function ApplyResult(env: Env, db: Db, e: nat, id: nat, report: Report, now: nat): Db
    requires LayoutOk(db)
  {
    if e >= |db.execs| then db
    else
      var t := Lock(db, e, now);
      LockOk(db, e, now);
      var found := FindId(t.mem, id);
      if found.None? || t.mem[found.value].status.Terminal() then db
      else
        var t1 := Record(t, found.value, report);
        RecordUpdates(t, found.value, report);
        if t.loaded.Terminal() then t1.db else Advance(env, t1).db
  }

  // ---------------------------------------------------------------- the invariant is kept

  lemma DbInvLayout(db: Db)
    requires DbInv(db)
    ensures LayoutOk(db)
  {
  }

  lemma PendingBarrier(rows: seq<Row>)
    requires forall i :: 0 <= i < |rows| ==> rows[i].status.Pending?
    ensures Barrier(rows)
  {
    assert BarrierAt(rows, 0);
  }

  lemma StartKeeps(env: Env, db: Db, e: nat, now: nat)
    requires DbInv(db)
    ensures LayoutOk(db) && DbInv(Start(env, db, e, now))
  {
    DbInvLayout(db);
    if e < |db.execs| && db.execs[e].status.PENDING? {
      var db1 := SetStatus(db, e, RUNNING, now);
      MoveRows(db.execs, db.log, e, db1.execs[e]);
      LockOk(db1, e, now);
      PendingBarrier(db1.execs[e].rows);
      AdvanceCommits(env, Lock(db1, e, now));
    }
  }

  /** The row the result is about has been dispatched; see the network model for why this is so. */
  predicate WasDispatched(db: Db, e: nat, id: nat) { Exists(db.execs, e, id) ==> !db.execs[e].rows[id].status.Pending? }

  lemma LockFinds(db: Db, e: nat, id: nat, now: nat)
    requires LayoutOk(db) && e < |db.execs|
    ensures var t := Lock(db, e, now);
            FindId(t.mem, id).Some? <==> id < |db.execs[e].rows|
    ensures var t := Lock(db, e, now);
            FindId(t.mem, id).Some? ==> t.mem[FindId(t.mem, id).value] == db.execs[e].rows[id]
  {
    LoadMirrors(db.execs[e].rows, db.execs[e].authored);
    var t := Lock(db, e, now);
    if id < |db.execs[e].rows| { assert Holds(t.mem, id); }
  }

  lemma RecordRow(t: Tx, i: nat, report: Report)
    requires TxOk(t) && i < |t.mem| && t.mem[i].status.InFlight()
    ensures var t' := Record(t, i, report);
            t'.db == WithRows(t.db, t.e, t'.Rows()) && RowMoves(t.Rows(), t'.Rows()) && |t'.Rows()| == |t.Rows()| &&
            (forall a :: 0 <= a < |t.Rows()| && a != t.mem[i].id ==> t'.Rows()[a] == t.Rows()[a]) &&
            !t'.Rows()[t.mem[i].id].status.Pending? && t'.Rows()[t.mem[i].id].step == t.Rows()[t.mem[i].id].step
  {
    hide WfRows, LoopOrder, StepSorted;
    assert SameButTimes(t.mem[i], t.Rows()[t.mem[i].id]);
  }

  lemma RecordLate(t: Tx, i: nat, report: Report)
    requires TxOk(t) && DbInv(t.db) && i < |t.mem| && t.mem[i].status.InFlight() && t.db.execs[t.e].status.Terminal()
    ensures DbInv(Record(t, i, report).db)
  {
    hide Issued, WfRows, LoopOrder, StepSorted, RowMoves;
    var t' := Record(t, i, report);
    RecordRow(t, i, report);
    RecordUpdates(t, i, report);
    assert SameButTimes(t.mem[i], t.Rows()[t.mem[i].id]);
    MoveRows(t.db.execs, t.db.log, t.e, t'.db.execs[t.e]);
    var a :| 0 <= a < |t.Rows()| && t.Rows()[a].status.Failed?;
    assert t'.Rows()[a].status.Failed?;
  }

  lemma RecordInTime(t: Tx, i: nat, report: Report)
    requires TxOk(t) && DbInv(t.db) && i < |t.mem| && t.mem[i].status.InFlight() && !t.db.execs[t.e].status.Terminal()
    ensures TxInv(Record(t, i, report))
  {
    hide Issued, WfRows, LoopOrder, StepSorted, RowMoves;
    var t' := Record(t, i, report);
    RecordRow(t, i, report);
    RecordUpdates(t, i, report);
    assert SameButTimes(t.mem[i], t.Rows()[t.mem[i].id]);
    MoveRows(t.db.execs, t.db.log, t.e, t'.db.execs[t.e]);
    var c: nat :| BarrierAt(t.Rows(), c);
    assert BarrierAt(t'.Rows(), c);
  }

  lemma ApplyResultKeeps(env: Env, db: Db, e: nat, id: nat, report: Report, now: nat)
    requires DbInv(db) && WasDispatched(db, e, id)
    ensures LayoutOk(db) && DbInv(ApplyResult(env, db, e, id, report, now))
  {
    DbInvLayout(db);
    if e < |db.execs| {
      hide DbInv, Issued, Settled;
      var t := Lock(db, e, now);
      LockOk(db, e, now);
      LockFinds(db, e, id, now);
      var found := FindId(t.mem, id);
      if found.Some? && !t.mem[found.value].status.Terminal() {
        RecordUpdates(t, found.value, report);
        if t.loaded.Terminal() {
          RecordLate(t, found.value, report);
        } else {
          RecordInTime(t, found.value, report);
          AdvanceCommits(env, Record(t, found.value, report));
        }
      }
    }
  }

  /** A result of an action that has already finished changes nothing: duplicates are harmless. */
  lemma FinishedActionIgnoresResults(env: Env, db: Db, e: nat, id: nat, report: Report, now: nat)
    requires LayoutOk(db) && Exists(db.execs, e, id) && db.execs[e].rows[id].status.Terminal()
    ensures ApplyResult(env, db, e, id, report, now) == db
  {
    hide LayoutOk, Advance, Record;
    LockFinds(db, e, id, now);
  }

  /** A second RoutineTriggered finds the execution no longer PENDING and changes nothing. */
  lemma StartedOnce(env: Env, db: Db, e: nat, now: nat, later: nat)
    requires DbInv(db)
    ensures LayoutOk(db) && LayoutOk(Start(env, db, e, now))
    ensures Start(env, Start(env, db, e, now), e, later) == Start(env, db, e, now)
  {
    hide Issued, WfRows, LoopOrder, Advance;
    StartKeeps(env, db, e, now);
    var db' := Start(env, db, e, now);
    DbInvLayout(db');
    if e < |db.execs| && db.execs[e].status.PENDING? {
      var t := Lock(SetStatus(db, e, RUNNING, now), e, now);
      LockOk(SetStatus(db, e, RUNNING, now), e, now);
      AdvanceLeavesPending(env, t);
    }
  }

  lemma {:induction false} AdvanceLeavesPending(env: Env, t: Tx)
    requires TxOk(t) && !t.db.execs[t.e].status.PENDING?
    ensures t.e < |Advance(env, t).db.execs| && !Advance(env, t).db.execs[t.e].status.PENDING?
    decreases Measure(t.mem)
  {
    hide WfRows, LoopOrder, Mirror, StepSorted, MemAfter, SendsFit, IsBatch, RunBatch, BatchOf, BatchFailed;
    if DecideNext(t.mem).Dispatch? {
      var batch := BatchOf(t.mem, DecideNext(t.mem).keys);
      var (t1, sends) := RunBatch(env, t, batch);
      BatchProgress(env, t);
      AdvanceDispatches(env, t);
      BatchLeavesStatus(env, t, batch);
      if BatchFailed(t1.mem, batch) { AdvanceLeavesPending(env, t1); }
      else {
        AfterSendsKeeps(t1, batch, sends);
        if sends == [] { AdvanceLeavesPending(env, AfterSends(t1, sends)); }
      }
    }
  }

  lemma {:induction false} BatchLeavesStatus(env: Env, t: Tx, batch: seq<nat>)
    requires t.Bounded() && forall k :: 0 <= k < |batch| ==> batch[k] < |t.mem|
    ensures var t1 := RunBatch(env, t, batch).0; t1.e == t.e && t1.db.execs[t.e].status == t.db.execs[t.e].status
  {
    if batch != [] {
      var t1 := RunBatch(env, t, batch[..|batch| - 1]).0;
      BatchLeavesStatus(env, t, batch[..|batch| - 1]);
      ProcessOneLeavesStatus(env, t1, batch[|batch| - 1]);
    }
  }

  lemma ProcessOneLeavesStatus(env: Env, t: Tx, i: nat)
    requires t.Bounded() && i < |t.mem|
    ensures var t1 := ProcessOne(env, t, i).0; t1.e == t.e && t1.db.execs[t.e].status == t.db.execs[t.e].status
  {
    hide Resolve, Scope, Evaluate, TargetOf, RunIfHolds;
  }

  /** The API, a webhook or the scheduler triggers a routine. */
  function TriggerRoutine(db: Db, routine: Routine, kind: string, slot: Option<nat>, key: Option<string>, payload: Option<Json>): (Db, Creation) {
    CreateExecution(db, routine, Trigger(kind, slot, key, payload, None, 0))
  }

  /** The name of a key; the source treats the empty text as none when it looks for an earlier execution. */
  predicate Keyed(db: Db, routine: Routine, key: string) { exists e :: 0 <= e < |db.execs| && db.execs[e].routineId == routine.id && db.execs[e].idempotencyKey == Some(key) }

  predicate Slotted(db: Db, routine: Routine, slot: nat) { exists e :: 0 <= e < |db.execs| && db.execs[e].routineId == routine.id && db.execs[e].scheduledFor == Some(slot) }

  /**
   * What triggering does, exactly. A key already used, unless it is empty, answers with
   * an execution that has it; a slot already used, or the empty key again, is refused; in
   * both cases nothing changes. Otherwise there is one more execution, PENDING, of the
   * routine as it is now, with what it was triggered by, and its trigger event.
   */
  lemma TriggersExactly(db: Db, routine: Routine, kind: string, slot: Option<nat>, key: Option<string>, payload: Option<Json>)
    ensures var (db', creation) := TriggerRoutine(db, routine, kind, slot, key, payload);
            if key.Some? && key.value != "" && Keyed(db, routine, key.value) then
              db' == db && creation.Existing? && creation.exec < |db.execs| && db.execs[creation.exec].routineId == routine.id && db.execs[creation.exec].idempotencyKey == key
            else if (key.Some? && Keyed(db, routine, key.value)) || (slot.Some? && Slotted(db, routine, slot.value)) then db' == db && creation == Refused
            else
              creation == Created(|db.execs|) && |db'.execs| == |db.execs| + 1 && db'.execs[..|db.execs|] == db.execs &&
              db'.log == db.log + [RoutineTriggered(|db.execs|)] && db'.routines == db.routines &&
              var x := db'.execs[|db.execs|];
              x.routineId == routine.id && x.routineName == routine.name && x.owner == routine.owner && x.trigger == kind && x.scheduledFor == slot &&
              x.idempotencyKey == key && x.payload == payload && x.caller.None? && x.depth == 0 && x.status.PENDING? && x.startedAt.None? &&
              x.authored == |routine.actions| && x.rows == AuthorRows(routine.actions)
  {
    if key.Some? && Keyed(db, routine, key.value) {
      var found := FindByKey(db.execs, routine.id, key.value);
    }
  }

  lemma TriggerKeeps(db: Db, routine: Routine, kind: string, slot: Option<nat>, key: Option<string>, payload: Option<Json>)
    requires DbInv(db) && RoutineShape(routine)
    ensures DbInv(TriggerRoutine(db, routine, kind, slot, key, payload).0)
  {
    var trigger := Trigger(kind, slot, key, payload, None, 0);
    if !KeyTaken(db.execs, routine.id, key) && !SlotTaken(db.execs, routine.id, slot) {
      NewExecOk(routine, trigger);
      IssueExecution(db.execs, db.log, NewExec(routine, trigger));
    }
  }

  lemma MarkStaleKeeps(db: Db, now: nat, waitingAfter: nat)
    requires DbInv(db)
    ensures DbInv(MarkStale(db, now, waitingAfter))
  {
    var execs, log := db.execs, db.log;
    var execs' := MarkStale(db, now, waitingAfter).execs;
    assert forall e :: 0 <= e < |execs| ==> SameHeader(execs[e], execs'[e]) && execs'[e].rows == execs[e].rows && execs'[e].status.Terminal() == execs[e].status.Terminal();
    forall e: nat | e < |execs'| ensures ExecOk(execs'[e]) && ExecIssued(execs', log, e) {
      assert ExecOk(execs[e]) && ExecIssued(execs, log, e);
    }
    forall e: nat, a: nat | Exists(execs', e, a) ensures RowIssued(execs', log, e, a) {
      assert RowIssued(execs, log, e, a);
    }
    forall k | 0 <= k < |log| ensures InRange(execs', IdOf(log[k])) {
      assert InRange(execs, IdOf(log[k]));
    }
  }

  /** The API stores a routine that passed validation. */
  function SaveRoutine(db: Db, routine: Routine): Db { db.(routines := db.routines[routine.id := routine]) }

  lemma SaveRoutineKeeps(db: Db, routine: Routine)
    requires DbInv(db) && RoutineShape(routine)
    ensures DbInv(SaveRoutine(db, routine))
  {
  }
}
