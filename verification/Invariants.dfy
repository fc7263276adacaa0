/**
 * The invariants of the whole database, and why one pass of `#advance` keeps
 * them: the step barrier, the settled form of every execution at a commit, and
 * the exact accounting of messages and calls.
 */
module Invariants {
  import opened Base
  import opened Templates
  import opened Control
  import opened Progress
  import opened Store
  import opened RowInvariants
  import opened Engine
  import opened AdvanceLoop
  import opened Issues

  /** Rows below step `c` are finished without failure, rows above it untouched. */
  predicate BarrierAt(rows: seq<Row>, c: nat) {
    forall i :: 0 <= i < |rows| ==> (rows[i].step < c ==> rows[i].status.Done()) && (rows[i].step > c ==> rows[i].status.Pending?)
  }

  ghost predicate Barrier(rows: seq<Row>) { exists c: nat :: BarrierAt(rows, c) }

  /** What the rows of an execution look like at a commit, given its status. */
  ghost predicate Settled(x: Exec) {
    match x.status
    case PENDING => |x.rows| == x.authored && forall i :: 0 <= i < |x.rows| ==> x.rows[i].status.Pending?
    case RUNNING => x.startedAt.Some? && AnyInFlight(x.rows) && !AnyFailed(x.rows) && Barrier(x.rows)
    case WAITING => x.startedAt.Some? && AnyInFlight(x.rows) && !AnyFailed(x.rows) && Barrier(x.rows)
    case COMPLETED => forall i :: 0 <= i < |x.rows| ==> x.rows[i].status.Done()
    case FAILED => AnyFailed(x.rows) && !AnyPending(x.rows)
  }

  ghost predicate ExecOk(x: Exec) { WfRows(x.rows, x.authored) && LoopOrder(x.rows, x.authored) && Settled(x) }

  /** A stored routine: actions in step order under unique keys without brackets. */
  predicate RoutineShape(routine: Routine) {
    |routine.actions| <= MAX_ACTIONS &&
    (forall i :: 0 <= i < |routine.actions| ==> BracketFree(routine.actions[i].key)) &&
    (forall i, j :: 0 <= i < j < |routine.actions| ==>
      routine.actions[i].step <= routine.actions[j].step && routine.actions[i].key != routine.actions[j].key)
  }

  predicate RoutinesOk(routines: map<string, Routine>) { forall id :: id in routines ==> RoutineShape(routines[id]) }

  ghost predicate DbInv(db: Db) {
    RoutinesOk(db.routines) && (forall e :: 0 <= e < |db.execs| ==> ExecOk(db.execs[e])) && Issued(db.execs, db.log)
  }

  /** The database in the middle of a transaction on `e`: every other execution is settled. */
  ghost predicate MidTx(db: Db, e: nat) {
    e < |db.execs| && RoutinesOk(db.routines) && Issued(db.execs, db.log) &&
    (db.execs[e].status.RUNNING? || db.execs[e].status.WAITING?) && db.execs[e].startedAt.Some? &&
    (forall f :: 0 <= f < |db.execs| && f != e ==> ExecOk(db.execs[f]))
  }

  ghost predicate TxInv(t: Tx) { TxOk(t) && MidTx(t.db, t.e) && Barrier(t.Rows()) }

  // ---------------------------------------------------------------- reading memory instead of the table

  predicate Shows(mem: seq<Row>, id: nat, row: Row) { exists i :: 0 <= i < |mem| && mem[i].id == id && SameButTimes(mem[i], row) }

  lemma MirrorAgrees(mem: seq<Row>, rows: seq<Row>)
    requires Mirror(mem, rows)
    ensures AnyFailed(mem) <==> AnyFailed(rows)
    ensures AnyInFlight(mem) <==> AnyInFlight(rows)
    ensures AnyPending(mem) <==> AnyPending(rows)
    ensures forall id: nat :: id < |rows| ==> Shows(mem, id, rows[id])
  {
    forall id: nat | id < |rows| ensures Shows(mem, id, rows[id]) {
      assert Holds(mem, id);
      var i :| 0 <= i < |mem| && mem[i].id == id;
      assert SameButTimes(mem[i], rows[mem[i].id]);
    }
    forall i | 0 <= i < |mem| ensures mem[i].status == rows[mem[i].id].status {
      assert SameButTimes(mem[i], rows[mem[i].id]);
    }
    assert forall id: nat :: id < |rows| ==> Shows(mem, id, rows[id]);
  }

  lemma MirrorRow(mem: seq<Row>, rows: seq<Row>, i: nat)
    requires Mirror(mem, rows) && i < |mem|
    ensures mem[i].id < |rows| && SameButTimes(mem[i], rows[mem[i].id])
  {
  }

  /** When a step is dispatched, it is the barrier. */
  lemma DispatchAtBarrier(mem: seq<Row>, rows: seq<Row>)
    requires Mirror(mem, rows) && Barrier(rows) && DecideNext(mem).Dispatch?
    ensures BarrierAt(rows, DecideNext(mem).step)
  {
    hide Mirror;
    var c: nat :| BarrierAt(rows, c);
    var s := DecideNext(mem).step;
    MirrorAgrees(mem, rows);
    var j :| 0 <= j < |mem| && mem[j].status.Pending? && mem[j].step == s;
    MirrorRow(mem, rows, j);
    forall id | 0 <= id < |rows| ensures (rows[id].step < s ==> rows[id].status.Done()) && (rows[id].step > s ==> rows[id].status.Pending?) {
      assert Shows(mem, id, rows[id]);
    }
  }

  // ---------------------------------------------------------------- one row

  /** Only rows of step `s` change, and only rows of step `s` appear. */
  predicate StepOnly(rows: seq<Row>, rows': seq<Row>, s: nat) {
    |rows'| >= |rows| &&
    (forall a :: 0 <= a < |rows| ==> rows'[a].step == rows[a].step && (rows[a].step != s ==> rows'[a] == rows[a])) &&
    (forall a :: |rows| <= a < |rows'| ==> rows'[a].step == s)
  }

  lemma StepOnlyKeepsBarrier(rows: seq<Row>, rows': seq<Row>, s: nat)
    requires BarrierAt(rows, s) && StepOnly(rows, rows', s)
    ensures BarrierAt(rows', s)
  {
  }

  /** What happens to the database inside a transaction: rows of `e` move, calls append executions. */
  ghost predicate DbEffect(db: Db, db': Db, e: nat, s: nat)
    requires e < |db.execs|
  {
    MidTx(db', e) && |db'.execs| >= |db.execs| && db'.execs[e] == db.execs[e].(rows := db'.execs[e].rows) &&
    StepOnly(db.execs[e].rows, db'.execs[e].rows, s)
  }

  lemma NewExecOk(routine: Routine, trigger: Trigger)
    requires RoutineShape(routine)
    ensures ExecOk(NewExec(routine, trigger))
  {
  }

  lemma MoveEffect(db: Db, e: nat, rows': seq<Row>, s: nat)
    requires MidTx(db, e) && RowMoves(db.execs[e].rows, rows') && StepOnly(db.execs[e].rows, rows', s)
    ensures DbEffect(db, WithRows(db, e, rows'), e, s)
  {
    MoveRows(db.execs, db.log, e, db.execs[e].(rows := rows'));
  }

  /** Effect of a single-row update that does not dispatch. */
  lemma UpdateEffect(t: Tx, i: nat, r: Row, db': Db)
    requires TxOk(t) && MidTx(t.db, t.e) && i < |t.mem| && t.mem[i].status.Pending?
    requires StaticSame(t.Rows()[t.mem[i].id], r) && !r.status.InFlight()
    requires db' == WithRow(t.db, t.e, t.mem[i].id, r)
    ensures DbEffect(t.db, db', t.e, t.mem[i].step)
  {
    assert SameButTimes(t.mem[i], t.Rows()[t.mem[i].id]);
    MoveEffect(t.db, t.e, t.Rows()[t.mem[i].id := r], t.mem[i].step);
  }

  lemma WithRowTwice(db: Db, e: nat, id: nat, r: Row, r': Row)
    requires HasRow(db, e, id)
    ensures WithRow(WithRow(db, e, id, r), e, id, r') == WithRow(db, e, id, r')
  {
    assert db.execs[e].rows[id := r][id := r'] == db.execs[e].rows[id := r'];
    assert db.execs[e := db.execs[e].(rows := db.execs[e].rows[id := r])][e := db.execs[e].(rows := db.execs[e].rows[id := r'])]
        == db.execs[e := db.execs[e].(rows := db.execs[e].rows[id := r'])];
  }

  lemma ScriptEffect(env: Env, t: Tx, i: nat, params: Json)
    requires TxOk(t) && MidTx(t.db, t.e) && i < |t.mem| && t.mem[i].status.Pending?
    ensures DbEffect(t.db, Script(env, t, i, params).db, t.e, t.mem[i].step)
  {
    var id := t.mem[i].id;
    var db' := Script(env, t, i, params).db;
    WithRowTwice(t.db, t.e, id, t.Rows()[id].(status := Dispatched, dispatchedAt := Some(t.now)), db'.execs[t.e].rows[id]);
    UpdateEffect(t, i, db'.execs[t.e].rows[id], db');
  }

  lemma ExpandEffect(t: Tx, i: nat, items: seq<Json>)
    requires TxOk(t) && MidTx(t.db, t.e) && i < |t.mem| && t.mem[i].status.Pending?
    ensures DbEffect(t.db, Expand(t, i, items).db, t.e, t.mem[i].step)
  {
    hide WfRows, LoopOrder, StepSorted, MidTx;
    var rows, id := t.Rows(), t.mem[i].id;
    assert SameButTimes(t.mem[i], rows[id]);
    var children := ChildRows(|rows|, rows[id], items);
    var db' := Expand(t, i, items).db;
    var rows' := db'.execs[t.e].rows;
    assert rows' == (rows + children)[id := rows'[id]];
    forall a | |rows| <= a < |rows'| ensures rows'[a].step == t.mem[i].step && rows'[a].status.Pending? {
      assert rows'[a] == children[a - |rows|];
    }
    assert db' == WithRows(t.db, t.e, rows') by {
      assert db'.execs == t.db.execs[t.e := t.db.execs[t.e].(rows := rows')];
    }
    MoveEffect(t.db, t.e, rows', t.mem[i].step);
  }

  lemma CallEffect(t: Tx, i: nat, target: Routine, params: Json)
    requires TxOk(t) && MidTx(t.db, t.e) && i < |t.mem| && t.mem[i].status.Pending?
    requires t.mem[i].typ == ROUTINE_RUN && !t.mem[i].LoopHead() && t.db.execs[t.e].depth < MAX_CALL_DEPTH && RoutineShape(target)
    ensures DbEffect(t.db, Call(t, i, target, params).db, t.e, t.mem[i].step)
  {
    hide Issued, WfRows, LoopOrder, StepSorted, RoutineShape;
    var id := t.mem[i].id;
    assert SameButTimes(t.mem[i], t.Rows()[id]);
    var row := t.Rows()[id].(status := Dispatched, dispatchedAt := Some(t.now));
    var db1 := MarkDispatched(t.db, t.e, id, t.now);
    var db' := Call(t, i, target, params).db;
    var x := db'.execs[|t.db.execs|];
    assert db'.execs == db1.execs + [x];
    assert db'.log == t.db.log + [RoutineTriggered(|t.db.execs|)];
    assert forall k :: 0 <= k < |x.rows| ==> x.rows[k].status.Pending?;
    IssueCall(t.db.execs, t.db.log, t.e, id, row, x);
    assert ExecOk(x) by {
      var input := Field(params, "input");
      NewExecOk(target, Trigger("routine", None, None, Some(Obj(map["input" := if input.Some? then input.value else Null])),
                                Some(Caller(t.e, id)), t.db.execs[t.e].depth + 1));
    }
  }

  lemma ProcessOneEffect(env: Env, t: Tx, i: nat)
    requires TxOk(t) && MidTx(t.db, t.e) && i < |t.mem| && t.mem[i].status.Pending?
    ensures DbEffect(t.db, ProcessOne(env, t, i).0.db, t.e, t.mem[i].step)
  {
    hide Issued, Settled, Mirror, StepSorted, WfRows, LoopOrder;
    var a := t.mem[i];
    SimpleEffects(t, i);
    if a.runIf.Some? && !RunIfHolds(t.mem, a.runIf.value) {
    } else if a.LoopHead() {
      match Resolve(Str(a.forEach.value), ScopeFor(env, t, i), env.render)
      case Some(Arr(items)) => ExpandEffect(t, i, items);
      case _ =>
    } else {
      match Resolve(a.params, ScopeFor(env, t, i), env.render)
      case None =>
      case Some(params) =>
        if a.typ == ROUTINE_RUN {
          var target := TargetOf(t.db, t.db.execs[t.e].owner, params);
          if target.Some? && t.db.execs[t.e].depth < MAX_CALL_DEPTH { CallEffect(t, i, target.value, params); }
        } else if IsControl(a.typ) {
          ScriptEffect(env, t, i, params);
        }
    }
  }

  lemma SimpleEffects(t: Tx, i: nat)
    requires TxOk(t) && MidTx(t.db, t.e) && i < |t.mem| && t.mem[i].status.Pending?
    ensures DbEffect(t.db, t.db, t.e, t.mem[i].step)
    ensures DbEffect(t.db, Skip(t, i).db, t.e, t.mem[i].step)
    ensures DbEffect(t.db, FailRow(t, i).db, t.e, t.mem[i].step)
  {
    var id := t.mem[i].id;
    UpdateEffect(t, i, t.Rows()[id].(status := Skipped, finishedAt := Some(t.now)), Skip(t, i).db);
    UpdateEffect(t, i, t.Rows()[id].(status := Failed, finishedAt := Some(t.now)), FailRow(t, i).db);
  }

  // ---------------------------------------------------------------- a batch and its sends

  lemma {:induction false} RunBatchEffect(env: Env, t: Tx, s: nat, batch: seq<nat>, k: nat)
    requires TxOk(t) && MidTx(t.db, t.e) && BarrierAt(t.Rows(), s) && IsBatch(t.mem, s, batch) && k <= |batch|
    ensures var (t1, sends) := RunBatch(env, t, batch[..k]);
            t1.e == t.e && MidTx(t1.db, t.e) && BarrierAt(t1.Rows(), s)
  {
    hide MidTx, MemAfter, ProcessOne, BarrierAt, StepOnly, Mirror, StepSorted, WfRows, LoopOrder, SendsFit;
    if k == 0 {
      assert batch[..k] == [];
    } else {
      var done, i := batch[..k - 1], batch[k - 1];
      assert batch[..k][..k - 1] == done && batch[..k][|batch[..k]| - 1] == i;
      RunBatchEffect(env, t, s, batch, k - 1);
      RunBatchKeeps(env, t, s, batch, k - 1);
      var (t1, sends) := RunBatch(env, t, done);
      NextRowReady(t.mem, t1.mem, s, batch, k, sends);
      ProcessOneEffect(env, t1, i);
      ProcessOneSameTx(env, t1, i);
      StepOnlyKeepsBarrier(t1.Rows(), ProcessOne(env, t1, i).0.Rows(), s);
    }
  }

  lemma ProcessOneSameTx(env: Env, t: Tx, i: nat)
    requires t.Bounded() && i < |t.mem|
    ensures SameTx(t, ProcessOne(env, t, i).0)
  {
  }

  lemma SendOneEffect(t: Tx, s: nat, send: Send)
    requires TxOk(t) && MidTx(t.db, t.e) && BarrierAt(t.Rows(), s)
    requires send.i < |t.mem| && SendReady(t.mem[send.i]) && t.mem[send.i].step == s
    ensures MidTx(SendOne(t, send).db, t.e) && BarrierAt(SendOne(t, send).Rows(), s)
  {
    var id := t.mem[send.i].id;
    assert SameButTimes(t.mem[send.i], t.Rows()[id]);
    IssueRequest(t.db.execs, t.db.log, t.e, id, t.Rows()[id].(status := Dispatched, dispatchedAt := Some(t.now)), send.params);
  }

  lemma {:induction false} SendAllEffect(t: Tx, s: nat, sends: seq<Send>)
    requires TxOk(t) && MidTx(t.db, t.e) && BarrierAt(t.Rows(), s)
    requires forall q :: 0 <= q < |sends| ==> sends[q].i < |t.mem| && SendReady(t.mem[sends[q].i]) && t.mem[sends[q].i].step == s
    requires forall q, r :: 0 <= q < r < |sends| ==> sends[q].i != sends[r].i
    ensures MidTx(SendAll(t, sends).db, t.e) && BarrierAt(SendAll(t, sends).Rows(), s) && SendAll(t, sends).e == t.e
  {
    hide Issued, Settled, Mirror, StepSorted, WfRows, LoopOrder;
    if sends != [] {
      var front, last := sends[..|sends| - 1], sends[|sends| - 1];
      SendAllEffect(t, s, front);
      SendAllKeeps(t, front);
      SentGrows(t.mem, SendAll(t, front).mem, sends, t.now);
      SendOneEffect(SendAll(t, front), s, last);
    }
  }

  // ---------------------------------------------------------------- the four ends of a pass

  lemma StatusEffect(db: Db, e: nat, status: ExecStatus, now: nat)
    requires MidTx(db, e) && (status.RUNNING? || status.WAITING?)
    ensures MidTx(SetStatus(db, e, status, now), e) && SetStatus(db, e, status, now).execs[e].rows == db.execs[e].rows
  {
    MoveRows(db.execs, db.log, e, SetStatus(db, e, status, now).execs[e]);
  }

  lemma WaitCommits(env: Env, t: Tx)
    requires TxInv(t) && DecideNext(t.mem).Wait?
    ensures DbInv(WaitForResults(env, t).db)
  {
    MirrorAgrees(t.mem, t.Rows());
    var status := InFlightStatus(t.mem, t.now, env.waitingAfter);
    if status != t.loaded { StatusEffect(t.db, t.e, status, t.now); }
  }

  lemma EndCommits(db: Db, e: nat, status: ExecStatus, now: nat, end: Message, outcome: Outcome)
    requires MidTx(db, e) && status.Terminal() && IdOf(end) == EndOf(e)
    requires WfRows(db.execs[e].rows, db.execs[e].authored) && LoopOrder(db.execs[e].rows, db.execs[e].authored)
    requires Settled(db.execs[e].(status := status))
    ensures DbInv(ReportToCaller(Enqueue(SetStatus(db, e, status, now), end), e, outcome))
  {
    var x' := SetStatus(db, e, status, now).execs[e];
    IssueEnd(db.execs, db.log, e, x', end, outcome);
    var db' := ReportToCaller(Enqueue(SetStatus(db, e, status, now), end), e, outcome);
    assert db'.execs == db.execs[e := x'];
    assert db'.log == db.log + [end] + AnswerMessages(x', outcome);
  }

  lemma CompleteCommits(env: Env, t: Tx)
    requires TxInv(t) && DecideNext(t.mem).Complete?
    ensures DbInv(CompleteExecution(env, t).db)
  {
    MirrorAgrees(t.mem, t.Rows());
    EndCommits(t.db, t.e, COMPLETED, t.now, ExecutionCompleted(t.e), OkResult(SubRoutineOutput(env, t.e, t.mem)));
  }

  lemma SkipPendingMoves(rows: seq<Row>)
    ensures RowMoves(rows, SkipPendingRows(rows)) && !AnyPending(SkipPendingRows(rows))
    ensures AnyFailed(rows) ==> AnyFailed(SkipPendingRows(rows))
  {
    if AnyFailed(rows) {
      var i :| 0 <= i < |rows| && rows[i].status.Failed?;
      assert SkipPendingRows(rows)[i].status.Failed?;
    }
  }

  lemma SkipPendingKeeps(rows: seq<Row>, n: nat)
    requires WfRows(rows, n) && LoopOrder(rows, n)
    ensures WfRows(SkipPendingRows(rows), n) && LoopOrder(SkipPendingRows(rows), n)
  {
    var rows' := SkipPendingRows(rows);
    WfStatic(rows, n, rows');
  }

  lemma FailCommits(t: Tx, failedKey: string)
    requires TxInv(t) && DecideNext(t.mem).Fail?
    ensures DbInv(FailExecution(t, failedKey).db)
  {
    hide Issued, WfRows, LoopOrder, StepSorted;
    MirrorAgrees(t.mem, t.Rows());
    var db1 := SkipPending(t.db, t.e);
    SkipPendingMoves(t.Rows());
    SkipPendingKeeps(t.Rows(), t.db.execs[t.e].authored);
    MoveRows(t.db.execs, t.db.log, t.e, db1.execs[t.e]);
    EndCommits(db1, t.e, FAILED, t.now, ExecutionFailed(t.e, failedKey), FailedResult);
  }

  // ---------------------------------------------------------------- the pass

  lemma DispatchEffect(env: Env, t: Tx)
    requires TxInv(t) && DecideNext(t.mem).Dispatch?
    ensures var d := DecideNext(t.mem);
            var batch := BatchOf(t.mem, d.keys);
            var (t1, sends) := RunBatch(env, t, batch);
            TxOk(t1) && t1.e == t.e && MidTx(t1.db, t.e) && BarrierAt(t1.Rows(), d.step)
  {
    hide MidTx, RunBatch, BatchOf, SendsFit, MemAfter, IsBatch, BarrierAt, Mirror, StepSorted, WfRows, LoopOrder;
    var d := DecideNext(t.mem);
    var batch := BatchOf(t.mem, d.keys);
    DispatchAtBarrier(t.mem, t.Rows());
    BatchProgress(env, t);
    RunBatchEffect(env, t, d.step, batch, |batch|);
    assert batch[..|batch|] == batch;
  }

  lemma SendsAtStep(mem: seq<Row>, mem1: seq<Row>, s: nat, batch: seq<nat>, sends: seq<Send>)
    requires IsBatch(mem, s, batch) && MemAfter(mem, mem1, s, batch) && SendsFit(mem1, batch, sends)
    ensures forall q :: 0 <= q < |sends| ==> sends[q].i < |mem1| && SendReady(mem1[sends[q].i]) && mem1[sends[q].i].step == s
  {
    forall q | 0 <= q < |sends| ensures mem1[sends[q].i].step == s {
      assert StaticSame(mem[sends[q].i], mem1[sends[q].i]);
    }
  }

  lemma AfterSendsEffect(t1: Tx, s: nat, sends: seq<Send>)
    requires TxOk(t1) && MidTx(t1.db, t1.e) && BarrierAt(t1.Rows(), s)
    requires forall q :: 0 <= q < |sends| ==> sends[q].i < |t1.mem| && SendReady(t1.mem[sends[q].i]) && t1.mem[sends[q].i].step == s
    requires forall q, r :: 0 <= q < r < |sends| ==> sends[q].i != sends[r].i
    ensures MidTx(AfterSends(t1, sends).db, t1.e) && BarrierAt(AfterSends(t1, sends).Rows(), s) && AfterSends(t1, sends).e == t1.e
  {
    hide Issued, Settled, WfRows, LoopOrder, StepSorted, Mirror, BarrierAt;
    SendAllEffect(t1, s, sends);
    StatusEffect(SendAll(t1, sends).db, t1.e, RUNNING, SendAll(t1, sends).now);
  }

  lemma NoneFailedAfterSends(mem: seq<Row>, mem1: seq<Row>, mem2: seq<Row>, s: nat, batch: seq<nat>, sends: seq<Send>, now: nat)
    requires !AnyFailed(mem) && MemAfter(mem, mem1, s, batch) && !BatchFailed(mem1, batch) && MemSent(mem1, mem2, sends, now)
    requires forall q :: 0 <= q < |sends| ==> sends[q].i < |mem1|
    ensures !AnyFailed(mem2) && (sends != [] ==> AnyInFlight(mem2))
  {
    forall i | 0 <= i < |mem2| ensures !mem2[i].status.Failed? {
      if i < |mem| {
        if i in batch {
          var k :| 0 <= k < |batch| && batch[k] == i;
          assert !mem1[batch[k]].status.Failed?;
        } else {
          assert mem1[i] == mem[i];
        }
      } else {
        assert LightRow(mem1[i], s);
      }
    }
    if sends != [] {
      assert ToSend(sends, sends[0].i);
      assert mem2[sends[0].i].status.InFlight();
    }
  }

  lemma SendsCommit(env: Env, t: Tx)
    requires TxInv(t) && DecideNext(t.mem).Dispatch?
    ensures var d := DecideNext(t.mem);
            var batch := BatchOf(t.mem, d.keys);
            var (t1, sends) := RunBatch(env, t, batch);
            !BatchFailed(t1.mem, batch) ==>
              var t2 := AfterSends(t1, sends);
              TxOk(t2) && SameTx(t, t2) && MidTx(t2.db, t.e) && BarrierAt(t2.Rows(), d.step) && (sends != [] ==> DbInv(t2.db))
  {
    hide DbInv, MidTx, RunBatch, SendAll, BatchOf, IsBatch, MemSent, Barrier, WfRows, LoopOrder, StepSorted, Mirror, BarrierAt, MemAfter;
    var d := DecideNext(t.mem);
    var batch := BatchOf(t.mem, d.keys);
    var (t1, sends) := RunBatch(env, t, batch);
    BatchProgress(env, t);
    DispatchEffect(env, t);
    if !BatchFailed(t1.mem, batch) {
      SendsAtStep(t.mem, t1.mem, d.step, batch, sends);
      AfterSendsKeeps(t1, batch, sends);
      AfterSendsEffect(t1, d.step, sends);
      var t2 := AfterSends(t1, sends);
      if sends != [] {
        NoneFailedAfterSends(t.mem, t1.mem, t2.mem, d.step, batch, sends, t1.now);
        RunningCommits(t2, d.step);
      }
    }
  }

  lemma RunningCommits(t: Tx, s: nat)
    requires TxOk(t) && MidTx(t.db, t.e) && BarrierAt(t.Rows(), s) && t.db.execs[t.e].status.RUNNING?
    requires AnyInFlight(t.mem) && !AnyFailed(t.mem)
    ensures DbInv(t.db)
  {
    hide Issued;
    MirrorAgrees(t.mem, t.Rows());
  }

  /** A pass over a consistent transaction commits a consistent database. */
  lemma {:induction false} AdvanceCommits(env: Env, t: Tx)
    requires TxInv(t)
    ensures DbInv(Advance(env, t).db)
    decreases Measure(t.mem)
  {
    hide Issued, Settled;
    match DecideNext(t.mem)
    case Dispatch(step, keys) =>
      var batch := BatchOf(t.mem, keys);
      var (t1, sends) := RunBatch(env, t, batch);
      BatchProgress(env, t);
      DispatchEffect(env, t);
      if BatchFailed(t1.mem, batch) {
        AdvanceCommits(env, t1);
      } else {
        SendsCommit(env, t);
        AfterSendsKeeps(t1, batch, sends);
        if sends == [] { AdvanceCommits(env, AfterSends(t1, sends)); }
      }
    case Complete => CompleteCommits(env, t);
    case Fail(failedKey) => FailCommits(t, failedKey);
    case Wait => WaitCommits(env, t);
  }
}
