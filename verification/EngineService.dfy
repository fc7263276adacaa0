/**
 * The engine as the source writes it: tables updated in place, the list of actions
 * patched alongside, and the unbounded loop of `#advance`. Every method is proved
 * equal to the function that specifies it.
 */
module EngineService {
  import opened Base
  import opened Templates
  import opened Control
  import opened Progress
  import opened Store
  import opened RowInvariants
  import opened Engine
  import opened AdvanceLoop
  import opened Transactions

  lemma SameRowsSameTables(db: Db, e: nat)
    requires e < |db.execs|
    ensures WithRows(db, e, db.execs[e].rows) == db
  {
    assert db.execs[e := db.execs[e]] == db.execs;
  }

  lemma RowsWritten(db: Db, e: nat, rows: seq<Row>)
    requires e < |db.execs|
    ensures |WithRows(db, e, rows).execs| == |db.execs| && WithRows(db, e, rows).execs[e].rows == rows
  {
  }

  lemma WithRowsTwice(db: Db, e: nat, rows: seq<Row>, rows': seq<Row>)
    requires e < |db.execs|
    ensures WithRows(WithRows(db, e, rows), e, rows') == WithRows(db, e, rows')
  {
    var x, x' := db.execs[e].(rows := rows), db.execs[e].(rows := rows');
    assert db.execs[e := x][e := x'] == db.execs[e := x'];
  }

  /** The last iteration of the loop. */
  lemma AdvanceEnds(env: Env, t: Tx)
    requires TxOk(t) && !DecideNext(t.mem).Dispatch?
    ensures Advance(env, t) ==
      match DecideNext(t.mem)
      case Complete => CompleteExecution(env, t)
      case Fail(failedKey) => FailExecution(t, failedKey)
      case _ => WaitForResults(env, t)
  {
    hide WfRows, LoopOrder, Mirror, StepSorted, CompleteExecution, FailExecution, WaitForResults, DecideNext;
  }

  class ExecutionEngine {
    var routines: map<string, Routine>
    var execs: seq<Exec>
    var log: seq<Message>
    const env: Env

    constructor (env: Env)
      ensures Tables() == Db(map[], [], []) && this.env == env
    {
      this.env := env;
      routines, execs, log := map[], [], [];
    }

    ghost function Tables(): Db
      reads this
    {
      Db(routines, execs, log)
    }

    // -------------------------------------------------------------- store.ts

    method UpdateRow(e: nat, id: nat, row: Row)
      requires HasRow(Tables(), e, id)
      modifies `execs
      ensures Tables() == WithRow(old(Tables()), e, id, row)
    {
      execs := execs[e := execs[e].(rows := execs[e].rows[id := row])];
    }

    method MarkActionDispatched(e: nat, id: nat, now: nat)
      requires HasRow(Tables(), e, id)
      modifies `execs
      ensures Tables() == MarkDispatched(old(Tables()), e, id, now)
    {
      UpdateRow(e, id, execs[e].rows[id].(status := Dispatched, dispatchedAt := Some(now)));
    }

    method MarkActionCompleted(e: nat, id: nat, output: Json, now: nat)
      requires HasRow(Tables(), e, id)
      modifies `execs
      ensures Tables() == MarkCompleted(old(Tables()), e, id, output, now)
    {
      UpdateRow(e, id, execs[e].rows[id].(status := Completed, output := Some(output), finishedAt := Some(now)));
    }

    method MarkActionFailed(e: nat, id: nat, now: nat)
      requires HasRow(Tables(), e, id)
      modifies `execs
      ensures Tables() == MarkFailed(old(Tables()), e, id, now)
    {
      UpdateRow(e, id, execs[e].rows[id].(status := Failed, finishedAt := Some(now)));
    }

    method MarkActionRetrying(e: nat, id: nat)
      requires HasRow(Tables(), e, id)
      modifies `execs
      ensures Tables() == MarkRetrying(old(Tables()), e, id)
    {
      UpdateRow(e, id, execs[e].rows[id].(status := Retrying));
    }

    method MarkActionSkipped(e: nat, id: nat, now: nat)
      requires HasRow(Tables(), e, id)
      modifies `execs
      ensures Tables() == MarkSkipped(old(Tables()), e, id, now)
    {
      UpdateRow(e, id, execs[e].rows[id].(status := Skipped, finishedAt := Some(now)));
    }

    method InsertAction(e: nat, row: Row)
      requires e < |execs|
      modifies `execs
      ensures Tables() == WithRows(old(Tables()), e, old(execs[e].rows) + [row])
    {
      execs := execs[e := execs[e].(rows := execs[e].rows + [row])];
    }

    /** One row per item of the list, after the parent's position. */
    method InsertLoopActions(e: nat, id: nat, items: seq<Json>) returns (children: seq<Row>)
      requires HasRow(Tables(), e, id)
      modifies `execs
      ensures Tables() == InsertLoop(old(Tables()), e, id, items)
      ensures children == ChildRows(|old(execs[e].rows)|, old(execs[e].rows[id]), items)
    {
      hide WithRows;
      ghost var before := Tables();
      var rows := execs[e].rows;
      var head, first := rows[id], |rows|;
      children := [];
      assert rows + [] == rows;
      SameRowsSameTables(before, e);
      var k := 0;
      while k < |items|
        invariant 0 <= k <= |items| && |children| == k && forall j :: 0 <= j < k ==> children[j] == ChildRow(first + j, head, j, items[j])
        invariant Tables() == WithRows(before, e, rows + children)
      {
        var child := ChildRow(first + k, head, k, items[k]);
        RowsWritten(before, e, rows + children);
        assert rows + children + [child] == rows + (children + [child]);
        InsertAction(e, child);
        WithRowsTwice(before, e, rows + children, rows + children + [child]);
        children := children + [child];
        k := k + 1;
      }
      assert children == ChildRows(first, head, items);
    }

    method SkipPendingActions(e: nat)
      requires e < |execs|
      modifies `execs
      ensures Tables() == SkipPending(old(Tables()), e)
    {
      var rows := execs[e].rows;
      var k := 0;
      while k < |rows|
        invariant 0 <= k <= |rows| == |old(execs[e].rows)|
        invariant forall i :: 0 <= i < k ==> rows[i] == SkipPendingRows(old(execs[e].rows))[i]
        invariant forall i :: k <= i < |rows| ==> rows[i] == old(execs[e].rows)[i]
      {
        if rows[k].status.Pending? { rows := rows[k := rows[k].(status := Skipped)]; }
        k := k + 1;
      }
      assert rows == SkipPendingRows(old(execs[e].rows));
      execs := execs[e := execs[e].(rows := rows)];
    }

    method UpdateExecutionStatus(e: nat, status: ExecStatus, now: nat)
      requires e < |execs|
      modifies `execs
      ensures Tables() == SetStatus(old(Tables()), e, status, now)
    {
      var x := execs[e].(status := status);
      if status.RUNNING? && x.startedAt.None? { x := x.(startedAt := Some(now)); }
      execs := execs[e := x];
    }

    /** Flags every RUNNING execution that waits too long for an answer. */
    method MarkStaleExecutionsWaiting(now: nat)
      modifies `execs
      ensures Tables() == MarkStale(old(Tables()), now, env.waitingAfter)
    {
      var e := 0;
      while e < |execs|
        invariant 0 <= e <= |execs| == |old(execs)|
        invariant forall f :: 0 <= f < e ==> execs[f] == MarkStale(old(Tables()), now, env.waitingAfter).execs[f]
        invariant forall f :: e <= f < |execs| ==> execs[f] == old(execs)[f]
      {
        if IsStale(execs[e], now, env.waitingAfter) { execs := execs[e := execs[e].(status := WAITING)]; }
        e := e + 1;
      }
      assert execs == MarkStale(old(Tables()), now, env.waitingAfter).execs;
    }

    method EnqueueMessage(message: Message)
      modifies `log
      ensures Tables() == Enqueue(old(Tables()), message)
    {
      log := log + [message];
    }

    // -------------------------------------------------------------- engine.ts

    /** Creates a PENDING execution with its action rows and emits RoutineTriggered. */
    method NewExecution(routine: Routine, trigger: Trigger) returns (creation: Creation)
      modifies this
      ensures routines == old(routines)
      ensures (Tables(), creation) == CreateExecution(old(Tables()), routine, trigger)
    {
      if Truthy(trigger.idempotencyKey) {
        var existing := FindByKey(execs, routine.id, trigger.idempotencyKey.value);
        if existing.Some? { return Existing(existing.value); }
      }
      if KeyTaken(execs, routine.id, trigger.idempotencyKey) || SlotTaken(execs, routine.id, trigger.scheduledFor) { return Refused; }
      var rows: seq<Row> := [];
      var k := 0;
      while k < |routine.actions|
        invariant 0 <= k <= |routine.actions| && rows == AuthorRows(routine.actions)[..k]
      {
        assert AuthorRows(routine.actions)[..k + 1] == rows + [FreshRow(k, routine.actions[k])];
        rows := rows + [FreshRow(k, routine.actions[k])];
        k := k + 1;
      }
      assert rows == AuthorRows(routine.actions);
      var e := |execs|;
      execs := execs + [Exec(routine.id, routine.name, routine.owner, trigger.kind, trigger.scheduledFor, trigger.idempotencyKey, trigger.payload,
                             trigger.caller, trigger.depth, PENDING, None, |routine.actions|, rows)];
      EnqueueMessage(RoutineTriggered(e));
      return Created(e);
    }

    method Report(e: nat, outcome: Outcome)
      requires e < |execs|
      modifies `log
      ensures Tables() == ReportToCaller(old(Tables()), e, outcome)
    {
      if execs[e].caller.Some? {
        EnqueueMessage(ActionResult(execs[e].caller.value.exec, execs[e].caller.value.action, outcome));
      }
    }

    /** The transaction a method works in, as the value the specification speaks of. */
    ghost function Current(e: nat, now: nat, loaded: ExecStatus, actions: seq<Row>): Tx
      reads this
    {
      Tx(e, now, loaded, Tables(), actions)
    }

    method FailAction(e: nat, now: nat, ghost loaded: ExecStatus, actions: seq<Row>, i: nat) returns (patched: seq<Row>)
      requires Current(e, now, loaded, actions).Bounded() && i < |actions|
      modifies this
      ensures routines == old(routines) && log == old(log)
      ensures Current(e, now, loaded, patched) == FailRow(old(Current(e, now, loaded, actions)), i)
    {
      MarkActionFailed(e, actions[i].id, now);
      patched := actions[i := actions[i].(status := Failed)];
    }

    method CompleteAction(e: nat, now: nat, ghost loaded: ExecStatus, actions: seq<Row>, i: nat, output: Json) returns (patched: seq<Row>)
      requires Current(e, now, loaded, actions).Bounded() && i < |actions|
      modifies this
      ensures routines == old(routines) && log == old(log)
      ensures Current(e, now, loaded, patched) == CompleteRow(old(Current(e, now, loaded, actions)), i, output)
    {
      MarkActionCompleted(e, actions[i].id, output, now);
      patched := actions[i := actions[i].(status := Completed, output := Some(output))];
    }

    method ExpandLoop(e: nat, now: nat, ghost loaded: ExecStatus, actions: seq<Row>, i: nat, items: seq<Json>) returns (patched: seq<Row>)
      requires Current(e, now, loaded, actions).Bounded() && i < |actions|
      modifies this
      ensures routines == old(routines) && log == old(log)
      ensures Current(e, now, loaded, patched) == Expand(old(Current(e, now, loaded, actions)), i, items)
    {
      ghost var t := Current(e, now, loaded, actions);
      var children := InsertLoopActions(e, actions[i].id, items);
      var all := actions + children;
      assert Current(e, now, loaded, all) == t.(db := InsertLoop(t.db, t.e, t.mem[i].id, items), mem := t.mem + ChildRows(|t.Rows()|, t.Rows()[t.mem[i].id], items));
      patched := CompleteAction(e, now, loaded, all, i, Obj(map["count" := Num(|items| as real)]));
    }

    method CallRoutine(e: nat, now: nat, ghost loaded: ExecStatus, actions: seq<Row>, i: nat, target: Routine, params: Json) returns (patched: seq<Row>)
      requires Current(e, now, loaded, actions).Bounded() && i < |actions|
      modifies this
      ensures routines == old(routines)
      ensures Current(e, now, loaded, patched) == Call(old(Current(e, now, loaded, actions)), i, target, params)
    {
      MarkActionDispatched(e, actions[i].id, now);
      var input := Field(params, "input");
      var _ := NewExecution(target, Trigger("routine", None, None, Some(Obj(map["input" := if input.Some? then input.value else Null])),
                                            Some(Caller(e, actions[i].id)), execs[e].depth + 1));
      patched := actions[i := actions[i].(status := Dispatched, dispatchedAt := Some(now))];
    }

    method EvaluateAction(e: nat, now: nat, ghost loaded: ExecStatus, actions: seq<Row>, i: nat, params: Json) returns (patched: seq<Row>)
      requires Current(e, now, loaded, actions).Bounded() && i < |actions|
      modifies this
      ensures routines == old(routines) && log == old(log)
      ensures Current(e, now, loaded, patched) == Script(env, old(Current(e, now, loaded, actions)), i, params)
    {
      MarkActionDispatched(e, actions[i].id, now);
      match Evaluate(env, actions[i].typ, params)
      case Some(output) => patched := CompleteAction(e, now, loaded, actions, i, output);
      case None => patched := FailAction(e, now, loaded, actions, i);
    }

    /** "Only if": the condition did not hold, or did not run. */
    method ConditionUnmet(actions: seq<Row>, a: Row) returns (unmet: bool)
      ensures unmet <==> a.runIf.Some? && !RunIfHolds(actions, a.runIf.value)
    {
      if a.runIf.None? { return false; }
      var condition := FindKey(actions, a.runIf.value.action);
      return condition.None? || !ConditionMet(actions[condition.value], a.runIf.value.expected);
    }

    /** The body of the loop over a batch; returns the params of a row that is to go to a worker. */
    method HandleAction(e: nat, now: nat, ghost loaded: ExecStatus, actions: seq<Row>, i: nat) returns (patched: seq<Row>, toSend: Option<Json>)
      requires Current(e, now, loaded, actions).Bounded() && i < |actions|
      modifies this
      ensures routines == old(routines)
      ensures (Current(e, now, loaded, patched), toSend) == ProcessOne(env, old(Current(e, now, loaded, actions)), i)
    {
      hide Resolve, Scope, TargetOf, Call, Expand, Script, FailRow, RunIfHolds;
      var a := actions[i];
      toSend := None;
      var unmet := ConditionUnmet(actions, a);
      if unmet {
        MarkActionSkipped(e, a.id, now);
        patched := actions[i := a.(status := Skipped)];
        return;
      }
      var scope := Scope(env, e, execs[e], actions, a, now);
      if a.LoopHead() {
        var list := Resolve(Str(a.forEach.value), scope, env.render);
        if list.None? || !list.value.Arr? || |list.value.items| > MAX_LOOP_ITEMS {
          patched := FailAction(e, now, loaded, actions, i);
        } else {
          patched := ExpandLoop(e, now, loaded, actions, i, list.value.items);
        }
        return;
      }
      var params := Resolve(a.params, scope, env.render);
      if params.None? {
        patched := FailAction(e, now, loaded, actions, i);
        return;
      }
      if a.typ == ROUTINE_RUN {
        var target := TargetOf(Db(routines, execs, log), execs[e].owner, params.value);
        if target.None? || execs[e].depth >= MAX_CALL_DEPTH {
          patched := FailAction(e, now, loaded, actions, i);
        } else {
          patched := CallRoutine(e, now, loaded, actions, i, target.value, params.value);
        }
        return;
      }
      if IsControl(a.typ) {
        patched := EvaluateAction(e, now, loaded, actions, i, params.value);
        return;
      }
      return actions, params;
    }

    method HandleBatch(e: nat, now: nat, ghost loaded: ExecStatus, actions: seq<Row>, batch: seq<nat>) returns (patched: seq<Row>, toSend: seq<Send>)
      requires Current(e, now, loaded, actions).Bounded() && forall k :: 0 <= k < |batch| ==> batch[k] < |actions|
      modifies this
      ensures routines == old(routines)
      ensures (Current(e, now, loaded, patched), toSend) == RunBatch(env, old(Current(e, now, loaded, actions)), batch)
    {
      ghost var t := Current(e, now, loaded, actions);
      hide ProcessOne;
      patched, toSend := actions, [];
      assert batch[..0] == [];
      var k := 0;
      while k < |batch|
        invariant 0 <= k <= |batch| && routines == t.db.routines
        invariant (Current(e, now, loaded, patched), toSend) == RunBatch(env, t, batch[..k])
      {
        assert batch[..k + 1][..k] == batch[..k];
        var params: Option<Json>;
        patched, params := HandleAction(e, now, loaded, patched, batch[k]);
        if params.Some? { toSend := toSend + [Send(batch[k], params.value)]; }
        k := k + 1;
      }
      assert batch[..|batch|] == batch;
    }

    method SendToWorkers(e: nat, now: nat, ghost loaded: ExecStatus, actions: seq<Row>, toSend: seq<Send>) returns (patched: seq<Row>)
      requires Current(e, now, loaded, actions).Bounded() && forall k :: 0 <= k < |toSend| ==> toSend[k].i < |actions|
      modifies this
      ensures routines == old(routines)
      ensures Current(e, now, loaded, patched) == SendAll(old(Current(e, now, loaded, actions)), toSend)
    {
      ghost var t := Current(e, now, loaded, actions);
      patched := actions;
      assert toSend[..0] == [];
      var k := 0;
      while k < |toSend|
        invariant 0 <= k <= |toSend| && routines == t.db.routines
        invariant Current(e, now, loaded, patched) == SendAll(t, toSend[..k])
      {
        assert toSend[..k + 1][..k] == toSend[..k];
        var s := toSend[k];
        MarkActionDispatched(e, patched[s.i].id, now);
        EnqueueMessage(ActionRequested(e, patched[s.i].id, s.params));
        patched := patched[s.i := patched[s.i].(status := Dispatched, dispatchedAt := Some(now))];
        k := k + 1;
      }
      assert toSend[..|toSend|] == toSend;
    }

    method CompleteRun(e: nat, now: nat, ghost loaded: ExecStatus, actions: seq<Row>)
      requires Current(e, now, loaded, actions).Bounded()
      modifies this
      ensures routines == old(routines)
      ensures Tables() == CompleteExecution(env, old(Current(e, now, loaded, actions))).db
    {
      UpdateExecutionStatus(e, COMPLETED, now);
      EnqueueMessage(ExecutionCompleted(e));
      Report(e, OkResult(SubRoutineOutput(env, e, actions)));
    }

    method FailRun(e: nat, now: nat, ghost loaded: ExecStatus, actions: seq<Row>, failedKey: string)
      requires Current(e, now, loaded, actions).Bounded()
      modifies this
      ensures routines == old(routines)
      ensures Tables() == FailExecution(old(Current(e, now, loaded, actions)), failedKey).db
    {
      SkipPendingActions(e);
      UpdateExecutionStatus(e, FAILED, now);
      EnqueueMessage(ExecutionFailed(e, failedKey));
      Report(e, FailedResult);
    }

    method WaitRun(e: nat, now: nat, loaded: ExecStatus, actions: seq<Row>)
      requires Current(e, now, loaded, actions).Bounded()
      modifies this
      ensures routines == old(routines)
      ensures Tables() == WaitForResults(env, old(Current(e, now, loaded, actions))).db
    {
      var status := InFlightStatus(actions, now, env.waitingAfter);
      if status != loaded { UpdateExecutionStatus(e, status, now); }
    }

    /** `#advance`: decide and act until results are awaited or the run has ended. */
    method AdvanceRun(e: nat, now: nat, loaded: ExecStatus, initial: seq<Row>)
      requires TxOk(Current(e, now, loaded, initial))
      modifies this
      ensures routines == old(routines)
      ensures Tables() == Advance(env, old(Current(e, now, loaded, initial))).db
    {
      hide WfRows, LoopOrder, Mirror, StepSorted, RunBatch, SendAll, BatchOf, Advance, CompleteExecution, FailExecution, WaitForResults;
      ghost var t0 := Current(e, now, loaded, initial);
      var actions := initial;
      while true
        invariant routines == t0.db.routines
        invariant TxOk(Current(e, now, loaded, actions)) && Advance(env, Current(e, now, loaded, actions)) == Advance(env, t0)
        decreases Measure(actions)
      {
        var decision := DecideNext(actions);
        match decision {
          case Dispatch(step, keys) =>
            ghost var t := Current(e, now, loaded, actions);
            AdvanceDispatches(env, t);
            var batch := BatchOf(actions, keys);
            var toSend: seq<Send>;
            actions, toSend := HandleBatch(e, now, loaded, actions, batch);
            if BatchFailed(actions, batch) { continue; }
            actions := SendToWorkers(e, now, loaded, actions, toSend);
            UpdateExecutionStatus(e, RUNNING, now);
            if toSend == [] { continue; }
            return;
          case Complete =>
            AdvanceEnds(env, Current(e, now, loaded, actions));
            CompleteRun(e, now, loaded, actions);
            return;
          case Fail(failedKey) =>
            AdvanceEnds(env, Current(e, now, loaded, actions));
            FailRun(e, now, loaded, actions, failedKey);
            return;
          case Wait =>
            AdvanceEnds(env, Current(e, now, loaded, actions));
            WaitRun(e, now, loaded, actions);
            return;
        }
      }
    }

    /** Handles RoutineTriggered. */
    method StartExecution(e: nat, now: nat)
      requires LayoutOk(Tables())
      modifies this
      ensures routines == old(routines)
      ensures Tables() == Start(env, old(Tables()), e, now)
    {
      if e >= |execs| || !execs[e].status.PENDING? { return; }
      UpdateExecutionStatus(e, RUNNING, now);
      LockOk(Tables(), e, now);
      AdvanceRun(e, now, RUNNING, Load(execs[e].rows));
    }

    /** Handles ActionCompleted, ActionFailed and ActionRetryScheduled. */
    method TakeActionResult(e: nat, id: nat, report: Transactions.Report, now: nat)
      requires LayoutOk(Tables())
      modifies this
      ensures routines == old(routines)
      ensures Tables() == ApplyResult(env, old(Tables()), e, id, report, now)
    {
      hide WfRows, LoopOrder, Mirror, StepSorted, Advance, Load;
      if e >= |execs| { return; }
      var loaded, actions := execs[e].status, Load(execs[e].rows);
      LockOk(Tables(), e, now);
      ghost var t := Current(e, now, loaded, actions);
      var found := FindId(actions, id);
      if found.None? || actions[found.value].status.Terminal() { return; }
      var i := found.value;
      RecordUpdates(t, i, report);
      match report {
        case Final(OkResult(output)) =>
          actions := CompleteAction(e, now, loaded, actions, i, output);
        case Final(FailedResult) =>
          actions := FailAction(e, now, loaded, actions, i);
        case RetryScheduled =>
          MarkActionRetrying(e, actions[i].id);
          actions := actions[i := actions[i].(status := Retrying)];
      }
      assert Current(e, now, loaded, actions) == Record(t, i, report);
      if loaded.Terminal() { return; }
      AdvanceRun(e, now, loaded, actions);
    }
  }
}
