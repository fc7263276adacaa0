/**
 * The tables of the routine service (store.ts) as one value: executions with
 * their action rows, stored routines, and the outbox. Every function is one
 * statement of the source.
 */
module Store {
  import opened Base
  import opened Progress

  datatype ActionDef = ActionDef(key: string, typ: string, step: nat, params: Json, runIf: Option<RunIf>, forEach: Option<string>)

  datatype Routine = Routine(id: string, owner: string, name: string, actions: seq<ActionDef>)

  /** The routine.run row that called this execution. */
  datatype Caller = Caller(exec: nat, action: nat)

  /**
   * A row of `executions`; its id is its index in the table. `authored` counts the
   * rows that were inserted together with it, before any loop was expanded.
   */
  datatype Exec = Exec(
    routineId: string, routineName: string, owner: string,
    trigger: string, scheduledFor: Option<nat>, idempotencyKey: Option<string>, payload: Option<Json>,
    caller: Option<Caller>, depth: nat,
    status: ExecStatus, startedAt: Option<nat>,
    authored: nat, rows: seq<Row>)

  datatype Outcome = OkResult(output: Json) | FailedResult

  datatype Message =
    | RoutineTriggered(exec: nat)
    | ActionRequested(exec: nat, action: nat, params: Json)
    | ActionResult(exec: nat, action: nat, outcome: Outcome)
    | ExecutionCompleted(exec: nat)
    | ExecutionFailed(exec: nat, failedKey: string)

  /** `log` lists every message ever enqueued in the outbox, in order. */
  datatype Db = Db(routines: map<string, Routine>, execs: seq<Exec>, log: seq<Message>)

  // ---------------------------------------------------------------- executions

  function FindByKey(execs: seq<Exec>, routineId: string, key: string): (found: Option<nat>)
    ensures found.Some? ==> found.value < |execs| && execs[found.value].routineId == routineId && execs[found.value].idempotencyKey == Some(key)
    ensures found.None? ==> forall i :: 0 <= i < |execs| ==> !(execs[i].routineId == routineId && execs[i].idempotencyKey == Some(key))
  {
    if execs == [] then None else
      var front, last := execs[..|execs| - 1], execs[|execs| - 1];
      assert forall i :: 0 <= i < |front| ==> front[i] == execs[i];
      var r := FindByKey(front, routineId, key);
      if r.Some? then r
      else if last.routineId == routineId && last.idempotencyKey == Some(key) then Some(|execs| - 1)
      else None
  }

  /** UNIQUE (routine_id, scheduled_for), where NULL never conflicts. */
  predicate SlotTaken(execs: seq<Exec>, routineId: string, slot: Option<nat>) {
    slot.Some? && exists i :: 0 <= i < |execs| && execs[i].routineId == routineId && execs[i].scheduledFor == slot
  }

  predicate KeyTaken(execs: seq<Exec>, routineId: string, key: Option<string>) {
    key.Some? && FindByKey(execs, routineId, key.value).Some?
  }

  function Enqueue(db: Db, message: Message): Db { db.(log := db.log + [message]) }

  function WithExec(db: Db, e: nat, x: Exec): Db
    requires e < |db.execs|
  {
    db.(execs := db.execs[e := x])
  }

  function SetStatus(db: Db, e: nat, status: ExecStatus, now: nat): Db
    requires e < |db.execs|
  {
    var x := db.execs[e];
    WithExec(db, e, x.(status := status, startedAt := if status.RUNNING? && x.startedAt.None? then Some(now) else x.startedAt))
  }

  // ---------------------------------------------------------------- action rows

  predicate HasRow(db: Db, e: nat, id: nat) { e < |db.execs| && id < |db.execs[e].rows| }

  function WithRows(db: Db, e: nat, rows: seq<Row>): Db
    requires e < |db.execs|
  {
    WithExec(db, e, db.execs[e].(rows := rows))
  }

  function WithRow(db: Db, e: nat, id: nat, row: Row): Db
    requires HasRow(db, e, id)
  {
    WithRows(db, e, db.execs[e].rows[id := row])
  }

  function FreshRow(id: nat, def: ActionDef): Row {
    Row(id, def.key, def.typ, def.step, id, def.params, def.runIf, def.forEach, None, Null, None, Pending, None, None, None)
  }

  /** The rows `insertExecutionActions` writes: one per action, positions in author order. */
  function AuthorRows(actions: seq<ActionDef>): (rows: seq<Row>)
    ensures |rows| == |actions| && forall i :: 0 <= i < |rows| ==> rows[i] == FreshRow(i, actions[i])
  {
    seq(|actions|, i requires 0 <= i < |actions| => FreshRow(i, actions[i]))
  }

  function ChildKey(parentKey: string, index: nat): string { parentKey + "[" + Decimal(index) + "]" }

  function ChildRow(id: nat, head: Row, index: nat, item: Json): Row {
    Row(id, ChildKey(head.key, index), head.typ, head.step, (head.position + 1) * 1000 + index, head.params,
        None, None, Some(head.id), item, Some(index), Pending, None, None, None)
  }

  /** The rows `insertLoopActions` inserts for the items of a loop; `first` is the next free id. */
  function ChildRows(first: nat, head: Row, items: seq<Json>): (rows: seq<Row>)
    ensures |rows| == |items| && forall i :: 0 <= i < |rows| ==> rows[i] == ChildRow(first + i, head, i, items[i])
  {
    seq(|items|, i requires 0 <= i < |items| => ChildRow(first + i, head, i, items[i]))
  }

  function InsertLoop(db: Db, e: nat, id: nat, items: seq<Json>): Db
    requires HasRow(db, e, id)
  {
    var rows := db.execs[e].rows;
    WithRows(db, e, rows + ChildRows(|rows|, rows[id], items))
  }

  function MarkDispatched(db: Db, e: nat, id: nat, now: nat): Db
    requires HasRow(db, e, id)
  {
    WithRow(db, e, id, db.execs[e].rows[id].(status := Dispatched, dispatchedAt := Some(now)))
  }

  function MarkCompleted(db: Db, e: nat, id: nat, output: Json, now: nat): Db
    requires HasRow(db, e, id)
  {
    WithRow(db, e, id, db.execs[e].rows[id].(status := Completed, output := Some(output), finishedAt := Some(now)))
  }

  function MarkFailed(db: Db, e: nat, id: nat, now: nat): Db
    requires HasRow(db, e, id)
  {
    WithRow(db, e, id, db.execs[e].rows[id].(status := Failed, finishedAt := Some(now)))
  }

  function MarkRetrying(db: Db, e: nat, id: nat): Db
    requires HasRow(db, e, id)
  {
    WithRow(db, e, id, db.execs[e].rows[id].(status := Retrying))
  }

  function MarkSkipped(db: Db, e: nat, id: nat, now: nat): Db
    requires HasRow(db, e, id)
  {
    WithRow(db, e, id, db.execs[e].rows[id].(status := Skipped, finishedAt := Some(now)))
  }

  function SkipPendingRows(rows: seq<Row>): (skipped: seq<Row>)
    ensures |skipped| == |rows|
    ensures forall i :: 0 <= i < |rows| ==> skipped[i] == if rows[i].status.Pending? then rows[i].(status := Skipped) else rows[i]
  {
    seq(|rows|, i requires 0 <= i < |rows| => if rows[i].status.Pending? then rows[i].(status := Skipped) else rows[i])
  }

  function SkipPending(db: Db, e: nat): Db
    requires e < |db.execs|
  {
    WithRows(db, e, SkipPendingRows(db.execs[e].rows))
  }

  // ---------------------------------------------------------------- ORDER BY step, position

  predicate Before(a: Row, b: Row) { a.step < b.step || (a.step == b.step && a.position <= b.position) }

  function InsertSorted(rows: seq<Row>, row: Row): seq<Row> {
    if rows == [] then [row]
    else if Before(rows[|rows| - 1], row) then rows + [row]
    else InsertSorted(rows[..|rows| - 1], row) + [rows[|rows| - 1]]
  }

  /** `listExecutionActions`: the rows of an execution in (step, position) order. */
  function Load(rows: seq<Row>): seq<Row> {
    if rows == [] then [] else InsertSorted(Load(rows[..|rows| - 1]), rows[|rows| - 1])
  }

  /** Flags a RUNNING execution whose dispatched action got no answer for too long. */
  predicate IsStale(x: Exec, now: nat, waitingAfter: nat) {
    x.status.RUNNING? &&
    exists i :: 0 <= i < |x.rows| && x.rows[i].status.Dispatched? && x.rows[i].dispatchedAt.Some? && x.rows[i].dispatchedAt.value + waitingAfter < now
  }

  function MarkStale(db: Db, now: nat, waitingAfter: nat): (db': Db)
    ensures |db'.execs| == |db.execs|
    ensures forall e :: 0 <= e < |db.execs| ==> db'.execs[e] == if IsStale(db.execs[e], now, waitingAfter) then db.execs[e].(status := WAITING) else db.execs[e]
    ensures db'.log == db.log && db'.routines == db.routines
  {
    db.(execs := seq(|db.execs|, e requires 0 <= e < |db.execs| =>
      if IsStale(db.execs[e], now, waitingAfter) then db.execs[e].(status := WAITING) else db.execs[e]))
  }
}
