/**
 * The execution engine (engine.ts) as functions on the tables. A transaction
 * carries two copies of an execution's rows, as the source does: the table, and
 * the list in memory that was loaded once and is patched alongside.
 */
module Engine {
  import opened Base
  import opened Templates
  import opened Control
  import opened Progress
  import opened Store

  const MAX_LOOP_ITEMS: nat := 50
  const MAX_CALL_DEPTH: nat := 5

  // ---------------------------------------------------------------- variables

  /** A completed `variable.set` row: its place in the run order and what it assigns. */
  datatype Setter = Setter(step: nat, finished: nat, name: string, value: Json)

  function SetterOf(row: Row): Option<Setter> {
    if !row.status.Completed? || row.typ != VARIABLE || row.output.None? then None else
      match Field(row.output.value, "name")
      case Some(Str(name)) =>
        var value := Field(row.output.value, "value");
        Some(Setter(row.step, if row.finishedAt.Some? then row.finishedAt.value else 0, name,
                    if value.Some? then value.value else Null))
      case _ => None
  }

  function SettersOf(rows: seq<Row>): seq<Setter> {
    if rows == [] then [] else
      var front := SettersOf(rows[..|rows| - 1]);
      var last := SetterOf(rows[|rows| - 1]);
      if last.Some? then front + [last.value] else front
  }

  predicate RunsBefore(a: Setter, b: Setter) { a.step < b.step || (a.step == b.step && a.finished <= b.finished) }

  function InsertSetter(setters: seq<Setter>, s: Setter): seq<Setter> {
    if setters == [] then [s]
    else if RunsBefore(setters[|setters| - 1], s) then setters + [s]
    else InsertSetter(setters[..|setters| - 1], s) + [setters[|setters| - 1]]
  }

  /** The stable sort by (step, finished_at). */
  function SortSetters(setters: seq<Setter>): seq<Setter> {
    if setters == [] then [] else InsertSetter(SortSetters(setters[..|setters| - 1]), setters[|setters| - 1])
  }

  /** Assignments in order; a later one wins. */
  function Assign(setters: seq<Setter>): map<string, Json> {
    if setters == [] then map[] else
      var last := setters[|setters| - 1];
      Assign(setters[..|setters| - 1])[last.name := last.value]
  }

  function VariablesOf(rows: seq<Row>): map<string, Json> { Assign(SortSetters(SettersOf(rows))) }

  /** What a routine returns to the step that called it. */
  function SubRoutineOutput(env: Env, e: nat, rows: seq<Row>): Json {
    var vars := VariablesOf(rows);
    Obj(map["executionId" := Str(env.uuid(e)), "result" := if "result" in vars then vars["result"] else Null, "vars" := Obj(vars)])
  }

  // ---------------------------------------------------------------- template scope

  datatype Repetition = Repetition(index: nat, output: Json)

  function RepetitionsOf(rows: seq<Row>, head: nat): seq<Repetition> {
    if rows == [] then [] else
      var front, last := RepetitionsOf(rows[..|rows| - 1], head), rows[|rows| - 1];
      if last.parent == Some(head)
      then front + [Repetition(if last.loopIndex.Some? then last.loopIndex.value else 0,
                               if last.output.Some? then last.output.value else Null)]
      else front
  }

  function InsertRepetition(list: seq<Repetition>, r: Repetition): seq<Repetition> {
    if list == [] then [r]
    else if list[|list| - 1].index <= r.index then list + [r]
    else InsertRepetition(list[..|list| - 1], r) + [list[|list| - 1]]
  }

  function SortRepetitions(list: seq<Repetition>): seq<Repetition> {
    if list == [] then [] else InsertRepetition(SortRepetitions(list[..|list| - 1]), list[|list| - 1])
  }

  function OutputsInOrder(list: seq<Repetition>): seq<Json> { seq(|list|, i requires 0 <= i < |list| => list[i].output) }

  predicate Truthy(text: Option<string>) { text.Some? && text.value != "" }

  /** What `{{actions.<key>}}` sees of a completed row. */
  function ExposedOutput(rows: seq<Row>, row: Row): Json {
    var own := if row.output.Some? && row.output.value.Obj? then row.output.value.fields else map[];
    if Truthy(row.forEach)
    then Obj(own["items" := Arr(OutputsInOrder(SortRepetitions(RepetitionsOf(rows, row.id))))])
    else if row.output.Some? then row.output.value else Obj(map[])
  }

  function OutputsUpTo(rows: seq<Row>, k: nat): map<string, Json>
    requires k <= |rows|
  {
    if k == 0 then map[] else
      var before, row := OutputsUpTo(rows, k - 1), rows[k - 1];
      if row.status.Completed? && row.parent.None? then before[row.key := ExposedOutput(rows, row)] else before
  }

  function Outputs(rows: seq<Row>): map<string, Json> { OutputsUpTo(rows, |rows|) }

  /** What `{{…}}` can see when `row` is dispatched. */
  function Scope(env: Env, e: nat, x: Exec, rows: seq<Row>, row: Row, now: nat): Json {
    Obj(
      map["routine" := Obj(map["id" := Str(x.routineId), "name" := Str(x.routineName)]),
          "execution" := Obj(map["id" := Str(env.uuid(e)), "trigger" := Str(x.trigger),
                                 "startedAt" := Str(env.iso(if x.startedAt.Some? then x.startedAt.value else now))]),
          "trigger" := Obj(map["type" := Str(x.trigger), "body" := if x.payload.Some? then x.payload.value else Obj(map[])]),
          "actions" := Obj(Outputs(rows)),
          "vars" := Obj(VariablesOf(rows)),
          "now" := Str(env.iso(now))]
      + (if row.loopIndex.Some? then map["item" := row.loopItem, "index" := Num(row.loopIndex.value as real)] else map[])
      + (if x.trigger == "routine" then map["input" := InputOf(x.payload)] else map[]))
  }

  function InputOf(payload: Option<Json>): Json {
    if payload.None? then Null else
      var input := Field(payload.value, "input");
      if input.Some? then input.value else Null
  }

  // ---------------------------------------------------------------- creating executions

  datatype Trigger = Trigger(kind: string, scheduledFor: Option<nat>, idempotencyKey: Option<string>, payload: Option<Json>, caller: Option<Caller>, depth: nat)

  datatype Creation = Existing(exec: nat) | Created(exec: nat) | Refused

  function NewExec(routine: Routine, trigger: Trigger): Exec {
    Exec(routine.id, routine.name, routine.owner, trigger.kind, trigger.scheduledFor, trigger.idempotencyKey, trigger.payload,
         trigger.caller, trigger.depth, PENDING, None, |routine.actions|, AuthorRows(routine.actions))
  }

  /** Creates a PENDING execution and emits RoutineTriggered; a repeated key answers with the first execution. */
  function CreateExecution(db: Db, routine: Routine, trigger: Trigger): (Db, Creation) {
    if Truthy(trigger.idempotencyKey) && KeyTaken(db.execs, routine.id, trigger.idempotencyKey)
    then (db, Existing(FindByKey(db.execs, routine.id, trigger.idempotencyKey.value).value))
    else if KeyTaken(db.execs, routine.id, trigger.idempotencyKey) || SlotTaken(db.execs, routine.id, trigger.scheduledFor) then (db, Refused)
    else
      var e := |db.execs|;
      (Enqueue(db.(execs := db.execs + [NewExec(routine, trigger)]), RoutineTriggered(e)), Created(e))
  }

  function GetRoutine(db: Db, owner: string, id: string): Option<Routine> {
    if id in db.routines && db.routines[id].owner == owner then Some(db.routines[id]) else None
  }

  predicate IsHex(c: char) { c in DIGITS || 'a' <= c <= 'f' || 'A' <= c <= 'F' }

  predicate IsUuid(s: string) {
    |s| == 36 && forall i :: 0 <= i < 36 ==> if i in {8, 13, 18, 23} then s[i] == '-' else IsHex(s[i])
  }

  function TargetOf(db: Db, owner: string, params: Json): Option<Routine> {
    match Field(params, "routineId")
    case Some(Str(id)) => if IsUuid(id) then GetRoutine(db, owner, id) else None
    case _ => None
  }

  // ---------------------------------------------------------------- one transaction

  /**
   * A transaction on execution `e`: the tables, the rows in memory, the status the
   * execution had when it was locked, and the clock reading of the transaction.
   */
  datatype Tx = Tx(e: nat, now: nat, loaded: ExecStatus, db: Db, mem: seq<Row>) {
    predicate Bounded() {
      e < |db.execs| && forall i :: 0 <= i < |mem| ==> mem[i].id < |db.execs[e].rows|
    }

    function Rows(): seq<Row>
      requires e < |db.execs|
    {
      db.execs[e].rows
    }
  }

  function Skip(t: Tx, i: nat): (t': Tx)
    requires t.Bounded() && i < |t.mem|
    ensures t'.Bounded() && |t'.mem| >= |t.mem|
  {
    t.(db := MarkSkipped(t.db, t.e, t.mem[i].id, t.now), mem := t.mem[i := t.mem[i].(status := Skipped)])
  }

  function FailRow(t: Tx, i: nat): (t': Tx)
    requires t.Bounded() && i < |t.mem|
    ensures t'.Bounded() && |t'.mem| >= |t.mem|
  {
    t.(db := MarkFailed(t.db, t.e, t.mem[i].id, t.now), mem := t.mem[i := t.mem[i].(status := Failed)])
  }

  function CompleteRow(t: Tx, i: nat, output: Json): (t': Tx)
    requires t.Bounded() && i < |t.mem|
    ensures t'.Bounded() && |t'.mem| >= |t.mem|
  {
    t.(db := MarkCompleted(t.db, t.e, t.mem[i].id, output, t.now), mem := t.mem[i := t.mem[i].(status := Completed, output := Some(output))])
  }

  /** Expands a loop head: the children are appended in memory, the head is completed with their count. */
  function Expand(t: Tx, i: nat, items: seq<Json>): (t': Tx)
    requires t.Bounded() && i < |t.mem|
    ensures t'.Bounded() && |t'.mem| >= |t.mem|
  {
    var id := t.mem[i].id;
    var children := ChildRows(|t.Rows()|, t.Rows()[id], items);
    CompleteRow(t.(db := InsertLoop(t.db, t.e, id, items), mem := t.mem + children), i,
                Obj(map["count" := Num(|items| as real)]))
  }

  /** Starts the called routine; its end will complete this row. */
  function Call(t: Tx, i: nat, target: Routine, params: Json): (t': Tx)
    requires t.Bounded() && i < |t.mem|
    ensures t'.Bounded() && |t'.mem| >= |t.mem|
  {
    var input := Field(params, "input");
    var trigger := Trigger("routine", None, None, Some(Obj(map["input" := if input.Some? then input.value else Null])),
                           Some(Caller(t.e, t.mem[i].id)), t.db.execs[t.e].depth + 1);
    t.(db := CreateExecution(MarkDispatched(t.db, t.e, t.mem[i].id, t.now), target, trigger).0,
       mem := t.mem[i := t.mem[i].(status := Dispatched, dispatchedAt := Some(t.now))])
  }

  /** A scripting action: dispatched in the table, then completed or failed in the same transaction. */
  function Script(env: Env, t: Tx, i: nat, params: Json): (t': Tx)
    requires t.Bounded() && i < |t.mem|
    ensures t'.Bounded() && |t'.mem| >= |t.mem|
  {
    var t1 := t.(db := MarkDispatched(t.db, t.e, t.mem[i].id, t.now));
    match Evaluate(env, t.mem[i].typ, params)
    case Some(output) => CompleteRow(t1, i, output)
    case None => FailRow(t1, i)
  }

  function FindKey(rows: seq<Row>, key: string): (found: Option<nat>)
    ensures found.Some? ==> found.value < |rows| && rows[found.value].key == key
    ensures found.None? ==> forall i :: 0 <= i < |rows| ==> rows[i].key != key
  {
    if rows == [] then None
    else if rows[0].key == key then Some(0)
    else
      var r := FindKey(rows[1..], key);
      assert forall i :: 1 <= i < |rows| ==> rows[i] == rows[1..][i - 1];
      if r.Some? then Some(r.value + 1) else None
  }

  /** Whether a condition row ran and produced the expected result. */
  predicate ConditionMet(condition: Row, expected: bool) {
    condition.status.Completed? && condition.output.Some? && Field(condition.output.value, "result") == Some(Bool(expected))
  }

  predicate RunIfHolds(rows: seq<Row>, runIf: RunIf) {
    var found := FindKey(rows, runIf.action);
    found.Some? && ConditionMet(rows[found.value], runIf.expected)
  }

  function ScopeFor(env: Env, t: Tx, i: nat): Json
    requires t.Bounded() && i < |t.mem|
  {
    Scope(env, t.e, t.db.execs[t.e], t.mem, t.mem[i], t.now)
  }

  /** One row of a batch; the second component is what is to be sent to a worker afterwards. */
  function ProcessOne(env: Env, t: Tx, i: nat): (r: (Tx, Option<Json>))
    requires t.Bounded() && i < |t.mem|
    ensures r.0.Bounded() && |r.0.mem| >= |t.mem|
  {
    var a := t.mem[i];
    if a.runIf.Some? && !RunIfHolds(t.mem, a.runIf.value) then (Skip(t, i), None)
    else if a.LoopHead() then
      match Resolve(Str(a.forEach.value), ScopeFor(env, t, i), env.render)
      case Some(Arr(items)) => if |items| > MAX_LOOP_ITEMS then (FailRow(t, i), None) else (Expand(t, i, items), None)
      case _ => (FailRow(t, i), None)
    else
      match Resolve(a.params, ScopeFor(env, t, i), env.render)
      case None => (FailRow(t, i), None)
      case Some(params) =>
        if a.typ == ROUTINE_RUN then
          var target := TargetOf(t.db, t.db.execs[t.e].owner, params);
          if target.None? || t.db.execs[t.e].depth >= MAX_CALL_DEPTH then (FailRow(t, i), None)
          else (Call(t, i, target.value, params), None)
        else if IsControl(a.typ) then (Script(env, t, i, params), None)
        else (t, Some(params))
  }

  /** A row to hand to the broker, by its index in memory. */
  datatype Send = Send(i: nat, params: Json)

  function RunBatch(env: Env, t: Tx, batch: seq<nat>): (r: (Tx, seq<Send>))
    requires t.Bounded() && forall k :: 0 <= k < |batch| ==> batch[k] < |t.mem|
    ensures r.0.Bounded() && |r.0.mem| >= |t.mem|
    ensures forall k :: 0 <= k < |r.1| ==> r.1[k].i < |t.mem|
  {
    if batch == [] then (t, []) else
      var (t1, sent) := RunBatch(env, t, batch[..|batch| - 1]);
      var i := batch[|batch| - 1];
      var (t2, params) := ProcessOne(env, t1, i);
      (t2, if params.Some? then sent + [Send(i, params.value)] else sent)
  }

  function SendOne(t: Tx, s: Send): (t': Tx)
    requires t.Bounded() && s.i < |t.mem|
    ensures t'.Bounded() && |t'.mem| == |t.mem|
  {
    var id := t.mem[s.i].id;
    t.(db := Enqueue(MarkDispatched(t.db, t.e, id, t.now), ActionRequested(t.e, id, s.params)),
       mem := t.mem[s.i := t.mem[s.i].(status := Dispatched, dispatchedAt := Some(t.now))])
  }

  function SendAll(t: Tx, sends: seq<Send>): (t': Tx)
    requires t.Bounded() && forall k :: 0 <= k < |sends| ==> sends[k].i < |t.mem|
    ensures t'.Bounded() && |t'.mem| == |t.mem|
  {
    if sends == [] then t else SendOne(SendAll(t, sends[..|sends| - 1]), sends[|sends| - 1])
  }

  /** `actions.filter((action) => decision.keys.includes(action.key))`, as indices. */
  function BatchOf(rows: seq<Row>, keys: seq<string>): (batch: seq<nat>)
    ensures forall k :: 0 <= k < |batch| ==> batch[k] < |rows| && rows[batch[k]].key in keys
    ensures forall i :: 0 <= i < |rows| && rows[i].key in keys ==> i in batch
    ensures forall k, l :: 0 <= k < l < |batch| ==> batch[k] < batch[l]
  {
    if rows == [] then [] else
      var front := BatchOf(rows[..|rows| - 1], keys);
      if rows[|rows| - 1].key in keys then front + [|rows| - 1] else front
  }

  predicate BatchFailed(rows: seq<Row>, batch: seq<nat>) {
    exists k :: 0 <= k < |batch| && batch[k] < |rows| && rows[batch[k]].status.Failed?
  }

  function ReportToCaller(db: Db, e: nat, outcome: Outcome): Db
    requires e < |db.execs|
  {
    match db.execs[e].caller
    case None => db
    case Some(c) => Enqueue(db, ActionResult(c.exec, c.action, outcome))
  }

  function CompleteExecution(env: Env, t: Tx): Tx
    requires t.Bounded()
  {
    var db := Enqueue(SetStatus(t.db, t.e, COMPLETED, t.now), ExecutionCompleted(t.e));
    t.(db := ReportToCaller(db, t.e, OkResult(SubRoutineOutput(env, t.e, t.mem))))
  }

  function FailExecution(t: Tx, failedKey: string): Tx
    requires t.Bounded()
  {
    var db := Enqueue(SetStatus(SkipPending(t.db, t.e), t.e, FAILED, t.now), ExecutionFailed(t.e, failedKey));
    t.(db := ReportToCaller(db, t.e, FailedResult))
  }

  function WaitForResults(env: Env, t: Tx): Tx
    requires t.Bounded()
  {
    var status := InFlightStatus(t.mem, t.now, env.waitingAfter);
    if status != t.loaded then t.(db := SetStatus(t.db, t.e, status, t.now)) else t
  }

  // ---------------------------------------------------------------- termination of #advance

  /** 51 for a pending loop head, 1 for any other pending row. */
  function Weight(row: Row): nat {
    if !row.status.Pending? then 0 else if row.LoopHead() then MAX_LOOP_ITEMS + 1 else 1
  }

  function Measure(rows: seq<Row>): nat {
    if rows == [] then 0 else Measure(rows[..|rows| - 1]) + Weight(rows[|rows| - 1])
  }
}
