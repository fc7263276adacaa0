/**
 * What becomes of an action when its turn comes: skipped, failed, repeated, evaluated,
 * called, or left for a worker, each exactly when and with exactly what it leaves in
 * the tables.
 */
module Outcomes {
  import opened Base
  import opened Templates
  import opened Control
  import opened Progress
  import opened Store
  import opened RowInvariants
  import opened Engine
  import opened AdvanceLoop
  import opened Invariants
  import opened Soundness

  /** The turn of one row: the transaction before it, the place of the row in memory, the transaction after it. */
  datatype Turn = Turn(before: Tx, i: nat, after: Tx) {
    predicate Ok() {
      before.Bounded() && i < |before.mem| && after.Bounded() && after.e == before.e && after.now == before.now &&
      |after.Rows()| >= |before.Rows()|
    }

    function Id(): nat
      requires Ok()
    {
      before.mem[i].id
    }

    /** The row in the table when its turn comes. */
    function Row(): Progress.Row
      requires Ok()
    {
      before.Rows()[Id()]
    }

    /** The row in the table when its turn is over. */
    function Left(): Progress.Row
      requires Ok()
    {
      after.Rows()[Id()]
    }

    function Exec(): Store.Exec
      requires Ok()
    {
      before.db.execs[before.e]
    }
  }

  // ---------------------------------------------------------------- what a turn comes to

  /** A row with that key completed, and its result was `b`. */
  predicate Gave(rows: seq<Row>, key: string, b: bool) {
    exists c :: 0 <= c < |rows| && rows[c].key == key && rows[c].status.Completed? && rows[c].output.Some? &&
      Field(rows[c].output.value, "result") == Some(Bool(b))
  }

  /** The row has no condition, or its condition gave what it waits for. */
  predicate Goes(u: Turn)
    requires u.Ok()
  {
    u.Row().runIf.Some? ==> Gave(u.before.Rows(), u.Row().runIf.value.action, u.Row().runIf.value.expected)
  }

  /** The params of the row with everything in braces replaced. */
  function Params(env: Env, u: Turn): Option<Json>
    requires u.Ok()
  {
    Resolve(u.Row().params, ScopeFor(env, u.before, u.i), env.render)
  }

  /** The list of a repeating row. */
  function ListOf(env: Env, u: Turn): Option<Json>
    requires u.Ok() && u.Row().LoopHead()
  {
    Resolve(Str(u.Row().forEach.value), ScopeFor(env, u.before, u.i), env.render)
  }

  /** Nothing but the row itself changed. */
  predicate OnlyRow(u: Turn)
    requires u.Ok()
  {
    u.after.db == WithRow(u.before.db, u.before.e, u.Id(), u.Left())
  }

  predicate Fails(u: Turn)
    requires u.Ok()
  {
    OnlyRow(u) && u.Left().(dispatchedAt := u.Row().dispatchedAt) == u.Row().(status := Failed, finishedAt := Some(u.before.now))
  }

  predicate Skips(u: Turn)
    requires u.Ok()
  {
    OnlyRow(u) && u.Left() == u.Row().(status := Skipped, finishedAt := Some(u.before.now))
  }

  predicate CompletesWith(u: Turn, output: Json)
    requires u.Ok()
  {
    OnlyRow(u) && u.Left() == u.Row().(status := Completed, output := Some(output), finishedAt := Some(u.before.now), dispatchedAt := Some(u.before.now))
  }

  /** Repetition `k` of a row for one item. */
  predicate RepeatsFor(u: Turn, c: Progress.Row, k: nat, item: Json)
    requires u.Ok()
  {
    c.parent == Some(u.Id()) && c.loopIndex == Some(k) && c.loopItem == item && c.key == u.Row().key + "[" + Decimal(k) + "]" &&
    c.typ == u.Row().typ && c.step == u.Row().step && c.params == u.Row().params && c.runIf.None? && c.forEach.None? &&
    c.status.Pending? && c.output.None?
  }

  /** The row completes with the number of items, and there is one repetition for each, in their order. */
  predicate Repeats(u: Turn, items: seq<Json>)
    requires u.Ok()
  {
    var n := |u.before.Rows()|;
    u.after.db == WithRows(u.before.db, u.before.e, u.after.Rows()) &&
    |u.after.Rows()| == n + |items| &&
    (forall a :: 0 <= a < n && a != u.Id() ==> u.after.Rows()[a] == u.before.Rows()[a]) &&
    u.Left() == u.Row().(status := Completed, output := Some(Obj(map["count" := Num(|items| as real)])), finishedAt := Some(u.before.now)) &&
    forall k :: 0 <= k < |items| ==> RepeatsFor(u, u.after.Rows()[n + k], k, items[k])
  }

  /** What a scripting action produces from its params; `None` where it fails. */
  ghost predicate Produces(env: Env, typ: string, params: Json, output: Option<Json>) {
    (typ == "condition.if" ==>
      output == match env.condition(params) case Some(b) => Some(Obj(map["result" := Bool(b)])) case None => None) &&
    (typ == "math.calculate" ==>
      output == match env.calculate(params) case Some(x) => Some(Obj(map["result" := Num(x)])) case None => None) &&
    (typ == "variable.set" ==>
      (output.Some? <==> exists name :: IsVariableName(name) && Field(params, "name") == Some(Str(name))) &&
      (output.Some? ==>
        var value := Field(params, "value");
        Field(output.value, "name") == Field(params, "name") &&
        Field(output.value, "value") == if value.None? || value.value.Null? then Some(Str("")) else value))
  }

  /** The routine a `routine.run` names is one of the same owner. */
  predicate Names(u: Turn, params: Json, id: string)
    requires u.Ok()
  {
    Field(params, "routineId") == Some(Str(id)) && IsUuid(id) && id in u.before.db.routines && u.before.db.routines[id].owner == u.Exec().owner
  }

  /** The run a call creates: the routine's actions, the caller's input, one level deeper. */
  predicate CalledRun(u: Turn, x: Store.Exec, routine: Routine, params: Json)
    requires u.Ok()
  {
    x.routineId == routine.id && x.routineName == routine.name && x.owner == routine.owner &&
    x.trigger == "routine" && x.scheduledFor.None? && x.idempotencyKey.None? &&
    x.payload == Some(Obj(map["input" := match Field(params, "input") case Some(input) => input case None => Null])) &&
    x.caller == Some(Caller(u.before.e, u.Id())) && x.depth == u.Exec().depth + 1 && x.status.PENDING? && x.startedAt.None? &&
    x.authored == |x.rows| == |routine.actions| &&
    forall i :: 0 <= i < |x.rows| ==> DefOf(x.rows[i]) == routine.actions[i] && x.rows[i].status.Pending? && x.rows[i].parent.None?
  }

  /** The row is in flight, and the called run exists and is triggered. */
  predicate StartsRun(u: Turn, routine: Routine, params: Json)
    requires u.Ok()
  {
    var execs, execs' := u.before.db.execs, u.after.db.execs;
    u.Left() == u.Row().(status := Dispatched, dispatchedAt := Some(u.before.now)) &&
    |execs'| == |execs| + 1 && execs'[..|execs|] == WithRow(u.before.db, u.before.e, u.Id(), u.Left()).execs &&
    CalledRun(u, execs'[|execs|], routine, params) &&
    u.after.db.log == u.before.db.log + [RoutineTriggered(|execs|)] && u.after.db.routines == u.before.db.routines
  }

  /** What becomes of the row, case by case. */
  ghost predicate TurnsOut(env: Env, u: Turn)
    requires u.Ok()
  {
    if !Goes(u) then Skips(u)
    else if u.Row().LoopHead() then
      match ListOf(env, u)
      case Some(Arr(items)) => if |items| <= 50 then Repeats(u, items) else Fails(u)
      case _ => Fails(u)
    else
      match Params(env, u)
      case None => Fails(u)
      case Some(params) =>
        if u.Row().typ == "routine.run" then
          (u.Exec().depth < 5 ==> forall id :: Names(u, params, id) ==> StartsRun(u, u.before.db.routines[id], params)) &&
          (u.Exec().depth >= 5 || (forall id :: !Names(u, params, id)) ==> Fails(u))
        else if u.Row().typ in {"condition.if", "math.calculate", "variable.set"} then
          exists output :: Produces(env, u.Row().typ, params, output) && if output.Some? then CompletesWith(u, output.value) else Fails(u)
        else u.after == u.before
  }

  // ---------------------------------------------------------------- and the engine does that

  /** A condition in memory holds exactly if the table has a row that gave the result. */
  lemma HoldsIfGave(t: Tx, runIf: RunIf)
    requires TxOk(t)
    ensures RunIfHolds(t.mem, runIf) <==> Gave(t.Rows(), runIf.action, runIf.expected)
  {
    hide WfRows, LoopOrder, StepSorted, Mirror, Field;
    var rows := t.Rows();
    if RunIfHolds(t.mem, runIf) {
      var m := FindKey(t.mem, runIf.action).value;
      MirrorRow(t.mem, rows, m);
      assert rows[t.mem[m].id].key == runIf.action;
    }
    if Gave(rows, runIf.action, runIf.expected) {
      var c :| 0 <= c < |rows| && rows[c].key == runIf.action && rows[c].status.Completed? && rows[c].output.Some? &&
        Field(rows[c].output.value, "result") == Some(Bool(runIf.expected));
      var m := FoundIn(t.mem, rows, c);
      FindUniqueKey(t, m, runIf.action);
    }
  }

  /** The turn of row `i`. */
  function TurnOf(env: Env, t: Tx, i: nat): (u: Turn)
    requires t.Bounded() && i < |t.mem|
  {
    Turn(t, i, ProcessOne(env, t, i).0)
  }

  lemma TurnIsOk(env: Env, t: Tx, i: nat)
    requires TxOk(t) && i < |t.mem|
    ensures TurnOf(env, t, i).Ok()
  {
    hide WfRows, LoopOrder, StepSorted, Mirror, Resolve, Scope, Evaluate, TargetOf, RunIfHolds;
  }

  lemma RowInMemory(t: Tx, i: nat)
    requires TxOk(t) && i < |t.mem|
    ensures SameButTimes(t.mem[i], t.Rows()[t.mem[i].id])
  {
  }

  lemma SkippingTurn(t: Tx, i: nat)
    requires TxOk(t) && i < |t.mem| && t.mem[i].status.Pending?
    ensures Turn(t, i, Skip(t, i)).Ok() && Skips(Turn(t, i, Skip(t, i)))
    ensures Turn(t, i, FailRow(t, i)).Ok() && Fails(Turn(t, i, FailRow(t, i)))
  {
    hide WfRows, LoopOrder, StepSorted, Mirror;
    RowInMemory(t, i);
  }

  lemma ExpandingTurn(t: Tx, i: nat, items: seq<Json>)
    requires TxOk(t) && i < |t.mem| && t.mem[i].status.Pending?
    ensures var u := Turn(t, i, Expand(t, i, items)); u.Ok() && Repeats(u, items)
  {
    hide WfRows, LoopOrder, StepSorted, Mirror;
    RowInMemory(t, i);
    var rows, id := t.Rows(), t.mem[i].id;
    var children := ChildRows(|rows|, rows[id], items);
    var u := Turn(t, i, Expand(t, i, items));
    var rows' := u.after.Rows();
    assert rows' == (rows + children)[id := rows'[id]];
    assert u.after.db.execs == t.db.execs[t.e := t.db.execs[t.e].(rows := rows')];
    forall k | 0 <= k < |items| ensures RepeatsFor(u, rows'[|rows| + k], k, items[k]) {
      assert rows'[|rows| + k] == children[k] == ChildRow(|rows| + k, rows[id], k, items[k]);
      assert ChildKey(rows[id].key, k) == rows[id].key + "[" + Decimal(k) + "]";
    }
  }

  lemma ScriptingTurn(env: Env, t: Tx, i: nat, params: Json)
    requires TxOk(t) && i < |t.mem| && t.mem[i].status.Pending?
    ensures var u := Turn(t, i, Script(env, t, i, params));
            u.Ok() && match Evaluate(env, t.mem[i].typ, params) case Some(output) => CompletesWith(u, output) case None => Fails(u)
  {
    hide WfRows, LoopOrder, StepSorted, Mirror, Evaluate;
    RowInMemory(t, i);
    var id := t.mem[i].id;
    var u := Turn(t, i, Script(env, t, i, params));
    WithRowTwice(t.db, t.e, id, t.Rows()[id].(status := Dispatched, dispatchedAt := Some(t.now)), u.Left());
  }

  lemma EvaluatedProduces(env: Env, typ: string, params: Json)
    requires typ in {"condition.if", "math.calculate", "variable.set"}
    ensures Produces(env, typ, params, Evaluate(env, typ, params))
  {
  }

  lemma CallingTurn(t: Tx, i: nat, routine: Routine, params: Json)
    requires TxOk(t) && i < |t.mem| && t.mem[i].status.Pending?
    ensures var u := Turn(t, i, Call(t, i, routine, params)); u.Ok() && StartsRun(u, routine, params)
  {
    hide WfRows, LoopOrder, StepSorted, Mirror;
    RowInMemory(t, i);
    var u := Turn(t, i, Call(t, i, routine, params));
    var db1 := MarkDispatched(t.db, t.e, t.mem[i].id, t.now);
    var x := u.after.db.execs[|t.db.execs|];
    assert u.after.db.execs == db1.execs + [x];
    assert forall k :: 0 <= k < |x.rows| ==> x.rows[k] == FreshRow(k, routine.actions[k]);
  }

  lemma TargetIsNamed(u: Turn, params: Json)
    requires u.Ok()
    ensures match TargetOf(u.before.db, u.Exec().owner, params)
            case Some(routine) => exists id :: Names(u, params, id) && u.before.db.routines[id] == routine
            case None => forall id :: !Names(u, params, id)
    ensures forall id, id' :: Names(u, params, id) && Names(u, params, id') ==> id == id'
  {
    hide IsUuid;
    var target := TargetOf(u.before.db, u.Exec().owner, params);
    if target.Some? {
      var id := Field(params, "routineId").value.s;
      assert Names(u, params, id);
    }
  }

  lemma UnconditionalTurn(env: Env, t: Tx, i: nat)
    requires TxOk(t) && i < |t.mem| && t.mem[i].status.Pending? && TurnOf(env, t, i).Ok() && Goes(TurnOf(env, t, i))
    ensures TurnsOut(env, TurnOf(env, t, i))
  {
    hide WfRows, LoopOrder, StepSorted, Mirror, Resolve, Scope, Skip, FailRow, Expand, Call, Script, TargetOf, Evaluate, Names, Gave, RunIfHolds,
         Skips, Fails, Repeats, Produces, CompletesWith, StartsRun;
    var u := TurnOf(env, t, i);
    RowInMemory(t, i);
    SkippingTurn(t, i);
    if t.mem[i].runIf.Some? { HoldsIfGave(t, t.mem[i].runIf.value); }
    if t.mem[i].LoopHead() {
      match ListOf(env, u)
      case Some(Arr(items)) => ExpandingTurn(t, i, items);
      case _ =>
    } else {
      match Params(env, u)
      case None =>
      case Some(params) =>
        TargetIsNamed(u, params);
        match TargetOf(t.db, t.db.execs[t.e].owner, params) {
          case Some(routine) => CallingTurn(t, i, routine, params);
          case None =>
        }
        ScriptingTurn(env, t, i, params);
        if u.Row().typ in {"condition.if", "math.calculate", "variable.set"} { EvaluatedProduces(env, u.Row().typ, params); }
    }
  }

  /** At its turn, a pending row comes to exactly what the cases say. */
  lemma EveryTurnTurnsOut(env: Env, t: Tx, i: nat)
    requires TxOk(t) && i < |t.mem| && t.mem[i].status.Pending?
    ensures TurnOf(env, t, i).Ok() && TurnsOut(env, TurnOf(env, t, i))
  {
    hide WfRows, LoopOrder, StepSorted, Mirror, Resolve, Scope, Skip, FailRow, Expand, Call, Script, TargetOf, Gave, RunIfHolds, TurnsOut;
    TurnIsOk(env, t, i);
    if Goes(TurnOf(env, t, i)) { UnconditionalTurn(env, t, i); } else { UnmetTurn(env, t, i); }
  }

  lemma UnmetTurn(env: Env, t: Tx, i: nat)
    requires TxOk(t) && i < |t.mem| && t.mem[i].status.Pending? && TurnOf(env, t, i).Ok() && !Goes(TurnOf(env, t, i))
    ensures TurnsOut(env, TurnOf(env, t, i))
  {
    hide WfRows, LoopOrder, StepSorted, Mirror, Resolve, Scope, Skip, FailRow, Expand, Call, Script, TargetOf, Gave, RunIfHolds, Skips, Fails;
    RowInMemory(t, i);
    HoldsIfGave(t, t.mem[i].runIf.value);
    SkippingTurn(t, i);
  }
}
