/**
 * Validation is sound for the engine: in every run, whatever an accepted routine
 * refers to has been decided by the time a step that refers to it is dispatched.
 */
module Soundness {
  import opened Base
  import opened Templates
  import opened Control
  import opened Progress
  import opened Store
  import opened RowInvariants
  import opened Engine
  import opened AdvanceLoop
  import opened Issues
  import opened Invariants
  import opened Transactions
  import opened Evolution
  import opened Definition
  import opened Network

  function DefOf(row: Row): ActionDef { ActionDef(row.key, row.typ, row.step, row.params, row.runIf, row.forEach) }

  function DefsOf(rows: seq<Row>, n: nat): (defs: seq<ActionDef>)
    requires n <= |rows|
    ensures |defs| == n && forall i :: 0 <= i < n ==> defs[i] == DefOf(rows[i])
  {
    seq(n, i requires 0 <= i < n => DefOf(rows[i]))
  }

  /** A completed `variable.set` carries the name it was written with. */
  predicate NameKept(row: Row) {
    row.typ == VARIABLE && row.status.Completed? && !row.LoopHead() ==>
      row.output.Some? && Field(row.output.value, "name").Some? && Field(row.output.value, "name") == Field(row.params, "name")
  }

  /** A completed loop head reports how often it repeats, and nothing else. */
  predicate HeadCounts(row: Row) {
    row.LoopHead() && row.status.Completed? ==> row.output.Some? && row.output.value.Obj? && row.output.value.fields.Keys == {"count"}
  }

  predicate OutputFits(row: Row) { NameKept(row) && HeadCounts(row) }

  predicate OutputsFit(rows: seq<Row>) { forall i :: 0 <= i < |rows| ==> OutputFits(rows[i]) }

  /** An execution of an accepted routine. */
  predicate Sound(x: Exec) { x.authored <= |x.rows| && Accepted(DefsOf(x.rows, x.authored), true) && OutputsFit(x.rows) }

  predicate SoundRoutines(routines: map<string, Routine>) { forall id :: id in routines ==> Accepted(routines[id].actions, true) }

  predicate SoundDb(db: Db) { SoundRoutines(db.routines) && forall e :: 0 <= e < |db.execs| ==> Sound(db.execs[e]) }

  // ---------------------------------------------------------------- names survive resolution

  lemma {:induction false} NoBraceNoPiece(text: string, at: nat)
    requires at <= |text| && forall i :: 0 <= i < |text| ==> text[i] != '{'
    ensures forall k :: 0 <= k < |PiecesFrom(text, at)| ==> PiecesFrom(text, at)[k].Char?
    decreases |text| - at
  {
    if at < |text| {
      assert MatchAt(text, at).None? by {
        assert at + 2 <= |text| ==> text[at..at + 2][0] == text[at];
      }
      NoBraceNoPiece(text, at + 1);
    }
  }

  lemma VariableNameResolves(name: string, scope: Json, render: Json -> string)
    requires IsVariableName(name)
    ensures Resolve(Str(name), scope, render) == Some(Str(name))
  {
    assert forall i :: 0 <= i < |name| ==> name[i] != '{';
    NoBraceNoPiece(name, 0);
    assert TemplatePaths(Str(name)) == {};
    ResolveWithoutPaths(Str(name), scope, render);
  }

  lemma SetVariableKeepsName(env: Env, params: Json, scope: Json)
    requires Field(params, "name").Some? && Field(params, "name").value.Str? && IsVariableName(Field(params, "name").value.s)
    ensures var r := Resolve(params, scope, env.render);
            r.Some? ==>
              var output := Evaluate(env, VARIABLE, r.value);
              output.Some? && Field(output.value, "name") == Field(params, "name")
  {
    VariableNameResolves(Field(params, "name").value.s, scope, env.render);
  }

  /** Every row of an accepted execution has the type and params of an accepted action. */
  lemma RowIsAccepted(x: Exec, a: nat) returns (i: nat)
    requires Sound(x) && WfRows(x.rows, x.authored) && a < |x.rows|
    ensures i < x.authored && x.rows[i].typ == x.rows[a].typ && x.rows[i].params == x.rows[a].params && x.rows[i].step == x.rows[a].step
    ensures ActionOk(DefsOf(x.rows, x.authored), true, DefOf(x.rows[i]))
    ensures i == (if a < x.authored then a else x.rows[a].parent.value)
  {
    i := if a < x.authored then a else x.rows[a].parent.value;
    if a >= x.authored { assert ChildOf(x.rows[a], a, x.rows[i]); }
    assert DefsOf(x.rows, x.authored)[i] == DefOf(x.rows[i]);
  }

  // ---------------------------------------------------------------- soundness of the database is kept

  lemma SoundRow(x: Exec, a: nat, r: Row)
    requires Sound(x) && a < |x.rows| && StaticSame(x.rows[a], r) && OutputFits(r)
    ensures Sound(x.(rows := x.rows[a := r]))
  {
    assert DefsOf(x.rows[a := r], x.authored) == DefsOf(x.rows, x.authored);
  }

  lemma SoundUpdate(db: Db, e: nat, a: nat, r: Row)
    requires SoundDb(db) && HasRow(db, e, a) && StaticSame(db.execs[e].rows[a], r) && OutputFits(r)
    ensures SoundDb(WithRow(db, e, a, r))
  {
    SoundRow(db.execs[e], a, r);
  }

  lemma SoundChildren(x: Exec, children: seq<Row>)
    requires Sound(x) && forall k :: 0 <= k < |children| ==> children[k].status.Pending?
    ensures Sound(x.(rows := x.rows + children))
  {
    assert DefsOf(x.rows + children, x.authored) == DefsOf(x.rows, x.authored);
  }

  lemma SoundNew(routine: Routine, trigger: Trigger)
    requires Accepted(routine.actions, true)
    ensures Sound(NewExec(routine, trigger))
  {
    assert DefsOf(AuthorRows(routine.actions), |routine.actions|) == routine.actions;
  }

  lemma SimpleKeepsSound(t: Tx, i: nat)
    requires TxOk(t) && SoundDb(t.db) && i < |t.mem|
    ensures SoundDb(Skip(t, i).db) && SoundDb(FailRow(t, i).db)
  {
    var id := t.mem[i].id;
    SoundUpdate(t.db, t.e, id, t.Rows()[id].(status := Skipped, finishedAt := Some(t.now)));
    SoundUpdate(t.db, t.e, id, t.Rows()[id].(status := Failed, finishedAt := Some(t.now)));
  }

  lemma ExpandKeepsSound(t: Tx, i: nat, items: seq<Json>)
    requires TxOk(t) && SoundDb(t.db) && i < |t.mem| && t.mem[i].LoopHead()
    ensures SoundDb(Expand(t, i, items).db)
  {
    var id := t.mem[i].id;
    assert SameButTimes(t.mem[i], t.Rows()[id]);
    var children := ChildRows(|t.Rows()|, t.Rows()[id], items);
    SoundChildren(t.db.execs[t.e], children);
    var db1 := InsertLoop(t.db, t.e, id, items);
    assert SoundDb(db1);
    SoundUpdate(db1, t.e, id, Expand(t, i, items).Rows()[id]);
  }

  lemma CallKeepsSound(t: Tx, i: nat, target: Routine, params: Json)
    requires TxOk(t) && SoundDb(t.db) && i < |t.mem| && Accepted(target.actions, true)
    ensures SoundDb(Call(t, i, target, params).db)
  {
    var id := t.mem[i].id;
    SoundUpdate(t.db, t.e, id, t.Rows()[id].(status := Dispatched, dispatchedAt := Some(t.now)));
    var input := Field(params, "input");
    SoundNew(target, Trigger("routine", None, None, Some(Obj(map["input" := if input.Some? then input.value else Null])),
                             Some(Caller(t.e, id)), t.db.execs[t.e].depth + 1));
  }

  lemma EvaluatedName(env: Env, t: Tx, i: nat, params: Json)
    requires TxOk(t) && SoundDb(t.db) && i < |t.mem| && t.mem[i].typ == VARIABLE
    requires Resolve(t.mem[i].params, ScopeFor(env, t, i), env.render) == Some(params)
    ensures var output := Evaluate(env, VARIABLE, params);
            output.Some? && Field(output.value, "name").Some? && Field(output.value, "name") == Field(t.mem[i].params, "name")
  {
    var x := t.db.execs[t.e];
    assert SameButTimes(t.mem[i], t.Rows()[t.mem[i].id]);
    var k := RowIsAccepted(x, t.mem[i].id);
    assert ScriptingOk(DefOf(x.rows[k]));
    SetVariableKeepsName(env, t.mem[i].params, ScopeFor(env, t, i));
  }

  /** A scripting row ends as one update of its table row, carrying what was evaluated. */
  lemma ScriptRow(env: Env, t: Tx, i: nat, params: Json) returns (r: Row)
    requires t.Bounded() && i < |t.mem|
    ensures var row := t.Rows()[t.mem[i].id];
            Script(env, t, i, params).db == WithRow(t.db, t.e, t.mem[i].id, r) && StaticSame(row, r) &&
            (r.status.Completed? ==> r.output.Some? && Evaluate(env, t.mem[i].typ, params) == r.output)
  {
    var id, rows := t.mem[i].id, t.Rows();
    r := Script(env, t, i, params).db.execs[t.e].rows[id];
    WithRowTwice(t.db, t.e, id, rows[id].(status := Dispatched, dispatchedAt := Some(t.now)), r);
  }

  lemma ScriptKeepsSound(env: Env, t: Tx, i: nat, params: Json)
    requires TxOk(t) && SoundDb(t.db) && i < |t.mem| && !t.mem[i].LoopHead() && Resolve(t.mem[i].params, ScopeFor(env, t, i), env.render) == Some(params)
    ensures SoundDb(Script(env, t, i, params).db)
  {
    hide SoundDb, WfRows, LoopOrder, StepSorted, Script, Evaluate, Scope;
    var id, rows := t.mem[i].id, t.Rows();
    assert SameButTimes(t.mem[i], rows[id]);
    if t.mem[i].typ == VARIABLE { EvaluatedName(env, t, i, params); }
    var r := ScriptRow(env, t, i, params);
    assert OutputFits(r);
    SoundUpdate(t.db, t.e, id, r);
  }

  lemma ProcessOneKeepsSound(env: Env, t: Tx, i: nat)
    requires TxOk(t) && SoundDb(t.db) && i < |t.mem|
    ensures SoundDb(ProcessOne(env, t, i).0.db)
  {
    hide WfRows, LoopOrder, StepSorted, Mirror, Sound;
    var a := t.mem[i];
    SimpleKeepsSound(t, i);
    if a.runIf.Some? && !RunIfHolds(t.mem, a.runIf.value) {
    } else if a.LoopHead() {
      match Resolve(Str(a.forEach.value), ScopeFor(env, t, i), env.render)
      case Some(Arr(items)) => ExpandKeepsSound(t, i, items);
      case _ =>
    } else {
      match Resolve(a.params, ScopeFor(env, t, i), env.render)
      case None =>
      case Some(params) =>
        ScriptKeepsSound(env, t, i, params);
        var target := TargetOf(t.db, t.db.execs[t.e].owner, params);
        if target.Some? { CallKeepsSound(t, i, target.value, params); }
    }
  }

  lemma {:induction false} RunBatchKeepsSound(env: Env, t: Tx, s: nat, batch: seq<nat>, k: nat)
    requires TxOk(t) && SoundDb(t.db) && IsBatch(t.mem, s, batch) && k <= |batch|
    ensures SoundDb(RunBatch(env, t, batch[..k]).0.db)
  {
    hide MemAfter, SendsFit, Handled, FirstPendingHead, WfRows, LoopOrder, Mirror, StepSorted, Sound;
    if k > 0 {
      var done, i := batch[..k - 1], batch[k - 1];
      assert batch[..k][..k - 1] == done && batch[..k][|batch[..k]| - 1] == i;
      RunBatchKeepsSound(env, t, s, batch, k - 1);
      RunBatchKeeps(env, t, s, batch, k - 1);
      var (t1, sends) := RunBatch(env, t, done);
      ProcessOneKeepsSound(env, t1, i);
    }
  }

  lemma {:induction false} SendAllKeepsSound(t: Tx, sends: seq<Send>)
    requires TxOk(t) && SoundDb(t.db) && forall q :: 0 <= q < |sends| ==> sends[q].i < |t.mem| && t.mem[sends[q].i].status.Pending?
    requires forall q, r :: 0 <= q < r < |sends| ==> sends[q].i != sends[r].i
    ensures SoundDb(SendAll(t, sends).db)
  {
    hide WfRows, LoopOrder, Mirror, StepSorted, Sound;
    if sends != [] {
      var front, last := sends[..|sends| - 1], sends[|sends| - 1];
      SendAllKeepsSound(t, front);
      SendAllKeeps(t, front);
      var t1 := SendAll(t, front);
      var id := t1.mem[last.i].id;
      SoundUpdate(t1.db, t1.e, id, t1.Rows()[id].(status := Dispatched, dispatchedAt := Some(t1.now)));
    }
  }

  lemma SoundStatus(db: Db, e: nat, status: ExecStatus, now: nat)
    requires SoundDb(db) && e < |db.execs|
    ensures SoundDb(SetStatus(db, e, status, now))
  {
  }

  lemma SoundSkipPending(db: Db, e: nat)
    requires SoundDb(db) && e < |db.execs|
    ensures SoundDb(SkipPending(db, e))
  {
    var x := db.execs[e];
    assert DefsOf(SkipPendingRows(x.rows), x.authored) == DefsOf(x.rows, x.authored);
  }

  lemma AfterSendsKeepsSound(t: Tx, batch: seq<nat>, sends: seq<Send>)
    requires TxOk(t) && SoundDb(t.db) && SendsFit(t.mem, batch, sends)
    ensures SoundDb(AfterSends(t, sends).db)
  {
    assert forall q :: 0 <= q < |sends| ==> SendReady(t.mem[sends[q].i]);
    SendAllKeepsSound(t, sends);
  }

  lemma EndsKeepSound(env: Env, t: Tx, failedKey: string)
    requires TxOk(t) && SoundDb(t.db)
    ensures SoundDb(CompleteExecution(env, t).db) && SoundDb(WaitForResults(env, t).db) && SoundDb(FailExecution(t, failedKey).db)
  {
    hide WfRows, LoopOrder, Mirror, StepSorted, Sound;
    SoundStatus(t.db, t.e, COMPLETED, t.now);
    SoundStatus(t.db, t.e, InFlightStatus(t.mem, t.now, env.waitingAfter), t.now);
    SoundSkipPending(t.db, t.e);
    SoundStatus(SkipPending(t.db, t.e), t.e, FAILED, t.now);
  }

  lemma DispatchKeepsSound(env: Env, t: Tx)
    requires TxOk(t) && SoundDb(t.db) && DecideNext(t.mem).Dispatch?
    ensures var batch := BatchOf(t.mem, DecideNext(t.mem).keys);
            var (t1, sends) := RunBatch(env, t, batch);
            SoundDb(t1.db) && (!BatchFailed(t1.mem, batch) ==> SoundDb(AfterSends(t1, sends).db))
  {
    hide WfRows, LoopOrder, Mirror, StepSorted, MemAfter, SoundDb, RunBatch, BatchOf, IsBatch, SendsFit, AfterSends, BatchFailed;
    var batch := BatchOf(t.mem, DecideNext(t.mem).keys);
    var (t1, sends) := RunBatch(env, t, batch);
    BatchProgress(env, t);
    RunBatchKeepsSound(env, t, DecideNext(t.mem).step, batch, |batch|);
    assert batch[..|batch|] == batch;
    AfterSendsKeepsSound(t1, batch, sends);
  }

  lemma {:induction false} AdvanceKeepsSound(env: Env, t: Tx)
    requires TxOk(t) && SoundDb(t.db)
    ensures SoundDb(Advance(env, t).db)
    decreases Measure(t.mem)
  {
    hide WfRows, LoopOrder, Mirror, StepSorted, SoundDb, MemAfter, SendsFit, CompleteExecution, WaitForResults, FailExecution;
    match DecideNext(t.mem)
    case Dispatch(step, keys) =>
      var batch := BatchOf(t.mem, keys);
      var (t1, sends) := RunBatch(env, t, batch);
      BatchProgress(env, t);
      DispatchKeepsSound(env, t);
      if BatchFailed(t1.mem, batch) {
        AdvanceKeepsSound(env, t1);
      } else {
        AfterSendsKeeps(t1, batch, sends);
        if sends == [] { AdvanceKeepsSound(env, AfterSends(t1, sends)); }
      }
    case Fail(failedKey) => EndsKeepSound(env, t, failedKey);
    case _ => EndsKeepSound(env, t, "");
  }

  // ---------------------------------------------------------------- what a dispatched row may rely on

  /** An author row with this key has finished in an earlier step. */
  predicate DecidedKey(rows: seq<Row>, n: nat, s: nat, key: string)
    requires n <= |rows|
  {
    exists j :: 0 <= j < n && rows[j].key == key && rows[j].step < s && rows[j].status.Done()
  }

  /** The earliest action that sets the variable has finished in an earlier step. */
  predicate DecidedVariable(rows: seq<Row>, n: nat, s: nat, name: string)
    requires n <= |rows|
  {
    exists j :: 0 <= j < n && SetsName(DefOf(rows[j]), name) && rows[j].step < s && rows[j].status.Done() &&
      forall k :: 0 <= k < j ==> !SetsName(DefOf(rows[k]), name)
  }

  predicate DecidedCondition(rows: seq<Row>, n: nat, s: nat, key: string)
    requires n <= |rows|
  {
    exists j :: 0 <= j < n && rows[j].key == key && rows[j].typ == CONDITION && rows[j].step < s && rows[j].status.Done()
  }

  predicate IsLoopRoot(path: string) { RootOf(path) == "item" || RootOf(path) == "index" }

  /** Everything a row refers to has been decided before step `s`. */
  predicate Decided(rows: seq<Row>, n: nat, s: nat, row: Row)
    requires n <= |rows|
  {
    var d := DefOf(row);
    (row.runIf.Some? ==> DecidedCondition(rows, n, s, row.runIf.value.action)) &&
    (forall r :: r in RefsOf(d) ==> DecidedKey(rows, n, s, r)) &&
    (forall p :: p in PathsOf(d) && RootOf(p) == "vars" ==> SecondSegment(p) != "" && DecidedVariable(rows, n, s, SecondSegment(p))) &&
    (forall p :: p in TemplatePaths(row.params) && IsLoopRoot(p) ==> row.LoopHead() || row.loopIndex.Some?) &&
    (forall p :: p in ForEachPaths(d) ==> !IsLoopRoot(p))
  }

  lemma KeyDecided(x: Exec, s: nat, d: ActionDef, key: string)
    requires Sound(x) && WfRows(x.rows, x.authored) && BarrierAt(x.rows, s) && d.step == s
    requires RefOk(DefsOf(x.rows, x.authored), d, key)
    ensures DecidedKey(x.rows, x.authored, s, key)
  {
    var j := LastWithKey(DefsOf(x.rows, x.authored), key).value;
    assert x.rows[j].key == key && x.rows[j].step < s;
  }

  lemma VariableDecided(x: Exec, s: nat, d: ActionDef, path: string)
    requires Sound(x) && WfRows(x.rows, x.authored) && BarrierAt(x.rows, s) && d.step == s
    requires PathOk(DefsOf(x.rows, x.authored), true, d, path) && RootOf(path) == "vars"
    ensures SecondSegment(path) != "" && DecidedVariable(x.rows, x.authored, s, SecondSegment(path))
  {
    var defs := DefsOf(x.rows, x.authored);
    var j := FirstSetter(defs, SecondSegment(path)).value;
    assert defs[j] == DefOf(x.rows[j]) && x.rows[j].step < s;
    forall k | 0 <= k < j ensures !SetsName(DefOf(x.rows[k]), SecondSegment(path)) {
      assert !SetsName(defs[k], SecondSegment(path));
    }
  }

  lemma ConditionDecided(x: Exec, s: nat, d: ActionDef)
    requires Sound(x) && WfRows(x.rows, x.authored) && BarrierAt(x.rows, s) && d.step == s
    requires RunIfOk(DefsOf(x.rows, x.authored), d) && d.runIf.Some?
    ensures DecidedCondition(x.rows, x.authored, s, d.runIf.value.action)
  {
    var j := LastWithKey(DefsOf(x.rows, x.authored), d.runIf.value.action).value;
    assert x.rows[j].key == d.runIf.value.action && x.rows[j].step < s;
  }

  lemma RefsDecided(x: Exec, s: nat, i: nat)
    requires Sound(x) && WfRows(x.rows, x.authored) && BarrierAt(x.rows, s) && i < x.authored && x.rows[i].step == s
    requires ActionOk(DefsOf(x.rows, x.authored), true, DefOf(x.rows[i]))
    ensures var d := DefOf(x.rows[i]);
            (d.runIf.Some? ==> DecidedCondition(x.rows, x.authored, s, d.runIf.value.action)) &&
            forall r :: r in RefsOf(d) ==> DecidedKey(x.rows, x.authored, s, r)
  {
    hide Accepted, WfRows, BarrierAt, RefsOf, PathsOf, DecidedKey, DecidedCondition, RefOk, RunIfOk;
    var d := DefOf(x.rows[i]);
    if d.runIf.Some? { ConditionDecided(x, s, d); }
    forall r | r in RefsOf(d) ensures DecidedKey(x.rows, x.authored, s, r) { KeyDecided(x, s, d, r); }
  }

  lemma PathsDecided(x: Exec, s: nat, i: nat)
    requires Sound(x) && WfRows(x.rows, x.authored) && BarrierAt(x.rows, s) && i < x.authored && x.rows[i].step == s
    requires ActionOk(DefsOf(x.rows, x.authored), true, DefOf(x.rows[i]))
    ensures forall p :: p in PathsOf(DefOf(x.rows[i])) && RootOf(p) == "vars" ==>
              SecondSegment(p) != "" && DecidedVariable(x.rows, x.authored, s, SecondSegment(p))
  {
    hide Accepted, WfRows, BarrierAt, PathsOf, DecidedVariable, PathOk, RootOf, SecondSegment;
    var d := DefOf(x.rows[i]);
    forall p | p in PathsOf(d) && RootOf(p) == "vars"
      ensures SecondSegment(p) != "" && DecidedVariable(x.rows, x.authored, s, SecondSegment(p))
    {
      VariableDecided(x, s, d, p);
    }
  }

  lemma LoopRootsPlaced(defs: seq<ActionDef>, d: ActionDef)
    requires ActionOk(defs, true, d)
    ensures forall p :: p in TemplatePaths(d.params) && IsLoopRoot(p) ==> d.forEach.Some? && d.forEach.value != ""
    ensures forall p :: p in ForEachPaths(d) ==> !IsLoopRoot(p)
  {
    hide RootOf, TemplatePaths;
    forall p | p in TemplatePaths(d.params) && IsLoopRoot(p) ensures d.forEach.Some? && d.forEach.value != "" {
      assert p in PathsOf(d) && PathOk(defs, true, d, p);
    }
    forall p | p in ForEachPaths(d) ensures !IsLoopRoot(p) {
      assert p in PathsOf(d) && PathOk(defs, true, d, p);
    }
  }

  lemma AuthorRowDecided(x: Exec, s: nat, i: nat)
    requires Sound(x) && WfRows(x.rows, x.authored) && BarrierAt(x.rows, s) && i < x.authored && x.rows[i].step == s
    requires ActionOk(DefsOf(x.rows, x.authored), true, DefOf(x.rows[i]))
    ensures Decided(x.rows, x.authored, s, x.rows[i])
  {
    hide Sound, BarrierAt, ActionOk, PathsOf, RefsOf, ForEachPaths, IsLoopRoot, DecidedCondition, DecidedKey, DecidedVariable;
    RefsDecided(x, s, i);
    PathsDecided(x, s, i);
    LoopRootsPlaced(DefsOf(x.rows, x.authored), DefOf(x.rows[i]));
    assert AuthorRow(x.rows[i], i);
  }

  lemma RepetitionDecided(rows: seq<Row>, n: nat, s: nat, head: Row, row: Row, a: nat)
    requires n <= |rows| && Decided(rows, n, s, head) && ChildOf(row, a, head)
    ensures Decided(rows, n, s, row)
  {
    hide DecidedCondition, DecidedKey, DecidedVariable, IsLoopRoot, RootOf, SecondSegment, TemplatePaths, ReferencedKeys;
    assert PathsOf(DefOf(row)) <= PathsOf(DefOf(head)) && RefsOf(DefOf(row)) <= RefsOf(DefOf(head));
  }

  /**
   * Validation is sound: whenever a row of step `s` is dispatched, its condition is an
   * earlier condition.if that has ended, every action it references has completed or was
   * skipped, every variable it reads has its earliest setter behind it, and item and
   * index are used only where a repetition provides them.
   */
  lemma ValidationIsSound(x: Exec, s: nat, a: nat)
    requires Sound(x) && WfRows(x.rows, x.authored) && BarrierAt(x.rows, s) && a < |x.rows| && x.rows[a].step == s
    ensures Decided(x.rows, x.authored, s, x.rows[a])
  {
    hide Sound, Decided, ActionOk, BarrierAt;
    var i := RowIsAccepted(x, a);
    AuthorRowDecided(x, s, i);
    if a >= x.authored { RepetitionDecided(x.rows, x.authored, s, x.rows[i], x.rows[a], a); }
  }

  // ---------------------------------------------------------------- and so lookups do not fail

  lemma {:induction false} CompletedIsExposed(rows: seq<Row>, k: nat, i: nat)
    requires i < k <= |rows| && rows[i].status.Completed? && rows[i].parent.None?
    ensures rows[i].key in OutputsUpTo(rows, k)
  {
    if i < k - 1 { CompletedIsExposed(rows, k - 1, i); }
  }

  lemma {:induction false} SetterListed(rows: seq<Row>, i: nat)
    requires i < |rows| && SetterOf(rows[i]).Some?
    ensures SetterOf(rows[i]).value in SettersOf(rows)
  {
    var front := rows[..|rows| - 1];
    if i < |rows| - 1 {
      assert front[i] == rows[i];
      SetterListed(front, i);
    }
  }

  lemma {:induction false} InsertKeepsSetters(setters: seq<Setter>, s: Setter, x: Setter)
    requires x == s || x in setters
    ensures x in InsertSetter(setters, s)
  {
    if setters != [] && !RunsBefore(setters[|setters| - 1], s) && x != setters[|setters| - 1] {
      if x != s { assert x in setters[..|setters| - 1]; }
      InsertKeepsSetters(setters[..|setters| - 1], s, x);
    }
  }

  lemma {:induction false} SortKeepsSetters(setters: seq<Setter>, x: Setter)
    requires x in setters
    ensures x in SortSetters(setters)
  {
    var front, last := setters[..|setters| - 1], setters[|setters| - 1];
    if x != last {
      assert x in front;
      SortKeepsSetters(front, x);
    }
    InsertKeepsSetters(SortSetters(front), last, x);
  }

  lemma {:induction false} AssignedNames(setters: seq<Setter>, x: Setter)
    requires x in setters
    ensures x.name in Assign(setters)
  {
    var front, last := setters[..|setters| - 1], setters[|setters| - 1];
    if x != last {
      assert x in front;
      AssignedNames(front, x);
    }
  }

  /** A completed setter's variable can be read. */
  lemma VariableReadable(rows: seq<Row>, i: nat, name: string)
    requires i < |rows| && SetterOf(rows[i]).Some? && SetterOf(rows[i]).value.name == name
    ensures name in VariablesOf(rows)
  {
    var x := SetterOf(rows[i]).value;
    SetterListed(rows, i);
    SortKeepsSetters(SettersOf(rows), x);
    AssignedNames(SortSetters(SettersOf(rows)), x);
  }

  /** No row was skipped. */
  predicate NothingSkipped(rows: seq<Row>) { forall j :: 0 <= j < |rows| ==> !rows[j].status.Skipped? }

  /** No looped setter ran over an empty list. */
  predicate SettersRepeat(rows: seq<Row>, n: nat)
    requires n <= |rows|
  {
    forall j :: 0 <= j < n && rows[j].LoopHead() && rows[j].typ == VARIABLE && rows[j].status.Completed? ==>
      exists c :: n <= c < |rows| && rows[c].parent == Some(j)
  }

  lemma WalkTwo(scope: Json, first: string, second: string)
    requires scope.Obj? && first in scope.fields && scope.fields[first].Obj? && second in scope.fields[first].fields
    ensures Walk(scope, [first, second]) == Some(scope.fields[first].fields[second])
  {
    var inner := scope.fields[first];
    var value := inner.fields[second];
    assert [first, second][1..] == [second] && [second][1..] == [];
    assert Walk(value, []) == Some(value);
    assert Member(inner, second) == Some(value);
    assert Walk(inner, [second]) == Some(value);
    assert Member(scope, first) == Some(inner);
  }

  lemma ScopeShows(env: Env, t: Tx, i: nat, name: string)
    requires t.Bounded() && i < |t.mem|
    ensures name in Outputs(t.mem) ==> Walk(ScopeFor(env, t, i), ["actions", name]) == Some(Outputs(t.mem)[name])
    ensures name in VariablesOf(t.mem) ==> Walk(ScopeFor(env, t, i), ["vars", name]) == Some(VariablesOf(t.mem)[name])
  {
    hide Outputs, VariablesOf, Walk, Member;
    var scope := ScopeFor(env, t, i);
    assert scope.fields["actions"] == Obj(Outputs(t.mem)) && scope.fields["vars"] == Obj(VariablesOf(t.mem));
    if name in Outputs(t.mem) { WalkTwo(scope, "actions", name); }
    if name in VariablesOf(t.mem) { WalkTwo(scope, "vars", name); }
  }

  lemma DecidedKeyRow(rows: seq<Row>, n: nat, s: nat, key: string) returns (j: nat)
    requires WfRows(rows, n) && DecidedKey(rows, n, s, key)
    ensures j < n <= |rows| && rows[j].key == key && rows[j].step < s && rows[j].status.Done() && rows[j].parent.None?
  {
    j :| j < n && rows[j].key == key && rows[j].step < s && rows[j].status.Done();
    assert AuthorRow(rows[j], j);
  }

  /** `{{actions.<key>…}}` finds its action when nothing was skipped. */
  lemma ActionLookupSucceeds(env: Env, t: Tx, i: nat, s: nat, key: string)
    requires TxOk(t) && i < |t.mem| && NothingSkipped(t.Rows())
    requires DecidedKey(t.Rows(), t.db.execs[t.e].authored, s, key)
    ensures Walk(ScopeFor(env, t, i), ["actions", key]).Some?
  {
    hide WfRows, LoopOrder, StepSorted, Mirror, Scope, Walk, DecidedKey;
    var j := DecidedKeyRow(t.Rows(), t.db.execs[t.e].authored, s, key);
    var m := FoundIn(t.mem, t.Rows(), j);
    CompletedIsExposed(t.mem, |t.mem|, m);
    ScopeShows(env, t, i, key);
  }

  /** The row whose completion made a decided variable readable: the setter itself, or one of its repetitions. */
  lemma SetterRow(x: Exec, s: nat, name: string) returns (c: nat)
    requires Sound(x) && WfRows(x.rows, x.authored) && BarrierAt(x.rows, s) && NothingSkipped(x.rows) && SettersRepeat(x.rows, x.authored)
    requires DecidedVariable(x.rows, x.authored, s, name)
    ensures c < |x.rows| && SetsName(DefOf(x.rows[c]), name) && x.rows[c].status.Completed? && !x.rows[c].LoopHead()
  {
    hide Sound;
    var j: nat :| j < x.authored && SetsName(DefOf(x.rows[j]), name) && x.rows[j].step < s && x.rows[j].status.Done();
    c := j;
    assert AuthorRow(x.rows[j], j);
    if x.rows[j].LoopHead() {
      c :| x.authored <= c < |x.rows| && x.rows[c].parent == Some(j);
      assert ChildOf(x.rows[c], c, x.rows[x.rows[c].parent.value]);
      assert x.rows[c].status.Done();
    }
  }

  lemma KeptNameIsSet(row: Row, other: Row, name: string)
    requires NameKept(row) && SetsName(DefOf(row), name) && row.status.Completed? && !row.LoopHead() && SameButTimes(other, row)
    ensures SetterOf(other).Some? && SetterOf(other).value.name == name
  {
  }

  /** `{{vars.<name>…}}` finds its variable when nothing was skipped and no setter looped over an empty list. */
  lemma VariableLookupSucceeds(env: Env, t: Tx, i: nat, s: nat, name: string)
    requires TxOk(t) && i < |t.mem| && BarrierAt(t.Rows(), s) && Sound(t.db.execs[t.e])
    requires NothingSkipped(t.Rows()) && SettersRepeat(t.Rows(), t.db.execs[t.e].authored)
    requires DecidedVariable(t.Rows(), t.db.execs[t.e].authored, s, name)
    ensures Walk(ScopeFor(env, t, i), ["vars", name]).Some?
  {
    hide WfRows, LoopOrder, StepSorted, Mirror, Scope, Walk, DecidedVariable, BarrierAt, Accepted, SetterOf, SetsName, SettersRepeat;
    var c := SetterRow(t.db.execs[t.e], s, name);
    var m := FoundIn(t.mem, t.Rows(), c);
    KeptNameIsSet(t.Rows()[c], t.mem[m], name);
    VariableReadable(t.mem, m, name);
    ScopeShows(env, t, i, name);
  }

  // ---------------------------------------------------------------- a condition that repeats

  /** The output of a looped step is its count, so a condition.if that repeats never counts as met. */
  lemma LoopedConditionNeverMet(x: Exec, j: nat, row: Row, expected: bool)
    requires Sound(x) && j < |x.rows| && x.rows[j].LoopHead() && SameButTimes(row, x.rows[j])
    ensures !ConditionMet(row, expected)
  {
    assert OutputFits(x.rows[j]);
  }

  lemma FindUniqueKey(t: Tx, h: nat, key: string)
    requires TxOk(t) && h < |t.mem| && t.mem[h].key == key
    ensures FindKey(t.mem, key) == Some(h)
  {
    hide WfRows, LoopOrder, StepSorted, Mirror;
    var found := FindKey(t.mem, key).value;
    if found < h { MirrorKeysUnique(t, found, h); } else if h < found { MirrorKeysUnique(t, h, found); }
  }

  /** So a step that waits for a repeating condition is always skipped, whatever the repetitions computed. */
  lemma RunIfOnLoopSkips(env: Env, t: Tx, i: nat, h: nat)
    requires TxOk(t) && Sound(t.db.execs[t.e]) && i < |t.mem| && t.mem[i].runIf.Some?
    requires h < |t.mem| && t.mem[h].LoopHead() && t.mem[h].key == t.mem[i].runIf.value.action
    ensures ProcessOne(env, t, i) == (Skip(t, i), None)
  {
    hide WfRows, LoopOrder, StepSorted, Sound, ConditionMet;
    FindUniqueKey(t, h, t.mem[i].runIf.value.action);
    assert SameButTimes(t.mem[h], t.Rows()[t.mem[h].id]);
    LoopedConditionNeverMet(t.db.execs[t.e], t.mem[h].id, t.mem[h], t.mem[i].runIf.value.expected);
  }

  // ---------------------------------------------------------------- over every run

  lemma StartKeepsSound(env: Env, db: Db, e: nat, now: nat)
    requires LayoutOk(db) && SoundDb(db)
    ensures SoundDb(Start(env, db, e, now))
  {
    hide Sound, WfRows, LoopOrder;
    if e < |db.execs| && db.execs[e].status.PENDING? {
      var db1 := SetStatus(db, e, RUNNING, now);
      SoundStatus(db, e, RUNNING, now);
      LockOk(db1, e, now);
      AdvanceKeepsSound(env, Lock(db1, e, now));
    }
  }

  lemma RecordKeepsSound(t: Tx, i: nat, report: Report)
    requires TxOk(t) && DbInv(t.db) && SoundDb(t.db) && i < |t.mem| && t.mem[i].status.InFlight()
    ensures SoundDb(Record(t, i, report).db)
  {
    var id := t.mem[i].id;
    assert SameButTimes(t.mem[i], t.Rows()[id]);
    assert RowIssued(t.db.execs, t.db.log, t.e, id);
    SoundUpdate(t.db, t.e, id, Record(t, i, report).Rows()[id]);
  }

  lemma ApplyResultKeepsSound(env: Env, db: Db, e: nat, id: nat, report: Report, now: nat)
    requires DbInv(db) && SoundDb(db) && WasDispatched(db, e, id)
    ensures LayoutOk(db) && SoundDb(ApplyResult(env, db, e, id, report, now))
  {
    hide Issued, Settled, WfRows, LoopOrder, Sound;
    DbInvLayout(db);
    if e < |db.execs| {
      var t := Lock(db, e, now);
      LockOk(db, e, now);
      LockFinds(db, e, id, now);
      var found := FindId(t.mem, id);
      if found.Some? && !t.mem[found.value].status.Terminal() {
        RecordUpdates(t, found.value, report);
        RecordKeepsSound(t, found.value, report);
        if !t.loaded.Terminal() { AdvanceKeepsSound(env, Record(t, found.value, report)); }
      }
    }
  }

  lemma EventKeepsSound(env: Env, g: System, ev: Event)
    requires Inv(g) && SoundDb(g.db) && Enabled(g, ev) && LayoutOk(g.db)
    ensures SoundDb(After(env, g, ev).db)
  {
    hide Served, Issued, Settled, Sound;
    match ev
    case Save(routine) =>
    case TriggerRun(id, kind, slot, key, payload) => SoundNew(g.db.routines[id], Engine.Trigger(kind, slot, key, payload, None, 0));
    case StartRun(c, ack, now) => StartKeepsSound(env, g.db, c.payload.message.exec, now);
    case TakeResult(c, ack, now) =>
      var (e, a) := TargetOfResult(c.payload);
      ResultsAreExpected(g, c);
      ApplyResultKeepsSound(env, g.db, e, a, ReportOf(c.payload), now);
    case Sweep(now) => SweepKeepsSound(g.db, now, env.waitingAfter);
    case _ =>
  }

  lemma SweepKeepsSound(db: Db, now: nat, waitingAfter: nat)
    requires SoundDb(db)
    ensures SoundDb(MarkStale(db, now, waitingAfter))
  {
  }

  /** In every state of every run, each execution is one of an accepted routine with the outputs its setters promise. */
  lemma {:induction false} RunsStaySound(env: Env, states: seq<System>, events: seq<Event>, k: nat)
    requires IsRun(env, states, events) && k < |states|
    ensures SoundDb(states[k].db)
  {
    if k > 0 {
      RunsStaySound(env, states, events, k - 1);
      RunsKeepInv(env, states, events, k - 1);
      EventKeepsSound(env, states[k - 1], events[k - 1]);
    }
  }

  // ---------------------------------------------------------------- at every dispatch of every run

  /** When row `k` of a batch has its turn, everything it refers to is decided. */
  predicate TurnDecided(env: Env, t: Tx, s: nat, batch: seq<nat>, k: nat)
    requires t.Bounded() && k < |batch| && forall j :: 0 <= j < |batch| ==> batch[j] < |t.mem|
  {
    var t1 := RunBatch(env, t, batch[..k]).0;
    var id := t1.mem[batch[k]].id;
    t1.e < |t1.db.execs| && t1.db.execs[t1.e].authored <= |t1.Rows()| && id < |t1.Rows()| &&
    Decided(t1.Rows(), t1.db.execs[t1.e].authored, s, t1.Rows()[id])
  }

  lemma TurnsAreDecided(env: Env, t: Tx, s: nat, batch: seq<nat>, k: nat)
    requires TxInv(t) && SoundDb(t.db) && BarrierAt(t.Rows(), s) && IsBatch(t.mem, s, batch) && k < |batch|
    ensures TurnDecided(env, t, s, batch, k)
  {
    hide MidTx, Barrier, MemAfter, SendsFit, StepSorted, LoopOrder, BarrierAt, Decided, WfRows, RunBatch;
    RunBatchKeeps(env, t, s, batch, k);
    RunBatchEffect(env, t, s, batch, k);
    RunBatchKeepsSound(env, t, s, batch, k);
    var (t1, sends) := RunBatch(env, t, batch[..k]);
    NextRowReady(t.mem, t1.mem, s, batch, k + 1, sends);
    var id := t1.mem[batch[k]].id;
    assert SameButTimes(t1.mem[batch[k]], t1.Rows()[id]);
    ValidationIsSound(t1.db.execs[t1.e], s, id);
    AuthoredFit(t1.Rows(), t1.db.execs[t1.e].authored);
  }

  lemma AuthoredFit(rows: seq<Row>, n: nat)
    requires WfRows(rows, n)
    ensures n <= |rows|
  {
  }

  /** Every row handled in the course of a pass finds what it refers to decided. */
  ghost predicate EveryDispatchDecided(env: Env, t: Tx)
    requires TxOk(t)
    decreases Measure(t.mem)
  {
    DecideNext(t.mem).Dispatch? ==>
      var d := DecideNext(t.mem);
      var batch := BatchOf(t.mem, d.keys);
      var (t1, sends) := RunBatch(env, t, batch);
      BatchProgress(env, t);
      (forall k :: 0 <= k < |batch| ==> TurnDecided(env, t, d.step, batch, k)) &&
      (if BatchFailed(t1.mem, batch) then EveryDispatchDecided(env, t1)
       else sends == [] ==> (AfterSendsKeeps(t1, batch, sends); EveryDispatchDecided(env, AfterSends(t1, sends))))
  }

  lemma BatchTurnsDecided(env: Env, t: Tx)
    requires TxInv(t) && SoundDb(t.db) && DecideNext(t.mem).Dispatch?
    ensures var d := DecideNext(t.mem);
            var batch := BatchOf(t.mem, d.keys);
            forall k :: 0 <= k < |batch| ==> TurnDecided(env, t, d.step, batch, k)
  {
    hide Issued, Settled, MemAfter, SendsFit, StepSorted, LoopOrder, BarrierAt, TurnDecided, WfRows, SoundDb;
    var d := DecideNext(t.mem);
    var batch := BatchOf(t.mem, d.keys);
    BatchProgress(env, t);
    DispatchAtBarrier(t.mem, t.Rows());
    forall k | 0 <= k < |batch| ensures TurnDecided(env, t, d.step, batch, k) { TurnsAreDecided(env, t, d.step, batch, k); }
  }

  lemma {:induction false} PassDispatchesDecided(env: Env, t: Tx)
    requires TxInv(t) && SoundDb(t.db)
    ensures EveryDispatchDecided(env, t)
    decreases Measure(t.mem)
  {
    hide MidTx, Barrier, MemAfter, SendsFit, StepSorted, LoopOrder, Mirror, WfRows, TurnDecided, SoundDb;
    if DecideNext(t.mem).Dispatch? {
      var batch := BatchOf(t.mem, DecideNext(t.mem).keys);
      var (t1, sends) := RunBatch(env, t, batch);
      BatchProgress(env, t);
      BatchTurnsDecided(env, t);
      PassContinues(env, t);
      DispatchKeepsSound(env, t);
      if BatchFailed(t1.mem, batch) {
        PassDispatchesDecided(env, t1);
      } else {
        AfterSendsKeeps(t1, batch, sends);
        if sends == [] { PassDispatchesDecided(env, AfterSends(t1, sends)); }
      }
    }
  }

  /** The transaction a message opens, right before the engine advances; `None` when it does not get that far. */
  function Opened(db: Db, ev: Event): Option<Tx> {
    match ev
    case StartRun(c, _, now) =>
      if c.payload.Sent? && c.payload.message.RoutineTriggered? then
        var e := c.payload.message.exec;
        if e < |db.execs| && db.execs[e].status.PENDING? then Some(Lock(SetStatus(db, e, RUNNING, now), e, now)) else None
      else None
    case TakeResult(c, _, now) =>
      if c.payload.Sent? ==> c.payload.message.ActionResult? then
        var (e, a) := TargetOfResult(c.payload);
        if e >= |db.execs| || db.execs[e].status.Terminal() then None else
          var t := Lock(db, e, now);
          var found := FindId(t.mem, a);
          if found.None? || t.mem[found.value].status.Terminal() || !t.Bounded() then None
          else Some(Record(t, found.value, ReportOf(c.payload)))
      else None
    case _ => None
  }

  lemma StartOpensSound(db: Db, e: nat, now: nat)
    requires DbInv(db) && SoundDb(db) && e < |db.execs| && db.execs[e].status.PENDING?
    ensures var t := Lock(SetStatus(db, e, RUNNING, now), e, now); TxInv(t) && SoundDb(t.db)
  {
    StartOpens(db, e, now);
    SoundStatus(db, e, RUNNING, now);
  }

  lemma ResultOpensSound(db: Db, e: nat, a: nat, report: Report, now: nat)
    requires DbInv(db) && SoundDb(db) && WasDispatched(db, e, a) && e < |db.execs| && !db.execs[e].status.Terminal()
    ensures var t := Lock(db, e, now);
            var found := FindId(t.mem, a);
            t.Bounded() && (found.Some? && !t.mem[found.value].status.Terminal() ==>
              var t1 := Record(t, found.value, report); TxInv(t1) && SoundDb(t1.db))
  {
    hide Issued, Settled, WfRows, LoopOrder, Sound;
    DbInvLayout(db);
    LockOk(db, e, now);
    LockFinds(db, e, a, now);
    var t := Lock(db, e, now);
    var found := FindId(t.mem, a);
    if found.Some? && !t.mem[found.value].status.Terminal() {
      RecordInTime(t, found.value, report);
      RecordKeepsSound(t, found.value, report);
    }
  }

  lemma OpenedIsSound(g: System, ev: Event)
    requires Inv(g) && SoundDb(g.db) && Enabled(g, ev) && Opened(g.db, ev).Some?
    ensures TxInv(Opened(g.db, ev).value) && SoundDb(Opened(g.db, ev).value.db)
  {
    hide Served, DbInv, SoundDb, TxInv;
    match ev
    case StartRun(c, _, now) => StartOpensSound(g.db, c.payload.message.exec, now);
    case TakeResult(c, _, now) =>
      var (e, a) := TargetOfResult(c.payload);
      ResultsAreExpected(g, c);
      ResultOpensSound(g.db, e, a, ReportOf(c.payload), now);
  }

  /** In every run, whatever a message sets off, no row is handled before what it refers to is decided. */
  lemma DispatchesDecidedInEveryRun(env: Env, states: seq<System>, events: seq<Event>, k: nat)
    requires IsRun(env, states, events) && k < |events| && Opened(states[k].db, events[k]).Some?
    ensures var t := Opened(states[k].db, events[k]).value; TxOk(t) && EveryDispatchDecided(env, t)
  {
    hide Served, DbInv, SoundDb, MidTx, TxOk, Opened;
    RunsKeepInv(env, states, events, k);
    RunsStaySound(env, states, events, k);
    OpenedIsSound(states[k], events[k]);
    PassDispatchesDecided(env, Opened(states[k].db, events[k]).value);
  }
}
