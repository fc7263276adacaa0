/**
 * What a template reference finds at run time, exactly: an action's output if and only
 * if that action completed, a variable if and only if a setter of it completed, the
 * rest by how the execution was started. Together with the soundness of validation
 * this says when no reference of an accepted routine fails, in any run.
 */
module Lookups {
  import opened Base
  import opened Templates
  import opened Control
  import opened Progress
  import opened Store
  import opened RowInvariants
  import opened Engine
  import opened AdvanceLoop
  import opened Invariants
  import opened Transactions
  import opened Evolution
  import opened Definition
  import opened Network
  import opened Soundness
  import opened Rereading
  import opened Assignments
  import opened Overtaking

  // ---------------------------------------------------------------- one reference

  predicate CompletedAction(rows: seq<Row>, key: string) { exists j :: 0 <= j < |rows| && Exposes(rows[j], key) }

  predicate CompletedSetter(rows: seq<Row>, name: string) { exists c :: 0 <= c < |rows| && SetterDone(rows[c], name) }

  predicate SetterDone(row: Row, name: string) { SetsName(DefOf(row), name) && row.status.Completed? && !row.LoopHead() }

  /** Two segments lead somewhere exactly if the second is a field of the first. */
  lemma WalkPair(scope: Json, first: string, second: string)
    requires scope.Obj? && first in scope.fields && scope.fields[first].Obj?
    ensures Walk(scope, [first, second]).Some? <==> second in scope.fields[first].fields
  {
    var inner := scope.fields[first];
    assert [first, second][1..] == [second] && [second][1..] == [];
    assert Member(scope, first) == Some(inner);
    assert Walk(inner, [second]).Some? <==> second in inner.fields;
  }

  lemma WalkRoot(scope: Json, root: string)
    requires scope.Obj?
    ensures Walk(scope, [root]).Some? <==> root in scope.fields
  {
    assert [root][1..] == [];
  }

  lemma WalkBody(scope: Json, body: Json, field: string)
    requires scope.Obj? && "trigger" in scope.fields && scope.fields["trigger"].Obj? && "body" in scope.fields["trigger"].fields
    requires scope.fields["trigger"].fields["body"] == body
    ensures Walk(scope, ["trigger", "body", field]).Some? <==> Member(body, field).Some?
  {
    assert ["trigger", "body", field][1..] == ["body", field] && ["body", field][1..] == [field] && [field][1..] == [];
    assert Walk(body, [field]).Some? <==> Member(body, field).Some?;
    assert Walk(scope.fields["trigger"], ["body", field]) == Walk(body, [field]);
  }

  lemma ActionReadableExactly(env: Env, t: Tx, i: nat, key: string)
    requires TxOk(t) && i < |t.mem|
    ensures Walk(ScopeFor(env, t, i), ["actions", key]).Some? <==> CompletedAction(t.Rows(), key)
  {
    hide WfRows, LoopOrder, StepSorted, Mirror, VariablesOf, Walk;
    var scope := ScopeFor(env, t, i);
    assert scope.fields["actions"] == Obj(Outputs(t.mem));
    WalkPair(scope, "actions", key);
    if key in Outputs(t.mem) {
      OutputsOnly(t.mem, |t.mem|, key);
      var m :| 0 <= m < |t.mem| && Exposes(t.mem[m], key);
      MirrorRow(t.mem, t.Rows(), m);
      assert Exposes(t.Rows()[t.mem[m].id], key);
    }
    if CompletedAction(t.Rows(), key) {
      var j :| 0 <= j < |t.Rows()| && Exposes(t.Rows()[j], key);
      var m := FoundIn(t.mem, t.Rows(), j);
      CompletedIsExposed(t.mem, |t.mem|, m);
    }
  }

  lemma VariableReadableExactly(env: Env, t: Tx, i: nat, name: string)
    requires TxOk(t) && i < |t.mem| && Sound(t.db.execs[t.e])
    ensures Walk(ScopeFor(env, t, i), ["vars", name]).Some? <==> CompletedSetter(t.Rows(), name)
  {
    hide WfRows, LoopOrder, StepSorted, Mirror, VariablesOf, Walk, Outputs, Accepted, WinnerRow, OutputFits;
    var scope := ScopeFor(env, t, i);
    assert scope.fields["vars"] == Obj(VariablesOf(t.mem));
    WalkPair(scope, "vars", name);
    VariableIsWinner(t.mem, name);
    if name in VariablesOf(t.mem) {
      var w := WinnerRow(t.mem, name).value;
      MirrorRow(t.mem, t.Rows(), w);
      SetterShown(t.mem[w], t.Rows()[t.mem[w].id], name);
      assert OutputFits(t.Rows()[t.mem[w].id]);
      SetterName(t.Rows()[t.mem[w].id], name);
      assert SetterDone(t.Rows()[t.mem[w].id], name);
    }
    if CompletedSetter(t.Rows(), name) {
      var c :| 0 <= c < |t.Rows()| && SetterDone(t.Rows()[c], name);
      var m := FoundIn(t.mem, t.Rows(), c);
      assert OutputFits(t.Rows()[c]);
      KeptName(t.Rows()[c], t.mem[m], name);
      VariableReadable(t.mem, m, name);
    }
  }

  lemma KeptName(row: Row, other: Row, name: string)
    requires OutputFits(row) && SetterDone(row, name) && SameButTimes(other, row)
    ensures SetterOf(other).Some? && SetterOf(other).value.name == name
  {
    KeptNameIsSet(row, other, name);
  }

  // ---------------------------------------------------------------- all references of a row

  /** What each kind of reference finds, exactly. */
  ghost predicate ReadsExactly(env: Env, t: Tx, i: nat)
    requires t.Bounded() && i < |t.mem|
  {
    var scope, x := ScopeFor(env, t, i), t.db.execs[t.e];
    (forall key :: Walk(scope, ["actions", key]).Some? <==> CompletedAction(t.Rows(), key)) &&
    (forall name :: Walk(scope, ["vars", name]).Some? <==> CompletedSetter(t.Rows(), name)) &&
    (Walk(scope, ["item"]).Some? <==> t.mem[i].loopIndex.Some?) && (Walk(scope, ["index"]).Some? <==> t.mem[i].loopIndex.Some?) &&
    (Walk(scope, ["input"]).Some? <==> x.trigger == "routine") &&
    (forall field :: Walk(scope, ["trigger", "body", field]).Some? <==> x.payload.Some? && Member(x.payload.value, field).Some?)
  }

  lemma StartRoots(env: Env, t: Tx, i: nat, field: string)
    requires t.Bounded() && i < |t.mem|
    ensures var scope, x := ScopeFor(env, t, i), t.db.execs[t.e];
            (Walk(scope, ["item"]).Some? <==> t.mem[i].loopIndex.Some?) && (Walk(scope, ["index"]).Some? <==> t.mem[i].loopIndex.Some?) &&
            (Walk(scope, ["input"]).Some? <==> x.trigger == "routine") &&
            (Walk(scope, ["trigger", "body", field]).Some? <==> x.payload.Some? && Member(x.payload.value, field).Some?)
  {
    hide VariablesOf, Outputs, Walk;
    var scope, x := ScopeFor(env, t, i), t.db.execs[t.e];
    WalkRoot(scope, "item");
    WalkRoot(scope, "index");
    WalkRoot(scope, "input");
    var body := if x.payload.Some? then x.payload.value else Obj(map[]);
    assert scope.fields["trigger"] == Obj(map["type" := Str(x.trigger), "body" := body]);
    WalkBody(scope, body, field);
  }

  lemma ReadsAreExact(env: Env, t: Tx, i: nat)
    requires TxOk(t) && i < |t.mem| && Sound(t.db.execs[t.e])
    ensures ReadsExactly(env, t, i)
  {
    hide WfRows, LoopOrder, StepSorted, Mirror, Sound, Walk, Scope, CompletedAction, CompletedSetter, Member;
    forall key ensures Walk(ScopeFor(env, t, i), ["actions", key]).Some? <==> CompletedAction(t.Rows(), key) { ActionReadableExactly(env, t, i, key); }
    forall name ensures Walk(ScopeFor(env, t, i), ["vars", name]).Some? <==> CompletedSetter(t.Rows(), name) { VariableReadableExactly(env, t, i, name); }
    StartRoots(env, t, i, "");
    forall field
      ensures Walk(ScopeFor(env, t, i), ["trigger", "body", field]).Some? <==>
              t.db.execs[t.e].payload.Some? && Member(t.db.execs[t.e].payload.value, field).Some?
    {
      StartRoots(env, t, i, field);
    }
  }

  /** Every action and variable a row refers to is there, and item and index where it uses them. */
  ghost predicate ReferencesFound(env: Env, t: Tx, i: nat)
    requires t.Bounded() && i < |t.mem|
  {
    var scope, row := ScopeFor(env, t, i), t.Rows()[t.mem[i].id];
    (forall key :: key in RefsOf(DefOf(row)) ==> Walk(scope, ["actions", key]).Some?) &&
    (forall p :: p in PathsOf(DefOf(row)) && RootOf(p) == "vars" ==> Walk(scope, ["vars", SecondSegment(p)]).Some?) &&
    (forall p :: p in TemplatePaths(row.params) && IsLoopRoot(p) && !row.LoopHead() ==> Walk(scope, [RootOf(p)]).Some?) &&
    (forall p :: Uses(row, p) && NamesOne(p) ==> Walk(scope, Split(p)[..2]).Some?)
  }

  /** The params or the list of a row have this path in braces. */
  predicate Uses(row: Row, path: string) {
    path in TemplatePaths(row.params) || (row.forEach.Some? && path in TemplatePaths(Str(row.forEach.value)))
  }

  /** The path names an action or a variable. */
  predicate NamesOne(path: string) { |Split(path)| > 1 && Split(path)[1] != "" && (Split(path)[0] == "actions" || Split(path)[0] == "vars") }

  lemma {:induction false} SplitPrefix(path: string)
    ensures |Split(path)| > 1 ==> Split(path)[0] + "." <= path
  {
    if path != "" && path[0] != '.' {
      SplitPrefix(path[1..]);
      if |Split(path)| > 1 {
        assert path == [path[0]] + path[1..];
        assert Split(path)[0] + "." == [path[0]] + (Split(path[1..])[0] + ".");
      }
    }
  }

  /** A path to an action is among the references validation checks, one to a variable among the paths. */
  lemma NamedIsChecked(row: Row, path: string)
    requires Uses(row, path) && NamesOne(path)
    ensures path in PathsOf(DefOf(row)) && Split(path)[..2] == [Split(path)[0], SecondSegment(path)]
    ensures Split(path)[0] == "actions" ==> SecondSegment(path) in RefsOf(DefOf(row))
  {
    SplitPrefix(path);
    if Split(path)[0] == "actions" {
      assert "actions" + "." == "actions.";
      if path in TemplatePaths(row.params) { assert SecondSegment(path) in ReferencedKeys(row.params); }
      else { assert SecondSegment(path) in ReferencedKeys(Str(row.forEach.value)); }
    }
  }

  lemma ReferencesAreFound(env: Env, t: Tx, i: nat, s: nat)
    requires TxOk(t) && i < |t.mem| && BarrierAt(t.Rows(), s) && Sound(t.db.execs[t.e]) && t.db.execs[t.e].authored <= |t.Rows()|
    requires NothingSkipped(t.Rows()) && SettersRepeat(t.Rows(), t.db.execs[t.e].authored)
    requires Decided(t.Rows(), t.db.execs[t.e].authored, s, t.Rows()[t.mem[i].id])
    ensures ReferencesFound(env, t, i)
  {
    hide WfRows, LoopOrder, StepSorted, Sound, BarrierAt, Walk, Scope, NothingSkipped, SettersRepeat, DecidedKey, DecidedVariable, RefsOf, PathsOf, SecondSegment, TemplatePaths, Uses, Split;
    var row, n := t.Rows()[t.mem[i].id], t.db.execs[t.e].authored;
    MirrorRow(t.mem, t.Rows(), i);
    forall key | key in RefsOf(DefOf(row)) ensures Walk(ScopeFor(env, t, i), ["actions", key]).Some? { ActionLookupSucceeds(env, t, i, s, key); }
    forall p | p in PathsOf(DefOf(row)) && RootOf(p) == "vars" ensures Walk(ScopeFor(env, t, i), ["vars", SecondSegment(p)]).Some? {
      VariableLookupSucceeds(env, t, i, s, SecondSegment(p));
    }
    StartRoots(env, t, i, "");
    forall p | Uses(row, p) && NamesOne(p) ensures Walk(ScopeFor(env, t, i), Split(p)[..2]).Some? {
      NamedIsChecked(row, p);
      if Split(p)[0] == "actions" { ActionLookupSucceeds(env, t, i, s, SecondSegment(p)); }
      else { VariableLookupSucceeds(env, t, i, s, SecondSegment(p)); }
    }
  }

  // ---------------------------------------------------------------- at every dispatch of every run

  /** At the turn of row `k` of a batch: references read exactly, and none fails if nothing was skipped and no looped setter was empty. */
  ghost predicate TurnReads(env: Env, t: Tx, batch: seq<nat>, k: nat)
    requires t.Bounded() && k < |batch| && forall j :: 0 <= j < |batch| ==> batch[j] < |t.mem|
  {
    var t1 := RunBatch(env, t, batch[..k]).0;
    ReadsExactly(env, t1, batch[k]) && t1.db.execs[t1.e].authored <= |t1.Rows()| &&
    (NothingSkipped(t1.Rows()) && SettersRepeat(t1.Rows(), t1.db.execs[t1.e].authored) ==> ReferencesFound(env, t1, batch[k]))
  }

  lemma TurnReadsWell(env: Env, t: Tx, s: nat, batch: seq<nat>, k: nat)
    requires TxInv(t) && SoundDb(t.db) && BarrierAt(t.Rows(), s) && IsBatch(t.mem, s, batch) && k < |batch|
    ensures TurnReads(env, t, batch, k)
  {
    hide MidTx, Barrier, MemAfter, SendsFit, StepSorted, LoopOrder, BarrierAt, Decided, WfRows, Mirror, RunBatch, ReadsExactly, ReferencesFound, NothingSkipped, SettersRepeat, SoundDb;
    RunBatchKeeps(env, t, s, batch, k);
    RunBatchEffect(env, t, s, batch, k);
    RunBatchKeepsSound(env, t, s, batch, k);
    TurnsAreDecided(env, t, s, batch, k);
    var t1 := RunBatch(env, t, batch[..k]).0;
    SoundHere(t1);
    AuthoredFit(t1.Rows(), t1.db.execs[t1.e].authored);
    ReadsAreExact(env, t1, batch[k]);
    if NothingSkipped(t1.Rows()) && SettersRepeat(t1.Rows(), t1.db.execs[t1.e].authored) { ReferencesAreFound(env, t1, batch[k], s); }
  }

  lemma SoundHere(t: Tx)
    requires SoundDb(t.db) && t.e < |t.db.execs|
    ensures Sound(t.db.execs[t.e])
  {
  }

  ghost predicate EveryLookupSucceeds(env: Env, t: Tx)
    requires TxOk(t)
    decreases Measure(t.mem)
  {
    DecideNext(t.mem).Dispatch? ==>
      var batch := BatchOf(t.mem, DecideNext(t.mem).keys);
      var (t1, sends) := RunBatch(env, t, batch);
      AdvanceDispatches(env, t);
      (forall k :: 0 <= k < |batch| ==> TurnReads(env, t, batch, k)) &&
      (if BatchFailed(t1.mem, batch) then EveryLookupSucceeds(env, t1) else sends == [] ==> EveryLookupSucceeds(env, AfterSends(t1, sends)))
  }

  lemma BatchReadsWell(env: Env, t: Tx)
    requires TxInv(t) && SoundDb(t.db) && DecideNext(t.mem).Dispatch?
    ensures var batch := BatchOf(t.mem, DecideNext(t.mem).keys); forall k :: 0 <= k < |batch| ==> TurnReads(env, t, batch, k)
  {
    hide Settled, StepSorted, LoopOrder, BarrierAt, TurnReads, WfRows, SoundDb, IsBatch;
    var d := DecideNext(t.mem);
    var batch := BatchOf(t.mem, d.keys);
    DispatchedBatch(t);
    DispatchAtBarrier(t.mem, t.Rows());
    forall k | 0 <= k < |batch| ensures TurnReads(env, t, batch, k) { TurnReadsWell(env, t, d.step, batch, k); }
  }

  lemma {:induction false} PassReadsWell(env: Env, t: Tx)
    requires TxInv(t) && SoundDb(t.db)
    ensures EveryLookupSucceeds(env, t)
    decreases Measure(t.mem)
  {
    hide MidTx, Barrier, StepSorted, LoopOrder, Mirror, WfRows, TurnReads, SoundDb, RunBatch, BatchOf, BatchFailed, AfterSends, DecideNext;
    if DecideNext(t.mem).Dispatch? {
      BatchReadsWell(env, t);
      AdvanceDispatches(env, t);
      PassContinues(env, t);
      DispatchKeepsSound(env, t);
      var batch := BatchOf(t.mem, DecideNext(t.mem).keys);
      var (t1, sends) := RunBatch(env, t, batch);
      if BatchFailed(t1.mem, batch) { PassReadsWell(env, t1); }
      else if sends == [] { PassReadsWell(env, AfterSends(t1, sends)); }
    }
  }

  /** In every run, at every dispatch a message sets off, references read exactly as stated and fail only as stated. */
  lemma LookupsInEveryRun(env: Env, states: seq<System>, events: seq<Event>, k: nat)
    requires IsRun(env, states, events) && k < |events| && Opened(states[k].db, events[k]).Some?
    ensures var t := Opened(states[k].db, events[k]).value; TxOk(t) && EveryLookupSucceeds(env, t)
  {
    hide Served, DbInv, SoundDb, MidTx, TxOk, Opened, EveryLookupSucceeds;
    RunsKeepInv(env, states, events, k);
    RunsStaySound(env, states, events, k);
    OpenedIsSound(states[k], events[k]);
    PassReadsWell(env, Opened(states[k].db, events[k]).value);
  }

  // ---------------------------------------------------------------- the values found

  lemma WalkOne(value: Json, segment: string)
    ensures Walk(value, [segment]) == Member(value, segment)
  {
    assert [segment][1..] == [];
    match Member(value, segment)
    case Some(next) => assert Walk(next, []) == Some(next);
    case None =>
  }

  lemma PlainRoot(scope: Json, root: string)
    requires scope.Obj? && '.' !in root
    ensures Lookup(scope, root) == Field(scope, root)
  {
    hide Walk;
    SplitPlain(root);
    WalkOne(scope, root);
  }

  lemma PairRead(scope: Json, root: string, name: string)
    requires scope.Obj? && '.' !in root && '.' !in name && root in scope.fields && scope.fields[root].Obj?
    ensures Lookup(scope, root + "." + name) == Field(scope.fields[root], name)
  {
    SplitAtDot(root, name);
    SplitPlain(name);
    assert Split(root + "." + name) == [root, name] && [root, name][1..] == [name];
    WalkOne(scope.fields[root], name);
  }

  /** In a repetition `item` and `index` are its own. */
  lemma LoopRootsRead(env: Env, t: Tx, i: nat)
    requires t.Bounded() && i < |t.mem|
    ensures var scope, row := ScopeFor(env, t, i), t.mem[i];
            Lookup(scope, "item") == (if row.loopIndex.Some? then Some(row.loopItem) else None) &&
            Lookup(scope, "index") == if row.loopIndex.Some? then Some(Num(row.loopIndex.value as real)) else None
  {
    hide VariablesOf, Outputs, Lookup;
    PlainRoot(ScopeFor(env, t, i), "item");
    PlainRoot(ScopeFor(env, t, i), "index");
  }

  /** In a called run `input` is what its payload carries. */
  lemma InputRead(env: Env, t: Tx, i: nat, input: Json)
    requires t.Bounded() && i < |t.mem| && t.db.execs[t.e].trigger == "routine" && t.db.execs[t.e].payload == Some(Obj(map["input" := input]))
    ensures Lookup(ScopeFor(env, t, i), "input") == Some(input)
  {
    hide VariablesOf, Outputs, Lookup;
    PlainRoot(ScopeFor(env, t, i), "input");
  }

  lemma RoutineFields(env: Env, t: Tx, i: nat)
    requires t.Bounded() && i < |t.mem|
    ensures var scope, x := ScopeFor(env, t, i), t.db.execs[t.e];
            scope.Obj? && Field(scope, "routine") == Some(Obj(map["id" := Str(x.routineId), "name" := Str(x.routineName)]))
  {
    hide VariablesOf, Outputs, InputOf;
  }

  lemma TriggerFields(env: Env, t: Tx, i: nat)
    requires t.Bounded() && i < |t.mem|
    ensures var scope, x := ScopeFor(env, t, i), t.db.execs[t.e];
            Field(scope, "trigger") == Some(Obj(map["type" := Str(x.trigger), "body" := if x.payload.Some? then x.payload.value else Obj(map[])]))
  {
    hide VariablesOf, Outputs, InputOf;
  }

  lemma ExecutionFields(env: Env, t: Tx, i: nat)
    requires t.Bounded() && i < |t.mem|
    ensures var scope, x := ScopeFor(env, t, i), t.db.execs[t.e];
            Field(scope, "now") == Some(Str(env.iso(t.now))) &&
            Field(scope, "execution") == Some(Obj(map["id" := Str(env.uuid(t.e)), "trigger" := Str(x.trigger),
                                                      "startedAt" := Str(env.iso(if x.startedAt.Some? then x.startedAt.value else t.now))]))
  {
    hide VariablesOf, Outputs, InputOf;
  }

  /** What is read of the run itself. */
  lemma HeadRead(env: Env, t: Tx, i: nat)
    requires t.Bounded() && i < |t.mem|
    ensures var scope, x := ScopeFor(env, t, i), t.db.execs[t.e];
            Lookup(scope, "routine.id") == Some(Str(x.routineId)) && Lookup(scope, "routine.name") == Some(Str(x.routineName)) &&
            Lookup(scope, "trigger.type") == Some(Str(x.trigger)) && (x.payload.Some? ==> Lookup(scope, "trigger.body") == x.payload)
  {
    hide Scope, Lookup;
    var scope := ScopeFor(env, t, i);
    RoutineFields(env, t, i);
    TriggerFields(env, t, i);
    assert "routine" + "." + "id" == "routine.id" && "routine" + "." + "name" == "routine.name";
    assert "trigger" + "." + "type" == "trigger.type" && "trigger" + "." + "body" == "trigger.body";
    PairRead(scope, "routine", "id");
    PairRead(scope, "routine", "name");
    PairRead(scope, "trigger", "type");
    PairRead(scope, "trigger", "body");
  }

  lemma ExecutionRead(env: Env, t: Tx, i: nat)
    requires t.Bounded() && i < |t.mem|
    ensures var scope, x := ScopeFor(env, t, i), t.db.execs[t.e];
            Lookup(scope, "execution.id") == Some(Str(env.uuid(t.e))) && Lookup(scope, "execution.trigger") == Some(Str(x.trigger)) &&
            Lookup(scope, "now") == Some(Str(env.iso(t.now))) &&
            (x.startedAt.Some? ==> Lookup(scope, "execution.startedAt") == Some(Str(env.iso(x.startedAt.value))))
  {
    hide Scope, Lookup;
    var scope := ScopeFor(env, t, i);
    RoutineFields(env, t, i);
    ExecutionFields(env, t, i);
    assert "execution" + "." + "id" == "execution.id" && "execution" + "." + "trigger" == "execution.trigger";
    assert "execution" + "." + "startedAt" == "execution.startedAt";
    PlainRoot(scope, "now");
    PairRead(scope, "execution", "id");
    PairRead(scope, "execution", "trigger");
    PairRead(scope, "execution", "startedAt");
  }

  /** A loop of an accepted routine runs over the very value its one path names, never over a text made of it. */
  lemma LoopReadsOnePath(env: Env, t: Tx, i: nat) returns (path: string)
    requires TxOk(t) && i < |t.mem| && t.mem[i].LoopHead() && Sound(t.db.execs[t.e])
    ensures path in TemplatePaths(Str(t.mem[i].forEach.value)) && !IsLoopRoot(path)
    ensures Resolve(Str(t.mem[i].forEach.value), ScopeFor(env, t, i), env.render) == Lookup(ScopeFor(env, t, i), path)
  {
    hide Scope, StepSorted, LoopOrder, Mirror, OutputFits;
    MirrorRow(t.mem, t.Rows(), i);
    var x, id := t.db.execs[t.e], t.mem[i].id;
    var k := RowIsAccepted(x, id);
    var d := DefOf(x.rows[k]);
    path := SinglePath(d.forEach.value).value;
    SingleIsOnlyPiece(d.forEach.value);
    PathsOfText(d.forEach.value, path);
    assert Pieces(d.forEach.value)[0] == Ref(path);
    LoopRootsPlaced(DefsOf(x.rows, x.authored), d);
  }

  // ---------------------------------------------------------------- the roots validation knows

  /** A run-time scope offers this root. */
  ghost predicate Offered(env: Env, root: string) {
    exists t: Tx, i: nat :: t.Bounded() && i < |t.mem| && root in Roots(env, t, i)
  }

  function Roots(env: Env, t: Tx, i: nat): set<string>
    requires t.Bounded() && i < |t.mem|
  {
    match ScopeFor(env, t, i) case Obj(fields) => fields.Keys case _ => {}
  }

  lemma RootsAt(env: Env, t: Tx, i: nat)
    requires t.Bounded() && i < |t.mem|
    ensures Roots(env, t, i) == {"routine", "execution", "trigger", "actions", "vars", "now"} +
                                (if t.mem[i].loopIndex.Some? then {"item", "index"} else {}) +
                                (if t.db.execs[t.e].trigger == "routine" then {"input"} else {})
  {
    hide VariablesOf, Outputs, InputOf;
  }

  /** Validation knows exactly the roots that some action of some run is offered. */
  lemma RootsAreOffered(env: Env, root: string)
    ensures root in TEMPLATE_ROOTS <==> Offered(env, root)
  {
    hide Scope;
    var row := Row(0, "a", MATH, 1, 0, Null, None, None, None, Null, Some(0), Pending, None, None, None);
    var x := Exec("", "", "", "routine", None, None, None, None, 0, RUNNING, None, 1, [row]);
    var t := Tx(0, 0, RUNNING, Db(map[], [x], []), [row]);
    RootsAt(env, t, 0);
    assert t.Bounded();
    if Offered(env, root) {
      var t: Tx, i: nat :| t.Bounded() && i < |t.mem| && root in Roots(env, t, i);
      RootsAt(env, t, i);
    } else {
      assert root !in Roots(env, t, 0);
    }
  }
}
