/**
 * That a variable can be overtaken is no artefact of the model: a run from the empty
 * system in which it happens. One step sets `x` plainly and in a loop, and also asks
 * a worker for something. The plain setter finishes at 5; when the worker has
 * answered at 9 the repetition finishes, and the engine still reads the plain value.
 */
module OvertakenRun {
  import opened Base
  import opened Templates
  import opened Control
  import opened Progress
  import opened Store
  import opened RowInvariants
  import opened Engine
  import opened AdvanceLoop
  import opened Invariants
  import opened Transactions
  import opened Definition
  import opened Network
  import opened Soundness
  import opened Rereading
  import opened Assignments
  import opened FinishTimes
  import opened Overtaking
  import opened Faithful

  // ---------------------------------------------------------------- the routine

  const WORKER := "weather.get"

  function Setting(value: string): Json { Obj(map["name" := Str("x"), "value" := Str(value)]) }

  const CITY := Obj(map["city" := Str("Linz")])
  const TAIL := "body" + "." + "list"
  const PATH := "trigger" + "." + TAIL
  const LIST := "{{" + PATH + "}}"
  const BODY := Obj(map["list" := Arr([Null])])

  const PLAIN := ActionDef("plain", VARIABLE, 1, Setting("plain"), None, None)
  const LOOPED := ActionDef("looped", VARIABLE, 1, Setting("repeated"), None, Some(LIST))
  const ASKED := ActionDef("asked", WORKER, 1, CITY, None, None)

  const ROUTINE := Routine("r", "o", "example", [PLAIN, LOOPED, ASKED])

  lemma TextWithoutBraces(text: string)
    requires '{' !in text
    ensures TemplatePaths(Str(text)) == {} && SinglePath(text).None?
  {
    assert forall i :: 0 <= i < |text| ==> text[i] != '{';
    NoBraceNoPiece(text, 0);
    SingleIsOnlyPiece(text);
    forall p ensures Pieces(text) != [Ref(p)] { assert [Ref(p)][0].Ref?; }
  }

  lemma SettingHasNoPaths(value: string)
    requires '{' !in value
    ensures TemplatePaths(Setting(value)) == {}
  {
    TextWithoutBraces(value);
    TextWithoutBraces("x");
    var fields := Setting(value).fields;
    assert forall k :: k in fields ==> TemplatePaths(fields[k]) == {};
  }

  lemma CityHasNoPaths()
    ensures TemplatePaths(CITY) == {}
  {
    TextWithoutBraces("Linz");
    assert forall k :: k in CITY.fields ==> TemplatePaths(CITY.fields[k]) == {};
  }

  lemma PathChars()
    ensures PATH != "" && forall k :: 0 <= k < |PATH| ==> IsPathChar(PATH[k])
  {
    assert forall k :: 0 <= k < |"trigger"| ==> IsPathChar("trigger"[k]);
    assert forall k :: 0 <= k < |"body"| ==> IsPathChar("body"[k]);
    assert forall k :: 0 <= k < |"list"| ==> IsPathChar("list"[k]);
  }

  lemma PathSegments()
    ensures Split(PATH) == ["trigger", "body", "list"] && PATH[0] == 't'
  {
    SplitAtDot("trigger", TAIL);
    SplitAtDot("body", "list");
    SplitPlain("list");
  }

  lemma ListIsPlaceholder()
    ensures SinglePath(LIST) == Some(PATH) && TemplatePaths(Str(LIST)) == {PATH}
  {
    hide SinglePath, PiecesFrom;
    PathChars();
    PlaceholderPath(PATH);
    SingleIsOnlyPiece(LIST);
    OnePiece(LIST, PATH);
  }

  lemma OnePiece(text: string, path: string)
    requires Pieces(text) == [Ref(path)]
    ensures TemplatePaths(Str(text)) == {path}
  {
    hide PiecesFrom;
    assert Pieces(text)[0] == Ref(path);
  }

  lemma TypesDiffer()
    ensures VARIABLE != CONDITION && VARIABLE != MATH && VARIABLE != ROUTINE_RUN && VARIABLE != WORKER
    ensures WORKER != CONDITION && WORKER != MATH && WORKER != ROUTINE_RUN
    ensures VARIABLE in REQUIRED_PARAMS && REQUIRED_PARAMS[VARIABLE] == ["name"]
    ensures WORKER in REQUIRED_PARAMS && REQUIRED_PARAMS[WORKER] == ["city"]
  {
    assert VARIABLE[0] == 'v' && CONDITION[0] == 'c' && MATH[0] == 'm' && ROUTINE_RUN[0] == 'r' && WORKER[0] == 'w';
    assert "task.create"[0] == 't' && "http.request"[0] == 'h';
  }

  lemma KeysDiffer()
    ensures "plain" != "looped" && "plain" != "asked" && "looped" != "asked"
    ensures BracketFree("plain") && BracketFree("looped") && BracketFree("asked")
  {
    assert "plain"[0] == 'p' && "asked"[0] == 'a';
  }

  lemma SetterOk(defs: seq<ActionDef>, d: ActionDef, value: string)
    requires d.typ == VARIABLE && d.params == Setting(value) && '{' !in value && d.runIf.None? && (d.forEach.None? || d.forEach == Some(LIST))
    ensures ActionOk(defs, true, d)
  {
    hide TemplatePaths, SinglePath, PiecesFrom, Split, ReferencedKeys;
    TypesDiffer();
    SettingHasNoPaths(value);
    ListIsPlaceholder();
    PathSegments();
    NoReferences();
    RootsDiffer();
    SetterParams(value);
    assert PathsOf(d) <= {PATH};
    assert RootOf(PATH) == "trigger";
  }

  lemma SetterParams(value: string)
    ensures Field(Setting(value), "name") == Some(Str("x")) && IsVariableName("x") && Field(Setting(value), "operator").None?
    ensures ReferencedKeys(Setting(value)) <= TemplateKeys(TemplatePaths(Setting(value)))
  {
  }

  function TemplateKeys(paths: set<string>): set<string> { set p | p in paths :: SecondSegment(p) }

  lemma NoReferences()
    ensures ReferencedKeys(Str(LIST)) == {}
  {
    hide TemplatePaths, SinglePath, PiecesFrom, Split;
    ListIsPlaceholder();
    PathSegments();
    assert "actions."[0] == 'a';
  }

  lemma RootsDiffer()
    ensures "trigger" != "item" && "trigger" != "index" && "trigger" != "vars" && "trigger" in TEMPLATE_ROOTS
  {
  }

  lemma RoutineAccepted()
    ensures Storable(ROUTINE)
  {
    hide ActionOk;
    KeysDiffer();
    SetterOk(ROUTINE.actions, PLAIN, "plain");
    SetterOk(ROUTINE.actions, LOOPED, "repeated");
    AskedOk(ROUTINE.actions);
  }

  lemma AskedOk(defs: seq<ActionDef>)
    ensures ActionOk(defs, true, ASKED)
  {
    TypesDiffer();
    CityHasNoPaths();
  }

  // ---------------------------------------------------------------- the first transaction, at 5

  const TRIGGER := Engine.Trigger("webhook", None, None, Some(BODY), None, 0)

  /** The tables once the routine was stored and triggered. */
  const TRIGGERED := Db(map["r" := ROUTINE], [NewExec(ROUTINE, TRIGGER)], [RoutineTriggered(0)])

  const COUNT_ONE := Obj(map["count" := Num(1.0)])

  /** The rows when the pass is over: the plain setter and the loop finished at 5, the request sent, one repetition left. */
  const ROWS5: seq<Row> :=
    [FreshRow(0, PLAIN).(status := Completed, output := Some(Setting("plain")), dispatchedAt := Some(5), finishedAt := Some(5)),
     FreshRow(1, LOOPED).(status := Completed, output := Some(COUNT_ONE), finishedAt := Some(5)),
     FreshRow(2, ASKED).(status := Dispatched, dispatchedAt := Some(5)),
     ChildRow(3, FreshRow(1, LOOPED), 0, Null)]

  lemma SortedLoads(rows: seq<Row>)
    requires SortedRows(rows)
    ensures Load(rows) == rows
  {
    if rows != [] {
      var front := rows[..|rows| - 1];
      SortedLoads(front);
      assert front + [rows[|rows| - 1]] == rows;
    }
  }

  function Opened5(): Tx { Tx(0, 5, RUNNING, SetStatus(TRIGGERED, 0, RUNNING, 5), AuthorRows(ROUTINE.actions)) }

  lemma OpensAt5()
    ensures Lock(SetStatus(TRIGGERED, 0, RUNNING, 5), 0, 5) == Opened5()
  {
    SortedLoads(AuthorRows(ROUTINE.actions));
  }

  /** A setter without references is evaluated to what it says. */
  lemma SetterRuns(env: Env, t: Tx, i: nat, value: string)
    requires t.Bounded() && i < |t.mem| && t.mem[i].typ == VARIABLE && t.mem[i].params == Setting(value) && '{' !in value
    requires t.mem[i].runIf.None? && !t.mem[i].LoopHead()
    ensures ProcessOne(env, t, i) ==
      (CompleteRow(t.(db := MarkDispatched(t.db, t.e, t.mem[i].id, t.now)), i, Setting(value)), None)
  {
    hide Scope, Resolve;
    TypesDiffer();
    SettingHasNoPaths(value);
    ResolveWithoutPaths(Setting(value), ScopeFor(env, t, i), env.render);
    assert IsVariableName("x");
  }

  lemma WalkToList(scope: Json, kind: string)
    requires scope.Obj? && "trigger" in scope.fields && scope.fields["trigger"] == Obj(map["type" := Str(kind), "body" := BODY])
    ensures Walk(scope, ["trigger", "body", "list"]) == Some(Arr([Null]))
  {
    assert ["trigger", "body", "list"][1..] == ["body", "list"] && ["body", "list"][1..] == ["list"] && ["list"][1..] == [];
    assert Walk(Arr([Null]), []) == Some(Arr([Null]));
    assert Walk(BODY, ["list"]) == Some(Arr([Null]));
    assert Walk(scope.fields["trigger"], ["body", "list"]) == Some(Arr([Null]));
  }

  lemma ListResolves(env: Env, t: Tx, i: nat)
    requires t.Bounded() && i < |t.mem| && t.db.execs[t.e].payload == Some(BODY)
    ensures Resolve(Str(LIST), ScopeFor(env, t, i), env.render) == Some(Arr([Null]))
  {
    hide SinglePath, PiecesFrom, Split, Outputs, VariablesOf, Walk;
    ListIsPlaceholder();
    PathSegments();
    WalkToList(ScopeFor(env, t, i), t.db.execs[t.e].trigger);
  }

  lemma LoopRuns(env: Env, t: Tx, i: nat)
    requires t.Bounded() && i < |t.mem| && t.db.execs[t.e].payload == Some(BODY)
    requires t.mem[i].runIf.None? && t.mem[i].parent.None? && t.mem[i].forEach == Some(LIST)
    ensures ProcessOne(env, t, i) == (Expand(t, i, [Null]), None)
  {
    hide Scope, Resolve;
    ListResolves(env, t, i);
    assert LIST != "";
  }

  lemma WorkerWaits(env: Env, t: Tx, i: nat)
    requires t.Bounded() && i < |t.mem| && t.mem[i].typ == WORKER && t.mem[i].params == CITY && t.mem[i].runIf.None? && !t.mem[i].LoopHead()
    ensures ProcessOne(env, t, i) == (t, Some(CITY))
  {
    hide Scope, Resolve;
    TypesDiffer();
    CityHasNoPaths();
    ResolveWithoutPaths(CITY, ScopeFor(env, t, i), env.render);
  }

  /** Table and memory after the three rows had their turn, before the request is sent. */
  function Handled5(): Tx {
    var rows := ROWS5[2 := FreshRow(2, ASKED)];
    var mem := [rows[0].(dispatchedAt := None, finishedAt := None), rows[1].(finishedAt := None), rows[2], rows[3]];
    Opened5().(db := WithRows(Opened5().db, 0, rows), mem := mem)
  }

  function AfterPlain(): Tx {
    var t := Opened5();
    t.(db := WithRow(t.db, 0, 0, ROWS5[0]), mem := t.mem[0 := ROWS5[0].(dispatchedAt := None, finishedAt := None)])
  }

  lemma FirstRow(env: Env)
    ensures ProcessOne(env, Opened5(), 0) == (AfterPlain(), None)
  {
    SetterRuns(env, Opened5(), 0, "plain");
    var t := Opened5();
    WithRowTwice(t.db, 0, 0, t.Rows()[0].(status := Dispatched, dispatchedAt := Some(5)), ROWS5[0]);
  }

  lemma SecondRow(env: Env)
    ensures ProcessOne(env, AfterPlain(), 1) == (Handled5(), None)
  {
    hide ProcessOne, Expand;
    LoopRuns(env, AfterPlain(), 1);
    LoopExpands();
  }

  lemma LoopExpands()
    ensures Expand(AfterPlain(), 1, [Null]) == Handled5()
  {
    var t := AfterPlain();
    assert t.Rows()[1] == FreshRow(1, LOOPED);
    assert ChildRows(3, FreshRow(1, LOOPED), [Null]) == [ROWS5[3]];
    var t' := Expand(t, 1, [Null]);
    assert t'.mem == Handled5().mem;
    assert t'.Rows() == Handled5().Rows();
    assert t'.db.execs == Handled5().db.execs;
  }

  lemma FirstBatch(env: Env)
    ensures Opened5().Bounded() && RunBatch(env, Opened5(), [0, 1, 2]) == (Handled5(), [Send(2, CITY)])
  {
    hide ProcessOne;
    FirstRow(env);
    SecondRow(env);
    WorkerRow(env);
    var two: seq<nat> := [0, 1];
    var three: seq<nat> := [0, 1, 2];
    assert three[..2] == two && two[..1] == [0] && [0][..0] == [];
    assert RunBatch(env, Opened5(), []) == (Opened5(), []);
    assert RunBatch(env, Opened5(), [0]) == (AfterPlain(), []);
    assert RunBatch(env, Opened5(), two) == (Handled5(), []);
    assert [] + [Send(2, CITY)] == [Send(2, CITY)];
  }

  lemma WorkerRow(env: Env)
    ensures ProcessOne(env, Handled5(), 2) == (Handled5(), Some(CITY))
  {
    WorkerWaits(env, Handled5(), 2);
  }

  lemma {:induction false} AtLeast(batch: seq<nat>, k: nat)
    requires (forall i, j :: 0 <= i < j < |batch| ==> batch[i] < batch[j]) && k < |batch|
    ensures batch[k] >= batch[0] + k
  {
    if k > 0 { AtLeast(batch, k - 1); }
  }

  lemma AllThree(mem: seq<Row>, batch: seq<nat>)
    requires |mem| == 3 && IsBatch(mem, 1, batch) && forall i :: 0 <= i < 3 ==> mem[i].status.Pending? && mem[i].step == 1
    ensures batch == [0, 1, 2]
  {
    assert 0 in batch && 1 in batch && 2 in batch;
    AtLeast(batch, |batch| - 1);
    var a: nat :| a < |batch| && batch[a] == 0;
    var b: nat :| b < |batch| && batch[b] == 1;
    var c: nat :| c < |batch| && batch[c] == 2;
    assert a < b < c && |batch| == 3;
  }

  lemma AllPendingDispatch(mem: seq<Row>)
    requires |mem| == 3 && forall i :: 0 <= i < 3 ==> mem[i].status.Pending? && mem[i].step == 1
    ensures DecideNext(mem).Dispatch? && DecideNext(mem).step == 1
  {
    assert mem[0].status.Pending?;
    DecisionMeans(mem);
  }

  lemma DecidesFirst()
    requires TxOk(Opened5())
    ensures DecideNext(Opened5().mem).Dispatch? && BatchOf(Opened5().mem, DecideNext(Opened5().mem).keys) == [0, 1, 2]
  {
    hide WfRows, LoopOrder, Mirror, StepSorted, DecideNext, BatchOf, IsBatch, TxOk;
    var t := Opened5();
    AllPendingDispatch(t.mem);
    DispatchedBatch(t);
    AllThree(t.mem, BatchOf(t.mem, DecideNext(t.mem).keys));
  }

  /** The tables as the first transaction commits them. */
  const COMMITTED5 :=
    Db(map["r" := ROUTINE], [NewExec(ROUTINE, TRIGGER).(status := RUNNING, startedAt := Some(5), rows := ROWS5)],
       [RoutineTriggered(0), ActionRequested(0, 2, CITY)])

  lemma SendsFirst()
    ensures Handled5().Bounded() && AfterSends(Handled5(), [Send(2, CITY)]).db == COMMITTED5
  {
    var t := Handled5();
    assert [Send(2, CITY)][..0] == [];
    assert SendAll(t, [Send(2, CITY)]) == SendOne(t, Send(2, CITY));
    var db := AfterSends(t, [Send(2, CITY)]).db;
    assert db.execs[0].rows == ROWS5;
    assert db.execs == COMMITTED5.execs;
  }

  lemma StartCommits(env: Env)
    requires LayoutOk(TRIGGERED)
    ensures Start(env, TRIGGERED, 0, 5) == COMMITTED5
  {
    hide Opened5, Handled5, DecideNext, RunBatch, BatchOf, WfRows, LoopOrder, AfterSends, Lock;
    OpensAt5();
    LockOk(SetStatus(TRIGGERED, 0, RUNNING, 5), 0, 5);
    DecidesFirst();
    FirstBatch(env);
    NoneFailedYet();
    SendsFirst();
    AdvanceDispatches(env, Opened5());
  }

  lemma NoneFailedYet()
    ensures !BatchFailed(Handled5().mem, [0, 1, 2])
  {
  }

  // ---------------------------------------------------------------- the second transaction, at 9

  const ANSWERED := ROWS5[2].(status := Completed, output := Some(Null))

  /** The transaction that takes the worker's answer, right before the engine advances. */
  function Opened9(): Tx {
    Tx(0, 9, RUNNING, WithRow(COMMITTED5, 0, 2, ANSWERED.(finishedAt := Some(9))), ROWS5[2 := ANSWERED])
  }

  lemma OpensAt9()
    ensures Lock(COMMITTED5, 0, 9).Bounded() && FindId(Lock(COMMITTED5, 0, 9).mem, 2) == Some(2)
    ensures !Lock(COMMITTED5, 0, 9).mem[2].status.Terminal()
    ensures Record(Lock(COMMITTED5, 0, 9), 2, Final(OkResult(Null))) == Opened9()
  {
    SortedLoads(ROWS5);
    var mem := Lock(COMMITTED5, 0, 9).mem;
    assert mem == ROWS5 && mem[0].id == 0 && mem[1].id == 1 && mem[2].id == 2;
    var found := FindId(mem, 2);
    assert Holds(mem, 2);
  }

  lemma OnlyFourth(mem: seq<Row>, batch: seq<nat>, s: nat)
    requires |mem| == 4 && IsBatch(mem, s, batch) && batch != [] && forall i :: 0 <= i < 3 ==> !mem[i].status.Pending?
    ensures batch == [3]
  {
    assert forall k :: 0 <= k < |batch| ==> batch[k] == 3;
    AtLeast(batch, |batch| - 1);
  }

  lemma OnlyFourthPending(mem: seq<Row>)
    requires |mem| == 4 && mem[3].status.Pending? && forall i :: 0 <= i < 3 ==> mem[i].status.Completed?
    ensures DecideNext(mem).Dispatch?
  {
    DecisionMeans(mem);
  }

  lemma DecidesSecond()
    requires TxOk(Opened9())
    ensures DecideNext(Opened9().mem).Dispatch? && BatchOf(Opened9().mem, DecideNext(Opened9().mem).keys) == [3]
  {
    hide WfRows, LoopOrder, Mirror, StepSorted, DecideNext, BatchOf, IsBatch, TxOk;
    var t := Opened9();
    OnlyFourthPending(t.mem);
    DispatchedBatch(t);
    OnlyFourth(t.mem, BatchOf(t.mem, DecideNext(t.mem).keys), DecideNext(t.mem).step);
  }

  /** The repetition ran: completed in memory without a time, in the table at 9. */
  function Handled9(): Tx {
    var child := ROWS5[3].(status := Completed, output := Some(Setting("repeated")));
    var t := Opened9();
    t.(db := WithRow(t.db, 0, 3, child.(dispatchedAt := Some(9), finishedAt := Some(9))), mem := t.mem[3 := child])
  }

  lemma SecondBatch(env: Env)
    ensures Opened9().Bounded() && RunBatch(env, Opened9(), [3]).0 == Handled9()
  {
    hide ProcessOne;
    var t := Opened9();
    SetterRuns(env, t, 3, "repeated");
    assert [3][..0] == [];
    assert RunBatch(env, t, []) == (t, []);
    var child := ROWS5[3].(status := Completed, output := Some(Setting("repeated")));
    WithRowTwice(t.db, 0, 3, ROWS5[3].(status := Dispatched, dispatchedAt := Some(9)), child.(dispatchedAt := Some(9), finishedAt := Some(9)));
  }

  lemma SettersAt9()
    ensures var mem := Handled9().mem;
            SetterOf(mem[0]) == Some(Setter(1, 5, "x", Str("plain"))) && SetterOf(mem[3]) == Some(Setter(1, 0, "x", Str("repeated"))) &&
            SetterOf(mem[1]).None? && SetterOf(mem[2]).None?
  {
    TypesDiffer();
  }

  lemma PlainIsOvertaken()
    ensures OvertakenBy(Handled9(), "x", 0, 3)
    ensures SetterOf(Handled9().mem[0]) == Some(Setter(1, 5, "x", Str("plain"))) && SetterOf(Handled9().mem[3]) == Some(Setter(1, 0, "x", Str("repeated")))
  {
    hide SetterOf;
    SettersAt9();
    assert "plain" != "repeated";
    var mem := Handled9().mem;
    assert |mem| == 4 && mem[0].parent.None? && mem[3].parent.Some? && mem[0].step == mem[3].step;
    assert SetsVariable(mem[0], "x") && SetsVariable(mem[3], "x") && !SetsVariable(mem[1], "x") && !SetsVariable(mem[2], "x");
  }

  // ---------------------------------------------------------------- the run

  function Request(): Copy { Copy(Queue, Sent(ActionRequested(0, 2, CITY))) }
  function Answer(): Copy { Copy(Queue, Sent(ActionResult(0, 2, OkResult(Null)))) }
  function Start5(): Copy { Copy(Queue, Sent(RoutineTriggered(0))) }

  /** Some run ends with the worker's answer about to be taken at 9. */
  ghost predicate ReachesAnswer(env: Env, states: seq<System>, events: seq<Event>) {
    IsRun(env, states, events) && states[|events|].db == COMMITTED5 && Answer() in states[|events|].net
  }

  lemma TriggerIsReached(env: Env) returns (states: seq<System>, events: seq<Event>)
    ensures IsRun(env, states, events) && |states| == |events| + 1
    ensures states[|events|].db == TRIGGERED && Start5() in states[|events|].net && 1 !in states[|events|].published
  {
    hide IsRun, Storable;
    RoutineAccepted();
    NothingYet(env);
    states, events := Extended(env, [EMPTY], [], Save(ROUTINE));
    states, events := Extended(env, states, events, TriggerRun("r", "webhook", None, None, Some(BODY)));
    assert states[|events|].db == TRIGGERED by { TriggerCreates(); }
    states, events := Extended(env, states, events, Publish(0, 1, true));
    assert Start5() in states[|events|].net;
  }

  lemma AnswerIsReached(env: Env) returns (states: seq<System>, events: seq<Event>)
    ensures ReachesAnswer(env, states, events)
  {
    hide IsRun, Start;
    states, events := TriggerIsReached(env);
    LayoutReached(env, states, events);
    StartCommits(env);
    states, events := Extended(env, states, events, StartRun(Start5(), true, 5));
    assert states[|events|].db == COMMITTED5;
    states, events := Extended(env, states, events, Publish(1, 1, true));
    assert Request() in states[|events|].net;
    states, events := Extended(env, states, events, Work(Request(), OkResult(Null), true));
  }

  lemma NothingYet(env: Env)
    ensures IsRun(env, [EMPTY], [])
  {
  }

  lemma TriggerCreates()
    ensures TriggerRoutine(SaveRoutine(EMPTY.db, ROUTINE), ROUTINE, "webhook", None, None, Some(BODY)).0 == TRIGGERED
  {
  }

  lemma LayoutReached(env: Env, states: seq<System>, events: seq<Event>)
    requires IsRun(env, states, events)
    ensures |states| == |events| + 1 && LayoutOk(states[|events|].db)
  {
    RunsNeverBlock(env, states, events, |events|, Sweep(0));
  }

  /** A run goes on with any enabled event. */
  lemma Extended(env: Env, states: seq<System>, events: seq<Event>, ev: Event) returns (states': seq<System>, events': seq<Event>)
    requires IsRun(env, states, events) && |states| == |events| + 1 && Enabled(states[|events|], ev)
    ensures |states'| == |events'| + 1 == |events| + 2 && LayoutOk(states[|events|].db)
    ensures IsRun(env, states', events') && states' == states + [After(env, states[|events|], ev)] && events' == events + [ev]
  {
    hide After, Enabled, LayoutOk;
    LayoutReached(env, states, events);
    states', events' := states + [After(env, states[|events|], ev)], events + [ev];
  }

  /** What the engine reads while it handles message `k` of a run, at the end of the first batch. */
  ghost predicate ReadsWrong(env: Env, states: seq<System>, events: seq<Event>, k: nat, name: string, inMemory: Json, inTable: Json) {
    IsRun(env, states, events) && k < |events| && Opened(states[k].db, events[k]).Some? &&
    var t := Opened(states[k].db, events[k]).value;
    TxOk(t) && DecideNext(t.mem).Dispatch? &&
    var t1 := RunBatch(env, t, BatchOf(t.mem, DecideNext(t.mem).keys)).0;
    t1.Bounded() && Overtaken(t1, name) && var mem, table := VariablesOf(t1.mem), VariablesOf(Load(t1.Rows()));
    name in mem && name in table && mem[name] == inMemory && table[name] == inTable
  }

  lemma TwoSetters(rows: seq<Row>, a: Setter, b: Setter)
    requires |rows| == 4 && SetterOf(rows[0]) == Some(a) && SetterOf(rows[1]).None? && SetterOf(rows[2]).None? && SetterOf(rows[3]) == Some(b)
    requires a.name == b.name == "x"
    ensures "x" in VariablesOf(rows) && VariablesOf(rows)["x"] == if RunsBefore(a, b) then b.value else a.value
  {
    hide SetterOf, Assign, SortSetters;
    assert rows[..4] == rows && rows[..4][..3] == rows[..3] && rows[..3][..2] == rows[..2] && rows[..2][..1] == rows[..1] && rows[..1][..0] == [];
    assert SettersOf(rows[..0]) == [] && SettersOf(rows[..1]) == [a] && SettersOf(rows[..2]) == [a] && SettersOf(rows[..3]) == [a];
    assert SettersOf(rows) == [a, b];
    assert [a, b][..1] == [a] && [a][..0] == [];
    assert Winner([a], "x") == Some(a);
    SortedLast([a, b], "x");
    AssignedLast(SortSetters([a, b]), "x");
  }

  lemma MemoryAt9()
    ensures var vars := VariablesOf(Handled9().mem); "x" in vars && vars["x"] == Str("plain")
  {
    hide SetterOf, Handled9, VariablesOf;
    SettersAt9();
    FourRows();
    TwoSetters(Handled9().mem, Setter(1, 5, "x", Str("plain")), Setter(1, 0, "x", Str("repeated")));
  }

  lemma FourRows()
    ensures |Handled9().mem| == 4 && Handled9().Bounded() && |Handled9().Rows()| == 4 && SortedRows(Handled9().Rows())
  {
  }

  lemma TableSettersAt9()
    ensures var rows := Handled9().Rows();
            SetterOf(rows[0]) == Some(Setter(1, 5, "x", Str("plain"))) && SetterOf(rows[3]) == Some(Setter(1, 9, "x", Str("repeated"))) &&
            SetterOf(rows[1]).None? && SetterOf(rows[2]).None?
  {
    TypesDiffer();
  }

  lemma TableAt9()
    ensures var vars := VariablesOf(Load(Handled9().Rows())); "x" in vars && vars["x"] == Str("repeated")
  {
    hide SetterOf, Handled9, VariablesOf;
    TableSettersAt9();
    FourRows();
    SortedLoads(Handled9().Rows());
    TwoSetters(Handled9().Rows(), Setter(1, 5, "x", Str("plain")), Setter(1, 9, "x", Str("repeated")));
  }

  /** So there is a run in which the engine reads `plain` where the table says `repeated`. */
  lemma MemoryMayDisagree(env: Env)
    ensures exists states, events, k :: ReadsWrong(env, states, events, k, "x", Str("plain"), Str("repeated"))
  {
    hide IsRun, RunBatch, DecideNext, BatchOf, Opened9, Handled9, Lock, VariablesOf, WfRows, LoopOrder, EveryReadFaithful, OvertakenBy;
    var states, events := AnswerIsReached(env);
    var k := |events|;
    var take := TakeResult(Answer(), true, 9);
    OpensAt9();
    LayoutReached(env, states, events);
    var all, evs := Extended(env, states, events, take);
    assert all[k] == states[k] && evs[k] == take && all[k].db == COMMITTED5;
    assert Opened(all[k].db, evs[k]) == Some(Opened9());
    ReadsFaithfulInEveryRun(env, all, evs, k);
    DecidesSecond();
    SecondBatch(env);
    FourRows();
    MemoryAt9();
    TableAt9();
    PlainIsOvertaken();
    assert ReadsWrong(env, all, evs, k, "x", Str("plain"), Str("repeated"));
  }
}
