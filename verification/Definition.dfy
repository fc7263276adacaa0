/**
 * Validation of a routine (domain/definition.ts). `Accepted` says what an accepted
 * list of actions looks like; `ValidateRoutine` is the issue-collecting procedure
 * and decides exactly that.
 */
module Definition {
  import opened Base
  import opened Templates
  import opened Control
  import opened Progress
  import opened Store
  import opened RowInvariants
  import opened Invariants

  datatype TriggerKind = Manual | Schedule | Webhook

  /** An action as the API receives it; without `step` it runs after the previous one. */
  datatype ActionInput = ActionInput(key: string, typ: string, step: Option<nat>, params: Option<Json>, runIf: Option<RunIf>, forEach: Option<string>)

  const CONDITION_OPERATORS: seq<string> := ["equals", "notEquals", "contains", "notContains", "greaterThan", "lessThan", "isEmpty", "isNotEmpty"]
  const MATH_OPERATORS: seq<string> := ["+", "-", "*", "/", "%", "min", "max", "round"]

  const REQUIRED_PARAMS: map<string, seq<string>> :=
    map["weather.get" := ["city"], "http.request" := ["url"], "summary.generate" := ["title"], "task.create" := ["title"],
        "notification.send" := ["title"], "email.send" := ["to", "subject"], "variable.set" := ["name"],
        "condition.if" := ["operator"], "routine.run" := ["routineId"], "math.calculate" := ["a", "operator"]]

  const TEMPLATE_ROOTS: set<string> := {"actions", "routine", "execution", "trigger", "now", "vars", "item", "index", "input"}

  datatype Issue =
    | BlankName
    | DuplicateKey(key: string)
    | UnknownType(key: string)
    | MissingParam(key: string, param: string)
    | Scripting(key: string)
    | UnknownCondition(key: string)
    | NotACondition(key: string)
    | ConditionTooLate(key: string)
    | NotAReference(key: string)
    | UnknownRoot(key: string, path: string)
    | OnlyInLoops(key: string, path: string)
    | ItemAsList(key: string, path: string)
    | NeverSet(key: string, path: string)
    | SetTooLate(key: string, path: string)
    | NoBody(key: string, path: string)
    | UnknownAction(key: string, reference: string)
    | TooEarly(key: string, reference: string)
    | BadSchedule

  // ---------------------------------------------------------------- normalisation

  function TrimLeft(s: string): string { if s != "" && IsSpace(s[0]) then TrimLeft(s[1..]) else s }
  function TrimRight(s: string): string { if s != "" && IsSpace(s[|s| - 1]) then TrimRight(s[..|s| - 1]) else s }
  function Trim(s: string): string { TrimRight(TrimLeft(s)) }

  function Normalised(input: ActionInput, step: nat): ActionDef {
    ActionDef(input.key, input.typ, step, if input.params.Some? then input.params.value else Obj(map[]), input.runIf,
              if input.forEach.Some? && input.forEach.value != "" then Some(Trim(input.forEach.value)) else None)
  }

  /** The step of the first `k` actions' last one. */
  function StepAt(inputs: seq<ActionInput>, k: nat): nat
    requires k <= |inputs|
  {
    if k == 0 then 0 else if inputs[k - 1].step.Some? then inputs[k - 1].step.value else StepAt(inputs, k - 1) + 1
  }

  function InsertByStep(defs: seq<ActionDef>, d: ActionDef): seq<ActionDef> {
    if defs == [] then [d]
    else if defs[|defs| - 1].step <= d.step then defs + [d]
    else InsertByStep(defs[..|defs| - 1], d) + [defs[|defs| - 1]]
  }

  /** The actions with their steps, stably sorted by step. */
  function NormalisedUpTo(inputs: seq<ActionInput>, k: nat): seq<ActionDef>
    requires k <= |inputs|
  {
    if k == 0 then [] else InsertByStep(NormalisedUpTo(inputs, k - 1), Normalised(inputs[k - 1], StepAt(inputs, k)))
  }

  function NormalisedActions(inputs: seq<ActionInput>): seq<ActionDef> { NormalisedUpTo(inputs, |inputs|) }

  predicate SortedDefs(defs: seq<ActionDef>) { forall i, j :: 0 <= i < j < |defs| ==> defs[i].step <= defs[j].step }

  function StepPoint(defs: seq<ActionDef>, d: ActionDef): (m: nat)
    ensures m <= |defs| && InsertByStep(defs, d) == InsertAt(defs, m, d)
    ensures m > 0 ==> defs[m - 1].step <= d.step
    ensures m < |defs| ==> defs[m].step > d.step
  {
    if defs == [] then 0
    else if defs[|defs| - 1].step <= d.step then |defs|
    else
      var front := defs[..|defs| - 1];
      var m := StepPoint(front, d);
      assert front[..m] == defs[..m] && front[m..] + [defs[|defs| - 1]] == defs[m..];
      m
  }

  lemma InsertByStepPermutes(defs: seq<ActionDef>, d: ActionDef)
    ensures |InsertByStep(defs, d)| == |defs| + 1
    ensures multiset(InsertByStep(defs, d)) == multiset(defs) + multiset{d}
  {
    hide InsertByStep;
    var m := StepPoint(defs, d);
    InsertedIsPermuted(defs, d, m);
  }

  lemma InsertedIsPermuted<T>(list: seq<T>, x: T, m: nat)
    requires m <= |list|
    ensures var r := InsertAt(list, m, x);
            |r| == |list| + 1 && multiset(r) == multiset(list) + multiset{x}
  {
    assert list == list[..m] + list[m..];
  }

  lemma InsertByStepSorted(defs: seq<ActionDef>, d: ActionDef)
    requires SortedDefs(defs)
    ensures SortedDefs(InsertByStep(defs, d))
  {
    var m := StepPoint(defs, d);
    hide InsertByStep;
    var r := InsertByStep(defs, d);
    forall i, j | 0 <= i < j < |r| ensures r[i].step <= r[j].step {
      if i == m { if m + 1 < j { assert defs[m].step <= defs[j - 1].step; } }
      else if j == m { if i < m - 1 { assert defs[i].step <= defs[m - 1].step; } }
    }
  }

  lemma {:induction false} NormalisedSorted(inputs: seq<ActionInput>, k: nat)
    requires k <= |inputs|
    ensures SortedDefs(NormalisedUpTo(inputs, k)) && |NormalisedUpTo(inputs, k)| == k
  {
    if k > 0 {
      NormalisedSorted(inputs, k - 1);
      InsertByStepPermutes(NormalisedUpTo(inputs, k - 1), Normalised(inputs[k - 1], StepAt(inputs, k)));
      InsertByStepSorted(NormalisedUpTo(inputs, k - 1), Normalised(inputs[k - 1], StepAt(inputs, k)));
    }
  }

  // ---------------------------------------------------------------- what is accepted

  predicate Literal(value: Option<Json>) { value.Some? && value.value.Str? && forall i :: 0 <= i < |value.value.s| - 1 ==> !Has(value.value.s, i, "{{") }

  predicate ScriptingOk(d: ActionDef) {
    var operator, name := Field(d.params, "operator"), Field(d.params, "name");
    (d.typ == CONDITION && Literal(operator) ==> operator.value.s in CONDITION_OPERATORS) &&
    (d.typ == MATH && Literal(operator) ==> operator.value.s in MATH_OPERATORS) &&
    (d.typ == VARIABLE ==> name.Some? && name.value.Str? && IsVariableName(name.value.s))
  }

  predicate ParamsOk(d: ActionDef) {
    d.typ in REQUIRED_PARAMS &&
    forall k :: 0 <= k < |REQUIRED_PARAMS[d.typ]| ==> ParamGiven(d, REQUIRED_PARAMS[d.typ][k])
  }

  predicate ParamGiven(d: ActionDef, param: string) { Field(d.params, param).Some? && Field(d.params, param) != Some(Str("")) }

  function ForEachPaths(d: ActionDef): set<string> { if d.forEach.Some? then TemplatePaths(Str(d.forEach.value)) else {} }

  function PathsOf(d: ActionDef): set<string> { TemplatePaths(d.params) + ForEachPaths(d) }

  function RefsOf(d: ActionDef): set<string> {
    ReferencedKeys(d.params) + if d.forEach.Some? then ReferencedKeys(Str(d.forEach.value)) else {}
  }

  function RootOf(path: string): string { Split(path)[0] }

  predicate SetsName(d: ActionDef, name: string) { d.typ == VARIABLE && Field(d.params, "name") == Some(Str(name)) }

  /** The last action with a key: what looking the key up in the maps of the source yields. */
  function LastWithKey(defs: seq<ActionDef>, key: string): (found: Option<nat>)
    ensures found.Some? ==> found.value < |defs| && defs[found.value].key == key
    ensures found.None? ==> forall i :: 0 <= i < |defs| ==> defs[i].key != key
  {
    if defs == [] then None
    else if defs[|defs| - 1].key == key then Some(|defs| - 1)
    else
      var r := LastWithKey(defs[..|defs| - 1], key);
      assert forall i :: 0 <= i < |defs| - 1 ==> defs[i] == defs[..|defs| - 1][i];
      r
  }

  /** The first action that sets a variable; in step order, so the earliest. */
  function FirstSetter(defs: seq<ActionDef>, name: string): (found: Option<nat>)
    ensures found.Some? ==> found.value < |defs| && SetsName(defs[found.value], name)
    ensures found.Some? ==> forall i :: 0 <= i < found.value ==> !SetsName(defs[i], name)
    ensures found.None? ==> forall i :: 0 <= i < |defs| ==> !SetsName(defs[i], name)
  {
    if defs == [] then None
    else
      var r := FirstSetter(defs[..|defs| - 1], name);
      assert forall i :: 0 <= i < |defs| - 1 ==> defs[i] == defs[..|defs| - 1][i];
      if r.Some? then r
      else if SetsName(defs[|defs| - 1], name) then Some(|defs| - 1)
      else None
  }

  /** Whether a runIf can ever be decided: an earlier condition.if of that name. */
  predicate RunIfOk(defs: seq<ActionDef>, d: ActionDef) {
    d.runIf.Some? ==>
      var c := LastWithKey(defs, d.runIf.value.action);
      c.Some? && defs[c.value].typ == CONDITION && defs[c.value].step < d.step
  }

  predicate ForEachOk(d: ActionDef) { d.forEach.Some? ==> SinglePath(d.forEach.value).Some? }

  predicate IsBodyPath(path: string) { path == "trigger.body" || "trigger.body." <= path }

  predicate PathOk(defs: seq<ActionDef>, webhook: bool, d: ActionDef, path: string) {
    var root := RootOf(path);
    root in TEMPLATE_ROOTS &&
    (root == "item" || root == "index" ==> d.forEach.Some? && d.forEach.value != "" && path !in ForEachPaths(d)) &&
    (root == "vars" ==>
      var set_ := if SecondSegment(path) != "" then FirstSetter(defs, SecondSegment(path)) else None;
      set_.Some? && defs[set_.value].step < d.step) &&
    (IsBodyPath(path) ==> webhook)
  }

  predicate RefOk(defs: seq<ActionDef>, d: ActionDef, reference: string) {
    var r := LastWithKey(defs, reference);
    r.Some? && defs[r.value].step < d.step
  }

  predicate ActionOk(defs: seq<ActionDef>, webhook: bool, d: ActionDef) {
    ParamsOk(d) && ScriptingOk(d) && RunIfOk(defs, d) && ForEachOk(d) &&
    (forall path :: path in PathsOf(d) ==> PathOk(defs, webhook, d, path)) &&
    (forall r :: r in RefsOf(d) ==> RefOk(defs, d, r))
  }

  predicate KeysDistinct(defs: seq<ActionDef>) { forall i, j :: 0 <= i < j < |defs| ==> defs[i].key != defs[j].key }

  /** What validation demands of the actions of a routine. */
  predicate Accepted(defs: seq<ActionDef>, webhook: bool) {
    SortedDefs(defs) && KeysDistinct(defs) && forall i :: 0 <= i < |defs| ==> ActionOk(defs, webhook, defs[i])
  }

  // ---------------------------------------------------------------- what the API schema demands

  predicate IsKeyChar(c: char) { IsLetter(c) || c in DIGITS || c == '_' || c == '-' }

  /** The key pattern of the request schema; it admits neither brackets nor dots. */
  predicate KeyPattern(key: string) {
    1 <= |key| <= 40 && IsLetter(key[0]) && forall i :: 0 <= i < |key| ==> IsKeyChar(key[i])
  }

  /** The shape the request schema guarantees before validation runs. */
  predicate SchemaOk(inputs: seq<ActionInput>) {
    1 <= |inputs| <= MAX_ACTIONS && forall i :: 0 <= i < |inputs| ==> KeyPattern(inputs[i].key)
  }

  /** A routine the API stores: the schema and validation passed. */
  predicate Storable(routine: Routine) { RoutineShape(routine) && Accepted(routine.actions, true) }

  // ---------------------------------------------------------------- the procedure

  datatype Validated = Valid(actions: seq<ActionDef>) | Invalid(issues: seq<Issue>)

  predicate Blank(name: string) { Trim(name) == "" }

  /** The maps the procedure looks keys and variables up in. */
  ghost predicate MapsFor(defs: seq<ActionDef>, k: nat, stepByKey: map<string, nat>, typeByKey: map<string, string>)
    requires k <= |defs|
  {
    stepByKey.Keys == typeByKey.Keys &&
    forall key :: (key in stepByKey <==> LastWithKey(defs[..k], key).Some?) &&
      (key in stepByKey ==> stepByKey[key] == defs[LastWithKey(defs[..k], key).value].step && typeByKey[key] == defs[LastWithKey(defs[..k], key).value].typ)
  }

  ghost predicate SettersFor(defs: seq<ActionDef>, k: nat, variableStep: map<string, nat>)
    requires k <= |defs|
  {
    forall name :: (name in variableStep <==> FirstSetter(defs[..k], name).Some?) &&
      (name in variableStep ==> variableStep[name] == defs[FirstSetter(defs[..k], name).value].step)
  }

  method Normalise(inputs: seq<ActionInput>) returns (actions: seq<ActionDef>)
    ensures actions == NormalisedActions(inputs)
  {
    var previousStep: nat := 0;
    var listed: seq<ActionDef> := [];
    var k := 0;
    while k < |inputs|
      invariant 0 <= k <= |inputs| && previousStep == StepAt(inputs, k)
      invariant |listed| == k && forall i :: 0 <= i < k ==> listed[i] == Normalised(inputs[i], StepAt(inputs, i + 1))
    {
      var step := if inputs[k].step.Some? then inputs[k].step.value else previousStep + 1;
      previousStep := step;
      listed := listed + [Normalised(inputs[k], step)];
      k := k + 1;
    }
    actions := [];
    k := 0;
    while k < |listed|
      invariant 0 <= k <= |listed| && actions == NormalisedUpTo(inputs, k)
    {
      actions := InsertByStep(actions, listed[k]);
      k := k + 1;
    }
  }

  lemma MapsGrow(defs: seq<ActionDef>, k: nat, stepByKey: map<string, nat>, typeByKey: map<string, string>)
    requires k < |defs| && MapsFor(defs, k, stepByKey, typeByKey)
    ensures MapsFor(defs, k + 1, stepByKey[defs[k].key := defs[k].step], typeByKey[defs[k].key := defs[k].typ])
  {
    forall key ensures LastWithKey(defs[..k + 1], key) == if defs[k].key == key then Some(k) else LastWithKey(defs[..k], key) { LastWithKeyGrows(defs, k, key); }
    hide LastWithKey;
  }

  lemma LastWithKeyGrows(defs: seq<ActionDef>, k: nat, key: string)
    requires k < |defs|
    ensures LastWithKey(defs[..k + 1], key) == if defs[k].key == key then Some(k) else LastWithKey(defs[..k], key)
  {
    assert defs[..k + 1][..k] == defs[..k] && defs[..k + 1][k] == defs[k];
  }

  lemma SettersGrow(defs: seq<ActionDef>, k: nat, variableStep: map<string, nat>)
    requires k < |defs| && SettersFor(defs, k, variableStep)
    ensures var name := Field(defs[k].params, "name");
            SettersFor(defs, k + 1,
              if defs[k].typ == VARIABLE && name.Some? && name.value.Str? && name.value.s !in variableStep
              then variableStep[name.value.s := defs[k].step] else variableStep)
  {
    forall name ensures FirstSetter(defs[..k + 1], name) == if FirstSetter(defs[..k], name).Some? then FirstSetter(defs[..k], name) else if SetsName(defs[k], name) then Some(k) else None {
      FirstSetterGrows(defs, k, name);
    }
    hide FirstSetter;
  }

  lemma FirstSetterGrows(defs: seq<ActionDef>, k: nat, name: string)
    requires k < |defs|
    ensures FirstSetter(defs[..k + 1], name) == if FirstSetter(defs[..k], name).Some? then FirstSetter(defs[..k], name) else if SetsName(defs[k], name) then Some(k) else None
  {
    assert defs[..k + 1][..k] == defs[..k] && defs[..k + 1][k] == defs[k];
  }

  /** Keys seen before `k` include that of `defs[k]`. */
  predicate Repeats(defs: seq<ActionDef>, k: nat)
    requires k < |defs|
  {
    exists i :: 0 <= i < k && defs[i].key == defs[k].key
  }

  method IndexActions(defs: seq<ActionDef>) returns (stepByKey: map<string, nat>, typeByKey: map<string, string>, variableStep: map<string, nat>, issues: seq<Issue>)
    ensures MapsFor(defs, |defs|, stepByKey, typeByKey) && SettersFor(defs, |defs|, variableStep)
    ensures issues == [] <==> KeysDistinct(defs)
  {
    stepByKey, typeByKey, variableStep, issues := map[], map[], map[], [];
    var k := 0;
    while k < |defs|
      invariant 0 <= k <= |defs| && MapsFor(defs, k, stepByKey, typeByKey)
      invariant issues == [] <==> forall j :: 0 <= j < k ==> !Repeats(defs, j)
    {
      var d := defs[k];
      assert d.key in stepByKey <==> Repeats(defs, k) by {
        assert forall i :: 0 <= i < k ==> defs[..k][i] == defs[i];
      }
      if d.key in stepByKey {
        issues := issues + [DuplicateKey(d.key)];
      }
      MapsGrow(defs, k, stepByKey, typeByKey);
      stepByKey, typeByKey := stepByKey[d.key := d.step], typeByKey[d.key := d.typ];
      k := k + 1;
    }
    DistinctIffNoRepeats(defs);
    k := 0;
    while k < |defs|
      invariant 0 <= k <= |defs| && SettersFor(defs, k, variableStep)
    {
      var name := Field(defs[k].params, "name");
      SettersGrow(defs, k, variableStep);
      if defs[k].typ == VARIABLE && name.Some? && name.value.Str? && name.value.s !in variableStep {
        variableStep := variableStep[name.value.s := defs[k].step];
      }
      k := k + 1;
    }
  }

  lemma DistinctIffNoRepeats(defs: seq<ActionDef>)
    ensures KeysDistinct(defs) <==> forall j :: 0 <= j < |defs| ==> !Repeats(defs, j)
  {
    if !KeysDistinct(defs) {
      var i, j :| 0 <= i < j < |defs| && defs[i].key == defs[j].key;
      assert Repeats(defs, j);
    }
  }

  /** The issues of one path. */
  method CheckPath(defs: seq<ActionDef>, webhook: bool, d: ActionDef, path: string, variableStep: map<string, nat>) returns (issues: seq<Issue>)
    requires SettersFor(defs, |defs|, variableStep)
    ensures issues == [] <==> PathOk(defs, webhook, d, path)
  {
    assert defs[..|defs|] == defs;
    issues := [];
    var root := RootOf(path);
    if root !in TEMPLATE_ROOTS { issues := issues + [UnknownRoot(d.key, path)]; }
    if root == "item" || root == "index" {
      if d.forEach.None? || d.forEach.value == "" { issues := issues + [OnlyInLoops(d.key, path)]; }
      if path in ForEachPaths(d) { issues := issues + [ItemAsList(d.key, path)]; }
    }
    if root == "vars" {
      var name := SecondSegment(path);
      if name == "" || name !in variableStep { issues := issues + [NeverSet(d.key, path)]; }
      else if variableStep[name] >= d.step { issues := issues + [SetTooLate(d.key, path)]; }
    }
    if IsBodyPath(path) && !webhook { issues := issues + [NoBody(d.key, path)]; }
  }

  method CheckPaths(defs: seq<ActionDef>, webhook: bool, d: ActionDef, variableStep: map<string, nat>) returns (issues: seq<Issue>)
    requires SettersFor(defs, |defs|, variableStep)
    ensures issues == [] <==> forall path :: path in PathsOf(d) ==> PathOk(defs, webhook, d, path)
  {
    issues := [];
    var rest := PathsOf(d);
    while rest != {}
      invariant rest <= PathsOf(d)
      invariant issues == [] <==> forall path :: path in PathsOf(d) && path !in rest ==> PathOk(defs, webhook, d, path)
      decreases |rest|
    {
      var path :| path in rest;
      var more := CheckPath(defs, webhook, d, path, variableStep);
      issues := issues + more;
      rest := rest - {path};
    }
  }

  method CheckReferences(defs: seq<ActionDef>, d: ActionDef, stepByKey: map<string, nat>, typeByKey: map<string, string>) returns (issues: seq<Issue>)
    requires MapsFor(defs, |defs|, stepByKey, typeByKey)
    ensures issues == [] <==> forall r :: r in RefsOf(d) ==> RefOk(defs, d, r)
  {
    assert defs[..|defs|] == defs;
    issues := [];
    var rest := RefsOf(d);
    while rest != {}
      invariant rest <= RefsOf(d)
      invariant issues == [] <==> forall r :: r in RefsOf(d) && r !in rest ==> RefOk(defs, d, r)
      decreases |rest|
    {
      var r :| r in rest;
      if r !in stepByKey { issues := issues + [UnknownAction(d.key, r)]; }
      else if stepByKey[r] >= d.step { issues := issues + [TooEarly(d.key, r)]; }
      rest := rest - {r};
    }
  }

  method CheckParams(d: ActionDef) returns (issues: seq<Issue>)
    requires d.typ in REQUIRED_PARAMS
    ensures issues == [] <==> ParamsOk(d) && ScriptingOk(d)
  {
    var required := REQUIRED_PARAMS[d.typ];
    issues := [];
    var k := 0;
    while k < |required|
      invariant 0 <= k <= |required|
      invariant issues == [] <==> forall j :: 0 <= j < k ==> ParamGiven(d, required[j])
    {
      if !ParamGiven(d, required[k]) { issues := issues + [MissingParam(d.key, required[k])]; }
      k := k + 1;
    }
    if !ScriptingOk(d) { issues := issues + [Scripting(d.key)]; }
  }

  /** The issues of one action; an unknown type is the only issue reported of it. */
  method CheckAction(defs: seq<ActionDef>, webhook: bool, d: ActionDef,
                     stepByKey: map<string, nat>, typeByKey: map<string, string>, variableStep: map<string, nat>) returns (issues: seq<Issue>)
    requires MapsFor(defs, |defs|, stepByKey, typeByKey) && SettersFor(defs, |defs|, variableStep)
    ensures issues == [] <==> ActionOk(defs, webhook, d)
  {
    assert defs[..|defs|] == defs;
    if d.typ !in REQUIRED_PARAMS {
      return [UnknownType(d.key)];
    }
    issues := CheckParams(d);
    if d.runIf.Some? {
      var key := d.runIf.value.action;
      if key !in stepByKey { issues := issues + [UnknownCondition(d.key)]; }
      else if typeByKey[key] != CONDITION { issues := issues + [NotACondition(d.key)]; }
      else if stepByKey[key] >= d.step { issues := issues + [ConditionTooLate(d.key)]; }
    }
    if d.forEach.Some? && SinglePath(d.forEach.value).None? { issues := issues + [NotAReference(d.key)]; }
    var pathIssues := CheckPaths(defs, webhook, d, variableStep);
    var referenceIssues := CheckReferences(defs, d, stepByKey, typeByKey);
    issues := issues + pathIssues + referenceIssues;
  }

  /** Validation accepts exactly the definitions that are `Accepted`, and returns them normalised. */
  method ValidateRoutine(name: string, kind: TriggerKind, scheduleOk: bool, inputs: seq<ActionInput>) returns (r: Validated)
    ensures r.Valid? <==> !Blank(name) && (kind.Schedule? ==> scheduleOk) && Accepted(NormalisedActions(inputs), kind.Webhook?)
    ensures r.Valid? ==> r.actions == NormalisedActions(inputs)
    ensures r.Invalid? ==> r.issues != []
  {
    var issues: seq<Issue> := [];
    if Blank(name) { issues := issues + [BlankName]; }
    var actions := Normalise(inputs);
    NormalisedSorted(inputs, |inputs|);
    var stepByKey, typeByKey, variableStep, duplicates := IndexActions(actions);
    issues := issues + duplicates;
    var k := 0;
    while k < |actions|
      invariant 0 <= k <= |actions|
      invariant issues == [] <==> !Blank(name) && KeysDistinct(actions) && forall j :: 0 <= j < k ==> ActionOk(actions, kind.Webhook?, actions[j])
    {
      var more := CheckAction(actions, kind.Webhook?, actions[k], stepByKey, typeByKey, variableStep);
      issues := issues + more;
      k := k + 1;
    }
    if kind.Schedule? && !scheduleOk { issues := issues + [BadSchedule]; }
    r := if issues == [] then Valid(actions) else Invalid(issues);
  }

  /** What is accepted for another trigger is accepted for a webhook. */
  lemma AcceptedForWebhook(defs: seq<ActionDef>, webhook: bool)
    requires Accepted(defs, webhook)
    ensures Accepted(defs, true)
  {
    forall i | 0 <= i < |defs| ensures ActionOk(defs, true, defs[i]) {
      assert ActionOk(defs, webhook, defs[i]);
      forall path | path in PathsOf(defs[i]) ensures PathOk(defs, true, defs[i], path) {
        assert PathOk(defs, webhook, defs[i], path);
      }
    }
  }

  /** A routine that passed the schema and validation is one the engine's invariants are about. */
  lemma ValidatedIsStorable(id: string, owner: string, name: string, inputs: seq<ActionInput>, webhook: bool)
    requires SchemaOk(inputs) && Accepted(NormalisedActions(inputs), webhook)
    ensures Storable(Routine(id, owner, name, NormalisedActions(inputs)))
  {
    AcceptedForWebhook(NormalisedActions(inputs), webhook);
    var defs := NormalisedActions(inputs);
    NormalisedSorted(inputs, |inputs|);
    NormalisedKeys(inputs, |inputs|);
    forall i | 0 <= i < |defs| ensures BracketFree(defs[i].key) {
      assert KeyPattern(defs[i].key);
    }
  }

  lemma {:induction false} NormalisedKeys(inputs: seq<ActionInput>, k: nat)
    requires k <= |inputs| && forall i :: 0 <= i < |inputs| ==> KeyPattern(inputs[i].key)
    ensures forall i :: 0 <= i < |NormalisedUpTo(inputs, k)| ==> KeyPattern(NormalisedUpTo(inputs, k)[i].key)
  {
    if k > 0 {
      NormalisedKeys(inputs, k - 1);
      var d := Normalised(inputs[k - 1], StepAt(inputs, k));
      var m := StepPoint(NormalisedUpTo(inputs, k - 1), d);
    }
  }

  // ---------------------------------------------------------------- what normalising does

  /** The step an action gets: its own, or one more than the action written before it, the first one 1. */
  ghost predicate StepsGiven(inputs: seq<ActionInput>, steps: seq<nat>) {
    |steps| == |inputs| &&
    forall i :: 0 <= i < |inputs| ==>
      steps[i] == if inputs[i].step.Some? then inputs[i].step.value else if i == 0 then 1 else steps[i - 1] + 1
  }

  /** The action as it is stored, in step `step`. */
  predicate StoredAs(input: ActionInput, step: nat, d: ActionDef) {
    d.key == input.key && d.typ == input.typ && d.step == step && d.runIf == input.runIf &&
    d.params == (match input.params case Some(params) => params case None => Obj(map[])) &&
    (d.forEach.Some? <==> input.forEach.Some? && input.forEach.value != "") &&
    (d.forEach.Some? ==> Trimmed(input.forEach.value, d.forEach.value))
  }

  predicate AllSpace(s: string) { forall k :: 0 <= k < |s| ==> IsSpace(s[k]) }

  /** `t` is `s` without the white space around it. */
  predicate Trimmed(s: string, t: string) {
    (t != "" ==> !IsSpace(t[0]) && !IsSpace(t[|t| - 1])) && exists i, j :: 0 <= i <= j <= |s| && s[i..j] == t && AllSpace(s[..i]) && AllSpace(s[j..])
  }

  lemma {:induction false} LeftTrimmed(s: string) returns (i: nat)
    ensures i <= |s| && TrimLeft(s) == s[i..] && AllSpace(s[..i]) && (i < |s| ==> !IsSpace(s[i]))
  {
    if s != "" && IsSpace(s[0]) {
      var k := LeftTrimmed(s[1..]);
      i := k + 1;
      assert forall m :: 0 < m < i ==> s[m] == s[1..][m - 1] && s[1..][..k][m - 1] == s[m];
    } else {
      i := 0;
    }
  }

  lemma {:induction false} RightTrimmed(s: string) returns (j: nat)
    ensures j <= |s| && TrimRight(s) == s[..j] && AllSpace(s[j..]) && (j > 0 ==> !IsSpace(s[j - 1]))
  {
    if s != "" && IsSpace(s[|s| - 1]) {
      var front := s[..|s| - 1];
      j := RightTrimmed(front);
      assert front[..j] == s[..j];
      assert forall m :: 0 <= m < |s| - j ==> s[j..][m] == if m < |front| - j then front[j..][m] else s[|s| - 1];
    } else {
      j := |s|;
    }
  }

  lemma TrimsExactly(s: string)
    ensures Trimmed(s, Trim(s))
    ensures Blank(s) <==> AllSpace(s)
  {
    var i := LeftTrimmed(s);
    var rest := s[i..];
    var j := RightTrimmed(rest);
    assert s[i..i + j] == rest[..j] == Trim(s) && s[i + j..] == rest[j..];
    if j > 0 { assert rest[..j][j - 1] == rest[j - 1] && Trim(s)[0] == s[i]; }
    assert Blank(s) <==> j == 0;
    assert forall k :: 0 <= k < i ==> s[k] == s[..i][k];
    assert j == 0 <==> i == |s|;
  }

  lemma {:induction false} StepsAreGiven(inputs: seq<ActionInput>, steps: seq<nat>, k: nat)
    requires StepsGiven(inputs, steps) && k <= |inputs|
    ensures StepAt(inputs, k) == if k == 0 then 0 else steps[k - 1]
  {
    if k > 0 {
      StepsAreGiven(inputs, steps, k - 1);
      assert steps[k - 1] == if inputs[k - 1].step.Some? then inputs[k - 1].step.value else if k == 1 then 1 else steps[k - 2] + 1;
    }
  }

  lemma NormalisedIsStored(input: ActionInput, step: nat)
    ensures StoredAs(input, step, Normalised(input, step))
  {
    if input.forEach.Some? { TrimsExactly(input.forEach.value); }
  }

  /** `defs` lists the first `k` actions, each in its step and each once; `place` says where. */
  ghost predicate ListsAll(inputs: seq<ActionInput>, steps: seq<nat>, defs: seq<ActionDef>, k: nat, place: seq<nat>)
    requires |steps| == |inputs| && k <= |inputs|
  {
    |defs| == k && |place| == k &&
    (forall i :: 0 <= i < k ==> place[i] < k && StoredAs(inputs[i], steps[i], defs[place[i]])) &&
    forall i, j :: 0 <= i < j < k ==> place[i] != place[j] && (steps[i] <= steps[j] ==> place[i] < place[j])
  }

  function Shifted(place: seq<nat>, m: nat): (r: seq<nat>)
    ensures |r| == |place| + 1 && r[|place|] == m && forall i :: 0 <= i < |place| ==> r[i] == if place[i] < m then place[i] else place[i] + 1
  {
    seq(|place| + 1, i requires 0 <= i <= |place| => if i == |place| then m else if place[i] < m then place[i] else place[i] + 1)
  }

  /** Normalising lists every action once, in its step; actions of one step stay in the order they were written. */
  lemma {:induction false} NormalisedListsAll(inputs: seq<ActionInput>, steps: seq<nat>, k: nat) returns (place: seq<nat>)
    requires StepsGiven(inputs, steps) && k <= |inputs|
    ensures ListsAll(inputs, steps, NormalisedUpTo(inputs, k), k, place) && SortedDefs(NormalisedUpTo(inputs, k))
  {
    hide StoredAs, InsertByStep;
    NormalisedSorted(inputs, k);
    if k == 0 {
      place := [];
    } else {
      place := NormalisedListsAll(inputs, steps, k - 1);
      StepsAreGiven(inputs, steps, k);
      var defs, d := NormalisedUpTo(inputs, k - 1), Normalised(inputs[k - 1], steps[k - 1]);
      NormalisedIsStored(inputs[k - 1], steps[k - 1]);
      assert d.step == steps[k - 1];
      var m := StepPoint(defs, d);
      place := OneMorePlace(inputs, steps, defs, k, place, d, m);
    }
  }

  lemma InsertedPlaces<T>(list: seq<T>, m: nat, x: T)
    requires m <= |list|
    ensures var r := InsertAt(list, m, x);
            |r| == |list| + 1 && r[m] == x && (forall i :: 0 <= i < m ==> r[i] == list[i]) && forall i :: m <= i < |list| ==> r[i + 1] == list[i]
  {
  }

  lemma OneMorePlace(inputs: seq<ActionInput>, steps: seq<nat>, defs: seq<ActionDef>, k: nat, place: seq<nat>, d: ActionDef, m: nat) returns (next: seq<nat>)
    requires |steps| == |inputs| && 0 < k <= |inputs| && ListsAll(inputs, steps, defs, k - 1, place) && SortedDefs(defs)
    requires StoredAs(inputs[k - 1], steps[k - 1], d) && m <= |defs| && (m > 0 ==> defs[m - 1].step <= d.step) && (m < |defs| ==> defs[m].step > d.step)
    ensures ListsAll(inputs, steps, InsertAt(defs, m, d), k, next)
  {
    hide StoredAs, InsertAt;
    next := Shifted(place, m);
    InsertedPlaces(defs, m, d);
    var r := InsertAt(defs, m, d);
    forall i | 0 <= i < k ensures next[i] < k && StoredAs(inputs[i], steps[i], r[next[i]]) {
      if i < k - 1 { assert r[next[i]] == defs[place[i]]; }
    }
    forall i | 0 <= i < k - 1 && steps[i] <= steps[k - 1] ensures place[i] < m {
      PlacedBefore(inputs, steps, defs, k, place, d, m, i);
    }
  }

  lemma PlacedBefore(inputs: seq<ActionInput>, steps: seq<nat>, defs: seq<ActionDef>, k: nat, place: seq<nat>, d: ActionDef, m: nat, i: nat)
    requires |steps| == |inputs| && 0 < k <= |inputs| && ListsAll(inputs, steps, defs, k - 1, place) && SortedDefs(defs)
    requires StoredAs(inputs[k - 1], steps[k - 1], d) && m <= |defs| && (m < |defs| ==> defs[m].step > d.step)
    requires i < k - 1 && steps[i] <= steps[k - 1]
    ensures place[i] < m
  {
    hide StoredAs;
    StoredStep(inputs[i], steps[i], defs[place[i]]);
    StoredStep(inputs[k - 1], steps[k - 1], d);
  }

  lemma StoredStep(input: ActionInput, step: nat, d: ActionDef)
    requires StoredAs(input, step, d)
    ensures d.step == step
  {
  }

  // ---------------------------------------------------------------- where the body of a call may be read

  lemma {:induction false} SplitDot(path: string)
    ensures |Split(path)| > 1 ==> Split(path)[0] + "." <= path && Split(path)[1..] == Split(path[|Split(path)[0]| + 1..])
  {
    if path != "" {
      if path[0] == '.' {
        assert ([""] + Split(path[1..]))[1..] == Split(path[1..]);
      } else {
        SplitDot(path[1..]);
        var rest := Split(path[1..]);
        if |rest| > 1 {
          assert Split(path)[0] == [path[0]] + rest[0] && Split(path)[1..] == rest[1..];
          assert path == [path[0]] + path[1..];
          assert path[|rest[0]| + 2..] == path[1..][|rest[0]| + 1..];
          assert Split(path)[0] + "." == [path[0]] + (rest[0] + ".");
        }
      }
    }
  }

  lemma {:induction false} SplitSingle(path: string)
    ensures |Split(path)| == 1 ==> Split(path)[0] == path
  {
    if path != "" && path[0] != '.' { SplitSingle(path[1..]); }
  }

  lemma BodyPaths(path: string)
    requires |Split(path)| > 1 && Split(path)[0] == "trigger" && Split(path)[1] == "body"
    ensures IsBodyPath(path)
  {
    SplitDot(path);
    assert "trigger" + "." == "trigger.";
    var rest := path[8..];
    assert path == "trigger." + rest && Split(rest)[0] == "body";
    if |Split(rest)| > 1 {
      SplitDot(rest);
      assert "body" + "." <= rest;
      assert path == "trigger." + ("body" + "." + rest[5..]);
      assert "trigger." + "body" + "." == "trigger.body.";
    } else {
      SplitSingle(rest);
      assert "trigger." + "body" == "trigger.body";
    }
  }

  /** A routine accepted for a manual or scheduled trigger nowhere reads the body of a call. */
  lemma OnlyWebhooksReadTheBody(defs: seq<ActionDef>, i: nat, path: string)
    requires Accepted(defs, false) && i < |defs|
    requires path in TemplatePaths(defs[i].params) || (defs[i].forEach.Some? && path in TemplatePaths(Str(defs[i].forEach.value)))
    ensures !(|Split(path)| > 1 && Split(path)[0] == "trigger" && Split(path)[1] == "body")
  {
    assert ActionOk(defs, false, defs[i]) && path in PathsOf(defs[i]);
    assert PathOk(defs, false, defs[i], path);
    if |Split(path)| > 1 && Split(path)[0] == "trigger" && Split(path)[1] == "body" { BodyPaths(path); }
  }

  // ---------------------------------------------------------------- the rules of params in plain terms

  /** A text that contains an opening double brace is checked at run time instead. */
  predicate Braced(text: string) { exists i :: 0 <= i < |text| - 1 && text[i] == '{' && text[i + 1] == '{' }

  /** An operator written as plain text is one of these. */
  predicate OperatorAmong(d: ActionDef, known: set<string>) {
    match Field(d.params, "operator")
    case Some(Str(text)) => Braced(text) || text in known
    case _ => true
  }

  lemma LiteralExactly(text: string)
    ensures Literal(Some(Str(text))) <==> !Braced(text)
  {
    if Braced(text) {
      var i :| 0 <= i < |text| - 1 && text[i] == '{' && text[i + 1] == '{';
      assert text[i..i + 2] == "{{";
      assert Has(text, i, "{{");
    }
    if i :| 0 <= i < |text| - 1 && Has(text, i, "{{") {
      assert text[i..i + 2][0] == '{' && text[i..i + 2][1] == '{';
    }
  }

  /** What is demanded of params: what the type requires is there and not the empty text, operators are known, variables have a name. */
  lemma ParamRulesExactly(d: ActionDef)
    ensures ParamsOk(d) && ScriptingOk(d) <==>
            d.typ in REQUIRED_PARAMS &&
            (forall k :: 0 <= k < |REQUIRED_PARAMS[d.typ]| ==>
              match Field(d.params, REQUIRED_PARAMS[d.typ][k]) case Some(value) => value != Str("") case None => false) &&
            (d.typ == "condition.if" ==>
              OperatorAmong(d, {"equals", "notEquals", "contains", "notContains", "greaterThan", "lessThan", "isEmpty", "isNotEmpty"})) &&
            (d.typ == "math.calculate" ==> OperatorAmong(d, {"+", "-", "*", "/", "%", "min", "max", "round"})) &&
            (d.typ == "variable.set" ==> match Field(d.params, "name") case Some(Str(name)) => IsVariableName(name) case _ => false)
  {
    hide Literal, Braced;
    var operator := Field(d.params, "operator");
    if operator.Some? && operator.value.Str? { LiteralExactly(operator.value.s); } else { NotLiteral(operator); }
  }

  lemma NotLiteral(value: Option<Json>)
    requires value.None? || !value.value.Str?
    ensures !Literal(value)
  {
  }

  predicate NameParts(head: char, tail: string) {
    (IsLetter(head) || head == '_') && |tail| <= 39 && forall i :: 0 <= i < |tail| ==> IsLetter(tail[i]) || tail[i] in DIGITS || tail[i] == '_'
  }

  /** A variable name is a letter or underscore and up to 39 letters, digits and underscores. */
  lemma VariableNameExactly(name: string)
    ensures IsVariableName(name) <==> exists head: char, tail: string :: name == [head] + tail && NameParts(head, tail)
  {
    if IsVariableName(name) { assert name == [name[0]] + name[1..]; }
  }
}
