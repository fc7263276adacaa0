/** Scripting actions (domain/control.ts) and the action types of the catalog. */
module Control {
  import opened Base

  const CONDITION := "condition.if"
  const VARIABLE := "variable.set"
  const MATH := "math.calculate"
  const ROUTINE_RUN := "routine.run"

  /** Types the engine evaluates itself. */
  predicate IsControl(typ: string) { typ == CONDITION || typ == VARIABLE || typ == MATH }

  /** Types that go through the broker. */
  predicate IsWorker(typ: string) { !IsControl(typ) && typ != ROUTINE_RUN }

  predicate IsLetter(c: char) { 'a' <= c <= 'z' || 'A' <= c <= 'Z' }

  predicate IsVariableName(name: string) {
    1 <= |name| <= 40 && (IsLetter(name[0]) || name[0] == '_') &&
    forall i :: 1 <= i < |name| ==> IsLetter(name[i]) || name[i] in DIGITS || name[i] == '_'
  }

  /**
   * What the model takes as given: the comparison and the arithmetic of the
   * evaluators (`None` where they throw), and how values, ids and clock readings
   * are rendered as text.
   */
  datatype Env = Env(
    condition: Json -> Option<bool>,
    calculate: Json -> Option<real>,
    render: Json -> string,
    uuid: nat -> string,
    iso: nat -> string,
    waitingAfter: nat)

  function SetVariable(params: Json): (output: Option<Json>) {
    match Field(params, "name")
    case Some(Str(name)) =>
      if !IsVariableName(name) then None else
        var value := Field(params, "value");
        Some(Obj(map["name" := Str(name),
                     "value" := if value.None? || value.value.Null? then Str("") else value.value]))
    case _ => None
  }

  function Evaluate(env: Env, typ: string, params: Json): Option<Json> {
    if typ == CONDITION then
      var r := env.condition(params);
      if r.Some? then Some(Obj(map["result" := Bool(r.value)])) else None
    else if typ == MATH then
      var r := env.calculate(params);
      if r.Some? then Some(Obj(map["result" := Num(r.value)])) else None
    else if typ == VARIABLE then SetVariable(params)
    else None
  }
}
