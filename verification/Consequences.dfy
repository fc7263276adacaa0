/**
 * What one turn means for later ones, over whole runs: requests carry resolved params,
 * conditions decide what waits for them, repetitions see their items, and called runs
 * their input.
 */
module Consequences {
  import opened Base
  import opened Templates
  import opened Control
  import opened Progress
  import opened Store
  import opened RowInvariants
  import opened Engine
  import opened AdvanceLoop
  import opened Issues
  import opened Invariants
  import opened Transactions
  import opened Evolution
  import opened Network
  import opened Soundness
  import opened Runs
  import opened Outcomes
  import opened Turns
  import opened Requests
  import opened Assignments
  import opened Definition
  import opened Results
  import opened Lookups

  // ---------------------------------------------------------------- the turns of a run

  /** Event `k` of the run sets off a pass with at least `q + 1` turns. */
  ghost predicate HasTurn(env: Env, states: seq<System>, events: seq<Event>, k: nat, q: nat) {
    k < |events| && k < |states| && Opened(states[k].db, events[k]).Some? &&
    TxOk(Opened(states[k].db, events[k]).value) && q < |PassTurns(env, Opened(states[k].db, events[k]).value)|
  }

  /** Turn `q` of the pass that event `k` sets off. */
  ghost function TurnAt(env: Env, states: seq<System>, events: seq<Event>, k: nat, q: nat): Turn
    requires HasTurn(env, states, events, k, q)
  {
    PassTurns(env, Opened(states[k].db, events[k]).value)[q]
  }

  /** The transaction an event opens continues the state before it, and its pass leads to the state after it. */
  lemma OpenedLeads(env: Env, g: System, ev: Event)
    requires Inv(g) && SoundDb(g.db) && Enabled(g, ev) && LayoutOk(g.db) && Opened(g.db, ev).Some?
    ensures var t := Opened(g.db, ev).value; TxInv(t) && Evolves(g.db, t.db) && g.db.log == t.db.log && After(env, g, ev).db == Advance(env, t).db
  {
    hide Served, DbInv, SoundDb, TxInv, Evolves, Advance, Issued;
    OpenedIsSound(g, ev);
    match ev
    case StartRun(c, _, now) =>
      var e := c.payload.message.exec;
      StatusEvolves(g.db, e, RUNNING, now);
    case TakeResult(c, _, now) =>
      var (e, a) := TargetOfResult(c.payload);
      ResultsAreExpected(g, c);
      ResultLeads(env, g.db, e, a, ReportOf(c.payload), now);
  }

  lemma ResultLeads(env: Env, db: Db, e: nat, a: nat, report: Report, now: nat)
    requires DbInv(db) && LayoutOk(db) && WasDispatched(db, e, a) && e < |db.execs| && !db.execs[e].status.Terminal()
    requires var found := FindId(Lock(db, e, now).mem, a); found.Some? && !Lock(db, e, now).mem[found.value].status.Terminal()
    ensures var t := Lock(db, e, now);
            t.Bounded() && var t1 := Record(t, FindId(t.mem, a).value, report);
            TxOk(t1) && Evolves(db, t1.db) && t1.db.log == db.log && ApplyResult(env, db, e, a, report, now) == Advance(env, t1).db
  {
    hide Issued, Settled, WfRows, LoopOrder, Evolves, Advance;
    LockOk(db, e, now);
    LockFinds(db, e, a, now);
    var t := Lock(db, e, now);
    RecordUpdates(t, FindId(t.mem, a).value, report);
    RecordEvolves(t, FindId(t.mem, a).value, report);
  }

  lemma RunOpens(env: Env, states: seq<System>, events: seq<Event>, k: nat)
    requires IsRun(env, states, events) && k < |events| && Opened(states[k].db, events[k]).Some?
    ensures var t := Opened(states[k].db, events[k]).value;
            TxInv(t) && Evolves(states[k].db, t.db) && states[k].db.log == t.db.log && states[k + 1].db == Advance(env, t).db
  {
    hide Inv, SoundDb, TxInv, Evolves, Advance, Opened, LayoutOk;
    RunsKeepInv(env, states, events, k);
    RunsStaySound(env, states, events, k);
    OpenedLeads(env, states[k], events[k]);
  }

  /** In every run, every turn comes to what the cases say. */
  lemma TurnsOutInEveryRun(env: Env, states: seq<System>, events: seq<Event>, k: nat, q: nat)
    requires IsRun(env, states, events) && HasTurn(env, states, events, k, q)
    ensures TurnAt(env, states, events, k, q).Ok() && TurnsOut(env, TurnAt(env, states, events, k, q))
  {
    hide TxOk, TurnsOut, Opened, PassTurns;
    PassTurnsOut(env, Opened(states[k].db, events[k]).value, q);
  }

  lemma RunTurn(env: Env, states: seq<System>, events: seq<Event>, k: nat, q: nat)
    requires IsRun(env, states, events) && HasTurn(env, states, events, k, q)
    ensures var u := TurnAt(env, states, events, k, q);
            TxOk(u.before) && u.Ok() && u.Row().status.Pending? && TurnsOut(env, u) && Within(states[k].db, u, states[k + 1].db)
  {
    hide TxOk, TurnsOut, Opened, PassTurns, Evolves, MidTx, Barrier, TurnOf, Advance;
    var t := Opened(states[k].db, events[k]).value;
    RunOpens(env, states, events, k);
    PassTurnsOut(env, t, q);
    PassTurnsProper(env, t, q);
    PassTurnsEvolve(env, t, q);
    var u := PassTurns(env, t)[q];
    RowInMemory(u.before, u.i);
    EvolvesTransitively(states[k].db, t.db, u.before.db);
  }

  predicate Precedes(k: nat, q: nat, l: nat, r: nat) { k < l || (k == l && q < r) }

  /** Between two turns of a run nothing is undone. */
  lemma TurnsInOrder(env: Env, states: seq<System>, events: seq<Event>, k: nat, q: nat, l: nat, r: nat)
    requires IsRun(env, states, events) && HasTurn(env, states, events, k, q) && HasTurn(env, states, events, l, r) && Precedes(k, q, l, r)
    ensures Evolves(TurnAt(env, states, events, k, q).after.db, TurnAt(env, states, events, l, r).before.db)
  {
    hide TxOk, TurnsOut, Opened, PassTurns, Evolves, MidTx, Barrier, Advance, IsRun;
    var u, v := TurnAt(env, states, events, k, q), TurnAt(env, states, events, l, r);
    if k == l {
      RunOpens(env, states, events, k);
      PassTurnsEvolve(env, Opened(states[k].db, events[k]).value, q);
    } else {
      RunTurn(env, states, events, k, q);
      RunTurn(env, states, events, l, r);
      RunLong(env, states, events);
      RunsEvolve(env, states, events, k + 1, l);
      EvolvesTransitively(u.after.db, states[k + 1].db, states[l].db);
      EvolvesTransitively(u.after.db, states[l].db, v.before.db);
    }
  }

  lemma RunLong(env: Env, states: seq<System>, events: seq<Event>)
    requires IsRun(env, states, events)
    ensures |states| == |events| + 1
  {
  }

  // ---------------------------------------------------------------- requests

  lemma UnopenedResult(env: Env, db: Db, e: nat, a: nat, report: Report, now: nat)
    requires LayoutOk(db) && (e < |db.execs| && !db.execs[e].status.Terminal() ==>
      var found := FindId(Lock(db, e, now).mem, a); found.None? || Lock(db, e, now).mem[found.value].status.Terminal())
    ensures NoRequests(db.log, ApplyResult(env, db, e, a, report, now).log)
  {
    hide Advance, WfRows, LoopOrder;
    if e < |db.execs| { LockOk(db, e, now); }
  }

  lemma UnopenedStart(env: Env, db: Db, e: nat, now: nat)
    requires LayoutOk(db) && !(e < |db.execs| && db.execs[e].status.PENDING?)
    ensures NoRequests(db.log, Start(env, db, e, now).log)
  {
    hide Advance, WfRows, LoopOrder;
  }

  lemma UnopenedTakes(env: Env, g: System, ev: Event)
    requires ev.TakeResult? && Enabled(g, ev) && LayoutOk(g.db) && Opened(g.db, ev).None?
    ensures NoRequests(g.db.log, After(env, g, ev).db.log)
  {
    hide Advance, ApplyResult, Load, WfRows, LoopOrder, Start, CreateExecution, NoRequests, Record;
    var (e, a) := TargetOfResult(ev.copy.payload);
    if e < |g.db.execs| { LockOk(g.db, e, ev.now); }
    UnopenedResult(env, g.db, e, a, ReportOf(ev.copy.payload), ev.now);
  }

  lemma UnopenedRest(env: Env, g: System, ev: Event)
    requires !ev.TakeResult? && Enabled(g, ev) && LayoutOk(g.db) && Opened(g.db, ev).None?
    ensures NoRequests(g.db.log, After(env, g, ev).db.log)
  {
    hide Advance, ApplyResult, Load, WfRows, LoopOrder, Start, CreateExecution;
    match ev
    case StartRun(c, _, now) => UnopenedStart(env, g.db, c.payload.message.exec, now);
    case TriggerRun(id, kind, slot, key, payload) => TriggersExactly(g.db, g.db.routines[id], kind, slot, key, payload);
    case _ =>
  }

  /** An event that opens no transaction asks for nothing. */
  lemma UnopenedAsksNothing(env: Env, g: System, ev: Event)
    requires Enabled(g, ev) && LayoutOk(g.db) && Opened(g.db, ev).None?
    ensures NoRequests(g.db.log, After(env, g, ev).db.log)
  {
    hide After, Opened, Enabled, LayoutOk, NoRequests;
    if ev.TakeResult? { UnopenedTakes(env, g, ev); } else { UnopenedRest(env, g, ev); }
  }

  /**
   * Every request a run ever logs: the event that logged it opened a transaction on the
   * action's execution, and at the action's turn in it the params of the action, with
   * every template replaced by what it then read, were the params of the request.
   */
  lemma RequestsCarryParams(env: Env, states: seq<System>, events: seq<Event>, k: nat, j: nat, e: nat, a: nat, params: Json)
    requires IsRun(env, states, events) && k < |events|
    requires |states[k].db.log| <= j < |states[k + 1].db.log| && states[k + 1].db.log[j] == ActionRequested(e, a, params)
    ensures exists q :: HasTurn(env, states, events, k, q) && AskedAt(env, TurnAt(env, states, events, k, q), e, a, params)
  {
    hide Inv, TxOk, Opened, PassTurns, Advance, AskedAt, LayoutOk, MidTx, Barrier, Evolves;
    if Opened(states[k].db, events[k]).None? {
      RunsKeepInv(env, states, events, k);
      UnopenedAsksNothing(env, states[k], events[k]);
    } else {
      RunOpens(env, states, events, k);
      var t := Opened(states[k].db, events[k]).value;
      PassAsks(env, t, j, e, a, params);
      var q :| 0 <= q < |PassTurns(env, t)| && AskedAt(env, PassTurns(env, t)[q], e, a, params);
      assert HasTurn(env, states, events, k, q) && TurnAt(env, states, events, k, q) == PassTurns(env, t)[q];
    }
  }

  lemma RequiredKept(d: ActionDef, scope: Json, render: Json -> string, param: string)
    requires ParamsOk(d) && param in REQUIRED_PARAMS[d.typ] && Resolve(d.params, scope, render).Some?
    ensures Field(Resolve(d.params, scope, render).value, param).Some?
  {
    var k :| 0 <= k < |REQUIRED_PARAMS[d.typ]| && REQUIRED_PARAMS[d.typ][k] == param;
    assert ParamGiven(d, param);
  }

  lemma RowParamsOk(x: Exec, a: nat)
    requires Sound(x) && WfRows(x.rows, x.authored) && a < |x.rows|
    ensures ParamsOk(DefOf(x.rows[a]))
  {
    hide Sound;
    var i := RowIsAccepted(x, a);
  }

  /** No worker is ever asked without a param its type requires. */
  lemma RequiredParamsArrive(env: Env, states: seq<System>, events: seq<Event>, k: nat, j: nat, e: nat, a: nat, params: Json, param: string)
    requires IsRun(env, states, events) && k < |events|
    requires |states[k].db.log| <= j < |states[k + 1].db.log| && states[k + 1].db.log[j] == ActionRequested(e, a, params)
    ensures Exists(states[k + 1].db.execs, e, a)
    ensures var typ := states[k + 1].db.execs[e].rows[a].typ; typ in REQUIRED_PARAMS && (param in REQUIRED_PARAMS[typ] ==> Field(params, param).Some?)
  {
    hide IsRun, HasTurn, TurnAt, TxOk, TurnsOut, Evolves, Sound, WfRows, LoopOrder, ParamsOk, Scope, Resolve;
    RequestsCarryParams(env, states, events, k, j, e, a, params);
    var q :| HasTurn(env, states, events, k, q) && AskedAt(env, TurnAt(env, states, events, k, q), e, a, params);
    var u := TurnAt(env, states, events, k, q);
    RunLong(env, states, events);
    RunTurn(env, states, events, k, q);
    RowAfter(u.before.db, u.after.db, e, a);
    RowAfter(u.after.db, states[k + 1].db, e, a);
    RunsStaySound(env, states, events, k + 1);
    RunsKeepInv(env, states, events, k + 1);
    var x := states[k + 1].db.execs[e];
    RowParamsOk(x, a);
    assert DefOf(x.rows[a]).params == u.Row().params;
    ParamsKnown(DefOf(x.rows[a]));
    if param in REQUIRED_PARAMS[x.rows[a].typ] { RequiredKept(DefOf(x.rows[a]), ScopeFor(env, u.before, u.i), env.render, param); }
  }

  lemma ParamsKnown(d: ActionDef)
    requires ParamsOk(d)
    ensures d.typ in REQUIRED_PARAMS
  {
  }

  /** And whatever is ready for a worker is asked for by the end of its transaction, unless that leaves the execution FAILED. */
  lemma ReadyIsAskedInEveryRun(env: Env, states: seq<System>, events: seq<Event>, k: nat, q: nat, params: Json)
    requires IsRun(env, states, events) && HasTurn(env, states, events, k, q)
    requires TurnAt(env, states, events, k, q).Ok() && Ready(env, TurnAt(env, states, events, k, q), params)
    ensures var u, db := TurnAt(env, states, events, k, q), states[k + 1].db;
            ActionRequested(u.before.e, u.Id(), params) in db.log || (u.before.e < |db.execs| && db.execs[u.before.e].status.FAILED?)
  {
    hide TxOk, Opened, PassTurns, Advance, Ready, MidTx, Barrier, Evolves, TurnOf;
    RunOpens(env, states, events, k);
    var t := Opened(states[k].db, events[k]).value;
    ReadyIsAsked(env, t, q, params);
    PassTurnsProper(env, t, q);
  }

  /** One event asks for actions of one step of one execution, in the order they have in it. */
  lemma RequestsInOrder(env: Env, states: seq<System>, events: seq<Event>, k: nat, i: nat, j: nat)
    requires IsRun(env, states, events) && k < |events| && |states[k].db.log| <= i < j < |states[k + 1].db.log|
    requires states[k + 1].db.log[i].ActionRequested? && states[k + 1].db.log[j].ActionRequested?
    ensures var db := states[k + 1].db;
            db.log[i].exec == db.log[j].exec < |db.execs| && InStepOrder(db.execs[db.log[i].exec].rows, db.log[i].action, db.log[j].action)
  {
    hide Inv, TxOk, Opened, PassTurns, Advance, LayoutOk, MidTx, Barrier, Evolves, InStepOrder, Asked;
    if Opened(states[k].db, events[k]).None? {
      RunsKeepInv(env, states, events, k);
      UnopenedAsksNothing(env, states[k], events[k]);
    } else {
      RunOpens(env, states, events, k);
      var t, log := Opened(states[k].db, events[k]).value, states[k + 1].db.log;
      PassAsks(env, t, i, log[i].exec, log[i].action, log[i].params);
      PassAsks(env, t, j, log[j].exec, log[j].action, log[j].params);
      PassAsksInOrder(env, t, i, j);
    }
  }

  // ---------------------------------------------------------------- results

  /** The row as its message reported it. */
  predicate AsReported(row: Row, payload: Payload)
    requires payload.Sent? ==> payload.message.ActionResult?
  {
    match payload
    case RetryNotice(_, _) => row.status.Retrying?
    case Sent(ActionResult(_, _, OkResult(output))) => row.status.Completed? && row.output == Some(output)
    case _ => row.status.Failed?
  }

  lemma RecordedAsReported(env: Env, db: Db, e: nat, a: nat, payload: Payload, now: nat)
    requires DbInv(db) && Awaited(db, e, a) && (payload.Sent? ==> payload.message.ActionResult?)
    ensures LayoutOk(db)
    ensures var db' := ApplyResult(env, db, e, a, ReportOf(payload), now); Exists(db'.execs, e, a) && AsReported(db'.execs[e].rows[a], payload)
  {
    hide DbInv, LayoutOk, TxOk, ApplyResult, Advance, Evolves;
    if payload.RetryNotice? {
      RetryIsReported(env, db, e, a, now);
    } else {
      DbInvLayout(db);
      var t := Reported(env, db, e, a, ReportOf(payload), now);
      ReportedAdvances(env, db, e, a, ReportOf(payload), now, t);
      RowAfter(t.db, Advance(env, t).db, e, a);
    }
  }

  lemma ReportedAdvances(env: Env, db: Db, e: nat, a: nat, report: Report, now: nat, t: Tx)
    requires DbInv(db) && Awaited(db, e, a) && TxOk(t) && t.e == e && t.db.log == db.log && t.db.routines == db.routines
    requires t.db.execs == db.execs[e := db.execs[e].(rows := t.Rows())] && |t.Rows()| == |db.execs[e].rows|
    requires forall b :: 0 <= b < |t.Rows()| && b != a ==> t.Rows()[b] == db.execs[e].rows[b]
    requires RowMove(db.execs[e].rows[a], t.Rows()[a]) && !t.Rows()[a].status.Pending?
    ensures Evolves(t.db, Advance(env, t).db)
  {
    hide Issued, WfRows, LoopOrder, StepSorted, Mirror, Evolves, Advance;
    MoveRows(db.execs, db.log, e, t.db.execs[e]);
    var c: nat :| BarrierAt(db.execs[e].rows, c);
    assert BarrierAt(t.Rows(), c);
    AdvanceEvolves(env, t);
  }

  /** What a result message says of an action in flight is what its row says after it was taken, in every run. */
  lemma TakenAsReported(env: Env, states: seq<System>, events: seq<Event>, k: nat)
    requires IsRun(env, states, events) && k < |events| && events[k].TakeResult?
    ensures k + 1 < |states| && (events[k].copy.payload.Sent? ==> events[k].copy.payload.message.ActionResult?)
    ensures var (e, a) := match events[k].copy.payload case Sent(m) => (m.exec, m.action) case RetryNotice(e, a) => (e, a);
            Awaited(states[k].db, e, a) ==> Exists(states[k + 1].db.execs, e, a) && AsReported(states[k + 1].db.execs[e].rows[a], events[k].copy.payload)
  {
    hide Inv, LayoutOk, ApplyResult, AsReported, Awaited;
    RunsKeepInv(env, states, events, k);
    var (e, a) := match events[k].copy.payload case Sent(m) => (m.exec, m.action) case RetryNotice(e, a) => (e, a);
    if Awaited(states[k].db, e, a) {
      InvDb(states[k]);
      RecordedAsReported(env, states[k].db, e, a, events[k].copy.payload, events[k].now);
    }
  }

  lemma InvDb(g: System)
    requires Inv(g)
    ensures DbInv(g.db)
  {
  }

  // ---------------------------------------------------------------- conditions

  /** A turn ends SKIPPED exactly if the row has a condition that did not give what it waits for. */
  lemma SkippedExactly(env: Env, u: Turn)
    requires u.Ok() && u.Row().status.Pending? && TurnsOut(env, u)
    ensures u.Left().status.Skipped? <==> !Goes(u)
  {
    hide Resolve, Scope, Gave, Produces;
    if Goes(u) && !u.Row().LoopHead() && Params(env, u).Some? && u.Row().typ == "routine.run" && u.Exec().depth < 5 {
      if id :| Names(u, Params(env, u).value, id) { assert StartsRun(u, u.before.db.routines[id], Params(env, u).value); }
    }
  }

  lemma RowAfter(db: Db, db': Db, e: nat, a: nat)
    requires Evolves(db, db') && Exists(db.execs, e, a)
    ensures Exists(db'.execs, e, a) && RowEvolves(db.execs[e].rows[a], db'.execs[e].rows[a]) && SameHeader(db.execs[e], db'.execs[e])
  {
    assert ExecEvolves(db.execs[e], db'.execs[e]);
  }

  lemma GaveExactly(t: Tx, c: nat, key: string, b: bool, expected: bool)
    requires TxOk(t) && c < |t.Rows()| && t.Rows()[c].key == key && t.Rows()[c].status.Completed?
    requires t.Rows()[c].output == Some(Obj(map["result" := Bool(b)]))
    ensures Gave(t.Rows(), key, expected) <==> b == expected
  {
    hide LoopOrder, Mirror, StepSorted, WfRows;
    var rows, n := t.Rows(), t.db.execs[t.e].authored;
    assert Field(rows[c].output.value, "result") == Some(Bool(b));
    if Gave(rows, key, expected) {
      var d :| 0 <= d < |rows| && rows[d].key == key && rows[d].status.Completed? && rows[d].output.Some? &&
        Field(rows[d].output.value, "result") == Some(Bool(expected));
      if c < d { UniqueKeys(rows, n, c, d); } else if d < c { UniqueKeys(rows, n, d, c); }
    }
  }

  /** The turn evaluates a condition that does not repeat, to `b`. */
  predicate Evaluates(env: Env, u: Turn, b: bool)
    requires u.Ok()
  {
    Goes(u) && !u.Row().LoopHead() && u.Row().typ == "condition.if" && Params(env, u).Some? && env.condition(Params(env, u).value) == Some(b)
  }

  lemma EvaluatedRow(env: Env, u: Turn, b: bool)
    requires u.Ok() && TurnsOut(env, u) && Evaluates(env, u, b)
    ensures u.Left().key == u.Row().key && u.Left().status.Completed? && u.Left().output == Some(Obj(map["result" := Bool(b)]))
  {
    hide Resolve, Scope, Gave, StartsRun, Outcomes.Repeats;
  }

  /**
   * A condition decides what waits for it, however many transactions lie between: once
   * it evaluated to `b`, a later action of the same execution that waits for it to give
   * `expected` is SKIPPED at its turn if and only if `b` is not `expected`.
   */
  lemma ConditionDecides(env: Env, states: seq<System>, events: seq<Event>, k: nat, q: nat, l: nat, r: nat, b: bool, expected: bool)
    requires IsRun(env, states, events) && HasTurn(env, states, events, k, q) && HasTurn(env, states, events, l, r) && Precedes(k, q, l, r)
    requires var u, v := TurnAt(env, states, events, k, q), TurnAt(env, states, events, l, r);
             u.Ok() && v.Ok() && u.before.e == v.before.e && Evaluates(env, u, b) && v.Row().runIf == Some(RunIf(u.Row().key, expected))
    ensures TurnAt(env, states, events, l, r).Left().status.Skipped? <==> b != expected
  {
    hide IsRun, HasTurn, TurnAt, TxOk, TurnsOut, Evaluates, Gave, Evolves;
    var u, v := TurnAt(env, states, events, k, q), TurnAt(env, states, events, l, r);
    RunTurn(env, states, events, k, q);
    RunTurn(env, states, events, l, r);
    TurnsInOrder(env, states, events, k, q, l, r);
    EvaluatedRow(env, u, b);
    RowAfter(u.after.db, v.before.db, u.before.e, u.Id());
    GaveExactly(v.before, u.Id(), u.Row().key, b, expected);
    SkippedExactly(env, v);
  }

  /** And while the condition has not completed, its turn ends SKIPPED in any case. */
  lemma UndecidedSkips(env: Env, states: seq<System>, events: seq<Event>, k: nat, q: nat, runIf: RunIf)
    requires IsRun(env, states, events) && HasTurn(env, states, events, k, q)
    requires var u := TurnAt(env, states, events, k, q);
             u.Ok() && u.Row().runIf == Some(runIf) &&
             forall c :: 0 <= c < |u.before.Rows()| && u.before.Rows()[c].key == runIf.action ==> !u.before.Rows()[c].status.Completed?
    ensures TurnAt(env, states, events, k, q).Left().status.Skipped?
  {
    hide IsRun, HasTurn, TurnAt, TxOk, TurnsOut, Evolves;
    RunTurn(env, states, events, k, q);
    SkippedExactly(env, TurnAt(env, states, events, k, q));
  }

  // ---------------------------------------------------------------- items

  /** The turn repeats its row over these items. */
  predicate Loops(env: Env, u: Turn, items: seq<Json>)
    requires u.Ok()
  {
    Goes(u) && u.Row().LoopHead() && ListOf(env, u) == Some(Arr(items)) && |items| <= 50
  }

  lemma LoopedRows(env: Env, u: Turn, items: seq<Json>, i: nat)
    requires u.Ok() && TurnsOut(env, u) && Loops(env, u, items) && i < |items|
    ensures var a := |u.before.Rows()| + i; a < |u.after.Rows()| && RepeatsFor(u, u.after.Rows()[a], i, items[i])
  {
    hide Resolve, Scope, Gave;
  }

  /**
   * What a repetition sees: at the turn of `key[i]`, in whatever transaction, `item` is
   * element `i` of the list the loop ran over and `index` is `i`.
   */
  lemma RepetitionSeesItem(env: Env, states: seq<System>, events: seq<Event>, k: nat, q: nat, l: nat, r: nat, items: seq<Json>, i: nat)
    requires IsRun(env, states, events) && HasTurn(env, states, events, k, q) && HasTurn(env, states, events, l, r) && Precedes(k, q, l, r)
    requires var u, v := TurnAt(env, states, events, k, q), TurnAt(env, states, events, l, r);
             u.Ok() && v.Ok() && u.before.e == v.before.e && Loops(env, u, items) && i < |items| && v.Row().key == u.Row().key + "[" + Decimal(i) + "]"
    ensures var v := TurnAt(env, states, events, l, r);
            Lookup(ScopeFor(env, v.before, v.i), "item") == Some(items[i]) && Lookup(ScopeFor(env, v.before, v.i), "index") == Some(Num(i as real)) &&
            v.Row().params == TurnAt(env, states, events, k, q).Row().params
  {
    hide IsRun, HasTurn, TurnAt, TxOk, TurnsOut, Evolves, Loops, Scope, Lookup;
    var u, v := TurnAt(env, states, events, k, q), TurnAt(env, states, events, l, r);
    RunTurn(env, states, events, k, q);
    RunTurn(env, states, events, l, r);
    TurnsInOrder(env, states, events, k, q, l, r);
    LoopedRows(env, u, items, i);
    var a := |u.before.Rows()| + i;
    RowAfter(u.after.db, v.before.db, u.before.e, a);
    SameKeySameRow(v.before, v.Id(), a);
    RowInMemory(v.before, v.i);
    LoopRootsRead(env, v.before, v.i);
  }

  lemma SameKeySameRow(t: Tx, a: nat, b: nat)
    requires TxOk(t) && a < |t.Rows()| && b < |t.Rows()| && t.Rows()[a].key == t.Rows()[b].key
    ensures a == b
  {
    hide LoopOrder, Mirror, StepSorted, WfRows;
    if a < b { UniqueKeys(t.Rows(), t.db.execs[t.e].authored, a, b); } else if b < a { UniqueKeys(t.Rows(), t.db.execs[t.e].authored, b, a); }
  }

  // ---------------------------------------------------------------- input

  /** The turn calls a routine with these params. */
  ghost predicate CallsWith(env: Env, u: Turn, params: Json)
    requires u.Ok()
  {
    Goes(u) && !u.Row().LoopHead() && u.Row().typ == "routine.run" && Params(env, u) == Some(params) && u.Exec().depth < 5 && exists id :: Names(u, params, id)
  }

  function InputGiven(params: Json): Json { match Field(params, "input") case Some(input) => input case None => Null }

  lemma CalledExec(env: Env, u: Turn, params: Json)
    requires u.Ok() && TurnsOut(env, u) && CallsWith(env, u, params)
    ensures var n := |u.before.db.execs|;
            n < |u.after.db.execs| && u.after.db.execs[n].trigger == "routine" && u.after.db.execs[n].payload == Some(Obj(map["input" := InputGiven(params)]))
  {
    hide Resolve, Scope, Gave;
    var id :| Names(u, params, id);
    assert StartsRun(u, u.before.db.routines[id], params);
  }

  /** What a called run sees: at every turn in it, in whatever transaction, `input` is what the call passed. */
  lemma CalledRunSeesInput(env: Env, states: seq<System>, events: seq<Event>, k: nat, q: nat, l: nat, r: nat, params: Json)
    requires IsRun(env, states, events) && HasTurn(env, states, events, k, q) && HasTurn(env, states, events, l, r) && Precedes(k, q, l, r)
    requires var u, v := TurnAt(env, states, events, k, q), TurnAt(env, states, events, l, r);
             u.Ok() && v.Ok() && CallsWith(env, u, params) && v.before.e == |u.before.db.execs|
    ensures var v := TurnAt(env, states, events, l, r); Lookup(ScopeFor(env, v.before, v.i), "input") == Some(InputGiven(params))
  {
    hide IsRun, HasTurn, TurnAt, TxOk, TurnsOut, Evolves, CallsWith, Scope, Lookup;
    var u, v := TurnAt(env, states, events, k, q), TurnAt(env, states, events, l, r);
    RunTurn(env, states, events, k, q);
    RunTurn(env, states, events, l, r);
    TurnsInOrder(env, states, events, k, q, l, r);
    CalledExec(env, u, params);
    ExecAfter(u.after.db, v.before.db, v.before.e);
    InputRead(env, v.before, v.i, InputGiven(params));
  }

  lemma ExecAfter(db: Db, db': Db, e: nat)
    requires Evolves(db, db') && e < |db.execs|
    ensures e < |db'.execs| && SameHeader(db.execs[e], db'.execs[e])
  {
    assert ExecEvolves(db.execs[e], db'.execs[e]);
  }

  // ---------------------------------------------------------------- variables

  /** The turn sets variable `name` to `value`. */
  predicate Sets(env: Env, u: Turn, name: string, value: Json)
    requires u.Ok()
  {
    Goes(u) && !u.Row().LoopHead() && u.Row().typ == "variable.set" && IsVariableName(name) &&
    match Params(env, u)
    case None => false
    case Some(params) =>
      Field(params, "name") == Some(Str(name)) &&
      value == match Field(params, "value") case Some(Null) => Str("") case None => Str("") case Some(given) => given
  }

  lemma SetRow(env: Env, u: Turn, name: string, value: Json)
    requires u.Ok() && TurnsOut(env, u) && Sets(env, u, name, value)
    ensures u.Left().status.Completed? && u.Left().typ == "variable.set" && u.Left().output.Some? &&
            Field(u.Left().output.value, "name") == Some(Str(name)) && Field(u.Left().output.value, "value") == Some(value)
  {
    hide Resolve, Scope, Gave, StartsRun, Outcomes.Repeats, IsVariableName;
    var params := Params(env, u).value;
    var output :| Produces(env, u.Row().typ, params, output) && if output.Some? then CompletesWith(u, output.value) else Fails(u);
    assert IsVariableName(name) && Field(params, "name") == Some(Str(name));
  }

  /**
   * What a variable holds: after `variable.set` had its turn, every later turn of the
   * execution reads the value it was given, as long as nothing else set that variable.
   */
  lemma VariableIsRead(env: Env, states: seq<System>, events: seq<Event>, k: nat, q: nat, l: nat, r: nat, name: string, value: Json)
    requires IsRun(env, states, events) && HasTurn(env, states, events, k, q) && HasTurn(env, states, events, l, r) && Precedes(k, q, l, r)
    requires var u, v := TurnAt(env, states, events, k, q), TurnAt(env, states, events, l, r);
             u.Ok() && v.Ok() && u.before.e == v.before.e && Sets(env, u, name, value) &&
             forall j :: 0 <= j < |v.before.mem| && SetsVariable(v.before.mem[j], name) ==> v.before.mem[j].id == u.Id()
    ensures var v := TurnAt(env, states, events, l, r); Lookup(ScopeFor(env, v.before, v.i), "vars." + name) == Some(value)
  {
    hide IsRun, HasTurn, TurnAt, TxOk, TurnsOut, Evolves, Sets, Scope, Lookup, VariablesOf, SetsVariable, IsVariableName;
    var u, v := TurnAt(env, states, events, k, q), TurnAt(env, states, events, l, r);
    RunTurn(env, states, events, k, q);
    RunTurn(env, states, events, l, r);
    TurnsInOrder(env, states, events, k, q, l, r);
    SetRow(env, u, name, value);
    assert '.' !in name by { NameSet(env, u, name, value); }
    RowAfter(u.after.db, v.before.db, u.before.e, u.Id());
    SoleSetterRead(env, v.before, v.i, u.Id(), name, value);
  }

  lemma NameSet(env: Env, u: Turn, name: string, value: Json)
    requires u.Ok() && Sets(env, u, name, value)
    ensures '.' !in name
  {
    PlainName(name);
  }

  lemma PlainName(name: string)
    requires IsVariableName(name)
    ensures '.' !in name
  {
    assert '.' !in DIGITS;
  }

  lemma SoleSetterRead(env: Env, t: Tx, i: nat, a: nat, name: string, value: Json)
    requires TxOk(t) && i < |t.mem| && a < |t.Rows()| && '.' !in name
    requires var row := t.Rows()[a];
             row.status.Completed? && row.typ == "variable.set" && row.output.Some? &&
             Field(row.output.value, "name") == Some(Str(name)) && Field(row.output.value, "value") == Some(value)
    requires forall j :: 0 <= j < |t.mem| && SetsVariable(t.mem[j], name) ==> t.mem[j].id == a
    ensures Lookup(ScopeFor(env, t, i), "vars." + name) == Some(value)
  {
    hide WfRows, LoopOrder, StepSorted, Mirror, VariablesOf, Lookup, Outputs;
    SoleSetterWins(t, a, name, value);
    var scope := ScopeFor(env, t, i);
    assert scope.fields["vars"] == Obj(VariablesOf(t.mem));
    assert "vars" + "." + name == "vars." + name;
    PairRead(scope, "vars", name);
  }

  lemma SoleSetterWins(t: Tx, a: nat, name: string, value: Json)
    requires TxOk(t) && a < |t.Rows()|
    requires var row := t.Rows()[a];
             row.status.Completed? && row.typ == "variable.set" && row.output.Some? &&
             Field(row.output.value, "name") == Some(Str(name)) && Field(row.output.value, "value") == Some(value)
    requires forall j :: 0 <= j < |t.mem| && SetsVariable(t.mem[j], name) ==> t.mem[j].id == a
    ensures name in VariablesOf(t.mem) && VariablesOf(t.mem)[name] == value
  {
    hide WfRows, LoopOrder, StepSorted, Mirror, VariablesOf;
    var m := FoundIn(t.mem, t.Rows(), a);
    assert SetsVariable(t.mem[m], name);
    WinnerFound(t.mem, name, m);
    VariableIsWinner(t.mem, name);
    OneRowPerId(t, m, WinnerRow(t.mem, name).value);
  }

  lemma OneRowPerId(t: Tx, m: nat, w: nat)
    requires TxOk(t) && m < |t.mem| && w < |t.mem| && t.mem[m].id == t.mem[w].id
    ensures m == w
  {
    hide WfRows, LoopOrder, StepSorted;
  }
}
