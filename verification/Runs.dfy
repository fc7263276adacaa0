/**
 * The guarantees of the engine read over whole runs: every state a run of the
 * system reaches, with triggers and results duplicated, reordered and retried.
 */
module Runs {
  import opened Base
  import opened Control
  import opened Progress
  import opened Store
  import opened RowInvariants
  import opened Engine
  import opened AdvanceLoop
  import opened Issues
  import opened Invariants
  import opened Transactions
  import opened Evolution
  import opened Network
  import opened Endings
  import R = Recursion
  import I = Idempotency

  lemma EventEvolves(env: Env, g: System, ev: Event)
    requires Inv(g) && Enabled(g, ev) && LayoutOk(g.db)
    ensures Evolves(g.db, After(env, g, ev).db)
  {
    hide Evolves, Served, Issued, Settled, Start, ApplyResult;
    Reflexive(g.db);
    match ev
    case Save(routine) => SaveEvolves(g.db, routine);
    case TriggerRun(id, kind, slot, key, payload) => TriggerEvolves(g.db, g.db.routines[id], kind, slot, key, payload);
    case StartRun(c, ack, now) => StartEvolves(env, g.db, c.payload.message.exec, now);
    case TakeResult(c, ack, now) =>
      var (e, a) := TargetOfResult(c.payload);
      ResultsAreExpected(g, c);
      ApplyResultEvolves(env, g.db, e, a, ReportOf(c.payload), now);
    case Sweep(now) => MarkStaleEvolves(g.db, now, env.waitingAfter);
    case _ =>
  }

  /** Between any two states of a run nothing disappears, and terminal statuses and their outputs never change. */
  lemma {:induction false} RunsEvolve(env: Env, states: seq<System>, events: seq<Event>, i: nat, k: nat)
    requires IsRun(env, states, events) && i <= k < |states|
    ensures Evolves(states[i].db, states[k].db)
    decreases k - i
  {
    hide Evolves, After, Enabled, LayoutOk, Inv;
    if i == k { Reflexive(states[i].db); } else {
      RunsEvolve(env, states, events, i, k - 1);
      RunsKeepInv(env, states, events, k - 1);
      EventEvolves(env, states[k - 1], events[k - 1]);
      EvolvesTransitively(states[i].db, states[k - 1].db, states[k].db);
    }
  }

  lemma {:induction false} RunsTellTheTruth(env: Env, states: seq<System>, events: seq<Event>, k: nat)
    requires IsRun(env, states, events) && k < |states|
    ensures AllTold(states[k].db)
  {
    hide Told, Evolves, After, Enabled, LayoutOk, Inv;
    if k > 0 {
      RunsTellTheTruth(env, states, events, k - 1);
      RunsKeepInv(env, states, events, k - 1);
      EventEvolves(env, states[k - 1], events[k - 1]);
      EventTells(env, states[k - 1], events[k - 1]);
      ToldAfter(states[k - 1].db, states[k].db);
    }
  }

  predicate Announced(log: seq<Message>, m: Message) { m in log }

  /**
   * An execution announces its end once, and truly: a completed one is announced as
   * completed, a failed one as failed, with the key of an action that failed.
   */
  lemma EndAnnouncedOnce(env: Env, states: seq<System>, events: seq<Event>, k: nat, e: nat)
    requires IsRun(env, states, events) && k < |states| && e < |states[k].db.execs|
    ensures var x, log := states[k].db.execs[e], states[k].db.log;
            Occurrences(log, EndOf(e)) == (if x.status.Terminal() then 1 else 0) &&
            (Announced(log, ExecutionCompleted(e)) <==> x.status.COMPLETED?) &&
            ((exists key :: Announced(log, ExecutionFailed(e, key))) <==> x.status.FAILED?) &&
            forall key :: Announced(log, ExecutionFailed(e, key)) ==> FailedWith(x, key)
  {
    RunsKeepInv(env, states, events, k);
    RunsTellTheTruth(env, states, events, k);
    var db := states[k].db;
    ExecutionSpeaksOnce(db, e);
    assert ExecIssued(db.execs, db.log, e);
    forall m | Announced(db.log, m) ensures Told(db.execs, m) {
      var j :| 0 <= j < |db.log| && db.log[j] == m;
    }
    if db.execs[e].status.Terminal() {
      var j :| 0 <= j < |db.log| && IdOf(db.log[j]) == EndOf(e);
      assert Announced(db.log, db.log[j]);
    }
  }

  /** A called run answers its caller once it ended, once, and with success exactly when it completed. */
  lemma CallerAnsweredOnce(env: Env, states: seq<System>, events: seq<Event>, k: nat, c: nat, outcome: Outcome)
    requires IsRun(env, states, events) && k < |states| && c < |states[k].db.execs| && states[k].db.execs[c].caller.Some?
    ensures var x, log := states[k].db.execs[c], states[k].db.log;
            var (e, a) := (x.caller.value.exec, x.caller.value.action);
            Occurrences(log, AnswerTo(e, a)) == (if x.status.Terminal() then 1 else 0) &&
            (Announced(log, ActionResult(e, a, outcome)) ==> x.status == if outcome.OkResult? then COMPLETED else FAILED)
  {
    RunsKeepInv(env, states, events, k);
    RunsTellTheTruth(env, states, events, k);
    var db := states[k].db;
    ExecutionSpeaksOnce(db, c);
    var caller := db.execs[c].caller.value;
    var m := ActionResult(caller.exec, caller.action, outcome);
    if Announced(db.log, m) {
      var j :| 0 <= j < |db.log| && db.log[j] == m;
      assert Told(db.execs, m);
      var d :| 0 <= d < |db.execs| && Answers(db.execs[d], caller, outcome);
      OneCallee(db, c, d);
    }
  }

  lemma OneCallee(db: Db, c: nat, d: nat)
    requires DbInv(db) && c < |db.execs| && d < |db.execs| && db.execs[c].caller.Some? && db.execs[c].caller == db.execs[d].caller
    ensures c == d
  {
    assert CallersUnique(db.execs);
  }

  /** Over any run, a row causes at most one request or called run, however often results and triggers are delivered. */
  lemma RowActsOnceInEveryRun(env: Env, states: seq<System>, events: seq<Event>, k: nat, e: nat, a: nat)
    requires IsRun(env, states, events) && k < |states| && Exists(states[k].db.execs, e, a)
    ensures var db := states[k].db;
            var acts := Occurrences(db.log, RequestOf(e, a)) + Calls(db.execs, e, a);
            acts <= 1 && (db.execs[e].rows[a].status.InFlight() ==> acts == 1) && (db.execs[e].rows[a].status.Pending? || db.execs[e].rows[a].status.Skipped? ==> acts == 0)
  {
    RunsKeepInv(env, states, events, k);
    RowActsOnce(states[k].db, e, a);
  }

  /** In every unfinished execution of every run, one step separates finished rows from untouched ones. */
  lemma BarrierInEveryRun(env: Env, states: seq<System>, events: seq<Event>, k: nat, e: nat)
    requires IsRun(env, states, events) && k < |states| && e < |states[k].db.execs| && !states[k].db.execs[e].status.Terminal()
    ensures Barrier(states[k].db.execs[e].rows)
  {
    RunsKeepInv(env, states, events, k);
    var x := states[k].db.execs[e];
    assert ExecOk(x);
    if x.status.PENDING? { PendingBarrier(x.rows); }
  }

  /** In every run one trigger leads to at most the sum over d = 0..5 of (50·20)^d executions. */
  lemma RecursionBoundInEveryRun(env: Env, states: seq<System>, events: seq<Event>, k: nat, root: nat)
    requires IsRun(env, states, events) && k < |states|
    ensures R.CallsEarlier(states[k].db.execs)
    ensures |R.Tree(states[k].db.execs, root)| <= R.PowerSum(MAX_ACTIONS * LOOP_LIMIT, MAX_CALL_DEPTH)
  {
    RunsKeepInv(env, states, events, k);
    var db := states[k].db;
    forall e | 0 <= e < |db.execs| ensures db.execs[e].authored <= MAX_ACTIONS {
      assert ExecOk(db.execs[e]);
    }
    R.RecursionBound(db, root, MAX_ACTIONS);
  }

  /**
   * A trigger repeated with its key, at any later point of a run and even after the
   * routine was edited, is answered with the execution of the first and changes nothing.
   */
  lemma RetriedTriggerInEveryRun(env: Env, states: seq<System>, events: seq<Event>, i: nat, k: nat, edited: Routine, again: Trigger, key: string)
    requires IsRun(env, states, events) && i < k < |states| && events[i].TriggerRun? && events[i].key == Some(key) && key != ""
    requires events[i].routineId in states[i].db.routines && !FirstAnswer(states[i].db, events[i]).Refused?
    requires edited.id == states[i].db.routines[events[i].routineId].id && again.idempotencyKey == Some(key)
    ensures CreateExecution(states[k].db, edited, again) == (states[k].db, Existing(FirstAnswer(states[i].db, events[i]).exec))
  {
    hide Evolves, I.TriggersUnique, CreateExecution;
    var ev := events[i];
    var routine := states[i].db.routines[ev.routineId];
    var trigger := Trigger(ev.kind, ev.slot, ev.key, ev.payload, None, 0);
    RunTriggers(env, states, events, i, trigger);
    RunsEvolve(env, states, events, i + 1, k);
    I.RunsTriggerOnce(env, states, events, k);
    I.SameKeySameExecution(states[i].db, routine, trigger, key, states[k].db, again);
    OnlyTheIdCounts(states[k].db, routine, edited, again);
  }

  /** The answer the trigger of an event gets. */
  function FirstAnswer(db: Db, ev: Event): Creation
    requires ev.TriggerRun? && ev.routineId in db.routines
  {
    TriggerRoutine(db, db.routines[ev.routineId], ev.kind, ev.slot, ev.key, ev.payload).1
  }

  lemma RunTriggers(env: Env, states: seq<System>, events: seq<Event>, i: nat, trigger: Trigger)
    requires IsRun(env, states, events) && i < |events| && events[i].TriggerRun? && events[i].routineId in states[i].db.routines
    requires trigger == Trigger(events[i].kind, events[i].slot, events[i].key, events[i].payload, None, 0)
    ensures states[i + 1].db == CreateExecution(states[i].db, states[i].db.routines[events[i].routineId], trigger).0
  {
    hide CreateExecution;
  }

  lemma OnlyTheIdCounts(db: Db, routine: Routine, edited: Routine, trigger: Trigger)
    requires routine.id == edited.id && CreateExecution(db, routine, trigger).1.Existing?
    ensures CreateExecution(db, edited, trigger) == CreateExecution(db, routine, trigger)
  {
  }

  // ---------------------------------------------------------------- the sweeper and the engine

  predicate AnyRetrying(rows: seq<Row>) { exists a :: 0 <= a < |rows| && rows[a].status.Retrying? }

  /** An action's answer is due at this very instant. */
  predicate AnyDueNow(rows: seq<Row>, now: nat, waitingAfter: nat) {
    exists a :: 0 <= a < |rows| && DueAt(rows[a], now, waitingAfter)
  }

  predicate DueAt(row: Row, now: nat, waitingAfter: nat) {
    row.status.Dispatched? && row.dispatchedAt.Some? && row.dispatchedAt.value + waitingAfter == now
  }

  /**
   * The engine calls a running execution WAITING if and only if the sweeper would flag it,
   * or an action is RETRYING, or an answer is due at this very instant.
   */
  lemma SweeperAgreesWithEngine(x: Exec, now: nat, waitingAfter: nat)
    requires x.status.RUNNING?
    ensures InFlightStatus(x.rows, now, waitingAfter) == WAITING <==>
            IsStale(x, now, waitingAfter) || AnyRetrying(x.rows) || AnyDueNow(x.rows, now, waitingAfter)
  {
    if IsStale(x, now, waitingAfter) {
      var a :| 0 <= a < |x.rows| && x.rows[a].status.Dispatched? && x.rows[a].dispatchedAt.Some? && x.rows[a].dispatchedAt.value + waitingAfter < now;
      assert Stale(x.rows[a], now, waitingAfter);
    }
    if AnyRetrying(x.rows) {
      var a :| 0 <= a < |x.rows| && x.rows[a].status.Retrying?;
      assert Stale(x.rows[a], now, waitingAfter);
    }
    if AnyDueNow(x.rows, now, waitingAfter) {
      var a :| 0 <= a < |x.rows| && DueAt(x.rows[a], now, waitingAfter);
      assert Stale(x.rows[a], now, waitingAfter);
    }
    if exists a :: 0 <= a < |x.rows| && Stale(x.rows[a], now, waitingAfter) {
      var a :| 0 <= a < |x.rows| && Stale(x.rows[a], now, waitingAfter);
      assert x.rows[a].status.Retrying? || DueAt(x.rows[a], now, waitingAfter) || x.rows[a].dispatchedAt.value + waitingAfter < now;
    }
  }

  /** Unless an action is RETRYING, the sweeper sees at one instant exactly what the engine saw the instant before. */
  lemma SweeperLagsByOne(x: Exec, now: nat, waitingAfter: nat)
    requires x.status.RUNNING? && !AnyRetrying(x.rows)
    ensures IsStale(x, now + 1, waitingAfter) <==> InFlightStatus(x.rows, now, waitingAfter) == WAITING
  {
    if IsStale(x, now + 1, waitingAfter) {
      var a :| 0 <= a < |x.rows| && x.rows[a].status.Dispatched? && x.rows[a].dispatchedAt.Some? && x.rows[a].dispatchedAt.value + waitingAfter < now + 1;
      assert Stale(x.rows[a], now, waitingAfter);
    }
    if a :| 0 <= a < |x.rows| && Stale(x.rows[a], now, waitingAfter) {
      assert x.rows[a].dispatchedAt.value + waitingAfter < now + 1;
    }
  }
}
