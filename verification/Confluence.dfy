/**
 * Confluence: results of the in-flight actions of an execution may arrive in any
 * order. What is committed in the end is the same, down to the next batch of
 * requests and their resolved params.
 */
module Confluence {
  import opened Base
  import opened Control
  import opened Progress
  import opened Store
  import opened RowInvariants
  import opened Engine
  import opened AdvanceLoop
  import opened Issues
  import opened Invariants
  import opened Transactions
  import opened Evolution
  import opened Similarity

  /** A terminal result of an action of one execution. */
  datatype Result = Result(action: nat, outcome: Outcome)

  /** Results of distinct in-flight rows. */
  predicate Awaited(db: Db, e: nat, results: seq<Result>) {
    e < |db.execs| &&
    (forall k :: 0 <= k < |results| ==> results[k].action < |db.execs[e].rows| && db.execs[e].rows[results[k].action].status.InFlight()) &&
    (forall k, l :: 0 <= k < l < |results| ==> results[k].action != results[l].action)
  }

  lemma StillDispatched(db: Db, db': Db, e: nat, a: nat)
    requires Evolves(db, db') && Exists(db.execs, e, a) && !db.execs[e].rows[a].status.Pending?
    ensures WasDispatched(db', e, a)
  {
    assert ExecEvolves(db.execs[e], db'.execs[e]);
    assert RowEvolves(db.execs[e].rows[a], db'.execs[e].rows[a]);
  }

  /** Applies results one transaction after another; `clocks` are their readings. */
  ghost function ApplyAll(env: Env, db: Db, e: nat, results: seq<Result>, clocks: seq<nat>): (db': Db)
    requires DbInv(db) && Awaited(db, e, results) && |clocks| == |results|
    ensures DbInv(db') && Evolves(db, db')
  {
    if results == [] then Reflexive(db); db else
      var n := |results| - 1;
      var db1 := ApplyAll(env, db, e, results[..n], clocks[..n]);
      StillDispatched(db, db1, e, results[n].action);
      ApplyResultKeeps(env, db1, e, results[n].action, Final(results[n].outcome), clocks[n]);
      ApplyResultEvolves(env, db1, e, results[n].action, Final(results[n].outcome), clocks[n]);
      var db' := ApplyResult(env, db1, e, results[n].action, Final(results[n].outcome), clocks[n]);
      EvolvesTransitively(db, db1, db');
      db'
  }

  // ---------------------------------------------------------------- what results do to rows

  function OutcomeFor(results: seq<Result>, a: nat): Option<Outcome> {
    if results == [] then None
    else if results[|results| - 1].action == a then Some(results[|results| - 1].outcome)
    else OutcomeFor(results[..|results| - 1], a)
  }

  lemma {:induction false} OutcomeForSpec(results: seq<Result>, a: nat)
    ensures OutcomeFor(results, a).Some? ==> Result(a, OutcomeFor(results, a).value) in results
    ensures OutcomeFor(results, a).None? ==> forall k :: 0 <= k < |results| ==> results[k].action != a
  {
    if results != [] && results[|results| - 1].action != a {
      var front := results[..|results| - 1];
      OutcomeForSpec(front, a);
      assert forall k :: 0 <= k < |front| ==> front[k] == results[k];
    }
  }

  lemma OutcomeOrderFree(results: seq<Result>, results': seq<Result>, a: nat)
    requires multiset(results) == multiset(results')
    requires forall k, l :: 0 <= k < l < |results| ==> results[k].action != results[l].action
    ensures OutcomeFor(results, a) == OutcomeFor(results', a)
  {
    OutcomeForSpec(results, a);
    OutcomeForSpec(results', a);
    assert forall r :: r in results <==> r in multiset(results);
    assert forall r :: r in results' <==> r in multiset(results');
  }

  function Mark(row: Row, outcome: Option<Outcome>): Row {
    match outcome
    case None => row
    case Some(OkResult(output)) => row.(status := Completed, output := Some(output))
    case Some(FailedResult) => row.(status := Failed)
  }

  /** The rows after `results`, up to the times the results came in. */
  predicate MarkedRows(rows: seq<Row>, results: seq<Result>, rows': seq<Row>) {
    |rows'| == |rows| && forall a :: 0 <= a < |rows| ==> SameRow(Mark(rows[a], OutcomeFor(results, a)), rows'[a])
  }

  /** The rows of a failed execution: results recorded, everything pending skipped. */
  predicate ClosedRows(rows: seq<Row>, results: seq<Result>, rows': seq<Row>) {
    |rows'| == |rows| && forall a :: 0 <= a < |rows| ==>
      SameRow(if rows[a].status.Pending? then rows[a].(status := Skipped) else Mark(rows[a], OutcomeFor(results, a)), rows'[a])
  }

  predicate AllOk(results: seq<Result>) { forall k :: 0 <= k < |results| ==> results[k].outcome.OkResult? }

  /** The first failure in order of arrival; its key is what the run reports. */
  function FirstFailure(results: seq<Result>): (k: nat)
    requires !AllOk(results)
    ensures k < |results| && results[k].outcome.FailedResult? && forall j :: 0 <= j < k ==> results[j].outcome.OkResult?
  {
    var front := results[..|results| - 1];
    assert forall j :: 0 <= j < |front| ==> front[j] == results[j];
    if AllOk(front) then |results| - 1 else FirstFailure(front)
  }

  /** The action a run gives as the reason it failed. */
  function ReasonFor(results: seq<Result>): Option<nat> { if AllOk(results) then None else Some(results[FirstFailure(results)].action) }

  predicate Remaining(rows: seq<Row>, results: seq<Result>) {
    exists a :: 0 <= a < |rows| && rows[a].status.InFlight() && OutcomeFor(results, a).None?
  }

  /** Everything but the log and execution `e` is as before; of `e` only rows and status changed. */
  predicate OnlyRun(db: Db, db': Db, e: nat) {
    db'.routines == db.routines && |db'.execs| == |db.execs| && e < |db.execs| &&
    (forall f :: 0 <= f < |db.execs| && f != e ==> db'.execs[f] == db.execs[f]) &&
    db'.execs[e].(rows := [], status := PENDING) == db.execs[e].(rows := [], status := PENDING)
  }

  predicate IsOpen(status: ExecStatus) { status.RUNNING? || status.WAITING? }

  /** Results so far were fine and others are awaited: they are recorded, nothing else happened. */
  predicate StillOpen(db: Db, db': Db, e: nat, results: seq<Result>) {
    OnlyRun(db, db', e) && db'.log == db.log && IsOpen(db'.execs[e].status) && MarkedRows(db.execs[e].rows, results, db'.execs[e].rows)
  }

  /** A result failed: the execution ended with that action's key, whatever came before or after is recorded. */
  predicate Closed(db: Db, db': Db, e: nat, results: seq<Result>, key: string) {
    OnlyRun(db, db', e) && db'.execs[e].status.FAILED? && ClosedRows(db.execs[e].rows, results, db'.execs[e].rows) &&
    db'.log == db.log + [ExecutionFailed(e, key)] + AnswerMessages(db.execs[e], FailedResult)
  }

  // ---------------------------------------------------------------- one result

  /** The result of `a` as the engine meets it: the row is in flight, in memory at `i`, and sets no variable. */
  lemma ResultMeets(db: Db, e: nat, a: nat, now: nat) returns (i: nat)
    requires DbInv(db) && Exists(db.execs, e, a) && db.execs[e].rows[a].status.InFlight()
    ensures LayoutOk(db) && TxOk(Lock(db, e, now))
    ensures var t := Lock(db, e, now);
            FindId(t.mem, a) == Some(i) && i < |t.mem| && t.mem[i] == db.execs[e].rows[a] && t.mem[i].id == a && t.mem[i].typ != VARIABLE
  {
    hide Settled, WfRows, LoopOrder, Mirror, StepSorted;
    DbInvLayout(db);
    LockOk(db, e, now);
    LockFinds(db, e, a, now);
    i := FindId(Lock(db, e, now).mem, a).value;
    assert RowIssued(db.execs, db.log, e, a);
  }

  lemma ApplyOpen(env: Env, db: Db, e: nat, a: nat, outcome: Outcome, now: nat, i: nat)
    requires LayoutOk(db) && e < |db.execs| && TxOk(Lock(db, e, now)) && IsOpen(db.execs[e].status)
    requires var t := Lock(db, e, now); FindId(t.mem, a) == Some(i) && i < |t.mem| && t.mem[i].status.InFlight()
    ensures var t1 := Record(Lock(db, e, now), i, Final(outcome));
            TxOk(t1) && ApplyResult(env, db, e, a, Final(outcome), now) == Advance(env, t1).db
  {
    hide WfRows, LoopOrder, Mirror, StepSorted, Advance, Record;
    RecordUpdates(Lock(db, e, now), i, Final(outcome));
  }

  lemma RecordedRow(t: Tx, i: nat, outcome: Outcome)
    requires t.Bounded() && i < |t.mem| && t.mem[i].typ != VARIABLE && t.Rows()[t.mem[i].id] == t.mem[i]
    ensures var t1 := Record(t, i, Final(outcome));
            t1.db == WithRows(t.db, t.e, t1.Rows()) && t1.e == t.e && t1.now == t.now && t1.loaded == t.loaded &&
            t1.Rows() == t.Rows()[t.mem[i].id := t1.Rows()[t.mem[i].id]] && SameRow(Mark(t.mem[i], Some(outcome)), t1.Rows()[t.mem[i].id]) &&
            t1.mem == t.mem[i := Mark(t.mem[i], Some(outcome))]
  {
  }

  /** What one more result finds while the execution is open. */
  lemma OpenStep(env: Env, db: Db, db1: Db, e: nat, results: seq<Result>, r: Result, now: nat) returns (t: Tx, i: nat)
    requires DbInv(db1) && e < |db.execs| && StillOpen(db, db1, e, results)
    requires r.action < |db.execs[e].rows| && db.execs[e].rows[r.action].status.InFlight() && OutcomeFor(results, r.action).None?
    ensures t == Lock(db1, e, now) && TxOk(t) && i < |t.mem| && t.mem[i].id == r.action && t.mem[i] == db1.execs[e].rows[r.action]
    ensures t.mem[i].status.InFlight() && t.mem[i].typ != VARIABLE
    ensures var t1 := Record(t, i, Final(r.outcome));
            TxOk(t1) && t1.e == e && t1.now == now && LayoutOk(db1) && ApplyResult(env, db1, e, r.action, Final(r.outcome), now) == Advance(env, t1).db &&
            OnlyRun(db, t1.db, e) && t1.db.log == db.log && t1.db.execs[e].status == db1.execs[e].status == t1.loaded &&
            MarkedRows(db.execs[e].rows, results + [r], t1.Rows())
  {
    hide DbInv, WfRows, LoopOrder, Mirror, StepSorted, Advance;
    assert SameRow(Mark(db.execs[e].rows[r.action], None), db1.execs[e].rows[r.action]);
    i := ResultMeets(db1, e, r.action, now);
    t := Lock(db1, e, now);
    ApplyOpen(env, db1, e, r.action, r.outcome, now, i);
    RecordedRow(t, i, r.outcome);
  }

  lemma NoneFailed(db: Db, e: nat)
    requires DbInv(db) && e < |db.execs| && IsOpen(db.execs[e].status)
    ensures !AnyFailed(db.execs[e].rows) && db.execs[e].startedAt.Some?
  {
    assert ExecOk(db.execs[e]);
  }

  lemma RecordDecides(t: Tx, i: nat, outcome: Outcome)
    requires TxOk(t) && i < |t.mem| && t.mem[i].status.InFlight() && !AnyFailed(t.Rows())
    ensures var t1 := Record(t, i, Final(outcome));
            if outcome.FailedResult? then DecideNext(t1.mem) == Fail(t.mem[i].key)
            else !AnyFailed(t1.mem) && (DecideNext(t1.mem).Wait? <==> AnyInFlight(t1.mem))
  {
    hide WfRows, LoopOrder, StepSorted;
    MirrorAgrees(t.mem, t.Rows());
    var t1 := Record(t, i, Final(outcome));
    if outcome.FailedResult? {
      assert t1.mem[i].status.Failed?;
      assert forall j :: 0 <= j < |t1.mem| && t1.mem[j].status.Failed? ==> j == i;
    } else {
      assert forall j :: 0 <= j < |t1.mem| ==> !t1.mem[j].status.Failed?;
    }
  }

  lemma InFlightStatusMirrors(mem: seq<Row>, rows: seq<Row>, now: nat, waitingAfter: nat)
    requires Mirror(mem, rows)
    ensures InFlightStatus(mem, now, waitingAfter) == InFlightStatus(rows, now, waitingAfter)
  {
    MirrorAgrees(mem, rows);
    forall i | 0 <= i < |mem| ensures Stale(mem[i], now, waitingAfter) == Stale(rows[mem[i].id], now, waitingAfter) {
      assert SameButTimes(mem[i], rows[mem[i].id]);
    }
    if i :| 0 <= i < |rows| && Stale(rows[i], now, waitingAfter) {
      assert Holds(mem, i);
      var j :| 0 <= j < |mem| && mem[j].id == i;
      assert Stale(mem[j], now, waitingAfter);
    }
  }

  lemma WaitKeepsOpen(env: Env, db: Db, t1: Tx, results: seq<Result>)
    requires TxOk(t1) && OnlyRun(db, t1.db, t1.e) && t1.db.log == db.log && t1.loaded == t1.db.execs[t1.e].status && Started(t1)
    requires MarkedRows(db.execs[t1.e].rows, results, t1.Rows())
    ensures var db2 := WaitForResults(env, t1).db;
            StillOpen(db, db2, t1.e, results) && db2.execs[t1.e].status == InFlightStatus(db2.execs[t1.e].rows, t1.now, env.waitingAfter)
  {
    hide WfRows, LoopOrder, StepSorted, MarkedRows, InFlightStatus;
    InFlightStatusMirrors(t1.mem, t1.Rows(), t1.now, env.waitingAfter);
    assert IsOpen(InFlightStatus(t1.mem, t1.now, env.waitingAfter)) by { StatusIsOpen(t1.mem, t1.now, env.waitingAfter); }
    var db2 := WaitForResults(env, t1).db;
    assert db2.execs[t1.e].rows == t1.Rows();
  }

  lemma StatusIsOpen(mem: seq<Row>, now: nat, waitingAfter: nat)
    ensures IsOpen(InFlightStatus(mem, now, waitingAfter))
  {
  }

  lemma AwaitedMeans(t1: Tx, rows: seq<Row>, results: seq<Result>)
    requires TxOk(t1) && MarkedRows(rows, results, t1.Rows())
    ensures AnyInFlight(t1.mem) <==> Remaining(rows, results)
  {
    hide WfRows, LoopOrder, StepSorted;
    MirrorAgrees(t1.mem, t1.Rows());
    forall a | 0 <= a < |rows| ensures t1.Rows()[a].status.InFlight() <==> rows[a].status.InFlight() && OutcomeFor(results, a).None? {
      assert SameRow(Mark(rows[a], OutcomeFor(results, a)), t1.Rows()[a]);
    }
    if AnyInFlight(t1.Rows()) {
      var a :| 0 <= a < |t1.Rows()| && t1.Rows()[a].status.InFlight();
      assert rows[a].status.InFlight() && OutcomeFor(results, a).None?;
    }
    if Remaining(rows, results) {
      var a :| 0 <= a < |rows| && rows[a].status.InFlight() && OutcomeFor(results, a).None?;
      assert t1.Rows()[a].status.InFlight();
    }
  }

  /** A good result while others are awaited is recorded and nothing else. */
  lemma OkStep(env: Env, db: Db, db1: Db, e: nat, results: seq<Result>, r: Result, now: nat)
    requires DbInv(db1) && e < |db.execs| && StillOpen(db, db1, e, results)
    requires r.action < |db.execs[e].rows| && db.execs[e].rows[r.action].status.InFlight() && OutcomeFor(results, r.action).None?
    requires r.outcome.OkResult? && Remaining(db.execs[e].rows, results + [r])
    ensures LayoutOk(db1)
    ensures var db2 := ApplyResult(env, db1, e, r.action, Final(r.outcome), now);
            StillOpen(db, db2, e, results + [r]) && db2.execs[e].status == InFlightStatus(db2.execs[e].rows, now, env.waitingAfter)
  {
    hide DbInv, WfRows, LoopOrder, Mirror, StepSorted, StillOpen, MarkedRows, Remaining, Record, DecideNext, WaitForResults;
    var t, i := OpenStep(env, db, db1, e, results, r, now);
    assert IsOpen(db1.execs[e].status) by { OpenIsOpen(db, db1, e, results); }
    NoneFailed(db1, e);
    RecordDecides(t, i, r.outcome);
    var t1 := Record(t, i, Final(r.outcome));
    AwaitedMeans(t1, db.execs[e].rows, results + [r]);
    assert Advance(env, t1) == WaitForResults(env, t1);
    assert Started(t1) by { StartedStays(db1, t, i, r.outcome); }
    WaitKeepsOpen(env, db, t1, results + [r]);
  }

  lemma OpenIsOpen(db: Db, db': Db, e: nat, results: seq<Result>)
    requires StillOpen(db, db', e, results)
    ensures e < |db'.execs| && IsOpen(db'.execs[e].status) && |db'.execs[e].rows| == |db.execs[e].rows|
  {
  }

  lemma StartedStays(db: Db, t: Tx, i: nat, outcome: Outcome)
    requires t.db == db && t.Bounded() && i < |t.mem| && db.execs[t.e].startedAt.Some?
    ensures var t1 := Record(t, i, Final(outcome)); Started(t1) && t1.e == t.e && t1.now == t.now
  {
  }

  lemma SkippedAreClosed(rows: seq<Row>, results: seq<Result>, rows1: seq<Row>)
    requires MarkedRows(rows, results, rows1) && forall a :: 0 <= a < |rows| && rows[a].status.Pending? ==> OutcomeFor(results, a).None?
    ensures ClosedRows(rows, results, SkipPendingRows(rows1))
  {
    forall a | 0 <= a < |rows|
      ensures SameRow(if rows[a].status.Pending? then rows[a].(status := Skipped) else Mark(rows[a], OutcomeFor(results, a)), SkipPendingRows(rows1)[a])
    {
      assert SameRow(Mark(rows[a], OutcomeFor(results, a)), rows1[a]);
    }
  }

  lemma FailCloses(db: Db, t1: Tx, results: seq<Result>, key: string)
    requires t1.Bounded() && OnlyRun(db, t1.db, t1.e) && t1.db.log == db.log && MarkedRows(db.execs[t1.e].rows, results, t1.Rows())
    requires forall a :: 0 <= a < |db.execs[t1.e].rows| && db.execs[t1.e].rows[a].status.Pending? ==> OutcomeFor(results, a).None?
    ensures Closed(db, FailExecution(t1, key).db, t1.e, results, key)
  {
    hide MarkedRows, ClosedRows;
    SkippedAreClosed(db.execs[t1.e].rows, results, t1.Rows());
    var db2 := FailExecution(t1, key).db;
    assert t1.db.execs[t1.e].(rows := [], status := PENDING).caller == db.execs[t1.e].(rows := [], status := PENDING).caller;
    assert db2.execs[t1.e].rows == SkipPendingRows(t1.Rows());
    assert db2.log == db.log + [ExecutionFailed(t1.e, key)] + AnswerMessages(db.execs[t1.e], FailedResult);
  }

  lemma PendingUnanswered(rows: seq<Row>, results: seq<Result>)
    requires forall k :: 0 <= k < |results| ==> results[k].action < |rows| && rows[results[k].action].status.InFlight()
    ensures forall a: nat :: OutcomeFor(results, a).Some? ==> a < |rows| && rows[a].status.InFlight()
  {
    forall a: nat | OutcomeFor(results, a).Some? ensures a < |rows| && rows[a].status.InFlight() { OutcomeForSpec(results, a); }
  }

  /** The first failure ends the execution. */
  lemma FailStep(env: Env, db: Db, db1: Db, e: nat, results: seq<Result>, r: Result, now: nat)
    requires e < |db.execs| && r.action < |db.execs[e].rows|
    requires DbInv(db1) && StillOpen(db, db1, e, results) && Awaited(db, e, results + [r]) && r.outcome.FailedResult? && OutcomeFor(results, r.action).None?
    ensures LayoutOk(db1) && Closed(db, ApplyResult(env, db1, e, r.action, Final(r.outcome), now), e, results + [r], db.execs[e].rows[r.action].key)
  {
    hide DbInv, WfRows, LoopOrder, Mirror, StepSorted, MarkedRows, Record, DecideNext, FailExecution;
    assert (results + [r])[|results|] == r;
    var t, i := OpenStep(env, db, db1, e, results, r, now);
    assert IsOpen(db1.execs[e].status) by { OpenIsOpen(db, db1, e, results); }
    NoneFailed(db1, e);
    RecordDecides(t, i, r.outcome);
    var t1 := Record(t, i, Final(r.outcome));
    assert Advance(env, t1) == FailExecution(t1, t.mem[i].key);
    PendingUnanswered(db.execs[e].rows, results + [r]);
    assert t.mem[i].key == db.execs[e].rows[r.action].key by { KeyKept(db, db1, e, results, r.action); }
    FailCloses(db, t1, results + [r], t.mem[i].key);
  }

  lemma KeyKept(db: Db, db1: Db, e: nat, results: seq<Result>, a: nat)
    requires StillOpen(db, db1, e, results) && a < |db.execs[e].rows|
    ensures a < |db1.execs[e].rows| && db1.execs[e].rows[a].key == db.execs[e].rows[a].key
  {
    assert SameRow(Mark(db.execs[e].rows[a], OutcomeFor(results, a)), db1.execs[e].rows[a]);
  }

  /** A result after the end is only recorded. */
  lemma LateStep(env: Env, db: Db, db1: Db, e: nat, results: seq<Result>, r: Result, now: nat, key: string)
    requires DbInv(db1) && Closed(db, db1, e, results, key) && Awaited(db, e, results + [r]) && OutcomeFor(results, r.action).None?
    ensures LayoutOk(db1) && Closed(db, ApplyResult(env, db1, e, r.action, Final(r.outcome), now), e, results + [r], key)
  {
    hide DbInv, WfRows, LoopOrder, Mirror, StepSorted, Record, Advance;
    assert (results + [r])[|results|] == r;
    assert SameRow(Mark(db.execs[e].rows[r.action], None), db1.execs[e].rows[r.action]);
    var i := ResultMeets(db1, e, r.action, now);
    var t := Lock(db1, e, now);
    RecordedRow(t, i, r.outcome);
    var t1 := Record(t, i, Final(r.outcome));
    assert ApplyResult(env, db1, e, r.action, Final(r.outcome), now) == t1.db;
  }

  // ---------------------------------------------------------------- all results but the deciding one

  lemma LastUnanswered(results: seq<Result>)
    requires results != [] && forall k, l :: 0 <= k < l < |results| ==> results[k].action != results[l].action
    ensures OutcomeFor(results[..|results| - 1], results[|results| - 1].action).None?
  {
    var front, r := results[..|results| - 1], results[|results| - 1];
    assert forall k :: 0 <= k < |front| ==> front[k] == results[k];
    OutcomeForSpec(front, r.action);
  }

  lemma NoResultsYet(db: Db, e: nat)
    requires e < |db.execs| && IsOpen(db.execs[e].status)
    ensures StillOpen(db, db, e, [])
  {
  }

  lemma FrontAwaited(db: Db, e: nat, results: seq<Result>)
    requires Awaited(db, e, results) && results != []
    ensures var front, r := results[..|results| - 1], results[|results| - 1];
            Awaited(db, e, front) && OutcomeFor(front, r.action).None? && Remaining(db.execs[e].rows, front) && results == front + [r]
  {
    var front, r := results[..|results| - 1], results[|results| - 1];
    assert forall k :: 0 <= k < |front| ==> front[k] == results[k];
    LastUnanswered(results);
    assert db.execs[e].rows[r.action].status.InFlight();
  }

  /** The state after any list of results that leaves something awaited, or contains a failure. */
  lemma {:induction false} AfterResults(env: Env, db: Db, e: nat, results: seq<Result>, clocks: seq<nat>)
    requires DbInv(db) && Awaited(db, e, results) && |clocks| == |results| && IsOpen(db.execs[e].status)
    ensures var db' := ApplyAll(env, db, e, results, clocks);
            (AllOk(results) && Remaining(db.execs[e].rows, results) ==>
              StillOpen(db, db', e, results) &&
              (results != [] ==> db'.execs[e].status == InFlightStatus(db'.execs[e].rows, clocks[|clocks| - 1], env.waitingAfter))) &&
            (!AllOk(results) ==> Closed(db, db', e, results, db.execs[e].rows[results[FirstFailure(results)].action].key))
  {
    hide DbInv, Evolves, StillOpen, Closed, Awaited, Remaining, InFlightStatus, OutcomeFor;
    if results == [] {
      assert e < |db.execs| by { AwaitedExists(db, e, results); }
      NoResultsYet(db, e);
    } else {
      var n := |results| - 1;
      var front, r := results[..n], results[n];
      FrontAwaited(db, e, results);
      AfterResults(env, db, e, front, clocks[..n]);
      AwaitedExists(db, e, results);
      var db1 := ApplyAll(env, db, e, front, clocks[..n]);
      assert forall k :: 0 <= k < n ==> front[k] == results[k];
      if !AllOk(front) {
        LateStep(env, db, db1, e, front, r, clocks[n], db.execs[e].rows[front[FirstFailure(front)].action].key);
      } else if r.outcome.FailedResult? {
        FailStep(env, db, db1, e, front, r, clocks[n]);
      } else if Remaining(db.execs[e].rows, results) {
        OkStep(env, db, db1, e, front, r, clocks[n]);
      }
    }
  }

  lemma AwaitedExists(db: Db, e: nat, results: seq<Result>)
    requires Awaited(db, e, results)
    ensures e < |db.execs|
    ensures forall k :: 0 <= k < |results| ==> results[k].action < |db.execs[e].rows| && db.execs[e].rows[results[k].action].status.InFlight()
  {
  }

  // ---------------------------------------------------------------- the deciding result

  /** Memory lists the same ids in the same order, whatever a run did to the rows. */
  predicate Aligned(a: seq<Row>, b: seq<Row>) {
    |a| == |b| && forall i :: 0 <= i < |a| ==> a[i].id == b[i].id && a[i].step == b[i].step && a[i].position == b[i].position
  }

  lemma {:induction false} InsertAligned(a: seq<Row>, b: seq<Row>, r: Row, r': Row)
    requires Aligned(a, b) && r.id == r'.id && r.step == r'.step && r.position == r'.position
    ensures Aligned(InsertSorted(a, r), InsertSorted(b, r'))
  {
    if a != [] && !Before(a[|a| - 1], r) {
      InsertAligned(a[..|a| - 1], b[..|b| - 1], r, r');
    }
  }

  lemma {:induction false} LoadAligned(a: seq<Row>, b: seq<Row>)
    requires Aligned(a, b)
    ensures Aligned(Load(a), Load(b))
  {
    if a != [] {
      LoadAligned(a[..|a| - 1], b[..|b| - 1]);
      InsertAligned(Load(a[..|a| - 1]), Load(b[..|b| - 1]), a[|a| - 1], b[|b| - 1]);
    }
  }

  lemma MarkedAlign(rows: seq<Row>, results: seq<Result>, rows': seq<Row>)
    requires MarkedRows(rows, results, rows')
    ensures Aligned(rows, rows')
  {
    forall a | 0 <= a < |rows| ensures rows[a].id == rows'[a].id && rows[a].step == rows'[a].step && rows[a].position == rows'[a].position {
      assert SameRow(Mark(rows[a], OutcomeFor(results, a)), rows'[a]);
    }
  }

  /** Right after the deciding result: the transaction, with memory in table order and equal to it up to that result's time. */
  predicate Decisive(db: Db, e: nat, results: seq<Result>, t1: Tx) {
    TxOk(t1) && t1.e == e && OnlyRun(db, t1.db, e) && t1.db.log == db.log && MarkedRows(db.execs[e].rows, results, t1.Rows()) && Started(t1) &&
    Aligned(Load(db.execs[e].rows), t1.mem) && (forall m :: 0 <= m < |t1.mem| ==> SameRow(t1.Rows()[t1.mem[m].id], t1.mem[m]))
  }

  lemma RecordedMemory(db1: Db, e: nat, now: nat, i: nat, outcome: Outcome)
    requires LayoutOk(db1) && e < |db1.execs| && TxOk(Lock(db1, e, now)) && i < |Lock(db1, e, now).mem| && Lock(db1, e, now).mem[i].typ != VARIABLE
    ensures var t1 := Record(Lock(db1, e, now), i, Final(outcome));
            Aligned(Load(db1.execs[e].rows), t1.mem) && t1.e == e && t1.e < |t1.db.execs| &&
            forall m :: 0 <= m < |t1.mem| ==> t1.mem[m].id < |t1.Rows()| && SameRow(t1.Rows()[t1.mem[m].id], t1.mem[m])
  {
    hide WfRows, LoopOrder, StepSorted, LayoutOk, Mirror;
    var t := Lock(db1, e, now);
    LockLists(db1, e, now, i);
    RecordedRow(t, i, outcome);
    var t1 := Record(t, i, Final(outcome));
    forall m | 0 <= m < |t1.mem| ensures t1.mem[m].id < |t1.Rows()| && SameRow(t1.Rows()[t1.mem[m].id], t1.mem[m]) {
      LockLists(db1, e, now, m);
      if m != i { DistinctIds(t, m, i); }
    }
  }

  lemma DistinctIds(t: Tx, m: nat, i: nat)
    requires TxOk(t) && m < |t.mem| && i < |t.mem| && m != i
    ensures t.mem[m].id != t.mem[i].id
  {
    hide WfRows, LoopOrder, StepSorted;
    if m < i {} else {}
  }

  lemma DecisiveStep(env: Env, db: Db, e: nat, results: seq<Result>, clocks: seq<nat>) returns (t1: Tx)
    requires DbInv(db) && Awaited(db, e, results) && |clocks| == |results| > 0 && IsOpen(db.execs[e].status) && AllOk(results)
    requires !Remaining(db.execs[e].rows, results)
    ensures Decisive(db, e, results, t1) && t1.now == clocks[|clocks| - 1] && !AnyFailed(t1.mem) && !AnyInFlight(t1.mem)
    ensures ApplyAll(env, db, e, results, clocks) == Advance(env, t1).db
  {
    hide DbInv, Evolves, WfRows, LoopOrder, Mirror, StepSorted, StillOpen, Closed, MarkedRows, Remaining, Advance, Record, DecideNext, InFlightStatus, OutcomeFor;
    var n := |results| - 1;
    var front, r := results[..n], results[n];
    FrontAwaited(db, e, results);
    assert forall k :: 0 <= k < n ==> front[k] == results[k];
    AfterResults(env, db, e, front, clocks[..n]);
    var db1 := ApplyAll(env, db, e, front, clocks[..n]);
    var t, i := OpenStep(env, db, db1, e, front, r, clocks[n]);
    OpenIsOpen(db, db1, e, front);
    NoneFailed(db1, e);
    RecordDecides(t, i, r.outcome);
    t1 := Record(t, i, Final(r.outcome));
    StartedStays(db1, t, i, r.outcome);
    AwaitedMeans(t1, db.execs[e].rows, results);
    RecordedMemory(db1, e, clocks[n], i, r.outcome);
    OpenAligns(db, db1, e, front, t1.mem);
  }

  lemma OpenAligns(db: Db, db1: Db, e: nat, results: seq<Result>, mem: seq<Row>)
    requires StillOpen(db, db1, e, results) && Aligned(Load(db1.execs[e].rows), mem)
    ensures Aligned(Load(db.execs[e].rows), mem)
  {
    hide MarkedRows;
    MarkedAlign(db.execs[e].rows, results, db1.execs[e].rows);
    LoadAligned(db.execs[e].rows, db1.execs[e].rows);
  }

  lemma SameMarks(rows: seq<Row>, results: seq<Result>, results': seq<Result>, a: seq<Row>, b: seq<Row>)
    requires MarkedRows(rows, results, a) && MarkedRows(rows, results', b)
    requires forall k :: 0 <= k < |rows| ==> OutcomeFor(results, k) == OutcomeFor(results', k)
    ensures SameRows(a, b)
  {
    forall k | 0 <= k < |rows| ensures SameRow(a[k], b[k]) {
      assert SameRow(Mark(rows[k], OutcomeFor(results, k)), a[k]) && SameRow(Mark(rows[k], OutcomeFor(results', k)), b[k]);
    }
  }

  lemma DecisiveSame(db: Db, e: nat, results: seq<Result>, results': seq<Result>, t: Tx, u: Tx)
    requires Decisive(db, e, results, t) && Decisive(db, e, results', u) && t.now == u.now
    requires forall k :: 0 <= k < |db.execs[e].rows| ==> OutcomeFor(results, k) == OutcomeFor(results', k)
    ensures SameTxs(t, u)
  {
    hide WfRows, LoopOrder, Mirror, StepSorted, MarkedRows;
    SameMarks(db.execs[e].rows, results, results', t.Rows(), u.Rows());
    forall m | 0 <= m < |t.mem| ensures SameRow(t.mem[m], u.mem[m]) {
      var id := t.mem[m].id;
      assert Load(db.execs[e].rows)[m].id == id && u.mem[m].id == id;
      assert SameRow(t.Rows()[id], u.Rows()[id]) && SameRow(t.Rows()[id], t.mem[m]) && SameRow(u.Rows()[id], u.mem[m]);
    }
  }

  // ---------------------------------------------------------------- the theorem

  /** The same log, but for which of several failed actions is named as the reason. */
  predicate SameLogUpToReason(log: seq<Message>, log': seq<Message>, e: nat) {
    |log| == |log'| &&
    forall k :: 0 <= k < |log| ==> log[k] == log'[k] || (log[k].ExecutionFailed? && log'[k].ExecutionFailed? && log[k].exec == e == log'[k].exec)
  }

  /** The same database, but for the times results came in. */
  predicate SameOutcome(d: Db, d': Db, e: nat) {
    OnlyRun(d, d', e) && SameRows(d.execs[e].rows, d'.execs[e].rows) && d.execs[e].status == d'.execs[e].status
  }

  lemma OkOrderFree(results: seq<Result>, results': seq<Result>)
    requires multiset(results) == multiset(results')
    ensures AllOk(results) == AllOk(results') && |results| == |results'|
  {
    assert |multiset(results)| == |results| && |multiset(results')| == |results'|;
    assert forall r :: r in results <==> r in multiset(results);
    assert forall r :: r in results' <==> r in multiset(results');
    if !AllOk(results) { var r :| r in results && !r.outcome.OkResult?; assert r in results'; }
    if !AllOk(results') { var r :| r in results' && !r.outcome.OkResult?; assert r in results; }
  }

  lemma BothOpen(env: Env, db: Db, d: Db, d': Db, e: nat, results: seq<Result>, results': seq<Result>, now: nat)
    requires StillOpen(db, d, e, results) && StillOpen(db, d', e, results')
    requires d.execs[e].status == InFlightStatus(d.execs[e].rows, now, env.waitingAfter) && d'.execs[e].status == InFlightStatus(d'.execs[e].rows, now, env.waitingAfter)
    requires forall k :: 0 <= k < |db.execs[e].rows| ==> OutcomeFor(results, k) == OutcomeFor(results', k)
    ensures SameOutcome(d, d', e) && d.log == d'.log
  {
    hide MarkedRows;
    SameMarks(db.execs[e].rows, results, results', d.execs[e].rows, d'.execs[e].rows);
    var a, b := d.execs[e].rows, d'.execs[e].rows;
    assert forall i :: 0 <= i < |a| ==> SameRow(a[i], b[i]) && Stale(a[i], now, env.waitingAfter) == Stale(b[i], now, env.waitingAfter);
  }

  lemma BothClosed(db: Db, d: Db, d': Db, e: nat, results: seq<Result>, results': seq<Result>, key: string, key': string)
    requires Closed(db, d, e, results, key) && Closed(db, d', e, results', key')
    requires forall k :: 0 <= k < |db.execs[e].rows| ==> OutcomeFor(results, k) == OutcomeFor(results', k)
    ensures SameOutcome(d, d', e) && SameLogUpToReason(d.log, d'.log, e) && (key == key' <==> d.log == d'.log)
  {
    assert d.log[|db.log|] == ExecutionFailed(e, key) && d'.log[|db.log|] == ExecutionFailed(e, key');
    var rows := db.execs[e].rows;
    forall k | 0 <= k < |rows| ensures SameRow(d.execs[e].rows[k], d'.execs[e].rows[k]) {
      assert SameRow(if rows[k].status.Pending? then rows[k].(status := Skipped) else Mark(rows[k], OutcomeFor(results, k)), d.execs[e].rows[k]);
      assert SameRow(if rows[k].status.Pending? then rows[k].(status := Skipped) else Mark(rows[k], OutcomeFor(results', k)), d'.execs[e].rows[k]);
    }
  }

  lemma BothDecisive(env: Env, db: Db, e: nat, results: seq<Result>, results': seq<Result>, t: Tx, u: Tx)
    requires Decisive(db, e, results, t) && Decisive(db, e, results', u) && t.now == u.now && env.waitingAfter > 0
    requires !AnyInFlight(t.mem) && !AnyInFlight(u.mem) && !AnyFailed(t.mem) && !AnyFailed(u.mem)
    requires forall k :: 0 <= k < |db.execs[e].rows| ==> OutcomeFor(results, k) == OutcomeFor(results', k)
    ensures var d, d' := Advance(env, t).db, Advance(env, u).db; SameOutcome(d, d', e) && d.log == d'.log
  {
    hide WfRows, LoopOrder, Mirror, StepSorted, MarkedRows, Advance, Aligned, OnlyRun, OutcomeFor;
    DecisiveSame(db, e, results, results', t, u);
    assert Fresh(t.mem, t.now) && Fresh(u.mem, u.now);
    AdvanceSame(env, t, u);
    AdvanceStays(env, t);
    SameCommit(Advance(env, t), Advance(env, u));
  }

  lemma SameCommit(t: Tx, u: Tx)
    requires SameTxs(t, u) && StatusOf(t) == StatusOf(u)
    ensures SameOutcome(t.db, u.db, t.e) && t.db.log == u.db.log
  {
  }

  /** A pass stays with its execution. */
  lemma {:induction false} AdvanceStays(env: Env, t: Tx)
    requires TxOk(t)
    ensures Advance(env, t).e == t.e
    decreases Measure(t.mem)
  {
    hide WfRows, LoopOrder, Mirror, StepSorted, MemAfter, SendsFit, IsBatch, RunBatch, BatchOf, BatchFailed;
    if DecideNext(t.mem).Dispatch? {
      var batch := BatchOf(t.mem, DecideNext(t.mem).keys);
      var (t1, sends) := RunBatch(env, t, batch);
      BatchProgress(env, t);
      AdvanceDispatches(env, t);
      if BatchFailed(t1.mem, batch) { AdvanceStays(env, t1); }
      else {
        AfterSendsKeeps(t1, batch, sends);
        if sends == [] { AdvanceStays(env, AfterSends(t1, sends)); }
      }
    }
  }

  /** The same database and messages, down to the reason of a failed run exactly when the same action failed first. */
  predicate SameCommitted(d: Db, d': Db, e: nat, results: seq<Result>, results': seq<Result>) {
    SameOutcome(d, d', e) && SameLogUpToReason(d.log, d'.log, e) && (ReasonFor(results) == ReasonFor(results') <==> d.log == d'.log)
  }

  /** Two lists of results with the same outcome for every action, the last one taken at the same time. */
  ghost predicate Rearranged(db: Db, e: nat, results: seq<Result>, clocks: seq<nat>, results': seq<Result>, clocks': seq<nat>) {
    DbInv(db) && Awaited(db, e, results) && Awaited(db, e, results') && IsOpen(db.execs[e].status) &&
    |clocks| == |results| == |results'| == |clocks'| > 0 && clocks[|clocks| - 1] == clocks'[|clocks'| - 1] &&
    AllOk(results) == AllOk(results') && forall k :: 0 <= k < |db.execs[e].rows| ==> OutcomeFor(results, k) == OutcomeFor(results', k)
  }

  lemma FailuresCommute(env: Env, db: Db, e: nat, results: seq<Result>, clocks: seq<nat>, results': seq<Result>, clocks': seq<nat>)
    requires Rearranged(db, e, results, clocks, results', clocks') && !AllOk(results)
    ensures SameCommitted(ApplyAll(env, db, e, results, clocks), ApplyAll(env, db, e, results', clocks'), e, results, results')
  {
    hide DbInv, Closed, StillOpen, OutcomeFor, ApplyAll, SameOutcome, SameLogUpToReason, AllOk;
    AfterResults(env, db, e, results, clocks);
    AfterResults(env, db, e, results', clocks');
    BothClosed(db, ApplyAll(env, db, e, results, clocks), ApplyAll(env, db, e, results', clocks'), e, results, results',
               db.execs[e].rows[results[FirstFailure(results)].action].key, db.execs[e].rows[results'[FirstFailure(results')].action].key);
    KeysTellRowsApart(db, e, results[FirstFailure(results)].action, results'[FirstFailure(results')].action);
  }

  lemma KeysTellRowsApart(db: Db, e: nat, a: nat, b: nat)
    requires DbInv(db) && Exists(db.execs, e, a) && Exists(db.execs, e, b)
    ensures db.execs[e].rows[a].key == db.execs[e].rows[b].key <==> a == b
  {
    hide Issued, Settled, WfRows, LoopOrder;
    assert ExecOk(db.execs[e]);
    if a < b { UniqueKeys(db.execs[e].rows, db.execs[e].authored, a, b); } else if b < a { UniqueKeys(db.execs[e].rows, db.execs[e].authored, b, a); }
  }

  lemma EarlyResultsCommute(env: Env, db: Db, e: nat, results: seq<Result>, clocks: seq<nat>, results': seq<Result>, clocks': seq<nat>)
    requires Rearranged(db, e, results, clocks, results', clocks') && AllOk(results) && Remaining(db.execs[e].rows, results)
    ensures SameCommitted(ApplyAll(env, db, e, results, clocks), ApplyAll(env, db, e, results', clocks'), e, results, results')
  {
    hide DbInv, Closed, StillOpen, OutcomeFor, ApplyAll, SameOutcome, SameLogUpToReason, AllOk, Remaining, InFlightStatus;
    RemainingOrderFree(db.execs[e].rows, results, results');
    AfterResults(env, db, e, results, clocks);
    AfterResults(env, db, e, results', clocks');
    BothOpen(env, db, ApplyAll(env, db, e, results, clocks), ApplyAll(env, db, e, results', clocks'), e, results, results', clocks[|clocks| - 1]);
    SameLog(ApplyAll(env, db, e, results, clocks).log, e);
  }

  lemma LastResultsCommute(env: Env, db: Db, e: nat, results: seq<Result>, clocks: seq<nat>, results': seq<Result>, clocks': seq<nat>)
    requires Rearranged(db, e, results, clocks, results', clocks') && AllOk(results) && !Remaining(db.execs[e].rows, results) && env.waitingAfter > 0
    ensures SameCommitted(ApplyAll(env, db, e, results, clocks), ApplyAll(env, db, e, results', clocks'), e, results, results')
  {
    hide DbInv, Decisive, OutcomeFor, ApplyAll, SameOutcome, SameLogUpToReason, AllOk, Remaining, Advance, AnyFailed, AnyInFlight;
    RemainingOrderFree(db.execs[e].rows, results, results');
    var t := DecisiveStep(env, db, e, results, clocks);
    var u := DecisiveStep(env, db, e, results', clocks');
    assert TxOk(t) && TxOk(u) by { DecisiveOk(db, e, results, t); DecisiveOk(db, e, results', u); }
    BothDecisive(env, db, e, results, results', t, u);
    SameLog(ApplyAll(env, db, e, results, clocks).log, e);
  }

  lemma DecisiveOk(db: Db, e: nat, results: seq<Result>, t: Tx)
    requires Decisive(db, e, results, t)
    ensures TxOk(t)
  {
  }

  /**
   * Terminal results of any set of in-flight actions can be applied in any order: the
   * rows, their outputs, the status, every other execution and the messages sent (so
   * the next batch and its resolved params) are the same, up to the times of the
   * results. Only the reason a run reports may depend on the order, and only when
   * several actions failed.
   */
  lemma ResultsCommute(env: Env, db: Db, e: nat, results: seq<Result>, clocks: seq<nat>, results': seq<Result>, clocks': seq<nat>)
    requires DbInv(db) && Awaited(db, e, results) && Awaited(db, e, results') && multiset(results) == multiset(results')
    requires |clocks| == |results| && |clocks'| == |results'| && (clocks != [] && clocks' != [] ==> clocks[|clocks| - 1] == clocks'[|clocks'| - 1])
    requires IsOpen(db.execs[e].status) && env.waitingAfter > 0
    ensures SameCommitted(ApplyAll(env, db, e, results, clocks), ApplyAll(env, db, e, results', clocks'), e, results, results')
  {
    hide DbInv, Remaining, SameOutcome, ApplyAll, SameLogUpToReason, AllOk, OutcomeFor;
    OkOrderFree(results, results');
    forall k | 0 <= k < |db.execs[e].rows| ensures OutcomeFor(results, k) == OutcomeFor(results', k) {
      OutcomeOrderFree(results, results', k);
    }
    if results == [] {
      NothingApplied(env, db, e, results', clocks');
      NothingApplied(env, db, e, results, clocks);
      SameLog(db.log, e);
    } else if !AllOk(results) {
      FailuresCommute(env, db, e, results, clocks, results', clocks');
    } else if Remaining(db.execs[e].rows, results) {
      EarlyResultsCommute(env, db, e, results, clocks, results', clocks');
    } else {
      LastResultsCommute(env, db, e, results, clocks, results', clocks');
    }
  }

  lemma RemainingOrderFree(rows: seq<Row>, results: seq<Result>, results': seq<Result>)
    requires forall k :: 0 <= k < |rows| ==> OutcomeFor(results, k) == OutcomeFor(results', k)
    ensures Remaining(rows, results) == Remaining(rows, results')
  {
    hide OutcomeFor;
    if Remaining(rows, results) {
      var a :| 0 <= a < |rows| && rows[a].status.InFlight() && OutcomeFor(results, a).None?;
      assert OutcomeFor(results', a).None?;
    }
    if Remaining(rows, results') {
      var a :| 0 <= a < |rows| && rows[a].status.InFlight() && OutcomeFor(results', a).None?;
      assert OutcomeFor(results, a).None?;
    }
  }

  lemma NothingApplied(env: Env, db: Db, e: nat, results: seq<Result>, clocks: seq<nat>)
    requires DbInv(db) && Awaited(db, e, results) && results == [] && clocks == []
    ensures ApplyAll(env, db, e, results, clocks) == db && SameOutcome(db, db, e)
  {
    hide DbInv;
  }

  lemma SameLog(log: seq<Message>, e: nat)
    ensures SameLogUpToReason(log, log, e)
  {
  }
}
