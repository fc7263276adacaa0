/**
 * What has been issued: which messages are in the outbox log and which calls were
 * started, tied to the statuses of rows and executions. Each identity is logged at
 * most once, and exactly when the status says so.
 */
module Issues {
  import opened Base
  import opened Control
  import opened Progress
  import opened Store
  import opened Engine
  import opened AdvanceLoop

  /** What a message is about, payload aside. */
  datatype MsgId = TriggerOf(exec: nat) | RequestOf(exec: nat, action: nat) | AnswerTo(exec: nat, action: nat) | EndOf(exec: nat)

  function IdOf(m: Message): MsgId {
    match m
    case RoutineTriggered(e) => TriggerOf(e)
    case ActionRequested(e, a, _) => RequestOf(e, a)
    case ActionResult(e, a, _) => AnswerTo(e, a)
    case ExecutionCompleted(e) => EndOf(e)
    case ExecutionFailed(e, _) => EndOf(e)
  }

  predicate Logged(log: seq<Message>, id: MsgId) { exists k :: 0 <= k < |log| && IdOf(log[k]) == id }

  predicate LogUnique(log: seq<Message>) { forall i, j :: 0 <= i < j < |log| ==> IdOf(log[i]) != IdOf(log[j]) }

  /** Some execution was started by this row. */
  predicate Called(execs: seq<Exec>, e: nat, a: nat) { exists c :: 0 <= c < |execs| && execs[c].caller == Some(Caller(e, a)) }

  predicate Exists(execs: seq<Exec>, e: nat, a: nat) { e < |execs| && a < |execs[e].rows| }

  predicate InRange(execs: seq<Exec>, id: MsgId) {
    match id
    case TriggerOf(e) => e < |execs|
    case RequestOf(e, a) => Exists(execs, e, a)
    case AnswerTo(e, a) => Called(execs, e, a)
    case EndOf(e) => e < |execs|
  }

  /** A row not yet dispatched has issued nothing; one in flight has issued exactly what its type calls for. */
  predicate RowIssued(execs: seq<Exec>, log: seq<Message>, e: nat, a: nat)
    requires Exists(execs, e, a)
  {
    var row := execs[e].rows[a];
    ((row.status.Pending? || row.status.Skipped?) ==> !Logged(log, RequestOf(e, a)) && !Called(execs, e, a)) &&
    (row.status.InFlight() ==>
      (!row.LoopHead() && if row.typ == ROUTINE_RUN then Called(execs, e, a) else IsWorker(row.typ) && Logged(log, RequestOf(e, a)))) &&
    (Logged(log, RequestOf(e, a)) ==> IsWorker(row.typ) && !row.LoopHead()) &&
    (Called(execs, e, a) ==> row.typ == ROUTINE_RUN && !row.LoopHead())
  }

  /** Triggered once, ended exactly when terminal, and a called run answers exactly when terminal. */
  predicate ExecIssued(execs: seq<Exec>, log: seq<Message>, e: nat)
    requires e < |execs|
  {
    var x := execs[e];
    Logged(log, TriggerOf(e)) &&
    (Logged(log, EndOf(e)) <==> x.status.Terminal()) &&
    x.depth <= MAX_CALL_DEPTH &&
    (x.caller.None? ==> x.depth == 0) &&
    (x.caller.Some? ==>
      var c := x.caller.value;
      c.exec < e && Exists(execs, c.exec, c.action) && x.depth == execs[c.exec].depth + 1 &&
      (Logged(log, AnswerTo(c.exec, c.action)) <==> x.status.Terminal()))
  }

  predicate CallersUnique(execs: seq<Exec>) {
    forall c, d :: 0 <= c < d < |execs| && execs[c].caller.Some? ==> execs[c].caller != execs[d].caller
  }

  ghost predicate Issued(execs: seq<Exec>, log: seq<Message>) {
    LogUnique(log) && CallersUnique(execs) &&
    (forall k :: 0 <= k < |log| ==> InRange(execs, IdOf(log[k]))) &&
    (forall e: nat, a: nat :: Exists(execs, e, a) ==> RowIssued(execs, log, e, a)) &&
    (forall e: nat :: e < |execs| ==> ExecIssued(execs, log, e))
  }

  // ---------------------------------------------------------------- what an append changes

  lemma LoggedAppend(log: seq<Message>, m: Message)
    ensures forall id :: Logged(log + [m], id) <==> Logged(log, id) || IdOf(m) == id
  {
    var log' := log + [m];
    forall id ensures Logged(log', id) <==> Logged(log, id) || IdOf(m) == id {
      if Logged(log, id) {
        var k :| 0 <= k < |log| && IdOf(log[k]) == id;
        assert IdOf(log'[k]) == id;
      }
      if IdOf(m) == id { assert IdOf(log'[|log|]) == id; }
    }
  }

  lemma CalledAppend(execs: seq<Exec>, x: Exec)
    ensures forall e, a :: Called(execs + [x], e, a) <==> Called(execs, e, a) || x.caller == Some(Caller(e, a))
  {
    var execs' := execs + [x];
    forall e, a ensures Called(execs', e, a) <==> Called(execs, e, a) || x.caller == Some(Caller(e, a)) {
      if Called(execs, e, a) {
        var c :| 0 <= c < |execs| && execs[c].caller == Some(Caller(e, a));
        assert execs'[c].caller == Some(Caller(e, a));
      }
      if x.caller == Some(Caller(e, a)) { assert execs'[|execs|].caller == Some(Caller(e, a)); }
    }
  }

  lemma CalledUpdate(execs: seq<Exec>, e: nat, x: Exec)
    requires e < |execs| && x.caller == execs[e].caller
    ensures forall f, a :: Called(execs[e := x], f, a) <==> Called(execs, f, a)
  {
    var execs' := execs[e := x];
    assert forall c :: 0 <= c < |execs| ==> execs'[c].caller == execs[c].caller;
    forall f, a ensures Called(execs', f, a) <==> Called(execs, f, a) {
      if Called(execs, f, a) {
        var c :| 0 <= c < |execs| && execs[c].caller == Some(Caller(f, a));
        assert execs'[c].caller == Some(Caller(f, a));
      }
    }
  }

  lemma AppendUnique(log: seq<Message>, m: Message)
    requires LogUnique(log) && !Logged(log, IdOf(m))
    ensures LogUnique(log + [m])
  {
  }

  // ---------------------------------------------------------------- the moves

  /** A row may leave Pending or finish, but only a dispatch puts it in flight. */
  predicate RowMove(r: Row, r': Row) {
    StaticSame(r, r') && (r'.status.InFlight() ==> r.status.InFlight()) &&
    ((r'.status.Pending? || r'.status.Skipped?) ==> (r.status.Pending? || r.status.Skipped?))
  }

  predicate RowMoves(rows: seq<Row>, rows': seq<Row>) {
    |rows'| >= |rows| && (forall a :: 0 <= a < |rows| ==> RowMove(rows[a], rows'[a])) &&
    (forall a :: |rows| <= a < |rows'| ==> rows'[a].status.Pending?)
  }

  /** Same execution apart from status, start time and rows. */
  predicate SameHeader(x: Exec, x': Exec) {
    x'.(status := PENDING, startedAt := None, rows := []) == x.(status := PENDING, startedAt := None, rows := [])
  }

  /** Moving rows without issuing anything. */
  lemma MoveRows(execs: seq<Exec>, log: seq<Message>, e: nat, x': Exec)
    requires Issued(execs, log) && e < |execs| && SameHeader(execs[e], x')
    requires RowMoves(execs[e].rows, x'.rows) && x'.status.Terminal() == execs[e].status.Terminal()
    ensures Issued(execs[e := x'], log)
  {
    var execs' := execs[e := x'];
    CalledUpdate(execs, e, x');
    assert forall f: nat, a: nat :: Exists(execs, f, a) ==> Exists(execs', f, a);
    forall k | 0 <= k < |log| ensures InRange(execs', IdOf(log[k])) {
      assert InRange(execs, IdOf(log[k]));
    }
    forall f: nat, a: nat | Exists(execs', f, a) ensures RowIssued(execs', log, f, a) {
      if Exists(execs, f, a) {
        assert RowIssued(execs, log, f, a);
        if f == e { assert RowMove(execs[e].rows[a], x'.rows[a]); }
      } else {
        assert f == e && x'.rows[a].status.Pending?;
        NotYet(execs, log, f, a);
      }
    }
    forall f: nat | f < |execs'| ensures ExecIssued(execs', log, f) {
      assert ExecIssued(execs, log, f);
    }
  }

  /** Nothing was issued for a row that does not exist. */
  lemma NotYet(execs: seq<Exec>, log: seq<Message>, e: nat, a: nat)
    requires Issued(execs, log) && !Exists(execs, e, a)
    ensures !Logged(log, RequestOf(e, a)) && !Called(execs, e, a)
  {
    assert forall k :: 0 <= k < |log| ==> InRange(execs, IdOf(log[k]));
    assert forall c: nat :: c < |execs| && execs[c].caller == Some(Caller(e, a)) ==> ExecIssued(execs, log, c);
  }

  /** Handing a pending worker row to the broker: one request, never issued before. */
  lemma IssueRequest(execs: seq<Exec>, log: seq<Message>, e: nat, a: nat, row: Row, params: Json)
    requires Issued(execs, log) && Exists(execs, e, a) && execs[e].rows[a].status.Pending?
    requires IsWorker(row.typ) && !row.LoopHead() && StaticSame(execs[e].rows[a], row) && row.status.Dispatched?
    ensures Issued(execs[e := execs[e].(rows := execs[e].rows[a := row])], log + [ActionRequested(e, a, params)])
  {
    var x' := execs[e].(rows := execs[e].rows[a := row]);
    var execs', m := execs[e := x'], ActionRequested(e, a, params);
    var log' := log + [m];
    CalledUpdate(execs, e, x');
    LoggedAppend(log, m);
    assert RowIssued(execs, log, e, a);
    AppendUnique(log, m);
    assert forall f: nat, b: nat :: Exists(execs', f, b) <==> Exists(execs, f, b);
    forall k | 0 <= k < |log'| ensures InRange(execs', IdOf(log'[k])) {
      if k < |log| { assert log'[k] == log[k] && InRange(execs, IdOf(log[k])); }
    }
    forall f: nat, b: nat | Exists(execs', f, b) ensures RowIssued(execs', log', f, b) {
      assert RowIssued(execs, log, f, b);
    }
    forall f: nat | f < |execs'| ensures ExecIssued(execs', log', f) {
      assert ExecIssued(execs, log, f);
    }
  }

  /** Nobody answered, ended or called an execution that does not exist yet. */
  lemma NoTrace(execs: seq<Exec>, log: seq<Message>)
    requires Issued(execs, log)
    ensures !Logged(log, TriggerOf(|execs|)) && !Logged(log, EndOf(|execs|))
    ensures forall e: nat, a: nat :: !Called(execs, e, a) ==> !Logged(log, AnswerTo(e, a))
    ensures forall a: nat :: !Called(execs, |execs|, a) && !Logged(log, RequestOf(|execs|, a))
  {
    assert forall k :: 0 <= k < |log| ==> InRange(execs, IdOf(log[k]));
    forall a: nat ensures !Called(execs, |execs|, a) && !Logged(log, RequestOf(|execs|, a)) {
      NotYet(execs, log, |execs|, a);
    }
  }

  /** A new execution, possibly called by a row that has not called before, with its trigger message. */
  lemma IssueExecution(execs: seq<Exec>, log: seq<Message>, x: Exec)
    requires Issued(execs, log) && x.status.PENDING? && (forall i :: 0 <= i < |x.rows| ==> x.rows[i].status.Pending?)
    requires x.depth <= MAX_CALL_DEPTH && (x.caller.None? ==> x.depth == 0)
    requires x.caller.Some? ==>
      var c := x.caller.value;
      Exists(execs, c.exec, c.action) && x.depth == execs[c.exec].depth + 1 && !Called(execs, c.exec, c.action) &&
      execs[c.exec].rows[c.action].typ == ROUTINE_RUN && !execs[c.exec].rows[c.action].LoopHead() &&
      !execs[c.exec].rows[c.action].status.Pending? && !execs[c.exec].rows[c.action].status.Skipped?
    ensures Issued(execs + [x], log + [RoutineTriggered(|execs|)])
  {
    var n, m := |execs|, RoutineTriggered(|execs|);
    var execs', log' := execs + [x], log + [m];
    CalledAppend(execs, x);
    LoggedAppend(log, m);
    NoTrace(execs, log);
    AppendUnique(log, m);
    assert forall e: nat :: e < n ==> execs'[e] == execs[e];
    assert CallersUnique(execs') by {
      assert forall c: nat :: c < n && x.caller.Some? && execs[c].caller == x.caller ==> Called(execs, x.caller.value.exec, x.caller.value.action);
    }
    forall k | 0 <= k < |log'| ensures InRange(execs', IdOf(log'[k])) {
      if k < |log| { assert log'[k] == log[k] && InRange(execs, IdOf(log[k])); }
    }
    forall e: nat, a: nat | Exists(execs', e, a) ensures RowIssued(execs', log', e, a) {
      if e < n { assert RowIssued(execs, log, e, a); }
    }
    forall e: nat | e < |execs'| ensures ExecIssued(execs', log', e) {
      if e < n { assert ExecIssued(execs, log, e); }
    }
  }

  /** A routine.run row is dispatched by starting its execution. */
  lemma IssueCall(execs: seq<Exec>, log: seq<Message>, e: nat, a: nat, row: Row, x: Exec)
    requires Issued(execs, log) && Exists(execs, e, a) && execs[e].rows[a].status.Pending?
    requires row.typ == ROUTINE_RUN && !row.LoopHead() && StaticSame(execs[e].rows[a], row) && row.status.Dispatched?
    requires x.caller == Some(Caller(e, a)) && x.depth == execs[e].depth + 1 && x.depth <= MAX_CALL_DEPTH
    requires x.status.PENDING? && forall i :: 0 <= i < |x.rows| ==> x.rows[i].status.Pending?
    ensures Issued(execs[e := execs[e].(rows := execs[e].rows[a := row])] + [x], log + [RoutineTriggered(|execs|)])
  {
    // first the row finishes as if by a move, then the execution appears, then the row is put in flight
    var x1 := execs[e].(rows := execs[e].rows[a := row.(status := Failed)]);
    assert RowIssued(execs, log, e, a);
    MoveRows(execs, log, e, x1);
    var execs1 := execs[e := x1];
    CalledUpdate(execs, e, x1);
    IssueExecution(execs1, log, x);
    var execs2, log' := execs1 + [x], log + [RoutineTriggered(|execs|)];
    var x' := execs[e].(rows := execs[e].rows[a := row]);
    var execs' := execs2[e := x'];
    assert execs' == execs[e := x'] + [x];
    CalledUpdate(execs2, e, x');
    CalledAppend(execs1, x);
    assert Called(execs', e, a);
    assert forall f: nat, b: nat :: Exists(execs', f, b) <==> Exists(execs2, f, b);
    forall k | 0 <= k < |log'| ensures InRange(execs', IdOf(log'[k])) {
      assert InRange(execs2, IdOf(log'[k]));
    }
    forall f: nat, b: nat | Exists(execs', f, b) ensures RowIssued(execs', log', f, b) {
      assert RowIssued(execs2, log', f, b);
    }
    forall f: nat | f < |execs'| ensures ExecIssued(execs', log', f) {
      assert ExecIssued(execs2, log', f);
    }
  }

  function AnswerMessages(x: Exec, outcome: Outcome): seq<Message> {
    match x.caller
    case None => []
    case Some(c) => [ActionResult(c.exec, c.action, outcome)]
  }

  /** An execution ends: one end event, and one answer if it was called. */
  lemma IssueEnd(execs: seq<Exec>, log: seq<Message>, e: nat, x': Exec, end: Message, outcome: Outcome)
    requires Issued(execs, log) && e < |execs| && !execs[e].status.Terminal() && x'.status.Terminal()
    requires SameHeader(execs[e], x') && x'.rows == execs[e].rows && IdOf(end) == EndOf(e)
    ensures Issued(execs[e := x'], log + [end] + AnswerMessages(x', outcome))
  {
    hide RowIssued;
    var execs' := execs[e := x'];
    var log1 := log + [end];
    CalledUpdate(execs, e, x');
    LoggedAppend(log, end);
    assert ExecIssued(execs, log, e);
    AppendUnique(log, end);
    var log' := log1 + AnswerMessages(x', outcome);
    if x'.caller.Some? {
      var c := x'.caller.value;
      var answer := ActionResult(c.exec, c.action, outcome);
      LoggedAppend(log1, answer);
      AppendUnique(log1, answer);
      assert execs'[e].caller == Some(Caller(c.exec, c.action));
    } else {
      assert log' == log1;
    }
    assert forall f: nat, b: nat :: Exists(execs', f, b) <==> Exists(execs, f, b);
    forall k | 0 <= k < |log'| ensures InRange(execs', IdOf(log'[k])) {
      if k < |log| { assert log'[k] == log[k] && InRange(execs, IdOf(log[k])); }
    }
    forall f: nat, b: nat | Exists(execs', f, b) ensures RowIssued(execs', log', f, b) {
      EndedRowIssued(execs, log, e, x', log', f, b);
    }
    forall f: nat | f < |execs'| ensures ExecIssued(execs', log', f) {
      assert ExecIssued(execs, log, f);
    }
  }

  lemma EndedRowIssued(execs: seq<Exec>, log: seq<Message>, e: nat, x': Exec, log': seq<Message>, f: nat, b: nat)
    requires Issued(execs, log) && e < |execs| && SameHeader(execs[e], x') && x'.rows == execs[e].rows
    requires Exists(execs[e := x'], f, b) && (Logged(log', RequestOf(f, b)) <==> Logged(log, RequestOf(f, b)))
    ensures RowIssued(execs[e := x'], log', f, b)
  {
    hide Logged, Called;
    CalledUpdate(execs, e, x');
    assert RowIssued(execs, log, f, b);
  }
}
