/**
 * The engine never looks at the time a row finished unless the row sets a
 * variable: two transactions that differ only in such times, and in the status
 * they found, commit the same.
 */
module Similarity {
  import opened Base
  import opened Templates
  import opened Control
  import opened Progress
  import opened Store
  import opened RowInvariants
  import opened Engine
  import opened AdvanceLoop

  /** Equal, but for the finishing time of a row that sets no variable. */
  predicate SameRow(a: Row, b: Row) {
    a.(finishedAt := None) == b.(finishedAt := None) && (a.typ == VARIABLE ==> a.finishedAt == b.finishedAt)
  }

  predicate SameRows(a: seq<Row>, b: seq<Row>) { |a| == |b| && forall i :: 0 <= i < |a| ==> SameRow(a[i], b[i]) }

  /** Equal, but for the status and those times. */
  predicate SameExec(x: Exec, y: Exec) { x.(rows := [], status := PENDING) == y.(rows := [], status := PENDING) && SameRows(x.rows, y.rows) }

  predicate SameDb(d: Db, d': Db, e: nat) {
    d.routines == d'.routines && d.log == d'.log && |d.execs| == |d'.execs| && e < |d.execs| &&
    (forall f :: 0 <= f < |d.execs| && f != e ==> d.execs[f] == d'.execs[f]) && SameExec(d.execs[e], d'.execs[e])
  }

  predicate SameTxs(t: Tx, u: Tx) {
    u.e == t.e && u.now == t.now && t.Bounded() && u.Bounded() && SameDb(t.db, u.db, t.e) && SameRows(t.mem, u.mem)
  }

  function StatusOf(t: Tx): ExecStatus
    requires t.Bounded()
  {
    t.db.execs[t.e].status
  }

  // ---------------------------------------------------------------- what is read from rows

  lemma {:induction false} SettersSame(a: seq<Row>, b: seq<Row>)
    requires SameRows(a, b)
    ensures SettersOf(a) == SettersOf(b)
  {
    if a != [] {
      SettersSame(a[..|a| - 1], b[..|b| - 1]);
      assert SameRow(a[|a| - 1], b[|b| - 1]);
    }
  }

  lemma {:induction false} RepetitionsSame(a: seq<Row>, b: seq<Row>, head: nat)
    requires SameRows(a, b)
    ensures RepetitionsOf(a, head) == RepetitionsOf(b, head)
  {
    if a != [] {
      RepetitionsSame(a[..|a| - 1], b[..|b| - 1], head);
      assert SameRow(a[|a| - 1], b[|b| - 1]);
    }
  }

  lemma {:induction false} OutputsSame(a: seq<Row>, b: seq<Row>, k: nat)
    requires SameRows(a, b) && k <= |a|
    ensures OutputsUpTo(a, k) == OutputsUpTo(b, k)
  {
    if k > 0 {
      OutputsSame(a, b, k - 1);
      assert SameRow(a[k - 1], b[k - 1]);
      RepetitionsSame(a, b, a[k - 1].id);
    }
  }

  lemma ScopeSame(env: Env, t: Tx, u: Tx, i: nat)
    requires SameTxs(t, u) && i < |t.mem|
    ensures ScopeFor(env, t, i) == ScopeFor(env, u, i)
  {
    SettersSame(t.mem, u.mem);
    OutputsSame(t.mem, u.mem, |t.mem|);
    assert SameRow(t.mem[i], u.mem[i]);
  }

  lemma {:induction false} FindKeySame(a: seq<Row>, b: seq<Row>, key: string)
    requires SameRows(a, b)
    ensures FindKey(a, key) == FindKey(b, key)
  {
    if a != [] {
      assert SameRow(a[0], b[0]);
      FindKeySame(a[1..], b[1..], key);
    }
  }

  lemma RunIfSame(a: seq<Row>, b: seq<Row>, runIf: RunIf)
    requires SameRows(a, b)
    ensures RunIfHolds(a, runIf) == RunIfHolds(b, runIf)
  {
    FindKeySame(a, b, runIf.action);
    var found := FindKey(a, runIf.action);
    if found.Some? { assert SameRow(a[found.value], b[found.value]); }
  }

  lemma {:induction false} PendingKeysSame(a: seq<Row>, b: seq<Row>, step: nat)
    requires SameRows(a, b)
    ensures PendingKeys(a, step) == PendingKeys(b, step)
  {
    if a != [] {
      PendingKeysSame(a[..|a| - 1], b[..|b| - 1], step);
      assert SameRow(a[|a| - 1], b[|b| - 1]);
    }
  }

  lemma DecideSame(a: seq<Row>, b: seq<Row>)
    requires SameRows(a, b)
    ensures DecideNext(a) == DecideNext(b)
  {
    if AnyFailed(a) {
    } else if !AnyInFlight(a) && AnyPending(a) {
      PendingKeysSame(a, b, MinPendingStep(a));
    }
  }

  lemma {:induction false} BatchSame(a: seq<Row>, b: seq<Row>, keys: seq<string>)
    requires SameRows(a, b)
    ensures BatchOf(a, keys) == BatchOf(b, keys)
  {
    if a != [] {
      BatchSame(a[..|a| - 1], b[..|b| - 1], keys);
      assert SameRow(a[|a| - 1], b[|b| - 1]);
    }
  }

  lemma BatchFailedSame(a: seq<Row>, b: seq<Row>, batch: seq<nat>)
    requires SameRows(a, b)
    ensures BatchFailed(a, batch) == BatchFailed(b, batch)
  {
    assert forall k :: 0 <= k < |batch| && batch[k] < |a| ==> SameRow(a[batch[k]], b[batch[k]]);
  }

  // ---------------------------------------------------------------- one row

  /** One row changed in step on both sides, in memory and in the table. */
  lemma UpdatedSame(t: Tx, u: Tx, i: nat, m: Row, m': Row, r: Row, r': Row)
    requires SameTxs(t, u) && i < |t.mem| && SameRow(m, m') && SameRow(r, r') && m.id == t.mem[i].id && m'.id == u.mem[i].id
    ensures t.mem[i].id == u.mem[i].id
    ensures SameTxs(t.(db := WithRow(t.db, t.e, t.mem[i].id, r), mem := t.mem[i := m]),
                    u.(db := WithRow(u.db, u.e, u.mem[i].id, r'), mem := u.mem[i := m']))
  {
    assert SameRow(t.mem[i], u.mem[i]);
  }

  lemma RowsMatch(t: Tx, u: Tx, i: nat)
    requires SameTxs(t, u) && i < |t.mem|
    ensures SameRow(t.mem[i], u.mem[i]) && t.mem[i].id == u.mem[i].id && SameRow(t.Rows()[t.mem[i].id], u.Rows()[u.mem[i].id])
  {
  }

  lemma SimpleSame(t: Tx, u: Tx, i: nat, output: Json)
    requires SameTxs(t, u) && i < |t.mem|
    ensures SameTxs(Skip(t, i), Skip(u, i)) && SameTxs(FailRow(t, i), FailRow(u, i)) && SameTxs(CompleteRow(t, i, output), CompleteRow(u, i, output))
  {
    hide SameRow, SameDb;
    RowsMatch(t, u, i);
    var m, m', r, r' := t.mem[i], u.mem[i], t.Rows()[t.mem[i].id], u.Rows()[u.mem[i].id];
    UpdatedSame(t, u, i, m.(status := Skipped), m'.(status := Skipped), r.(status := Skipped, finishedAt := Some(t.now)), r'.(status := Skipped, finishedAt := Some(t.now)));
    UpdatedSame(t, u, i, m.(status := Failed), m'.(status := Failed), r.(status := Failed, finishedAt := Some(t.now)), r'.(status := Failed, finishedAt := Some(t.now)));
    UpdatedSame(t, u, i, m.(status := Completed, output := Some(output)), m'.(status := Completed, output := Some(output)),
                r.(status := Completed, output := Some(output), finishedAt := Some(t.now)), r'.(status := Completed, output := Some(output), finishedAt := Some(t.now)));
  }

  lemma ChildrenSame(first: nat, head: Row, head': Row, items: seq<Json>)
    requires SameRow(head, head')
    ensures ChildRows(first, head, items) == ChildRows(first, head', items)
  {
  }

  lemma AppendedSame(t: Tx, u: Tx, children: seq<Row>)
    requires SameTxs(t, u)
    requires forall k :: 0 <= k < |children| ==> children[k].id == |t.Rows()| + k
    ensures SameTxs(t.(db := WithRows(t.db, t.e, t.Rows() + children), mem := t.mem + children),
                    u.(db := WithRows(u.db, u.e, u.Rows() + children), mem := u.mem + children))
  {
    assert SameRows(t.Rows() + children, u.Rows() + children);
    assert SameRows(t.mem + children, u.mem + children);
    var t' := t.(db := WithRows(t.db, t.e, t.Rows() + children), mem := t.mem + children);
    var u' := u.(db := WithRows(u.db, u.e, u.Rows() + children), mem := u.mem + children);
    forall i | 0 <= i < |t'.mem| ensures t'.mem[i].id < |t'.Rows()| && u'.mem[i].id < |u'.Rows()| {
      if i >= |t.mem| { assert t'.mem[i] == children[i - |t.mem|] && u'.mem[i] == children[i - |t.mem|]; }
    }
  }

  lemma ExpandSame(t: Tx, u: Tx, i: nat, items: seq<Json>)
    requires SameTxs(t, u) && i < |t.mem|
    ensures SameTxs(Expand(t, i, items), Expand(u, i, items))
  {
    hide SameRow, SameDb;
    RowsMatch(t, u, i);
    var id := t.mem[i].id;
    ChildrenSame(|t.Rows()|, t.Rows()[id], u.Rows()[id], items);
    assert |t.Rows()| == |u.Rows()| by { RowCounts(t, u); }
    var children := ChildRows(|t.Rows()|, t.Rows()[id], items);
    AppendedSame(t, u, children);
    SimpleSame(t.(db := WithRows(t.db, t.e, t.Rows() + children), mem := t.mem + children),
               u.(db := WithRows(u.db, u.e, u.Rows() + children), mem := u.mem + children), i, Obj(map["count" := Num(|items| as real)]));
  }

  lemma RowCounts(t: Tx, u: Tx)
    requires SameTxs(t, u)
    ensures |t.Rows()| == |u.Rows()| && t.db.execs[t.e].(rows := [], status := PENDING) == u.db.execs[u.e].(rows := [], status := PENDING)
    ensures t.db.routines == u.db.routines && |t.db.execs| == |u.db.execs|
  {
  }

  lemma DispatchedSame(t: Tx, u: Tx, i: nat)
    requires SameTxs(t, u) && i < |t.mem|
    ensures var id := t.mem[i].id;
            id == u.mem[i].id &&
            SameTxs(t.(db := MarkDispatched(t.db, t.e, id, t.now), mem := t.mem[i := t.mem[i].(status := Dispatched, dispatchedAt := Some(t.now))]),
                    u.(db := MarkDispatched(u.db, u.e, id, u.now), mem := u.mem[i := u.mem[i].(status := Dispatched, dispatchedAt := Some(u.now))])) &&
            SameTxs(t.(db := MarkDispatched(t.db, t.e, id, t.now)), u.(db := MarkDispatched(u.db, u.e, id, u.now)))
  {
    hide SameRow, SameDb;
    RowsMatch(t, u, i);
    var id := t.mem[i].id;
    var r, r' := t.Rows()[id].(status := Dispatched, dispatchedAt := Some(t.now)), u.Rows()[id].(status := Dispatched, dispatchedAt := Some(t.now));
    UpdatedSame(t, u, i, t.mem[i].(status := Dispatched, dispatchedAt := Some(t.now)), u.mem[i].(status := Dispatched, dispatchedAt := Some(t.now)), r, r');
    UpdatedSame(t, u, i, t.mem[i], u.mem[i], r, r');
    assert t.mem[i := t.mem[i]] == t.mem && u.mem[i := u.mem[i]] == u.mem;
  }

  lemma ScriptSame(env: Env, t: Tx, u: Tx, i: nat, params: Json)
    requires SameTxs(t, u) && i < |t.mem|
    ensures SameTxs(Script(env, t, i, params), Script(env, u, i, params))
  {
    hide SameDb;
    DispatchedSame(t, u, i);
    assert SameRow(t.mem[i], u.mem[i]);
    var id := t.mem[i].id;
    var output := Evaluate(env, t.mem[i].typ, params);
    SimpleSame(t.(db := MarkDispatched(t.db, t.e, id, t.now)), u.(db := MarkDispatched(u.db, u.e, id, u.now)), i, if output.Some? then output.value else Null);
  }

  lemma CallSame(t: Tx, u: Tx, i: nat, target: Routine, params: Json)
    requires SameTxs(t, u) && i < |t.mem|
    ensures SameTxs(Call(t, i, target, params), Call(u, i, target, params))
  {
    DispatchedSame(t, u, i);
    var id := t.mem[i].id;
    var t1 := t.(db := MarkDispatched(t.db, t.e, id, t.now), mem := t.mem[i := t.mem[i].(status := Dispatched, dispatchedAt := Some(t.now))]);
    var u1 := u.(db := MarkDispatched(u.db, u.e, id, u.now), mem := u.mem[i := u.mem[i].(status := Dispatched, dispatchedAt := Some(u.now))]);
    var input := Field(params, "input");
  }

  lemma ProcessOneSame(env: Env, t: Tx, u: Tx, i: nat)
    requires SameTxs(t, u) && i < |t.mem|
    ensures var r, r' := ProcessOne(env, t, i), ProcessOne(env, u, i);
            SameTxs(r.0, r'.0) && r.1 == r'.1
  {
    hide SameTxs, Skip, FailRow, Expand, Call, Script, RunIfHolds, ScopeFor;
    assert t.Bounded() && u.Bounded() && |t.mem| == |u.mem| && SameRow(t.mem[i], u.mem[i]) by { Matching(t, u, i); }
    var a := t.mem[i];
    SimpleSame(t, u, i, Null);
    ScopeSame(env, t, u, i);
    if a.runIf.Some? { RunIfSameIn(t, u, a.runIf.value); }
    if a.runIf.Some? && !RunIfHolds(t.mem, a.runIf.value) {
    } else if a.LoopHead() {
      match Resolve(Str(a.forEach.value), ScopeFor(env, t, i), env.render)
      case Some(Arr(items)) => ExpandSame(t, u, i, items);
      case _ =>
    } else {
      match Resolve(a.params, ScopeFor(env, t, i), env.render)
      case None =>
      case Some(params) =>
        TargetSame(t, u, params);
        var target := TargetOf(t.db, t.db.execs[t.e].owner, params);
        if target.Some? { CallSame(t, u, i, target.value, params); }
        ScriptSame(env, t, u, i, params);
    }
  }

  lemma Matching(t: Tx, u: Tx, i: nat)
    requires SameTxs(t, u) && i < |t.mem|
    ensures t.Bounded() && u.Bounded() && |t.mem| == |u.mem| && SameRow(t.mem[i], u.mem[i])
  {
  }

  lemma RunIfSameIn(t: Tx, u: Tx, runIf: RunIf)
    requires SameTxs(t, u)
    ensures RunIfHolds(t.mem, runIf) == RunIfHolds(u.mem, runIf)
  {
    RunIfSame(t.mem, u.mem, runIf);
  }

  lemma TargetSame(t: Tx, u: Tx, params: Json)
    requires SameTxs(t, u)
    ensures t.e < |t.db.execs| && u.e < |u.db.execs| && t.db.execs[t.e].depth == u.db.execs[u.e].depth
    ensures TargetOf(t.db, t.db.execs[t.e].owner, params) == TargetOf(u.db, u.db.execs[u.e].owner, params)
  {
    RowCounts(t, u);
    assert t.db.execs[t.e].(rows := [], status := PENDING).owner == u.db.execs[u.e].(rows := [], status := PENDING).owner;
    assert t.db.execs[t.e].(rows := [], status := PENDING).depth == u.db.execs[u.e].(rows := [], status := PENDING).depth;
  }

  // ---------------------------------------------------------------- a batch and its sends

  lemma {:induction false} RunBatchSame(env: Env, t: Tx, u: Tx, batch: seq<nat>)
    requires SameTxs(t, u) && forall k :: 0 <= k < |batch| ==> batch[k] < |t.mem|
    ensures var (t1, sends) := RunBatch(env, t, batch);
            var (u1, sends') := RunBatch(env, u, batch);
            SameTxs(t1, u1) && sends == sends'
  {
    hide SameDb, SameRow, ProcessOne;
    if batch != [] {
      RunBatchSame(env, t, u, batch[..|batch| - 1]);
      ProcessOneSame(env, RunBatch(env, t, batch[..|batch| - 1]).0, RunBatch(env, u, batch[..|batch| - 1]).0, batch[|batch| - 1]);
    }
  }

  lemma LoggedSame(t: Tx, u: Tx, m: Message)
    requires SameTxs(t, u)
    ensures SameTxs(t.(db := Enqueue(t.db, m)), u.(db := Enqueue(u.db, m)))
  {
  }

  lemma {:induction false} SendAllSame(t: Tx, u: Tx, sends: seq<Send>)
    requires SameTxs(t, u) && forall k :: 0 <= k < |sends| ==> sends[k].i < |t.mem|
    ensures SameTxs(SendAll(t, sends), SendAll(u, sends))
  {
    hide SameDb, SameRow;
    if sends != [] {
      var front, last := sends[..|sends| - 1], sends[|sends| - 1];
      SendAllSame(t, u, front);
      var t1, u1 := SendAll(t, front), SendAll(u, front);
      DispatchedSame(t1, u1, last.i);
      var id := t1.mem[last.i].id;
      LoggedSame(t1.(db := MarkDispatched(t1.db, t1.e, id, t1.now), mem := t1.mem[last.i := t1.mem[last.i].(status := Dispatched, dispatchedAt := Some(t1.now))]),
                 u1.(db := MarkDispatched(u1.db, u1.e, id, u1.now), mem := u1.mem[last.i := u1.mem[last.i].(status := Dispatched, dispatchedAt := Some(u1.now))]),
                 ActionRequested(t1.e, id, last.params));
    }
  }

  lemma StatusSame(t: Tx, u: Tx, status: ExecStatus)
    requires SameTxs(t, u)
    ensures var t1, u1 := t.(db := SetStatus(t.db, t.e, status, t.now)), u.(db := SetStatus(u.db, u.e, status, u.now));
            SameTxs(t1, u1) && StatusOf(t1) == status && StatusOf(u1) == status
  {
  }

  lemma AfterSendsSame(t: Tx, u: Tx, sends: seq<Send>)
    requires SameTxs(t, u) && forall k :: 0 <= k < |sends| ==> sends[k].i < |t.mem|
    ensures SameTxs(AfterSends(t, sends), AfterSends(u, sends))
    ensures StatusOf(AfterSends(t, sends)) == RUNNING && StatusOf(AfterSends(u, sends)) == RUNNING
  {
    hide SameTxs;
    assert t.Bounded() && u.Bounded() && |t.mem| == |u.mem| by { hide SameDb, SameRow; SameSizes(t, u); }
    SendAllSame(t, u, sends);
    StatusSame(SendAll(t, sends), SendAll(u, sends), RUNNING);
  }

  lemma SameSizes(t: Tx, u: Tx)
    requires SameTxs(t, u)
    ensures t.Bounded() && u.Bounded() && |t.mem| == |u.mem| && t.e == u.e && t.now == u.now
  {
  }

  // ---------------------------------------------------------------- the ends of a pass

  /** What is in flight was dispatched in this very transaction. */
  predicate Fresh(mem: seq<Row>, now: nat) {
    forall i :: 0 <= i < |mem| && mem[i].status.InFlight() ==> mem[i].status.Dispatched? && mem[i].dispatchedAt == Some(now)
  }

  predicate Started(t: Tx) { t.e < |t.db.execs| && t.db.execs[t.e].startedAt.Some? }

  lemma ReportedSame(t: Tx, u: Tx, outcome: Outcome)
    requires SameTxs(t, u)
    ensures var t1, u1 := t.(db := ReportToCaller(t.db, t.e, outcome)), u.(db := ReportToCaller(u.db, u.e, outcome));
            SameTxs(t1, u1) && StatusOf(t1) == StatusOf(t) && StatusOf(u1) == StatusOf(u)
  {
    assert t.db.execs[t.e].(rows := [], status := PENDING).caller == u.db.execs[u.e].(rows := [], status := PENDING).caller;
  }

  lemma CompleteSame(env: Env, t: Tx, u: Tx)
    requires SameTxs(t, u)
    ensures SameTxs(CompleteExecution(env, t), CompleteExecution(env, u)) && StatusOf(CompleteExecution(env, t)) == StatusOf(CompleteExecution(env, u))
  {
    hide SameDb, SameRow;
    SettersSame(t.mem, u.mem);
    StatusSame(t, u, COMPLETED);
    var t1, u1 := t.(db := SetStatus(t.db, t.e, COMPLETED, t.now)), u.(db := SetStatus(u.db, u.e, COMPLETED, u.now));
    LoggedSame(t1, u1, ExecutionCompleted(t.e));
    ReportedSame(t1.(db := Enqueue(t1.db, ExecutionCompleted(t.e))), u1.(db := Enqueue(u1.db, ExecutionCompleted(t.e))),
                 OkResult(SubRoutineOutput(env, t.e, t.mem)));
  }

  lemma SkippedSame(t: Tx, u: Tx)
    requires SameTxs(t, u)
    ensures SameTxs(t.(db := SkipPending(t.db, t.e)), u.(db := SkipPending(u.db, u.e)))
  {
    assert SameRows(SkipPendingRows(t.Rows()), SkipPendingRows(u.Rows())) by {
      assert forall i :: 0 <= i < |t.Rows()| ==> SameRow(t.Rows()[i], u.Rows()[i]);
    }
  }

  lemma FailSame(t: Tx, u: Tx, key: string)
    requires SameTxs(t, u)
    ensures SameTxs(FailExecution(t, key), FailExecution(u, key)) && StatusOf(FailExecution(t, key)) == StatusOf(FailExecution(u, key))
  {
    hide SameDb, SameRow;
    SkippedSame(t, u);
    var t0, u0 := t.(db := SkipPending(t.db, t.e)), u.(db := SkipPending(u.db, u.e));
    StatusSame(t0, u0, FAILED);
    var t1, u1 := t0.(db := SetStatus(t0.db, t.e, FAILED, t.now)), u0.(db := SetStatus(u0.db, u.e, FAILED, u.now));
    LoggedSame(t1, u1, ExecutionFailed(t.e, key));
    ReportedSame(t1.(db := Enqueue(t1.db, ExecutionFailed(t.e, key))), u1.(db := Enqueue(u1.db, ExecutionFailed(t.e, key))), FailedResult);
  }

  lemma WaitSame(env: Env, t: Tx, u: Tx)
    requires SameTxs(t, u) && Fresh(t.mem, t.now) && Fresh(u.mem, u.now) && env.waitingAfter > 0 && Started(t) && Started(u)
    requires StatusOf(t) == RUNNING && StatusOf(u) == RUNNING
    ensures SameTxs(WaitForResults(env, t), WaitForResults(env, u)) && StatusOf(WaitForResults(env, t)) == StatusOf(WaitForResults(env, u))
  {
    assert WaitForResults(env, t).db.execs == t.db.execs && WaitForResults(env, u).db.execs == u.db.execs;
  }

  // ---------------------------------------------------------------- freshness

  lemma ProcessOneFresh(env: Env, t: Tx, i: nat)
    requires t.Bounded() && i < |t.mem| && Fresh(t.mem, t.now) && !t.mem[i].status.InFlight()
    ensures Fresh(ProcessOne(env, t, i).0.mem, t.now) && ProcessOne(env, t, i).0.now == t.now
    ensures ProcessOne(env, t, i).0.e == t.e && (Started(t) ==> Started(ProcessOne(env, t, i).0))
  {
    hide Resolve, Scope, Evaluate, TargetOf, RunIfHolds;
  }

  lemma {:induction false} RunBatchFresh(env: Env, t: Tx, s: nat, batch: seq<nat>, k: nat)
    requires TxOk(t) && IsBatch(t.mem, s, batch) && k <= |batch| && Fresh(t.mem, t.now)
    ensures var t1 := RunBatch(env, t, batch[..k]).0;
            Fresh(t1.mem, t.now) && t1.now == t.now && (Started(t) ==> Started(t1))
  {
    hide WfRows, LoopOrder, Mirror, StepSorted, MemAfter, SendsFit, ProcessOne;
    if k > 0 {
      var done, i := batch[..k - 1], batch[k - 1];
      assert batch[..k][..k - 1] == done && batch[..k][|batch[..k]| - 1] == i;
      RunBatchFresh(env, t, s, batch, k - 1);
      RunBatchKeeps(env, t, s, batch, k - 1);
      var (t1, sends) := RunBatch(env, t, done);
      NextRowReady(t.mem, t1.mem, s, batch, k, sends);
      ProcessOneFresh(env, t1, i);
    }
  }

  lemma {:induction false} SendAllStarted(t: Tx, sends: seq<Send>)
    requires t.Bounded() && forall k :: 0 <= k < |sends| ==> sends[k].i < |t.mem|
    ensures SendAll(t, sends).e == t.e && (Started(t) ==> Started(SendAll(t, sends)))
  {
    if sends != [] { SendAllStarted(t, sends[..|sends| - 1]); }
  }

  lemma FreshAfterSends(t1: Tx, batch: seq<nat>, sends: seq<Send>)
    requires TxOk(t1) && SendsFit(t1.mem, batch, sends) && Fresh(t1.mem, t1.now)
    ensures var t2 := AfterSends(t1, sends); Fresh(t2.mem, t2.now) && (Started(t1) ==> Started(t2))
  {
    hide WfRows, LoopOrder, Mirror, StepSorted, ToSend;
    AfterSendsKeeps(t1, batch, sends);
    SendAllStarted(t1, sends);
  }

  // ---------------------------------------------------------------- the pass

  ghost predicate Alike(env: Env, t: Tx, u: Tx) {
    TxOk(t) && TxOk(u) && SameTxs(t, u) && Started(t) && Started(u) && Fresh(t.mem, t.now) && Fresh(u.mem, u.now) && env.waitingAfter > 0 &&
    (DecideNext(t.mem).Wait? ==> StatusOf(t) == RUNNING && StatusOf(u) == RUNNING)
  }

  /** Alike transactions stay alike through a dispatch iteration. */
  lemma DispatchAlike(env: Env, t: Tx, u: Tx)
    requires Alike(env, t, u) && DecideNext(t.mem).Dispatch?
    ensures DecideNext(u.mem) == DecideNext(t.mem)
    ensures var batch := BatchOf(t.mem, DecideNext(t.mem).keys);
            var (t1, sends) := RunBatch(env, t, batch);
            var (u1, sends') := RunBatch(env, u, batch);
            BatchOf(u.mem, DecideNext(u.mem).keys) == batch && sends' == sends && BatchFailed(u1.mem, batch) == BatchFailed(t1.mem, batch) &&
            if BatchFailed(t1.mem, batch) then Alike(env, t1, u1)
            else Alike(env, AfterSends(t1, sends), AfterSends(u1, sends)) &&
                 StatusOf(AfterSends(t1, sends)) == StatusOf(AfterSends(u1, sends)) == RUNNING
  {
    hide WfRows, LoopOrder, Mirror, StepSorted, MemAfter, SameDb, SameRow, RunBatch, Fresh, Started, AfterSends;
    DecideSame(t.mem, u.mem);
    BatchSame(t.mem, u.mem, DecideNext(t.mem).keys);
    var batch := BatchOf(t.mem, DecideNext(t.mem).keys);
    RunBatchSame(env, t, u, batch);
    var (t1, sends) := RunBatch(env, t, batch);
    var (u1, sends') := RunBatch(env, u, batch);
    BatchProgress(env, t);
    BatchProgress(env, u);
    assert batch[..|batch|] == batch;
    RunBatchFresh(env, t, DecideNext(t.mem).step, batch, |batch|);
    RunBatchFresh(env, u, DecideNext(u.mem).step, batch, |batch|);
    BatchFailedSame(t1.mem, u1.mem, batch);
    if BatchFailed(t1.mem, batch) {
      BatchFailureDecides(t1.mem, batch);
    } else {
      AfterSendsSame(t1, u1, sends);
      AfterSendsKeeps(t1, batch, sends);
      AfterSendsKeeps(u1, batch, sends);
      FreshAfterSends(t1, batch, sends);
      FreshAfterSends(u1, batch, sends);
    }
  }

  lemma BatchFailureDecides(mem: seq<Row>, batch: seq<nat>)
    requires BatchFailed(mem, batch)
    ensures DecideNext(mem).Fail?
  {
  }

  /** A pass does not depend on finishing times of rows that set no variable, nor on the status it was opened with. */
  lemma {:induction false} AdvanceSame(env: Env, t: Tx, u: Tx)
    requires Alike(env, t, u)
    ensures SameTxs(Advance(env, t), Advance(env, u)) && StatusOf(Advance(env, t)) == StatusOf(Advance(env, u))
    decreases Measure(t.mem)
  {
    hide WfRows, LoopOrder, Mirror, StepSorted, SameTxs, RunBatch, Fresh, Started, AfterSends, BatchFailed, BatchOf, StatusOf, Advance, DecideNext;
    if DecideNext(t.mem).Dispatch? {
      DispatchAlike(env, t, u);
      AdvanceDispatches(env, t);
      AdvanceDispatches(env, u);
      var batch := BatchOf(t.mem, DecideNext(t.mem).keys);
      var (t1, sends) := RunBatch(env, t, batch);
      var (u1, sends') := RunBatch(env, u, batch);
      if BatchFailed(t1.mem, batch) {
        AdvanceSame(env, t1, u1);
      } else if sends == [] {
        AdvanceSame(env, AfterSends(t1, sends), AfterSends(u1, sends));
      }
    } else {
      EndSame(env, t, u);
    }
  }

  lemma EndSame(env: Env, t: Tx, u: Tx)
    requires Alike(env, t, u) && !DecideNext(t.mem).Dispatch?
    ensures SameTxs(Advance(env, t), Advance(env, u)) && StatusOf(Advance(env, t)) == StatusOf(Advance(env, u))
  {
    hide WfRows, LoopOrder, Mirror, StepSorted, SameDb, SameRow, CompleteExecution, FailExecution, WaitForResults, StatusOf;
    DecideSame(t.mem, u.mem);
    match DecideNext(t.mem)
    case Complete => CompleteSame(env, t, u);
    case Fail(failedKey) => FailSame(t, u, failedKey);
    case Wait => WaitSame(env, t, u);
  }
}
