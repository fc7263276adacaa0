/**
 * What is asked of workers: every ActionRequested a run ever logs carries the params of
 * its action with all templates resolved at the action's turn, and every action ready
 * for a worker is asked for, unless its execution fails.
 */
module Requests {
  import opened Base
  import opened Templates
  import opened Control
  import opened Progress
  import opened Store
  import opened RowInvariants
  import opened Engine
  import opened AdvanceLoop
  import opened Invariants
  import opened Transactions
  import opened Evolution
  import opened Network
  import opened Soundness
  import opened Outcomes
  import opened Turns

  /** At this turn a worker action is ready to be sent with these params. */
  predicate Ready(env: Env, u: Turn, params: Json)
    requires u.Ok()
  {
    Goes(u) && !u.Row().LoopHead() && IsWorker(u.Row().typ) && Params(env, u) == Some(params)
  }

  /** The engine means to send exactly what is ready. */
  lemma ReadyIsSent(env: Env, t: Tx, i: nat, params: Json)
    requires TxOk(t) && i < |t.mem|
    ensures TurnOf(env, t, i).Ok() && (Ready(env, TurnOf(env, t, i), params) <==> ProcessOne(env, t, i).1 == Some(params))
  {
    hide WfRows, LoopOrder, StepSorted, Mirror, Resolve, Scope, Skip, FailRow, Expand, Call, Script, TargetOf, Evaluate, Gave, RunIfHolds;
    TurnIsOk(env, t, i);
    RowInMemory(t, i);
    if t.mem[i].runIf.Some? { HoldsIfGave(t, t.mem[i].runIf.value); }
  }

  // ---------------------------------------------------------------- a batch

  /** Row `batch[j]` was to be sent, as `s` says, at its turn. */
  predicate SentAt(env: Env, t: Tx, batch: seq<nat>, j: nat, s: Send)
    requires t.Bounded() && (forall k :: 0 <= k < |batch| ==> batch[k] < |t.mem|) && j < |batch|
  {
    batch[j] == s.i && ProcessOne(env, RunBatch(env, t, batch[..j]).0, batch[j]).1 == Some(s.params)
  }

  /** The sends of a batch, turn by turn. */
  lemma {:induction false} SendsAreTurns(env: Env, t: Tx, batch: seq<nat>, k: nat)
    requires t.Bounded() && (forall j :: 0 <= j < |batch| ==> batch[j] < |t.mem|) && k <= |batch|
    ensures forall s :: s in RunBatch(env, t, batch[..k]).1 <==> exists j :: 0 <= j < k && SentAt(env, t, batch, j, s)
  {
    hide ProcessOne, SentAt;
    if k == 0 {
      assert batch[..0] == [];
    } else {
      SendsAreTurns(env, t, batch, k - 1);
      forall s ensures s in RunBatch(env, t, batch[..k]).1 <==> s in RunBatch(env, t, batch[..k - 1]).1 || SentAt(env, t, batch, k - 1, s) {
        OneMoreSend(env, t, batch, k, s);
      }
    }
  }

  lemma OneMoreSend(env: Env, t: Tx, batch: seq<nat>, k: nat, s: Send)
    requires t.Bounded() && (forall j :: 0 <= j < |batch| ==> batch[j] < |t.mem|) && 0 < k <= |batch|
    ensures s in RunBatch(env, t, batch[..k]).1 <==> s in RunBatch(env, t, batch[..k - 1]).1 || SentAt(env, t, batch, k - 1, s)
  {
    hide ProcessOne;
    assert batch[..k][..k - 1] == batch[..k - 1] && batch[..k][k - 1] == batch[k - 1];
  }

  lemma SameIdAtTurn(env: Env, t: Tx, s: nat, batch: seq<nat>, k: nat)
    requires TxOk(t) && IsBatch(t.mem, s, batch) && k < |batch|
    ensures var t1 := RunBatch(env, t, batch).0;
            batch[k] < |t1.mem| && RunBatch(env, t, batch[..k]).0.mem[batch[k]].id == t1.mem[batch[k]].id
  {
    hide WfRows, LoopOrder, Mirror, StepSorted, SendsFit, RunBatch;
    RunBatchKeeps(env, t, s, batch, k);
    RunBatchKeeps(env, t, s, batch, |batch|);
    assert batch[..|batch|] == batch;
    var i := batch[k];
    assert StaticSame(t.mem[i], RunBatch(env, t, batch[..k]).0.mem[i]) && StaticSame(t.mem[i], RunBatch(env, t, batch).0.mem[i]);
  }

  // ---------------------------------------------------------------- the sends in the log

  function RequestFor(t: Tx, s: Send): Message
    requires s.i < |t.mem|
  {
    ActionRequested(t.e, t.mem[s.i].id, s.params)
  }

  lemma {:induction false} SendAllLogs(t: Tx, sends: seq<Send>)
    requires t.Bounded() && forall k :: 0 <= k < |sends| ==> sends[k].i < |t.mem|
    ensures var t' := SendAll(t, sends);
            t'.e == t.e && (forall i :: 0 <= i < |t.mem| ==> t'.mem[i].id == t.mem[i].id) &&
            |t'.db.log| == |t.db.log| + |sends| && t.db.log <= t'.db.log &&
            forall k :: 0 <= k < |sends| ==> t'.db.log[|t.db.log| + k] == RequestFor(t, sends[k])
  {
    if sends != [] { SendAllLogs(t, sends[..|sends| - 1]); }
  }

  /** The log after the sends of a batch lists a request for each of them. */
  lemma AfterSendsLogs(t: Tx, sends: seq<Send>)
    requires t.Bounded() && forall k :: 0 <= k < |sends| ==> sends[k].i < |t.mem|
    ensures var log' := AfterSends(t, sends).db.log;
            |log'| == |t.db.log| + |sends| && t.db.log <= log' &&
            forall k :: 0 <= k < |sends| ==> log'[|t.db.log| + k] == RequestFor(t, sends[k])
  {
    SendAllLogs(t, sends);
  }

  // ---------------------------------------------------------------- a pass

  /** Some turn of the pass had this action ready with these params. */
  ghost predicate Asked(env: Env, t: Tx, e: nat, a: nat, params: Json)
    requires TxOk(t)
  {
    exists q :: 0 <= q < |PassTurns(env, t)| && AskedAt(env, PassTurns(env, t)[q], e, a, params)
  }

  predicate AskedAt(env: Env, u: Turn, e: nat, a: nat, params: Json) {
    u.Ok() && u.before.e == e && u.Id() == a && Ready(env, u, params)
  }

  lemma SendIsAsked(env: Env, t: Tx, k: nat)
    requires TxOk(t) && DecideNext(t.mem).Dispatch?
    requires k < |RunBatch(env, t, BatchOf(t.mem, DecideNext(t.mem).keys)).1|
    ensures var (t1, sends) := RunBatch(env, t, BatchOf(t.mem, DecideNext(t.mem).keys));
            Asked(env, t, t.e, t1.mem[sends[k].i].id, sends[k].params)
  {
    hide WfRows, LoopOrder, Mirror, StepSorted, RunBatch, BatchOf, SentAt, IsBatch, TurnOf, Onward, AskedAt;
    var d := DecideNext(t.mem);
    var batch := BatchOf(t.mem, d.keys);
    DispatchedBatch(t);
    var (t1, sends) := RunBatch(env, t, batch);
    var s := sends[k];
    SendsAreTurns(env, t, batch, |batch|);
    assert batch[..|batch|] == batch && s in sends;
    var j :| 0 <= j < |batch| && SentAt(env, t, batch, j, s);
    SendTurnIsAsked(env, t, d.step, batch, j, s);
    assert PassTurns(env, t)[j] == FirstTurns(env, t)[j];
  }

  lemma SendTurnIsAsked(env: Env, t: Tx, s: nat, batch: seq<nat>, j: nat, send: Send)
    requires TxOk(t) && IsBatch(t.mem, s, batch) && j < |batch| && SentAt(env, t, batch, j, send)
    ensures send.i < |RunBatch(env, t, batch).0.mem|
    ensures AskedAt(env, BatchTurns(env, t, batch)[j], t.e, RunBatch(env, t, batch).0.mem[send.i].id, send.params)
  {
    hide WfRows, LoopOrder, Mirror, StepSorted, RunBatch, ProcessOne, Ready;
    BatchTurnProper(env, t, s, batch, j);
    SameIdAtTurn(env, t, s, batch, j);
    var u := BatchTurns(env, t, batch)[j];
    ReadyIsSent(env, u.before, u.i, send.params);
  }

  lemma AskedLater(env: Env, t: Tx, e: nat, a: nat, params: Json)
    requires TxOk(t) && Onward(env, t).Some? && Asked(env, Onward(env, t).value, e, a, params)
    ensures Asked(env, t, e, a, params)
  {
    hide TxOk, FirstTurns, Onward, AskedAt;
    var next := Onward(env, t).value;
    var q :| 0 <= q < |PassTurns(env, next)| && AskedAt(env, PassTurns(env, next)[q], e, a, params);
    assert PassTurns(env, t)[|FirstTurns(env, t)| + q] == PassTurns(env, next)[q];
  }

  lemma EndsAskNothing(env: Env, t: Tx)
    requires TxOk(t) && !DecideNext(t.mem).Dispatch?
    ensures NoRequests(t.db.log, Advance(env, t).db.log)
  {
    hide WfRows, LoopOrder, Mirror, StepSorted, SubRoutineOutput, InFlightStatus, DecideNext;
  }

  /** What a dispatch iteration logs before the next one. */
  lemma OnwardAsksNothing(env: Env, t: Tx)
    requires TxOk(t) && Onward(env, t).Some?
    ensures NoRequests(t.db.log, Onward(env, t).value.db.log)
  {
    hide WfRows, LoopOrder, Mirror, StepSorted, RunBatch, BatchOf, BatchFailed, AfterSends, IsBatch, DecideNext;
    BatchProgress(env, t);
    var batch := BatchOf(t.mem, DecideNext(t.mem).keys);
    BatchRequestsNothing(env, t, batch);
    var (t1, sends) := RunBatch(env, t, batch);
    AfterSendsLogs(t1, sends);
  }

  lemma DispatchAsks(env: Env, t: Tx, j: nat, a: nat, params: Json, e: nat)
    requires TxOk(t) && DecideNext(t.mem).Dispatch? && Onward(env, t).None?
    requires |t.db.log| <= j < |Advance(env, t).db.log| && Advance(env, t).db.log[j] == ActionRequested(e, a, params)
    ensures e == t.e && Asked(env, t, e, a, params)
  {
    hide WfRows, LoopOrder, Mirror, StepSorted, RunBatch, BatchOf, BatchFailed, AfterSends, IsBatch, DecideNext, Asked, SendsFit, MemAfter;
    BatchProgress(env, t);
    AdvanceDispatches(env, t);
    var batch := BatchOf(t.mem, DecideNext(t.mem).keys);
    BatchRequestsNothing(env, t, batch);
    var (t1, sends) := RunBatch(env, t, batch);
    AfterSendsLogs(t1, sends);
    assert j >= |t1.db.log|;
    SendIsAsked(env, t, j - |t1.db.log|);
  }

  lemma {:induction false} PassLogGrows(env: Env, t: Tx)
    requires TxOk(t)
    ensures t.db.log <= Advance(env, t).db.log
    decreases Measure(t.mem)
  {
    hide WfRows, LoopOrder, Mirror, StepSorted, RunBatch, BatchOf, BatchFailed, AfterSends, IsBatch, DecideNext, SendsFit, MemAfter, Advance;
    if !DecideNext(t.mem).Dispatch? {
      EndsAskNothing(env, t);
    } else if Onward(env, t).Some? {
      OnwardAsksNothing(env, t);
      PassLogGrows(env, Onward(env, t).value);
    } else {
      BatchProgress(env, t);
      AdvanceDispatches(env, t);
      var batch := BatchOf(t.mem, DecideNext(t.mem).keys);
      BatchRequestsNothing(env, t, batch);
      var (t1, sends) := RunBatch(env, t, batch);
      AfterSendsLogs(t1, sends);
    }
  }

  /** Whatever a pass asks of a worker was ready at one of its turns, with those params. */
  lemma {:induction false} PassAsks(env: Env, t: Tx, j: nat, e: nat, a: nat, params: Json)
    requires TxOk(t) && |t.db.log| <= j < |Advance(env, t).db.log| && Advance(env, t).db.log[j] == ActionRequested(e, a, params)
    ensures e == t.e && Asked(env, t, e, a, params)
    decreases Measure(t.mem)
  {
    hide TxOk, Onward, Asked, Advance;
    if !DecideNext(t.mem).Dispatch? {
      EndsAskNothing(env, t);
    } else if Onward(env, t).None? {
      DispatchAsks(env, t, j, a, params, e);
    } else {
      OnwardAsksNothing(env, t);
      OnwardSame(env, t);
      PassLogGrows(env, Onward(env, t).value);
      PassAsks(env, Onward(env, t).value, j, e, a, params);
      AskedLater(env, t, e, a, params);
    }
  }

  // ---------------------------------------------------------------- and whatever is ready is asked for

  lemma ReadyTurnIsSent(env: Env, t: Tx, s: nat, batch: seq<nat>, q: nat, params: Json)
    requires TxOk(t) && IsBatch(t.mem, s, batch) && q < |batch| && BatchTurns(env, t, batch)[q].Ok() && Ready(env, BatchTurns(env, t, batch)[q], params)
    ensures var (t1, sends) := RunBatch(env, t, batch);
            Send(batch[q], params) in sends && batch[q] < |t1.mem| && t1.mem[batch[q]].id == BatchTurns(env, t, batch)[q].Id()
  {
    hide WfRows, LoopOrder, Mirror, StepSorted, RunBatch, ProcessOne, Ready;
    BatchTurnProper(env, t, s, batch, q);
    var u := BatchTurns(env, t, batch)[q];
    ReadyIsSent(env, u.before, u.i, params);
    SameIdAtTurn(env, t, s, batch, q);
    SendsAreTurns(env, t, batch, |batch|);
    assert batch[..|batch|] == batch;
    assert SentAt(env, t, batch, q, Send(batch[q], params));
  }

  lemma ReadyInBatch(env: Env, t: Tx, q: nat, params: Json)
    requires TxOk(t) && DecideNext(t.mem).Dispatch? && q < |FirstTurns(env, t)| && FirstTurns(env, t)[q].Ok() && Ready(env, FirstTurns(env, t)[q], params)
    ensures var (t1, sends) := RunBatch(env, t, BatchOf(t.mem, DecideNext(t.mem).keys));
            exists k :: 0 <= k < |sends| && sends[k].i < |t1.mem| && RequestFor(t1, sends[k]) == ActionRequested(t1.e, FirstTurns(env, t)[q].Id(), params)
  {
    hide WfRows, LoopOrder, Mirror, StepSorted, RunBatch, BatchOf, Ready, IsBatch, TurnOf, DecideNext;
    var d := DecideNext(t.mem);
    var batch := BatchOf(t.mem, d.keys);
    DispatchedBatch(t);
    ReadyTurnIsSent(env, t, d.step, batch, q, params);
    var (t1, sends) := RunBatch(env, t, batch);
    var k :| 0 <= k < |sends| && sends[k] == Send(batch[q], params);
    assert RequestFor(t1, sends[k]) == ActionRequested(t1.e, FirstTurns(env, t)[q].Id(), params);
  }

  ghost predicate SentOrFailed(env: Env, t: Tx, a: nat, params: Json)
    requires TxOk(t)
  {
    var db := Advance(env, t).db;
    ActionRequested(t.e, a, params) in db.log || (t.e < |db.execs| && db.execs[t.e].status.FAILED?)
  }

  lemma FirstReadyIsAsked(env: Env, t: Tx, q: nat, params: Json)
    requires TxOk(t) && DecideNext(t.mem).Dispatch? && q < |FirstTurns(env, t)| && FirstTurns(env, t)[q].Ok() && Ready(env, FirstTurns(env, t)[q], params)
    ensures SentOrFailed(env, t, FirstTurns(env, t)[q].Id(), params)
  {
    hide WfRows, LoopOrder, Mirror, StepSorted, RunBatch, BatchOf, BatchFailed, AfterSends, IsBatch, DecideNext, Ready, SendsFit, MemAfter, FirstTurns;
    var batch := BatchOf(t.mem, DecideNext(t.mem).keys);
    var (t1, sends) := RunBatch(env, t, batch);
    if BatchFailed(t1.mem, batch) {
      FailedBatchReachesNoWorker(env, t, batch);
    } else {
      ReadyInBatch(env, t, q, params);
      BatchProgress(env, t);
      AdvanceDispatches(env, t);
      AfterSendsLogs(t1, sends);
      var k :| 0 <= k < |sends| && sends[k].i < |t1.mem| && RequestFor(t1, sends[k]) == ActionRequested(t1.e, FirstTurns(env, t)[q].Id(), params);
      assert AfterSends(t1, sends).db.log[|t1.db.log| + k] == ActionRequested(t.e, FirstTurns(env, t)[q].Id(), params);
    }
  }

  /** What was ready for a worker at its turn is asked for when the pass ends, unless the execution failed. */
  lemma {:induction false} ReadyIsAsked(env: Env, t: Tx, q: nat, params: Json)
    requires TxOk(t) && q < |PassTurns(env, t)| && PassTurns(env, t)[q].Ok() && Ready(env, PassTurns(env, t)[q], params)
    ensures SentOrFailed(env, t, PassTurns(env, t)[q].Id(), params)
    decreases Measure(t.mem)
  {
    hide TxOk, Onward, FirstTurns, Ready, Advance;
    TurnsDispatch(env, t);
    var first := |FirstTurns(env, t)|;
    if q < first {
      FirstReadyIsAsked(env, t, q, params);
    } else {
      OnwardSame(env, t);
      ReadyIsAsked(env, Onward(env, t).value, q - first, params);
    }
  }

  // ---------------------------------------------------------------- in which order

  /** The places to send from ascend, up to `top`. */
  predicate Ascend(sends: seq<Send>, top: int) {
    (forall p :: 0 <= p < |sends| ==> sends[p].i <= top) && forall p, q :: 0 <= p < q < |sends| ==> sends[p].i < sends[q].i
  }

  lemma AscendMore(sends: seq<Send>, top: int, i: nat, params: Json)
    requires Ascend(sends, top) && top < i
    ensures Ascend(sends, i) && Ascend(sends + [Send(i, params)], i)
  {
  }

  lemma {:induction false} SendsAscend(env: Env, t: Tx, batch: seq<nat>, k: nat)
    requires t.Bounded() && (forall j :: 0 <= j < |batch| ==> batch[j] < |t.mem|) && k <= |batch|
    requires forall i, j :: 0 <= i < j < |batch| ==> batch[i] < batch[j]
    ensures Ascend(RunBatch(env, t, batch[..k]).1, if k == 0 then -1 else batch[k - 1])
  {
    hide ProcessOne, Ascend;
    if k == 0 {
      assert batch[..0] == [];
      NothingAscends();
    } else {
      SendsAscend(env, t, batch, k - 1);
      assert batch[..k][..k - 1] == batch[..k - 1] && batch[..k][k - 1] == batch[k - 1];
      var before := RunBatch(env, t, batch[..k - 1]);
      var last := ProcessOne(env, before.0, batch[k - 1]).1;
      AscendMore(before.1, if k == 1 then -1 else batch[k - 2], batch[k - 1], if last.Some? then last.value else Null);
    }
  }

  lemma NothingAscends()
    ensures Ascend([], -1)
  {
  }

  /** Both actions belong to one step, and the first comes before the second in it. */
  predicate InStepOrder(rows: seq<Row>, a: nat, b: nat) {
    a < |rows| && b < |rows| && rows[a].step == rows[b].step && rows[a].position < rows[b].position
  }

  lemma SentInOrder(env: Env, t: Tx, s: nat, batch: seq<nat>, p: nat, q: nat)
    requires TxOk(t) && IsBatch(t.mem, s, batch) && p < q < |RunBatch(env, t, batch).1|
    ensures var (t1, sends) := RunBatch(env, t, batch);
            sends[p].i < |t1.mem| && sends[q].i < |t1.mem| && InStepOrder(t1.Rows(), t1.mem[sends[p].i].id, t1.mem[sends[q].i].id)
  {
    hide WfRows, LoopOrder, RunBatch;
    assert batch[..|batch|] == batch;
    SendsAscend(env, t, batch, |batch|);
    RunBatchKeeps(env, t, s, batch, |batch|);
    var (t1, sends) := RunBatch(env, t, batch);
    var i, j := sends[p].i, sends[q].i;
    assert i in batch && j in batch;
    assert StaticSame(t.mem[i], t1.mem[i]) && StaticSame(t.mem[j], t1.mem[j]);
    RowInMemory(t1, i);
    RowInMemory(t1, j);
  }

  lemma OrderStays(t: Tx, sends: seq<Send>, a: nat, b: nat)
    requires t.Bounded() && (forall k :: 0 <= k < |sends| ==> sends[k].i < |t.mem|) && InStepOrder(t.Rows(), a, b)
    ensures InStepOrder(AfterSends(t, sends).Rows(), a, b)
  {
    SendAllPlaces(t, sends);
  }

  lemma {:induction false} SendAllPlaces(t: Tx, sends: seq<Send>)
    requires t.Bounded() && forall k :: 0 <= k < |sends| ==> sends[k].i < |t.mem|
    ensures var t' := SendAll(t, sends);
            t'.e == t.e && |t'.Rows()| == |t.Rows()| && (forall i :: 0 <= i < |t.mem| ==> t'.mem[i].id == t.mem[i].id) &&
            forall a :: 0 <= a < |t.Rows()| ==> t'.Rows()[a].step == t.Rows()[a].step && t'.Rows()[a].position == t.Rows()[a].position
  {
    if sends != [] { SendAllPlaces(t, sends[..|sends| - 1]); }
  }

  lemma DispatchAsksInOrder(env: Env, t: Tx, i: nat, j: nat)
    requires TxOk(t) && DecideNext(t.mem).Dispatch? && Onward(env, t).None?
    requires |t.db.log| <= i < j < |Advance(env, t).db.log| && Advance(env, t).db.log[i].ActionRequested? && Advance(env, t).db.log[j].ActionRequested?
    ensures var t' := Advance(env, t); t.e < |t'.db.execs| && InStepOrder(t'.db.execs[t.e].rows, t'.db.log[i].action, t'.db.log[j].action)
  {
    hide WfRows, LoopOrder, Mirror, StepSorted, RunBatch, BatchOf, BatchFailed, AfterSends, IsBatch, DecideNext, SendsFit, MemAfter, InStepOrder;
    var d := DecideNext(t.mem);
    BatchProgress(env, t);
    AdvanceDispatches(env, t);
    var batch := BatchOf(t.mem, d.keys);
    BatchRequestsNothing(env, t, batch);
    var (t1, sends) := RunBatch(env, t, batch);
    AfterSendsLogs(t1, sends);
    var p, q := i - |t1.db.log|, j - |t1.db.log|;
    assert i >= |t1.db.log|;
    SentInOrder(env, t, d.step, batch, p, q);
    OrderStays(t1, sends, t1.mem[sends[p].i].id, t1.mem[sends[q].i].id);
    AfterSendsSame(t1, sends);
  }

  lemma AfterSendsSame(t: Tx, sends: seq<Send>)
    requires t.Bounded() && forall k :: 0 <= k < |sends| ==> sends[k].i < |t.mem|
    ensures AfterSends(t, sends).e == t.e
  {
    SendAllPlaces(t, sends);
  }

  /** A pass asks for the actions of one step, in the order they have in it. */
  lemma {:induction false} PassAsksInOrder(env: Env, t: Tx, i: nat, j: nat)
    requires TxOk(t) && |t.db.log| <= i < j < |Advance(env, t).db.log|
    requires Advance(env, t).db.log[i].ActionRequested? && Advance(env, t).db.log[j].ActionRequested?
    ensures var t' := Advance(env, t); t.e < |t'.db.execs| && InStepOrder(t'.db.execs[t.e].rows, t'.db.log[i].action, t'.db.log[j].action)
    decreases Measure(t.mem)
  {
    hide TxOk, Onward, Advance, InStepOrder;
    if !DecideNext(t.mem).Dispatch? {
      EndsAskNothing(env, t);
    } else if Onward(env, t).None? {
      DispatchAsksInOrder(env, t, i, j);
    } else {
      OnwardAsksNothing(env, t);
      OnwardSame(env, t);
      PassLogGrows(env, Onward(env, t).value);
      PassAsksInOrder(env, Onward(env, t).value, i, j);
    }
  }
}
