/**
 * The turns of a pass and of a whole run, in order: what every request carries, how a
 * condition decides what waits for it, which item a repetition sees, and what a called
 * run gets as its input.
 */
module Turns {
  import opened Base
  import opened Templates
  import opened Control
  import opened Progress
  import opened Store
  import opened RowInvariants
  import opened Engine
  import opened AdvanceLoop
  import opened Issues
  import opened Invariants
  import opened Transactions
  import opened Evolution
  import opened Network
  import opened Soundness
  import opened Runs
  import opened Outcomes

  // ---------------------------------------------------------------- the turns of a batch

  function BatchTurns(env: Env, t: Tx, batch: seq<nat>): (turns: seq<Turn>)
    requires t.Bounded() && forall k :: 0 <= k < |batch| ==> batch[k] < |t.mem|
    ensures |turns| == |batch|
    ensures forall k :: 0 <= k < |batch| ==> turns[k] == TurnOf(env, RunBatch(env, t, batch[..k]).0, batch[k])
  {
    seq(|batch|, k requires 0 <= k < |batch| => TurnOf(env, RunBatch(env, t, batch[..k]).0, batch[k]))
  }

  /** A turn as it comes: the row pending, the transaction consistent, the outcome as specified. */
  ghost predicate Proper(env: Env, t: Tx, u: Turn) {
    TxOk(u.before) && SameTx(t, u.before) && u.i < |u.before.mem| && u.before.mem[u.i].status.Pending? && u == TurnOf(env, u.before, u.i)
  }

  lemma BatchTurnProper(env: Env, t: Tx, s: nat, batch: seq<nat>, k: nat)
    requires TxOk(t) && IsBatch(t.mem, s, batch) && k < |batch|
    ensures Proper(env, t, BatchTurns(env, t, batch)[k])
  {
    hide MemAfter, SendsFit, WfRows, LoopOrder, Mirror, StepSorted, ProcessOne;
    RunBatchKeeps(env, t, s, batch, k);
    var (t1, sends) := RunBatch(env, t, batch[..k]);
    NextRowReady(t.mem, t1.mem, s, batch, k + 1, sends);
  }

  /** What a turn leaves is what the next one starts from. */
  lemma BatchStep(env: Env, t: Tx, batch: seq<nat>, k: nat)
    requires t.Bounded() && (forall j :: 0 <= j < |batch| ==> batch[j] < |t.mem|) && k < |batch|
    ensures BatchTurns(env, t, batch)[k].after == RunBatch(env, t, batch[..k + 1]).0
  {
    assert batch[..k + 1][..k] == batch[..k] && batch[..k + 1][k] == batch[k];
  }

  lemma {:induction false} BatchEvolvesBetween(env: Env, t: Tx, s: nat, batch: seq<nat>, j: nat, k: nat)
    requires TxOk(t) && IsBatch(t.mem, s, batch) && j <= k <= |batch|
    ensures Evolves(RunBatch(env, t, batch[..j]).0.db, RunBatch(env, t, batch[..k]).0.db)
    decreases k - j
  {
    hide Evolves, MemAfter, SendsFit, WfRows, LoopOrder, Mirror, StepSorted, ProcessOne, RunBatch;
    if j == k {
      Reflexive(RunBatch(env, t, batch[..j]).0.db);
    } else {
      BatchEvolvesBetween(env, t, s, batch, j, k - 1);
      BatchTurnProper(env, t, s, batch, k - 1);
      BatchStep(env, t, batch, k - 1);
      var u := BatchTurns(env, t, batch)[k - 1];
      ProcessOneEvolves(env, u.before, u.i);
      EvolvesTransitively(RunBatch(env, t, batch[..j]).0.db, u.before.db, u.after.db);
    }
  }

  // ---------------------------------------------------------------- the turns of a pass

  /** Where the loop goes round: the transaction of the next iteration, if there is one. */
  ghost function Onward(env: Env, t: Tx): (next: Option<Tx>)
    requires TxOk(t)
    ensures next.Some? ==> TxOk(next.value) && Measure(next.value.mem) < Measure(t.mem) && Advance(env, t) == Advance(env, next.value)
  {
    if !DecideNext(t.mem).Dispatch? then None else
      var batch := BatchOf(t.mem, DecideNext(t.mem).keys);
      var (t1, sends) := RunBatch(env, t, batch);
      AdvanceDispatches(env, t);
      if BatchFailed(t1.mem, batch) then Some(t1) else if sends == [] then Some(AfterSends(t1, sends)) else None
  }

  ghost function FirstTurns(env: Env, t: Tx): seq<Turn>
    requires TxOk(t)
  {
    if DecideNext(t.mem).Dispatch? then BatchTurns(env, t, BatchOf(t.mem, DecideNext(t.mem).keys)) else []
  }

  /** Every turn of the pass, in order. */
  ghost function PassTurns(env: Env, t: Tx): seq<Turn>
    requires TxOk(t)
    decreases Measure(t.mem)
  {
    var next := Onward(env, t);
    FirstTurns(env, t) + if next.Some? then PassTurns(env, next.value) else []
  }

  lemma OnwardSame(env: Env, t: Tx)
    requires TxOk(t) && Onward(env, t).Some?
    ensures SameTx(t, Onward(env, t).value)
  {
    hide WfRows, LoopOrder, Mirror, StepSorted, MemAfter, SendsFit, IsBatch, RunBatch, BatchOf, BatchFailed;
    BatchProgress(env, t);
    var batch := BatchOf(t.mem, DecideNext(t.mem).keys);
    var (t1, sends) := RunBatch(env, t, batch);
    AfterSendsKeeps(t1, batch, sends);
  }

  lemma FirstTurnsProper(env: Env, t: Tx)
    requires TxOk(t)
    ensures forall q :: 0 <= q < |FirstTurns(env, t)| ==> Proper(env, t, FirstTurns(env, t)[q])
  {
    hide WfRows, LoopOrder, Mirror, StepSorted, IsBatch, Proper, BatchTurns, BatchOf;
    if DecideNext(t.mem).Dispatch? {
      var d := DecideNext(t.mem);
      DispatchedBatch(t);
      forall q | 0 <= q < |FirstTurns(env, t)| ensures Proper(env, t, FirstTurns(env, t)[q]) {
        BatchTurnProper(env, t, d.step, BatchOf(t.mem, d.keys), q);
      }
    }
  }

  lemma ProperFor(env: Env, t: Tx, next: Tx, u: Turn)
    requires SameTx(t, next) && Proper(env, next, u)
    ensures Proper(env, t, u)
  {
  }

  lemma {:induction false} PassTurnsProper(env: Env, t: Tx, q: nat)
    requires TxOk(t) && q < |PassTurns(env, t)|
    ensures Proper(env, t, PassTurns(env, t)[q])
    decreases Measure(t.mem)
  {
    hide Proper, FirstTurns, Onward, TxOk;
    FirstTurnsProper(env, t);
    var first := |FirstTurns(env, t)|;
    if q >= first {
      var next := Onward(env, t).value;
      OnwardSame(env, t);
      PassTurnsProper(env, next, q - first);
      ProperFor(env, t, next, PassTurns(env, next)[q - first]);
    }
  }

  /** At every turn of a pass, the row comes to what the cases say. */
  lemma PassTurnsOut(env: Env, t: Tx, q: nat)
    requires TxOk(t) && q < |PassTurns(env, t)|
    ensures PassTurns(env, t)[q].Ok() && TurnsOut(env, PassTurns(env, t)[q])
  {
    hide TxOk, TurnsOut, TurnOf;
    PassTurnsProper(env, t, q);
    var u := PassTurns(env, t)[q];
    EveryTurnTurnsOut(env, u.before, u.i);
  }

  // ---------------------------------------------------------------- nothing is undone between turns

  /** A turn lies between the start of the pass and its commit. */
  ghost predicate Within(start: Db, u: Turn, end: Db) { Evolves(start, u.before.db) && Evolves(u.before.db, u.after.db) && Evolves(u.after.db, end) }

  lemma BatchTurnsEvolve(env: Env, t: Tx, s: nat, batch: seq<nat>, q: nat)
    requires TxOk(t) && IsBatch(t.mem, s, batch) && q < |batch|
    ensures Within(t.db, BatchTurns(env, t, batch)[q], RunBatch(env, t, batch).0.db)
    ensures forall r :: q < r < |batch| ==> Evolves(BatchTurns(env, t, batch)[q].after.db, BatchTurns(env, t, batch)[r].before.db)
  {
    hide WfRows, LoopOrder, Mirror, StepSorted, Evolves, RunBatch, ProcessOne;
    NothingRun(env, t);
    assert batch[..0] == [] && batch[..|batch|] == batch;
    BatchEvolvesBetween(env, t, s, batch, 0, q);
    BatchEvolvesBetween(env, t, s, batch, q, q + 1);
    BatchEvolvesBetween(env, t, s, batch, q + 1, |batch|);
    BatchStep(env, t, batch, q);
    forall r | q < r < |batch| ensures Evolves(BatchTurns(env, t, batch)[q].after.db, BatchTurns(env, t, batch)[r].before.db) {
      BatchEvolvesBetween(env, t, s, batch, q + 1, r);
    }
  }

  /** The transaction after the first batch. */
  ghost function AfterBatch(env: Env, t: Tx): Tx
    requires TxOk(t) && DecideNext(t.mem).Dispatch?
  {
    RunBatch(env, t, BatchOf(t.mem, DecideNext(t.mem).keys)).0
  }

  lemma FirstTurnsEvolve(env: Env, t: Tx, q: nat)
    requires TxOk(t) && DecideNext(t.mem).Dispatch? && q < |FirstTurns(env, t)|
    ensures Within(t.db, FirstTurns(env, t)[q], AfterBatch(env, t).db)
    ensures forall r :: q < r < |FirstTurns(env, t)| ==> Evolves(FirstTurns(env, t)[q].after.db, FirstTurns(env, t)[r].before.db)
  {
    hide WfRows, LoopOrder, Mirror, StepSorted, Evolves, IsBatch, RunBatch, BatchOf, TurnOf, Within;
    var d := DecideNext(t.mem);
    DispatchedBatch(t);
    BatchTurnsEvolve(env, t, d.step, BatchOf(t.mem, d.keys), q);
  }

  lemma NothingRun(env: Env, t: Tx)
    requires t.Bounded()
    ensures RunBatch(env, t, []) == (t, [])
  {
  }

  /** From the end of the batch to the next iteration, and to the commit. */
  lemma OnwardEvolves(env: Env, t: Tx)
    requires TxInv(t) && DecideNext(t.mem).Dispatch?
    ensures Evolves(t.db, AfterBatch(env, t).db) && Evolves(AfterBatch(env, t).db, Advance(env, t).db)
    ensures Onward(env, t).Some? ==> TxInv(Onward(env, t).value) && Evolves(AfterBatch(env, t).db, Onward(env, t).value.db)
  {
    hide Evolves, MidTx, Barrier, Mirror, StepSorted, WfRows, LoopOrder, IsBatch, RunBatch, BatchOf, BatchFailed, AfterSends, MemAfter, SendsFit, DecideNext;
    var batch := BatchOf(t.mem, DecideNext(t.mem).keys);
    var (t1, sends) := RunBatch(env, t, batch);
    DispatchEvolves(env, t);
    PassContinues(env, t);
    AdvanceDispatches(env, t);
    if BatchFailed(t1.mem, batch) {
      Reflexive(t1.db);
      AdvanceEvolves(env, t1);
    } else {
      BatchProgress(env, t);
      AfterSendsEvolves(t1, batch, sends);
      var t2 := AfterSends(t1, sends);
      AdvanceEvolves(env, t2);
      EvolvesTransitively(t1.db, t2.db, Advance(env, t2).db);
    }
  }

  /** In a pass nothing is undone between its start, any two turns in order, and the commit. */
  lemma {:induction false} PassTurnsEvolve(env: Env, t: Tx, q: nat)
    requires TxInv(t) && q < |PassTurns(env, t)|
    ensures Within(t.db, PassTurns(env, t)[q], Advance(env, t).db)
    ensures forall r :: q < r < |PassTurns(env, t)| ==> Evolves(PassTurns(env, t)[q].after.db, PassTurns(env, t)[r].before.db)
    decreases Measure(t.mem)
  {
    hide Evolves, MidTx, Barrier, TxOk, AfterBatch, Onward, FirstTurns, Advance;
    TurnsDispatch(env, t);
    OnwardEvolves(env, t);
    var first, next, end := FirstTurns(env, t), Onward(env, t), Advance(env, t).db;
    if q < |first| {
      FirstTurnsEvolve(env, t, q);
      EvolvesTransitively(first[q].after.db, AfterBatch(env, t).db, end);
      if next.Some? {
        EvolvesTransitively(first[q].after.db, AfterBatch(env, t).db, next.value.db);
        forall r | 0 <= r < |PassTurns(env, next.value)| ensures Evolves(first[q].after.db, PassTurns(env, next.value)[r].before.db) {
          PassTurnsEvolve(env, next.value, r);
          EvolvesTransitively(first[q].after.db, next.value.db, PassTurns(env, next.value)[r].before.db);
        }
      }
    } else {
      var u := PassTurns(env, next.value)[q - |first|];
      PassTurnsEvolve(env, next.value, q - |first|);
      EvolvesTransitively(t.db, AfterBatch(env, t).db, next.value.db);
      EvolvesTransitively(t.db, next.value.db, u.before.db);
      forall r | q < r < |PassTurns(env, t)| ensures Evolves(u.after.db, PassTurns(env, t)[r].before.db) {
        assert PassTurns(env, t)[r] == PassTurns(env, next.value)[r - |first|];
      }
    }
  }

  lemma TurnsDispatch(env: Env, t: Tx)
    requires TxOk(t)
    ensures PassTurns(env, t) != [] ==> DecideNext(t.mem).Dispatch?
  {
  }
}
