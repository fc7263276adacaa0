/**
 * In every run, everything the engine reads from memory is what the table says, but
 * for the variables that are overtaken; and no variable ever is in a routine that
 * does not mix plain and looped setters of it in a step that also sends something.
 */
module Faithful {
  import opened Base
  import opened Templates
  import opened Control
  import opened Progress
  import opened Store
  import opened RowInvariants
  import opened Engine
  import opened AdvanceLoop
  import opened Invariants
  import opened Transactions
  import opened Evolution
  import opened Definition
  import opened Network
  import opened Soundness
  import opened Rereading
  import opened FinishTimes
  import opened Overtaking

  // ---------------------------------------------------------------- reading memory is reading the table

  /** What `{{…}}` would see if the rows were loaded again. */
  function TableScope(env: Env, t: Tx, id: nat): Json
    requires t.Bounded() && id < |t.Rows()|
  {
    Scope(env, t.e, t.db.execs[t.e], Load(t.Rows()), t.Rows()[id], t.now)
  }

  /** Memory answers every question about conditions, batches and outputs as the table does. */
  ghost predicate ReadsRows(t: Tx) {
    t.Bounded() && Outputs(t.mem) == Outputs(Load(t.Rows())) &&
    (forall runIf :: RunIfHolds(t.mem, runIf) == RunIfHolds(Load(t.Rows()), runIf)) &&
    (forall s :: IdsAt(t.mem, BatchOf(t.mem, PendingKeys(t.mem, s))) == IdsAt(Load(t.Rows()), BatchOf(Load(t.Rows()), PendingKeys(Load(t.Rows()), s))))
  }

  /** A variable reads as in the table, unless it is overtaken; and then, and only then, it reads differently. */
  ghost predicate ReadsVariable(t: Tx, name: string)
    requires t.Bounded()
  {
    var mem, table := VariablesOf(t.mem), VariablesOf(Load(t.Rows()));
    (name in mem <==> name in table) && (Overtaken(t, name) ==> name in table) &&
    (name in table ==> (mem[name] != table[name] <==> Overtaken(t, name)))
  }

  /** What every turn reads: rows always as in the table, each variable exactly unless overtaken, scopes if none is. */
  ghost predicate ReadsTable(env: Env, t: Tx) {
    ReadsRows(t) && t.db.execs[t.e].authored <= |t.Rows()| &&
    (forall name :: ReadsVariable(t, name)) &&
    (forall name :: Overtaken(t, name) ==> Mixed(DefsOf(t.Rows(), t.db.execs[t.e].authored), name)) &&
    ((forall name :: !Overtaken(t, name)) ==> ScopesShown(env, t))
  }

  predicate ScopesShown(env: Env, t: Tx)
    requires t.Bounded()
  {
    forall i :: 0 <= i < |t.mem| ==> ScopeFor(env, t, i) == TableScope(env, t, t.mem[i].id)
  }

  lemma SameScope(env: Env, t: Tx, i: nat)
    requires TxOk(t) && i < |t.mem| && VariablesOf(t.mem) == VariablesOf(Load(t.Rows()))
    ensures ScopeFor(env, t, i) == TableScope(env, t, t.mem[i].id)
  {
    hide WfRows, LoopOrder, StepSorted, VariablesOf, Outputs, Load;
    SameOutputs(t);
    MirrorRow(t.mem, t.Rows(), i);
  }

  lemma VariablesAgree(t: Tx)
    requires t.Bounded() && (forall name :: ReadsVariable(t, name)) && forall name :: !Overtaken(t, name)
    ensures VariablesOf(t.mem) == VariablesOf(Load(t.Rows()))
  {
    hide VariablesOf, Overtaken;
    var mem, table := VariablesOf(t.mem), VariablesOf(Load(t.Rows()));
    forall name ensures (name in mem <==> name in table) && (name in mem ==> mem[name] == table[name]) {
      assert ReadsVariable(t, name) && !Overtaken(t, name);
    }
  }

  lemma RowsRead(t: Tx)
    requires TxOk(t)
    ensures ReadsRows(t)
  {
    hide WfRows, LoopOrder, StepSorted, Mirror, Outputs, RunIfHolds, IdsAt, BatchOf, PendingKeys;
    SameOutputs(t);
    forall runIf ensures RunIfHolds(t.mem, runIf) == RunIfHolds(Load(t.Rows()), runIf) { SameCondition(t, runIf); }
    forall s: nat ensures IdsAt(t.mem, BatchOf(t.mem, PendingKeys(t.mem, s))) == IdsAt(Load(t.Rows()), BatchOf(Load(t.Rows()), PendingKeys(Load(t.Rows()), s))) {
      SameBatch(t, s);
    }
  }

  lemma MemoryReadsTable(env: Env, t: Tx)
    requires TurnTimes(t) && Sound(t.db.execs[t.e])
    ensures ReadsTable(env, t)
  {
    hide WfRows, LoopOrder, StepSorted, Mirror, CompletedTogether, Tracked, Sound, VariablesOf, Scope, ReadsRows, Overtaken, Mixed;
    RowsRead(t);
    AuthoredFit(t.Rows(), t.db.execs[t.e].authored);
    forall name ensures ReadsVariable(t, name) { VariableReadsExactly(t, name); }
    forall name | Overtaken(t, name) ensures Mixed(DefsOf(t.Rows(), t.db.execs[t.e].authored), name) { OvertakenIsMixed(t, name); }
    if forall name :: !Overtaken(t, name) {
      VariablesAgree(t);
      forall i | 0 <= i < |t.mem| ensures ScopeFor(env, t, i) == TableScope(env, t, t.mem[i].id) { SameScope(env, t, i); }
    }
  }

  /** In a routine that mixes no setters, memory and table are one to the templates. */
  lemma UnmixedReadsTable(env: Env, t: Tx)
    requires ReadsTable(env, t) && forall name :: !Mixed(DefsOf(t.Rows(), t.db.execs[t.e].authored), name)
    ensures VariablesOf(t.mem) == VariablesOf(Load(t.Rows())) && ScopesShown(env, t)
  {
    hide VariablesOf, Overtaken, Mixed, ScopesShown, ReadsVariable, Outputs, RunIfHolds, IdsAt;
    assert forall name :: !Overtaken(t, name);
    VariablesAgree(t);
  }

  // ---------------------------------------------------------------- at every turn of every run

  ghost predicate FaithfulTurn(env: Env, t: Tx, batch: seq<nat>, k: nat)
    requires t.Bounded() && k < |batch| && forall j :: 0 <= j < |batch| ==> batch[j] < |t.mem|
  {
    ReadsTable(env, RunBatch(env, t, batch[..k]).0)
  }

  /** What is known of a transaction wherever the loop goes round. */
  ghost predicate PassOk(t: Tx) { TxInv(t) && SoundDb(t.db) && TimedTx(t) && Tracked(t) }

  lemma TurnIsFaithful(env: Env, t: Tx, s: nat, batch: seq<nat>, k: nat)
    requires PassOk(t) && IsBatch(t.mem, s, batch) && k < |batch|
    ensures FaithfulTurn(env, t, batch, k)
  {
    hide MidTx, Barrier, StepSorted, LoopOrder, WfRows, Mirror, SoundDb, ReadsTable, TimedTx, Tracked, TurnTimes, RunBatch;
    RunBatchKeepsSound(env, t, s, batch, k);
    TrackedAtTurn(env, t, s, batch, k);
    var t1 := RunBatch(env, t, batch[..k]).0;
    TurnInBounds(t1);
    SoundAt(t1.db, t1.e);
    MemoryReadsTable(env, t1);
  }

  lemma TurnInBounds(t: Tx)
    requires TurnTimes(t)
    ensures t.e < |t.db.execs|
  {
  }

  lemma SoundAt(db: Db, e: nat)
    requires SoundDb(db)
    ensures e < |db.execs| ==> Sound(db.execs[e])
  {
  }

  /** Every decision of a pass, and everything read while handling a row, agrees with the table. */
  ghost predicate EveryReadFaithful(env: Env, t: Tx)
    requires TxOk(t)
    decreases Measure(t.mem)
  {
    DecideNext(t.mem) == DecideNext(Load(t.Rows())) && ReadsTable(env, t) &&
    (DecideNext(t.mem).Dispatch? ==>
      var batch := BatchOf(t.mem, DecideNext(t.mem).keys);
      var (t1, sends) := RunBatch(env, t, batch);
      AdvanceDispatches(env, t);
      (forall k :: 0 <= k < |batch| ==> FaithfulTurn(env, t, batch, k)) &&
      (if BatchFailed(t1.mem, batch) then EveryReadFaithful(env, t1) else sends == [] ==> EveryReadFaithful(env, AfterSends(t1, sends))))
  }

  lemma TimesAtPass(t: Tx)
    requires PassOk(t)
    ensures TurnTimes(t) && Sound(t.db.execs[t.e])
  {
    hide MidTx, Barrier, StepSorted, LoopOrder, WfRows, Mirror, CompletedTogether, PendingTogether, TimesShown, RepetitionsLater, OnlySendsSeparate, Sound, TimedBut;
  }

  lemma DecisionFaithful(env: Env, t: Tx)
    requires PassOk(t)
    ensures DecideNext(t.mem) == DecideNext(Load(t.Rows())) && ReadsTable(env, t)
  {
    hide WfRows, LoopOrder, Mirror, StepSorted, Sound, ReadsTable, Barrier, TimedTx, Tracked, TurnTimes, SoundDb;
    SameDecision(t);
    TimesAtPass(t);
    MemoryReadsTable(env, t);
  }

  lemma BatchFaithful(env: Env, t: Tx)
    requires PassOk(t) && DecideNext(t.mem).Dispatch?
    ensures var batch := BatchOf(t.mem, DecideNext(t.mem).keys); forall k :: 0 <= k < |batch| ==> FaithfulTurn(env, t, batch, k)
  {
    hide MidTx, Barrier, StepSorted, LoopOrder, WfRows, Mirror, SoundDb, TimedTx, Tracked, FaithfulTurn, IsBatch, BatchOf;
    var batch := BatchOf(t.mem, DecideNext(t.mem).keys);
    DispatchedBatch(t);
    forall k | 0 <= k < |batch| ensures FaithfulTurn(env, t, batch, k) { TurnIsFaithful(env, t, DecideNext(t.mem).step, batch, k); }
  }

  /** The loop goes round with all that is known. */
  lemma PassGoesOn(env: Env, t: Tx)
    requires PassOk(t) && DecideNext(t.mem).Dispatch?
    ensures var batch := BatchOf(t.mem, DecideNext(t.mem).keys);
            var (t1, sends) := RunBatch(env, t, batch);
            PassOk(t1) && (!BatchFailed(t1.mem, batch) ==> PassOk(AfterSends(t1, sends)))
  {
    hide MidTx, Barrier, StepSorted, LoopOrder, Mirror, WfRows, SoundDb, TimedTx, Tracked, IsBatch, MemAfter, SendsFit, RunBatch, BatchOf, BatchFailed, AfterSends, DecideNext;
    PassContinues(env, t);
    DispatchKeepsSound(env, t);
    DispatchTimed(env, t);
    BatchProgress(env, t);
    var batch := BatchOf(t.mem, DecideNext(t.mem).keys);
    var (t1, sends) := RunBatch(env, t, batch);
    TrackedAtTurn(env, t, DecideNext(t.mem).step, batch, |batch|);
    assert batch[..|batch|] == batch;
    TrackedAfterSends(t1, batch, sends);
  }

  lemma {:induction false} PassReadsFaithfully(env: Env, t: Tx)
    requires PassOk(t)
    ensures EveryReadFaithful(env, t)
    decreases Measure(t.mem)
  {
    hide MidTx, Barrier, StepSorted, LoopOrder, Mirror, WfRows, SoundDb, TimedTx, Tracked, FaithfulTurn, ReadsTable, RunBatch, BatchOf, BatchFailed, AfterSends, DecideNext;
    DecisionFaithful(env, t);
    if DecideNext(t.mem).Dispatch? {
      BatchFaithful(env, t);
      AdvanceDispatches(env, t);
      PassGoesOn(env, t);
      var batch := BatchOf(t.mem, DecideNext(t.mem).keys);
      var (t1, sends) := RunBatch(env, t, batch);
      if BatchFailed(t1.mem, batch) { PassReadsFaithfully(env, t1); }
      else if sends == [] { PassReadsFaithfully(env, AfterSends(t1, sends)); }
    }
  }

  lemma OpenedIsTimed(g: System, ev: Event)
    requires Inv(g) && TimedDb(g.db) && Enabled(g, ev) && Opened(g.db, ev).Some?
    ensures TimedTx(Opened(g.db, ev).value)
  {
    hide Served, TimedDb, TimedTx, Settled, WfRows, LoopOrder;
    DbInvLayout(g.db);
    match ev
    case StartRun(c, _, now) =>
      var e := c.payload.message.exec;
      StatusTimedDb(g.db, e, now);
      LockTimed(SetStatus(g.db, e, RUNNING, now), e, now);
    case TakeResult(c, _, now) =>
      var (e, a) := TargetOfResult(c.payload);
      ResultsAreExpected(g, c);
      LockTimed(g.db, e, now);
      LockFinds(g.db, e, a, now);
      RecordTimed(Lock(g.db, e, now), FindId(Lock(g.db, e, now).mem, a).value, ReportOf(c.payload));
  }

  /** In every run, whatever a message sets off is decided, scoped and batched as the table would have it, overtaken variables apart. */
  lemma ReadsFaithfulInEveryRun(env: Env, states: seq<System>, events: seq<Event>, k: nat)
    requires IsRun(env, states, events) && k < |events| && Opened(states[k].db, events[k]).Some?
    ensures var t := Opened(states[k].db, events[k]).value; TxOk(t) && EveryReadFaithful(env, t)
  {
    hide Served, DbInv, SoundDb, TimedDb, TimedTx, MidTx, TxOk, Opened, EveryReadFaithful, Tracked;
    RunsKeepInv(env, states, events, k);
    RunsStaySound(env, states, events, k);
    RunsStayTimed(env, states, events, k);
    OpenedIsSound(states[k], events[k]);
    OpenedIsTimed(states[k], events[k]);
    OpenedIsTracked(states[k], events[k]);
    PassReadsFaithfully(env, Opened(states[k].db, events[k]).value);
  }
}
