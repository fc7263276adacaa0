/**
 * In every run, the plain variable.set actions of a step finish together, and so do
 * all repetitions of its looped ones.
 */
module FinishTimes {
  import opened Base
  import opened Templates
  import opened Control
  import opened Progress
  import opened Store
  import opened RowInvariants
  import opened Engine
  import opened AdvanceLoop
  import opened Issues
  import opened Invariants
  import opened Transactions
  import opened Evolution
  import opened Network
  import opened Soundness
  import opened Rereading
  import opened Assignments

  /** Two variable.set rows of one step that are both repetitions, or both not. */
  predicate Peers(a: Row, b: Row) { a.typ == VARIABLE && b.typ == VARIABLE && a.step == b.step && a.parent.Some? == b.parent.Some? }

  predicate SameEnd(a: Row, b: Row) { Peers(a, b) && a.status.Completed? && b.status.Completed? ==> a.finishedAt == b.finishedAt }

  predicate SamePending(a: Row, b: Row) { Peers(a, b) ==> a.status.Pending? == b.status.Pending? }

  /** Peers that completed, completed at one time. */
  predicate CompletedTogether(rows: seq<Row>) { forall i, j :: 0 <= i < |rows| && 0 <= j < |rows| ==> SameEnd(rows[i], rows[j]) }

  /** Peers are handled in one batch, all or none. */
  predicate PendingTogether(rows: seq<Row>) { forall i, j :: 0 <= i < |rows| && 0 <= j < |rows| ==> SamePending(rows[i], rows[j]) }

  predicate Ended(row: Row) { row.status.Completed? ==> row.finishedAt.Some? }

  predicate AllEnded(rows: seq<Row>) { forall i :: 0 <= i < |rows| ==> Ended(rows[i]) }

  predicate Blank(row: Row) { row.status.Pending? ==> row.finishedAt.None? }

  predicate AllBlank(rows: seq<Row>) { forall i :: 0 <= i < |rows| ==> Blank(rows[i]) }

  predicate Timed(rows: seq<Row>) { CompletedTogether(rows) && PendingTogether(rows) && AllBlank(rows) && AllEnded(rows) }

  predicate TimedBut(db: Db, e: nat) { forall f :: 0 <= f < |db.execs| && f != e ==> Timed(db.execs[f].rows) }

  predicate TimedDb(db: Db) { forall f :: 0 <= f < |db.execs| ==> Timed(db.execs[f].rows) }

  predicate TimedTx(t: Tx) {
    t.Bounded() && Timed(t.Rows()) && CompletedTogether(t.mem) && AllBlank(t.mem) && TimedBut(t.db, t.e)
  }

  // ---------------------------------------------------------------- one row

  predicate FreshChild(row: Row, head: nat) { row.status.Pending? && row.finishedAt.None? && row.parent == Some(head) }

  /** What handling row `i` does to times: memory keeps them all, the table notes now for the handled row. */
  predicate TimesStep(t: Tx, t': Tx, i: nat)
    requires t.Bounded() && i < |t.mem|
  {
    t'.Bounded() && t'.e == t.e && t'.now == t.now && |t'.mem| >= |t.mem| && |t'.Rows()| >= |t.Rows()| &&
    (forall j :: 0 <= j < |t.mem| && j != i ==> t'.mem[j] == t.mem[j]) && t'.mem[i].finishedAt == t.mem[i].finishedAt &&
    (forall j :: |t.mem| <= j < |t'.mem| ==> FreshChild(t'.mem[j], t.mem[i].id)) &&
    (forall a :: 0 <= a < |t.Rows()| && a != t.mem[i].id ==> t'.Rows()[a] == t.Rows()[a]) &&
    (forall a :: |t.Rows()| <= a < |t'.Rows()| ==> FreshChild(t'.Rows()[a], t.mem[i].id)) &&
    StaticSame(t.Rows()[t.mem[i].id], t'.Rows()[t.mem[i].id]) &&
    (t'.Rows()[t.mem[i].id].status.Completed? ==> t'.Rows()[t.mem[i].id].finishedAt == Some(t.now)) &&
    (t'.Rows()[t.mem[i].id].status.Pending? ==> t'.Rows()[t.mem[i].id] == t.Rows()[t.mem[i].id]) &&
    (TimedBut(t.db, t.e) ==> TimedBut(t'.db, t.e))
  }

  lemma OthersStay(db: Db, db': Db, e: nat)
    requires |db'.execs| == |db.execs| && forall f :: 0 <= f < |db.execs| && f != e ==> db'.execs[f] == db.execs[f]
    ensures TimedBut(db, e) ==> TimedBut(db', e)
  {
  }

  lemma SimpleTimes(t: Tx, i: nat)
    requires TxOk(t) && i < |t.mem| && t.mem[i].status.Pending?
    ensures TimesStep(t, t, i) && TimesStep(t, Skip(t, i), i) && TimesStep(t, FailRow(t, i), i)
  {
    hide WfRows, LoopOrder, StepSorted, TimedBut;
    assert SameButTimes(t.mem[i], t.Rows()[t.mem[i].id]);
    OthersStay(t.db, Skip(t, i).db, t.e);
    OthersStay(t.db, FailRow(t, i).db, t.e);
  }

  lemma ScriptTimes(env: Env, t: Tx, i: nat, params: Json)
    requires TxOk(t) && i < |t.mem| && t.mem[i].status.Pending?
    ensures TimesStep(t, Script(env, t, i, params), i)
  {
    hide WfRows, LoopOrder, StepSorted, Mirror, TimedBut, Evaluate;
    OthersStay(t.db, Script(env, t, i, params).db, t.e);
  }

  lemma ExpandTimes(t: Tx, i: nat, items: seq<Json>)
    requires TxOk(t) && i < |t.mem| && t.mem[i].status.Pending?
    ensures TimesStep(t, Expand(t, i, items), i)
  {
    hide WfRows, LoopOrder, StepSorted, Mirror, TimedBut, FreshChild;
    var t' := Expand(t, i, items);
    var rows, id := t.Rows(), t.mem[i].id;
    OthersStay(t.db, t'.db, t.e);
    var children := ChildRows(|rows|, rows[id], items);
    RowIds(rows, t.db.execs[t.e].authored, id);
    ChildrenFresh(|rows|, rows[id], items);
    assert t'.mem == (t.mem + children)[i := t'.mem[i]];
    assert t'.Rows() == (rows + children)[id := t'.Rows()[id]];
  }

  lemma ChildrenFresh(first: nat, head: Row, items: seq<Json>)
    ensures forall k :: 0 <= k < |items| ==> FreshChild(ChildRows(first, head, items)[k], head.id)
  {
  }

  predicate RowIdIs(rows: seq<Row>, id: nat) { id < |rows| && rows[id].id == id }

  lemma RowIds(rows: seq<Row>, n: nat, id: nat)
    requires WfRows(rows, n) && id < |rows|
    ensures RowIdIs(rows, id)
  {
    if id < n { assert AuthorRow(rows[id], id); } else { assert ChildOf(rows[id], id, rows[rows[id].parent.value]); }
  }

  lemma NewIsTimed(routine: Routine, trigger: Trigger)
    ensures Timed(NewExec(routine, trigger).rows)
  {
  }

  lemma CallTimes(t: Tx, i: nat, target: Routine, params: Json)
    requires TxOk(t) && i < |t.mem| && t.mem[i].status.Pending?
    ensures TimesStep(t, Call(t, i, target, params), i)
  {
    hide WfRows, LoopOrder, StepSorted, Mirror, Timed;
    var t' := Call(t, i, target, params);
    var input := Field(params, "input");
    NewIsTimed(target, Trigger("routine", None, None, Some(Obj(map["input" := if input.Some? then input.value else Null])),
                               Some(Caller(t.e, t.mem[i].id)), t.db.execs[t.e].depth + 1));
    assert forall f :: 0 <= f < |t.db.execs| && f != t.e ==> t'.db.execs[f] == t.db.execs[f];
  }

  lemma ProcessOneTimes(env: Env, t: Tx, i: nat)
    requires TxOk(t) && i < |t.mem| && t.mem[i].status.Pending?
    ensures TimesStep(t, ProcessOne(env, t, i).0, i)
  {
    hide WfRows, LoopOrder, StepSorted, Mirror, TimesStep, Skip, FailRow, Expand, Call, Script;
    var a := t.mem[i];
    SimpleTimes(t, i);
    if a.runIf.Some? && !RunIfHolds(t.mem, a.runIf.value) {
    } else if a.LoopHead() {
      match Resolve(Str(a.forEach.value), ScopeFor(env, t, i), env.render)
      case Some(Arr(items)) => ExpandTimes(t, i, items);
      case _ =>
    } else {
      match Resolve(a.params, ScopeFor(env, t, i), env.render)
      case None =>
      case Some(params) =>
        ScriptTimes(env, t, i, params);
        var target := TargetOf(t.db, t.db.execs[t.e].owner, params);
        if target.Some? { CallTimes(t, i, target.value, params); }
    }
  }

  // ---------------------------------------------------------------- a batch

  predicate HandledId(mem: seq<Row>, done: seq<nat>, id: nat) { exists k :: 0 <= k < |done| && done[k] < |mem| && mem[done[k]].id == id }

  predicate ChildOfHandled(row: Row, mem: seq<Row>, done: seq<nat>) {
    row.status.Pending? && row.finishedAt.None? && row.parent.Some? && HandledId(mem, done, row.parent.value)
  }

  /** The same for the rows `done` of a batch. */
  predicate BatchTimes(t: Tx, t1: Tx, done: seq<nat>)
    requires t.Bounded()
  {
    t1.Bounded() && t1.e == t.e && t1.now == t.now && |t1.mem| >= |t.mem| && |t1.Rows()| >= |t.Rows()| &&
    (forall j :: 0 <= j < |t.mem| ==> t1.mem[j].finishedAt == t.mem[j].finishedAt) &&
    (forall j :: |t.mem| <= j < |t1.mem| ==> ChildOfHandled(t1.mem[j], t.mem, done)) &&
    (forall a :: 0 <= a < |t.Rows()| ==> RowAfter(t.Rows()[a], t1.Rows()[a], HandledId(t.mem, done, a), t.now)) &&
    (forall a :: |t.Rows()| <= a < |t1.Rows()| ==> ChildOfHandled(t1.Rows()[a], t.mem, done)) &&
    (TimedBut(t.db, t.e) ==> TimedBut(t1.db, t.e))
  }

  predicate RowAfter(r: Row, r': Row, handled: bool, now: nat) {
    StaticSame(r, r') &&
    if handled then (r'.status.Completed? ==> r'.finishedAt == Some(now)) && (r'.status.Pending? ==> r' == r) else r' == r
  }

  lemma HandledMore(mem: seq<Row>, done: seq<nat>, i: nat, id: nat)
    requires i < |mem|
    ensures HandledId(mem, done + [i], id) <==> HandledId(mem, done, id) || mem[i].id == id
  {
    var done' := done + [i];
    if HandledId(mem, done, id) {
      var k :| 0 <= k < |done| && done[k] < |mem| && mem[done[k]].id == id;
      assert done'[k] == done[k];
    }
    if mem[i].id == id { assert done'[|done|] == i; }
  }

  lemma TimesGrow(t: Tx, t1: Tx, t2: Tx, done: seq<nat>, i: nat)
    requires t.Bounded() && BatchTimes(t, t1, done) && i < |t.mem| && t1.mem[i].id == t.mem[i].id && TimesStep(t1, t2, i)
    requires !HandledId(t.mem, done, t.mem[i].id)
    ensures BatchTimes(t, t2, done + [i])
  {
    hide TimedBut, HandledId, StaticSame;
    var done' := done + [i];
    forall id: nat ensures HandledId(t.mem, done', id) <==> HandledId(t.mem, done, id) || t.mem[i].id == id { HandledMore(t.mem, done, i, id); }
    forall a | 0 <= a < |t.Rows()| ensures RowAfter(t.Rows()[a], t2.Rows()[a], HandledId(t.mem, done', a), t.now) {
      assert RowAfter(t.Rows()[a], t1.Rows()[a], HandledId(t.mem, done, a), t.now);
    }
    forall j | |t.mem| <= j < |t2.mem| ensures ChildOfHandled(t2.mem[j], t.mem, done') {
      if j < |t1.mem| { assert ChildOfHandled(t1.mem[j], t.mem, done); }
    }
    forall a | |t.Rows()| <= a < |t2.Rows()| ensures ChildOfHandled(t2.Rows()[a], t.mem, done') {
      if a < |t1.Rows()| { assert ChildOfHandled(t1.Rows()[a], t.mem, done); }
    }
  }

  lemma {:induction false} RunBatchTimes(env: Env, t: Tx, s: nat, batch: seq<nat>, k: nat)
    requires TxOk(t) && IsBatch(t.mem, s, batch) && k <= |batch|
    ensures BatchTimes(t, RunBatch(env, t, batch[..k]).0, batch[..k])
  {
    hide WfRows, LoopOrder, Mirror, StepSorted, MemAfter, SendsFit, BatchTimes, TimesStep, ProcessOne;
    if k == 0 {
      NoTimes(t);
    } else {
      var done, i := batch[..k - 1], batch[k - 1];
      assert batch[..k][..k - 1] == done && batch[..k][|batch[..k]| - 1] == i && done + [i] == batch[..k];
      RunBatchTimes(env, t, s, batch, k - 1);
      RunBatchKeeps(env, t, s, batch, k - 1);
      var (t1, sends) := RunBatch(env, t, done);
      NextRowReady(t.mem, t1.mem, s, batch, k, sends);
      ProcessOneTimes(env, t1, i);
      NotYetHandled(t, done, i);
      TimesGrow(t, t1, ProcessOne(env, t1, i).0, done, i);
    }
  }

  lemma NoTimes(t: Tx)
    requires t.Bounded()
    ensures BatchTimes(t, t, [])
  {
  }

  lemma NotYetHandled(t: Tx, done: seq<nat>, i: nat)
    requires TxOk(t) && i < |t.mem| && i !in done
    ensures !HandledId(t.mem, done, t.mem[i].id)
  {
    hide WfRows, LoopOrder, StepSorted;
    forall k | 0 <= k < |done| && done[k] < |t.mem| ensures t.mem[done[k]].id != t.mem[i].id {
      assert done[k] in done;
    }
  }

  // ---------------------------------------------------------------- times at every turn

  lemma HandledWasPending(t: Tx, s: nat, batch: seq<nat>, k: nat, id: nat)
    requires TxOk(t) && IsBatch(t.mem, s, batch) && k <= |batch| && id < |t.Rows()| && HandledId(t.mem, batch[..k], id)
    ensures t.Rows()[id].status.Pending? && t.Rows()[id].step == s
  {
    hide WfRows, LoopOrder, StepSorted;
    var j :| 0 <= j < |batch[..k]| && batch[..k][j] < |t.mem| && t.mem[batch[..k][j]].id == id;
    assert batch[..k][j] == batch[j];
    MirrorRow(t.mem, t.Rows(), batch[j]);
  }

  /** In the table, at any turn of a batch: completed peers completed together. */
  lemma TableTimes(t: Tx, t1: Tx, s: nat, batch: seq<nat>, k: nat)
    requires TxOk(t) && TimedTx(t) && IsBatch(t.mem, s, batch) && k <= |batch| && BatchTimes(t, t1, batch[..k])
    ensures CompletedTogether(t1.Rows())
  {
    hide WfRows, LoopOrder, Mirror, StepSorted, IsBatch, TimedBut, HandledId;
    var done := batch[..k];
    forall a, b | 0 <= a < |t1.Rows()| && 0 <= b < |t1.Rows()| ensures SameEnd(t1.Rows()[a], t1.Rows()[b]) {
      if a < |t.Rows()| && b < |t.Rows()| {
        assert SameEnd(t.Rows()[a], t.Rows()[b]) && SamePending(t.Rows()[a], t.Rows()[b]);
        assert RowAfter(t.Rows()[a], t1.Rows()[a], HandledId(t.mem, done, a), t.now);
        assert RowAfter(t.Rows()[b], t1.Rows()[b], HandledId(t.mem, done, b), t.now);
        if HandledId(t.mem, done, a) { HandledWasPending(t, s, batch, k, a); }
        if HandledId(t.mem, done, b) { HandledWasPending(t, s, batch, k, b); }
      } else if a >= |t.Rows()| {
        assert ChildOfHandled(t1.Rows()[a], t.mem, done);
      } else {
        assert ChildOfHandled(t1.Rows()[b], t.mem, done);
      }
    }
  }

  lemma InDone(mem: seq<Row>, batch: seq<nat>, k: nat, s: nat, i: nat)
    requires IsBatch(mem, s, batch) && k <= |batch| && i < |mem| && i in batch[..k]
    ensures mem[i].status.Pending?
  {
    var j :| 0 <= j < |batch[..k]| && batch[..k][j] == i;
    assert batch[j] == i;
  }

  /** And in memory. */
  lemma MemoryTimes(t: Tx, t1: Tx, s: nat, batch: seq<nat>, k: nat)
    requires TxOk(t) && TimedTx(t) && IsBatch(t.mem, s, batch) && k <= |batch| && BatchTimes(t, t1, batch[..k]) && MemAfter(t.mem, t1.mem, s, batch[..k])
    ensures CompletedTogether(t1.mem)
  {
    hide WfRows, LoopOrder, StepSorted, IsBatch, TimedBut, HandledId;
    var done := batch[..k];
    forall a, b | 0 <= a < |t1.mem| && 0 <= b < |t1.mem| ensures SameEnd(t1.mem[a], t1.mem[b]) {
      if a < |t.mem| && b < |t.mem| {
        assert StaticSame(t.mem[a], t1.mem[a]) && StaticSame(t.mem[b], t1.mem[b]) && SameEnd(t.mem[a], t.mem[b]);
        assert SameButTimes(t.mem[a], t.Rows()[t.mem[a].id]) && SameButTimes(t.mem[b], t.Rows()[t.mem[b].id]);
        assert SamePending(t.Rows()[t.mem[a].id], t.Rows()[t.mem[b].id]);
        if a in done { InDone(t.mem, batch, k, s, a); }
        if b in done { InDone(t.mem, batch, k, s, b); }
        assert Blank(t.mem[a]) && Blank(t.mem[b]);
      } else if a >= |t.mem| {
        assert ChildOfHandled(t1.mem[a], t.mem, done);
      } else {
        assert ChildOfHandled(t1.mem[b], t.mem, done);
      }
    }
  }

  // ---------------------------------------------------------------- a whole batch

  /** After a whole batch none of its variable.set rows is left pending. */
  lemma HandledAll(t: Tx, t1: Tx, s: nat, batch: seq<nat>, sends: seq<Send>, id: nat)
    requires TxOk(t) && TxOk(t1) && IsBatch(t.mem, s, batch) && MemAfter(t.mem, t1.mem, s, batch) && SendsFit(t1.mem, batch, sends)
    requires id < |t.Rows()| <= |t1.Rows()| && t.Rows()[id].status.Pending? && t.Rows()[id].step == s && t.Rows()[id].typ == VARIABLE
    ensures !t1.Rows()[id].status.Pending? && HandledId(t.mem, batch, id)
  {
    hide WfRows, LoopOrder, StepSorted;
    var i := FoundIn(t.mem, t.Rows(), id);
    var k :| 0 <= k < |batch| && batch[k] == i;
    assert StaticSame(t.mem[i], t1.mem[i]);
    MirrorRow(t1.mem, t1.Rows(), i);
  }

  lemma PairStaysTogether(t: Tx, t1: Tx, s: nat, batch: seq<nat>, sends: seq<Send>, a: nat, b: nat)
    requires TxOk(t) && TimedTx(t) && TxOk(t1) && IsBatch(t.mem, s, batch) && MemAfter(t.mem, t1.mem, s, batch) && SendsFit(t1.mem, batch, sends)
    requires BatchTimes(t, t1, batch) && NewRowsOf(t, t1) && a < |t1.Rows()| && b < |t1.Rows()| && t1.Rows()[a].status.Pending?
    ensures Peers(t1.Rows()[a], t1.Rows()[b]) ==> t1.Rows()[b].status.Pending?
  {
    hide WfRows, LoopOrder, Mirror, StepSorted, IsBatch, TimedBut, HandledId, MemAfter, SendsFit, CompletedTogether, PendingTogether, NewRowsOf;
    var rows, rows1 := t.Rows(), t1.Rows();
    if Peers(rows1[a], rows1[b]) {
      if a < |rows| { assert RowAfter(rows[a], rows1[a], HandledId(t.mem, batch, a), t.now); }
      if b < |rows| { assert RowAfter(rows[b], rows1[b], HandledId(t.mem, batch, b), t.now); }
      if a < |rows| && b < |rows| {
        OldPair(t, t1, s, batch, sends, a, b);
      } else if b < |rows| {
        assert ChildOfHandled(rows1[a], t.mem, batch);
        NewPeer(t, t1, s, batch, a, b);
      } else {
        assert ChildOfHandled(rows1[b], t.mem, batch);
      }
    }
  }

  /** The rows a batch adds have type and step of the head they repeat. */
  predicate NewRowsOf(t: Tx, t1: Tx)
    requires t.Bounded() && t1.Bounded()
  {
    |t.Rows()| <= |t1.Rows()| &&
    forall a :: |t.Rows()| <= a < |t1.Rows()| ==> IsNewRow(t.Rows(), t1.Rows()[a])
  }

  predicate IsNewRow(rows: seq<Row>, row: Row) {
    row.parent.Some? && row.parent.value < |rows| && row.typ == rows[row.parent.value].typ && row.step == rows[row.parent.value].step &&
    rows[row.parent.value].parent.None?
  }

  lemma AddedRows(t: Tx, t1: Tx)
    requires TxOk(t) && TxOk(t1) && |t.Rows()| <= |t1.Rows()| && t1.e == t.e && t1.db.execs[t.e].authored == t.db.execs[t.e].authored
    requires forall a :: 0 <= a < |t.Rows()| ==> StaticSame(t.Rows()[a], t1.Rows()[a])
    ensures NewRowsOf(t, t1)
  {
    hide LoopOrder, Mirror, StepSorted;
    var rows, rows1, n := t.Rows(), t1.Rows(), t.db.execs[t.e].authored;
    forall a | |rows| <= a < |rows1| ensures IsNewRow(rows, rows1[a]) {
      assert ChildOf(rows1[a], a, rows1[rows1[a].parent.value]) && rows1[a].parent.value < n;
      assert AuthorRow(rows[rows1[a].parent.value], rows1[a].parent.value);
      assert StaticSame(rows[rows1[a].parent.value], rows1[rows1[a].parent.value]);
    }
  }

  /** A head handled in this batch was pending, so no setter of its step had repetitions before. */
  lemma NewPeer(t: Tx, t1: Tx, s: nat, batch: seq<nat>, a: nat, b: nat)
    requires TxOk(t) && TimedTx(t) && IsBatch(t.mem, s, batch) && t1.Bounded() && NewRowsOf(t, t1) && b < |t.Rows()| <= a < |t1.Rows()|
    requires t1.Rows()[a].parent.Some? && HandledId(t.mem, batch, t1.Rows()[a].parent.value)
    ensures !Peers(t1.Rows()[a], t.Rows()[b])
  {
    hide WfRows, LoopOrder, Mirror, StepSorted, IsBatch, HandledId, CompletedTogether, TimedBut;
    var rows, n, head := t.Rows(), t.db.execs[t.e].authored, t1.Rows()[a].parent.value;
    assert IsNewRow(rows, t1.Rows()[a]);
    assert batch[..|batch|] == batch;
    HandledWasPending(t, s, batch, |batch|, head);
    if rows[b].parent.Some? {
      HeadDone(rows, n, b);
      assert SamePending(rows[rows[b].parent.value], rows[head]);
    }
  }

  lemma HeadDone(rows: seq<Row>, n: nat, b: nat)
    requires WfRows(rows, n) && LoopOrder(rows, n) && b < |rows| && rows[b].parent.Some?
    ensures rows[b].parent.value < n <= |rows| && n <= b
    ensures var head := rows[rows[b].parent.value];
            head.parent.None? && head.status.Completed? && head.LoopHead() && head.typ == rows[b].typ && head.step == rows[b].step && head.params == rows[b].params
  {
    assert forall i :: 0 <= i < n ==> AuthorRow(rows[i], i);
    assert forall i :: n <= i < |rows| ==> ChildOf(rows[i], i, rows[rows[i].parent.value]);
  }

  lemma OldPair(t: Tx, t1: Tx, s: nat, batch: seq<nat>, sends: seq<Send>, a: nat, b: nat)
    requires TxOk(t) && TimedTx(t) && TxOk(t1) && IsBatch(t.mem, s, batch) && MemAfter(t.mem, t1.mem, s, batch) && SendsFit(t1.mem, batch, sends)
    requires |t.Rows()| <= |t1.Rows()| && a < |t.Rows()| && b < |t.Rows()| && t1.Rows()[a].status.Pending? && Peers(t1.Rows()[a], t1.Rows()[b])
    requires RowAfter(t.Rows()[a], t1.Rows()[a], HandledId(t.mem, batch, a), t.now) && RowAfter(t.Rows()[b], t1.Rows()[b], HandledId(t.mem, batch, b), t.now)
    ensures t1.Rows()[b].status.Pending?
  {
    hide WfRows, LoopOrder, Mirror, StepSorted, IsBatch, TimedBut, HandledId, MemAfter, SendsFit, CompletedTogether;
    var rows := t.Rows();
    assert Peers(rows[a], rows[b]) && SamePending(rows[a], rows[b]);
    assert batch[..|batch|] == batch;
    if HandledId(t.mem, batch, a) {
      HandledWasPending(t, s, batch, |batch|, a);
      HandledAll(t, t1, s, batch, sends, a);
    }
    if HandledId(t.mem, batch, b) {
      HandledWasPending(t, s, batch, |batch|, b);
      HandledAll(t, t1, s, batch, sends, a);
    }
  }

  lemma BatchKeepsTimed(t: Tx, t1: Tx, s: nat, batch: seq<nat>, sends: seq<Send>)
    requires TxOk(t) && TimedTx(t) && TxOk(t1) && IsBatch(t.mem, s, batch) && MemAfter(t.mem, t1.mem, s, batch) && SendsFit(t1.mem, batch, sends)
    requires BatchTimes(t, t1, batch) && t1.db.execs[t.e].authored == t.db.execs[t.e].authored
    ensures TimedTx(t1)
  {
    hide WfRows, LoopOrder, Mirror, StepSorted, IsBatch, TimedBut, HandledId, MemAfter, SendsFit, CompletedTogether, Peers;
    assert batch[..|batch|] == batch;
    TableStatics(t, t1, batch);
    AddedRows(t, t1);
    TableTimes(t, t1, s, batch, |batch|);
    MemoryTimes(t, t1, s, batch, |batch|);
    forall a, b | 0 <= a < |t1.Rows()| && 0 <= b < |t1.Rows()| ensures SamePending(t1.Rows()[a], t1.Rows()[b]) {
      if t1.Rows()[a].status.Pending? { PairStaysTogether(t, t1, s, batch, sends, a, b); }
      if t1.Rows()[b].status.Pending? { PairStaysTogether(t, t1, s, batch, sends, b, a); PeersSwap(t1.Rows()[a], t1.Rows()[b]); }
    }
    BlankStays(t, t1, s, batch);
  }

  lemma PeersSwap(a: Row, b: Row)
    ensures Peers(a, b) == Peers(b, a)
  {
  }

  lemma TableStatics(t: Tx, t1: Tx, done: seq<nat>)
    requires t.Bounded() && BatchTimes(t, t1, done)
    ensures forall a :: 0 <= a < |t.Rows()| ==> StaticSame(t.Rows()[a], t1.Rows()[a])
  {
    hide HandledId, TimedBut;
    assert forall a :: 0 <= a < |t.Rows()| ==> RowAfter(t.Rows()[a], t1.Rows()[a], HandledId(t.mem, done, a), t.now);
  }

  lemma BlankStays(t: Tx, t1: Tx, s: nat, batch: seq<nat>)
    requires TxOk(t) && TimedTx(t) && TxOk(t1) && IsBatch(t.mem, s, batch) && MemAfter(t.mem, t1.mem, s, batch) && BatchTimes(t, t1, batch)
    ensures AllBlank(t1.mem) && AllBlank(t1.Rows()) && AllEnded(t1.Rows())
  {
    hide WfRows, LoopOrder, StepSorted, TimedBut, HandledId, CompletedTogether, PendingTogether, Mirror;
    forall j | 0 <= j < |t1.mem| ensures Blank(t1.mem[j]) {
      if j < |t.mem| {
        assert Blank(t.mem[j]);
        if j in batch { var k :| 0 <= k < |batch| && batch[k] == j; }
      } else { assert ChildOfHandled(t1.mem[j], t.mem, batch); }
    }
    forall a | 0 <= a < |t1.Rows()| ensures Blank(t1.Rows()[a]) && Ended(t1.Rows()[a]) {
      if a < |t.Rows()| {
        assert RowAfter(t.Rows()[a], t1.Rows()[a], HandledId(t.mem, batch, a), t.now) && Blank(t.Rows()[a]) && Ended(t.Rows()[a]);
      } else { assert ChildOfHandled(t1.Rows()[a], t.mem, batch); }
    }
  }

  // ---------------------------------------------------------------- sends and ends

  lemma TimedUpdate(rows: seq<Row>, i: nat, r: Row)
    requires i < |rows| && rows[i].typ == r.typ != VARIABLE && (r.status.Pending? ==> r.finishedAt.None?)
    ensures CompletedTogether(rows) ==> CompletedTogether(rows[i := r])
    ensures PendingTogether(rows) ==> PendingTogether(rows[i := r])
    ensures AllBlank(rows) ==> AllBlank(rows[i := r])
    ensures AllEnded(rows) && Ended(r) ==> AllEnded(rows[i := r])
  {
  }

  /** One row that sets no variable changes, in memory and in the table. */
  lemma TimedRowUpdate(t: Tx, t': Tx, i: nat)
    requires t.Bounded() && TimedTx(t) && i < |t.mem| && Updated(t, t', i) && t.mem[i].typ != VARIABLE && t.Rows()[t.mem[i].id].typ != VARIABLE
    requires StaticSame(t.Rows()[t.mem[i].id], t'.Rows()[t.mem[i].id]) && !t'.mem[i].status.Pending? && Ended(t'.Rows()[t.mem[i].id])
    requires |t'.db.execs| == |t.db.execs| && forall f :: 0 <= f < |t.db.execs| && f != t.e ==> t'.db.execs[f] == t.db.execs[f]
    ensures TimedTx(t')
  {
    hide CompletedTogether, PendingTogether, AllBlank, AllEnded, TimedBut;
    TimedUpdate(t.mem, i, t'.mem[i]);
    TimedUpdate(t.Rows(), t.mem[i].id, t'.Rows()[t.mem[i].id]);
    OthersStay(t.db, t'.db, t.e);
  }

  lemma SendOneTimed(t: Tx, s: Send)
    requires TxOk(t) && TimedTx(t) && s.i < |t.mem| && SendReady(t.mem[s.i])
    ensures TimedTx(SendOne(t, s))
  {
    hide WfRows, LoopOrder, StepSorted, TimedTx;
    MirrorRow(t.mem, t.Rows(), s.i);
    TimedRowUpdate(t, SendOne(t, s), s.i);
  }

  lemma {:induction false} SendAllTimed(t: Tx, sends: seq<Send>)
    requires TxOk(t) && TimedTx(t) && forall q :: 0 <= q < |sends| ==> sends[q].i < |t.mem| && SendReady(t.mem[sends[q].i])
    requires forall q, r :: 0 <= q < r < |sends| ==> sends[q].i != sends[r].i
    ensures TimedTx(SendAll(t, sends))
  {
    hide WfRows, LoopOrder, Mirror, StepSorted, TimedTx;
    if sends != [] {
      var front, last := sends[..|sends| - 1], sends[|sends| - 1];
      SendAllTimed(t, front);
      SendAllKeeps(t, front);
      SentGrows(t.mem, SendAll(t, front).mem, sends, t.now);
      SendOneTimed(SendAll(t, front), last);
    }
  }

  lemma StatusTimed(t: Tx, status: ExecStatus)
    requires TimedTx(t)
    ensures TimedTx(t.(db := SetStatus(t.db, t.e, status, t.now)))
  {
    OthersStay(t.db, SetStatus(t.db, t.e, status, t.now), t.e);
  }

  lemma AfterSendsTimed(t: Tx, batch: seq<nat>, sends: seq<Send>)
    requires TxOk(t) && TimedTx(t) && SendsFit(t.mem, batch, sends)
    ensures TimedTx(AfterSends(t, sends))
  {
    hide TimedTx;
    SendAllTimed(t, sends);
    StatusTimed(SendAll(t, sends), RUNNING);
  }

  lemma SkippedTimed(rows: seq<Row>)
    requires Timed(rows)
    ensures Timed(SkipPendingRows(rows))
  {
    var rows' := SkipPendingRows(rows);
    forall i, j | 0 <= i < |rows'| && 0 <= j < |rows'| ensures SameEnd(rows'[i], rows'[j]) {
      assert SameEnd(rows[i], rows[j]);
    }
  }

  lemma EndsTimed(env: Env, t: Tx, key: string)
    requires t.Bounded() && TimedTx(t)
    ensures TimedDb(CompleteExecution(env, t).db) && TimedDb(FailExecution(t, key).db) && TimedDb(WaitForResults(env, t).db)
  {
    hide Timed;
    SkippedTimed(t.Rows());
  }

  lemma TimedAll(t: Tx)
    requires TimedTx(t)
    ensures TimedDb(t.db)
  {
  }

  // ---------------------------------------------------------------- passes, transactions, runs

  lemma AuthoredStays(env: Env, t: Tx, s: nat, batch: seq<nat>, k: nat)
    requires TxOk(t) && IsBatch(t.mem, s, batch) && k <= |batch|
    ensures var t1 := RunBatch(env, t, batch[..k]).0; t.e < |t1.db.execs| && t1.db.execs[t.e].authored == t.db.execs[t.e].authored
  {
    hide WfRows, LoopOrder, Mirror, StepSorted, RunBatch, RowsEvolve;
    RunBatchEvolves(env, t, s, batch, k);
    assert forall j :: 0 <= j < k ==> batch[..k][j] == batch[j];
    HeaderAuthored(t.db.execs[t.e], RunBatch(env, t, batch[..k]).0.db.execs[t.e]);
  }

  lemma HeaderAuthored(x: Exec, y: Exec)
    requires SameHeader(x, y)
    ensures y.authored == x.authored
  {
    assert x.(status := PENDING, startedAt := None, rows := []).authored == y.(status := PENDING, startedAt := None, rows := []).authored;
  }

  lemma DispatchTimed(env: Env, t: Tx)
    requires TxOk(t) && TimedTx(t) && DecideNext(t.mem).Dispatch?
    ensures var batch := BatchOf(t.mem, DecideNext(t.mem).keys);
            var (t1, sends) := RunBatch(env, t, batch);
            TimedTx(t1) && (!BatchFailed(t1.mem, batch) ==> TimedTx(AfterSends(t1, sends)))
  {
    hide WfRows, LoopOrder, Mirror, StepSorted, IsBatch, MemAfter, SendsFit, BatchTimes, TimedTx, RunBatch, BatchOf, BatchFailed, AfterSends;
    var batch := BatchOf(t.mem, DecideNext(t.mem).keys);
    var (t1, sends) := RunBatch(env, t, batch);
    BatchProgress(env, t);
    RunBatchTimes(env, t, DecideNext(t.mem).step, batch, |batch|);
    AuthoredStays(env, t, DecideNext(t.mem).step, batch, |batch|);
    assert batch[..|batch|] == batch;
    BatchKeepsTimed(t, t1, DecideNext(t.mem).step, batch, sends);
    AfterSendsTimed(t1, batch, sends);
  }

  lemma {:induction false} AdvanceTimed(env: Env, t: Tx)
    requires TxOk(t) && TimedTx(t)
    ensures TimedDb(Advance(env, t).db)
    decreases Measure(t.mem)
  {
    hide WfRows, LoopOrder, Mirror, StepSorted, TimedTx, TimedDb, RunBatch, BatchOf, BatchFailed, AfterSends, CompleteExecution, FailExecution, WaitForResults;
    if DecideNext(t.mem).Dispatch? {
      var batch := BatchOf(t.mem, DecideNext(t.mem).keys);
      var (t1, sends) := RunBatch(env, t, batch);
      DispatchTimed(env, t);
      AdvanceDispatches(env, t);
      if BatchFailed(t1.mem, batch) { AdvanceTimed(env, t1); }
      else if sends == [] { AdvanceTimed(env, AfterSends(t1, sends)); }
      else { TimedAll(AfterSends(t1, sends)); }
    } else {
      EndsTimed(env, t, if DecideNext(t.mem).Fail? then DecideNext(t.mem).failedKey else "");
    }
  }

  lemma LockTimed(db: Db, e: nat, now: nat)
    requires LayoutOk(db) && e < |db.execs| && TimedDb(db)
    ensures TimedTx(Lock(db, e, now)) && TxOk(Lock(db, e, now))
  {
    hide LoopOrder, StepSorted, Mirror, WfRows;
    LockOk(db, e, now);
    var t := Lock(db, e, now);
    forall m | 0 <= m < |t.mem| ensures t.mem[m].id < |db.execs[e].rows| && t.mem[m] == db.execs[e].rows[t.mem[m].id] {
      LockLists(db, e, now, m);
    }
    assert Timed(db.execs[e].rows);
  }

  lemma RecordTimed(t: Tx, i: nat, report: Report)
    requires TxOk(t) && DbInv(t.db) && TimedTx(t) && i < |t.mem| && t.mem[i].status.InFlight()
    ensures TimedTx(Record(t, i, report))
  {
    hide WfRows, LoopOrder, StepSorted, Settled, TimedTx;
    MirrorRow(t.mem, t.Rows(), i);
    assert RowIssued(t.db.execs, t.db.log, t.e, t.mem[i].id);
    RecordUpdates(t, i, report);
    TimedRowUpdate(t, Record(t, i, report), i);
  }

  lemma StartTimed(env: Env, db: Db, e: nat, now: nat)
    requires LayoutOk(db) && TimedDb(db)
    ensures TimedDb(Start(env, db, e, now))
  {
    hide Timed, Advance, WfRows, LoopOrder;
    if e < |db.execs| && db.execs[e].status.PENDING? {
      var db1 := SetStatus(db, e, RUNNING, now);
      assert TimedDb(db1);
      LockTimed(db1, e, now);
      AdvanceTimed(env, Lock(db1, e, now));
    }
  }

  lemma ApplyResultTimed(env: Env, db: Db, e: nat, id: nat, report: Report, now: nat)
    requires DbInv(db) && TimedDb(db) && WasDispatched(db, e, id)
    ensures LayoutOk(db) && TimedDb(ApplyResult(env, db, e, id, report, now))
  {
    hide Issued, Settled, WfRows, LoopOrder, TimedDb, TimedTx, Advance;
    DbInvLayout(db);
    if e < |db.execs| {
      var t := Lock(db, e, now);
      LockTimed(db, e, now);
      LockFinds(db, e, id, now);
      var found := FindId(t.mem, id);
      if found.Some? && !t.mem[found.value].status.Terminal() {
        RecordUpdates(t, found.value, report);
        RecordTimed(t, found.value, report);
        TimedAll(Record(t, found.value, report));
        if !t.loaded.Terminal() { AdvanceTimed(env, Record(t, found.value, report)); }
      }
    }
  }

  lemma TriggerTimed(db: Db, routine: Routine, trigger: Trigger)
    requires TimedDb(db)
    ensures TimedDb(CreateExecution(db, routine, trigger).0)
  {
    hide Timed;
    NewIsTimed(routine, trigger);
  }

  lemma SweepTimed(db: Db, now: nat, waitingAfter: nat)
    requires TimedDb(db)
    ensures TimedDb(MarkStale(db, now, waitingAfter))
  {
    hide Timed;
  }

  lemma EventTimed(env: Env, g: System, ev: Event)
    requires Inv(g) && TimedDb(g.db) && Enabled(g, ev) && LayoutOk(g.db)
    ensures TimedDb(After(env, g, ev).db)
  {
    hide Served, DbInv, TimedDb, Timed, LayoutOk;
    match ev
    case TriggerRun(id, kind, slot, key, payload) => TriggerTimed(g.db, g.db.routines[id], Engine.Trigger(kind, slot, key, payload, None, 0));
    case StartRun(c, ack, now) => StartTimed(env, g.db, c.payload.message.exec, now);
    case TakeResult(c, ack, now) =>
      var (e, a) := TargetOfResult(c.payload);
      ResultsAreExpected(g, c);
      ApplyResultTimed(env, g.db, e, a, ReportOf(c.payload), now);
    case Sweep(now) => SweepTimed(g.db, now, env.waitingAfter);
    case Save(routine) => SameExecsTimed(g.db, SaveRoutine(g.db, routine));
    case _ =>
  }

  lemma SameExecsTimed(db: Db, db': Db)
    requires TimedDb(db) && db'.execs == db.execs
    ensures TimedDb(db')
  {
  }

  lemma {:induction false} RunsStayTimed(env: Env, states: seq<System>, events: seq<Event>, k: nat)
    requires IsRun(env, states, events) && k < |states|
    ensures TimedDb(states[k].db)
  {
    hide Inv, After, Enabled;
    if k > 0 {
      RunsStayTimed(env, states, events, k - 1);
      RunsKeepInv(env, states, events, k - 1);
      EventTimed(env, states[k - 1], events[k - 1]);
    }
  }
}
