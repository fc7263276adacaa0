/**
 * The loop of `#advance`: what one row of a batch does to memory and table, why
 * every dispatch iteration makes progress, and the loop as a terminating function.
 */
module AdvanceLoop {
  import opened Base
  import opened Templates
  import opened Control
  import opened Progress
  import opened Store
  import opened RowInvariants
  import opened Engine

  /** Same row apart from what a run changes. */
  predicate StaticSame(a: Row, b: Row) {
    a.(status := Pending, output := None, dispatchedAt := None, finishedAt := None) ==
    b.(status := Pending, output := None, dispatchedAt := None, finishedAt := None)
  }

  /** The rows of the transaction's execution are well laid out and memory mirrors them. */
  predicate TxOk(t: Tx) {
    t.Bounded() && WfRows(t.Rows(), t.db.execs[t.e].authored) && LoopOrder(t.Rows(), t.db.execs[t.e].authored) &&
    Mirror(t.mem, t.Rows()) && StepSorted(t.mem)
  }

  // ---------------------------------------------------------------- updating one row

  lemma MirrorUpdate(mem: seq<Row>, rows: seq<Row>, i: nat, m: Row, r: Row)
    requires Mirror(mem, rows) && i < |mem| && m.id == mem[i].id && SameButTimes(m, r)
    ensures Mirror(mem[i := m], rows[mem[i].id := r])
  {
    var mem', rows' := mem[i := m], rows[mem[i].id := r];
    forall id: nat | id < |rows'| ensures Holds(mem', id) {
      assert Holds(mem, id);
      var j :| 0 <= j < |mem| && mem[j].id == id;
      assert mem'[j].id == id;
    }
    forall j | 0 <= j < |mem'| ensures mem'[j].id < |rows'| && SameButTimes(mem'[j], rows'[mem'[j].id]) {
      if j != i {
        assert mem[j].id != mem[i].id by { if j < i {} else {} }
      }
    }
  }

  /** The layout depends only on what a run never changes. */
  lemma WfStatic(rows: seq<Row>, n: nat, rows': seq<Row>)
    requires WfRows(rows, n) && |rows'| == |rows| && forall i :: 0 <= i < |rows| ==> StaticSame(rows[i], rows'[i])
    ensures WfRows(rows', n)
  {
    forall i | n <= i < |rows'| ensures ChildOf(rows'[i], i, rows'[rows'[i].parent.value]) && rows'[rows'[i].parent.value].LoopHead() {
      assert ChildOf(rows[i], i, rows[rows[i].parent.value]);
    }
  }

  lemma WfUpdate(rows: seq<Row>, n: nat, id: nat, r: Row)
    requires WfRows(rows, n) && id < |rows| && StaticSame(rows[id], r)
    ensures WfRows(rows[id := r], n)
  {
    WfStatic(rows, n, rows[id := r]);
  }

  lemma LoopOrderUpdate(rows: seq<Row>, n: nat, id: nat, r: Row)
    requires WfRows(rows, n) && LoopOrder(rows, n) && id < |rows| && StaticSame(rows[id], r)
    requires !r.status.Pending? && !rows[id].status.Completed?
    ensures WfRows(rows[id := r], n) && LoopOrder(rows[id := r], n)
  {
    WfUpdate(rows, n, id, r);
  }

  /** The transition of one row: memory index `i`, the row with that id in the table. */
  predicate Updated(t: Tx, t': Tx, i: nat)
    requires t.Bounded() && i < |t.mem|
  {
    t'.Bounded() && t'.e == t.e && t'.db.execs[t.e].authored == t.db.execs[t.e].authored &&
    |t'.mem| == |t.mem| && |t'.Rows()| == |t.Rows()| &&
    t'.mem == t.mem[i := t'.mem[i]] && t'.Rows() == t.Rows()[t.mem[i].id := t'.Rows()[t.mem[i].id]] &&
    StaticSame(t.mem[i], t'.mem[i]) && SameButTimes(t'.mem[i], t'.Rows()[t.mem[i].id])
  }

  lemma UpdateKeepsTx(t: Tx, t': Tx, i: nat)
    requires TxOk(t) && i < |t.mem| && Updated(t, t', i)
    requires !t.mem[i].status.Completed? && !t'.mem[i].status.Pending?
    ensures TxOk(t')
  {
    var id := t.mem[i].id;
    assert SameButTimes(t.mem[i], t.Rows()[id]);
    MirrorUpdate(t.mem, t.Rows(), i, t'.mem[i], t'.Rows()[id]);
    LoopOrderUpdate(t.Rows(), t.db.execs[t.e].authored, id, t'.Rows()[id]);
  }

  // ---------------------------------------------------------------- appending the children of a loop

  /** Every other pending loop head of its step comes later. */
  predicate FirstPendingHead(mem: seq<Row>, i: nat)
    requires i < |mem|
  {
    forall j :: 0 <= j < |mem| && j != i && mem[j].status.Pending? && mem[j].LoopHead() && mem[j].step == mem[i].step ==> i < j
  }

  lemma ChildrenWf(rows: seq<Row>, n: nat, p: nat, items: seq<Json>)
    requires WfRows(rows, n) && LoopOrder(rows, n) && p < n && rows[p].LoopHead() && rows[p].status.Pending? && |items| <= MAX_LOOP_ITEMS
    ensures WfRows(rows + ChildRows(|rows|, rows[p], items), n)
  {
    var children := ChildRows(|rows|, rows[p], items);
    var rows' := rows + children;
    assert AuthorRow(rows[p], p);
    forall i: nat | i < |children| ensures children[i].parent == Some(p) && children[i].loopIndex == Some(i) && ChildOf(children[i], |rows| + i, rows[p]) {}
    ChildrenPart(rows, n, p, children);
  }

  lemma ChildrenPart(rows: seq<Row>, n: nat, p: nat, children: seq<Row>)
    requires WfRows(rows, n) && LoopOrder(rows, n) && p < n && rows[p].LoopHead() && rows[p].status.Pending?
    requires forall i: nat :: i < |children| ==> children[i].parent == Some(p) && children[i].loopIndex == Some(i) && ChildOf(children[i], |rows| + i, rows[p])
    ensures WfRows(rows + children, n)
  {
    hide ChildOf;
    var rows' := rows + children;
    assert forall i :: 0 <= i < |rows| ==> rows'[i] == rows[i];
    assert forall i :: |rows| <= i < |rows'| ==> rows'[i] == children[i - |rows|];
    forall i, j | n <= i < j < |rows'| ensures rows'[i].parent != rows'[j].parent || rows'[i].loopIndex != rows'[j].loopIndex {
      if i < |rows| <= j { assert rows[rows[i].parent.value].status.Completed?; }
    }
  }

  lemma MirrorAppend(mem: seq<Row>, rows: seq<Row>, more: seq<Row>)
    requires Mirror(mem, rows) && forall k :: 0 <= k < |more| ==> more[k].id == |rows| + k
    ensures Mirror(mem + more, rows + more)
  {
    var mem', rows' := mem + more, rows + more;
    forall id: nat | id < |rows'| ensures Holds(mem', id) {
      if id < |rows| {
        assert Holds(mem, id);
        var j :| 0 <= j < |mem| && mem[j].id == id;
        assert mem'[j].id == id;
      } else {
        assert mem'[id] == more[id - |rows|];
      }
    }
    forall i, j | 0 <= i < j < |mem'| ensures mem'[i].id != mem'[j].id {
      if j >= |mem| { assert mem'[j] == more[j - |mem|]; if i >= |mem| { assert mem'[i] == more[i - |mem|]; } }
    }
  }

  lemma ChildrenSorted(mem: seq<Row>, rows: seq<Row>, n: nat, p: nat, items: seq<Json>)
    requires WfRows(rows, n) && LoopOrder(rows, n) && Mirror(mem, rows) && StepSorted(mem)
    requires p < n && rows[p].LoopHead() && rows[p].status.Pending?
    ensures StepSorted(mem + ChildRows(|rows|, rows[p], items))
  {
    var children := ChildRows(|rows|, rows[p], items);
    var mem' := mem + children;
    forall i, j | 0 <= i < j < |mem'| && mem'[i].step == mem'[j].step ensures mem'[i].position < mem'[j].position {
      if j >= |mem| {
        assert mem'[j] == children[j - |mem|];
        if i >= |mem| { assert mem'[i] == children[i - |mem|]; }
        else {
          var r := rows[mem[i].id];
          assert SameButTimes(mem[i], r);
          if r.id >= n {
            assert ChildOf(rows[mem[i].id], mem[i].id, rows[r.parent.value]);
            assert r.parent.value < p;
          } else {
            assert AuthorRow(rows[mem[i].id], mem[i].id);
          }
        }
      }
    }
  }

  lemma ChildrenLoopOrder(mem: seq<Row>, rows: seq<Row>, n: nat, i: nat, items: seq<Json>, head: Row)
    requires WfRows(rows, n) && LoopOrder(rows, n) && Mirror(mem, rows) && StepSorted(mem)
    requires i < |mem| && mem[i].status.Pending? && mem[i].LoopHead() && FirstPendingHead(mem, i) && |items| <= MAX_LOOP_ITEMS
    requires StaticSame(head, rows[mem[i].id]) && head.status.Completed?
    ensures var rows' := (rows + ChildRows(|rows|, rows[mem[i].id], items))[mem[i].id := head];
            WfRows(rows', n) && LoopOrder(rows', n)
  {
    var p := mem[i].id;
    assert SameButTimes(mem[i], rows[p]);
    ChildrenWf(rows, n, p, items);
    var children := ChildRows(|rows|, rows[p], items);
    WfUpdate(rows + children, n, p, head);
    var rows' := (rows + children)[p := head];
    assert forall c :: 0 <= c < |rows| && c != p ==> rows'[c] == rows[c];
    assert forall c :: |rows| <= c < |rows'| ==> rows'[c] == children[c - |rows|];
    forall q | 0 <= q < n && rows[q].LoopHead() && rows[q].status.Pending? && rows[q].step == rows[p].step && q != p ensures p < q {
      LaterHead(mem, rows, n, i, q);
    }
    LoopOrderGrows(rows, n, p, children, head);
  }

  lemma LaterHead(mem: seq<Row>, rows: seq<Row>, n: nat, i: nat, q: nat)
    requires WfRows(rows, n) && Mirror(mem, rows) && StepSorted(mem)
    requires i < |mem| && mem[i].LoopHead() && FirstPendingHead(mem, i) && mem[i].id < n
    requires q < n && q != mem[i].id && rows[q].LoopHead() && rows[q].status.Pending? && rows[q].step == rows[mem[i].id].step
    ensures mem[i].id < q
  {
    assert SameButTimes(mem[i], rows[mem[i].id]);
    assert Holds(mem, q);
    var j :| 0 <= j < |mem| && mem[j].id == q;
    assert SameButTimes(mem[j], rows[q]);
    assert AuthorRow(rows[mem[i].id], mem[i].id) && AuthorRow(rows[q], q);
  }

  lemma LoopOrderGrows(rows: seq<Row>, n: nat, p: nat, children: seq<Row>, head: Row)
    requires WfRows(rows, n) && LoopOrder(rows, n) && p < n && StaticSame(head, rows[p]) && head.status.Completed?
    requires WfRows((rows + children)[p := head], n)
    requires forall k :: 0 <= k < |children| ==> children[k].parent == Some(p) && children[k].step == rows[p].step
    requires forall q :: 0 <= q < n && rows[q].LoopHead() && rows[q].status.Pending? && rows[q].step == rows[p].step && q != p ==> p < q
    ensures LoopOrder((rows + children)[p := head], n)
  {
    hide WfRows;
    assert n <= |rows| && (forall c :: n <= c < |rows| ==> rows[c].parent.Some? && rows[c].parent.value < n) by { ParentsAreAuthors(rows, n); }
    var rows' := (rows + children)[p := head];
    assert forall c :: 0 <= c < |rows| && c != p ==> rows'[c] == rows[c];
    assert forall c :: |rows| <= c < |rows'| ==> rows'[c] == children[c - |rows|];
  }

  lemma ParentsAreAuthors(rows: seq<Row>, n: nat)
    requires WfRows(rows, n)
    ensures n <= |rows| && forall c :: n <= c < |rows| ==> rows[c].parent.Some? && rows[c].parent.value < n
  {
  }

  // ---------------------------------------------------------------- one row of a batch

  lemma ExpandKeepsTx(t: Tx, i: nat, items: seq<Json>)
    requires TxOk(t) && i < |t.mem| && t.mem[i].status.Pending? && t.mem[i].LoopHead() && FirstPendingHead(t.mem, i) && |items| <= MAX_LOOP_ITEMS
    ensures TxOk(Expand(t, i, items))
  {
    var rows, n, p := t.Rows(), t.db.execs[t.e].authored, t.mem[i].id;
    assert SameButTimes(t.mem[i], rows[p]);
    var children := ChildRows(|rows|, rows[p], items);
    var t' := Expand(t, i, items);
    var rows1, mem1 := rows + children, t.mem + children;
    MirrorAppend(t.mem, rows, children);
    ChildrenSorted(t.mem, rows, n, p, items);
    assert mem1[i] == t.mem[i] && rows1[p] == rows[p];
    MirrorUpdate(mem1, rows1, i, t'.mem[i], t'.Rows()[p]);
    assert t'.Rows() == rows1[p := t'.Rows()[p]];
    assert t'.mem == mem1[i := t'.mem[i]];
    ChildrenLoopOrder(t.mem, rows, n, i, items, t'.Rows()[p]);
    forall a, b | 0 <= a < b < |t'.mem| && t'.mem[a].step == t'.mem[b].step ensures t'.mem[a].position < t'.mem[b].position {
      assert mem1[a].step == mem1[b].step;
    }
  }

  /** What processing one row may change in memory: that row, and children appended after all others. */
  predicate Processed(mem: seq<Row>, mem': seq<Row>, i: nat)
    requires i < |mem|
  {
    |mem'| >= |mem| && (forall j :: 0 <= j < |mem| && j != i ==> mem'[j] == mem[j]) &&
    StaticSame(mem[i], mem'[i]) && !mem'[i].status.Pending? &&
    (|mem'| > |mem| ==> mem[i].LoopHead() && |mem'| - |mem| <= MAX_LOOP_ITEMS) &&
    (forall j :: |mem| <= j < |mem'| ==> LightRow(mem'[j], mem[i].step))
  }

  /** A fresh row that is not itself a loop. */
  predicate LightRow(row: Row, step: nat) { row.status.Pending? && !row.LoopHead() && row.step == step }

  /** The transaction after one row was handled. */
  predicate Handled(t: Tx, t': Tx, i: nat)
    requires i < |t.mem|
  {
    TxOk(t') && Processed(t.mem, t'.mem, i) && t'.e == t.e && t'.now == t.now && t'.loaded == t.loaded
  }

  lemma UpdateHandles(t: Tx, t': Tx, i: nat)
    requires TxOk(t) && i < |t.mem| && t.mem[i].status.Pending? && Updated(t, t', i) && !t'.mem[i].status.Pending?
    requires t'.now == t.now && t'.loaded == t.loaded
    ensures Handled(t, t', i)
  {
    UpdateKeepsTx(t, t', i);
  }

  lemma SkipHandles(t: Tx, i: nat)
    requires TxOk(t) && i < |t.mem| && t.mem[i].status.Pending?
    ensures Handled(t, Skip(t, i), i)
  {
    assert SameButTimes(t.mem[i], t.Rows()[t.mem[i].id]);
    UpdateHandles(t, Skip(t, i), i);
  }

  lemma FailHandles(t: Tx, i: nat)
    requires TxOk(t) && i < |t.mem| && t.mem[i].status.Pending?
    ensures Handled(t, FailRow(t, i), i)
  {
    assert SameButTimes(t.mem[i], t.Rows()[t.mem[i].id]);
    UpdateHandles(t, FailRow(t, i), i);
  }

  lemma ScriptHandles(env: Env, t: Tx, i: nat, params: Json)
    requires TxOk(t) && i < |t.mem| && t.mem[i].status.Pending?
    ensures Handled(t, Script(env, t, i, params), i)
  {
    assert SameButTimes(t.mem[i], t.Rows()[t.mem[i].id]);
    var t' := Script(env, t, i, params);
    assert t'.Rows() == t.Rows()[t.mem[i].id := t'.Rows()[t.mem[i].id]];
    UpdateHandles(t, t', i);
  }

  lemma CallHandles(t: Tx, i: nat, target: Routine, params: Json)
    requires TxOk(t) && i < |t.mem| && t.mem[i].status.Pending?
    ensures Handled(t, Call(t, i, target, params), i)
  {
    assert SameButTimes(t.mem[i], t.Rows()[t.mem[i].id]);
    var t' := Call(t, i, target, params);
    assert t'.Rows() == t.Rows()[t.mem[i].id := t'.Rows()[t.mem[i].id]];
    UpdateHandles(t, t', i);
  }

  lemma ExpandHandles(t: Tx, i: nat, items: seq<Json>)
    requires TxOk(t) && i < |t.mem| && t.mem[i].status.Pending? && t.mem[i].LoopHead() && FirstPendingHead(t.mem, i) && |items| <= MAX_LOOP_ITEMS
    ensures Handled(t, Expand(t, i, items), i)
  {
    ExpandKeepsTx(t, i, items);
    assert SameButTimes(t.mem[i], t.Rows()[t.mem[i].id]);
    var t' := Expand(t, i, items);
  }

  /** A pending row of a batch is either left for a worker untouched, or handled: no longer pending, layout kept. */
  lemma ProcessOneKeeps(env: Env, t: Tx, i: nat)
    requires TxOk(t) && i < |t.mem| && t.mem[i].status.Pending? && FirstPendingHead(t.mem, i)
    ensures var r := ProcessOne(env, t, i);
            if r.1.Some? then r.0 == t && !t.mem[i].LoopHead() && IsWorker(t.mem[i].typ) else Handled(t, r.0, i)
  {
    hide Handled, WfRows, LoopOrder, Mirror, StepSorted, FirstPendingHead, Skip, FailRow, Expand, Call, Script;
    var a := t.mem[i];
    FailHandles(t, i);
    if a.runIf.Some? && !RunIfHolds(t.mem, a.runIf.value) {
      SkipHandles(t, i);
    } else if a.LoopHead() {
      match Resolve(Str(a.forEach.value), ScopeFor(env, t, i), env.render)
      case Some(Arr(items)) => if |items| <= MAX_LOOP_ITEMS { ExpandHandles(t, i, items); }
      case _ =>
    } else {
      match Resolve(a.params, ScopeFor(env, t, i), env.render)
      case None =>
      case Some(params) =>
        if a.typ == ROUTINE_RUN {
          var target := TargetOf(t.db, t.db.execs[t.e].owner, params);
          if target.Some? && t.db.execs[t.e].depth < MAX_CALL_DEPTH { CallHandles(t, i, target.value, params); }
        } else if IsControl(a.typ) {
          ScriptHandles(env, t, i, params);
        }
    }
  }

  // ---------------------------------------------------------------- progress

  lemma {:induction false} MeasureConcat(a: seq<Row>, b: seq<Row>)
    ensures Measure(a + b) == Measure(a) + Measure(b)
  {
    if b == [] { assert a + b == a; } else {
      assert (a + b)[..|a + b| - 1] == a + b[..|b| - 1];
      MeasureConcat(a, b[..|b| - 1]);
    }
  }

  lemma {:induction false} MeasureLight(rows: seq<Row>)
    requires forall j :: 0 <= j < |rows| ==> rows[j].status.Pending? && !rows[j].LoopHead()
    ensures Measure(rows) == |rows|
  {
    if rows != [] { MeasureLight(rows[..|rows| - 1]); }
  }

  lemma MeasureUpdate(rows: seq<Row>, i: nat, r: Row)
    requires i < |rows|
    ensures Measure(rows[i := r]) + Weight(rows[i]) == Measure(rows) + Weight(r)
  {
    var a, b := rows[..i], rows[i + 1..];
    assert rows == a + ([rows[i]] + b) && rows[i := r] == a + ([r] + b);
    MeasureConcat(a, [rows[i]] + b);
    MeasureConcat([rows[i]], b);
    MeasureConcat(a, [r] + b);
    MeasureConcat([r], b);
    assert Measure([r]) == Measure([r][..0]) + Weight(r);
    assert Measure([rows[i]]) == Measure([rows[i]][..0]) + Weight(rows[i]);
  }

  /** Handling a pending row strictly lowers the measure, even when a loop adds up to 50 rows. */
  lemma ProcessedShrinks(mem: seq<Row>, mem': seq<Row>, i: nat)
    requires i < |mem| && mem[i].status.Pending? && Processed(mem, mem', i)
    ensures Measure(mem') < Measure(mem)
  {
    var front, more := mem'[..|mem|], mem'[|mem|..];
    assert mem' == front + more && front == mem[i := mem'[i]];
    MeasureConcat(front, more);
    MeasureUpdate(mem, i, mem'[i]);
    forall j | 0 <= j < |more| ensures more[j].status.Pending? && !more[j].LoopHead() {
      assert more[j] == mem'[|mem| + j];
    }
    MeasureLight(more);
  }

  // ---------------------------------------------------------------- a batch

  /** `batch` lists, in memory order, exactly the pending rows of step `s`. */
  predicate IsBatch(mem: seq<Row>, s: nat, batch: seq<nat>) {
    (forall k :: 0 <= k < |batch| ==> batch[k] < |mem| && mem[batch[k]].status.Pending? && mem[batch[k]].step == s) &&
    (forall i :: 0 <= i < |mem| && mem[i].status.Pending? && mem[i].step == s ==> i in batch) &&
    (forall k, l :: 0 <= k < l < |batch| ==> batch[k] < batch[l])
  }

  lemma MirrorKeysUnique(t: Tx, i: nat, j: nat)
    requires TxOk(t) && i < j < |t.mem|
    ensures t.mem[i].key != t.mem[j].key
  {
    var rows, n := t.Rows(), t.db.execs[t.e].authored;
    var a, b := t.mem[i].id, t.mem[j].id;
    assert SameButTimes(t.mem[i], rows[a]) && SameButTimes(t.mem[j], rows[b]);
    if a < b { UniqueKeys(rows, n, a, b); } else { UniqueKeys(rows, n, b, a); }
  }

  /** Because keys are unique, filtering by the decided keys selects exactly the pending rows of the step. */
  lemma DispatchedBatch(t: Tx)
    requires TxOk(t) && DecideNext(t.mem).Dispatch?
    ensures var d := DecideNext(t.mem); IsBatch(t.mem, d.step, BatchOf(t.mem, d.keys)) && BatchOf(t.mem, d.keys) != []
  {
    var d := DecideNext(t.mem);
    BatchByKeys(t, d.step);
    var i :| 0 <= i < |t.mem| && t.mem[i].status.Pending? && t.mem[i].step == d.step;
    assert i in BatchOf(t.mem, d.keys);
  }

  lemma BatchByKeys(t: Tx, s: nat)
    requires TxOk(t)
    ensures IsBatch(t.mem, s, BatchOf(t.mem, PendingKeys(t.mem, s)))
  {
    var keys := PendingKeys(t.mem, s);
    var batch := BatchOf(t.mem, keys);
    forall k | 0 <= k < |batch| ensures t.mem[batch[k]].status.Pending? && t.mem[batch[k]].step == s {
      PendingKeyIsPending(t, s, batch[k]);
    }
    forall i | 0 <= i < |t.mem| && t.mem[i].status.Pending? && t.mem[i].step == s ensures i in batch {
      assert t.mem[i].key in keys;
    }
  }

  lemma PendingKeyIsPending(t: Tx, s: nat, i: nat)
    requires TxOk(t) && i < |t.mem| && t.mem[i].key in PendingKeys(t.mem, s)
    ensures t.mem[i].status.Pending? && t.mem[i].step == s
  {
    hide WfRows, LoopOrder, Mirror, StepSorted;
    var j :| 0 <= j < |t.mem| && t.mem[j].status.Pending? && t.mem[j].step == s && t.mem[j].key == t.mem[i].key;
    if i < j { MirrorKeysUnique(t, i, j); } else if j < i { MirrorKeysUnique(t, j, i); }
  }

  /** The rows to send stand for the batch rows left pending. */
  predicate SendsFit(mem: seq<Row>, done: seq<nat>, sends: seq<Send>) {
    (forall q :: 0 <= q < |sends| ==> sends[q].i in done && sends[q].i < |mem| && SendReady(mem[sends[q].i])) &&
    (forall q, r :: 0 <= q < r < |sends| ==> sends[q].i != sends[r].i) &&
    |sends| <= |done| && (|sends| == |done| ==> forall l :: 0 <= l < |done| && done[l] < |mem| ==> mem[done[l]].status.Pending?) &&
    (forall l :: 0 <= l < |done| && done[l] < |mem| && mem[done[l]].status.Pending? ==> ToSend(sends, done[l]))
  }

  predicate SendReady(row: Row) { row.status.Pending? && IsWorker(row.typ) && !row.LoopHead() }

  predicate ToSend(sends: seq<Send>, i: nat) { exists q :: 0 <= q < |sends| && sends[q].i == i }

  /** Memory after the batch rows `done`: others untouched, new rows appended at the step. */
  predicate MemAfter(mem: seq<Row>, mem1: seq<Row>, s: nat, done: seq<nat>) {
    |mem1| >= |mem| &&
    (forall i :: 0 <= i < |mem| && i !in done ==> mem1[i] == mem[i]) &&
    (forall i :: 0 <= i < |mem| ==> StaticSame(mem[i], mem1[i])) &&
    (forall j :: |mem| <= j < |mem1| ==> LightRow(mem1[j], s))
  }

  predicate SameTx(t: Tx, t1: Tx) { t1.e == t.e && t1.now == t.now && t1.loaded == t.loaded }

  lemma SendsGrow(mem: seq<Row>, mem1: seq<Row>, done: seq<nat>, i: nat, sends: seq<Send>, params: Option<Json>)
    requires SendsFit(mem, done, sends) && i < |mem| && i !in done && |mem1| >= |mem|
    requires forall k :: 0 <= k < |done| ==> done[k] < |mem|
    requires forall j :: 0 <= j < |mem| && j != i ==> mem1[j] == mem[j]
    requires if params.Some? then SendReady(mem1[i]) else !mem1[i].status.Pending?
    ensures SendsFit(mem1, done + [i], if params.Some? then sends + [Send(i, params.value)] else sends)
  {
    if params.Some? { SendAdded(mem, mem1, done, i, sends, params.value); } else { }
  }

  lemma SendAdded(mem: seq<Row>, mem1: seq<Row>, done: seq<nat>, i: nat, sends: seq<Send>, params: Json)
    requires SendsFit(mem, done, sends) && i < |mem| && i !in done && |mem1| >= |mem| && SendReady(mem1[i])
    requires forall k :: 0 <= k < |done| ==> done[k] < |mem|
    requires forall j :: 0 <= j < |mem| && j != i ==> mem1[j] == mem[j]
    ensures SendsFit(mem1, done + [i], sends + [Send(i, params)])
  {
    var sends', done' := sends + [Send(i, params)], done + [i];
    assert sends'[|sends|].i == i;
    assert forall l :: 0 <= l < |done| ==> done'[l] == done[l] && mem1[done[l]] == mem[done[l]];
    forall l | 0 <= l < |done'| && mem1[done'[l]].status.Pending? ensures ToSend(sends', done'[l]) {
      if l < |done| { ToSendStays(sends, sends', done[l]); }
    }
    assert forall q :: 0 <= q < |sends| ==> sends'[q] == sends[q];
  }

  lemma ToSendStays(sends: seq<Send>, sends': seq<Send>, i: nat)
    requires ToSend(sends, i) && sends <= sends'
    ensures ToSend(sends', i)
  {
    var q :| 0 <= q < |sends| && sends[q].i == i;
    assert sends'[q].i == i;
  }

  lemma MemGrows(mem: seq<Row>, mem1: seq<Row>, mem2: seq<Row>, s: nat, done: seq<nat>, i: nat)
    requires MemAfter(mem, mem1, s, done) && i < |mem| && Processed(mem1, mem2, i) && mem[i].step == s
    ensures MemAfter(mem, mem2, s, done + [i])
  {
    assert StaticSame(mem[i], mem1[i]);
    forall j | |mem| <= j < |mem2| ensures LightRow(mem2[j], s) {
      if j < |mem1| { assert mem2[j] == mem1[j]; } else { assert LightRow(mem2[j], mem1[i].step); }
    }
    forall k | 0 <= k < |mem| ensures StaticSame(mem[k], mem2[k]) {
      assert StaticSame(mem[k], mem1[k]);
    }
  }

  /** After a batch: layout kept, the pending rows of the batch are those to send, and every other one made progress. */
  lemma {:induction false} RunBatchKeeps(env: Env, t: Tx, s: nat, batch: seq<nat>, k: nat)
    requires TxOk(t) && IsBatch(t.mem, s, batch) && k <= |batch|
    ensures var (t1, sends) := RunBatch(env, t, batch[..k]);
            TxOk(t1) && SameTx(t, t1) && MemAfter(t.mem, t1.mem, s, batch[..k]) && SendsFit(t1.mem, batch[..k], sends) &&
            Measure(t1.mem) + k <= Measure(t.mem) + |sends|
  {
    hide MemAfter, SendsFit, Handled, FirstPendingHead, WfRows, LoopOrder, Mirror, StepSorted, ProcessOne;
    if k == 0 {
      NothingDone(t.mem, s);
    } else {
      var done, i := batch[..k - 1], batch[k - 1];
      assert batch[..k][..k - 1] == done && batch[..k][|batch[..k]| - 1] == i && done + [i] == batch[..k];
      RunBatchKeeps(env, t, s, batch, k - 1);
      var (t1, sends) := RunBatch(env, t, done);
      NextRowReady(t.mem, t1.mem, s, batch, k, sends);
      ProcessOneKeeps(env, t1, i);
      var (t2, params) := ProcessOne(env, t1, i);
      HandledExtends(t, t1, t2, s, done, i, sends, params);
    }
  }

  lemma NothingDone(mem: seq<Row>, s: nat)
    ensures MemAfter(mem, mem, s, []) && SendsFit(mem, [], [])
  {
  }

  lemma NextRowReady(mem: seq<Row>, mem1: seq<Row>, s: nat, batch: seq<nat>, k: nat, sends: seq<Send>)
    requires IsBatch(mem, s, batch) && 0 < k <= |batch|
    requires MemAfter(mem, mem1, s, batch[..k - 1]) && SendsFit(mem1, batch[..k - 1], sends)
    ensures var i := batch[k - 1]; i < |mem| && mem[i].step == s && i !in batch[..k - 1] && mem1[i] == mem[i] && mem[i].status.Pending? && FirstPendingHead(mem1, i)
  {
  }

  lemma HandledExtends(t: Tx, t1: Tx, t2: Tx, s: nat, done: seq<nat>, i: nat, sends: seq<Send>, params: Option<Json>)
    requires TxOk(t1) && SameTx(t, t1) && MemAfter(t.mem, t1.mem, s, done) && SendsFit(t1.mem, done, sends)
    requires i < |t.mem| && t.mem[i].step == s && i !in done && t1.mem[i].status.Pending?
    requires forall k :: 0 <= k < |done| ==> done[k] < |t.mem|
    requires if params.Some? then t2 == t1 && !t1.mem[i].LoopHead() && IsWorker(t1.mem[i].typ) else Handled(t1, t2, i)
    requires Measure(t1.mem) + |done| <= Measure(t.mem) + |sends|
    ensures var sends' := if params.Some? then sends + [Send(i, params.value)] else sends;
            TxOk(t2) && SameTx(t, t2) && MemAfter(t.mem, t2.mem, s, done + [i]) && SendsFit(t2.mem, done + [i], sends') &&
            Measure(t2.mem) + |done| + 1 <= Measure(t.mem) + |sends'|
  {
    SendsGrow(t1.mem, t2.mem, done, i, sends, params);
    if params.None? {
      MemGrows(t.mem, t1.mem, t2.mem, s, done, i);
      ProcessedShrinks(t1.mem, t2.mem, i);
    }
  }

  // ---------------------------------------------------------------- sending

  /** Memory after the rows `sends` were handed to the broker. */
  predicate MemSent(mem: seq<Row>, mem1: seq<Row>, sends: seq<Send>, now: nat) {
    |mem1| == |mem| &&
    (forall i :: 0 <= i < |mem| ==> mem1[i] == if ToSend(sends, i) then mem[i].(status := Dispatched, dispatchedAt := Some(now)) else mem[i])
  }

  lemma SendOneKeeps(t: Tx, s: Send)
    requires TxOk(t) && s.i < |t.mem| && t.mem[s.i].status.Pending?
    ensures TxOk(SendOne(t, s))
  {
    assert SameButTimes(t.mem[s.i], t.Rows()[t.mem[s.i].id]);
    var t' := SendOne(t, s);
    assert t'.Rows() == t.Rows()[t.mem[s.i].id := t'.Rows()[t.mem[s.i].id]];
    UpdateKeepsTx(t, t', s.i);
  }

  lemma {:induction false} SendAllKeeps(t: Tx, sends: seq<Send>)
    requires TxOk(t) && forall q :: 0 <= q < |sends| ==> sends[q].i < |t.mem| && t.mem[sends[q].i].status.Pending?
    requires forall q, r :: 0 <= q < r < |sends| ==> sends[q].i != sends[r].i
    ensures TxOk(SendAll(t, sends)) && SameTx(t, SendAll(t, sends)) && MemSent(t.mem, SendAll(t, sends).mem, sends, t.now)
  {
    if sends != [] {
      var front, last := sends[..|sends| - 1], sends[|sends| - 1];
      SendAllKeeps(t, front);
      SendOneKeeps(SendAll(t, front), last);
      SentGrows(t.mem, SendAll(t, front).mem, sends, t.now);
    }
  }

  lemma SentGrows(mem: seq<Row>, mem1: seq<Row>, sends: seq<Send>, now: nat)
    requires sends != [] && MemSent(mem, mem1, sends[..|sends| - 1], now) && sends[|sends| - 1].i < |mem|
    requires forall q, r :: 0 <= q < r < |sends| ==> sends[q].i != sends[r].i
    ensures var i := sends[|sends| - 1].i;
            mem1[i] == mem[i] && MemSent(mem, mem1[i := mem1[i].(status := Dispatched, dispatchedAt := Some(now))], sends, now)
  {
    var front, i := sends[..|sends| - 1], sends[|sends| - 1].i;
    assert !ToSend(front, i);
    forall j | 0 <= j < |mem| ensures ToSend(sends, j) == (ToSend(front, j) || j == i) {
      if ToSend(front, j) {
        var q :| 0 <= q < |front| && front[q].i == j;
        assert sends[q].i == j;
      }
      if j == i { assert sends[|sends| - 1].i == j; }
      if ToSend(sends, j) && j != i {
        var q :| 0 <= q < |sends| && sends[q].i == j;
        assert front[q].i == j;
      }
    }
  }

  // ---------------------------------------------------------------- the loop

  /** Every dispatch iteration either hands rows to workers without a failure and stops, or strictly lowers the measure. */
  lemma BatchProgress(env: Env, t: Tx)
    requires TxOk(t) && DecideNext(t.mem).Dispatch?
    ensures var d := DecideNext(t.mem);
            var batch := BatchOf(t.mem, d.keys);
            var (t1, sends) := RunBatch(env, t, batch);
            IsBatch(t.mem, d.step, batch) && TxOk(t1) && SameTx(t, t1) && MemAfter(t.mem, t1.mem, d.step, batch) && SendsFit(t1.mem, batch, sends) &&
            (BatchFailed(t1.mem, batch) || sends == [] ==> Measure(t1.mem) < Measure(t.mem))
  {
    var d := DecideNext(t.mem);
    var batch := BatchOf(t.mem, d.keys);
    DispatchedBatch(t);
    RunBatchKeeps(env, t, d.step, batch, |batch|);
    assert batch[..|batch|] == batch;
  }

  /** The transaction after the sends of a batch: rows dispatched, status RUNNING. */
  function AfterSends(t1: Tx, sends: seq<Send>): (t2: Tx)
    requires t1.Bounded() && forall k :: 0 <= k < |sends| ==> sends[k].i < |t1.mem|
    ensures t2.Bounded()
  {
    var t2 := SendAll(t1, sends);
    t2.(db := SetStatus(t2.db, t2.e, RUNNING, t2.now))
  }

  lemma AfterSendsKeeps(t1: Tx, batch: seq<nat>, sends: seq<Send>)
    requires TxOk(t1) && SendsFit(t1.mem, batch, sends)
    ensures var t2 := AfterSends(t1, sends); TxOk(t2) && SameTx(t1, t2) && MemSent(t1.mem, t2.mem, sends, t1.now)
  {
    assert forall q :: 0 <= q < |sends| ==> SendReady(t1.mem[sends[q].i]);
    SendAllKeeps(t1, sends);
  }

  /** The loop of `#advance`. Its `decreases` clause is the proof that it ends. */
  function Advance(env: Env, t: Tx): Tx
    requires TxOk(t)
    decreases Measure(t.mem)
  {
    match DecideNext(t.mem)
    case Dispatch(step, keys) =>
      BatchProgress(env, t);
      var batch := BatchOf(t.mem, keys);
      var (t1, sends) := RunBatch(env, t, batch);
      if BatchFailed(t1.mem, batch) then Advance(env, t1)
      else
        AfterSendsKeeps(t1, batch, sends);
        if sends == [] then Advance(env, AfterSends(t1, sends)) else AfterSends(t1, sends)
    case Complete => CompleteExecution(env, t)
    case Fail(failedKey) => FailExecution(t, failedKey)
    case Wait => WaitForResults(env, t)
  }

  /** One dispatch iteration of the loop. */
  lemma AdvanceDispatches(env: Env, t: Tx)
    requires TxOk(t) && DecideNext(t.mem).Dispatch?
    ensures var batch := BatchOf(t.mem, DecideNext(t.mem).keys);
            var (t1, sends) := RunBatch(env, t, batch);
            if BatchFailed(t1.mem, batch) then TxOk(t1) && Measure(t1.mem) < Measure(t.mem) && Advance(env, t) == Advance(env, t1)
            else
              var t2 := AfterSends(t1, sends);
              TxOk(t2) && (sends == [] ==> Measure(t2.mem) < Measure(t.mem)) && Advance(env, t) == if sends == [] then Advance(env, t2) else t2
  {
    hide WfRows, LoopOrder, Mirror, StepSorted, MemAfter, SendsFit, IsBatch, RunBatch, BatchOf, BatchFailed, DecideNext;
    var batch := BatchOf(t.mem, DecideNext(t.mem).keys);
    var (t1, sends) := RunBatch(env, t, batch);
    BatchProgress(env, t);
    if !BatchFailed(t1.mem, batch) { AfterSendsKeeps(t1, batch, sends); }
  }
}
