/**
 * The list in memory refines the table: whatever the engine reads from it is what
 * it would read after loading the rows again in (step, position) order.
 */
module Rereading {
  import opened Base
  import opened Templates
  import opened Control
  import opened Progress
  import opened Store
  import opened RowInvariants
  import opened Engine
  import opened AdvanceLoop
  import opened Invariants

  // ---------------------------------------------------------------- order within a step

  /** The ids among `ids`, in list order. */
  function IdsIn(list: seq<Row>, ids: set<nat>): seq<nat> {
    if list == [] then [] else
      var front, last := IdsIn(list[..|list| - 1], ids), list[|list| - 1].id;
      if last in ids then front + [last] else front
  }

  lemma {:induction false} IdsInMembers(list: seq<Row>, ids: set<nat>, id: nat)
    ensures id in IdsIn(list, ids) <==> id in ids && Holds(list, id)
  {
    if list != [] {
      var front := list[..|list| - 1];
      IdsInMembers(front, ids, id);
      if Holds(front, id) { var i :| 0 <= i < |front| && front[i].id == id; assert list[i].id == id; }
      if Holds(list, id) && list[|list| - 1].id != id { var i :| 0 <= i < |list| && list[i].id == id; assert front[i].id == id; }
    }
  }

  predicate Increasing(ids: seq<nat>, rows: seq<Row>) {
    (forall k :: 0 <= k < |ids| ==> ids[k] < |rows|) && forall k, l :: 0 <= k < l < |ids| ==> rows[ids[k]].position < rows[ids[l]].position
  }

  lemma HasMember(ids: seq<nat>)
    ensures ids != [] ==> exists id :: id in ids
  {
    if ids != [] { assert ids[0] in ids; }
  }

  lemma LastAtLeast(a: seq<nat>, b: seq<nat>, rows: seq<Row>)
    requires Increasing(a, rows) && Increasing(b, rows) && a != [] && b != [] && a[|a| - 1] in b
    ensures rows[a[|a| - 1]].position <= rows[b[|b| - 1]].position
  {
    var k :| 0 <= k < |b| && b[k] == a[|a| - 1];
  }

  lemma FrontMember(a: seq<nat>, rows: seq<Row>, id: nat)
    requires Increasing(a, rows) && a != []
    ensures id in a[..|a| - 1] <==> id in a && id != a[|a| - 1]
  {
    var front := a[..|a| - 1];
    if id in front { var k :| 0 <= k < |front| && front[k] == id; assert a[k] == id; }
  }

  /** Two lists of the same ids by strictly increasing position are one list. */
  lemma {:induction false} IncreasingUnique(a: seq<nat>, b: seq<nat>, rows: seq<Row>)
    requires Increasing(a, rows) && Increasing(b, rows) && forall id :: id in a <==> id in b
    ensures a == b
  {
    HasMember(a);
    HasMember(b);
    if a != [] && b != [] {
      assert a[|a| - 1] in b;
      LastAtLeast(a, b, rows);
      LastAtLeast(b, a, rows);
      var a', b' := a[..|a| - 1], b[..|b| - 1];
      assert a[|a| - 1] == b[|b| - 1] by { }
      forall id ensures id in a' <==> id in b' {
        FrontMember(a, rows, id);
        FrontMember(b, rows, id);
      }
      IncreasingUnique(a', b', rows);
    }
  }

  /** A list that holds the table's rows, each step by position. */
  predicate StepList(list: seq<Row>, rows: seq<Row>) { Mirror(list, rows) && StepSorted(list) }

  lemma {:induction false} IdsInIncreasing(list: seq<Row>, rows: seq<Row>, ids: set<nat>, s: nat, k: nat)
    requires StepList(list, rows) && k <= |list| && forall id :: id in ids ==> id < |rows| && rows[id].step == s
    ensures Increasing(IdsIn(list[..k], ids), rows)
    ensures forall id :: id in IdsIn(list[..k], ids) ==> exists i :: 0 <= i < k && list[i].id == id && id in ids
  {
    if k > 0 {
      IdsInIncreasing(list, rows, ids, s, k - 1);
      assert list[..k][..k - 1] == list[..k - 1];
      var front, last := IdsIn(list[..k - 1], ids), list[k - 1].id;
      if last in ids {
        forall j | 0 <= j < |front| ensures rows[front[j]].position < rows[last].position {
          assert front[j] in front;
          var i :| 0 <= i < k - 1 && list[i].id == front[j] && front[j] in ids;
          assert SameButTimes(list[i], rows[list[i].id]) && SameButTimes(list[k - 1], rows[list[k - 1].id]);
        }
      }
    }
  }

  /** Within one step both lists have the same order. */
  lemma SameOrder(a: seq<Row>, b: seq<Row>, rows: seq<Row>, ids: set<nat>, s: nat)
    requires StepList(a, rows) && StepList(b, rows) && forall id :: id in ids ==> id < |rows| && rows[id].step == s
    ensures IdsIn(a, ids) == IdsIn(b, ids)
  {
    assert a[..|a|] == a && b[..|b|] == b;
    IdsInIncreasing(a, rows, ids, s, |a|);
    IdsInIncreasing(b, rows, ids, s, |b|);
    forall id: nat ensures id in IdsIn(a, ids) <==> id in IdsIn(b, ids) {
      IdsInMembers(a, ids, id);
      IdsInMembers(b, ids, id);
      if id in ids { assert Holds(a, id) && Holds(b, id); }
    }
    IncreasingUnique(IdsIn(a, ids), IdsIn(b, ids), rows);
  }

  lemma BothList(t: Tx)
    requires TxOk(t)
    ensures StepList(t.mem, t.Rows()) && StepList(Load(t.Rows()), t.Rows())
  {
    LoadMirrors(t.Rows(), t.db.execs[t.e].authored);
  }

  // ---------------------------------------------------------------- the decision

  function PendingIds(rows: seq<Row>, s: nat): set<nat> { set id: nat | id < |rows| && rows[id].status.Pending? && rows[id].step == s }

  function KeysFor(ids: seq<nat>, rows: seq<Row>): seq<string>
    requires forall k :: 0 <= k < |ids| ==> ids[k] < |rows|
  {
    seq(|ids|, k requires 0 <= k < |ids| => rows[ids[k]].key)
  }

  predicate Shown(list: seq<Row>, rows: seq<Row>) { forall i :: 0 <= i < |list| ==> list[i].id < |rows| && SameButTimes(list[i], rows[list[i].id]) }

  lemma {:induction false} IdsInRange(list: seq<Row>, rows: seq<Row>, ids: set<nat>)
    requires forall id :: id in ids ==> id < |rows|
    ensures forall k :: 0 <= k < |IdsIn(list, ids)| ==> IdsIn(list, ids)[k] < |rows|
  {
    if list != [] { IdsInRange(list[..|list| - 1], rows, ids); }
  }

  lemma {:induction false} PendingKeysByIds(list: seq<Row>, rows: seq<Row>, s: nat)
    requires Shown(list, rows)
    ensures forall k :: 0 <= k < |IdsIn(list, PendingIds(rows, s))| ==> IdsIn(list, PendingIds(rows, s))[k] < |rows|
    ensures PendingKeys(list, s) == KeysFor(IdsIn(list, PendingIds(rows, s)), rows)
  {
    IdsInRange(list, rows, PendingIds(rows, s));
    if list != [] {
      PendingKeysByIds(list[..|list| - 1], rows, s);
      assert SameButTimes(list[|list| - 1], rows[list[|list| - 1].id]);
    }
  }

  lemma SamePendingKeys(a: seq<Row>, b: seq<Row>, rows: seq<Row>, s: nat)
    requires StepList(a, rows) && StepList(b, rows)
    ensures PendingKeys(a, s) == PendingKeys(b, s)
  {
    SameOrder(a, b, rows, PendingIds(rows, s), s);
    PendingKeysByIds(a, rows, s);
    PendingKeysByIds(b, rows, s);
  }

  lemma SameMinPending(a: seq<Row>, b: seq<Row>, rows: seq<Row>)
    requires Mirror(a, rows) && Mirror(b, rows) && AnyPending(a) && AnyPending(b)
    ensures MinPendingStep(a) == MinPendingStep(b)
  {
    MinPendingAtMost(a, b, rows);
    MinPendingAtMost(b, a, rows);
  }

  lemma MinPendingAtMost(a: seq<Row>, b: seq<Row>, rows: seq<Row>)
    requires Mirror(a, rows) && Mirror(b, rows) && AnyPending(a) && AnyPending(b)
    ensures MinPendingStep(a) <= MinPendingStep(b)
  {
    hide MinPendingStep, Mirror;
    var j :| 0 <= j < |b| && b[j].status.Pending? && b[j].step == MinPendingStep(b);
    MirrorRow(b, rows, j);
    var i := FoundIn(a, rows, b[j].id);
  }

  /** Failed rows are all in the current step, so the first of them is the same row in both lists. */
  lemma SameFirstFailed(a: seq<Row>, b: seq<Row>, rows: seq<Row>)
    requires StepList(a, rows) && StepList(b, rows) && Barrier(rows) && AnyFailed(a) && AnyFailed(b)
    ensures a[FirstFailed(a)].key == b[FirstFailed(b)].key
  {
    hide FirstFailed, Mirror;
    var i, j := FirstFailed(a), FirstFailed(b);
    MirrorRow(a, rows, i);
    MirrorRow(b, rows, j);
    var i' := FoundIn(b, rows, a[i].id);
    var j' := FoundIn(a, rows, b[j].id);
    assert i <= j' && j <= i';
  }

  /** The decision taken from memory is the one the table would give. */
  lemma SameDecision(t: Tx)
    requires TxOk(t) && Barrier(t.Rows())
    ensures DecideNext(t.mem) == DecideNext(Load(t.Rows()))
  {
    hide WfRows, LoopOrder, Mirror, StepSorted, Barrier;
    BothList(t);
    var a, b, rows := t.mem, Load(t.Rows()), t.Rows();
    MirrorAgrees(a, rows);
    MirrorAgrees(b, rows);
    if AnyFailed(a) {
      SameFirstFailed(a, b, rows);
    } else if !AnyInFlight(a) && AnyPending(a) {
      SameMinPending(a, b, rows);
      SamePendingKeys(a, b, rows, MinPendingStep(a));
    }
  }

  function IdsAt(list: seq<Row>, batch: seq<nat>): seq<nat>
    requires forall k :: 0 <= k < |batch| ==> batch[k] < |list|
  {
    seq(|batch|, k requires 0 <= k < |batch| => list[batch[k]].id)
  }

  lemma {:induction false} BatchIds(list: seq<Row>, keys: seq<string>, ids: set<nat>, k: nat)
    requires k <= |list| && forall i :: 0 <= i < |list| ==> (list[i].key in keys <==> list[i].id in ids)
    ensures forall j :: 0 <= j < |BatchOf(list[..k], keys)| ==> BatchOf(list[..k], keys)[j] < k
    ensures IdsAt(list, BatchOf(list[..k], keys)) == IdsIn(list[..k], ids)
  {
    if k > 0 {
      BatchIds(list, keys, ids, k - 1);
      assert list[..k][..k - 1] == list[..k - 1];
    }
  }

  /** A key stands for the same row everywhere. */
  lemma KeyedBy(t: Tx, list: seq<Row>, s: nat, i: nat)
    requires TxOk(t) && StepList(list, t.Rows()) && i < |list|
    ensures list[i].key in PendingKeys(list, s) <==> list[i].id in PendingIds(t.Rows(), s)
  {
    hide LoopOrder, StepSorted;
    var rows, n := t.Rows(), t.db.execs[t.e].authored;
    MirrorRow(list, rows, i);
    if list[i].key in PendingKeys(list, s) {
      var j :| 0 <= j < |list| && list[j].status.Pending? && list[j].step == s && list[j].key == list[i].key;
      MirrorRow(list, rows, j);
      if list[i].id < list[j].id { UniqueKeys(rows, n, list[i].id, list[j].id); }
      else if list[j].id < list[i].id { UniqueKeys(rows, n, list[j].id, list[i].id); }
    }
  }

  /** The batch of a step consists of the same rows in the same order. */
  lemma SameBatch(t: Tx, s: nat)
    requires TxOk(t)
    ensures var a, b := t.mem, Load(t.Rows());
            IdsAt(a, BatchOf(a, PendingKeys(a, s))) == IdsAt(b, BatchOf(b, PendingKeys(b, s)))
  {
    hide WfRows, LoopOrder, Mirror, StepSorted, BatchOf, PendingKeys;
    BothList(t);
    var a, b, ids := t.mem, Load(t.Rows()), PendingIds(t.Rows(), s);
    forall i | 0 <= i < |a| ensures a[i].key in PendingKeys(a, s) <==> a[i].id in ids { KeyedBy(t, a, s, i); }
    forall i | 0 <= i < |b| ensures b[i].key in PendingKeys(b, s) <==> b[i].id in ids { KeyedBy(t, b, s, i); }
    assert a[..|a|] == a && b[..|b|] == b;
    BatchIds(a, PendingKeys(a, s), ids, |a|);
    BatchIds(b, PendingKeys(b, s), ids, |b|);
    SameOrder(a, b, t.Rows(), ids, s);
  }

  // ---------------------------------------------------------------- conditions

  lemma UniqueInList(t: Tx, list: seq<Row>, i: nat, j: nat)
    requires TxOk(t) && StepList(list, t.Rows()) && i < |list| && j < |list| && list[i].key == list[j].key
    ensures i == j
  {
    hide LoopOrder, StepSorted;
    var rows, n := t.Rows(), t.db.execs[t.e].authored;
    MirrorRow(list, rows, i);
    MirrorRow(list, rows, j);
    if list[i].id < list[j].id { UniqueKeys(rows, n, list[i].id, list[j].id); }
    else if list[j].id < list[i].id { UniqueKeys(rows, n, list[j].id, list[i].id); }
  }

  /** The condition of a runIf, read off the table: the one row with that key. */
  predicate HoldsInTable(rows: seq<Row>, runIf: RunIf) {
    exists id :: 0 <= id < |rows| && rows[id].key == runIf.action && ConditionMet(rows[id], runIf.expected)
  }

  lemma RunIfReadsTable(t: Tx, list: seq<Row>, runIf: RunIf)
    requires TxOk(t) && StepList(list, t.Rows())
    ensures RunIfHolds(list, runIf) <==> HoldsInTable(t.Rows(), runIf)
  {
    hide WfRows, LoopOrder, Mirror, StepSorted;
    var found := FindKey(list, runIf.action);
    if found.Some? { MirrorRow(list, t.Rows(), found.value); }
    if HoldsInTable(t.Rows(), runIf) {
      var id :| 0 <= id < |t.Rows()| && t.Rows()[id].key == runIf.action && ConditionMet(t.Rows()[id], runIf.expected);
      var i := FoundIn(list, t.Rows(), id);
      assert found.Some?;
      UniqueInList(t, list, i, found.value);
    }
  }

  /** A condition holds in memory exactly when it holds in the table. */
  lemma SameCondition(t: Tx, runIf: RunIf)
    requires TxOk(t)
    ensures RunIfHolds(t.mem, runIf) <==> HoldsInTable(t.Rows(), runIf)
    ensures RunIfHolds(t.mem, runIf) <==> RunIfHolds(Load(t.Rows()), runIf)
  {
    hide WfRows, LoopOrder, Mirror, StepSorted, RunIfHolds, HoldsInTable;
    BothList(t);
    RunIfReadsTable(t, t.mem, runIf);
    RunIfReadsTable(t, Load(t.Rows()), runIf);
  }

  // ---------------------------------------------------------------- outputs

  function ChildIds(rows: seq<Row>, head: nat): set<nat> { set id: nat | id < |rows| && rows[id].parent == Some(head) }

  function RepetitionsFor(ids: seq<nat>, rows: seq<Row>): seq<Repetition>
    requires forall k :: 0 <= k < |ids| ==> ids[k] < |rows|
  {
    seq(|ids|, k requires 0 <= k < |ids| =>
      Repetition(if rows[ids[k]].loopIndex.Some? then rows[ids[k]].loopIndex.value else 0, if rows[ids[k]].output.Some? then rows[ids[k]].output.value else Null))
  }

  lemma {:induction false} RepetitionsByIds(list: seq<Row>, rows: seq<Row>, head: nat)
    requires Shown(list, rows)
    ensures forall k :: 0 <= k < |IdsIn(list, ChildIds(rows, head))| ==> IdsIn(list, ChildIds(rows, head))[k] < |rows|
    ensures RepetitionsOf(list, head) == RepetitionsFor(IdsIn(list, ChildIds(rows, head)), rows)
  {
    IdsInRange(list, rows, ChildIds(rows, head));
    if list != [] {
      RepetitionsByIds(list[..|list| - 1], rows, head);
      assert SameButTimes(list[|list| - 1], rows[list[|list| - 1].id]);
    }
  }

  lemma ChildrenStep(rows: seq<Row>, n: nat, head: nat)
    requires WfRows(rows, n) && head < |rows|
    ensures forall id :: id in ChildIds(rows, head) ==> id < |rows| && rows[id].step == rows[head].step
  {
    assert forall id :: 0 <= id < n ==> AuthorRow(rows[id], id);
    forall id | id in ChildIds(rows, head) ensures rows[id].step == rows[head].step {
      assert ChildOf(rows[id], id, rows[rows[id].parent.value]);
    }
  }

  lemma SameRepetitions(a: seq<Row>, b: seq<Row>, rows: seq<Row>, n: nat, head: nat)
    requires StepList(a, rows) && StepList(b, rows) && WfRows(rows, n) && head < |rows|
    ensures RepetitionsOf(a, head) == RepetitionsOf(b, head)
  {
    ChildrenStep(rows, n, head);
    hide WfRows;
    SameOrder(a, b, rows, ChildIds(rows, head), rows[head].step);
    RepetitionsByIds(a, rows, head);
    RepetitionsByIds(b, rows, head);
  }

  /** Whether a row's output is visible under a key. */
  predicate Exposes(row: Row, key: string) { row.status.Completed? && row.parent.None? && row.key == key }

  lemma {:induction false} OutputsFind(list: seq<Row>, k: nat, i: nat)
    requires i < k <= |list| && list[i].status.Completed? && list[i].parent.None?
    requires forall j :: i < j < k ==> list[j].key != list[i].key
    ensures list[i].key in OutputsUpTo(list, k) && OutputsUpTo(list, k)[list[i].key] == ExposedOutput(list, list[i])
  {
    if i < k - 1 { OutputsFind(list, k - 1, i); }
  }

  lemma {:induction false} OutputsOnly(list: seq<Row>, k: nat, key: string)
    requires k <= |list| && key in OutputsUpTo(list, k)
    ensures exists i :: 0 <= i < k && Exposes(list[i], key)
  {
    if k > 0 {
      if Exposes(list[k - 1], key) {} else { OutputsOnly(list, k - 1, key); }
    }
  }

  lemma OutputFromTable(t: Tx, a: seq<Row>, b: seq<Row>, key: string)
    requires TxOk(t) && StepList(a, t.Rows()) && StepList(b, t.Rows()) && key in Outputs(a)
    ensures key in Outputs(b) && Outputs(b)[key] == Outputs(a)[key]
  {
    hide LoopOrder, Mirror, StepSorted, WfRows, OutputsUpTo;
    var rows := t.Rows();
    OutputsOnly(a, |a|, key);
    var i :| 0 <= i < |a| && Exposes(a[i], key);
    MirrorRow(a, rows, i);
    var j := FoundIn(b, rows, a[i].id);
    forall k | i < k < |a| ensures a[k].key != a[i].key { if a[k].key == a[i].key { UniqueInList(t, a, i, k); } }
    forall k | j < k < |b| ensures b[k].key != b[j].key { if b[k].key == b[j].key { UniqueInList(t, b, j, k); } }
    OutputsFind(a, |a|, i);
    OutputsFind(b, |b|, j);
    SameRepetitions(a, b, rows, t.db.execs[t.e].authored, a[i].id);
  }

  /** `{{actions.…}}` shows the same outputs, repetitions included. */
  lemma SameOutputs(t: Tx)
    requires TxOk(t)
    ensures Outputs(t.mem) == Outputs(Load(t.Rows()))
  {
    hide LoopOrder, Mirror, StepSorted, WfRows, Outputs;
    BothList(t);
    var a, b := t.mem, Load(t.Rows());
    forall key | key in Outputs(a) ensures key in Outputs(b) && Outputs(b)[key] == Outputs(a)[key] { OutputFromTable(t, a, b, key); }
    forall key | key in Outputs(b) ensures key in Outputs(a) { OutputFromTable(t, b, a, key); }
  }
}
