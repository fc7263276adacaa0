/**
 * What holds of the action rows of one execution: how author rows and loop
 * children are laid out, that keys and positions are unique, and how the list in
 * memory mirrors the table.
 */
module RowInvariants {
  import opened Base
  import opened Progress
  import opened Store

  /** The most actions the API accepts in a routine, so author positions stay below those of all children. */
  const MAX_ACTIONS: nat := 20
  const LOOP_LIMIT: nat := 50

  predicate BracketFree(key: string) { '[' !in key }

  predicate AuthorRow(row: Row, id: nat) {
    row.id == id && row.position == id && row.parent.None? && row.loopIndex.None? && BracketFree(row.key)
  }

  predicate ChildOf(row: Row, id: nat, head: Row) {
    row.id == id && row.parent == Some(head.id) && row.loopIndex.Some? && row.loopIndex.value < LOOP_LIMIT &&
    row.key == ChildKey(head.key, row.loopIndex.value) && row.typ == head.typ && row.step == head.step &&
    row.position == (head.position + 1) * 1000 + row.loopIndex.value && row.params == head.params &&
    row.runIf.None? && row.forEach.None?
  }

  predicate AuthorPart(rows: seq<Row>, n: nat) {
    n <= |rows| && n <= MAX_ACTIONS &&
    (forall i :: 0 <= i < n ==> AuthorRow(rows[i], i)) &&
    (forall i, j :: 0 <= i < j < n ==> rows[i].step <= rows[j].step && rows[i].key != rows[j].key)
  }

  predicate ChildPart(rows: seq<Row>, n: nat)
    requires n <= |rows|
  {
    (forall i :: n <= i < |rows| ==> rows[i].parent.Some? && rows[i].parent.value < n) &&
    (forall i :: n <= i < |rows| ==> ChildOf(rows[i], i, rows[rows[i].parent.value]) && rows[rows[i].parent.value].LoopHead()) &&
    (forall i, j :: n <= i < j < |rows| ==> rows[i].parent != rows[j].parent || rows[i].loopIndex != rows[j].loopIndex)
  }

  /** The layout of an execution's rows: `n` author rows, then loop children. */
  predicate WfRows(rows: seq<Row>, n: nat) { AuthorPart(rows, n) && ChildPart(rows, n) }

  /** Children exist only under completed heads, and a head still pending comes after every expanded head of its step. */
  predicate LoopOrder(rows: seq<Row>, n: nat)
    requires WfRows(rows, n)
  {
    (forall i :: n <= i < |rows| ==> rows[rows[i].parent.value].status.Completed?) &&
    (forall i, p :: n <= i < |rows| && 0 <= p < n && rows[p].LoopHead() && rows[p].status.Pending? && rows[p].step == rows[i].step
      ==> rows[i].parent.value < p)
  }

  // ---------------------------------------------------------------- unique keys

  lemma BracketSplits(p: string, x: string, q: string, y: string)
    requires BracketFree(p) && BracketFree(q)
    requires p + "[" + x == q + "[" + y
    ensures p == q && x == y
  {
    var s := p + "[" + x;
    assert s[|p|] == '[' && s[|q|] == '[';
    assert forall k :: 0 <= k < |p| ==> s[k] == p[k] && s[k] != '[';
    assert forall k :: 0 <= k < |q| ==> s[k] == q[k] && s[k] != '[';
    assert s[..|p|] == p && s[..|q|] == q && s[|p| + 1..] == x && s[|q| + 1..] == y;
  }

  /** Keys of repetitions are unique because author keys carry no bracket. */
  lemma ChildKeyInjective(p: string, i: nat, q: string, j: nat)
    requires BracketFree(p) && BracketFree(q)
    requires ChildKey(p, i) == ChildKey(q, j)
    ensures p == q && i == j
  {
    var x, y := Decimal(i) + "]", Decimal(j) + "]";
    assert ChildKey(p, i) == p + "[" + x && ChildKey(q, j) == q + "[" + y;
    BracketSplits(p, x, q, y);
    assert x[..|x| - 1] == Decimal(i) && y[..|y| - 1] == Decimal(j);
  }

  lemma UniqueKeys(rows: seq<Row>, n: nat, i: nat, j: nat)
    requires WfRows(rows, n) && i < j < |rows|
    ensures rows[i].key != rows[j].key
  {
    if j >= n {
      var p := rows[j].parent.value;
      assert rows[j].key[|rows[p].key|] == '[';
      if i >= n && rows[i].key == rows[j].key {
        var q := rows[i].parent.value;
        ChildKeyInjective(rows[q].key, rows[i].loopIndex.value, rows[p].key, rows[j].loopIndex.value);
      }
    }
  }

  lemma UniquePositions(rows: seq<Row>, n: nat, i: nat, j: nat)
    requires WfRows(rows, n) && i < j < |rows|
    ensures rows[i].position != rows[j].position
  {
    if i >= n {
      var p, q := rows[i].parent.value, rows[j].parent.value;
      assert AuthorRow(rows[p], p) && AuthorRow(rows[q], q);
      assert rows[i].position == (p + 1) * 1000 + rows[i].loopIndex.value;
      assert rows[j].position == (q + 1) * 1000 + rows[j].loopIndex.value;
    }
  }

  // ---------------------------------------------------------------- memory and table

  /** Equal up to the two timestamps, which memory does not always follow. */
  predicate SameButTimes(a: Row, b: Row) {
    a.(dispatchedAt := None, finishedAt := None) == b.(dispatchedAt := None, finishedAt := None) &&
    (a.status.Dispatched? ==> a.dispatchedAt == b.dispatchedAt)
  }

  predicate Holds(mem: seq<Row>, id: nat) { exists i :: 0 <= i < |mem| && mem[i].id == id }

  /** The list in memory holds every row of the table exactly once, with its current status and output. */
  predicate Mirror(mem: seq<Row>, rows: seq<Row>) {
    |mem| == |rows| &&
    (forall i :: 0 <= i < |mem| ==> mem[i].id < |rows| && SameButTimes(mem[i], rows[mem[i].id])) &&
    (forall i, j :: 0 <= i < j < |mem| ==> mem[i].id != mem[j].id) &&
    (forall id: nat :: id < |rows| ==> Holds(mem, id))
  }

  /** Within a step, memory lists rows by position. */
  predicate StepSorted(mem: seq<Row>) {
    forall i, j :: 0 <= i < j < |mem| && mem[i].step == mem[j].step ==> mem[i].position < mem[j].position
  }

  function InsertionPoint(rows: seq<Row>, row: Row): (m: nat)
    ensures m <= |rows| && InsertSorted(rows, row) == InsertAt(rows, m, row)
    ensures m > 0 ==> Before(rows[m - 1], row)
    ensures m < |rows| ==> !Before(rows[m], row)
  {
    if rows == [] then 0
    else if Before(rows[|rows| - 1], row) then |rows|
    else
      var front := rows[..|rows| - 1];
      var m := InsertionPoint(front, row);
      assert front[..m] == rows[..m] && front[m..] + [rows[|rows| - 1]] == rows[m..];
      m
  }

  predicate SortedRows(rows: seq<Row>) { forall i, j :: 0 <= i < j < |rows| ==> Before(rows[i], rows[j]) }

  predicate Lists(mem: seq<Row>, rows: seq<Row>, k: nat)
    requires k <= |rows|
  {
    |mem| == k &&
    (forall i :: 0 <= i < k ==> mem[i].id < k && mem[i] == rows[mem[i].id]) &&
    (forall i, j :: 0 <= i < j < k ==> mem[i].id != mem[j].id) &&
    (forall id: nat :: id < k ==> Holds(mem, id))
  }

  lemma InsertKeepsOrder(mem: seq<Row>, row: Row)
    requires SortedRows(mem)
    ensures SortedRows(InsertSorted(mem, row))
  {
    var m := InsertionPoint(mem, row);
    var r := mem[..m] + [row] + mem[m..];
    forall i, j | 0 <= i < j < |r| ensures Before(r[i], r[j]) {
      if i == m { if m + 1 < j { assert Before(mem[m], mem[j - 1]); } }
      else if j == m { if i < m - 1 { assert Before(mem[i], mem[m - 1]); } }
    }
  }

  predicate Inserted(mem: seq<Row>, row: Row, m: nat, r: seq<Row>) {
    m <= |mem| && |r| == |mem| + 1 && r[m] == row &&
    (forall i :: 0 <= i < m ==> r[i] == mem[i]) && (forall i :: m < i < |r| ==> r[i] == mem[i - 1])
  }

  lemma InsertedHolds(mem: seq<Row>, row: Row, m: nat, r: seq<Row>, id: nat)
    requires Inserted(mem, row, m, r) && (id == row.id || Holds(mem, id))
    ensures Holds(r, id)
  {
    if id == row.id { assert r[m].id == id; } else {
      var i :| 0 <= i < |mem| && mem[i].id == id;
      var j := if i < m then i else i + 1;
      assert r[j] == mem[i];
    }
  }

  lemma InsertSortedInserts(mem: seq<Row>, row: Row) returns (m: nat)
    ensures Inserted(mem, row, m, InsertSorted(mem, row))
  {
    m := InsertionPoint(mem, row);
  }

  lemma InsertKeepsListing(mem: seq<Row>, rows: seq<Row>, k: nat)
    requires k < |rows| && rows[k].id == k && Lists(mem, rows, k)
    ensures Lists(InsertSorted(mem, rows[k]), rows, k + 1)
  {
    var m := InsertSortedInserts(mem, rows[k]);
    var r := InsertSorted(mem, rows[k]);
    forall id: nat | id < k + 1 ensures Holds(r, id) {
      InsertedHolds(mem, rows[k], m, r, id);
    }
    forall i: nat | i < k + 1 ensures r[i].id < k + 1 && r[i] == rows[r[i].id] {
    }
  }

  lemma {:induction false} LoadPrefix(rows: seq<Row>, k: nat)
    requires k <= |rows| && forall i :: 0 <= i < |rows| ==> rows[i].id == i
    ensures Lists(Load(rows[..k]), rows, k) && SortedRows(Load(rows[..k]))
  {
    if k > 0 {
      LoadPrefix(rows, k - 1);
      assert rows[..k][..k - 1] == rows[..k - 1];
      InsertKeepsListing(Load(rows[..k - 1]), rows, k - 1);
      InsertKeepsOrder(Load(rows[..k - 1]), rows[k - 1]);
    }
  }

  lemma ListedPositionsDiffer(mem: seq<Row>, rows: seq<Row>, n: nat, i: nat, j: nat)
    requires WfRows(rows, n) && Lists(mem, rows, |rows|) && i < j < |mem|
    ensures mem[i].position != mem[j].position
  {
    if mem[i].id < mem[j].id { UniquePositions(rows, n, mem[i].id, mem[j].id); } else { UniquePositions(rows, n, mem[j].id, mem[i].id); }
  }

  lemma SortedListingIsStepSorted(mem: seq<Row>, rows: seq<Row>, n: nat)
    requires WfRows(rows, n) && Lists(mem, rows, |rows|) && SortedRows(mem)
    ensures StepSorted(mem)
  {
    forall i, j | 0 <= i < j < |mem| && mem[i].step == mem[j].step ensures mem[i].position < mem[j].position {
      ListedPositionsDiffer(mem, rows, n, i, j);
      assert Before(mem[i], mem[j]);
    }
  }

  lemma ListingMirrors(mem: seq<Row>, rows: seq<Row>)
    requires Lists(mem, rows, |rows|)
    ensures Mirror(mem, rows)
  {
  }

  /** Reading an execution's rows lists each of them once, ordered by step and position. */
  lemma LoadMirrors(rows: seq<Row>, n: nat)
    requires WfRows(rows, n)
    ensures Lists(Load(rows), rows, |rows|)
    ensures Mirror(Load(rows), rows) && StepSorted(Load(rows)) && SortedRows(Load(rows))
  {
    assert rows[..|rows|] == rows;
    assert forall i :: 0 <= i < |rows| ==> rows[i].id == i;
    LoadPrefix(rows, |rows|);
    ListingMirrors(Load(rows), rows);
    SortedListingIsStepSorted(Load(rows), rows, n);
  }

  lemma FoundIn(list: seq<Row>, rows: seq<Row>, id: nat) returns (i: nat)
    requires Mirror(list, rows) && id < |rows|
    ensures i < |list| && list[i].id == id && SameButTimes(list[i], rows[id])
  {
    assert Holds(list, id);
    i :| i < |list| && list[i].id == id;
    assert SameButTimes(list[i], rows[list[i].id]);
  }
}
