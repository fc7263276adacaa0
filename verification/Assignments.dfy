/**
 * Who assigns a variable last: the sort by (step, finished_at) and the loop over the
 * sorted assignments, against the greatest setter.
 */
module Assignments {
  import opened Base
  import opened Templates
  import opened Control
  import opened Progress
  import opened Store
  import opened RowInvariants
  import opened Engine
  import opened AdvanceLoop
  import opened Invariants
  import opened Definition
  import opened Soundness
  import opened Rereading

  // ---------------------------------------------------------------- the last assignment wins

  /** The last element that assigns `name`. */
  function LastNamed(setters: seq<Setter>, name: string): Option<Setter> {
    if setters == [] then None
    else if setters[|setters| - 1].name == name then Some(setters[|setters| - 1])
    else LastNamed(setters[..|setters| - 1], name)
  }

  /** The winner of the sort, found without sorting: a later element replaces one it does not run before. */
  function Winner(setters: seq<Setter>, name: string): Option<Setter> {
    if setters == [] then None else
      var w, last := Winner(setters[..|setters| - 1], name), setters[|setters| - 1];
      if last.name == name && (w.None? || RunsBefore(w.value, last)) then Some(last) else w
  }

  predicate InRunOrder(setters: seq<Setter>) { forall i, j :: 0 <= i < j < |setters| ==> RunsBefore(setters[i], setters[j]) }

  lemma {:induction false} AssignedLast(setters: seq<Setter>, name: string)
    ensures name in Assign(setters) <==> LastNamed(setters, name).Some?
    ensures name in Assign(setters) ==> Assign(setters)[name] == LastNamed(setters, name).value.value
  {
    if setters != [] { AssignedLast(setters[..|setters| - 1], name); }
  }

  lemma {:induction false} LastNamedIn(setters: seq<Setter>, name: string)
    ensures LastNamed(setters, name).Some? ==> LastNamed(setters, name).value in setters && LastNamed(setters, name).value.name == name
  {
    if setters != [] && setters[|setters| - 1].name != name {
      LastNamedIn(setters[..|setters| - 1], name);
      assert forall x :: x in setters[..|setters| - 1] ==> x in setters;
    }
  }

  lemma {:induction false} InsertedLast(setters: seq<Setter>, s: Setter, name: string)
    requires InRunOrder(setters)
    ensures var w := LastNamed(setters, name);
            LastNamed(InsertSetter(setters, s), name) == if s.name == name && (w.None? || RunsBefore(w.value, s)) then Some(s) else w
  {
    if setters != [] {
      var front, last := setters[..|setters| - 1], setters[|setters| - 1];
      if RunsBefore(last, s) {
        LastNamedIn(setters, name);
        var r := setters + [s];
        assert r[|r| - 1] == s && r[..|r| - 1] == setters;
        var w := LastNamed(setters, name);
        if w.Some? { var i :| 0 <= i < |setters| && setters[i] == w.value; assert RunsBefore(setters[i], s); }
      } else {
        InsertedLast(front, s, name);
        var r := InsertSetter(front, s) + [last];
        assert r[|r| - 1] == last && r[..|r| - 1] == InsertSetter(front, s);
      }
    }
  }

  lemma {:induction false} InsertOrdered(setters: seq<Setter>, s: Setter)
    requires InRunOrder(setters)
    ensures InRunOrder(InsertSetter(setters, s))
    ensures forall x :: x in InsertSetter(setters, s) ==> x == s || x in setters
  {
    if setters != [] {
      var front, last := setters[..|setters| - 1], setters[|setters| - 1];
      if !RunsBefore(last, s) {
        InsertOrdered(front, s);
        forall x | x in InsertSetter(front, s) ensures RunsBefore(x, last) && (x == s || x in setters) {
          if x != s { var i :| 0 <= i < |front| && front[i] == x; assert setters[i] == x; }
        }
      }
    }
  }

  lemma {:induction false} SortOrdered(setters: seq<Setter>)
    ensures InRunOrder(SortSetters(setters))
  {
    if setters != [] {
      SortOrdered(setters[..|setters| - 1]);
      InsertOrdered(SortSetters(setters[..|setters| - 1]), setters[|setters| - 1]);
    }
  }

  lemma {:induction false} SortedLast(setters: seq<Setter>, name: string)
    ensures LastNamed(SortSetters(setters), name) == Winner(setters, name)
  {
    if setters != [] {
      var front := setters[..|setters| - 1];
      SortedLast(front, name);
      SortOrdered(front);
      InsertedLast(SortSetters(front), setters[|setters| - 1], name);
    }
  }

  // ---------------------------------------------------------------- the winning row

  predicate SetsVariable(row: Row, name: string) { SetterOf(row).Some? && SetterOf(row).value.name == name }

  /** Index of the row whose assignment wins. */
  function WinnerRow(rows: seq<Row>, name: string): (w: Option<nat>)
    ensures w.Some? ==> w.value < |rows| && SetsVariable(rows[w.value], name)
  {
    if rows == [] then None else
      var front := rows[..|rows| - 1];
      var w, last := WinnerRow(front, name), rows[|rows| - 1];
      if SetsVariable(last, name) && (w.None? || RunsBefore(SetterOf(front[w.value]).value, SetterOf(last).value)) then Some(|rows| - 1) else w
  }

  lemma {:induction false} WinnerIsRow(rows: seq<Row>, name: string)
    ensures Winner(SettersOf(rows), name) == if WinnerRow(rows, name).Some? then SetterOf(rows[WinnerRow(rows, name).value]) else None
  {
    if rows != [] {
      var front, last := rows[..|rows| - 1], SetterOf(rows[|rows| - 1]);
      WinnerIsRow(front, name);
      if last.Some? {
        assert (SettersOf(front) + [last.value])[..|SettersOf(front)|] == SettersOf(front);
      }
    }
  }

  lemma VariableIsWinner(rows: seq<Row>, name: string)
    ensures name in VariablesOf(rows) <==> WinnerRow(rows, name).Some?
    ensures name in VariablesOf(rows) ==> VariablesOf(rows)[name] == SetterOf(rows[WinnerRow(rows, name).value]).value.value
  {
    AssignedLast(SortSetters(SettersOf(rows)), name);
    SortedLast(SettersOf(rows), name);
    WinnerIsRow(rows, name);
  }

  function FinishOf(row: Row): nat { if row.finishedAt.Some? then row.finishedAt.value else 0 }

  predicate RowBefore(a: Row, b: Row) { a.step < b.step || (a.step == b.step && FinishOf(a) <= FinishOf(b)) }

  lemma {:induction false} WinnerFound(rows: seq<Row>, name: string, i: nat)
    requires i < |rows| && SetsVariable(rows[i], name)
    ensures WinnerRow(rows, name).Some?
  {
    if i < |rows| - 1 {
      assert rows[..|rows| - 1][i] == rows[i];
      WinnerFound(rows[..|rows| - 1], name, i);
    }
  }

  /** The winner is the greatest setter by (step, finished_at), and the last of the greatest. */
  lemma {:induction false} WinnerIsGreatest(rows: seq<Row>, name: string, i: nat)
    requires i < |rows| && SetsVariable(rows[i], name) && WinnerRow(rows, name).Some?
    ensures var w := WinnerRow(rows, name).value; RowBefore(rows[i], rows[w]) && (i > w ==> !RowBefore(rows[w], rows[i]))
  {
    var front := rows[..|rows| - 1];
    var w := WinnerRow(front, name);
    if i < |front| {
      assert front[i] == rows[i];
      WinnerFound(front, name, i);
      WinnerIsGreatest(front, name, i);
    }
  }

  lemma SetterShown(a: Row, b: Row, name: string)
    requires SameButTimes(a, b)
    ensures SetsVariable(a, name) <==> SetsVariable(b, name)
    ensures SetsVariable(a, name) ==> SetterOf(a).value.value == SetterOf(b).value.value
  {
  }
}
