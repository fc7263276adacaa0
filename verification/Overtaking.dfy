/**
 * Variables are sorted by (step, finished_at), but finished_at is not written back to
 * memory. So a variable can read differently in memory and in the table, and this
 * says exactly when: repetitions that finish in the running transaction look as if
 * they had run before a plain assignment of the same step that finished earlier.
 */
module Overtaking {
  import opened Base
  import opened Templates
  import opened Control
  import opened Progress
  import opened Store
  import opened RowInvariants
  import opened Engine
  import opened AdvanceLoop
  import opened Issues
  import opened Invariants
  import opened Transactions
  import opened Evolution
  import opened Definition
  import opened Network
  import opened Soundness
  import opened Rereading
  import opened Assignments
  import opened FinishTimes

  // ---------------------------------------------------------------- the exact condition

  /** Row `i` is the last of the plain setters, or of the repeating ones, in the last step that sets the variable. */
  predicate LastSetter(list: seq<Row>, name: string, i: nat, repeats: bool) {
    i < |list| && SetsVariable(list[i], name) && list[i].parent.Some? == repeats &&
    forall j :: 0 <= j < |list| && SetsVariable(list[j], name) ==> NotAfter(list, j, i, repeats)
  }

  predicate NotAfter(list: seq<Row>, j: nat, i: nat, repeats: bool)
    requires i < |list| && j < |list|
  {
    list[j].step < list[i].step || (list[j].step == list[i].step && (list[j].parent.Some? != repeats || j <= i))
  }

  /**
   * A plain setter `p` that finished in an earlier transaction, no later than the clock
   * says now, and a repetition `c` of the same step that finished in this one assign
   * the variable different values, both last of their kind.
   */
  predicate OvertakenBy(t: Tx, name: string, p: nat, c: nat) {
    LastSetter(t.mem, name, p, false) && LastSetter(t.mem, name, c, true) &&
    t.mem[c].finishedAt.None? && t.mem[p].finishedAt.Some? && 0 < t.mem[p].finishedAt.value <= t.now &&
    SetterOf(t.mem[p]).value.value != SetterOf(t.mem[c]).value.value
  }

  ghost predicate Overtaken(t: Tx, name: string) { exists p: nat, c: nat :: OvertakenBy(t, name, p, c) }

  // ---------------------------------------------------------------- what is known of finishing times

  /** Memory shows a finishing time of the table, or none for what finished in this transaction. */
  predicate TimeShown(m: Row, r: Row, now: nat) {
    m.typ == VARIABLE && m.status.Completed? ==>
      r.finishedAt.Some? && (m.finishedAt == r.finishedAt || (m.finishedAt.None? && r.finishedAt == Some(now)))
  }

  predicate TimesShown(t: Tx)
    requires t.Bounded()
  {
    forall i :: 0 <= i < |t.mem| ==> TimeShown(t.mem[i], t.Rows()[t.mem[i].id], t.now)
  }

  /** A plain setter and a repeating one of the same step. */
  predicate Mixes(p: Row, c: Row) { p.typ == VARIABLE && c.typ == VARIABLE && p.step == c.step && p.parent.None? && c.parent.Some? }

  /** Repetitions finish after the plain setters of their step. */
  predicate FinishesLater(p: Row, c: Row) {
    Mixes(p, c) && c.status.Completed? && c.finishedAt.Some? ==> !p.status.Pending? && (p.status.Completed? ==> p.finishedAt.Some?)
  }

  predicate RepetitionsLater(mem: seq<Row>) { forall i, j :: 0 <= i < |mem| && 0 <= j < |mem| ==> FinishesLater(mem[i], mem[j]) }

  /** The step has an action that is not evaluated in place. */
  predicate StepSends(mem: seq<Row>, s: nat) { exists k :: 0 <= k < |mem| && mem[k].step == s && !IsControl(mem[k].typ) }

  predicate Separated(mem: seq<Row>, p: Row, c: Row) {
    Mixes(p, c) && p.status.Completed? && p.finishedAt.Some? && (c.status.Pending? || (c.status.Completed? && c.finishedAt.None?)) ==> StepSends(mem, p.step)
  }

  /** Only a step that sends something can separate its repetitions from its plain setters. */
  predicate OnlySendsSeparate(mem: seq<Row>) { forall i, j :: 0 <= i < |mem| && 0 <= j < |mem| ==> Separated(mem, mem[i], mem[j]) }

  predicate Tracked(t: Tx) { t.Bounded() && TimesShown(t) && RepetitionsLater(t.mem) && OnlySendsSeparate(t.mem) }

  /** All that is known of times at a turn of a pass. */
  predicate TurnTimes(t: Tx) { TxOk(t) && CompletedTogether(t.mem) && CompletedTogether(t.Rows()) && Tracked(t) }

  // ---------------------------------------------------------------- memory against table

  lemma OrderKept(a: seq<Row>, b: seq<Row>, rows: seq<Row>, i: nat, j: nat, i': nat, j': nat)
    requires StepList(a, rows) && StepList(b, rows) && i < |a| && j < |a| && i' < |b| && j' < |b|
    requires a[i].id == b[i'].id && a[j].id == b[j'].id && a[i].step == a[j].step && i < j
    ensures i' < j'
  {
    MirrorRow(a, rows, i);
    MirrorRow(a, rows, j);
    MirrorRow(b, rows, i');
    MirrorRow(b, rows, j');
    assert a[i].position < a[j].position;
  }

  lemma PlainFirst(list: seq<Row>, rows: seq<Row>, n: nat, i: nat, j: nat)
    requires StepList(list, rows) && WfRows(rows, n) && i < |list| && j < |list|
    requires list[i].step == list[j].step && list[i].parent.None? && list[j].parent.Some?
    ensures i < j
  {
    MirrorRow(list, rows, i);
    MirrorRow(list, rows, j);
    Positions(rows, n, list[i].id);
    Positions(rows, n, list[j].id);
  }

  lemma Positions(rows: seq<Row>, n: nat, a: nat)
    requires WfRows(rows, n) && a < |rows|
    ensures if rows[a].parent.None? then rows[a].position < MAX_ACTIONS else rows[a].position >= 1000
  {
    if a < n { assert AuthorRow(rows[a], a); } else { assert ChildOf(rows[a], a, rows[rows[a].parent.value]); }
  }

  /** Everything a comparison needs of the two lists. */
  predicate BothLists(t: Tx, b: seq<Row>) {
    t.Bounded() && StepList(t.mem, t.Rows()) && StepList(b, t.Rows()) && WfRows(t.Rows(), t.db.execs[t.e].authored) &&
    CompletedTogether(t.mem) && CompletedTogether(b) && TimesShown(t) && RepetitionsLater(t.mem) &&
    forall i :: 0 <= i < |b| ==> b[i].id < |t.Rows()| && b[i] == t.Rows()[b[i].id]
  }

  lemma ListsOf(t: Tx)
    requires TurnTimes(t)
    ensures BothLists(t, Load(t.Rows()))
  {
    hide LoopOrder, OnlySendsSeparate;
    var n := t.db.execs[t.e].authored;
    LoadMirrors(t.Rows(), n);
    var b := Load(t.Rows());
    assert Lists(b, t.Rows(), |t.Rows()|);
    forall i, j | 0 <= i < |b| && 0 <= j < |b| ensures SameEnd(b[i], b[j]) { assert SameEnd(t.Rows()[b[i].id], t.Rows()[b[j].id]); }
  }

  /** The copy of a memory row in the other list. */
  lemma Copied(t: Tx, b: seq<Row>, name: string, i: nat) returns (i': nat)
    requires BothLists(t, b) && i < |t.mem|
    ensures i' < |b| && b[i'].id == t.mem[i].id && b[i'] == t.Rows()[t.mem[i].id] && SameButTimes(t.mem[i], b[i'])
    ensures SetsVariable(b[i'], name) == SetsVariable(t.mem[i], name)
    ensures SetsVariable(t.mem[i], name) ==> SetterOf(b[i']).value.value == SetterOf(t.mem[i]).value.value
    ensures TimeShown(t.mem[i], b[i'], t.now)
  {
    hide WfRows, StepSorted, CompletedTogether, RepetitionsLater, SetsVariable, SetterOf;
    MirrorRow(t.mem, t.Rows(), i);
    i' := FoundIn(b, t.Rows(), t.mem[i].id);
    SetterShown(t.mem[i], b[i'], name);
  }

  lemma CopiedBack(t: Tx, b: seq<Row>, name: string, j: nat) returns (j': nat)
    requires BothLists(t, b) && j < |b|
    ensures j' < |t.mem| && t.mem[j'].id == b[j].id && SameButTimes(t.mem[j'], b[j])
    ensures SetsVariable(b[j], name) == SetsVariable(t.mem[j'], name)
    ensures SetsVariable(b[j], name) ==> SetterOf(b[j]).value.value == SetterOf(t.mem[j']).value.value
    ensures TimeShown(t.mem[j'], b[j], t.now)
  {
    hide WfRows, StepSorted, CompletedTogether, RepetitionsLater, SetsVariable, SetterOf;
    j' := FoundIn(t.mem, t.Rows(), b[j].id);
    MirrorRow(t.mem, t.Rows(), j');
    SetterShown(t.mem[j'], b[j], name);
  }

  lemma SetterFacts(row: Row, name: string)
    requires SetsVariable(row, name)
    ensures row.typ == VARIABLE && row.status.Completed?
  {
  }

  lemma BothSet(t: Tx, b: seq<Row>, name: string)
    requires BothLists(t, b)
    ensures WinnerRow(t.mem, name).Some? <==> WinnerRow(b, name).Some?
  {
    hide BothLists, SetsVariable, WinnerRow;
    if WinnerRow(t.mem, name).Some? {
      var i' := Copied(t, b, name, WinnerRow(t.mem, name).value);
      WinnerFound(b, name, i');
    }
    if WinnerRow(b, name).Some? {
      var j' := CopiedBack(t, b, name, WinnerRow(b, name).value);
      WinnerFound(t.mem, name, j');
    }
  }

  /** Two setters of one kind in one step share a finishing time, so the later in the list wins. */
  lemma LastOfKindWins(list: seq<Row>, name: string, i: nat, w: nat)
    requires CompletedTogether(list) && i < |list| && w < |list| && SetsVariable(list[i], name) && SetsVariable(list[w], name)
    requires WinnerRow(list, name) == Some(w) && list[i].step == list[w].step && list[i].parent.Some? == list[w].parent.Some?
    ensures i <= w
  {
    hide SetsVariable, WinnerRow;
    SetterFacts(list[i], name);
    SetterFacts(list[w], name);
    assert SameEnd(list[i], list[w]);
    WinnerIsGreatest(list, name, i);
  }

  // ---------------------------------------------------------------- overtaken means different

  lemma OvertakenInMemory(t: Tx, b: seq<Row>, name: string, p: nat, c: nat)
    requires BothLists(t, b) && OvertakenBy(t, name, p, c)
    ensures WinnerRow(t.mem, name) == Some(p)
  {
    hide BothLists, SetsVariable, WinnerRow, SetterOf;
    WinnerFound(t.mem, name, p);
    var w := WinnerRow(t.mem, name).value;
    WinnerIsGreatest(t.mem, name, p);
    assert NotAfter(t.mem, w, p, false) && NotAfter(t.mem, c, p, false) && NotAfter(t.mem, p, c, true);
    if t.mem[w].parent.Some? {
      SameTimeAs(t, b, name, w, c);
    } else {
      SameKindWins(t, b, name, p, w);
    }
  }

  lemma SameTimeAs(t: Tx, b: seq<Row>, name: string, w: nat, c: nat)
    requires BothLists(t, b) && w < |t.mem| && c < |t.mem| && SetsVariable(t.mem[w], name) && SetsVariable(t.mem[c], name)
    requires t.mem[w].step == t.mem[c].step && t.mem[w].parent.Some? == t.mem[c].parent.Some?
    ensures t.mem[w].finishedAt == t.mem[c].finishedAt
  {
    hide WfRows, StepList, TimesShown, RepetitionsLater;
    assert SameEnd(t.mem[w], t.mem[c]);
  }

  lemma SameKindWins(t: Tx, b: seq<Row>, name: string, i: nat, w: nat)
    requires BothLists(t, b) && WinnerRow(t.mem, name) == Some(w) && i < |t.mem| && w < |t.mem| && SetsVariable(t.mem[i], name)
    requires t.mem[i].step == t.mem[w].step && t.mem[i].parent.Some? == t.mem[w].parent.Some?
    ensures i <= w
  {
    hide WfRows, StepList, TimesShown, RepetitionsLater, SetsVariable, CompletedTogether;
    LastOfKindWins(t.mem, name, i, w);
  }

  lemma OvertakenInTable(t: Tx, b: seq<Row>, name: string, p: nat, c: nat) returns (c': nat)
    requires BothLists(t, b) && OvertakenBy(t, name, p, c)
    ensures c' < |b| && b[c'].id == t.mem[c].id && WinnerRow(b, name) == Some(c') && SetterOf(b[c']).Some?
    ensures SetterOf(b[c']).value.value == SetterOf(t.mem[c]).value.value
  {
    hide WfRows, Mirror, StepSorted, CompletedTogether, TimesShown, RepetitionsLater, SetsVariable, WinnerRow, SetterOf;
    var p' := Copied(t, b, name, p);
    c' := Copied(t, b, name, c);
    SetterFacts(t.mem[p], name);
    SetterFacts(t.mem[c], name);
    SettersSet(b[c'], name);
    WinnerFound(b, name, c');
    var w := WinnerRow(b, name).value;
    var w' := CopiedBack(t, b, name, w);
    WinnerIsGreatest(b, name, c');
    assert NotAfter(t.mem, w', c, true) && NotAfter(t.mem, c, p, false) && NotAfter(t.mem, p, c, true);
    if b[w].parent.Some? {
      LastOfKindWins(b, name, c', w);
      if w' < c { OrderKept(t.mem, b, t.Rows(), w', c, w, c'); }
      if b[w].id == b[c'].id { SameId(t, b, w, c'); }
    } else {
      PlainFirst(b, t.Rows(), t.db.execs[t.e].authored, w, c');
      PlainTime(b, name, w, p');
    }
  }

  lemma SettersSet(row: Row, name: string)
    ensures SetsVariable(row, name) ==> SetterOf(row).Some?
  {
  }

  lemma PlainTime(b: seq<Row>, name: string, w: nat, p: nat)
    requires CompletedTogether(b) && w < |b| && p < |b| && SetsVariable(b[w], name) && SetsVariable(b[p], name)
    requires b[w].step == b[p].step && b[w].parent.Some? == b[p].parent.Some?
    ensures b[w].finishedAt == b[p].finishedAt
  {
    assert SameEnd(b[w], b[p]);
  }

  // ---------------------------------------------------------------- and different means overtaken

  /** Winners of one kind are the same row. */
  lemma SameKindSameRow(t: Tx, b: seq<Row>, name: string, w: nat, v: nat)
    requires BothLists(t, b) && WinnerRow(t.mem, name) == Some(w) && WinnerRow(b, name) == Some(v) && w < |t.mem| && v < |b|
    requires t.mem[w].step == b[v].step && t.mem[w].parent.Some? == b[v].parent.Some?
    ensures t.mem[w].id == b[v].id
  {
    hide WfRows, Mirror, StepSorted, CompletedTogether, TimesShown, RepetitionsLater, SetsVariable, WinnerRow, SetterOf;
    var w' := Copied(t, b, name, w);
    var v' := CopiedBack(t, b, name, v);
    LastOfKindWins(t.mem, name, v', w);
    LastOfKindWins(b, name, w', v);
    if v' < w { OrderKept(t.mem, b, t.Rows(), v', w, v, w'); }
  }

  lemma SameTopStep(t: Tx, b: seq<Row>, name: string, w: nat, v: nat)
    requires BothLists(t, b) && WinnerRow(t.mem, name) == Some(w) && WinnerRow(b, name) == Some(v) && w < |t.mem| && v < |b|
    ensures t.mem[w].step == b[v].step
  {
    hide BothLists, SetsVariable, WinnerRow, SetterOf;
    var w' := Copied(t, b, name, w);
    var v' := CopiedBack(t, b, name, v);
    WinnerIsGreatest(b, name, w');
    WinnerIsGreatest(t.mem, name, v');
  }

  /** A repetition never wins in memory over a plain setter that wins in the table. */
  lemma NeverTheOtherWay(t: Tx, b: seq<Row>, name: string, w: nat, v: nat)
    requires BothLists(t, b) && WinnerRow(t.mem, name) == Some(w) && WinnerRow(b, name) == Some(v) && w < |t.mem| && v < |b|
    requires t.mem[w].step == b[v].step
    ensures !(t.mem[w].parent.Some? && b[v].parent.None?)
  {
    hide WfRows, Mirror, StepSorted, CompletedTogether, TimesShown, SetsVariable, WinnerRow, SetterOf;
    var w' := Copied(t, b, name, w);
    var v' := CopiedBack(t, b, name, v);
    SetterFacts(t.mem[w], name);
    SetterFacts(t.mem[v'], name);
    WinnerIsGreatest(b, name, w');
    WinnerIsGreatest(t.mem, name, v');
    assert FinishesLater(t.mem[v'], t.mem[w]);
    if t.mem[w].parent.Some? && b[v].parent.None? { PlainFirst(b, t.Rows(), t.db.execs[t.e].authored, v, w'); }
  }

  lemma WinnerIsLastPlain(t: Tx, b: seq<Row>, name: string, w: nat)
    requires BothLists(t, b) && WinnerRow(t.mem, name) == Some(w) && w < |t.mem| && t.mem[w].parent.None?
    ensures LastSetter(t.mem, name, w, false)
  {
    hide WfRows, StepList, TimesShown, RepetitionsLater, SetsVariable, CompletedTogether, WinnerRow;
    forall j | 0 <= j < |t.mem| && SetsVariable(t.mem[j], name) ensures NotAfter(t.mem, j, w, false) {
      WinnerIsGreatest(t.mem, name, j);
      if t.mem[j].step == t.mem[w].step && t.mem[j].parent.None? { LastOfKindWins(t.mem, name, j, w); }
    }
  }

  lemma WinnerIsLastRepetition(t: Tx, b: seq<Row>, name: string, v: nat, c: nat)
    requires BothLists(t, b) && WinnerRow(b, name) == Some(v) && v < |b| && b[v].parent.Some? && c < |t.mem| && t.mem[c].id == b[v].id
    ensures LastSetter(t.mem, name, c, true)
  {
    hide WfRows, Mirror, StepSorted, CompletedTogether, TimesShown, RepetitionsLater, SetsVariable, WinnerRow, SetterOf;
    var v' := Copied(t, b, name, c);
    assert v' == v by { SameId(t, b, v', v); }
    forall j | 0 <= j < |t.mem| && SetsVariable(t.mem[j], name) ensures NotAfter(t.mem, j, c, true) {
      var j' := Copied(t, b, name, j);
      WinnerIsGreatest(b, name, j');
      if t.mem[j].step == t.mem[c].step && t.mem[j].parent.Some? {
        LastOfKindWins(b, name, j', v);
        if c < j { OrderKept(t.mem, b, t.Rows(), c, j, v, j'); }
      }
    }
  }

  lemma SameId(t: Tx, b: seq<Row>, i: nat, j: nat)
    requires BothLists(t, b) && i < |b| && j < |b| && b[i].id == b[j].id
    ensures i == j
  {
    hide WfRows, StepSorted, CompletedTogether, TimesShown, RepetitionsLater;
  }

  /** A plain setter wins in memory, a repetition in the table: then it is overtaken. */
  lemma CrossedIsOvertaken(t: Tx, b: seq<Row>, name: string, w: nat, v: nat)
    requires BothLists(t, b) && WinnerRow(t.mem, name) == Some(w) && WinnerRow(b, name) == Some(v) && w < |t.mem| && v < |b|
    requires t.mem[w].step == b[v].step && t.mem[w].parent.None? && b[v].parent.Some?
    requires SetterOf(t.mem[w]).Some? && SetterOf(b[v]).Some? && SetterOf(t.mem[w]).value.value != SetterOf(b[v]).value.value
    ensures Overtaken(t, name)
  {
    hide WfRows, Mirror, StepSorted, CompletedTogether, TimesShown, RepetitionsLater, SetsVariable, WinnerRow, SetterOf;
    var w' := Copied(t, b, name, w);
    var v' := CopiedBack(t, b, name, v);
    SetterFacts(t.mem[w], name);
    SetterFacts(t.mem[v'], name);
    WinnerIsGreatest(b, name, w');
    WinnerIsGreatest(t.mem, name, v');
    PlainFirst(t.mem, t.Rows(), t.db.execs[t.e].authored, w, v');
    WinnerIsLastPlain(t, b, name, w);
    WinnerIsLastRepetition(t, b, name, v, v');
    assert OvertakenBy(t, name, w, v');
  }

  /**
   * Exactly when a variable reads differently: memory and table always agree on which
   * variables are set, and on the value of one unless it is overtaken.
   */
  lemma VariableReadsExactly(t: Tx, name: string)
    requires TurnTimes(t)
    ensures var table := VariablesOf(Load(t.Rows()));
            (name in VariablesOf(t.mem) <==> name in table) &&
            (name in table ==> (VariablesOf(t.mem)[name] != table[name] <==> Overtaken(t, name))) &&
            (Overtaken(t, name) ==> name in table)
  {
    hide WfRows, LoopOrder, Mirror, StepSorted, CompletedTogether, Tracked, BothLists, WinnerRow, SetterOf, VariablesOf, OvertakenBy;
    var b := Load(t.Rows());
    ListsOf(t);
    BothSet(t, b, name);
    VariableIsWinner(t.mem, name);
    VariableIsWinner(b, name);
    if Overtaken(t, name) {
      var p: nat, c: nat :| OvertakenBy(t, name, p, c);
      OvertakenValues(t, b, name, p, c);
    }
    if WinnerRow(b, name).Some? && VariablesOf(t.mem)[name] != VariablesOf(b)[name] {
      var w, v := WinnerRow(t.mem, name).value, WinnerRow(b, name).value;
      SameTopStep(t, b, name, w, v);
      NeverTheOtherWay(t, b, name, w, v);
      if t.mem[w].parent.Some? == b[v].parent.Some? {
        SameKindSameRow(t, b, name, w, v);
        SameRowSameValue(t, b, name, w, v);
      } else {
        CrossedIsOvertaken(t, b, name, w, v);
      }
    }
  }

  lemma SameRowSameValue(t: Tx, b: seq<Row>, name: string, w: nat, v: nat)
    requires BothLists(t, b) && w < |t.mem| && v < |b| && SetsVariable(t.mem[w], name) && t.mem[w].id == b[v].id
    ensures SetterOf(b[v]).Some? && SetterOf(b[v]).value.value == SetterOf(t.mem[w]).value.value
  {
    hide BothLists, SetterOf, SetsVariable;
    var v' := Copied(t, b, name, w);
    SameId(t, b, v', v);
    SettersSet(b[v], name);
  }

  lemma OvertakenValues(t: Tx, b: seq<Row>, name: string, p: nat, c: nat)
    requires BothLists(t, b) && OvertakenBy(t, name, p, c)
    ensures WinnerRow(t.mem, name).Some? && WinnerRow(b, name).Some?
    ensures SetterOf(t.mem[WinnerRow(t.mem, name).value]).value.value != SetterOf(b[WinnerRow(b, name).value]).value.value
  {
    hide BothLists, WinnerRow, SetterOf;
    OvertakenInMemory(t, b, name, p, c);
    var c' := OvertakenInTable(t, b, name, p, c);
  }

  // ---------------------------------------------------------------- a property of the routine alone

  predicate Loops(d: ActionDef) { Truthy(d.forEach) }

  /** Actions `i` and `j` of one step set the variable, one plainly and one in a loop, and action `k` of that step is sent or called. */
  predicate MixedBy(defs: seq<ActionDef>, name: string, i: nat, j: nat, k: nat) {
    i < |defs| && j < |defs| && k < |defs| && SetsName(defs[i], name) && SetsName(defs[j], name) && !Loops(defs[i]) && Loops(defs[j]) &&
    defs[i].step == defs[j].step == defs[k].step && !IsControl(defs[k].typ)
  }

  ghost predicate Mixed(defs: seq<ActionDef>, name: string) { exists i: nat, j: nat, k: nat :: MixedBy(defs, name, i, j, k) }

  /** The action a row was created from. */
  function AuthorOf(row: Row): nat { if row.parent.Some? then row.parent.value else row.id }

  lemma AuthorIs(x: Exec, a: nat)
    requires WfRows(x.rows, x.authored) && a < |x.rows|
    ensures x.rows[a].id == a && AuthorOf(x.rows[a]) < x.authored <= |x.rows|
    ensures var i := AuthorOf(x.rows[a]);
            x.rows[i].typ == x.rows[a].typ && x.rows[i].step == x.rows[a].step && x.rows[i].params == x.rows[a].params &&
            (x.rows[a].parent.Some? ==> x.rows[i].LoopHead()) && (x.rows[a].parent.None? ==> i == a)
  {
    assert forall i :: 0 <= i < x.authored ==> AuthorRow(x.rows[i], i);
    if a >= x.authored { assert ChildOf(x.rows[a], a, x.rows[x.rows[a].parent.value]); }
  }

  /** A row that sets a variable is not a loop head, and sets the name it was written with. */
  lemma SetterName(row: Row, name: string)
    requires OutputFits(row) && SetsVariable(row, name)
    ensures !row.LoopHead() && row.status.Completed? && row.typ == VARIABLE && Field(row.params, "name") == Some(Str(name))
  {
  }

  /** The action behind a setter in memory sets the same name, in a loop exactly if the row is a repetition. */
  lemma SetterAction(t: Tx, name: string, m: nat) returns (i: nat)
    requires TxOk(t) && Sound(t.db.execs[t.e]) && m < |t.mem| && SetsVariable(t.mem[m], name)
    ensures var defs := DefsOf(t.Rows(), t.db.execs[t.e].authored);
            i < |defs| && SetsName(defs[i], name) && defs[i].step == t.mem[m].step && Loops(defs[i]) == t.mem[m].parent.Some?
  {
    hide WfRows, LoopOrder, Mirror, StepSorted, SetsVariable, OutputFits, Accepted;
    var x := t.db.execs[t.e];
    MirrorRow(t.mem, t.Rows(), m);
    SetterShown(t.mem[m], t.Rows()[t.mem[m].id], name);
    assert OutputFits(x.rows[t.mem[m].id]);
    SetterName(x.rows[t.mem[m].id], name);
    AuthorIs(x, t.mem[m].id);
    i := AuthorOf(x.rows[t.mem[m].id]);
    assert DefsOf(x.rows, x.authored)[i] == DefOf(x.rows[i]);
  }

  lemma SendingAction(t: Tx, s: nat) returns (k: nat)
    requires TxOk(t) && StepSends(t.mem, s)
    ensures var defs := DefsOf(t.Rows(), t.db.execs[t.e].authored); k < |defs| && defs[k].step == s && !IsControl(defs[k].typ)
  {
    hide WfRows, LoopOrder, Mirror, StepSorted;
    var m :| 0 <= m < |t.mem| && t.mem[m].step == s && !IsControl(t.mem[m].typ);
    var x := t.db.execs[t.e];
    MirrorRow(t.mem, t.Rows(), m);
    AuthorIs(x, t.mem[m].id);
    k := AuthorOf(x.rows[t.mem[m].id]);
    assert DefsOf(x.rows, x.authored)[k] == DefOf(x.rows[k]);
  }

  /** Only a routine that mixes plain and looped setters of a name in a step that also sends something lets that variable be overtaken. */
  lemma OvertakenIsMixed(t: Tx, name: string)
    requires TurnTimes(t) && Sound(t.db.execs[t.e]) && Overtaken(t, name)
    ensures Mixed(DefsOf(t.Rows(), t.db.execs[t.e].authored), name)
  {
    hide WfRows, LoopOrder, Mirror, StepSorted, CompletedTogether, TimesShown, RepetitionsLater, Sound, SetterOf, StepSends;
    var p: nat, c: nat :| OvertakenBy(t, name, p, c);
    assert NotAfter(t.mem, p, c, true) && NotAfter(t.mem, c, p, false);
    SetterFacts(t.mem[p], name);
    SetterFacts(t.mem[c], name);
    assert Separated(t.mem, t.mem[p], t.mem[c]);
    var i := SetterAction(t, name, p);
    var j := SetterAction(t, name, c);
    var k := SendingAction(t, t.mem[p].step);
    AuthoredFit(t.Rows(), t.db.execs[t.e].authored);
    assert MixedBy(DefsOf(t.Rows(), t.db.execs[t.e].authored), name, i, j, k);
  }

  // ---------------------------------------------------------------- tracked through a batch

  lemma SendsStay(mem: seq<Row>, mem1: seq<Row>, s: nat, step: nat, done: seq<nat>)
    requires MemAfter(mem, mem1, s, done) && StepSends(mem, step)
    ensures StepSends(mem1, step)
  {
    var k :| 0 <= k < |mem| && mem[k].step == step && !IsControl(mem[k].typ);
    assert StaticSame(mem[k], mem1[k]);
  }

  /** What a batch may do to one setter in memory: nothing, or end it without a time. */
  predicate EndsBlank(r: Row, r': Row) {
    StaticSame(r, r') && r'.finishedAt == r.finishedAt && (r' == r || (r.status.Pending? && r.finishedAt.None?))
  }

  lemma MemSteps(t: Tx, t1: Tx, s: nat, batch: seq<nat>, k: nat)
    requires TxOk(t) && TimedTx(t) && IsBatch(t.mem, s, batch) && k <= |batch| && BatchTimes(t, t1, batch[..k]) && MemAfter(t.mem, t1.mem, s, batch[..k])
    ensures forall i :: 0 <= i < |t.mem| ==> EndsBlank(t.mem[i], t1.mem[i])
    ensures forall j :: |t.mem| <= j < |t1.mem| ==> t1.mem[j].status.Pending? && t1.mem[j].parent.Some? && HandledId(t.mem, batch[..k], t1.mem[j].parent.value)
  {
    hide WfRows, LoopOrder, Mirror, StepSorted, IsBatch, HandledId, CompletedTogether, PendingTogether, TimedBut;
    var done := batch[..k];
    forall i | 0 <= i < |t.mem| ensures EndsBlank(t.mem[i], t1.mem[i]) {
      assert FinishTimes.Blank(t.mem[i]) && StaticSame(t.mem[i], t1.mem[i]);
      if i in done { InDone(t.mem, batch, k, s, i); }
    }
    forall j | |t.mem| <= j < |t1.mem| ensures ChildOfHandled(t1.mem[j], t.mem, done) {}
  }

  lemma LaterAfterBatch(t: Tx, t1: Tx, s: nat, batch: seq<nat>, k: nat)
    requires TxOk(t) && TimedTx(t) && IsBatch(t.mem, s, batch) && k <= |batch| && BatchTimes(t, t1, batch[..k]) && MemAfter(t.mem, t1.mem, s, batch[..k])
    requires RepetitionsLater(t.mem)
    ensures RepetitionsLater(t1.mem)
  {
    hide TxOk, IsBatch, BatchTimes, HandledId, TimedTx, MemAfter;
    MemSteps(t, t1, s, batch, k);
    forall i, j | 0 <= i < |t1.mem| && 0 <= j < |t1.mem| ensures FinishesLater(t1.mem[i], t1.mem[j]) {
      if i < |t.mem| && j < |t.mem| {
        assert FinishesLater(t.mem[i], t.mem[j]) && EndsBlank(t.mem[i], t1.mem[i]) && EndsBlank(t.mem[j], t1.mem[j]);
      }
    }
  }

  /** A new repetition of a setter: no plain setter of its step has finished before. */
  lemma NewRepetition(t: Tx, t1: Tx, s: nat, batch: seq<nat>, k: nat, i: nat, j: nat)
    requires TxOk(t) && TxOk(t1) && TimedTx(t) && IsBatch(t.mem, s, batch) && k <= |batch| && t1.e == t.e && NewRowsOf(t, t1) && i < |t.mem| <= j < |t1.mem|
    requires t1.mem[j].parent.Some? && HandledId(t.mem, batch[..k], t1.mem[j].parent.value) && |t.Rows()| == |t.mem|
    requires t1.mem[j].id >= |t.Rows()|
    ensures Mixes(t.mem[i], t1.mem[j]) ==> t.mem[i].status.Pending?
  {
    hide WfRows, LoopOrder, StepSorted, IsBatch, HandledId, CompletedTogether, TimedBut;
    var head := t1.mem[j].parent.value;
    MirrorRow(t1.mem, t1.Rows(), j);
    MirrorRow(t.mem, t.Rows(), i);
    assert IsNewRow(t.Rows(), t1.Rows()[t1.mem[j].id]);
    HandledWasPending(t, s, batch, k, head);
    assert SamePending(t.Rows()[t.mem[i].id], t.Rows()[head]);
  }

  lemma SeparatedAfterBatch(t: Tx, t1: Tx, s: nat, batch: seq<nat>, k: nat)
    requires TxOk(t) && TxOk(t1) && TimedTx(t) && IsBatch(t.mem, s, batch) && k <= |batch| && BatchTimes(t, t1, batch[..k]) && MemAfter(t.mem, t1.mem, s, batch[..k])
    requires OnlySendsSeparate(t.mem) && NewRowsOf(t, t1)
    ensures OnlySendsSeparate(t1.mem)
  {
    hide WfRows, LoopOrder, Mirror, StepSorted, IsBatch, HandledId, TimedTx, MemAfter, NewRowsOf, StepSends, EndsBlank;
    MemSteps(t, t1, s, batch, k);
    MemIds(t, t1);
    forall i, j | 0 <= i < |t1.mem| && 0 <= j < |t1.mem| ensures Separated(t1.mem, t1.mem[i], t1.mem[j]) {
      if i < |t.mem| {
        assert EndsBlank(t.mem[i], t1.mem[i]);
        if StepSends(t.mem, t1.mem[i].step) { SendsStay(t.mem, t1.mem, s, t1.mem[i].step, batch[..k]); }
        if j < |t.mem| {
          assert Separated(t.mem, t.mem[i], t.mem[j]) && EndsBlank(t.mem[j], t1.mem[j]);
          OldSeparated(t.mem, t.mem[i], t.mem[j], t1.mem[i], t1.mem[j]);
        } else {
          NewRepetition(t, t1, s, batch, k, i, j);
          StillMixes(t.mem[i], t1.mem[i], t1.mem[j]);
        }
      }
    }
  }

  lemma StillMixes(p: Row, p': Row, c: Row)
    requires EndsBlank(p, p')
    ensures Mixes(p', c) == Mixes(p, c)
    ensures p'.status.Completed? && p'.finishedAt.Some? ==> p.status.Completed?
  {
  }

  lemma OldSeparated(mem: seq<Row>, p: Row, c: Row, p': Row, c': Row)
    requires EndsBlank(p, p') && EndsBlank(c, c') && Separated(mem, p, c)
    ensures Separated(mem, p', c')
  {
  }

  /** Rows are as many in memory as in the table, and those a batch adds come after. */
  lemma MemIds(t: Tx, t1: Tx)
    requires TxOk(t) && TxOk(t1) && |t.mem| <= |t1.mem| && (forall i :: 0 <= i < |t.mem| ==> EndsBlank(t.mem[i], t1.mem[i]))
    ensures |t.mem| == |t.Rows()| && forall j :: |t.mem| <= j < |t1.mem| ==> t1.mem[j].id >= |t.Rows()|
  {
    hide WfRows, LoopOrder, StepSorted;
    assert forall i :: 0 <= i < |t.mem| ==> EndsBlank(t.mem[i], t1.mem[i]) && t1.mem[i].id == t.mem[i].id;
    forall j | |t.mem| <= j < |t1.mem| ensures t1.mem[j].id >= |t.Rows()| {
      if t1.mem[j].id < |t.Rows()| { var i := FoundIn(t.mem, t.Rows(), t1.mem[j].id); }
    }
  }

  lemma ShownAfterBatch(t: Tx, t1: Tx, s: nat, batch: seq<nat>, k: nat)
    requires TxOk(t) && TxOk(t1) && TimedTx(t) && IsBatch(t.mem, s, batch) && k <= |batch| && BatchTimes(t, t1, batch[..k]) && MemAfter(t.mem, t1.mem, s, batch[..k])
    requires TimesShown(t)
    ensures TimesShown(t1)
  {
    hide WfRows, LoopOrder, StepSorted, Mirror, IsBatch, HandledId, TimedTx, MemAfter;
    MemSteps(t, t1, s, batch, k);
    forall i | 0 <= i < |t1.mem| ensures TimeShown(t1.mem[i], t1.Rows()[t1.mem[i].id], t1.now) {
      if i < |t.mem| {
        assert EndsBlank(t.mem[i], t1.mem[i]) && TimeShown(t.mem[i], t.Rows()[t.mem[i].id], t.now);
        assert RowAfter(t.Rows()[t.mem[i].id], t1.Rows()[t1.mem[i].id], HandledId(t.mem, batch[..k], t.mem[i].id), t.now);
        MirrorRow(t1.mem, t1.Rows(), i);
        MirrorRow(t.mem, t.Rows(), i);
        if HandledId(t.mem, batch[..k], t.mem[i].id) { HandledWasPending(t, s, batch, k, t.mem[i].id); }
      }
    }
  }

  /** At every turn of a batch the same is known of times. */
  lemma TrackedAtTurn(env: Env, t: Tx, s: nat, batch: seq<nat>, k: nat)
    requires TxOk(t) && TimedTx(t) && Tracked(t) && IsBatch(t.mem, s, batch) && k <= |batch|
    ensures var t1 := RunBatch(env, t, batch[..k]).0; TurnTimes(t1) && t1.e == t.e && t1.now == t.now
  {
    hide WfRows, LoopOrder, StepSorted, Mirror, TimedTx, MemAfter, SendsFit, BatchTimes, RunBatch, NewRowsOf, CompletedTogether, TimesShown, RepetitionsLater, OnlySendsSeparate;
    var t1 := RunBatch(env, t, batch[..k]).0;
    RunBatchKeeps(env, t, s, batch, k);
    RunBatchTimes(env, t, s, batch, k);
    AuthoredStays(env, t, s, batch, k);
    BatchShape(t, t1, batch[..k]);
    TableStatics(t, t1, batch[..k]);
    AddedRows(t, t1);
    TableTimes(t, t1, s, batch, k);
    MemoryTimes(t, t1, s, batch, k);
    ShownAfterBatch(t, t1, s, batch, k);
    LaterAfterBatch(t, t1, s, batch, k);
    SeparatedAfterBatch(t, t1, s, batch, k);
  }

  lemma BatchShape(t: Tx, t1: Tx, done: seq<nat>)
    requires t.Bounded() && BatchTimes(t, t1, done)
    ensures t1.Bounded() && t1.e == t.e && |t1.Rows()| >= |t.Rows()|
  {
  }

  // ---------------------------------------------------------------- and through the rest of a pass

  /** One row that sets no variable changes. */
  lemma TrackedUpdate(t: Tx, t': Tx, i: nat)
    requires TxOk(t) && Tracked(t) && i < |t.mem| && Updated(t, t', i) && t.mem[i].typ != VARIABLE && t'.now == t.now
    ensures Tracked(t')
  {
    hide WfRows, LoopOrder, StepSorted, StepSends;
    assert t'.mem[i].typ != VARIABLE && t'.mem[i].step == t.mem[i].step && t'.mem[i].typ == t.mem[i].typ;
    forall s: nat | StepSends(t.mem, s) ensures StepSends(t'.mem, s) { UpdateSends(t, t', i, s); }
    forall m | 0 <= m < |t'.mem| ensures TimeShown(t'.mem[m], t'.Rows()[t'.mem[m].id], t'.now) {
      if m != i { assert TimeShown(t.mem[m], t.Rows()[t.mem[m].id], t.now) && t.mem[m].id != t.mem[i].id; }
    }
    forall p, c | 0 <= p < |t'.mem| && 0 <= c < |t'.mem| ensures FinishesLater(t'.mem[p], t'.mem[c]) && Separated(t'.mem, t'.mem[p], t'.mem[c]) {
      if p != i && c != i { assert FinishesLater(t.mem[p], t.mem[c]) && Separated(t.mem, t.mem[p], t.mem[c]); }
    }
  }

  lemma UpdateSends(t: Tx, t': Tx, i: nat, s: nat)
    requires t.Bounded() && i < |t.mem| && Updated(t, t', i) && StepSends(t.mem, s)
    ensures StepSends(t'.mem, s)
  {
    var k :| 0 <= k < |t.mem| && t.mem[k].step == s && !IsControl(t.mem[k].typ);
    assert t'.mem[k].step == s && t'.mem[k].typ == t.mem[k].typ;
  }

  lemma {:induction false} TrackedSends(t: Tx, sends: seq<Send>)
    requires TxOk(t) && Tracked(t) && forall q :: 0 <= q < |sends| ==> sends[q].i < |t.mem| && SendReady(t.mem[sends[q].i])
    requires forall q, r :: 0 <= q < r < |sends| ==> sends[q].i != sends[r].i
    ensures Tracked(SendAll(t, sends))
  {
    hide WfRows, LoopOrder, Mirror, StepSorted, Tracked;
    if sends != [] {
      var front, last := sends[..|sends| - 1], sends[|sends| - 1];
      TrackedSends(t, front);
      SendAllKeeps(t, front);
      SentGrows(t.mem, SendAll(t, front).mem, sends, t.now);
      SendUpdates(SendAll(t, front), last);
      TrackedUpdate(SendAll(t, front), SendOne(SendAll(t, front), last), last.i);
    }
  }

  lemma SendUpdates(t: Tx, s: Send)
    requires TxOk(t) && s.i < |t.mem|
    ensures Updated(t, SendOne(t, s), s.i) && SendOne(t, s).now == t.now
  {
    hide WfRows, LoopOrder, StepSorted;
    MirrorRow(t.mem, t.Rows(), s.i);
  }

  lemma TrackedAfterSends(t: Tx, batch: seq<nat>, sends: seq<Send>)
    requires TxOk(t) && Tracked(t) && SendsFit(t.mem, batch, sends)
    ensures Tracked(AfterSends(t, sends))
  {
    TrackedSends(t, sends);
  }

  // ---------------------------------------------------------------- when a transaction opens

  lemma LoadedTracked(db: Db, e: nat, now: nat)
    requires LayoutOk(db) && e < |db.execs| && TimedDb(db) && OpenRows(db.execs[e].rows)
    ensures Tracked(Lock(db, e, now))
  {
    hide WfRows, LoopOrder, Mirror, StepSorted, OpenRows;
    var t, rows, n := Lock(db, e, now), db.execs[e].rows, db.execs[e].authored;
    LockOk(db, e, now);
    assert Timed(rows);
    forall m | 0 <= m < |t.mem| ensures t.mem[m].id < |rows| && t.mem[m] == rows[t.mem[m].id] { LockLists(db, e, now, m); }
    forall m | 0 <= m < |t.mem| ensures TimeShown(t.mem[m], t.Rows()[t.mem[m].id], now) { assert Ended(rows[t.mem[m].id]); }
    forall p, c | 0 <= p < |t.mem| && 0 <= c < |t.mem| ensures FinishesLater(t.mem[p], t.mem[c]) {
      LoadedLater(rows, n, t.mem[p].id, t.mem[c].id);
    }
    forall p, c | 0 <= p < |t.mem| && 0 <= c < |t.mem| ensures Separated(t.mem, t.mem[p], t.mem[c]) {
      LoadedSeparated(db, e, now, p, c);
    }
  }

  /** Around a finished and an untouched row of one step there is a row in flight that is not evaluated in place. */
  ghost predicate OpenRows(rows: seq<Row>) {
    forall a, b :: 0 <= a < |rows| && 0 <= b < |rows| && rows[a].status.Completed? && rows[b].status.Pending? && rows[a].step == rows[b].step ==>
      StepSends(rows, rows[a].step)
  }

  lemma LoadedLater(rows: seq<Row>, n: nat, p: nat, c: nat)
    requires WfRows(rows, n) && LoopOrder(rows, n) && Timed(rows) && p < |rows| && c < |rows|
    ensures FinishesLater(rows[p], rows[c])
  {
    hide WfRows, LoopOrder, CompletedTogether;
    assert Ended(rows[p]);
    if rows[c].parent.Some? {
      HeadDone(rows, n, c);
      assert SamePending(rows[p], rows[rows[c].parent.value]);
    }
  }

  lemma LoadedSeparated(db: Db, e: nat, now: nat, p: nat, c: nat)
    requires LayoutOk(db) && e < |db.execs| && TimedDb(db) && OpenRows(db.execs[e].rows)
    requires p < |Lock(db, e, now).mem| && c < |Lock(db, e, now).mem|
    ensures var mem := Lock(db, e, now).mem; Separated(mem, mem[p], mem[c])
  {
    hide WfRows, LoopOrder, StepSorted, Load, CompletedTogether, PendingTogether, StepSends;
    var t, rows := Lock(db, e, now), db.execs[e].rows;
    LockOk(db, e, now);
    LockLists(db, e, now, p);
    LockLists(db, e, now, c);
    assert Ended(rows[t.mem[c].id]);
    if StepSends(rows, t.mem[p].step) { SendsInMemory(t, t.mem[p].step); }
  }

  lemma SendsInMemory(t: Tx, s: nat)
    requires TxOk(t) && StepSends(t.Rows(), s)
    ensures StepSends(t.mem, s)
  {
    hide WfRows, LoopOrder, StepSorted, Mirror;
    var k :| 0 <= k < |t.Rows()| && t.Rows()[k].step == s && !IsControl(t.Rows()[k].typ);
    var m := FoundIn(t.mem, t.Rows(), k);
  }

  /** In an unfinished execution at a commit, only a row in flight keeps a step half done. */
  lemma CommittedOpenRows(db: Db, e: nat)
    requires DbInv(db) && e < |db.execs| && !db.execs[e].status.Terminal()
    ensures OpenRows(db.execs[e].rows)
  {
    hide WfRows, LoopOrder, StepSends;
    var x := db.execs[e];
    assert ExecOk(x);
    if !x.status.PENDING? {
      var r :| 0 <= r < |x.rows| && x.rows[r].status.InFlight();
      var c: nat :| BarrierAt(x.rows, c);
      assert RowIssued(db.execs, db.log, e, r);
      assert StepSends(x.rows, c) by { InFlightSends(x.rows, r, c); }
    }
  }

  lemma InFlightSends(rows: seq<Row>, r: nat, c: nat)
    requires r < |rows| && rows[r].step == c && !IsControl(rows[r].typ)
    ensures StepSends(rows, c)
  {
  }

  /** When a message opens a transaction, the same is known of times. */
  lemma OpenedIsTracked(g: System, ev: Event)
    requires Inv(g) && TimedDb(g.db) && Enabled(g, ev) && Opened(g.db, ev).Some?
    ensures Tracked(Opened(g.db, ev).value)
  {
    hide Served, TimedDb, Settled, WfRows, LoopOrder, Tracked, OpenRows;
    DbInvLayout(g.db);
    match ev
    case StartRun(c, _, now) =>
      var e := c.payload.message.exec;
      StatusTimedDb(g.db, e, now);
      CommittedOpenRows(g.db, e);
      LoadedTracked(SetStatus(g.db, e, RUNNING, now), e, now);
    case TakeResult(c, _, now) =>
      var (e, a) := TargetOfResult(c.payload);
      ResultsAreExpected(g, c);
      CommittedOpenRows(g.db, e);
      LoadedTracked(g.db, e, now);
      LockOk(g.db, e, now);
      LockFinds(g.db, e, a, now);
      RecordTracked(g.db, e, a, now, ReportOf(c.payload));
  }

  lemma RecordTracked(db: Db, e: nat, a: nat, now: nat, report: Report)
    requires DbInv(db) && LayoutOk(db) && e < |db.execs| && WasDispatched(db, e, a) && Tracked(Lock(db, e, now)) && TxOk(Lock(db, e, now))
    requires var t := Lock(db, e, now); FindId(t.mem, a).Some? && !t.mem[FindId(t.mem, a).value].status.Terminal()
    ensures var t := Lock(db, e, now); Tracked(Record(t, FindId(t.mem, a).value, report))
  {
    hide WfRows, LoopOrder, Mirror, StepSorted, Tracked, Load, Settled;
    var t := Lock(db, e, now);
    var i := FindId(t.mem, a).value;
    LockFinds(db, e, a, now);
    RecordUpdates(t, i, report);
    assert RowIssued(db.execs, db.log, e, a);
    TrackedUpdate(t, Record(t, i, report), i);
  }

  lemma StatusTimedDb(db: Db, e: nat, now: nat)
    requires TimedDb(db) && e < |db.execs|
    ensures TimedDb(SetStatus(db, e, RUNNING, now))
  {
    hide Timed;
  }
}
