/**
 * What later steps and callers read of finished work: a loop step shows what each
 * repetition produced in item order, and the variables of a called routine reach
 * the templates of the routine that called it.
 */
module Exposure {
  import opened Base
  import opened Templates
  import opened Control
  import opened Progress
  import opened Store
  import opened RowInvariants
  import opened Engine
  import opened AdvanceLoop
  import opened Invariants
  import opened Transactions
  import opened Soundness
  import opened Rereading

  // ---------------------------------------------------------------- loops

  predicate ByIndex(list: seq<Repetition>) { forall i, j :: 0 <= i < j < |list| ==> list[i].index < list[j].index }

  predicate IndicesDistinct(list: seq<Repetition>) { forall i, j :: 0 <= i < j < |list| ==> list[i].index != list[j].index }

  /** Row `row` is repetition `r` of the loop head. */
  predicate IsRepetition(row: Row, head: nat, r: Repetition) {
    row.parent == Some(head) && row.loopIndex == Some(r.index) && r.output == if row.output.Some? then row.output.value else Null
  }

  lemma {:induction false} InsertByIndex(list: seq<Repetition>, r: Repetition)
    requires ByIndex(list) && forall x :: x in list ==> x.index != r.index
    ensures ByIndex(InsertRepetition(list, r))
    ensures forall x :: x in InsertRepetition(list, r) <==> x == r || x in list
  {
    if list != [] {
      var front, last := list[..|list| - 1], list[|list| - 1];
      assert list == front + [last];
      if last.index > r.index {
        InsertByIndex(front, r);
        assert forall x :: x in InsertRepetition(front, r) ==> x.index < last.index by {
          assert forall i :: 0 <= i < |front| ==> front[i] == list[i];
        }
      } else {
        assert forall i :: 0 <= i < |front| ==> list[i].index < last.index;
      }
    }
  }

  lemma {:induction false} SortByIndex(list: seq<Repetition>)
    requires IndicesDistinct(list)
    ensures ByIndex(SortRepetitions(list)) && forall x :: x in SortRepetitions(list) <==> x in list
  {
    if list != [] {
      var front, last := list[..|list| - 1], list[|list| - 1];
      assert list == front + [last] && forall i :: 0 <= i < |front| ==> front[i] == list[i];
      SortByIndex(front);
      InsertByIndex(SortRepetitions(front), last);
    }
  }

  lemma {:induction false} RepetitionsFound(rows: seq<Row>, head: nat)
    requires forall i :: 0 <= i < |rows| && rows[i].parent == Some(head) ==> rows[i].loopIndex.Some?
    ensures forall r :: r in RepetitionsOf(rows, head) <==> exists i :: 0 <= i < |rows| && IsRepetition(rows[i], head, r)
  {
    if rows != [] {
      var front, last := rows[..|rows| - 1], rows[|rows| - 1];
      assert forall i :: 0 <= i < |front| ==> front[i] == rows[i];
      RepetitionsFound(front, head);
      forall r ensures r in RepetitionsOf(rows, head) <==> exists i :: 0 <= i < |rows| && IsRepetition(rows[i], head, r) {
        if r in RepetitionsOf(front, head) {
          var i :| 0 <= i < |front| && IsRepetition(front[i], head, r);
          assert IsRepetition(rows[i], head, r);
        } else if IsRepetition(last, head, r) {
          assert IsRepetition(rows[|rows| - 1], head, r);
        }
      }
    }
  }

  lemma {:induction false} RepetitionsDistinct(rows: seq<Row>, head: nat)
    requires forall i :: 0 <= i < |rows| && rows[i].parent == Some(head) ==> rows[i].loopIndex.Some?
    requires forall i, j :: 0 <= i < j < |rows| && rows[i].parent == Some(head) == rows[j].parent ==> rows[i].loopIndex != rows[j].loopIndex
    ensures IndicesDistinct(RepetitionsOf(rows, head))
  {
    if rows != [] {
      var front, last := rows[..|rows| - 1], rows[|rows| - 1];
      assert forall i :: 0 <= i < |front| ==> front[i] == rows[i];
      RepetitionsDistinct(front, head);
      RepetitionsFound(front, head);
      if last.parent == Some(head) {
        forall k | 0 <= k < |RepetitionsOf(front, head)| ensures RepetitionsOf(front, head)[k].index != last.loopIndex.value {
          var r := RepetitionsOf(front, head)[k];
          assert r in RepetitionsOf(front, head);
          var i :| 0 <= i < |front| && IsRepetition(front[i], head, r);
          assert rows[i].parent == Some(head) == rows[|rows| - 1].parent;
        }
      }
    }
  }

  lemma ChildIndices(t: Tx, head: nat)
    requires TxOk(t)
    ensures forall i :: 0 <= i < |t.mem| && t.mem[i].parent == Some(head) ==> t.mem[i].loopIndex.Some?
    ensures forall i, j :: 0 <= i < j < |t.mem| && t.mem[i].parent == Some(head) == t.mem[j].parent ==> t.mem[i].loopIndex != t.mem[j].loopIndex
  {
    hide LoopOrder, StepSorted;
    var rows, n := t.Rows(), t.db.execs[t.e].authored;
    forall i | 0 <= i < |t.mem| && t.mem[i].parent == Some(head)
      ensures n <= t.mem[i].id < |rows| && rows[t.mem[i].id].parent == Some(head) && t.mem[i].loopIndex == rows[t.mem[i].id].loopIndex && t.mem[i].loopIndex.Some?
    {
      assert SameButTimes(t.mem[i], rows[t.mem[i].id]);
      assert forall k :: 0 <= k < n ==> AuthorRow(rows[k], k);
    }
    forall i, j | 0 <= i < j < |t.mem| && t.mem[i].parent == Some(head) == t.mem[j].parent ensures t.mem[i].loopIndex != t.mem[j].loopIndex {
      assert t.mem[i].id != t.mem[j].id;
    }
  }

  /**
   * What a finished loop exposes as `items`: the output of every repetition, exactly
   * once, in item order (null while a repetition has none).
   */
  lemma LoopShowsRepetitions(t: Tx, h: nat)
    requires TxOk(t) && h < |t.mem| && t.mem[h].LoopHead()
    ensures var list := SortRepetitions(RepetitionsOf(t.mem, t.mem[h].id));
            ByIndex(list) &&
            (forall r :: r in list <==> exists i :: 0 <= i < |t.mem| && IsRepetition(t.mem[i], t.mem[h].id, r)) &&
            Field(ExposedOutput(t.mem, t.mem[h]), "items") == Some(Arr(OutputsInOrder(list)))
  {
    ChildIndices(t, t.mem[h].id);
    RepetitionsFound(t.mem, t.mem[h].id);
    RepetitionsDistinct(t.mem, t.mem[h].id);
    SortByIndex(RepetitionsOf(t.mem, t.mem[h].id));
  }

  lemma NumeralFound(items: seq<Json>, k: nat, from: nat)
    requires from <= k < |items|
    ensures IndexNamed(items, Decimal(k), from) == Some(k)
    decreases k - from
  {
    if from < k {
      assert Value(Decimal(from)) == from && Value(Decimal(k)) == k;
      NumeralFound(items, k, from + 1);
    }
  }

  /** An element of a list is read under its number, the number of elements under `length`. */
  lemma ElementRead(items: seq<Json>, k: nat, path: seq<string>)
    requires k < |items|
    ensures Walk(Arr(items), [Decimal(k)] + path) == Walk(items[k], path)
    ensures Walk(Arr(items), ["length"]) == Some(Num(|items| as real))
  {
    NumeralFound(items, k, 0);
    assert Decimal(k)[0] in DIGITS && "length"[0] !in DIGITS;
    assert ([Decimal(k)] + path)[1..] == path && ["length"][1..] == [];
    assert Member(Arr(items), Decimal(k)) == Some(items[k]);
  }

  // ---------------------------------------------------------------- called routines

  lemma WalkField(value: Json, name: string, rest: seq<string>)
    requires value.Obj? && name in value.fields
    ensures Walk(value, [name] + rest) == Walk(value.fields[name], rest)
  {
    assert ([name] + rest)[1..] == rest;
  }

  /** The answer of a completed call carries the variables of the called run, and its variable `result`. */
  lemma AnswerCarriesVariables(env: Env, t: Tx, name: string)
    requires TxOk(t) && DecideNext(t.mem).Complete? && t.db.execs[t.e].caller.Some?
    ensures var c := t.db.execs[t.e].caller.value;
            var vars := VariablesOf(t.mem);
            var output := SubRoutineOutput(env, t.e, t.mem);
            Advance(env, t).db.log == t.db.log + [ExecutionCompleted(t.e), ActionResult(c.exec, c.action, OkResult(output))] &&
            (name in vars ==> Walk(output, ["vars", name]) == Some(vars[name])) &&
            Walk(output, ["result"]) == Some(if "result" in vars then vars["result"] else Null) &&
            Walk(output, ["executionId"]) == Some(Str(env.uuid(t.e)))
  {
    hide WfRows, LoopOrder, Mirror, StepSorted, VariablesOf, DecideNext;
    var vars, output := VariablesOf(t.mem), SubRoutineOutput(env, t.e, t.mem);
    assert output.fields["vars"] == Obj(vars);
    if name in vars { WalkTwo(output, "vars", name); }
    WalkField(output, "result", []);
    WalkField(output, "executionId", []);
    assert ["result"] + [] == ["result"] && ["executionId"] + [] == ["executionId"];
  }

  /** What an action without a loop produced is what templates read under its key, at any depth. */
  lemma OutputReadable(env: Env, t: Tx, j: nat, i: nat, path: seq<string>)
    requires TxOk(t) && j < |t.mem| && i < |t.mem| && t.mem[i].status.Completed? && t.mem[i].parent.None? && !Truthy(t.mem[i].forEach)
    requires t.mem[i].output.Some?
    ensures Walk(ScopeFor(env, t, j), ["actions", t.mem[i].key] + path) == Walk(t.mem[i].output.value, path)
  {
    hide WfRows, LoopOrder, StepSorted, Mirror, VariablesOf, OutputsUpTo, Walk;
    var key := t.mem[i].key;
    forall k | i < k < |t.mem| ensures t.mem[k].key != key { MirrorKeysUnique(t, i, k); }
    OutputsFind(t.mem, |t.mem|, i);
    var scope := ScopeFor(env, t, j);
    assert scope.fields["actions"] == Obj(Outputs(t.mem));
    assert ["actions", key] + path == ["actions"] + ([key] + path);
    WalkField(scope, "actions", [key] + path);
    WalkField(scope.fields["actions"], key, path);
  }

  /** A template of the calling routine reads the variables of the called one, once the answer was recorded. */
  lemma ReturnedVariableReadable(env: Env, child: Tx, t: Tx, i: nat, j: nat, name: string)
    requires TxOk(child) && DecideNext(child.mem).Complete? && child.db.execs[child.e].caller.Some? && name in VariablesOf(child.mem)
    requires TxOk(t) && i < |t.mem| && j < |t.mem| && t.mem[i].status.InFlight() && t.mem[i].parent.None? && !Truthy(t.mem[i].forEach)
    ensures var answered := Record(t, i, Final(OkResult(SubRoutineOutput(env, child.e, child.mem))));
            Walk(ScopeFor(env, answered, j), ["actions", t.mem[i].key, "vars", name]) == Some(VariablesOf(child.mem)[name])
  {
    hide WfRows, LoopOrder, StepSorted, Mirror, VariablesOf, Walk, DecideNext, Advance, Scope, SubRoutineOutput, Updated;
    var output := SubRoutineOutput(env, child.e, child.mem);
    var answered := Record(t, i, Final(OkResult(output)));
    RecordUpdates(t, i, Final(OkResult(output)));
    AnswerCarriesVariables(env, child, name);
    OutputReadable(env, answered, j, i, ["vars", name]);
    assert ["actions", t.mem[i].key] + ["vars", name] == ["actions", t.mem[i].key, "vars", name];
  }

  /** Every repetition has its index, from 0 up to their number. */
  predicate AllRepeated(rows: seq<Row>, head: nat, n: nat) {
    (forall i :: 0 <= i < |rows| && rows[i].parent == Some(head) ==> rows[i].loopIndex.Some? && rows[i].loopIndex.value < n) &&
    (forall k: nat :: k < n ==> Repeated(rows, head, k))
  }

  predicate Repeated(rows: seq<Row>, head: nat, k: nat) { exists i :: 0 <= i < |rows| && rows[i].parent == Some(head) && rows[i].loopIndex == Some(k) }

  predicate HasIndex(list: seq<Repetition>, k: nat) { exists i :: 0 <= i < |list| && list[i].index == k }

  lemma {:induction false} Spread(list: seq<Repetition>, i: nat)
    requires ByIndex(list) && i < |list|
    ensures list[i].index >= i
  {
    if i > 0 { Spread(list, i - 1); }
  }

  lemma {:induction false} CountedByIndex(list: seq<Repetition>, k: nat)
    requires ByIndex(list) && forall j: nat :: j < k ==> HasIndex(list, j)
    ensures |list| >= k && forall i: nat :: i < k ==> list[i].index == i
  {
    if k > 0 {
      CountedByIndex(list, k - 1);
      assert HasIndex(list, k - 1);
      var i: nat :| i < |list| && list[i].index == k - 1;
      Spread(list, i);
      Spread(list, k - 1);
    }
  }

  /**
   * Reading one result of a finished loop: `actions.<key>.items.<k>` is the output of
   * repetition `k`, at any depth, and `items.length` the number of repetitions.
   */
  lemma ItemReadable(env: Env, t: Tx, j: nat, h: nat, n: nat, c: nat, path: seq<string>)
    requires TxOk(t) && j < |t.mem| && h < |t.mem| && c < |t.mem| && t.mem[h].LoopHead() && t.mem[h].status.Completed?
    requires AllRepeated(t.mem, t.mem[h].id, n) && t.mem[c].parent == Some(t.mem[h].id) && t.mem[c].output.Some?
    ensures t.mem[c].loopIndex.Some?
    ensures var scope, k := ScopeFor(env, t, j), t.mem[c].loopIndex.value;
            Walk(scope, ["actions", t.mem[h].key, "items", Decimal(k)] + path) == Walk(t.mem[c].output.value, path) &&
            Walk(scope, ["actions", t.mem[h].key, "items", "length"]) == Some(Num(n as real))
  {
    hide WfRows, LoopOrder, StepSorted, Mirror, VariablesOf, OutputsUpTo, Walk, AllRepeated, SortRepetitions, RepetitionsOf, IsRepetition;
    var key := t.mem[h].key;
    var list := SortRepetitions(RepetitionsOf(t.mem, t.mem[h].id));
    LoopShowsRepetitions(t, h);
    RepetitionPlaced(t, h, n, c, list);
    var k := t.mem[c].loopIndex.value;
    forall m | h < m < |t.mem| ensures t.mem[m].key != key { MirrorKeysUnique(t, h, m); }
    OutputsFind(t.mem, |t.mem|, h);
    var scope := ScopeFor(env, t, j);
    var shown := ExposedOutput(t.mem, t.mem[h]);
    assert scope.fields["actions"] == Obj(Outputs(t.mem));
    ElementRead(OutputsInOrder(list), k, path);
    WalkThree(scope, key, shown, [Decimal(k)] + path);
    WalkThree(scope, key, shown, ["length"]);
    assert ["actions", key, "items", Decimal(k)] + path == ["actions", key, "items"] + ([Decimal(k)] + path);
    assert ["actions", key, "items", "length"] == ["actions", key, "items"] + ["length"];
  }

  /** Whatever else a loop step put out, such as its count, is read under its key too. */
  lemma OwnFieldReadable(env: Env, t: Tx, j: nat, h: nat, field: string, path: seq<string>)
    requires TxOk(t) && j < |t.mem| && h < |t.mem| && t.mem[h].LoopHead() && t.mem[h].status.Completed?
    requires t.mem[h].output.Some? && Field(t.mem[h].output.value, field).Some? && field != "items"
    ensures Walk(ScopeFor(env, t, j), ["actions", t.mem[h].key, field] + path) == Walk(Field(t.mem[h].output.value, field).value, path)
  {
    hide WfRows, LoopOrder, StepSorted, Mirror, VariablesOf, OutputsUpTo, Walk, SortRepetitions, RepetitionsOf;
    var key := t.mem[h].key;
    forall m | h < m < |t.mem| ensures t.mem[m].key != key { MirrorKeysUnique(t, h, m); }
    OutputsFind(t.mem, |t.mem|, h);
    var scope := ScopeFor(env, t, j);
    var shown := ExposedOutput(t.mem, t.mem[h]);
    assert scope.fields["actions"] == Obj(Outputs(t.mem)) && shown.fields[field] == Field(t.mem[h].output.value, field).value;
    assert ["actions", key, field] + path == ["actions"] + ([key] + ([field] + path));
    WalkField(scope, "actions", [key] + ([field] + path));
    WalkField(scope.fields["actions"], key, [field] + path);
    WalkField(shown, field, path);
  }

  lemma WalkThree(scope: Json, key: string, shown: Json, rest: seq<string>)
    requires scope.Obj? && "actions" in scope.fields && scope.fields["actions"].Obj? && key in scope.fields["actions"].fields
    requires scope.fields["actions"].fields[key] == shown && shown.Obj? && "items" in shown.fields
    ensures Walk(scope, ["actions", key, "items"] + rest) == Walk(shown.fields["items"], rest)
  {
    hide Walk;
    assert ["actions", key, "items"] + rest == ["actions"] + ([key] + (["items"] + rest));
    WalkField(scope, "actions", [key] + (["items"] + rest));
    WalkField(scope.fields["actions"], key, ["items"] + rest);
    WalkField(shown, "items", rest);
  }

  lemma RepetitionPlaced(t: Tx, h: nat, n: nat, c: nat, list: seq<Repetition>)
    requires TxOk(t) && h < |t.mem| && c < |t.mem| && AllRepeated(t.mem, t.mem[h].id, n)
    requires t.mem[c].parent == Some(t.mem[h].id) && t.mem[c].output.Some? && ByIndex(list)
    requires forall r :: r in list <==> exists i :: 0 <= i < |t.mem| && IsRepetition(t.mem[i], t.mem[h].id, r)
    ensures t.mem[c].loopIndex.Some? && |list| == n && t.mem[c].loopIndex.value < n && list[t.mem[c].loopIndex.value].output == t.mem[c].output.value
  {
    hide WfRows, LoopOrder, StepSorted, Mirror;
    var head := t.mem[h].id;
    forall k: nat | k < n ensures HasIndex(list, k) {
      assert Repeated(t.mem, head, k);
      var i :| 0 <= i < |t.mem| && t.mem[i].parent == Some(head) && t.mem[i].loopIndex == Some(k);
      var r := Repetition(k, if t.mem[i].output.Some? then t.mem[i].output.value else Null);
      assert IsRepetition(t.mem[i], head, r);
      assert r in list;
    }
    forall i | 0 <= i < |list| ensures list[i].index < n {
      assert list[i] in list;
      var m :| 0 <= m < |t.mem| && IsRepetition(t.mem[m], head, list[i]);
    }
    AllPlaced(list, n);
    var k := t.mem[c].loopIndex.value;
    var r := Repetition(k, t.mem[c].output.value);
    assert IsRepetition(t.mem[c], head, r);
    assert r in list;
  }

  lemma AllPlaced(list: seq<Repetition>, n: nat)
    requires ByIndex(list) && (forall k: nat :: k < n ==> HasIndex(list, k)) && forall i :: 0 <= i < |list| ==> list[i].index < n
    ensures |list| == n && forall i: nat :: i < n ==> list[i].index == i
  {
    CountedByIndex(list, n);
    if |list| > n { Spread(list, n); }
  }
}
