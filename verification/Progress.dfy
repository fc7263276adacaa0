/** Statuses and decisions of an execution (domain/progress.ts) over its action rows. */
module Progress {
  import opened Base

  datatype ExecStatus = PENDING | RUNNING | WAITING | COMPLETED | FAILED {
    predicate Terminal() { COMPLETED? || FAILED? }
  }

  datatype ActionStatus = Pending | Dispatched | Retrying | Completed | Failed | Skipped {
    predicate Terminal() { Completed? || Failed? || Skipped? }
    predicate InFlight() { Dispatched? || Retrying? }
    /** Finished without failing. */
    predicate Done() { Completed? || Skipped? }
  }

  /** Run a step only if an earlier `condition.if` step produced `expected`. */
  datatype RunIf = RunIf(action: string, expected: bool)

  /**
   * A row of `execution_actions`. `id` is the insertion index of the row in its
   * execution; texts that drive no decision (error, attempts, holder) are left out.
   */
  datatype Row = Row(
    id: nat, key: string, typ: string, step: nat, position: nat, params: Json,
    runIf: Option<RunIf>, forEach: Option<string>,
    parent: Option<nat>, loopItem: Json, loopIndex: Option<nat>,
    status: ActionStatus, output: Option<Json>, dispatchedAt: Option<nat>, finishedAt: Option<nat>)
  {
    /** A "repeat for each" step that is not itself a repetition. */
    predicate LoopHead() { forEach.Some? && forEach.value != "" && parent.None? }
  }

  datatype Decision =
    | Dispatch(step: nat, keys: seq<string>)
    | Complete
    | Fail(failedKey: string)
    | Wait

  predicate AnyFailed(rows: seq<Row>) { exists i :: 0 <= i < |rows| && rows[i].status.Failed? }
  predicate AnyInFlight(rows: seq<Row>) { exists i :: 0 <= i < |rows| && rows[i].status.InFlight() }
  predicate AnyPending(rows: seq<Row>) { exists i :: 0 <= i < |rows| && rows[i].status.Pending? }

  /** The first failed row. */
  function FirstFailed(rows: seq<Row>): (i: nat)
    requires AnyFailed(rows)
    ensures i < |rows| && rows[i].status.Failed?
    ensures forall j :: 0 <= j < i ==> !rows[j].status.Failed?
  {
    if rows[0].status.Failed? then 0 else
      assert exists j :: 0 <= j < |rows[1..]| && rows[1..][j].status.Failed? by {
        var j :| 0 <= j < |rows| && rows[j].status.Failed?;
        assert rows[1..][j - 1] == rows[j];
      }
      var j := FirstFailed(rows[1..]);
      assert rows[1..][j] == rows[j + 1];
      assert forall k :: 1 <= k < j + 1 ==> rows[k] == rows[1..][k - 1];
      j + 1
  }

  /** The smallest step that still has a pending row. */
  function MinPendingStep(rows: seq<Row>): (step: nat)
    requires AnyPending(rows)
    ensures exists i :: 0 <= i < |rows| && rows[i].status.Pending? && rows[i].step == step
    ensures forall i :: 0 <= i < |rows| && rows[i].status.Pending? ==> step <= rows[i].step
  {
    var front, last := rows[..|rows| - 1], rows[|rows| - 1];
    assert forall i :: 0 <= i < |front| ==> front[i] == rows[i];
    if AnyPending(front) then
      var s := MinPendingStep(front);
      if last.status.Pending? && last.step < s then last.step else s
    else
      last.step
  }

  function PendingKeys(rows: seq<Row>, step: nat): (keys: seq<string>)
    ensures forall key :: key in keys <==> exists i :: 0 <= i < |rows| && rows[i].status.Pending? && rows[i].step == step && rows[i].key == key
  {
    if rows == [] then [] else
      var front, last := rows[..|rows| - 1], rows[|rows| - 1];
      assert forall i :: 0 <= i < |front| ==> front[i] == rows[i];
      var keys := PendingKeys(front, step);
      assert forall key :: key in keys ==> exists i :: 0 <= i < |rows| && rows[i].status.Pending? && rows[i].step == step && rows[i].key == key;
      if last.status.Pending? && last.step == step then keys + [last.key] else keys
  }

  /** What should happen next, given the current state of all actions. */
  function DecideNext(rows: seq<Row>): Decision {
    if AnyFailed(rows) then Fail(rows[FirstFailed(rows)].key)
    else if AnyInFlight(rows) then Wait
    else if !AnyPending(rows) then Complete
    else
      var step := MinPendingStep(rows);
      Dispatch(step, PendingKeys(rows, step))
  }

  /** What a decision says about the rows, and that it says nothing else. */
  lemma DecisionMeans(rows: seq<Row>)
    ensures DecideNext(rows).Complete? <==> forall i :: 0 <= i < |rows| ==> rows[i].status.Done()
    ensures DecideNext(rows).Fail? <==> AnyFailed(rows)
    ensures DecideNext(rows).Wait? <==> !AnyFailed(rows) && AnyInFlight(rows)
    ensures DecideNext(rows).Dispatch? ==>
      var s, keys := DecideNext(rows).step, DecideNext(rows).keys;
      keys != [] &&
      (forall i :: 0 <= i < |rows| ==> rows[i].status.Done() || (rows[i].status.Pending? && s <= rows[i].step)) &&
      (forall key :: key in keys <==> exists i :: 0 <= i < |rows| && rows[i].status.Pending? && rows[i].step == s && rows[i].key == key)
  {
    if DecideNext(rows).Dispatch? {
      var s := MinPendingStep(rows);
      var i :| 0 <= i < |rows| && rows[i].status.Pending? && rows[i].step == s;
      assert rows[i].key in PendingKeys(rows, s);
    }
  }

  predicate Stale(row: Row, now: nat, waitingAfter: nat) {
    row.status.Retrying? ||
    (row.status.Dispatched? && row.dispatchedAt.Some? && now - row.dispatchedAt.value >= waitingAfter)
  }

  /** RUNNING while actions are in flight, WAITING when one awaits a retry or an answer for too long. */
  function InFlightStatus(rows: seq<Row>, now: nat, waitingAfter: nat): ExecStatus {
    if exists i :: 0 <= i < |rows| && Stale(rows[i], now, waitingAfter) then WAITING else RUNNING
  }
}
