/**
 * The outbox relay (outbox.ts): publishes pending rows in id order, stops at the
 * first failure, and marks exactly what the broker confirmed.
 */
module Outbox {
  import opened Base
  import opened Store

  /** A row of the outbox; ids grow. */
  datatype OutboxRow = OutboxRow(id: nat, message: Message, publishedAt: Option<nat>, attempts: nat)

  /**
   * What publishing one row did: the copies the broker took, and whether the last
   * confirmation arrived. A lost confirmation may leave copies behind.
   */
  datatype Try = Try(copies: nat, confirmed: bool)

  predicate Honest(outcome: nat -> Try, id: nat) { outcome(id).confirmed ==> outcome(id).copies > 0 }

  predicate Selectable(row: OutboxRow, locked: set<nat>) { row.publishedAt.None? && row.id !in locked }

  /** Indices of the rows a relay picks: unpublished, not locked by another replica, by id, at most `limit`. */
  function Picked(rows: seq<OutboxRow>, locked: set<nat>, limit: nat): (batch: seq<nat>)
    ensures |batch| <= limit && forall k :: 0 <= k < |batch| ==> batch[k] < |rows| && rows[batch[k]].publishedAt.None? && rows[batch[k]].id !in locked
    ensures forall k, l :: 0 <= k < l < |batch| ==> batch[k] < batch[l]
    ensures forall i :: 0 <= i < |rows| && rows[i].publishedAt.None? && rows[i].id !in locked ==> i in batch || (|batch| == limit && forall k :: 0 <= k < |batch| ==> batch[k] < i)
  {
    if rows == [] then [] else
      var front := Picked(rows[..|rows| - 1], locked, limit);
      if |front| < limit && Selectable(rows[|rows| - 1], locked) then front + [|rows| - 1] else front
  }

  /** How many rows of the batch are confirmed before the first failure. */
  function Confirmed(rows: seq<OutboxRow>, batch: seq<nat>, outcome: nat -> Try): (n: nat)
    requires forall k :: 0 <= k < |batch| ==> batch[k] < |rows|
    ensures n <= |batch| && (forall k :: 0 <= k < n ==> outcome(rows[batch[k]].id).confirmed)
    ensures n < |batch| ==> !outcome(rows[batch[n]].id).confirmed
  {
    if batch == [] then 0 else
      var n := Confirmed(rows, batch[..|batch| - 1], outcome);
      if n == |batch| - 1 && outcome(rows[batch[n]].id).confirmed then |batch| else n
  }

  function Repeat(message: Message, copies: nat): seq<Message> { seq(copies, _ => message) }

  /** What the broker takes of the first `n` rows of a batch. */
  function SentFor(rows: seq<OutboxRow>, batch: seq<nat>, outcome: nat -> Try, n: nat): seq<Message>
    requires n <= |batch| && forall k :: 0 <= k < |batch| ==> batch[k] < |rows|
  {
    if n == 0 then [] else
      SentFor(rows, batch, outcome, n - 1) + Repeat(rows[batch[n - 1]].message, outcome(rows[batch[n - 1]].id).copies)
  }

  /** The table after a batch of which `n` rows were confirmed. */
  function Relayed(rows: seq<OutboxRow>, batch: seq<nat>, n: nat, now: nat): (after: seq<OutboxRow>)
    requires n <= |batch|
    ensures |after| == |rows|
  {
    seq(|rows|, i requires 0 <= i < |rows| =>
      if i in batch[..n] then rows[i].(publishedAt := Some(now))
      else if n < |batch| && i == batch[n] then rows[i].(attempts := rows[i].attempts + 1)
      else rows[i])
  }

  function Marked(rows: seq<OutboxRow>, published: seq<nat>, now: nat): (after: seq<OutboxRow>)
    ensures |after| == |rows|
  {
    seq(|rows|, i requires 0 <= i < |rows| => if i in published then rows[i].(publishedAt := Some(now)) else rows[i])
  }

  /** The failed row remembers one more attempt. */
  function Bumped(rows: seq<OutboxRow>, batch: seq<nat>, n: nat): seq<OutboxRow>
    requires n < |batch| ==> batch[n] < |rows|
  {
    if n < |batch| then rows[batch[n] := rows[batch[n]].(attempts := rows[batch[n]].attempts + 1)] else rows
  }

  /** Every row marked as published has reached the broker. */
  predicate PublishedAreSent(rows: seq<OutboxRow>, sent: seq<Message>) {
    forall i :: 0 <= i < |rows| && rows[i].publishedAt.Some? ==> rows[i].message in sent
  }

  predicate IdsGrow(rows: seq<OutboxRow>, nextId: nat) {
    (forall i, j :: 0 <= i < j < |rows| ==> rows[i].id < rows[j].id) && forall i :: 0 <= i < |rows| ==> rows[i].id < nextId
  }

  class OutboxRelay {
    var rows: seq<OutboxRow>
    var nextId: nat
    /** What the broker has accepted so far. */
    var sent: seq<Message>

    ghost predicate Valid()
      reads this
    {
      IdsGrow(rows, nextId) && PublishedAreSent(rows, sent)
    }

    constructor ()
      ensures Valid() && rows == [] && sent == []
    {
      rows, nextId, sent := [], 0, [];
    }

    /** Stores a message in the transaction of the state change. */
    method EnqueueRow(message: Message)
      requires Valid()
      modifies this
      ensures Valid() && sent == old(sent) && rows == old(rows) + [OutboxRow(old(nextId), message, None, 0)]
    {
      rows := rows + [OutboxRow(nextId, message, None, 0)];
      nextId := nextId + 1;
    }

    /** Publishes a batch row by row and stops at the first failure; returns what was confirmed. */
    method PublishBatch(batch: seq<nat>, outcome: nat -> Try) returns (published: seq<nat>)
      requires forall k :: 0 <= k < |batch| ==> batch[k] < |rows|
      modifies `rows, `sent
      ensures var n := Confirmed(old(rows), batch, outcome);
              published == batch[..n] && rows == Bumped(old(rows), batch, n) &&
              sent == old(sent) + SentFor(old(rows), batch, outcome, if n < |batch| then n + 1 else n)
    {
      ghost var before := rows;
      published := [];
      var k := 0;
      while k < |batch|
        invariant 0 <= k <= |batch| && rows == before && published == batch[..k]
        invariant sent == old(sent) + SentFor(before, batch, outcome, k)
        invariant forall j :: 0 <= j < k ==> outcome(before[batch[j]].id).confirmed
      {
        var row := rows[batch[k]];
        sent := sent + Repeat(row.message, outcome(row.id).copies);
        if !outcome(row.id).confirmed {
          rows := rows[batch[k] := row.(attempts := row.attempts + 1)];
          break;
        }
        published := published + [batch[k]];
        k := k + 1;
      }
    }

    /**
     * One relay transaction. `locked` are rows other replicas hold, `outcome` is what
     * publishing a row does, `commits` whether the transaction commits in the end.
     */
    method RelayBatch(batchSize: nat, locked: set<nat>, outcome: nat -> Try, commits: bool, now: nat) returns (more: bool)
      requires Valid() && forall i :: 0 <= i < |rows| ==> Honest(outcome, rows[i].id)
      modifies this
      ensures Valid() && nextId == old(nextId)
      ensures var batch := Picked(old(rows), locked, batchSize);
              var n := Confirmed(old(rows), batch, outcome);
              sent == old(sent) + SentFor(old(rows), batch, outcome, if n < |batch| then n + 1 else n) &&
              rows == (if commits then Relayed(old(rows), batch, n, now) else old(rows)) &&
              (more <==> commits && n == |batch| == batchSize && batch != [])
    {
      hide Picked, Confirmed, SentFor, Relayed, Marked;
      var batch := Picked(rows, locked, batchSize);
      var snapshot := rows;
      ghost var n := Confirmed(rows, batch, outcome);
      RelayKeepsSent(rows, sent, batch, outcome, n, now);
      MarkedIsRelayed(rows, batch, n, now, Bumped(rows, batch, n));
      var published := PublishBatch(batch, outcome);
      if !commits {
        rows := snapshot;
        return false;
      }
      rows := Marked(rows, published, now);
      more := |published| == |batch| == batchSize && batch != [];
    }

    /** Forgets rows published longer ago than the given hours. */
    method PurgePublished(now: nat, olderThan: nat)
      requires Valid()
      modifies this
      ensures Valid() && sent == old(sent) && nextId == old(nextId)
      ensures rows == Purged(old(rows), now, olderThan)
    {
      var kept: seq<OutboxRow> := [];
      var i := 0;
      while i < |rows|
        invariant 0 <= i <= |rows| && rows == old(rows) && sent == old(sent) && nextId == old(nextId) && kept == Purged(rows[..i], now, olderThan)
      {
        assert rows[..i + 1][..i] == rows[..i];
        if !Outdated(rows[i], now, olderThan) { kept := kept + [rows[i]]; }
        i := i + 1;
      }
      assert rows[..|rows|] == rows;
      PurgeKeepsValid(rows, nextId, sent, now, olderThan);
      rows := kept;
    }
  }

  predicate Outdated(row: OutboxRow, now: nat, olderThan: nat) { row.publishedAt.Some? && row.publishedAt.value + olderThan < now }

  function Purged(rows: seq<OutboxRow>, now: nat, olderThan: nat): seq<OutboxRow> {
    if rows == [] then [] else
      var front, last := Purged(rows[..|rows| - 1], now, olderThan), rows[|rows| - 1];
      if Outdated(last, now, olderThan) then front else front + [last]
  }

  /** Purging drops the rows published more than the given hours ago, and keeps every other. */
  lemma {:induction false} PurgeDropsPublishedOnly(rows: seq<OutboxRow>, now: nat, olderThan: nat, row: OutboxRow)
    ensures row in Purged(rows, now, olderThan) <==> row in rows && (row.publishedAt.Some? ==> row.publishedAt.value + olderThan >= now)
  {
    if rows != [] {
      var front, last := rows[..|rows| - 1], rows[|rows| - 1];
      PurgeDropsPublishedOnly(front, now, olderThan, row);
      assert rows == front + [last];
    }
  }

  lemma {:induction false} PurgeKeepsValid(rows: seq<OutboxRow>, nextId: nat, sent: seq<Message>, now: nat, olderThan: nat)
    requires IdsGrow(rows, nextId) && PublishedAreSent(rows, sent)
    ensures IdsGrow(Purged(rows, now, olderThan), nextId) && PublishedAreSent(Purged(rows, now, olderThan), sent)
  {
    if rows != [] {
      var front, last := rows[..|rows| - 1], rows[|rows| - 1];
      assert forall i :: 0 <= i < |front| ==> front[i] == rows[i];
      PurgeKeepsValid(front, nextId, sent, now, olderThan);
      var kept := Purged(front, now, olderThan);
      forall i | 0 <= i < |kept| ensures kept[i].id < last.id {
        PurgeDropsPublishedOnly(front, now, olderThan, kept[i]);
        assert kept[i] in front;
        var j :| 0 <= j < |front| && front[j] == kept[i];
        assert rows[j] == kept[i];
      }
    }
  }

  // ---------------------------------------------------------------- what a relay guarantees

  /** Marking the confirmed rows, on top of the noted failure, gives the relayed table. */
  lemma MarkedIsRelayed(rows: seq<OutboxRow>, batch: seq<nat>, n: nat, now: nat, table: seq<OutboxRow>)
    requires n <= |batch| && (forall k :: 0 <= k < |batch| ==> batch[k] < |rows|) && forall k, l :: 0 <= k < l < |batch| ==> batch[k] < batch[l]
    requires table == Bumped(rows, batch, n)
    ensures Marked(table, batch[..n], now) == Relayed(rows, batch, n, now)
  {
    var marked, after := Marked(table, batch[..n], now), Relayed(rows, batch, n, now);
    forall i | 0 <= i < |rows| ensures marked[i] == after[i] {
      if i in batch[..n] {
        var k :| 0 <= k < n && batch[..n][k] == i;
        assert batch[k] == i;
      }
    }
  }

  lemma {:induction false} SentForHas(rows: seq<OutboxRow>, batch: seq<nat>, outcome: nat -> Try, n: nat, k: nat)
    requires k < n <= |batch| && (forall j :: 0 <= j < |batch| ==> batch[j] < |rows|) && outcome(rows[batch[k]].id).copies > 0
    ensures rows[batch[k]].message in SentFor(rows, batch, outcome, n)
  {
    var rest := Repeat(rows[batch[n - 1]].message, outcome(rows[batch[n - 1]].id).copies);
    if k < n - 1 { SentForHas(rows, batch, outcome, n - 1, k); } else { assert rest[0] == rows[batch[k]].message; }
  }

  /** At least once: whatever is marked has reached the broker, however publishing and committing went. */
  lemma RelayKeepsSent(rows: seq<OutboxRow>, sent: seq<Message>, batch: seq<nat>, outcome: nat -> Try, n: nat, now: nat)
    requires PublishedAreSent(rows, sent) && n <= |batch| && forall k :: 0 <= k < |batch| ==> batch[k] < |rows|
    requires (forall k :: 0 <= k < n ==> outcome(rows[batch[k]].id).confirmed) && forall i :: 0 <= i < |rows| ==> Honest(outcome, rows[i].id)
    ensures var sent' := sent + SentFor(rows, batch, outcome, if n < |batch| then n + 1 else n);
            PublishedAreSent(rows, sent') && PublishedAreSent(Relayed(rows, batch, n, now), sent')
    ensures forall i :: 0 <= i < |rows| ==> Relayed(rows, batch, n, now)[i].id == rows[i].id
  {
    var m := if n < |batch| then n + 1 else n;
    var sent' := sent + SentFor(rows, batch, outcome, m);
    var after := Relayed(rows, batch, n, now);
    forall i | 0 <= i < |rows| && after[i].publishedAt.Some? ensures after[i].message in sent' {
      if i in batch[..n] {
        var k :| 0 <= k < |batch[..n]| && batch[..n][k] == i;
        assert batch[k] == i && Honest(outcome, rows[i].id);
        SentForHas(rows, batch, outcome, m, k);
      }
    }
  }

  /**
   * What a relay transaction leaves of each row, by its place in the batch: the confirmed
   * ones carry the time of the transaction, the first that was not has one more attempt,
   * and the rest are as they were.
   */
  lemma RelayLeaves(rows: seq<OutboxRow>, locked: set<nat>, limit: nat, outcome: nat -> Try, now: nat, i: nat)
    requires i < |rows|
    ensures var batch := Picked(rows, locked, limit);
            var n := Confirmed(rows, batch, outcome);
            var row := Relayed(rows, batch, n, now)[i];
            row.id == rows[i].id && row.message == rows[i].message &&
            ((exists k :: 0 <= k < n && batch[k] == i) ==> row.publishedAt == Some(now) && row.attempts == rows[i].attempts) &&
            (!(exists k :: 0 <= k < n && batch[k] == i) ==>
              row.publishedAt == rows[i].publishedAt && row.attempts == if n < |batch| && batch[n] == i then rows[i].attempts + 1 else rows[i].attempts)
  {
    hide Picked, Confirmed;
    var batch := Picked(rows, locked, limit);
    var n := Confirmed(rows, batch, outcome);
    if k :| 0 <= k < n && batch[k] == i { assert batch[..n][k] == i; }
  }

  lemma MarkedIndex(rows: seq<OutboxRow>, batch: seq<nat>, n: nat, now: nat, j: nat)
    requires n <= |batch| && j < |rows| && rows[j].publishedAt.None?
    ensures Relayed(rows, batch, n, now)[j].publishedAt.Some? <==> exists l :: 0 <= l < n && batch[l] == j
  {
    if exists l :: 0 <= l < n && batch[l] == j {
      var l :| 0 <= l < n && batch[l] == j;
      assert batch[..n][l] == j;
    }
  }

  /** A relay marks a prefix of what was pending, in id order: nothing is marked after a row that was not. */
  lemma RelayMarksPrefix(rows: seq<OutboxRow>, limit: nat, outcome: nat -> Try, now: nat, i: nat, j: nat)
    requires i < j < |rows| && Selectable(rows[i], {}) && Selectable(rows[j], {})
    ensures var batch := Picked(rows, {}, limit);
            var after := Relayed(rows, batch, Confirmed(rows, batch, outcome), now);
            after[j].publishedAt.Some? ==> after[i].publishedAt.Some?
  {
    hide Picked, Confirmed, Relayed;
    var batch := Picked(rows, {}, limit);
    var n := Confirmed(rows, batch, outcome);
    MarkedIndex(rows, batch, n, now, i);
    MarkedIndex(rows, batch, n, now, j);
    if l :| 0 <= l < n && batch[l] == j {
      assert i in batch;
      var k :| 0 <= k < |batch| && batch[k] == i;
      assert k < n;
    }
  }

  /** What one replica has locked, another does not pick. */
  lemma ReplicasPickApart(rows: seq<OutboxRow>, limit: nat, limit': nat, locked: set<nat>, i: nat)
    requires forall k :: 0 <= k < |Picked(rows, {}, limit)| ==> rows[Picked(rows, {}, limit)[k]].id in locked
    requires i in Picked(rows, {}, limit)
    ensures i !in Picked(rows, locked, limit')
  {
    hide Picked;
    var a, b := Picked(rows, {}, limit), Picked(rows, locked, limit');
    var k :| 0 <= k < |a| && a[k] == i;
    assert rows[a[k]].id in locked;
    assert forall l :: 0 <= l < |b| ==> Selectable(rows[b[l]], locked);
  }
}
