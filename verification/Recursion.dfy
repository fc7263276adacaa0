/**
 * Routines that call routines: the depth is bounded, and so is the number of
 * executions one trigger can create, even when routines call themselves.
 */
module Recursion {
  import opened Base
  import opened Control
  import opened Progress
  import opened Store
  import opened RowInvariants
  import opened Engine
  import opened AdvanceLoop
  import opened Issues
  import opened Invariants

  predicate CallsEarlier(execs: seq<Exec>) {
    forall c :: 0 <= c < |execs| && execs[c].caller.Some? ==> execs[c].caller.value.exec < c
  }

  /** The execution a trigger created, from which the calls led to `e`. */
  function Root(execs: seq<Exec>, e: nat): nat
    requires CallsEarlier(execs) && e < |execs|
    decreases e
  {
    match execs[e].caller
    case None => e
    case Some(c) => Root(execs, c.exec)
  }

  /** The executions one trigger led to, at one call depth. */
  function Level(execs: seq<Exec>, root: nat, depth: nat): set<nat>
    requires CallsEarlier(execs)
  {
    set e | 0 <= e < |execs| && execs[e].depth == depth && Root(execs, e) == root
  }

  function Tree(execs: seq<Exec>, root: nat): set<nat>
    requires CallsEarlier(execs)
  {
    set e | 0 <= e < |execs| && Root(execs, e) == root
  }

  /** Number of rows of one execution that can call: author rows, or up to 50 repetitions of each. */
  function Slot(row: Row): nat {
    match row.parent
    case None => row.id * LOOP_LIMIT
    case Some(p) => p * LOOP_LIMIT + if row.loopIndex.Some? then row.loopIndex.value else 0
  }

  lemma SlotsDiffer(rows: seq<Row>, n: nat, a: nat, b: nat)
    requires WfRows(rows, n) && a < b < |rows| && !rows[a].LoopHead() && !rows[b].LoopHead()
    ensures Slot(rows[a]) != Slot(rows[b])
  {
    if b >= n { assert rows[a].parent != rows[b].parent || rows[a].loopIndex != rows[b].loopIndex; }
  }

  lemma SlotBounded(rows: seq<Row>, n: nat, a: nat)
    requires WfRows(rows, n) && a < |rows|
    ensures Slot(rows[a]) < n * LOOP_LIMIT
  {
    if a >= n { assert ChildOf(rows[a], a, rows[rows[a].parent.value]); } else { assert AuthorRow(rows[a], a); }
  }

  // ---------------------------------------------------------------- counting

  /** A set that a function maps injectively below `m` has at most `m` elements. */
  lemma {:induction false} InjectiveSize(s: set<nat>, slot: nat -> nat, m: nat)
    requires forall x :: x in s ==> slot(x) < m
    requires forall x, y :: x in s && y in s && x != y ==> slot(x) != slot(y)
    ensures |s| <= m
    decreases m
  {
    if m == 0 {
      assert forall x :: x !in s;
      assert s == {};
    } else if y: nat :| y in s && slot(y) == m - 1 {
      assert s == (s - {y}) + {y};
      InjectiveSize(s - {y}, slot, m - 1);
    } else {
      InjectiveSize(s, slot, m - 1);
    }
  }

  lemma UnionSize<T>(a: set<T>, b: set<T>, c: set<T>)
    requires c == a + b && a !! b
    ensures |c| == |a| + |b|
  {
  }

  lemma TimesSuccessor(m: nat, k: nat)
    ensures m * (k + 1) == m * k + m
  {
  }

  /** One parent has at most `m` of the elements; the others are the rest. */
  lemma OwnChildren(s: set<nat>, parent: nat -> nat, slot: nat -> nat, p: nat, rest: set<nat>, m: nat)
    requires forall x :: x in s ==> slot(x) < m
    requires forall x, y :: x in s && y in s && x != y && parent(x) == parent(y) ==> slot(x) != slot(y)
    requires rest == set x | x in s && parent(x) != p
    ensures |s| <= m + |rest|
  {
    var own := set x | x in s && parent(x) == p;
    InjectiveSize(own, slot, m);
    UnionSize(own, rest, s);
  }

  /** If at most `m` elements share a parent, there are at most `m` times as many elements as parents. */
  lemma {:induction false} FanOut(s: set<nat>, parent: nat -> nat, slot: nat -> nat, parents: set<nat>, m: nat)
    requires forall x :: x in s ==> parent(x) in parents && slot(x) < m
    requires forall x, y :: x in s && y in s && x != y && parent(x) == parent(y) ==> slot(x) != slot(y)
    ensures |s| <= m * |parents|
  {
    if parents == {} {
      assert s == {};
    } else {
      var p :| p in parents;
      var rest := set x | x in s && parent(x) != p;
      OwnChildren(s, parent, slot, p, rest, m);
      FanOut(rest, parent, slot, parents - {p}, m);
      TimesSuccessor(m, |parents - {p}|);
      assert |parents| == |parents - {p}| + 1;
    }
  }

  // ---------------------------------------------------------------- the bound

  lemma IssuedCallsEarlier(db: Db)
    requires DbInv(db)
    ensures CallsEarlier(db.execs)
  {
    forall c: nat | c < |db.execs| && db.execs[c].caller.Some? ensures db.execs[c].caller.value.exec < c {
      assert ExecIssued(db.execs, db.log, c);
    }
  }

  /** Two executions called from the same execution come from different slots. */
  lemma CallerSlots(db: Db, c: nat, d: nat)
    requires DbInv(db) && c < d < |db.execs| && db.execs[c].caller.Some? && db.execs[d].caller.Some?
    requires db.execs[c].caller.value.exec == db.execs[d].caller.value.exec
    ensures CallSlot(db.execs, c) != CallSlot(db.execs, d)
  {
    assert ExecIssued(db.execs, db.log, c) && ExecIssued(db.execs, db.log, d);
    var p, a, b := db.execs[c].caller.value.exec, db.execs[c].caller.value.action, db.execs[d].caller.value.action;
    assert db.execs[c].caller == Some(Caller(p, a)) && db.execs[d].caller == Some(Caller(p, b));
    assert a != b;
    assert Called(db.execs, p, a) && Called(db.execs, p, b);
    assert RowIssued(db.execs, db.log, p, a) && RowIssued(db.execs, db.log, p, b);
    assert ExecOk(db.execs[p]);
    if a < b { SlotsDiffer(db.execs[p].rows, db.execs[p].authored, a, b); } else { SlotsDiffer(db.execs[p].rows, db.execs[p].authored, b, a); }
  }

  function CallParent(execs: seq<Exec>, c: nat): nat {
    if c < |execs| && execs[c].caller.Some? then execs[c].caller.value.exec else 0
  }

  function CallSlot(execs: seq<Exec>, c: nat): nat {
    if c < |execs| && execs[c].caller.Some? && Exists(execs, execs[c].caller.value.exec, execs[c].caller.value.action)
    then Slot(execs[execs[c].caller.value.exec].rows[execs[c].caller.value.action]) else 0
  }

  /** Each level of calls has at most 50 times `n` as many executions as the one above. */
  lemma LevelGrowth(db: Db, root: nat, depth: nat, n: nat)
    requires DbInv(db) && CallsEarlier(db.execs)
    requires forall e :: 0 <= e < |db.execs| ==> db.execs[e].authored <= n
    ensures |Level(db.execs, root, depth + 1)| <= (n * LOOP_LIMIT) * |Level(db.execs, root, depth)|
  {
    var execs := db.execs;
    var s := Level(execs, root, depth + 1);
    forall c: nat | c in s ensures execs[c].caller.Some? && CallParent(execs, c) in Level(execs, root, depth) && CallSlot(execs, c) < n * LOOP_LIMIT {
      assert ExecIssued(execs, db.log, c);
      var p := execs[c].caller.value;
      assert ExecOk(execs[p.exec]);
      SlotBounded(execs[p.exec].rows, execs[p.exec].authored, p.action);
    }
    forall c: nat, d: nat | c in s && d in s && c != d && CallParent(execs, c) == CallParent(execs, d) ensures CallSlot(execs, c) != CallSlot(execs, d) {
      if c < d { CallerSlots(db, c, d); } else { CallerSlots(db, d, c); }
    }
    FanOut(s, c => CallParent(execs, c), c => CallSlot(execs, c), Level(execs, root, depth), n * LOOP_LIMIT);
  }

  function Power(b: nat, k: nat): nat { if k == 0 then 1 else b * Power(b, k - 1) }

  /** 1 + b + … + b^k. */
  function PowerSum(b: nat, k: nat): nat { Power(b, k) + if k == 0 then 0 else PowerSum(b, k - 1) }

  lemma {:induction false} LevelBound(db: Db, root: nat, depth: nat, n: nat)
    requires DbInv(db) && CallsEarlier(db.execs)
    requires forall e :: 0 <= e < |db.execs| ==> db.execs[e].authored <= n
    ensures |Level(db.execs, root, depth)| <= Power(n * LOOP_LIMIT, depth)
  {
    if depth == 0 {
      RootLevel(db, root);
    } else {
      hide DbInv, CallsEarlier, Level;
      LevelBound(db, root, depth - 1, n);
      LevelGrowth(db, root, depth - 1, n);
      MulMonotone(n * LOOP_LIMIT, |Level(db.execs, root, depth - 1)|, Power(n * LOOP_LIMIT, depth - 1));
    }
  }

  lemma RootLevel(db: Db, root: nat)
    requires DbInv(db) && CallsEarlier(db.execs)
    ensures |Level(db.execs, root, 0)| <= 1
  {
    forall e: nat | e in Level(db.execs, root, 0) ensures e == root {
      assert ExecIssued(db.execs, db.log, e);
    }
    InjectiveSize(Level(db.execs, root, 0), e => if e == root then 0 else 1, 1);
  }

  lemma MulMonotone(b: nat, x: nat, y: nat)
    requires x <= y
    ensures b * x <= b * y
  {
  }

  function UpTo(execs: seq<Exec>, root: nat, depth: nat): set<nat>
    requires CallsEarlier(execs)
  {
    set e | 0 <= e < |execs| && execs[e].depth <= depth && Root(execs, e) == root
  }

  lemma {:induction false} UpToBound(db: Db, root: nat, depth: nat, n: nat)
    requires DbInv(db) && CallsEarlier(db.execs)
    requires forall e :: 0 <= e < |db.execs| ==> db.execs[e].authored <= n
    ensures |UpTo(db.execs, root, depth)| <= PowerSum(n * LOOP_LIMIT, depth)
  {
    hide Root, Issued, Settled, ExecOk, Power;
    var execs := db.execs;
    LevelBound(db, root, depth, n);
    if depth == 0 {
      assert UpTo(execs, root, 0) == Level(execs, root, 0);
    } else {
      UpToBound(db, root, depth - 1, n);
      UnionSize(UpTo(execs, root, depth - 1), Level(execs, root, depth), UpTo(execs, root, depth));
    }
  }

  /**
   * Every execution is at most five calls deep, and one trigger leads to at most the
   * sum over d = 0..5 of (50·n)^d executions when no routine has more than `n` actions.
   */
  lemma RecursionBound(db: Db, root: nat, n: nat)
    requires DbInv(db)
    requires forall e :: 0 <= e < |db.execs| ==> db.execs[e].authored <= n
    ensures CallsEarlier(db.execs)
    ensures forall e :: 0 <= e < |db.execs| ==> db.execs[e].depth <= MAX_CALL_DEPTH
    ensures |Tree(db.execs, root)| <= PowerSum(n * LOOP_LIMIT, MAX_CALL_DEPTH)
  {
    IssuedCallsEarlier(db);
    forall e: nat | e < |db.execs| ensures db.execs[e].depth <= MAX_CALL_DEPTH {
      assert ExecIssued(db.execs, db.log, e);
    }
    assert Tree(db.execs, root) == UpTo(db.execs, root, MAX_CALL_DEPTH);
    UpToBound(db, root, MAX_CALL_DEPTH, n);
  }
}
