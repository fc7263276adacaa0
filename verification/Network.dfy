/**
 * The engine among its messages: an outbox that is published at least once, and
 * copies that are duplicated, reordered, retried, parked in a dead-letter queue,
 * and acknowledged only after their effect is committed. Over every run of this
 * system, no execution is left waiting for nothing.
 */
module Network {
  import opened Base
  import opened Control
  import opened Progress
  import opened Store
  import opened RowInvariants
  import opened Engine
  import opened AdvanceLoop
  import opened Issues
  import opened Invariants
  import opened Transactions
  import opened Evolution
  import opened Definition

  datatype Payload = Sent(message: Message) | RetryNotice(exec: nat, action: nat)

  datatype Place = Queue | RetryQueue | DeadLetter

  datatype Copy = Copy(place: Place, payload: Payload)

  /** `published` holds the log indices of outbox rows already marked as published. */
  datatype System = System(db: Db, published: set<nat>, net: multiset<Copy>)

  datatype Event =
    | Save(routine: Routine)
    | TriggerRun(routineId: string, kind: string, slot: Option<nat>, key: Option<string>, payload: Option<Json>)
    | Publish(index: nat, copies: nat, mark: bool)
    | Move(copy: Copy, place: Place)
    | Replicate(copy: Copy, place: Place)
    | Discard(copy: Copy, kept: Place)
    | StartRun(copy: Copy, ack: bool, now: nat)
    | TakeResult(copy: Copy, ack: bool, now: nat)
    | Work(copy: Copy, outcome: Outcome, ack: bool)
    | AnnounceRetry(copy: Copy)
    | Consume(copy: Copy)
    | Sweep(now: nat)

  predicate IsEnd(m: Message) { m.ExecutionCompleted? || m.ExecutionFailed? }

  predicate Enabled(g: System, ev: Event) {
    match ev
    case Save(routine) => Storable(routine)
    case TriggerRun(id, _, _, _, _) => id in g.db.routines
    case Publish(i, copies, mark) => i < |g.db.log| && i !in g.published && (mark ==> copies > 0)
    case Move(c, _) => c in g.net
    case Replicate(c, _) => c in g.net
    case Discard(c, kept) => c in g.net && Copy(kept, c.payload) in g.net - multiset{c}
    case StartRun(c, _, _) => c in g.net && c.payload.Sent? && c.payload.message.RoutineTriggered?
    case TakeResult(c, _, _) => c in g.net && (c.payload.Sent? ==> c.payload.message.ActionResult?)
    case Work(c, _, _) => c in g.net && c.payload.Sent? && c.payload.message.ActionRequested?
    case AnnounceRetry(c) => c in g.net && c.payload.Sent? && c.payload.message.ActionRequested?
    case Consume(c) => c in g.net && c.payload.Sent? && IsEnd(c.payload.message)
    case Sweep(_) => true
  }

  function Acked(net: multiset<Copy>, c: Copy, ack: bool): multiset<Copy> { if ack then net - multiset{c} else net }

  function ReportOf(p: Payload): Report
    requires p.Sent? ==> p.message.ActionResult?
  {
    match p
    case Sent(m) => Final(m.outcome)
    case RetryNotice(_, _) => RetryScheduled
  }

  function TargetOfResult(p: Payload): (nat, nat)
    requires p.Sent? ==> p.message.ActionResult?
  {
    match p
    case Sent(m) => (m.exec, m.action)
    case RetryNotice(e, a) => (e, a)
  }

  /** The effect of an event. A transaction and the acknowledgement of its message are separate: `ack` may fail. */
  ghost function After(env: Env, g: System, ev: Event): System
    requires Enabled(g, ev) && LayoutOk(g.db)
  {
    match ev
    case Save(routine) => g.(db := SaveRoutine(g.db, routine))
    case TriggerRun(id, kind, slot, key, payload) => g.(db := TriggerRoutine(g.db, g.db.routines[id], kind, slot, key, payload).0)
    case Publish(i, copies, mark) =>
      var c := Copy(Queue, Sent(g.db.log[i]));
      g.(net := g.net[c := g.net[c] + copies], published := if mark then g.published + {i} else g.published)
    case Move(c, place) => g.(net := g.net - multiset{c} + multiset{c.(place := place)})
    case Replicate(c, place) => g.(net := g.net + multiset{c.(place := place)})
    case Discard(c, _) => g.(net := g.net - multiset{c})
    case StartRun(c, ack, now) => g.(db := Start(env, g.db, c.payload.message.exec, now), net := Acked(g.net, c, ack))
    case TakeResult(c, ack, now) =>
      var (e, a) := TargetOfResult(c.payload);
      g.(db := ApplyResult(env, g.db, e, a, ReportOf(c.payload), now), net := Acked(g.net, c, ack))
    case Work(c, outcome, ack) =>
      var m := c.payload.message;
      g.(net := Acked(g.net + multiset{Copy(Queue, Sent(ActionResult(m.exec, m.action, outcome)))}, c, ack))
    case AnnounceRetry(c) =>
      g.(net := g.net + multiset{Copy(Queue, RetryNotice(c.payload.message.exec, c.payload.message.action))})
    case Consume(c) => g.(net := g.net - multiset{c})
    case Sweep(now) => g.(db := MarkStale(g.db, now, env.waitingAfter))
  }

  // ---------------------------------------------------------------- the invariant

  /** A copy of the message is waiting in the outbox, a queue, a retry queue or the dead-letter queue. */
  ghost predicate Somewhere(g: System, m: Message) {
    (exists i :: 0 <= i < |g.db.log| && i !in g.published && g.db.log[i] == m) ||
    exists place :: Copy(place, Sent(m)) in g.net
  }

  ghost predicate ResultSomewhere(g: System, e: nat, a: nat) { exists o :: Somewhere(g, ActionResult(e, a, o)) }
  ghost predicate RequestSomewhere(g: System, e: nat, a: nat) { exists p :: Somewhere(g, ActionRequested(e, a, p)) }

  /** A payload in the network is justified by the log. */
  ghost predicate Justified(db: Db, p: Payload) {
    match p
    case RetryNotice(e, a) => Logged(db.log, RequestOf(e, a))
    case Sent(ActionResult(e, a, _)) => Logged(db.log, RequestOf(e, a)) || Logged(db.log, AnswerTo(e, a))
    case Sent(m) => m in db.log
  }

  /** Execution `c` is unfinished, or its result is still on the way to its caller. */
  ghost predicate WillAnswer(g: System, c: nat)
    requires c < |g.db.execs|
  {
    g.db.execs[c].caller.Some? &&
    (!g.db.execs[c].status.Terminal() || ResultSomewhere(g, g.db.execs[c].caller.value.exec, g.db.execs[c].caller.value.action))
  }

  /** A row in flight has something under way that can move it on. */
  ghost predicate RowServed(g: System, e: nat, a: nat)
    requires Exists(g.db.execs, e, a)
  {
    if g.db.execs[e].rows[a].typ == ROUTINE_RUN
    then exists c: nat :: c < |g.db.execs| && g.db.execs[c].caller == Some(Caller(e, a)) && WillAnswer(g, c)
    else RequestSomewhere(g, e, a) || ResultSomewhere(g, e, a)
  }

  ghost predicate Served(g: System) {
    (forall e: nat :: e < |g.db.execs| && g.db.execs[e].status.PENDING? ==> Somewhere(g, RoutineTriggered(e))) &&
    (forall e: nat, a: nat :: Exists(g.db.execs, e, a) && g.db.execs[e].rows[a].status.InFlight() ==> RowServed(g, e, a))
  }

  ghost predicate Inv(g: System) {
    DbInv(g.db) && (forall i :: i in g.published ==> i < |g.db.log|) &&
    (forall c :: c in g.net ==> Justified(g.db, c.payload)) && Served(g)
  }

  // ---------------------------------------------------------------- the database moves on

  /** Anything newly logged is still unpublished. */
  lemma NewlyLogged(g: System, db': Db, id: MsgId) returns (m: Message)
    requires Inv(g) && g.db.log <= db'.log && !Logged(g.db.log, id) && Logged(db'.log, id)
    ensures IdOf(m) == id && Somewhere(g.(db := db'), m)
  {
    var k :| 0 <= k < |db'.log| && IdOf(db'.log[k]) == id;
    m := db'.log[k];
    assert k >= |g.db.log| by {
      assert forall j :: 0 <= j < |g.db.log| ==> db'.log[j] == g.db.log[j];
    }
  }

  lemma StillSomewhere(g: System, db': Db, m: Message)
    requires Somewhere(g, m) && g.db.log <= db'.log
    ensures Somewhere(g.(db := db'), m)
  {
    if exists i :: 0 <= i < |g.db.log| && i !in g.published && g.db.log[i] == m {
      var i :| 0 <= i < |g.db.log| && i !in g.published && g.db.log[i] == m;
      assert db'.log[i] == m;
    } else {
      var place :| Copy(place, Sent(m)) in g.net;
      assert Copy(place, Sent(m)) in g.(db := db').net;
    }
  }

  lemma StillLogged(log: seq<Message>, log': seq<Message>, id: MsgId)
    requires Logged(log, id) && log <= log'
    ensures Logged(log', id)
  {
    var k :| 0 <= k < |log| && IdOf(log[k]) == id;
    assert IdOf(log'[k]) == id;
  }

  lemma StillJustified(db: Db, db': Db, p: Payload)
    requires Justified(db, p) && db.log <= db'.log
    ensures Justified(db', p)
  {
    match p
    case RetryNotice(e, a) => StillLogged(db.log, db'.log, RequestOf(e, a));
    case Sent(ActionResult(e, a, _)) =>
      if Logged(db.log, RequestOf(e, a)) { StillLogged(db.log, db'.log, RequestOf(e, a)); } else { StillLogged(db.log, db'.log, AnswerTo(e, a)); }
    case Sent(m) =>
  }

  lemma StillResult(g: System, db': Db, e: nat, a: nat)
    requires ResultSomewhere(g, e, a) && g.db.log <= db'.log
    ensures ResultSomewhere(g.(db := db'), e, a)
  {
    var o :| Somewhere(g, ActionResult(e, a, o));
    StillSomewhere(g, db', ActionResult(e, a, o));
  }

  lemma StillRequest(g: System, db': Db, e: nat, a: nat)
    requires RequestSomewhere(g, e, a) && g.db.log <= db'.log
    ensures RequestSomewhere(g.(db := db'), e, a)
  {
    var p :| Somewhere(g, ActionRequested(e, a, p));
    StillSomewhere(g, db', ActionRequested(e, a, p));
  }

  /** A called execution keeps its promise across a transaction: it runs on, or its answer was just enqueued. */
  lemma StillAnswers(g: System, db': Db, c: nat)
    requires Inv(g) && DbInv(db') && Evolves(g.db, db') && c < |g.db.execs| && WillAnswer(g, c)
    ensures WillAnswer(g.(db := db'), c)
  {
    hide Justified, Served, ExecOk, RowsEvolve, Somewhere;
    var caller := g.db.execs[c].caller.value;
    assert ExecEvolves(g.db.execs[c], db'.execs[c]);
    if g.db.execs[c].status.Terminal() {
      StillResult(g, db', caller.exec, caller.action);
    } else if db'.execs[c].status.Terminal() {
      assert ExecIssued(g.db.execs, g.db.log, c) && ExecIssued(db'.execs, db'.log, c);
      var m := NewlyLogged(g, db', AnswerTo(caller.exec, caller.action));
      assert m == ActionResult(caller.exec, caller.action, m.outcome);
      assert ResultSomewhere(g.(db := db'), caller.exec, caller.action);
    }
  }

  lemma StillTriggered(g: System, db': Db, e: nat)
    requires Inv(g) && DbInv(db') && Evolves(g.db, db') && e < |db'.execs| && db'.execs[e].status.PENDING?
    ensures Somewhere(g.(db := db'), RoutineTriggered(e))
  {
    if e < |g.db.execs| {
      assert ExecEvolves(g.db.execs[e], db'.execs[e]);
      StillSomewhere(g, db', RoutineTriggered(e));
    } else {
      NoTriggerYet(g.db, e);
      assert ExecIssued(db'.execs, db'.log, e);
      var m := NewlyLogged(g, db', TriggerOf(e));
    }
  }

  lemma NoTriggerYet(db: Db, e: nat)
    requires DbInv(db) && e >= |db.execs|
    ensures !Logged(db.log, TriggerOf(e))
  {
    assert forall k :: 0 <= k < |db.log| ==> InRange(db.execs, IdOf(db.log[k]));
  }

  /** A row that was in flight keeps what serves it; one newly in flight has its request or its call fresh in the outbox. */
  lemma StillServed(g: System, db': Db, e: nat, a: nat)
    requires Inv(g) && DbInv(db') && Evolves(g.db, db') && Exists(db'.execs, e, a) && db'.execs[e].rows[a].status.InFlight()
    ensures RowServed(g.(db := db'), e, a)
  {
    var g' := g.(db := db');
    var row' := db'.execs[e].rows[a];
    assert RowIssued(db'.execs, db'.log, e, a);
    if row'.typ == ROUTINE_RUN {
      CallServed(g, db', e, a);
    } else if Exists(g.db.execs, e, a) && g.db.execs[e].rows[a].status.InFlight() {
      SameTypeAfter(g.db, db', e, a);
      assert RowServed(g, e, a);
      if RequestSomewhere(g, e, a) { StillRequest(g, db', e, a); } else { StillResult(g, db', e, a); }
    } else {
      NotRequestedBefore(g.db, db', e, a);
      var m := NewlyLogged(g, db', RequestOf(e, a));
      assert m == ActionRequested(e, a, m.params);
      assert RequestSomewhere(g', e, a);
    }
  }

  lemma SameTypeAfter(db: Db, db': Db, e: nat, a: nat)
    requires Evolves(db, db') && Exists(db.execs, e, a)
    ensures Exists(db'.execs, e, a) && db'.execs[e].rows[a].typ == db.execs[e].rows[a].typ
    ensures RowEvolves(db.execs[e].rows[a], db'.execs[e].rows[a])
  {
    assert ExecEvolves(db.execs[e], db'.execs[e]);
    assert RowEvolves(db.execs[e].rows[a], db'.execs[e].rows[a]);
  }

  lemma NotRequestedBefore(db: Db, db': Db, e: nat, a: nat)
    requires DbInv(db) && Evolves(db, db') && Exists(db'.execs, e, a) && db'.execs[e].rows[a].status.InFlight()
    requires !(Exists(db.execs, e, a) && db.execs[e].rows[a].status.InFlight())
    ensures !Logged(db.log, RequestOf(e, a)) && !Called(db.execs, e, a)
  {
    if Exists(db.execs, e, a) {
      SameTypeAfter(db, db', e, a);
      assert RowIssued(db.execs, db.log, e, a);
    } else {
      NotYet(db.execs, db.log, e, a);
    }
  }

  lemma CallServed(g: System, db': Db, e: nat, a: nat)
    requires Inv(g) && DbInv(db') && Evolves(g.db, db') && Exists(db'.execs, e, a)
    requires db'.execs[e].rows[a].status.InFlight() && db'.execs[e].rows[a].typ == ROUTINE_RUN
    ensures RowServed(g.(db := db'), e, a)
  {
    var g' := g.(db := db');
    assert RowIssued(db'.execs, db'.log, e, a);
    var c :| 0 <= c < |db'.execs| && db'.execs[c].caller == Some(Caller(e, a));
    if c < |g.db.execs| {
      assert ExecEvolves(g.db.execs[c], db'.execs[c]);
      OldCallServes(g, db', e, a, c);
    } else {
      assert WillAnswer(g', c) by { NewExecutionUnanswered(g, db', c); }
    }
  }

  lemma OldCallServes(g: System, db': Db, e: nat, a: nat, c: nat)
    requires Inv(g) && DbInv(db') && Evolves(g.db, db') && Exists(db'.execs, e, a) && db'.execs[e].rows[a].status.InFlight()
    requires c < |g.db.execs| && g.db.execs[c].caller == Some(Caller(e, a)) && db'.execs[c].caller == Some(Caller(e, a))
    ensures WillAnswer(g.(db := db'), c)
  {
    assert ExecIssued(g.db.execs, g.db.log, c);
    SameTypeAfter(g.db, db', e, a);
    assert Called(g.db.execs, e, a);
    assert RowIssued(g.db.execs, g.db.log, e, a);
    assert g.db.execs[e].rows[a].status.InFlight();
    assert RowServed(g, e, a);
    var d: nat :| d < |g.db.execs| && g.db.execs[d].caller == Some(Caller(e, a)) && WillAnswer(g, d);
    assert d == c;
    StillAnswers(g, db', c);
  }

  lemma NewExecutionUnanswered(g: System, db': Db, c: nat)
    requires Inv(g) && DbInv(db') && Evolves(g.db, db') && |g.db.execs| <= c < |db'.execs| && db'.execs[c].caller.Some?
    requires !Called(g.db.execs, db'.execs[c].caller.value.exec, db'.execs[c].caller.value.action) ||
             !db'.execs[c].status.Terminal()
    ensures WillAnswer(g.(db := db'), c)
  {
    var caller := db'.execs[c].caller.value;
    if db'.execs[c].status.Terminal() {
      NoTrace(g.db.execs, g.db.log);
      assert ExecIssued(db'.execs, db'.log, c);
      var m := NewlyLogged(g, db', AnswerTo(caller.exec, caller.action));
      assert m == ActionResult(caller.exec, caller.action, m.outcome);
      assert ResultSomewhere(g.(db := db'), caller.exec, caller.action);
    }
  }

  /** Every transaction that keeps the database invariant keeps the system invariant. */
  lemma TransactionKeeps(g: System, db': Db)
    requires Inv(g) && DbInv(db') && Evolves(g.db, db')
    ensures Inv(g.(db := db'))
  {
    var g' := g.(db := db');
    forall c | c in g'.net ensures Justified(db', c.payload) { StillJustified(g.db, db', c.payload); }
    forall e: nat | e < |db'.execs| && db'.execs[e].status.PENDING? ensures Somewhere(g', RoutineTriggered(e)) { StillTriggered(g, db', e); }
    forall e: nat, a: nat | Exists(db'.execs, e, a) && db'.execs[e].rows[a].status.InFlight() ensures RowServed(g', e, a) { StillServed(g, db', e, a); }
  }

  // ---------------------------------------------------------------- copies come and go

  lemma SomewhereGrows(g: System, net': multiset<Copy>, published': set<nat>, m: Message)
    requires Somewhere(g, m) && g.net <= net'
    requires forall i :: i in published' && i !in g.published ==> i < |g.db.log| && Copy(Queue, Sent(g.db.log[i])) in net'
    ensures Somewhere(g.(net := net', published := published'), m)
  {
    var g' := g.(net := net', published := published');
    if exists i :: 0 <= i < |g.db.log| && i !in g.published && g.db.log[i] == m {
      var i :| 0 <= i < |g.db.log| && i !in g.published && g.db.log[i] == m;
      if i in published' { assert Copy(Queue, Sent(m)) in g'.net; } else { assert g'.db.log[i] == m; }
    } else {
      var place :| Copy(place, Sent(m)) in g.net;
      assert Copy(place, Sent(m)) in g'.net;
    }
  }

  /** Serving is monotone: whatever keeps every needed message somewhere keeps every row served. */
  lemma ServedWhenSomewhere(g: System, g': System, e: nat, a: nat)
    requires g'.db == g.db && Exists(g.db.execs, e, a) && RowServed(g, e, a)
    requires forall p :: Somewhere(g, ActionRequested(e, a, p)) ==> RequestSomewhere(g', e, a) || ResultSomewhere(g', e, a)
    requires forall o :: Somewhere(g, ActionResult(e, a, o)) ==> ResultSomewhere(g', e, a)
    ensures RowServed(g', e, a)
  {
    if g.db.execs[e].rows[a].typ == ROUTINE_RUN {
      var c: nat :| c < |g.db.execs| && g.db.execs[c].caller == Some(Caller(e, a)) && WillAnswer(g, c);
      if g.db.execs[c].status.Terminal() {
        var o :| Somewhere(g, ActionResult(e, a, o));
      }
      assert WillAnswer(g', c);
    } else if RequestSomewhere(g, e, a) {
      var p :| Somewhere(g, ActionRequested(e, a, p));
    } else {
      var o :| Somewhere(g, ActionResult(e, a, o));
    }
  }

  lemma NetGrows(g: System, net': multiset<Copy>, published': set<nat>)
    requires Inv(g) && g.net <= net' && g.published <= published'
    requires forall i :: i in published' && i !in g.published ==> i < |g.db.log| && Copy(Queue, Sent(g.db.log[i])) in net'
    requires forall c :: c in net' ==> c in g.net || Justified(g.db, c.payload)
    ensures Inv(g.(net := net', published := published'))
  {
    var g' := g.(net := net', published := published');
    forall e: nat | e < |g.db.execs| && g.db.execs[e].status.PENDING? ensures Somewhere(g', RoutineTriggered(e)) {
      SomewhereGrows(g, net', published', RoutineTriggered(e));
    }
    forall e: nat, a: nat | Exists(g.db.execs, e, a) && g.db.execs[e].rows[a].status.InFlight() ensures RowServed(g', e, a) {
      forall p | Somewhere(g, ActionRequested(e, a, p)) ensures RequestSomewhere(g', e, a) {
        SomewhereGrows(g, net', published', ActionRequested(e, a, p));
      }
      forall o | Somewhere(g, ActionResult(e, a, o)) ensures ResultSomewhere(g', e, a) {
        SomewhereGrows(g, net', published', ActionResult(e, a, o));
      }
      assert RowServed(g, e, a);
      ServedWhenSomewhere(g, g', e, a);
    }
  }

  /** The copy is not what some row or execution is waiting for. */
  ghost predicate Dispensable(g: System, c: Copy) {
    match c.payload
    case RetryNotice(_, _) => true
    case Sent(RoutineTriggered(e)) => e < |g.db.execs| ==> !g.db.execs[e].status.PENDING?
    case Sent(ActionResult(e, a, _)) => Exists(g.db.execs, e, a) ==> !g.db.execs[e].rows[a].status.InFlight()
    case Sent(ActionRequested(e, a, _)) => ResultSomewhere(g, e, a)
    case Sent(_) => true
  }

  lemma SomewhereElse(g: System, c: Copy, m: Message)
    requires Somewhere(g, m) && c in g.net && c.payload != Sent(m)
    ensures Somewhere(g.(net := g.net - multiset{c}), m)
  {
    if !(exists i :: 0 <= i < |g.db.log| && i !in g.published && g.db.log[i] == m) {
      var place :| Copy(place, Sent(m)) in g.net;
      assert Copy(place, Sent(m)) in (g.net - multiset{c});
    }
  }

  lemma AckKeeps(g: System, c: Copy)
    requires Inv(g) && c in g.net && Dispensable(g, c)
    ensures Inv(g.(net := g.net - multiset{c}))
  {
    var g' := g.(net := g.net - multiset{c});
    forall d | d in g'.net ensures Justified(g.db, d.payload) { assert d in g.net; }
    forall e: nat | e < |g.db.execs| && g.db.execs[e].status.PENDING? ensures Somewhere(g', RoutineTriggered(e)) {
      SomewhereElse(g, c, RoutineTriggered(e));
    }
    forall e: nat, a: nat | Exists(g.db.execs, e, a) && g.db.execs[e].rows[a].status.InFlight() ensures RowServed(g', e, a) {
      forall o | Somewhere(g, ActionResult(e, a, o)) ensures ResultSomewhere(g', e, a) {
        SomewhereElse(g, c, ActionResult(e, a, o));
      }
      forall p | Somewhere(g, ActionRequested(e, a, p)) ensures RequestSomewhere(g', e, a) || ResultSomewhere(g', e, a) {
        if c.payload != Sent(ActionRequested(e, a, p)) { SomewhereElse(g, c, ActionRequested(e, a, p)); } else {
          var o :| Somewhere(g, ActionResult(e, a, o));
        }
      }
      assert RowServed(g, e, a);
      ServedWhenSomewhere(g, g', e, a);
    }
  }

  lemma MoveKeeps(g: System, c: Copy, place: Place)
    requires Inv(g) && c in g.net
    ensures Inv(g.(net := g.net - multiset{c} + multiset{c.(place := place)}))
  {
    var g' := g.(net := g.net - multiset{c} + multiset{c.(place := place)});
    forall d | d in g'.net ensures Justified(g.db, d.payload) {
      if d != c.(place := place) { assert d in g.net; } else { assert Justified(g.db, c.payload); }
    }
    forall m | Somewhere(g, m) ensures Somewhere(g', m) {
      if c.payload == Sent(m) { assert Copy(place, Sent(m)) in g'.net; } else {
        SomewhereElse(g, c, m);
        if !(exists i :: 0 <= i < |g.db.log| && i !in g.published && g.db.log[i] == m) {
          var q :| Copy(q, Sent(m)) in (g.net - multiset{c});
          assert Copy(q, Sent(m)) in g'.net;
        }
      }
    }
    forall e: nat, a: nat | Exists(g.db.execs, e, a) && g.db.execs[e].rows[a].status.InFlight() ensures RowServed(g', e, a) {
      assert RowServed(g, e, a);
      ServedWhenSomewhere(g, g', e, a);
    }
  }

  /** A copy may go once another of the same payload was confirmed elsewhere, as a failed delivery is acknowledged after its retry. */
  lemma DiscardKeeps(g: System, c: Copy, kept: Place)
    requires Inv(g) && c in g.net && Copy(kept, c.payload) in g.net - multiset{c}
    ensures Inv(g.(net := g.net - multiset{c}))
  {
    var g' := g.(net := g.net - multiset{c});
    forall d | d in g'.net ensures Justified(g.db, d.payload) { assert d in g.net; }
    forall m | Somewhere(g, m) ensures Somewhere(g', m) {
      if c.payload == Sent(m) { assert Copy(kept, Sent(m)) in g'.net; } else { SomewhereElse(g, c, m); }
    }
    forall e: nat, a: nat | Exists(g.db.execs, e, a) && g.db.execs[e].rows[a].status.InFlight() ensures RowServed(g', e, a) {
      assert RowServed(g, e, a);
      ServedWhenSomewhere(g, g', e, a);
    }
  }

  // ---------------------------------------------------------------- every event keeps the invariant

  /** A result in the network is about a row that was dispatched. */
  lemma ResultsAreExpected(g: System, c: Copy)
    requires Inv(g) && c in g.net && (c.payload.Sent? ==> c.payload.message.ActionResult?)
    ensures var (e, a) := TargetOfResult(c.payload); Exists(g.db.execs, e, a) && WasDispatched(g.db, e, a)
  {
    var (e, a) := TargetOfResult(c.payload);
    assert Justified(g.db, c.payload);
    if Logged(g.db.log, RequestOf(e, a)) {
      var k :| 0 <= k < |g.db.log| && IdOf(g.db.log[k]) == RequestOf(e, a);
      assert InRange(g.db.execs, IdOf(g.db.log[k]));
    } else {
      var k :| 0 <= k < |g.db.log| && IdOf(g.db.log[k]) == AnswerTo(e, a);
      assert InRange(g.db.execs, IdOf(g.db.log[k]));
      var d :| 0 <= d < |g.db.execs| && g.db.execs[d].caller == Some(Caller(e, a));
      assert ExecIssued(g.db.execs, g.db.log, d);
    }
    assert RowIssued(g.db.execs, g.db.log, e, a);
  }

  /** After a final result was applied its row is no longer in flight. */
  lemma FinalResultEnds(env: Env, db: Db, e: nat, a: nat, outcome: Outcome, now: nat)
    requires DbInv(db) && Exists(db.execs, e, a) && WasDispatched(db, e, a)
    ensures LayoutOk(db)
    ensures var db' := ApplyResult(env, db, e, a, Final(outcome), now);
            Exists(db'.execs, e, a) && db'.execs[e].rows[a].status.Terminal()
  {
    hide Evolves, Issued, Settled, WfRows, LoopOrder;
    DbInvLayout(db);
    var t := Lock(db, e, now);
    LockOk(db, e, now);
    LockFinds(db, e, a, now);
    var i := FindId(t.mem, a).value;
    ApplyResultEvolves(env, db, e, a, Final(outcome), now);
    if t.mem[i].status.Terminal() {
      SameTypeAfter(db, ApplyResult(env, db, e, a, Final(outcome), now), e, a);
    } else {
      var t1 := Record(t, i, Final(outcome));
      RecordUpdates(t, i, Final(outcome));
      assert t1.Rows()[a].status.Terminal();
      if !t.loaded.Terminal() {
        RecordInTime(t, i, Final(outcome));
        AdvanceEvolves(env, t1);
        SameTypeAfter(t1.db, Advance(env, t1).db, e, a);
      }
    }
  }

  lemma StartedIsNotPending(env: Env, db: Db, e: nat, now: nat)
    requires DbInv(db)
    ensures LayoutOk(db)
    ensures var db' := Start(env, db, e, now); e < |db'.execs| ==> !db'.execs[e].status.PENDING?
  {
    hide Evolves, Issued, Settled, WfRows, LoopOrder;
    DbInvLayout(db);
    if e < |db.execs| {
      if db.execs[e].status.PENDING? {
        var t := Lock(SetStatus(db, e, RUNNING, now), e, now);
        StartOpens(db, e, now);
        AdvanceEvolves(env, t);
        ExecAfter(t.db, Advance(env, t).db, e);
      }
    }
  }

  lemma ExecAfter(db: Db, db': Db, e: nat)
    requires Evolves(db, db') && e < |db.execs|
    ensures e < |db'.execs| && ExecEvolves(db.execs[e], db'.execs[e])
  {
  }

  lemma StartRunKeeps(env: Env, g: System, c: Copy, ack: bool, now: nat)
    requires Inv(g) && Enabled(g, StartRun(c, ack, now))
    ensures LayoutOk(g.db) && Inv(After(env, g, StartRun(c, ack, now)))
  {
    hide Served, Issued, Settled, Evolves;
    var e := c.payload.message.exec;
    StartKeeps(env, g.db, e, now);
    StartEvolves(env, g.db, e, now);
    StartedIsNotPending(env, g.db, e, now);
    var g' := g.(db := Start(env, g.db, e, now));
    TransactionKeeps(g, g'.db);
    if ack { AckKeeps(g', c); }
  }

  lemma TakeResultKeeps(env: Env, g: System, c: Copy, ack: bool, now: nat)
    requires Inv(g) && Enabled(g, TakeResult(c, ack, now))
    ensures LayoutOk(g.db) && Inv(After(env, g, TakeResult(c, ack, now)))
  {
    hide Served, Issued, Settled, Evolves;
    var (e, a) := TargetOfResult(c.payload);
    ResultsAreExpected(g, c);
    ApplyResultKeeps(env, g.db, e, a, ReportOf(c.payload), now);
    ApplyResultEvolves(env, g.db, e, a, ReportOf(c.payload), now);
    var g' := g.(db := ApplyResult(env, g.db, e, a, ReportOf(c.payload), now));
    TransactionKeeps(g, g'.db);
    if ack {
      if c.payload.Sent? { FinalResultEnds(env, g.db, e, a, c.payload.message.outcome, now); }
      AckKeeps(g', c);
    }
  }

  lemma RequestLogged(g: System, c: Copy)
    requires Inv(g) && c in g.net && c.payload.Sent? && c.payload.message.ActionRequested?
    ensures Logged(g.db.log, RequestOf(c.payload.message.exec, c.payload.message.action))
  {
    var m := c.payload.message;
    assert Justified(g.db, c.payload);
    var k :| 0 <= k < |g.db.log| && g.db.log[k] == m;
    assert IdOf(g.db.log[k]) == RequestOf(m.exec, m.action);
  }

  lemma WorkKeeps(env: Env, g: System, c: Copy, outcome: Outcome, ack: bool)
    requires Inv(g) && Enabled(g, Work(c, outcome, ack)) && LayoutOk(g.db)
    ensures Inv(After(env, g, Work(c, outcome, ack)))
  {
    hide Served, Issued, Settled, DbInv;
    var m := c.payload.message;
    RequestLogged(g, c);
    var answer := Copy(Queue, Sent(ActionResult(m.exec, m.action, outcome)));
    var g' := g.(net := g.net + multiset{answer}, published := g.published);
    NetGrows(g, g'.net, g.published);
    if ack {
      assert answer in g'.net && Somewhere(g', ActionResult(m.exec, m.action, outcome));
      assert ResultSomewhere(g', m.exec, m.action);
      AckKeeps(g', c);
    }
  }

  lemma PublishKeeps(env: Env, g: System, i: nat, copies: nat, mark: bool)
    requires Inv(g) && Enabled(g, Publish(i, copies, mark)) && LayoutOk(g.db)
    ensures Inv(After(env, g, Publish(i, copies, mark)))
  {
    hide Served, Issued, Settled, DbInv;
    var c := Copy(Queue, Sent(g.db.log[i]));
    var net' := g.net[c := g.net[c] + copies];
    LoggedIsJustified(g.db, i);
    NetGrows(g, net', if mark then g.published + {i} else g.published);
  }

  lemma LoggedIsJustified(db: Db, i: nat)
    requires i < |db.log|
    ensures Justified(db, Sent(db.log[i]))
  {
    if db.log[i].ActionResult? { assert IdOf(db.log[i]) == AnswerTo(db.log[i].exec, db.log[i].action); }
  }

  lemma ReplicateKeeps(g: System, c: Copy, place: Place)
    requires Inv(g) && c in g.net
    ensures Inv(g.(net := g.net + multiset{c.(place := place)}))
  {
    assert Justified(g.db, c.payload);
    NetGrows(g, g.net + multiset{c.(place := place)}, g.published);
    assert g.(net := g.net + multiset{c.(place := place)}, published := g.published) == g.(net := g.net + multiset{c.(place := place)});
  }

  lemma AnnounceKeeps(g: System, c: Copy)
    requires Inv(g) && Enabled(g, AnnounceRetry(c))
    ensures Inv(g.(net := g.net + multiset{Copy(Queue, RetryNotice(c.payload.message.exec, c.payload.message.action))}))
  {
    RequestLogged(g, c);
    NetGrows(g, g.net + multiset{Copy(Queue, RetryNotice(c.payload.message.exec, c.payload.message.action))}, g.published);
  }

  /** Whatever happens next, the system invariant holds again. */
  lemma EventKeeps(env: Env, g: System, ev: Event)
    requires Inv(g) && Enabled(g, ev)
    ensures LayoutOk(g.db) && Inv(After(env, g, ev))
  {
    hide Served, Issued, Settled, Evolves, Justified, WfRows, LoopOrder;
    DbInvLayout(g.db);
    match ev
    case Save(routine) =>
      SaveRoutineKeeps(g.db, routine);
      Reflexive(g.db);
      SaveEvolves(g.db, routine);
      TransactionKeeps(g, SaveRoutine(g.db, routine));
    case TriggerRun(id, kind, slot, key, payload) =>
      TriggerKeeps(g.db, g.db.routines[id], kind, slot, key, payload);
      TriggerEvolves(g.db, g.db.routines[id], kind, slot, key, payload);
      TransactionKeeps(g, TriggerRoutine(g.db, g.db.routines[id], kind, slot, key, payload).0);
    case Publish(i, copies, mark) => PublishKeeps(env, g, i, copies, mark);
    case Move(c, place) => MoveKeeps(g, c, place);
    case Replicate(c, place) => ReplicateKeeps(g, c, place);
    case Discard(c, kept) => DiscardKeeps(g, c, kept);
    case StartRun(c, ack, now) => StartRunKeeps(env, g, c, ack, now);
    case TakeResult(c, ack, now) => TakeResultKeeps(env, g, c, ack, now);
    case Work(c, outcome, ack) => WorkKeeps(env, g, c, outcome, ack);
    case AnnounceRetry(c) => AnnounceKeeps(g, c);
    case Consume(c) => AckKeeps(g, c);
    case Sweep(now) =>
      MarkStaleKeeps(g.db, now, env.waitingAfter);
      MarkStaleEvolves(g.db, now, env.waitingAfter);
      TransactionKeeps(g, MarkStale(g.db, now, env.waitingAfter));
  }

  lemma SaveEvolves(db: Db, routine: Routine)
    ensures Evolves(db, SaveRoutine(db, routine))
  {
  }

  // ---------------------------------------------------------------- runs

  const EMPTY: System := System(Db(map[], [], []), {}, multiset{})

  /** A run from the empty system: each state follows from the one before by an enabled event. */
  ghost predicate IsRun(env: Env, states: seq<System>, events: seq<Event>) {
    |states| == |events| + 1 && states[0] == EMPTY &&
    forall k :: 0 <= k < |events| ==> Enabled(states[k], events[k]) && LayoutOk(states[k].db) && states[k + 1] == After(env, states[k], events[k])
  }

  lemma EmptyInv()
    ensures Inv(EMPTY)
  {
  }

  /** The system invariant holds in every state of every run. */
  lemma {:induction false} RunsKeepInv(env: Env, states: seq<System>, events: seq<Event>, k: nat)
    requires IsRun(env, states, events) && k < |states|
    ensures Inv(states[k])
  {
    if k == 0 { EmptyInv(); } else {
      RunsKeepInv(env, states, events, k - 1);
      EventKeeps(env, states[k - 1], events[k - 1]);
    }
  }

  /** A run can always go on with any enabled event: the layout a transaction relies on is never lost. */
  lemma RunsNeverBlock(env: Env, states: seq<System>, events: seq<Event>, k: nat, ev: Event)
    requires IsRun(env, states, events) && k < |states| && Enabled(states[k], ev)
    ensures LayoutOk(states[k].db)
  {
    RunsKeepInv(env, states, events, k);
    EventKeeps(env, states[k], ev);
  }

  /**
   * No run is silently stuck: a PENDING execution still has its trigger somewhere; a
   * RUNNING or WAITING one has an action in flight; and every action in flight has its
   * request or a result somewhere, or a called execution that will answer.
   */
  lemma NeverSilentlyStuck(env: Env, states: seq<System>, events: seq<Event>, k: nat, e: nat)
    requires IsRun(env, states, events) && k < |states| && e < |states[k].db.execs|
    ensures var g, x := states[k], states[k].db.execs[e];
            (x.status.PENDING? ==> Somewhere(g, RoutineTriggered(e))) &&
            (x.status.RUNNING? || x.status.WAITING? ==> AnyInFlight(x.rows)) &&
            (forall a: nat :: a < |x.rows| && x.rows[a].status.InFlight() ==> RowServed(g, e, a))
  {
    RunsKeepInv(env, states, events, k);
    assert ExecOk(states[k].db.execs[e]);
  }
}
