/**
 * Delivery by the broker wrapper (libs/service-kit/src/broker.ts): attempts, retry
 * queues, the dead-letter queue, and acknowledgement only after the follow-up was
 * confirmed. Every effect on the broker is a step of its own, so a crash, a failed
 * publish or a lost channel may fall between any two.
 */
module Broker {
  import opened Base

  /** How far the consumer has come with a message it has not acknowledged. */
  datatype Stage = Handling | Handled | Rescheduled | Buried

  datatype Spot = Work | Unacked(stage: Stage) | RetryQueue(delay: nat) | DeadLetter

  /** A copy of a message in the broker, with its attempt header. */
  datatype Delivery = Delivery(message: nat, attempt: nat, spot: Spot) {
    /** A copy that still has to be dealt with, or is parked for good. */
    predicate Live() { spot.Unacked? ==> spot.stage.Handling? }
  }

  /** `copies` are told apart by a tag; `published` are the messages the queue ever took, `handled` those a handler finished. */
  datatype State = State(copies: map<nat, Delivery>, next: nat, published: set<nat>, handled: set<nat>)

  /** `c` is the tag of the copy an event is about. */
  datatype Event =
    | Publish(message: nat)
    | Deliver(c: nat)
    | Finish(c: nat)
    | Fail(c: nat, permanent: bool, confirmed: bool)
    | Ack(c: nat)
    | Requeue(c: nat)
    | Expire(c: nat)

  /** Where `#handleFailure` sends a message: a retry queue, or the dead-letter queue. */
  function FollowUp(delays: seq<nat>, d: Delivery, permanent: bool): Delivery {
    if !permanent && 1 <= d.attempt <= |delays| then d.(attempt := d.attempt + 1, spot := RetryQueue(delays[d.attempt - 1]))
    else d.(spot := DeadLetter)
  }

  function StageAfter(delays: seq<nat>, d: Delivery, permanent: bool): Stage {
    if FollowUp(delays, d, permanent).spot.DeadLetter? then Buried else Rescheduled
  }

  predicate Enabled(s: State, ev: Event) {
    match ev
    case Publish(m) => m !in s.published
    case Deliver(c) => c in s.copies && s.copies[c].spot.Work?
    case Finish(c) => c in s.copies && s.copies[c].spot == Unacked(Handling)
    case Fail(c, _, _) => c in s.copies && c < s.next && (s.copies[c].spot == Unacked(Handling) || s.copies[c].spot == Unacked(Handled))
    case Ack(c) => c in s.copies && s.copies[c].spot.Unacked? && !s.copies[c].spot.stage.Handling?
    case Requeue(c) => c in s.copies && s.copies[c].spot.Unacked?
    case Expire(c) => c in s.copies && s.copies[c].spot.RetryQueue?
  }

  function Moved(s: State, c: nat, spot: Spot): State
    requires c in s.copies
  {
    s.(copies := s.copies[c := s.copies[c].(spot := spot)])
  }

  function Added(s: State, d: Delivery): State { s.(copies := s.copies[s.next := d], next := s.next + 1) }

  function After(delays: seq<nat>, s: State, ev: Event): State
    requires Enabled(s, ev)
  {
    match ev
    case Publish(m) => Added(s, Delivery(m, 1, Work)).(published := s.published + {m})
    case Deliver(c) => Moved(s, c, Unacked(Handling))
    case Finish(c) => Moved(s, c, Unacked(Handled)).(handled := s.handled + {s.copies[c].message})
    case Fail(c, permanent, confirmed) =>
      // without the confirmation the copy is there, but the consumer does not know
      var sent := Added(s, FollowUp(delays, s.copies[c], permanent));
      if confirmed then Moved(sent, c, Unacked(StageAfter(delays, s.copies[c], permanent))) else sent
    case Ack(c) => s.(copies := s.copies - {c})
    case Requeue(c) => Moved(s, c, Work)
    case Expire(c) => Moved(s, c, Work)
  }

  // ---------------------------------------------------------------- nothing is lost

  predicate LiveCopy(s: State, message: nat) { exists c :: c in s.copies && s.copies[c].message == message && s.copies[c].Live() }

  predicate CopyOk(delays: seq<nat>, s: State, d: Delivery) {
    1 <= d.attempt <= |delays| + 1 && (d.spot.RetryQueue? ==> d.attempt >= 2 && d.spot.delay == delays[d.attempt - 2]) &&
    d.message in s.published && (d.spot == Unacked(Handled) ==> d.message in s.handled)
  }

  ghost predicate Inv(delays: seq<nat>, s: State) {
    (forall m :: m in s.published ==> m in s.handled || LiveCopy(s, m)) &&
    (forall c :: c in s.copies ==> c < s.next && CopyOk(delays, s, s.copies[c]))
  }

  /** A message stays alive when its live copy is untouched, or another live copy takes its place. */
  lemma LiveStays(s: State, s': State, c: nat, message: nat)
    requires LiveCopy(s, message) && forall x :: x in s.copies && x != c ==> x in s'.copies && s'.copies[x] == s.copies[x]
    requires c in s.copies && s.copies[c].message == message && s.copies[c].Live() ==> LiveCopy(s', message)
    ensures LiveCopy(s', message)
  {
    var x :| x in s.copies && s.copies[x].message == message && s.copies[x].Live();
    if x != c { assert s'.copies[x] == s.copies[x]; }
  }

  lemma MoveKeeps(delays: seq<nat>, s: State, c: nat, spot: Spot)
    requires Inv(delays, s) && c in s.copies && (spot.Work? || spot == Unacked(Handling))
    ensures Inv(delays, Moved(s, c, spot))
  {
    var s' := Moved(s, c, spot);
    forall m | m in s'.published && m !in s'.handled ensures LiveCopy(s', m) {
      assert s'.copies[c].Live();
      LiveStays(s, s', c, m);
    }
  }

  lemma PublishKeeps(delays: seq<nat>, s: State, m: nat)
    requires Inv(delays, s) && m !in s.published
    ensures Inv(delays, After(delays, s, Publish(m)))
  {
    var s' := After(delays, s, Publish(m));
    assert s'.copies[s.next] == Delivery(m, 1, Work);
    forall n | n in s'.published && n !in s'.handled ensures LiveCopy(s', n) {
      if n != m { LiveStays(s, s', s.next, n); }
    }
  }

  lemma FinishKeeps(delays: seq<nat>, s: State, c: nat)
    requires Inv(delays, s) && Enabled(s, Finish(c))
    ensures Inv(delays, After(delays, s, Finish(c)))
  {
    var s' := After(delays, s, Finish(c));
    forall m | m in s'.published && m !in s'.handled ensures LiveCopy(s', m) { LiveStays(s, s', c, m); }
  }

  lemma FollowUpOk(delays: seq<nat>, s: State, d: Delivery, permanent: bool)
    requires CopyOk(delays, s, d)
    ensures var next := FollowUp(delays, d, permanent); CopyOk(delays, s, next) && next.message == d.message && next.Live()
  {
  }

  lemma FailKeeps(delays: seq<nat>, s: State, c: nat, permanent: bool, confirmed: bool)
    requires Inv(delays, s) && Enabled(s, Fail(c, permanent, confirmed))
    ensures Inv(delays, After(delays, s, Fail(c, permanent, confirmed)))
  {
    var s' := After(delays, s, Fail(c, permanent, confirmed));
    FollowUpOk(delays, s, s.copies[c], permanent);
    hide FollowUp;
    assert s'.copies[s.next] == FollowUp(delays, s.copies[c], permanent);
    forall m | m in s'.published && m !in s'.handled ensures LiveCopy(s', m) { LiveStays(s, s', c, m); }
    forall x | x in s'.copies ensures x < s'.next && CopyOk(delays, s', s'.copies[x]) {
      if x != s.next { assert CopyOk(delays, s, s.copies[x]); }
    }
  }

  lemma AckKeeps(delays: seq<nat>, s: State, c: nat)
    requires Inv(delays, s) && Enabled(s, Ack(c))
    ensures Inv(delays, After(delays, s, Ack(c)))
  {
    var s' := After(delays, s, Ack(c));
    forall m | m in s'.published && m !in s'.handled ensures LiveCopy(s', m) { LiveStays(s, s', c, m); }
  }

  lemma StepKeeps(delays: seq<nat>, s: State, ev: Event)
    requires Inv(delays, s) && Enabled(s, ev)
    ensures Inv(delays, After(delays, s, ev))
  {
    hide Inv;
    match ev
    case Publish(m) => PublishKeeps(delays, s, m);
    case Deliver(c) => MoveKeeps(delays, s, c, Unacked(Handling));
    case Finish(c) => FinishKeeps(delays, s, c);
    case Fail(c, permanent, confirmed) => FailKeeps(delays, s, c, permanent, confirmed);
    case Ack(c) => AckKeeps(delays, s, c);
    case Requeue(c) => MoveKeeps(delays, s, c, Work);
    case Expire(c) => MoveKeeps(delays, s, c, Work);
  }

  const EMPTY := State(map[], 0, {}, {})

  /** Any interleaving of any number of consumers, crashes and lost confirmations included. */
  predicate IsRun(delays: seq<nat>, states: seq<State>, events: seq<Event>) {
    |states| == |events| + 1 && states[0] == EMPTY &&
    forall k :: 0 <= k < |events| ==> Enabled(states[k], events[k]) && states[k + 1] == After(delays, states[k], events[k])
  }

  lemma {:induction false} RunKeeps(delays: seq<nat>, states: seq<State>, events: seq<Event>, k: nat)
    requires IsRun(delays, states, events) && k < |states|
    ensures Inv(delays, states[k])
  {
    if k > 0 {
      RunKeeps(delays, states, events, k - 1);
      StepKeeps(delays, states[k - 1], events[k - 1]);
    }
  }

  /**
   * No message is ever lost: at every instant of every run it has been handled, or a
   * copy waits in the work queue, is being handled, or sits in a retry queue or the
   * dead-letter queue. No copy is beyond one attempt more than there are delays, and
   * attempt n waits for the delay of attempt n - 1.
   */
  lemma MessagesSurvive(delays: seq<nat>, states: seq<State>, events: seq<Event>, k: nat)
    requires IsRun(delays, states, events) && k < |states|
    ensures var s := states[k];
            (forall m :: m in s.published ==> m in s.handled || exists c :: c in s.copies && s.copies[c].message == m && s.copies[c].Live()) &&
            (forall c :: c in s.copies ==> 1 <= s.copies[c].attempt <= |delays| + 1) &&
            (forall c :: c in s.copies && s.copies[c].spot.RetryQueue? ==>
              2 <= s.copies[c].attempt && s.copies[c].spot.delay == delays[s.copies[c].attempt - 2])
  {
    RunKeeps(delays, states, events, k);
    var s := states[k];
    forall m | m in s.published && m !in s.handled ensures exists c :: c in s.copies && s.copies[c].message == m && s.copies[c].Live() {
      assert LiveCopy(s, m);
    }
    forall c | c in s.copies
      ensures 1 <= s.copies[c].attempt <= |delays| + 1
      ensures s.copies[c].spot.RetryQueue? ==> 2 <= s.copies[c].attempt && s.copies[c].spot.delay == delays[s.copies[c].attempt - 2]
    {
      assert CopyOk(delays, s, s.copies[c]);
    }
  }

  // ---------------------------------------------------------------- permanent errors are not retried

  /** So far every failure of `m` was permanent. */
  predicate OnlyPermanent(states: seq<State>, events: seq<Event>, k: nat, m: nat)
    requires k <= |events| < |states|
  {
    forall j :: 0 <= j < k && events[j].Fail? && events[j].c in states[j].copies && states[j].copies[events[j].c].message == m ==> events[j].permanent
  }

  predicate Unretried(s: State, m: nat) {
    forall c :: c in s.copies && s.copies[c].message == m ==> s.copies[c].attempt == 1 && !s.copies[c].spot.RetryQueue?
  }

  lemma FirstAttemptStep(delays: seq<nat>, s: State, ev: Event, m: nat)
    requires Enabled(s, ev) && (ev.Fail? && s.copies[ev.c].message == m ==> ev.permanent) && Unretried(s, m)
    ensures Unretried(After(delays, s, ev), m)
  {
  }

  /** A message whose handler fails with permanent errors only never enters a retry queue: it stays at attempt 1. */
  lemma {:induction false} PermanentErrorsAreNotRetried(delays: seq<nat>, states: seq<State>, events: seq<Event>, k: nat, m: nat)
    requires IsRun(delays, states, events) && k < |states| && OnlyPermanent(states, events, k, m)
    ensures Unretried(states[k], m)
  {
    if k > 0 {
      PermanentErrorsAreNotRetried(delays, states, events, k - 1, m);
      FirstAttemptStep(delays, states[k - 1], events[k - 1], m);
    }
  }

  // ---------------------------------------------------------------- a message that always fails

  /** A state whose only copy is this one. */
  predicate Only(s: State, d: Delivery) { s.next > 0 && s.copies == map[s.next - 1 := d] }

  /** One delivery whose handler fails, with everything around it going well: deliver, fail, acknowledge. */
  function Attempt(delays: seq<nat>, s: State): State
    requires s.next > 0 && s.next - 1 in s.copies && s.copies[s.next - 1].spot.Work?
  {
    var c := s.next - 1;
    After(delays, After(delays, After(delays, s, Deliver(c)), Fail(c, false, true)), Ack(c))
  }

  lemma AttemptMoves(delays: seq<nat>, s: State, d: Delivery)
    requires Only(s, d) && d.spot.Work?
    ensures Only(Attempt(delays, s), FollowUp(delays, d.(spot := Unacked(Handling)), false))
  {
    var c := s.next - 1;
    var s1 := After(delays, s, Deliver(c));
    var s2 := After(delays, s1, Fail(c, false, true));
    hide FollowUp, StageAfter;
    assert s1.copies == map[c := d.(spot := Unacked(Handling))];
    assert s2.copies - {c} == map[s.next := FollowUp(delays, d.(spot := Unacked(Handling)), false)];
  }

  /** Attempts of a message whose handler always fails, each after its delay. */
  ghost predicate KeepsFailing(delays: seq<nat>, states: seq<State>, m: nat) {
    |states| == |delays| + 2 && Only(states[0], Delivery(m, 1, Work)) &&
    forall k :: 0 <= k <= |delays| ==>
      states[k].next > 0 && states[k].next - 1 in states[k].copies && states[k].copies[states[k].next - 1].spot.Work? &&
      var s1 := Attempt(delays, states[k]);
      states[k + 1] == if k < |delays| && s1.next > 0 && Enabled(s1, Expire(s1.next - 1)) then After(delays, s1, Expire(s1.next - 1)) else s1
  }

  lemma {:induction false} AttemptNumber(delays: seq<nat>, states: seq<State>, m: nat, k: nat)
    requires KeepsFailing(delays, states, m) && k <= |delays|
    ensures Only(states[k], Delivery(m, k + 1, Work))
  {
    if k > 0 {
      AttemptNumber(delays, states, m, k - 1);
      AttemptMoves(delays, states[k - 1], Delivery(m, k, Work));
      var s1 := Attempt(delays, states[k - 1]);
      assert s1.copies[s1.next - 1] == Delivery(m, k + 1, RetryQueue(delays[k - 1]));
      assert states[k].copies == map[s1.next - 1 := Delivery(m, k + 1, Work)];
    }
  }

  /** It is tried once per delay and once more, and then rests in the dead-letter queue. */
  lemma AlwaysFailingIsBuried(delays: seq<nat>, states: seq<State>, m: nat)
    requires KeepsFailing(delays, states, m)
    ensures Only(states[|delays| + 1], Delivery(m, |delays| + 1, DeadLetter))
  {
    AttemptNumber(delays, states, m, |delays|);
    AttemptMoves(delays, states[|delays|], Delivery(m, |delays| + 1, Work));
  }

  // ---------------------------------------------------------------- the consumer

  datatype Handler = Unparseable | Succeeds | Throws(permanent: bool)

  /**
   * How one delivery goes: what the handler does, whether the follow-up publish is
   * confirmed (it may reach the broker without), whether the callback that reports the
   * retry or the giving up succeeds, and whether acknowledging works. Without `alive`
   * the process dies before it acknowledges, and the broker redelivers.
   */
  datatype Plan = Plan(handler: Handler, ackThrows: bool, copied: bool, confirmed: bool, callback: bool, alive: bool)

  predicate IsPermanent(plan: Plan) { plan.handler.Unparseable? || (plan.handler.Throws? && plan.handler.permanent) }

  /** Whether the follow-up of a failed delivery succeeded; an unparseable message has no callback. */
  predicate FollowedUp(plan: Plan) { plan.confirmed && (plan.handler.Unparseable? || plan.callback) }

  /** Handled and acknowledged, or handled by a process that died: no follow-up is sent. */
  predicate Quiet(plan: Plan) { plan.handler.Succeeds? && !(plan.alive && plan.ackThrows) }

  /** What a delivery comes to. */
  function Dispatched(delays: seq<nat>, s: State, c: nat, plan: Plan): State
    requires c in s.copies
  {
    var done := if plan.handler.Succeeds? then s.(handled := s.handled + {s.copies[c].message}) else s;
    if Quiet(plan) then Settled(done, c, plan.alive)
    else
      var sent := if plan.confirmed || plan.copied then Added(done, FollowUp(delays, s.copies[c], IsPermanent(plan))) else done;
      Settled(sent, c, FollowedUp(plan) && !plan.ackThrows && plan.alive)
  }

  /** The delivery is gone, or back in the work queue as it was. */
  function Settled(s: State, c: nat, acked: bool): State
    requires c in s.copies
  {
    if acked then s.(copies := s.copies - {c}) else Moved(s, c, Work)
  }

  class Consumer {
    var copies: map<nat, Delivery>
    var next: nat
    var published: set<nat>
    var handled: set<nat>
    const delays: seq<nat>

    constructor (delays: seq<nat>)
      ensures Snapshot() == EMPTY && this.delays == delays
    {
      this.delays := delays;
      copies, next, published, handled := map[], 0, {}, {};
    }

    ghost function Snapshot(): State
      reads this
    {
      State(copies, next, published, handled)
    }

    /** The retry publish and `#toDeadLetter`: one confirmed publish, or an exception. */
    method SendFollowUp(d: Delivery, plan: Plan) returns (ok: bool)
      modifies `copies, `next
      ensures ok == plan.confirmed
      ensures Snapshot() == if plan.confirmed || plan.copied then Added(old(Snapshot()), d) else old(Snapshot())
    {
      if plan.confirmed || plan.copied {
        copies := copies[next := d];
        next := next + 1;
      }
      return plan.confirmed;
    }

    method HandleFailure(d: Delivery, permanent: bool, plan: Plan) returns (ok: bool)
      modifies `copies, `next
      ensures ok == (plan.confirmed && plan.callback)
      ensures Snapshot() == if plan.confirmed || plan.copied then Added(old(Snapshot()), FollowUp(delays, d, permanent)) else old(Snapshot())
    {
      if !permanent && 1 <= d.attempt <= |delays| {
        ok := SendFollowUp(d.(attempt := d.attempt + 1, spot := RetryQueue(delays[d.attempt - 1])), plan);
      } else {
        ok := SendFollowUp(d.(spot := DeadLetter), plan);
      }
      ok := ok && plan.callback;
    }

    /** Acks after the follow-up succeeded; otherwise the message goes back to the work queue. */
    method Settle(c: nat, followedUp: bool, plan: Plan)
      requires c in copies
      modifies `copies
      ensures Snapshot() == Settled(old(Snapshot()), c, followedUp && !plan.ackThrows && plan.alive)
    {
      if followedUp && !plan.ackThrows && plan.alive {
        copies := copies - {c};
      } else {
        // nack, or the broker redelivers what a dead consumer left unacknowledged
        copies := copies[c := copies[c].(spot := Work)];
      }
    }

    method Dispatch(c: nat, plan: Plan)
      requires c in copies && copies[c].spot == Unacked(Handling) && c < next
      modifies this
      ensures Snapshot() == Dispatched(delays, old(Snapshot()), c, plan)
    {
      var d := copies[c];
      if plan.handler.Unparseable? {
        var sent := SendFollowUp(d.(spot := DeadLetter), plan);
        Settle(c, sent, plan);
        return;
      }
      if plan.handler.Succeeds? {
        handled := handled + {d.message};
        if !plan.alive {
          Settle(c, true, plan);
          return;
        }
        if !plan.ackThrows {
          copies := copies - {c};
          return;
        }
      }
      // an ack that throws lands in the same catch as a handler that throws
      var followedUp := HandleFailure(d, IsPermanent(plan), plan);
      Settle(c, followedUp, plan);
    }
  }

  // ---------------------------------------------------------------- the consumer runs the protocol

  /** The steps a delivery consists of. */
  function StepsOf(c: nat, plan: Plan): seq<Event> {
    (if plan.handler.Succeeds? then [Finish(c)] else []) +
    (if Quiet(plan) then [if plan.alive then Ack(c) else Requeue(c)]
     else (if plan.confirmed || plan.copied then [FailureOf(c, plan)] else []) +
          [if FollowedUp(plan) && !plan.ackThrows && plan.alive then Ack(c) else Requeue(c)])
  }

  /** The failure as the protocol has it: permanent if that is what the handler threw, or if there was nothing to hand to it. */
  function FailureOf(c: nat, plan: Plan): Event {
    match plan.handler
    case Unparseable => Fail(c, true, plan.confirmed)
    case Succeeds => Fail(c, false, plan.confirmed)
    case Throws(permanent) => Fail(c, permanent, plan.confirmed)
  }

  /** The states reached by `events` from `s`, one enabled step after another, end in `s'`. */
  ghost predicate Leads(delays: seq<nat>, s: State, events: seq<Event>, s': State)
    decreases |events|
  {
    if events == [] then s' == s else Enabled(s, events[0]) && Leads(delays, After(delays, s, events[0]), events[1..], s')
  }

  lemma LeadsOne(delays: seq<nat>, s: State, ev: Event)
    requires Enabled(s, ev)
    ensures Leads(delays, s, [ev], After(delays, s, ev))
  {
    assert [ev][1..] == [];
  }

  lemma LeadsMore(delays: seq<nat>, s: State, ev: Event, events: seq<Event>, s': State)
    requires Enabled(s, ev) && Leads(delays, After(delays, s, ev), events, s')
    ensures Leads(delays, s, [ev] + events, s')
  {
    assert ([ev] + events)[1..] == events;
  }

  /** From a copy that was handled or is being handled, the follow-up and the settling lead to the specified state. */
  lemma FailingSteps(delays: seq<nat>, s: State, s1: State, c: nat, plan: Plan)
    requires c in s.copies && c < s.next && s.copies[c].spot == Unacked(Handling) && !Quiet(plan)
    requires s1 == if plan.handler.Succeeds? then After(delays, s, Finish(c)) else s
    ensures var events := (if plan.confirmed || plan.copied then [FailureOf(c, plan)] else []) +
                          [if FollowedUp(plan) && !plan.ackThrows && plan.alive then Ack(c) else Requeue(c)];
            Leads(delays, s1, events, Dispatched(delays, s, c, plan))
  {
    var last := if FollowedUp(plan) && !plan.ackThrows && plan.alive then Ack(c) else Requeue(c);
    if plan.confirmed || plan.copied {
      var fail := FailureOf(c, plan);
      assert FollowUp(delays, s1.copies[c], IsPermanent(plan)) == FollowUp(delays, s.copies[c], IsPermanent(plan));
      var s2 := After(delays, s1, fail);
      SettledAfterFail(delays, s, s1, c, plan, s2);
      LeadsOne(delays, s2, last);
      LeadsMore(delays, s1, fail, [last], After(delays, s2, last));
    } else {
      assert After(delays, s1, last).copies == Dispatched(delays, s, c, plan).copies;
      LeadsOne(delays, s1, last);
      assert [] + [last] == [last];
    }
  }

  lemma SettledAfterFail(delays: seq<nat>, s: State, s1: State, c: nat, plan: Plan, s2: State)
    requires c in s.copies && c < s.next && s.copies[c].spot == Unacked(Handling) && !Quiet(plan) && (plan.confirmed || plan.copied)
    requires s1 == if plan.handler.Succeeds? then After(delays, s, Finish(c)) else s
    requires s2 == After(delays, s1, FailureOf(c, plan))
    ensures var last := if FollowedUp(plan) && !plan.ackThrows && plan.alive then Ack(c) else Requeue(c);
            Enabled(s2, last) && After(delays, s2, last) == Dispatched(delays, s, c, plan)
  {
    assert FollowUp(delays, s1.copies[c], IsPermanent(plan)) == FollowUp(delays, s.copies[c], IsPermanent(plan));
    var last := if FollowedUp(plan) && !plan.ackThrows && plan.alive then Ack(c) else Requeue(c);
    hide FollowUp;
    assert After(delays, s2, last).copies == Dispatched(delays, s, c, plan).copies;
  }

  /** Handling one delivery is a sequence of steps of the protocol, so what is proved of its runs holds of the consumer. */
  lemma DispatchIsSteps(delays: seq<nat>, s: State, c: nat, plan: Plan)
    requires c in s.copies && c < s.next && s.copies[c].spot == Unacked(Handling)
    ensures Leads(delays, s, StepsOf(c, plan), Dispatched(delays, s, c, plan))
  {
    var s1 := if plan.handler.Succeeds? then After(delays, s, Finish(c)) else s;
    var rest := if Quiet(plan) then [if plan.alive then Ack(c) else Requeue(c)]
                else (if plan.confirmed || plan.copied then [FailureOf(c, plan)] else []) +
                     [if FollowedUp(plan) && !plan.ackThrows && plan.alive then Ack(c) else Requeue(c)];
    if Quiet(plan) {
      assert After(delays, s1, rest[0]).copies == Dispatched(delays, s, c, plan).copies;
      LeadsOne(delays, s1, rest[0]);
    } else {
      FailingSteps(delays, s, s1, c, plan);
    }
    if plan.handler.Succeeds? {
      LeadsMore(delays, s, Finish(c), rest, Dispatched(delays, s, c, plan));
    } else {
      assert [] + rest == rest;
    }
  }

  // ---------------------------------------------------------------- where a failed delivery goes

  /** The copy that takes the place of a failed delivery, by what the handler threw. */
  predicate Replaces(delays: seq<nat>, d: Delivery, handler: Handler, next: Delivery) {
    next.message == d.message &&
    match handler
    case Unparseable => next.spot == DeadLetter && next.attempt == d.attempt
    case Throws(true) => next.spot == DeadLetter && next.attempt == d.attempt
    case _ =>
      if 1 <= d.attempt <= |delays| then next.spot == RetryQueue(delays[d.attempt - 1]) && next.attempt == d.attempt + 1
      else next.spot == DeadLetter && next.attempt == d.attempt
  }

  /**
   * What a delivery comes to, by what its handler did. It is gone exactly when it was
   * handled, or when its follow-up was confirmed and reported, and nothing died on the
   * way; otherwise it is back in the work queue as it was. A copy is added exactly when
   * something failed and the publish reached the broker, and it lies where the error
   * calls for: errors a retry cannot mend in the dead-letter queue, the others in the
   * retry queue of their attempt while there is one.
   */
  lemma DeliveryComesTo(delays: seq<nat>, s: State, c: nat, plan: Plan)
    requires c in s.copies && c < s.next && s.next !in s.copies
    ensures var d, s' := s.copies[c], Dispatched(delays, s, c, plan);
            s'.handled == (if plan.handler == Succeeds then s.handled + {d.message} else s.handled) &&
            s'.published == s.published &&
            (forall x :: x in s.copies && x != c ==> x in s'.copies && s'.copies[x] == s.copies[x]) &&
            (c in s'.copies ==> s'.copies[c] == d.(spot := Work)) &&
            (forall x :: x in s'.copies && x !in s.copies ==> x == s.next && Replaces(delays, d, plan.handler, s'.copies[x])) &&
            (c !in s'.copies <==> plan.alive && !plan.ackThrows && match plan.handler
               case Succeeds => true
               case Unparseable => plan.confirmed
               case Throws(_) => plan.confirmed && plan.callback) &&
            (s.next in s'.copies <==> (plan.confirmed || plan.copied) && (plan.handler == Succeeds ==> plan.alive && plan.ackThrows))
  {
  }
}
