/**
 * The integration worker (services/integration-worker/src/main.ts): claiming an
 * action with a lease, executing it, recording its output, and re-sending results.
 * Replicas interleave statement by statement and may die between any two.
 */
module Worker {
  import opened Base
  import B = Broker

  /** A row of `action_executions`. */
  datatype Entry = Entry(completed: bool, leaseUntil: Option<nat>, output: Option<Json>)

  /** ON CONFLICT DO UPDATE … WHERE status = 'IN_PROGRESS' AND lease_until < now(). */
  predicate Claimable(table: map<nat, Entry>, action: nat, now: nat) {
    action in table ==> !table[action].completed && table[action].leaseUntil.Some? && table[action].leaseUntil.value < now
  }

  /** A run of an action on a replica: executing until its lease ends, or done with a result to publish. */
  datatype Run = Executing(action: nat, deadline: nat) | Done(action: nat, output: Json)

  /** A published ActionCompleted. */
  datatype Completion = Completion(action: nat, output: Json)

  datatype State = State(now: nat, table: map<nat, Entry>, runs: map<nat, Run>, sent: set<Completion>)

  /** `r` names a run. */
  datatype Event =
    | Tick(elapsed: nat)
    | Claim(r: nat, action: nat)
    | Complete(r: nat, output: Json)
    | Send(r: nat)
    | Release(r: nat)
    | Resend(action: nat)
    | Crash(r: nat)

  predicate Enabled(s: State, ev: Event) {
    match ev
    case Tick(_) => true
    case Claim(r, a) => r !in s.runs && Claimable(s.table, a, s.now)
    case Complete(r, _) => r in s.runs && s.runs[r].Executing?
    case Send(r) => r in s.runs && s.runs[r].Done?
    case Release(r) => r in s.runs
    case Resend(a) => a in s.table && s.table[a].completed && s.table[a].output.Some?
    case Crash(r) => r in s.runs
  }

  function Without(runs: map<nat, Run>, r: nat): map<nat, Run> { runs - {r} }

  function After(lease: nat, s: State, ev: Event): State
    requires Enabled(s, ev)
  {
    match ev
    case Tick(d) => s.(now := s.now + d)
    case Claim(r, a) =>
      s.(table := s.table[a := Entry(false, Some(s.now + lease), if a in s.table then s.table[a].output else None)], runs := s.runs[r := Executing(a, s.now + lease)])
    case Complete(r, output) =>
      // recorded for whatever run holds the row by now
      s.(table := s.table[s.runs[r].action := Entry(true, None, Some(output))], runs := s.runs[r := Done(s.runs[r].action, output)])
    case Send(r) => s.(sent := s.sent + {Completion(s.runs[r].action, s.runs[r].output)}, runs := Without(s.runs, r))
    case Release(r) =>
      var a := s.runs[r].action;
      s.(table := if a in s.table then s.table[a := s.table[a].(leaseUntil := Some(s.now))] else s.table, runs := Without(s.runs, r))
    case Resend(a) => s.(sent := s.sent + {Completion(a, s.table[a].output.value)})
    case Crash(r) => s.(runs := Without(s.runs, r))
  }

  const EMPTY := State(0, map[], map[], {})

  predicate IsRun(lease: nat, states: seq<State>, events: seq<Event>) {
    |states| == |events| + 1 && states[0] == EMPTY &&
    forall k :: 0 <= k < |events| ==> Enabled(states[k], events[k]) && states[k + 1] == After(lease, states[k], events[k])
  }

  // ---------------------------------------------------------------- completed is for good

  predicate CompletedAt(s: State, action: nat) { action in s.table && s.table[action].completed }

  lemma CompletedStays(lease: nat, s: State, ev: Event, action: nat)
    requires CompletedAt(s, action) && Enabled(s, ev)
    ensures CompletedAt(After(lease, s, ev), action)
  {
  }

  lemma {:induction false} CompletedForGood(lease: nat, states: seq<State>, events: seq<Event>, i: nat, k: nat, action: nat)
    requires IsRun(lease, states, events) && i <= k < |states| && CompletedAt(states[i], action)
    ensures CompletedAt(states[k], action)
  {
    if i < k {
      CompletedForGood(lease, states, events, i, k - 1, action);
      CompletedStays(lease, states[k - 1], events[k - 1], action);
    }
  }

  /** Once an action is recorded as completed, no later claim of it succeeds. */
  lemma NoClaimAfterCompletion(lease: nat, states: seq<State>, events: seq<Event>, i: nat, k: nat, action: nat)
    requires IsRun(lease, states, events) && i <= k < |events| && CompletedAt(states[i], action)
    ensures !(events[k].Claim? && events[k].action == action)
  {
    CompletedForGood(lease, states, events, i, k, action);
    assert Enabled(states[k], events[k]);
  }

  // ---------------------------------------------------------------- one replica at a time

  /** No run executes beyond its lease. */
  predicate Prompt(s: State) { forall r :: r in s.runs && s.runs[r].Executing? ==> s.now <= s.runs[r].deadline }

  predicate Exclusive(s: State) {
    forall r, q :: r in s.runs && q in s.runs && r != q && s.runs[r].Executing? && s.runs[q].Executing? ==> s.runs[r].action != s.runs[q].action
  }

  predicate HoldsLease(s: State, run: Run)
    requires run.Executing?
  {
    run.action in s.table && s.table[run.action] == Entry(false, Some(run.deadline), s.table[run.action].output)
  }

  predicate Recorded(s: State, action: nat, output: Json) { CompletedAt(s, action) && s.table[action].output == Some(output) }

  predicate Inv(s: State) {
    Exclusive(s) &&
    (forall r :: r in s.runs && s.runs[r].Executing? ==> HoldsLease(s, s.runs[r])) &&
    (forall r :: r in s.runs && s.runs[r].Done? ==> Recorded(s, s.runs[r].action, s.runs[r].output)) &&
    (forall c :: c in s.sent ==> Recorded(s, c.action, c.output))
  }

  lemma ClaimKeeps(lease: nat, s: State, r: nat, a: nat)
    requires Inv(s) && Prompt(s) && Enabled(s, Claim(r, a))
    ensures Inv(After(lease, s, Claim(r, a)))
  {
    forall q | q in s.runs && s.runs[q].Executing? ensures s.runs[q].action != a { assert HoldsLease(s, s.runs[q]); }
    forall q | q in s.runs && s.runs[q].Done? ensures s.runs[q].action != a { assert Recorded(s, s.runs[q].action, s.runs[q].output); }
    forall c | c in s.sent ensures c.action != a { assert Recorded(s, c.action, c.output); }
  }

  lemma CompleteKeeps(lease: nat, s: State, r: nat, output: Json)
    requires Inv(s) && Enabled(s, Complete(r, output))
    ensures Inv(After(lease, s, Complete(r, output)))
  {
    var a := s.runs[r].action;
    assert HoldsLease(s, s.runs[r]);
    forall q | q in s.runs && s.runs[q].Done? ensures s.runs[q].action != a { assert Recorded(s, s.runs[q].action, s.runs[q].output); }
    forall c | c in s.sent ensures c.action != a { assert Recorded(s, c.action, c.output); }
  }

  lemma ReleaseKeeps(lease: nat, s: State, r: nat)
    requires Inv(s) && Enabled(s, Release(r))
    ensures Inv(After(lease, s, Release(r)))
  {
    var a := s.runs[r].action;
    var s' := After(lease, s, Release(r));
    forall q | q in s'.runs && s'.runs[q].Executing? ensures HoldsLease(s', s'.runs[q]) {
      assert HoldsLease(s, s.runs[q]);
      if s.runs[r].Done? { assert Recorded(s, a, s.runs[r].output); }
    }
    forall q | q in s'.runs && s'.runs[q].Done? ensures Recorded(s', s'.runs[q].action, s'.runs[q].output) { assert Recorded(s, s.runs[q].action, s.runs[q].output); }
    forall c | c in s'.sent ensures Recorded(s', c.action, c.output) { assert Recorded(s, c.action, c.output); }
  }

  lemma StepKeeps(lease: nat, s: State, ev: Event)
    requires Inv(s) && Prompt(s) && Enabled(s, ev)
    ensures Inv(After(lease, s, ev))
  {
    match ev
    case Claim(r, a) => ClaimKeeps(lease, s, r, a);
    case Complete(r, output) => CompleteKeeps(lease, s, r, output);
    case Release(r) => ReleaseKeeps(lease, s, r);
    case _ =>
  }

  lemma {:induction false} PromptRunKeeps(lease: nat, states: seq<State>, events: seq<Event>, k: nat)
    requires IsRun(lease, states, events) && k < |states| && forall j :: 0 <= j < k ==> Prompt(states[j])
    ensures Inv(states[k])
  {
    if k > 0 {
      PromptRunKeeps(lease, states, events, k - 1);
      StepKeeps(lease, states[k - 1], events[k - 1]);
    }
  }

  /**
   * If every claimed run settles before its lease ends, no two replicas ever execute
   * the same action at once, and every ActionCompleted of an action carries one output,
   * the recorded one.
   */
  lemma PromptRunsAreExclusive(lease: nat, states: seq<State>, events: seq<Event>, k: nat)
    requires IsRun(lease, states, events) && k < |states| && forall j :: 0 <= j < k ==> Prompt(states[j])
    ensures Exclusive(states[k])
    ensures forall c :: c in states[k].sent ==> Recorded(states[k], c.action, c.output)
    ensures forall c, d :: c in states[k].sent && d in states[k].sent && c.action == d.action ==> c == d
  {
    PromptRunKeeps(lease, states, events, k);
    assert forall c :: c in states[k].sent ==> Recorded(states[k], c.action, c.output);
  }

  // ---------------------------------------------------------------- and exactly then

  function RunAll(lease: nat, s: State, events: seq<Event>): Option<State>
    decreases |events|
  {
    if events == [] then Some(s)
    else if Enabled(s, events[0]) then RunAll(lease, After(lease, s, events[0]), events[1..])
    else None
  }

  lemma RunFirst(lease: nat, s: State, ev: Event, rest: seq<Event>)
    requires Enabled(s, ev)
    ensures RunAll(lease, s, [ev] + rest) == RunAll(lease, After(lease, s, ev), rest)
  {
    assert ([ev] + rest)[1..] == rest;
  }

  lemma FreshRun(runs: map<nat, Run>) returns (r: nat)
    ensures r !in runs
  {
    r := Above(runs.Keys);
  }

  lemma {:induction false} Above(names: set<nat>) returns (bound: nat)
    ensures forall n :: n in names ==> n < bound
  {
    bound := 0;
    if names != {} {
      var n :| n in names;
      var rest := Above(names - {n});
      assert forall m :: m in names ==> m == n || m in names - {n};
      bound := if n < rest then rest else n + 1;
    }
  }

  /** A run past its lease is open to be overtaken: the row it holds can be claimed. */
  lemma LateIsClaimable(s: State, q: nat, r: nat)
    requires Inv(s) && q in s.runs && s.runs[q].Executing? && s.runs[q].deadline < s.now && r !in s.runs
    ensures Enabled(s, Claim(r, s.runs[q].action))
  {
    assert HoldsLease(s, s.runs[q]);
  }

  /** Exclusion survives every claim that may come next if and only if no run is past its lease. */
  lemma ExclusiveExactlyWhenPrompt(lease: nat, s: State)
    requires Inv(s)
    ensures Prompt(s) <==> forall r, a :: Enabled(s, Claim(r, a)) ==> Exclusive(After(lease, s, Claim(r, a)))
  {
    if Prompt(s) {
      forall r, a | Enabled(s, Claim(r, a)) ensures Exclusive(After(lease, s, Claim(r, a))) { ClaimKeeps(lease, s, r, a); }
    } else {
      var q :| q in s.runs && s.runs[q].Executing? && s.runs[q].deadline < s.now;
      var r := FreshRun(s.runs);
      LateIsClaimable(s, q, r);
      Overtaken(lease, s, q, r);
    }
  }

  lemma Overtaken(lease: nat, s: State, q: nat, r: nat)
    requires q in s.runs && s.runs[q].Executing? && r !in s.runs && Enabled(s, Claim(r, s.runs[q].action))
    ensures var s1 := After(lease, s, Claim(r, s.runs[q].action));
            !Exclusive(s1) && q in s1.runs && s1.runs[q] == s.runs[q] && r in s1.runs && s1.runs[r] == Executing(s.runs[q].action, s.now + lease)
  {
    var s1 := After(lease, s, Claim(r, s.runs[q].action));
    assert s1.runs[q].Executing? && s1.runs[r].Executing? && s1.runs[q].action == s1.runs[r].action && q != r;
  }

  /** Both of two runs of one action may finish, each sending its own output. */
  lemma BothSend(lease: nat, s: State, q: nat, r: nat, x: Json, y: Json)
    requires q != r && q in s.runs && r in s.runs && s.runs[q].Executing? && s.runs[r].Executing? && s.runs[q].action == s.runs[r].action
    ensures var a := s.runs[q].action;
            var end := RunAll(lease, s, [Complete(q, x)] + ([Send(q)] + ([Complete(r, y)] + ([Send(r)] + []))));
            end.Some? && Completion(a, x) in end.value.sent && Completion(a, y) in end.value.sent && Recorded(end.value, a, y)
  {
    var s1 := After(lease, s, Complete(q, x));
    var s2 := After(lease, s1, Send(q));
    var s3 := After(lease, s2, Complete(r, y));
    RunFirst(lease, s, Complete(q, x), [Send(q)] + ([Complete(r, y)] + ([Send(r)] + [])));
    RunFirst(lease, s1, Send(q), [Complete(r, y)] + ([Send(r)] + []));
    RunFirst(lease, s2, Complete(r, y), [Send(r)] + []);
    RunFirst(lease, s3, Send(r), []);
  }

  /** From `s` some events lead to a state with two runs of one action executing. */
  predicate MayOverlap(lease: nat, s: State, events: seq<Event>) {
    RunAll(lease, s, events).Some? && !Exclusive(RunAll(lease, s, events).value)
  }

  /** From `s` the events lead to a state where both outputs were sent for one action. */
  ghost predicate MaySendBoth(lease: nat, s: State, events: seq<Event>, x: Json, y: Json) {
    RunAll(lease, s, events).Some? &&
    exists a :: Completion(a, x) in RunAll(lease, s, events).value.sent && Completion(a, y) in RunAll(lease, s, events).value.sent
  }

  predicate OneClaim(events: seq<Event>) { |events| == 1 && events[0].Claim? }

  /**
   * A run whose states so far were all prompt, at its last state: two replicas may
   * execute one action after one more claim if and only if a run there is past its
   * lease, and then any two outputs may both be sent for that action.
   */
  lemma ExclusionExactly(lease: nat, states: seq<State>, events: seq<Event>, x: Json, y: Json)
    requires IsRun(lease, states, events) && forall j :: 0 <= j < |events| ==> Prompt(states[j])
    ensures var s := states[|events|];
            Exclusive(s) && ((exists next :: OneClaim(next) && MayOverlap(lease, s, next)) <==> !Prompt(s)) &&
            (!Prompt(s) ==> exists next :: MaySendBoth(lease, s, next, x, y))
  {
    var s := states[|events|];
    PromptRunKeeps(lease, states, events, |events|);
    if Prompt(s) {
      forall next: seq<Event> | OneClaim(next) ensures !MayOverlap(lease, s, next) {
        assert next == [next[0]] + [];
        if Enabled(s, next[0]) {
          RunFirst(lease, s, next[0], []);
          ClaimKeeps(lease, s, next[0].r, next[0].action);
        }
      }
    } else {
      var q :| q in s.runs && s.runs[q].Executing? && s.runs[q].deadline < s.now;
      var r := FreshRun(s.runs);
      LateIsClaimable(s, q, r);
      LateOutcomes(lease, s, q, r, x, y);
    }
  }

  lemma LateOutcomes(lease: nat, s: State, q: nat, r: nat, x: Json, y: Json)
    requires q in s.runs && s.runs[q].Executing? && r !in s.runs && Enabled(s, Claim(r, s.runs[q].action))
    ensures exists next :: OneClaim(next) && MayOverlap(lease, s, next)
    ensures exists next :: MaySendBoth(lease, s, next, x, y)
  {
    var claim := Claim(r, s.runs[q].action);
    var s1 := After(lease, s, claim);
    Overtaken(lease, s, q, r);
    RunFirst(lease, s, claim, []);
    assert [claim] + [] == [claim];
    assert OneClaim([claim]) && MayOverlap(lease, s, [claim]);
    BothSend(lease, s1, q, r, x, y);
    var rest := [Complete(q, x)] + ([Send(q)] + ([Complete(r, y)] + ([Send(r)] + [])));
    RunFirst(lease, s, claim, rest);
    assert MaySendBoth(lease, s, [claim] + rest, x, y);
  }

  /** The smallest such run: one replica claims, its lease passes, another claims the same action. */
  function LateStates(lease: nat): (s: State) {
    State(lease + 1, map[7 := Entry(false, Some(lease + 1 + lease), None)], map[1 := Executing(7, lease), 2 := Executing(7, lease + 1 + lease)], {})
  }

  lemma LateRunIsOvertaken(lease: nat)
    ensures RunAll(lease, EMPTY, [Claim(1, 7)] + ([Tick(lease + 1)] + ([Claim(2, 7)] + []))) == Some(LateStates(lease))
    ensures !Prompt(LateStates(lease)) && !Exclusive(LateStates(lease))
  {
    var s1 := After(lease, EMPTY, Claim(1, 7));
    var s2 := After(lease, s1, Tick(lease + 1));
    RunFirst(lease, EMPTY, Claim(1, 7), [Tick(lease + 1)] + ([Claim(2, 7)] + []));
    RunFirst(lease, s1, Tick(lease + 1), [Claim(2, 7)] + []);
    assert s2 == State(lease + 1, map[7 := Entry(false, Some(lease), None)], map[1 := Executing(7, lease)], {});
    RunFirst(lease, s2, Claim(2, 7), []);
    assert After(lease, s2, Claim(2, 7)) == LateStates(lease);
    Overtaken(lease, s2, 1, 2);
  }

  /** From there both complete it, and two different results go out. */
  lemma LateRunsDisagree(lease: nat, x: Json, y: Json)
    requires x != y
    ensures var events := [Complete(1, x)] + ([Send(1)] + ([Complete(2, y)] + ([Send(2)] + [])));
            var end := RunAll(lease, LateStates(lease), events);
            end.Some? && Completion(7, x) in end.value.sent && Completion(7, y) in end.value.sent && Recorded(end.value, 7, y)
  {
    BothSend(lease, LateStates(lease), 1, 2, x, y);
  }

  /** The lease release is not tied to its holder: a late run that fails frees the action while another executes it. */
  lemma LateReleaseFreesOthers(lease: nat)
    ensures var end := RunAll(lease, LateStates(lease), [Release(1)] + ([Tick(1)] + ([Claim(3, 7)] + [])));
            end.Some? && 2 in end.value.runs && 3 in end.value.runs && end.value.runs[2].Executing? && end.value.runs[3].Executing? &&
            end.value.runs[2].action == end.value.runs[3].action && (lease > 0 ==> end.value.now <= end.value.runs[2].deadline)
  {
    var s := LateStates(lease);
    var s1 := After(lease, s, Release(1));
    var s2 := After(lease, s1, Tick(1));
    RunFirst(lease, s, Release(1), [Tick(1)] + ([Claim(3, 7)] + []));
    RunFirst(lease, s1, Tick(1), [Claim(3, 7)] + []);
    assert s2.table[7].leaseUntil == Some(lease + 1) && s2.now == lease + 2;
    RunFirst(lease, s2, Claim(3, 7), []);
  }

  // ---------------------------------------------------------------- lease and backoff

  predicate NoRunOf(s: State, action: nat) { forall r :: r in s.runs ==> s.runs[r].action != action }

  /** The row of the action is in progress and leased until `until`. */
  predicate LeasedUntil(s: State, action: nat, until: nat) {
    action in s.table && !s.table[action].completed && s.table[action].leaseUntil == Some(until)
  }

  predicate ClaimedBetween(events: seq<Event>, i: nat, k: nat, action: nat)
    requires i <= k <= |events|
  {
    exists j :: i <= j < k && events[j].Claim? && events[j].action == action
  }

  /** Abandoned by its holder, a row stays as it is until somebody claims it. */
  lemma {:induction false} AbandonedStays(lease: nat, states: seq<State>, events: seq<Event>, i: nat, k: nat, action: nat, until: nat)
    requires IsRun(lease, states, events) && i <= k <= |events| && NoRunOf(states[i], action) && LeasedUntil(states[i], action, until)
    requires !ClaimedBetween(events, i, k, action)
    ensures NoRunOf(states[k], action) && LeasedUntil(states[k], action, until)
  {
    if i < k {
      assert !ClaimedBetween(events, i, k - 1, action);
      AbandonedStays(lease, states, events, i, k - 1, action, until);
      assert Enabled(states[k - 1], events[k - 1]) && states[k] == After(lease, states[k - 1], events[k - 1]);
      assert !(events[k - 1].Claim? && events[k - 1].action == action);
    }
  }

  /** When the holder of an action dies in a prompt run, its row is left leased with no run of the action anywhere. */
  lemma CrashAbandons(lease: nat, states: seq<State>, events: seq<Event>, i: nat, r: nat)
    requires IsRun(lease, states, events) && i < |events| && forall j :: 0 <= j < i ==> Prompt(states[j])
    requires events[i] == Crash(r) && states[i].runs[r].Executing?
    ensures var run := states[i].runs[r];
            NoRunOf(states[i + 1], run.action) && LeasedUntil(states[i + 1], run.action, run.deadline)
  {
    PromptRunKeeps(lease, states, events, i);
    var s := states[i];
    assert HoldsLease(s, s.runs[r]);
    var left := states[i + 1].runs;
    forall q | q in left ensures left[q].action != s.runs[r].action {
      if s.runs[q].Done? { assert Recorded(s, s.runs[q].action, s.runs[q].output); }
    }
  }

  /** A delivery of the action's request finds nothing to do but to try again later. */
  predicate Busy(s: State, action: nat) { !Claimable(s.table, action, s.now) && !CompletedAt(s, action) }

  /**
   * The deliveries of one copy until it is given up, each a retry of the one before
   * as the broker makes it: the last one has no retry left.
   */
  predicate UntilGivenUp(delays: seq<nat>, copies: seq<B.Delivery>) {
    copies != [] && 1 <= copies[0].attempt &&
    (forall j :: 0 <= j < |copies| - 1 ==> RetryOf(delays, copies[j], copies[j + 1])) &&
    B.FollowUp(delays, copies[|copies| - 1], false).spot.DeadLetter?
  }

  predicate RetryOf(delays: seq<nat>, d: B.Delivery, next: B.Delivery) {
    var f := B.FollowUp(delays, d, false);
    f.spot.RetryQueue? && next.message == f.message && next.attempt == f.attempt
  }

  /** How long the broker holds a copy back before its next delivery. */
  function Backoff(delays: seq<nat>, d: B.Delivery): nat {
    var f := B.FollowUp(delays, d, false);
    if f.spot.RetryQueue? then f.spot.delay else 0
  }

  /** From attempt `a` there are as many tries as delays left, plus one, and the delays are `delays[a - 1..]`. */
  lemma {:induction false} TriesLeft(delays: seq<nat>, copies: seq<B.Delivery>, j: nat)
    requires UntilGivenUp(delays, copies) && j < |copies|
    ensures copies[j].attempt == copies[0].attempt + j
    ensures j < |copies| - 1 ==> copies[j].attempt <= |delays| && Backoff(delays, copies[j]) == delays[copies[0].attempt - 1 + j]
    ensures j == |copies| - 1 ==> copies[j].attempt > |delays|
  {
    if j > 0 {
      TriesLeft(delays, copies, j - 1);
      assert RetryOf(delays, copies[j - 1], copies[j]);
    }
    if j < |copies| - 1 { assert RetryOf(delays, copies[j], copies[j + 1]); }
  }

  /** The deliveries happen at these points of the run, none earlier than the broker's delay allows. */
  predicate Tried(delays: seq<nat>, copies: seq<B.Delivery>, states: seq<State>, at: seq<nat>, i: nat) {
    |at| == |copies| && (forall j :: 0 <= j < |at| ==> i <= at[j] < |states|) &&
    forall j :: 0 <= j < |at| - 1 ==> at[j] <= at[j + 1] && states[at[j + 1]].now >= states[at[j]].now + Backoff(delays, copies[j])
  }

  /** And none later. */
  predicate OnTime(delays: seq<nat>, copies: seq<B.Delivery>, states: seq<State>, at: seq<nat>)
    requires |at| == |copies| && forall j :: 0 <= j < |at| ==> at[j] < |states|
  {
    forall j :: 0 <= j < |at| - 1 ==> states[at[j + 1]].now == states[at[j]].now + Backoff(delays, copies[j])
  }

  function Sum(delays: seq<nat>): nat { if delays == [] then 0 else delays[0] + Sum(delays[1..]) }

  lemma {:induction false} SumSnoc(delays: seq<nat>, d: nat)
    ensures Sum(delays + [d]) == Sum(delays) + d
  {
    if delays != [] {
      SumSnoc(delays[1..], d);
      assert (delays + [d])[1..] == delays[1..] + [d];
    }
  }

  /** The time of the `j`-th try, by the delays of the attempts before it. */
  lemma {:induction false} TryTime(delays: seq<nat>, copies: seq<B.Delivery>, states: seq<State>, at: seq<nat>, i: nat, j: nat)
    requires UntilGivenUp(delays, copies) && Tried(delays, copies, states, at, i) && j < |at|
    ensures j > 0 ==> copies[0].attempt - 1 + j <= |delays|
    ensures j > 0 ==> states[at[j]].now >= states[at[0]].now + Sum(delays[copies[0].attempt - 1..copies[0].attempt - 1 + j])
    ensures j > 0 && OnTime(delays, copies, states, at) ==> states[at[j]].now == states[at[0]].now + Sum(delays[copies[0].attempt - 1..copies[0].attempt - 1 + j])
  {
    var a := copies[0].attempt;
    if j > 0 {
      TriesLeft(delays, copies, j - 1);
      TryTime(delays, copies, states, at, i, j - 1);
      SumSnoc(delays[a - 1..a - 1 + j - 1], delays[a - 1 + j - 1]);
      assert delays[a - 1..a - 1 + j] == delays[a - 1..a - 1 + j - 1] + [delays[a - 1 + j - 1]];
    }
  }

  /** The delays a copy has left from attempt `a` on. */
  function DelaysLeft(delays: seq<nat>, a: nat): seq<nat>
    requires 1 <= a
  {
    if a - 1 <= |delays| then delays[a - 1..] else []
  }

  lemma LastTryTime(delays: seq<nat>, copies: seq<B.Delivery>, states: seq<State>, at: seq<nat>, i: nat)
    requires UntilGivenUp(delays, copies) && Tried(delays, copies, states, at, i)
    ensures states[at[|at| - 1]].now >= states[at[0]].now + Sum(DelaysLeft(delays, copies[0].attempt))
    ensures OnTime(delays, copies, states, at) ==> states[at[|at| - 1]].now == states[at[0]].now + Sum(DelaysLeft(delays, copies[0].attempt))
  {
    var a, last := copies[0].attempt, |at| - 1;
    TriesLeft(delays, copies, last);
    TryTime(delays, copies, states, at, i, last);
    if last > 0 {
      TriesLeft(delays, copies, last - 1);
      assert DelaysLeft(delays, a) == delays[a - 1..a - 1 + last];
    } else {
      assert DelaysLeft(delays, a) == [];
    }
  }

  /**
   * A holder died at event `i`. A copy of the request that is delivered from then on,
   * first with attempt number a, finds the action claimable, completed or already taken
   * over before it is given up, provided the delays from a on outlast the lease.
   */
  lemma TakenOverBeforeGivingUp(lease: nat, delays: seq<nat>, states: seq<State>, events: seq<Event>, i: nat, r: nat, copies: seq<B.Delivery>, at: seq<nat>)
    requires IsRun(lease, states, events) && i < |events| && forall j :: 0 <= j < i ==> Prompt(states[j])
    requires events[i] == Crash(r) && states[i].runs[r].Executing?
    requires UntilGivenUp(delays, copies) && Tried(delays, copies, states, at, i + 1)
    requires states[i].runs[r].deadline < states[at[0]].now + Sum(DelaysLeft(delays, copies[0].attempt))
    ensures var last := at[|at| - 1];
            ClaimedBetween(events, i + 1, last, states[i].runs[r].action) || !Busy(states[last], states[i].runs[r].action)
  {
    var action, until, last := states[i].runs[r].action, states[i].runs[r].deadline, at[|at| - 1];
    CrashAbandons(lease, states, events, i, r);
    LastTryTime(delays, copies, states, at, i + 1);
    if !ClaimedBetween(events, i + 1, last, action) { AbandonedStays(lease, states, events, i + 1, last, action, until); }
  }

  /**
   * The condition is exact. If nobody else claims the action and the broker delivers on
   * time, every try finds the row busy, and the copy is given up, if and only if the
   * remaining delays do not outlast the lease; equality does not suffice.
   */
  lemma GivenUpExactly(lease: nat, delays: seq<nat>, states: seq<State>, events: seq<Event>, i: nat, r: nat, copies: seq<B.Delivery>, at: seq<nat>)
    requires IsRun(lease, states, events) && i < |events| && forall j :: 0 <= j < i ==> Prompt(states[j])
    requires events[i] == Crash(r) && states[i].runs[r].Executing?
    requires UntilGivenUp(delays, copies) && Tried(delays, copies, states, at, i + 1) && OnTime(delays, copies, states, at)
    requires !ClaimedBetween(events, i + 1, at[|at| - 1], states[i].runs[r].action)
    ensures (forall j :: 0 <= j < |at| ==> Busy(states[at[j]], states[i].runs[r].action)) <==>
            states[at[0]].now + Sum(DelaysLeft(delays, copies[0].attempt)) <= states[i].runs[r].deadline
  {
    var action, until, last := states[i].runs[r].action, states[i].runs[r].deadline, |at| - 1;
    CrashAbandons(lease, states, events, i, r);
    LastTryTime(delays, copies, states, at, i + 1);
    forall j | 0 <= j < |at| ensures Busy(states[at[j]], action) <==> states[at[j]].now <= until {
      TriesInOrder(delays, copies, states, at, i + 1, j, last);
      assert !ClaimedBetween(events, i + 1, at[j], action);
      AbandonedStays(lease, states, events, i + 1, at[j], action, until);
    }
    forall j | 0 <= j < |at| ensures states[at[j]].now <= states[at[last]].now { TriesInOrder(delays, copies, states, at, i + 1, j, last); }
  }

  lemma {:induction false} TriesInOrder(delays: seq<nat>, copies: seq<B.Delivery>, states: seq<State>, at: seq<nat>, i: nat, j: nat, k: nat)
    requires Tried(delays, copies, states, at, i) && j <= k < |at|
    ensures at[j] <= at[k] && states[at[j]].now <= states[at[k]].now
  {
    if j < k { TriesInOrder(delays, copies, states, at, i, j, k - 1); }
  }

  const DEFAULT_LEASE: nat := 60_000
  const DEFAULT_DELAYS: seq<nat> := [1_000, 5_000, 15_000]

  /**
   * The defaults do not meet the condition: a first delivery less than 39 s after the
   * dead holder claimed is given up while the lease still runs.
   */
  lemma DefaultsGiveUpEarly(states: seq<State>, events: seq<Event>, i: nat, r: nat, copies: seq<B.Delivery>, at: seq<nat>, claimed: nat)
    requires IsRun(DEFAULT_LEASE, states, events) && i < |events| && forall j :: 0 <= j < i ==> Prompt(states[j])
    requires events[i] == Crash(r) && states[i].runs[r].Executing? && states[i].runs[r].deadline == claimed + DEFAULT_LEASE
    requires UntilGivenUp(DEFAULT_DELAYS, copies) && copies[0].attempt == 1
    requires Tried(DEFAULT_DELAYS, copies, states, at, i + 1) && OnTime(DEFAULT_DELAYS, copies, states, at)
    requires !ClaimedBetween(events, i + 1, at[|at| - 1], states[i].runs[r].action)
    ensures (forall j :: 0 <= j < |at| ==> Busy(states[at[j]], states[i].runs[r].action)) <==> states[at[0]].now <= claimed + 39_000
  {
    hide IsRun, Prompt, Tried, OnTime, ClaimedBetween, Busy;
    assert DEFAULT_DELAYS[0..] == DEFAULT_DELAYS && DEFAULT_DELAYS[1..] == [5_000, 15_000] && [5_000, 15_000][1..] == [15_000] && [15_000][1..] == [];
    assert Sum([15_000]) == 15_000 && Sum([5_000, 15_000]) == 20_000;
    assert Sum(DEFAULT_DELAYS) == 21_000;
    GivenUpExactly(DEFAULT_LEASE, DEFAULT_DELAYS, states, events, i, r, copies, at);
  }

  function Abandoned(now: nat): State { State(now, map[7 := Entry(false, Some(DEFAULT_LEASE), None)], map[], {}) }

  const ABANDONED_EVENTS: seq<Event> := [Claim(1, 7), Crash(1), Tick(1_000), Tick(5_000), Tick(15_000)]

  function AbandonedStates(): seq<State> {
    [EMPTY, After(DEFAULT_LEASE, EMPTY, Claim(1, 7)), Abandoned(0), Abandoned(1_000), Abandoned(6_000), Abandoned(21_000)]
  }

  function FourCopies(): seq<B.Delivery> {
    [B.Delivery(0, 1, B.Work), B.Delivery(0, 2, B.Work), B.Delivery(0, 3, B.Work), B.Delivery(0, 4, B.Work)]
  }

  lemma AbandonedRun()
    ensures IsRun(DEFAULT_LEASE, AbandonedStates(), ABANDONED_EVENTS)
  {
    assert After(DEFAULT_LEASE, After(DEFAULT_LEASE, EMPTY, Claim(1, 7)), Crash(1)) == Abandoned(0);
  }

  lemma FourTries()
    ensures UntilGivenUp(DEFAULT_DELAYS, FourCopies())
    ensures Backoff(DEFAULT_DELAYS, FourCopies()[0]) == 1_000 && Backoff(DEFAULT_DELAYS, FourCopies()[1]) == 5_000 && Backoff(DEFAULT_DELAYS, FourCopies()[2]) == 15_000
  {
  }

  /** Such a run with the defaults: claimed and abandoned at once, delivered at once, given up 21 s later. */
  lemma GivenUpByDefault()
    ensures IsRun(DEFAULT_LEASE, AbandonedStates(), ABANDONED_EVENTS) && UntilGivenUp(DEFAULT_DELAYS, FourCopies())
    ensures Tried(DEFAULT_DELAYS, FourCopies(), AbandonedStates(), [2, 3, 4, 5], 2) && OnTime(DEFAULT_DELAYS, FourCopies(), AbandonedStates(), [2, 3, 4, 5])
    ensures forall j :: 2 <= j < 6 ==> Busy(AbandonedStates()[j], 7)
  {
    hide IsRun, UntilGivenUp, Backoff, After;
    AbandonedRun();
    FourTries();
    assert forall j :: 2 <= j < 6 ==> AbandonedStates()[j] == Abandoned(AbandonedStates()[j].now);
  }

  // ---------------------------------------------------------------- the handler

  datatype Claimed = Won | AlreadyCompleted(output: Option<Json>) | Busy

  /** How a run goes: the result of executing the action, and whether its result could be published. */
  datatype Execution = Execution(output: Option<Json>, published: bool)

  datatype Ending = Acknowledged | Thrown

  predicate Publishes(execution: Execution) { execution.output.Some? && execution.published }

  /** The claim table after one request was handled, by its clock readings at the claim and at a release. */
  function TableAfter(table: map<nat, Entry>, action: nat, claimAt: nat, releaseAt: nat, execution: Execution): map<nat, Entry> {
    if !Claimable(table, action, claimAt) then table
    else if execution.output.Some? then table[action := Entry(true, if execution.published then None else Some(releaseAt), execution.output)]
    else table[action := Entry(false, Some(releaseAt), if action in table then table[action].output else None)]
  }

  /** What was published after that: the new output, or the recorded one again. */
  function SentAfter(table: map<nat, Entry>, sent: set<Completion>, action: nat, claimAt: nat, execution: Execution): set<Completion> {
    if Claimable(table, action, claimAt) then
      if Publishes(execution) then sent + {Completion(action, execution.output.value)} else sent
    else if action in table && table[action].completed && table[action].output.Some? && execution.published then
      sent + {Completion(action, table[action].output.value)}
    else sent
  }

  class IntegrationWorker {
    var table: map<nat, Entry>
    var sent: set<Completion>
    const lease: nat

    constructor (lease: nat)
      ensures table == map[] && sent == {} && this.lease == lease
    {
      this.lease := lease;
      table, sent := map[], {};
    }

    method ClaimAction(action: nat, now: nat) returns (claimed: Claimed)
      modifies `table
      ensures claimed.Won? <==> Claimable(old(table), action, now)
      ensures claimed.AlreadyCompleted? <==> action in old(table) && old(table)[action].completed
      ensures claimed.AlreadyCompleted? ==> claimed.output == old(table)[action].output
      ensures table == if claimed.Won? then old(table)[action := Entry(false, Some(now + lease), if action in old(table) then old(table)[action].output else None)] else old(table)
    {
      if action !in table {
        table := table[action := Entry(false, Some(now + lease), None)];
        return Won;
      }
      var entry := table[action];
      if !entry.completed && entry.leaseUntil.Some? && entry.leaseUntil.value < now {
        table := table[action := entry.(leaseUntil := Some(now + lease))];
        return Won;
      }
      return if entry.completed then AlreadyCompleted(entry.output) else Busy;
    }

    /** The consume handler, with the clock readings of its claim and of a possible release. */
    method HandleRequest(action: nat, claimAt: nat, releaseAt: nat, execution: Execution) returns (ending: Ending)
      modifies `table, `sent
      ensures table == TableAfter(old(table), action, claimAt, releaseAt, execution)
      ensures sent == SentAfter(old(table), old(sent), action, claimAt, execution)
      ensures ending.Acknowledged? <==>
        if Claimable(old(table), action, claimAt) then Publishes(execution)
        else action in old(table) && old(table)[action].completed && execution.published
    {
      var claimed := ClaimAction(action, claimAt);
      match claimed {
        case AlreadyCompleted(output) =>
          if !execution.published { return Thrown; }
          if output.Some? { sent := sent + {Completion(action, output.value)}; }
          return Acknowledged;
        case Busy =>
          return Thrown;
        case Won =>
      }
      if execution.output.Some? {
        table := table[action := Entry(true, None, execution.output)];
        if execution.published {
          sent := sent + {Completion(action, execution.output.value)};
          return Acknowledged;
        }
      }
      // release the lease so that a retry may claim it again
      table := table[action := table[action].(leaseUntil := Some(releaseAt))];
      return Thrown;
    }
  }

  /** One handling of a request as steps of the claim machine: whichever way the claim and the execution go. */
  function StepsOf(s: State, r: nat, action: nat, releaseAt: nat, execution: Execution): seq<Event>
    requires releaseAt >= s.now
  {
    var release := [Tick(releaseAt - s.now)] + ([Release(r)] + []);
    if Claimable(s.table, action, s.now) then
      [Claim(r, action)] +
        if execution.output.Some? then [Complete(r, execution.output.value)] + (if execution.published then [Send(r)] + [] else release) else release
    else if CompletedAt(s, action) && s.table[action].output.Some? && execution.published then [Resend(action)] + []
    else []
  }

  /**
   * Undisturbed, the handler of a request is those steps, all of them enabled: they
   * leave the table and the messages that `HandleRequest` leaves, and no run behind.
   */
  lemma HandlingIsSteps(lease: nat, s: State, r: nat, action: nat, releaseAt: nat, execution: Execution)
    requires r !in s.runs && releaseAt >= s.now
    ensures var end := RunAll(lease, s, StepsOf(s, r, action, releaseAt, execution));
            end.Some? && end.value.runs == s.runs &&
            end.value.table == TableAfter(s.table, action, s.now, releaseAt, execution) &&
            end.value.sent == SentAfter(s.table, s.sent, action, s.now, execution)
  {
    if Claimable(s.table, action, s.now) {
      var s1 := After(lease, s, Claim(r, action));
      var steps := StepsOf(s, r, action, releaseAt, execution);
      assert steps == [Claim(r, action)] + steps[1..];
      RunFirst(lease, s, Claim(r, action), steps[1..]);
      if execution.output.Some? {
        assert steps[1..] == CompletionSteps(s1, r, releaseAt, execution);
        CompletingIsSteps(lease, s1, r, releaseAt, execution);
      } else {
        assert steps[1..] == [Tick(releaseAt - s.now)] + ([Release(r)] + []);
        ReleaseSteps(lease, s1, r, releaseAt);
      }
      assert Without(s1.runs, r) == s.runs;
    } else if CompletedAt(s, action) && s.table[action].output.Some? && execution.published {
      RunFirst(lease, s, Resend(action), []);
    }
  }

  function CompletionSteps(s: State, r: nat, releaseAt: nat, execution: Execution): seq<Event>
    requires execution.output.Some? && releaseAt >= s.now
  {
    [Complete(r, execution.output.value)] + if execution.published then [Send(r)] + [] else [Tick(releaseAt - s.now)] + ([Release(r)] + [])
  }

  /** The action succeeded: recorded, then published, or released when it could not be. */
  lemma CompletingIsSteps(lease: nat, s: State, r: nat, releaseAt: nat, execution: Execution)
    requires r in s.runs && s.runs[r].Executing? && execution.output.Some? && releaseAt >= s.now
    ensures var a := s.runs[r].action;
            var end := RunAll(lease, s, CompletionSteps(s, r, releaseAt, execution));
            end.Some? && end.value.runs == Without(s.runs, r) &&
            end.value.table == s.table[a := Entry(true, if execution.published then None else Some(releaseAt), execution.output)] &&
            end.value.sent == s.sent + if execution.published then {Completion(a, execution.output.value)} else {}
  {
    hide RunAll;
    var complete := Complete(r, execution.output.value);
    var s1 := After(lease, s, complete);
    assert Without(s1.runs, r) == Without(s.runs, r);
    if execution.published {
      RunFirst(lease, s, complete, [Send(r)] + []);
      RunFirst(lease, s1, Send(r), []);
      RunNone(lease, After(lease, s1, Send(r)));
    } else {
      RunFirst(lease, s, complete, [Tick(releaseAt - s.now)] + ([Release(r)] + []));
      ReleaseSteps(lease, s1, r, releaseAt);
    }
  }

  lemma RunNone(lease: nat, s: State)
    ensures RunAll(lease, s, []) == Some(s)
  {
  }

  lemma ReleaseSteps(lease: nat, s: State, r: nat, releaseAt: nat)
    requires r in s.runs && releaseAt >= s.now && s.runs[r].action in s.table
    ensures var a := s.runs[r].action;
            RunAll(lease, s, [Tick(releaseAt - s.now)] + ([Release(r)] + [])) ==
            Some(State(releaseAt, s.table[a := s.table[a].(leaseUntil := Some(releaseAt))], Without(s.runs, r), s.sent))
  {
    var s1 := After(lease, s, Tick(releaseAt - s.now));
    RunFirst(lease, s, Tick(releaseAt - s.now), [Release(r)] + []);
    RunFirst(lease, s1, Release(r), []);
  }
}
