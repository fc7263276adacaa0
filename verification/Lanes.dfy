/**
 * Step lanes of the routine editor (web/src/pages/RoutineEditor.tsx): actions
 * bucketed by step, and the reorderings the user can make.
 */
module Lanes {
  import opened Base

  datatype Action = Action(uid: nat, step: int, content: string)

  type Lane = seq<Action>

  // ---------------------------------------------------------------- the steps in use

  predicate UsesStep(actions: seq<Action>, step: int) { exists i :: 0 <= i < |actions| && actions[i].step == step }

  lemma UsesStepSnoc(front: seq<Action>, last: Action, step: int)
    ensures UsesStep(front + [last], step) <==> UsesStep(front, step) || last.step == step
  {
    var actions := front + [last];
    if UsesStep(front, step) { var i :| 0 <= i < |front| && front[i].step == step; assert actions[i].step == step; }
    if last.step == step { assert actions[|front|].step == step; }
  }

  /** The distinct steps, ascending. */
  function StepsOf(actions: seq<Action>): (steps: seq<int>)
    ensures Ascending(steps) && forall s :: s in steps <==> UsesStep(actions, s)
  {
    if actions == [] then [] else
      var front, last := actions[..|actions| - 1], actions[|actions| - 1];
      assert actions == front + [last];
      assert forall s :: UsesStep(actions, s) <==> UsesStep(front, s) || last.step == s by {
        forall s ensures UsesStep(front + [last], s) <==> UsesStep(front, s) || last.step == s { UsesStepSnoc(front, last, s); }
      }
      InsertAscending(StepsOf(front), last.step)
  }

  lemma HasMember(steps: seq<int>)
    ensures steps != [] ==> steps[0] in steps
  {
  }

  lemma LastIsLargest(a: seq<int>, s: int)
    requires Ascending(a) && s in a
    ensures s <= a[|a| - 1] && (s in a[..|a| - 1] <==> s != a[|a| - 1])
  {
    var front := a[..|a| - 1];
    var i :| 0 <= i < |a| && a[i] == s;
    if s in front { var j :| 0 <= j < |front| && front[j] == s; assert a[j] == s; }
    if s != a[|a| - 1] { assert front[i] == s; }
  }

  lemma LastsEqual(a: seq<int>, b: seq<int>)
    requires Ascending(a) && Ascending(b) && a != [] && b != [] && forall s :: s in a <==> s in b
    ensures a[|a| - 1] == b[|b| - 1]
  {
    assert a[|a| - 1] in a && b[|b| - 1] in b;
    LastIsLargest(a, b[|b| - 1]);
    LastIsLargest(b, a[|a| - 1]);
  }

  /** An ascending sequence is determined by its members. */
  lemma {:induction false} AscendingUnique(a: seq<int>, b: seq<int>)
    requires Ascending(a) && Ascending(b) && forall s :: s in a <==> s in b
    ensures a == b
  {
    HasMember(a);
    HasMember(b);
    if a != [] && b != [] {
      LastsEqual(a, b);
      var a', b' := a[..|a| - 1], b[..|b| - 1];
      forall s ensures s in a' <==> s in b' {
        FrontMember(a, s);
        FrontMember(b, s);
      }
      AscendingUnique(a', b');
      assert a == a' + [a[|a| - 1]];
    }
  }

  lemma FrontMember(a: seq<int>, s: int)
    requires Ascending(a) && a != []
    ensures s in a[..|a| - 1] <==> s in a && s != a[|a| - 1]
  {
    var front := a[..|a| - 1];
    assert a == front + [a[|a| - 1]];
    if s in a { LastIsLargest(a, s); }
  }

  // ---------------------------------------------------------------- lanes

  function AtStep(actions: seq<Action>, step: int): Lane {
    if actions == [] then [] else
      var front, last := AtStep(actions[..|actions| - 1], step), actions[|actions| - 1];
      if last.step == step then front + [last] else front
  }

  /** `toLanes`: one lane per step, in step order. */
  function ToLanes(actions: seq<Action>): (lanes: seq<Lane>)
    ensures |lanes| == |StepsOf(actions)|
  {
    seq(|StepsOf(actions)|, i requires 0 <= i < |StepsOf(actions)| => AtStep(actions, StepsOf(actions)[i]))
  }

  function NonEmpty(lanes: seq<Lane>): (kept: seq<Lane>)
    ensures forall i :: 0 <= i < |kept| ==> kept[i] != []
    ensures (forall i :: 0 <= i < |lanes| ==> lanes[i] != []) ==> kept == lanes
  {
    if lanes == [] then [] else
      var front, last := NonEmpty(lanes[..|lanes| - 1]), lanes[|lanes| - 1];
      if last != [] then front + [last] else front
  }

  function WithStep(lane: Lane, step: int): (r: Lane)
    ensures |r| == |lane| && forall i :: 0 <= i < |lane| ==> r[i] == lane[i].(step := step)
  {
    seq(|lane|, i requires 0 <= i < |lane| => lane[i].(step := step))
  }

  /** Lanes one after another, numbered from 1. */
  function Flatten(lanes: seq<Lane>): seq<Action> {
    if lanes == [] then [] else Flatten(lanes[..|lanes| - 1]) + WithStep(lanes[|lanes| - 1], |lanes|)
  }

  /** `fromLanes`. */
  function FromLanes(lanes: seq<Lane>): seq<Action> { Flatten(NonEmpty(lanes)) }

  /** Lanes with their steps renumbered 1..n. */
  function Renumbered(lanes: seq<Lane>): (r: seq<Lane>)
    ensures |r| == |lanes|
  {
    seq(|lanes|, i requires 0 <= i < |lanes| => WithStep(lanes[i], i + 1))
  }

  /** 1..n. */
  function UpTo(n: nat): (steps: seq<int>)
    ensures |steps| == n && Ascending(steps) && (forall s :: s in steps <==> 1 <= s <= n) && forall i :: 0 <= i < n ==> steps[i] == i + 1
  {
    if n == 0 then [] else UpTo(n - 1) + [n]
  }

  lemma {:induction false} AtStepConcat(a: seq<Action>, b: seq<Action>, step: int)
    ensures AtStep(a + b, step) == AtStep(a, step) + AtStep(b, step)
  {
    if b == [] { assert a + b == a; } else {
      assert (a + b)[..|a + b| - 1] == a + b[..|b| - 1];
      AtStepConcat(a, b[..|b| - 1], step);
    }
  }

  lemma {:induction false} AtOwnStep(lane: Lane, own: int, step: int)
    requires forall i :: 0 <= i < |lane| ==> lane[i].step == own
    ensures AtStep(lane, step) == if step == own then lane else []
  {
    if lane != [] {
      AtOwnStep(lane[..|lane| - 1], own, step);
      assert lane == lane[..|lane| - 1] + [lane[|lane| - 1]];
    }
  }

  lemma {:induction false} FlattenAtStep(lanes: seq<Lane>, step: int)
    ensures AtStep(Flatten(lanes), step) == if 1 <= step <= |lanes| then WithStep(lanes[step - 1], step) else []
  {
    if lanes != [] {
      hide AtStep, WithStep;
      var front, last := lanes[..|lanes| - 1], WithStep(lanes[|lanes| - 1], |lanes|);
      FlattenAtStep(front, step);
      AtStepConcat(Flatten(front), last, step);
      AtOwnStep(last, |lanes|, step);
      if step == |lanes| { assert AtStep(Flatten(front), step) + last == last; }
      else { assert AtStep(Flatten(front), step) + [] == AtStep(Flatten(front), step); }
    }
  }

  lemma {:induction false} AtStepFinds(actions: seq<Action>, step: int)
    ensures AtStep(actions, step) != [] <==> UsesStep(actions, step)
    ensures forall i :: 0 <= i < |AtStep(actions, step)| ==> AtStep(actions, step)[i].step == step
  {
    if actions != [] {
      var front := actions[..|actions| - 1];
      AtStepFinds(front, step);
      UsesStepSnoc(front, actions[|actions| - 1], step);
      assert actions == front + [actions[|actions| - 1]];
      if actions[|actions| - 1].step == step { assert AtStep(actions, step) == AtStep(front, step) + [actions[|actions| - 1]]; }
    }
  }

  /** Flattened lanes use exactly the steps 1..n: no gaps. */
  lemma StepsContiguous(lanes: seq<Lane>)
    ensures StepsOf(FromLanes(lanes)) == UpTo(|NonEmpty(lanes)|)
  {
    var kept := NonEmpty(lanes);
    var actions := Flatten(kept);
    forall s ensures s in StepsOf(actions) <==> s in UpTo(|kept|) {
      AtStepFinds(actions, s);
      FlattenAtStep(kept, s);
    }
    AscendingUnique(StepsOf(actions), UpTo(|kept|));
  }

  /** Reading the lanes back gives the non-empty lanes, up to step numbers. */
  lemma LanesRoundTrip(lanes: seq<Lane>)
    ensures ToLanes(FromLanes(lanes)) == Renumbered(NonEmpty(lanes))
  {
    hide NonEmpty, StepsOf, AtStep, Flatten;
    var kept := NonEmpty(lanes);
    StepsContiguous(lanes);
    forall i | 0 <= i < |kept| ensures ToLanes(FromLanes(lanes))[i] == Renumbered(kept)[i] {
      FlattenAtStep(kept, i + 1);
      assert UpTo(|kept|)[i] == i + 1;
    }
  }

  // ---------------------------------------------------------------- nothing is lost or invented

  function Unstepped(action: Action): Action { action.(step := 0) }

  /** The actions as a bag, steps aside. */
  function Bag(actions: seq<Action>): multiset<Action> {
    if actions == [] then multiset{} else Bag(actions[..|actions| - 1]) + multiset{Unstepped(actions[|actions| - 1])}
  }

  function LanesBag(lanes: seq<Lane>): multiset<Action> {
    if lanes == [] then multiset{} else LanesBag(lanes[..|lanes| - 1]) + Bag(lanes[|lanes| - 1])
  }

  lemma {:induction false} BagConcat(a: seq<Action>, b: seq<Action>)
    ensures Bag(a + b) == Bag(a) + Bag(b)
  {
    if b == [] { assert a + b == a; } else {
      assert (a + b)[..|a + b| - 1] == a + b[..|b| - 1];
      BagConcat(a, b[..|b| - 1]);
    }
  }

  lemma {:induction false} LanesBagConcat(a: seq<Lane>, b: seq<Lane>)
    ensures LanesBag(a + b) == LanesBag(a) + LanesBag(b)
  {
    if b == [] { assert a + b == a; } else {
      assert (a + b)[..|a + b| - 1] == a + b[..|b| - 1];
      LanesBagConcat(a, b[..|b| - 1]);
    }
  }

  lemma {:induction false} BagWithStep(lane: Lane, step: int)
    ensures Bag(WithStep(lane, step)) == Bag(lane)
  {
    if lane != [] {
      BagWithStep(lane[..|lane| - 1], step);
      assert WithStep(lane, step)[..|lane| - 1] == WithStep(lane[..|lane| - 1], step);
    }
  }

  lemma {:induction false} FlattenBag(lanes: seq<Lane>)
    ensures Bag(Flatten(lanes)) == LanesBag(lanes)
  {
    if lanes != [] {
      FlattenBag(lanes[..|lanes| - 1]);
      BagConcat(Flatten(lanes[..|lanes| - 1]), WithStep(lanes[|lanes| - 1], |lanes|));
      BagWithStep(lanes[|lanes| - 1], |lanes|);
    }
  }

  lemma {:induction false} NonEmptyBag(lanes: seq<Lane>)
    ensures LanesBag(NonEmpty(lanes)) == LanesBag(lanes)
  {
    if lanes != [] {
      NonEmptyBag(lanes[..|lanes| - 1]);
      LanesBagConcat(NonEmpty(lanes[..|lanes| - 1]), [lanes[|lanes| - 1]]);
    }
  }

  /** Actions whose step is among the given ones. */
  function Within(actions: seq<Action>, steps: set<int>): seq<Action> {
    if actions == [] then [] else
      var front, last := Within(actions[..|actions| - 1], steps), actions[|actions| - 1];
      if last.step in steps then front + [last] else front
  }

  lemma {:induction false} WithinGrows(actions: seq<Action>, steps: set<int>, step: int)
    requires step !in steps
    ensures Bag(Within(actions, steps + {step})) == Bag(Within(actions, steps)) + Bag(AtStep(actions, step))
  {
    if actions == [] {
      BagNone();
    } else {
      hide Bag;
      var front, last := actions[..|actions| - 1], actions[|actions| - 1];
      WithinGrows(front, steps, step);
      BagSnoc(Within(front, steps + {step}), last);
      BagSnoc(Within(front, steps), last);
      BagSnoc(AtStep(front, step), last);
    }
  }

  lemma BagNone()
    ensures Bag([]) == multiset{}
  {
  }

  lemma BagSnoc(actions: seq<Action>, action: Action)
    ensures Bag(actions + [action]) == Bag(actions) + multiset{Unstepped(action)}
  {
    assert (actions + [action])[..|actions|] == actions;
  }

  lemma {:induction false} WithinAll(actions: seq<Action>, steps: set<int>)
    requires forall i :: 0 <= i < |actions| ==> actions[i].step in steps
    ensures Within(actions, steps) == actions
  {
    if actions != [] { WithinAll(actions[..|actions| - 1], steps); }
  }

  lemma {:induction false} WithinNone(actions: seq<Action>)
    ensures Within(actions, {}) == []
  {
    if actions != [] { WithinNone(actions[..|actions| - 1]); }
  }

  function AsSet(steps: seq<int>): set<int> { set s | s in steps }

  lemma {:induction false} LanesUpTo(actions: seq<Action>, k: nat)
    requires k <= |StepsOf(actions)|
    ensures LanesBag(ToLanes(actions)[..k]) == Bag(Within(actions, AsSet(StepsOf(actions)[..k])))
  {
    hide Bag, StepsOf, Within, AtStep;
    var steps, lanes := StepsOf(actions), ToLanes(actions);
    if k == 0 {
      WithinNone(actions);
      BagNone();
      assert AsSet(steps[..0]) == {};
    } else {
      LanesUpTo(actions, k - 1);
      var step := steps[k - 1];
      assert step !in AsSet(steps[..k - 1]);
      assert AsSet(steps[..k]) == AsSet(steps[..k - 1]) + {step} by { assert steps[..k] == steps[..k - 1] + [step]; }
      WithinGrows(actions, AsSet(steps[..k - 1]), step);
      assert lanes[..k][..k - 1] == lanes[..k - 1] && lanes[k - 1] == AtStep(actions, step);
    }
  }

  /** Lanes hold every action once. */
  lemma LanesPartition(actions: seq<Action>)
    ensures LanesBag(ToLanes(actions)) == Bag(actions)
  {
    var steps := StepsOf(actions);
    LanesUpTo(actions, |steps|);
    assert steps[..|steps|] == steps && ToLanes(actions)[..|steps|] == ToLanes(actions);
    forall i | 0 <= i < |actions| ensures actions[i].step in AsSet(steps) { assert actions[i].step in steps; }
    WithinAll(actions, AsSet(steps));
  }

  lemma FromLanesKeeps(lanes: seq<Lane>)
    ensures Bag(FromLanes(lanes)) == LanesBag(lanes)
  {
    FlattenBag(NonEmpty(lanes));
    NonEmptyBag(lanes);
  }

  // ---------------------------------------------------------------- finding and removing an action

  predicate HasUid(lane: Lane, uid: nat) { exists i :: 0 <= i < |lane| && lane[i].uid == uid }

  /** `laneIndexOf`. */
  function LaneIndexOf(lanes: seq<Lane>, uid: nat): (index: Option<nat>)
    ensures index.Some? ==> index.value < |lanes| && HasUid(lanes[index.value], uid) && forall i :: 0 <= i < index.value ==> !HasUid(lanes[i], uid)
    ensures index.None? ==> forall i :: 0 <= i < |lanes| ==> !HasUid(lanes[i], uid)
  {
    if lanes == [] then None
    else if HasUid(lanes[0], uid) then Some(0)
    else
      var r := LaneIndexOf(lanes[1..], uid);
      assert forall i :: 1 <= i < |lanes| ==> lanes[i] == lanes[1..][i - 1];
      if r.Some? then Some(r.value + 1) else None
  }

  function FindIn(lane: Lane, uid: nat): (action: Action)
    requires HasUid(lane, uid)
    ensures action in lane && action.uid == uid
  {
    if lane[0].uid == uid then lane[0] else
      assert HasUid(lane[1..], uid) by {
        var i :| 0 <= i < |lane| && lane[i].uid == uid;
        assert lane[1..][i - 1] == lane[i];
      }
      var action := FindIn(lane[1..], uid);
      assert action in lane[1..];
      action
  }

  /** `lane.filter((candidate) => candidate.uid !== actionUid)`. */
  function Without(lane: Lane, uid: nat): Lane {
    if lane == [] then [] else
      var front, last := Without(lane[..|lane| - 1], uid), lane[|lane| - 1];
      if last.uid != uid then front + [last] else front
  }

  predicate UidsDistinct(actions: seq<Action>) { forall i, j :: 0 <= i < j < |actions| ==> actions[i].uid != actions[j].uid }

  lemma {:induction false} WithoutNone(lane: Lane, uid: nat)
    requires !HasUid(lane, uid)
    ensures Without(lane, uid) == lane
  {
    if lane != [] {
      var front := lane[..|lane| - 1];
      assert lane == front + [lane[|lane| - 1]] && lane[|lane| - 1].uid != uid;
      assert !HasUid(front, uid) by { assert forall i :: 0 <= i < |front| ==> front[i] == lane[i]; }
      WithoutNone(front, uid);
    }
  }

  lemma {:induction false} WithoutLoses(lane: Lane, uid: nat)
    ensures !HasUid(Without(lane, uid), uid)
  {
    if lane != [] {
      WithoutLoses(lane[..|lane| - 1], uid);
      var front := Without(lane[..|lane| - 1], uid);
      var r := Without(lane, uid);
      assert forall i :: 0 <= i < |front| ==> front[i].uid != uid;
    }
  }

  /** Taking the action out of its lane leaves the others. */
  lemma {:induction false} WithoutBag(lane: Lane, uid: nat)
    requires HasUid(lane, uid) && UidsDistinct(lane)
    ensures Bag(lane) == Bag(Without(lane, uid)) + multiset{Unstepped(FindIn(lane, uid))}
  {
    hide Bag, FindIn;
    var front, last := lane[..|lane| - 1], lane[|lane| - 1];
    assert lane == front + [last];
    BagSnoc(front, last);
    if last.uid == uid {
      assert !HasUid(front, uid) by { assert forall i :: 0 <= i < |front| ==> front[i] == lane[i]; }
      WithoutNone(front, uid);
    } else {
      var i :| 0 <= i < |lane| && lane[i].uid == uid;
      assert front[i].uid == uid;
      WithoutBag(front, uid);
      BagSnoc(Without(front, uid), last);
    }
  }

  // ---------------------------------------------------------------- the moves

  /** The lanes after moving an action one position; `None` when the list stays as it is. */
  function MovedLanes(lanes: seq<Lane>, uid: nat, down: bool): Option<seq<Lane>> {
    var from := LaneIndexOf(lanes, uid);
    if from.None? then None else
      var f := from.value;
      if |lanes[f]| > 1 then
        Some(InsertAt(lanes[f := Without(lanes[f], uid)], if down then f + 1 else f, [FindIn(lanes[f], uid)]))
      else if down then if f + 1 < |lanes| then Some(lanes[f := lanes[f + 1]][f + 1 := lanes[f]]) else None
      else if f > 0 then Some(lanes[f := lanes[f - 1]][f - 1 := lanes[f]]) else None
  }

  /** `moveAction`. */
  function Move(actions: seq<Action>, uid: nat, down: bool): seq<Action> {
    var moved := MovedLanes(ToLanes(actions), uid, down);
    if moved.None? then actions else FromLanes(moved.value)
  }

  /** The lanes after joining the lane before, or leaving into a lane of its own. */
  function ParalleledLanes(lanes: seq<Lane>, uid: nat, parallel: bool): Option<seq<Lane>> {
    var from := LaneIndexOf(lanes, uid);
    if from.None? then None else
      var f := from.value;
      var without := lanes[f := Without(lanes[f], uid)];
      if parallel then if f == 0 then None else Some(without[f - 1 := without[f - 1] + [FindIn(lanes[f], uid)]])
      else Some(InsertAt(without, f + 1, [FindIn(lanes[f], uid)]))
  }

  /** `setParallel`. */
  function Parallel(actions: seq<Action>, uid: nat, parallel: bool): seq<Action> {
    var changed := ParalleledLanes(ToLanes(actions), uid, parallel);
    if changed.None? then actions else FromLanes(changed.value)
  }

  method MoveAction(actions: seq<Action>, uid: nat, down: bool) returns (moved: seq<Action>)
    ensures moved == Move(actions, uid, down)
  {
    hide ToLanes, FromLanes, LaneIndexOf, FindIn, Without;
    var lanes := ToLanes(actions);
    var from := LaneIndexOf(lanes, uid);
    if from.None? { return actions; }
    var f := from.value;
    var action := FindIn(lanes[f], uid);
    if |lanes[f]| > 1 {
      // leaving a parallel group: an own lane just before or after it
      var rest := lanes;
      rest := rest[f := Without(lanes[f], uid)];
      var at := if down then f + 1 else f;
      rest := rest[..at] + [[action]] + rest[at..];
      return FromLanes(rest);
    }
    if !down && f == 0 { return actions; }
    var to := if down then f + 1 else f - 1;
    if to >= |lanes| { return actions; }
    var swapped := lanes;
    swapped := swapped[f := lanes[to]];
    swapped := swapped[to := lanes[f]];
    return FromLanes(swapped);
  }

  method SetParallel(actions: seq<Action>, uid: nat, parallel: bool) returns (changed: seq<Action>)
    ensures changed == Parallel(actions, uid, parallel)
  {
    var lanes := ToLanes(actions);
    var from := LaneIndexOf(lanes, uid);
    if from.None? { return actions; }
    var f := from.value;
    var action := FindIn(lanes[f], uid);
    var without := lanes;
    without := without[f := Without(lanes[f], uid)];
    if parallel {
      if f == 0 { return actions; }
      without := without[f - 1 := without[f - 1] + [action]];
      return FromLanes(without);
    }
    without := without[..f + 1] + [[action]] + without[f + 1..];
    return FromLanes(without);
  }

  // ---------------------------------------------------------------- moves conserve actions

  lemma LanesBagUpdate(lanes: seq<Lane>, i: nat, lane: Lane)
    requires i < |lanes|
    ensures LanesBag(lanes[i := lane]) + Bag(lanes[i]) == LanesBag(lanes) + Bag(lane)
  {
    var a, b := lanes[..i], lanes[i + 1..];
    assert lanes == a + ([lanes[i]] + b) && lanes[i := lane] == a + ([lane] + b);
    LanesBagConcat(a, [lanes[i]] + b);
    LanesBagConcat(a, [lane] + b);
    LanesBagConcat([lanes[i]], b);
    LanesBagConcat([lane], b);
  }

  lemma LanesBagInsert(lanes: seq<Lane>, at: nat, lane: Lane)
    requires at <= |lanes|
    ensures LanesBag(InsertAt(lanes, at, lane)) == LanesBag(lanes) + Bag(lane)
  {
    assert lanes == lanes[..at] + lanes[at..];
    assert InsertAt(lanes, at, lane) == lanes[..at] + ([lane] + lanes[at..]);
    LanesBagConcat(lanes[..at], lanes[at..]);
    LanesBagConcat(lanes[..at], [lane] + lanes[at..]);
    LanesBagConcat([lane], lanes[at..]);
  }

  lemma OneBag(action: Action)
    ensures Bag([action]) == multiset{Unstepped(action)}
  {
    BagNone();
    BagSnoc([], action);
    assert [] + [action] == [action];
  }

  predicate LanesDistinct(lanes: seq<Lane>) { forall i :: 0 <= i < |lanes| ==> UidsDistinct(lanes[i]) }

  lemma {:induction false} AtStepDistinct(actions: seq<Action>, step: int)
    requires UidsDistinct(actions)
    ensures UidsDistinct(AtStep(actions, step))
    ensures forall a :: a in AtStep(actions, step) ==> a in actions
  {
    if actions != [] {
      var front, last := actions[..|actions| - 1], actions[|actions| - 1];
      assert actions == front + [last];
      AtStepDistinct(front, step);
      assert forall i :: 0 <= i < |front| ==> front[i].uid != last.uid by { assert forall i :: 0 <= i < |front| ==> front[i] == actions[i]; }
      forall i | 0 <= i < |AtStep(front, step)| ensures AtStep(front, step)[i].uid != last.uid {
        assert AtStep(front, step)[i] in front;
      }
    }
  }

  lemma TakenOut(lanes: seq<Lane>, f: nat, uid: nat)
    requires f < |lanes| && HasUid(lanes[f], uid) && UidsDistinct(lanes[f])
    ensures LanesBag(lanes[f := Without(lanes[f], uid)]) + multiset{Unstepped(FindIn(lanes[f], uid))} == LanesBag(lanes)
  {
    WithoutBag(lanes[f], uid);
    LanesBagUpdate(lanes, f, Without(lanes[f], uid));
    hide LanesBag, Bag;
    var w, x, y, l, m := LanesBag(lanes[f := Without(lanes[f], uid)]), Bag(Without(lanes[f], uid)), Bag(lanes[f]), LanesBag(lanes), multiset{Unstepped(FindIn(lanes[f], uid))};
    assert w + (x + m) == l + x;
    Cancel(w + m, l, x);
  }

  lemma Cancel(a: multiset<Action>, b: multiset<Action>, x: multiset<Action>)
    requires a + x == b + x
    ensures a == b
  {
    assert forall k :: (a + x)[k] == a[k] + x[k] && (b + x)[k] == b[k] + x[k];
    forall k ensures a[k] == b[k] { assert (a + x)[k] == (b + x)[k]; }
  }

  lemma MovedLanesConserve(lanes: seq<Lane>, uid: nat, down: bool)
    requires LanesDistinct(lanes) && MovedLanes(lanes, uid, down).Some?
    ensures LanesBag(MovedLanes(lanes, uid, down).value) == LanesBag(lanes)
  {
    hide LanesBag, Bag, Without, FindIn;
    var f := LaneIndexOf(lanes, uid).value;
    if |lanes[f]| > 1 {
      TakenOut(lanes, f, uid);
      OneBag(FindIn(lanes[f], uid));
      LanesBagInsert(lanes[f := Without(lanes[f], uid)], if down then f + 1 else f, [FindIn(lanes[f], uid)]);
    } else {
      var to := if down then f + 1 else f - 1;
      LanesBagUpdate(lanes, f, lanes[to]);
      LanesBagUpdate(lanes[f := lanes[to]], to, lanes[f]);
      Cancel(LanesBag(lanes[f := lanes[to]][to := lanes[f]]), LanesBag(lanes), Bag(lanes[to]));
    }
  }

  lemma ParalleledLanesConserve(lanes: seq<Lane>, uid: nat, parallel: bool)
    requires LanesDistinct(lanes) && ParalleledLanes(lanes, uid, parallel).Some?
    ensures LanesBag(ParalleledLanes(lanes, uid, parallel).value) == LanesBag(lanes)
  {
    hide LanesBag, Bag, Without, FindIn;
    var f := LaneIndexOf(lanes, uid).value;
    var action := FindIn(lanes[f], uid);
    var without := lanes[f := Without(lanes[f], uid)];
    TakenOut(lanes, f, uid);
    if parallel {
      BagSnoc(without[f - 1], action);
      LanesBagUpdate(without, f - 1, without[f - 1] + [action]);
      Cancel(LanesBag(without[f - 1 := without[f - 1] + [action]]), LanesBag(lanes), Bag(without[f - 1]));
    } else {
      OneBag(action);
      LanesBagInsert(without, f + 1, [action]);
    }
  }

  lemma DistinctLanes(actions: seq<Action>)
    requires UidsDistinct(actions)
    ensures LanesDistinct(ToLanes(actions))
  {
    var lanes := ToLanes(actions);
    forall i | 0 <= i < |lanes| ensures UidsDistinct(lanes[i]) { AtStepDistinct(actions, StepsOf(actions)[i]); }
  }

  /** Moving keeps every action, and unless the list stays as it is, numbers the steps 1..n without gaps. */
  lemma MoveConserves(actions: seq<Action>, uid: nat, down: bool)
    requires UidsDistinct(actions)
    ensures var moved := Move(actions, uid, down);
            Bag(moved) == Bag(actions) && (moved == actions || exists n: nat :: StepsOf(moved) == UpTo(n))
  {
    hide Bag, LanesBag, StepsOf, MovedLanes, ToLanes, FromLanes, UpTo;
    DistinctLanes(actions);
    LanesPartition(actions);
    var lanes := MovedLanes(ToLanes(actions), uid, down);
    if lanes.Some? {
      MovedLanesConserve(ToLanes(actions), uid, down);
      FromLanesKeeps(lanes.value);
      StepsContiguous(lanes.value);
    }
  }

  /** So does joining or leaving a parallel group. */
  lemma ParallelConserves(actions: seq<Action>, uid: nat, parallel: bool)
    requires UidsDistinct(actions)
    ensures var changed := Parallel(actions, uid, parallel);
            Bag(changed) == Bag(actions) && (changed == actions || exists n: nat :: StepsOf(changed) == UpTo(n))
  {
    hide Bag, LanesBag, StepsOf, ParalleledLanes, ToLanes, FromLanes, UpTo;
    DistinctLanes(actions);
    LanesPartition(actions);
    var lanes := ParalleledLanes(ToLanes(actions), uid, parallel);
    if lanes.Some? {
      ParalleledLanesConserve(ToLanes(actions), uid, parallel);
      FromLanesKeeps(lanes.value);
      StepsContiguous(lanes.value);
    }
  }

  // ---------------------------------------------------------------- moves that undo each other

  lemma {:induction false} AtStepFrom(actions: seq<Action>, step: int)
    ensures forall i :: 0 <= i < |AtStep(actions, step)| ==> AtStep(actions, step)[i] in actions && AtStep(actions, step)[i].step == step
  {
    if actions != [] {
      AtStepFrom(actions[..|actions| - 1], step);
      assert actions == actions[..|actions| - 1] + [actions[|actions| - 1]];
    }
  }

  lemma UidIn(actions: seq<Action>, lane: nat, uid: nat) returns (k: nat)
    requires lane < |ToLanes(actions)| && HasUid(ToLanes(actions)[lane], uid)
    ensures k < |actions| && actions[k].uid == uid && actions[k].step == StepsOf(actions)[lane]
  {
    var step := StepsOf(actions)[lane];
    AtStepFrom(actions, step);
    var i :| 0 <= i < |AtStep(actions, step)| && AtStep(actions, step)[i].uid == uid;
    assert AtStep(actions, step)[i] in actions;
    k :| k < |actions| && actions[k] == AtStep(actions, step)[i];
  }

  /** An action is in one lane only. */
  lemma OneLane(actions: seq<Action>, uid: nat, i: nat, j: nat)
    requires UidsDistinct(actions) && i < |ToLanes(actions)| && j < |ToLanes(actions)|
    requires HasUid(ToLanes(actions)[i], uid) && HasUid(ToLanes(actions)[j], uid)
    ensures i == j
  {
    var k := UidIn(actions, i, uid);
    var l := UidIn(actions, j, uid);
    assert k == l;
    assert Ascending(StepsOf(actions));
  }

  lemma LanesNonEmpty(actions: seq<Action>)
    ensures forall i :: 0 <= i < |ToLanes(actions)| ==> ToLanes(actions)[i] != []
  {
    var steps := StepsOf(actions);
    forall i | 0 <= i < |steps| ensures ToLanes(actions)[i] != [] {
      assert steps[i] in steps;
      AtStepFinds(actions, steps[i]);
    }
  }

  lemma WithStepHasUid(lane: Lane, step: int, uid: nat)
    ensures HasUid(WithStep(lane, step), uid) <==> HasUid(lane, uid)
  {
    var r := WithStep(lane, step);
    assert forall i :: 0 <= i < |lane| ==> r[i].uid == lane[i].uid;
    if i :| 0 <= i < |lane| && lane[i].uid == uid { assert r[i].uid == uid; }
  }

  lemma WithStepTwice(lane: Lane, x: int, y: int)
    ensures WithStep(WithStep(lane, x), y) == WithStep(lane, y)
  {
  }

  /** Only lane `f` holds the action. */
  predicate OnlyAt(lanes: seq<Lane>, uid: nat, f: nat) {
    f < |lanes| && HasUid(lanes[f], uid) && forall i :: 0 <= i < |lanes| && i != f ==> !HasUid(lanes[i], uid)
  }

  lemma OnlyAtFinds(lanes: seq<Lane>, uid: nat, f: nat)
    requires OnlyAt(lanes, uid, f)
    ensures LaneIndexOf(lanes, uid) == Some(f)
  {
    var index := LaneIndexOf(lanes, uid);
  }

  lemma OnlyAtRenumbered(lanes: seq<Lane>, uid: nat, f: nat)
    requires OnlyAt(lanes, uid, f)
    ensures OnlyAt(Renumbered(lanes), uid, f)
  {
    hide HasUid;
    forall i | 0 <= i < |lanes| ensures HasUid(Renumbered(lanes)[i], uid) <==> HasUid(lanes[i], uid) { WithStepHasUid(lanes[i], i + 1, uid); }
  }

  lemma FoundAlone(actions: seq<Action>, uid: nat)
    requires UidsDistinct(actions) && LaneIndexOf(ToLanes(actions), uid).Some?
    ensures OnlyAt(ToLanes(actions), uid, LaneIndexOf(ToLanes(actions), uid).value)
  {
    var lanes := ToLanes(actions);
    var f := LaneIndexOf(lanes, uid).value;
    forall i | 0 <= i < |lanes| && i != f ensures !HasUid(lanes[i], uid) {
      if HasUid(lanes[i], uid) { OneLane(actions, uid, i, f); }
    }
  }

  function Swapped(lanes: seq<Lane>, i: nat, j: nat): (r: seq<Lane>)
    requires i < |lanes| && j < |lanes|
    ensures |r| == |lanes|
  {
    lanes[i := lanes[j]][j := lanes[i]]
  }

  /** Reading lanes back after writing them out renumbered lanes. */
  lemma WrittenOut(lanes: seq<Lane>)
    requires forall i :: 0 <= i < |lanes| ==> lanes[i] != []
    ensures ToLanes(FromLanes(lanes)) == Renumbered(lanes)
  {
    LanesRoundTrip(lanes);
  }

  lemma SwapBack(lanes: seq<Lane>, i: nat, j: nat)
    requires i < |lanes| && j < |lanes| && i != j
    ensures Renumbered(Swapped(Renumbered(Swapped(lanes, i, j)), j, i)) == Renumbered(lanes)
  {
    var back := Swapped(Renumbered(Swapped(lanes, i, j)), j, i);
    forall k | 0 <= k < |lanes| ensures Renumbered(back)[k] == Renumbered(lanes)[k] {
      var from := if k == i then j else if k == j then i else k;
      assert back[k] == WithStep(lanes[k], from + 1);
      WithStepTwice(lanes[k], from + 1, k + 1);
    }
  }

  /** Moving an action that has its lane to itself one way and then the other restores the lanes, steps renumbered. */
  lemma MoveThereAndBack(actions: seq<Action>, uid: nat, down: bool)
    requires UidsDistinct(actions) && LaneIndexOf(ToLanes(actions), uid).Some?
    requires var lanes := ToLanes(actions);
             var f := LaneIndexOf(lanes, uid).value;
             |lanes[f]| == 1 && if down then f + 1 < |lanes| else f > 0
    ensures ToLanes(Move(Move(actions, uid, down), uid, !down)) == Renumbered(ToLanes(actions))
  {
    hide ToLanes, FromLanes, LaneIndexOf, Renumbered, StepsOf;
    var lanes := ToLanes(actions);
    var f := LaneIndexOf(lanes, uid).value;
    var to := if down then f + 1 else f - 1;
    FoundAlone(actions, uid);
    LanesNonEmpty(actions);
    var swapped := Swapped(lanes, f, to);
    assert Move(actions, uid, down) == FromLanes(swapped);
    assert OnlyAt(swapped, uid, to);
    WrittenOut(swapped);
    OnlyAtRenumbered(swapped, uid, to);
    OnlyAtFinds(Renumbered(swapped), uid, to);
    assert |Renumbered(swapped)[to]| == 1 by { RenumberedAt(swapped, to); }
    var back := Swapped(Renumbered(swapped), to, f);
    assert Move(FromLanes(swapped), uid, !down) == FromLanes(back);
    forall i | 0 <= i < |back| ensures back[i] != [] { RenumberedAt(swapped, if i == f then to else if i == to then f else i); }
    WrittenOut(back);
    SwapBack(lanes, f, to);
  }

  lemma RenumberedAt(lanes: seq<Lane>, i: nat)
    requires i < |lanes|
    ensures Renumbered(lanes)[i] == WithStep(lanes[i], i + 1) && |Renumbered(lanes)[i]| == |lanes[i]|
  {
  }

  lemma {:induction false} NonEmptyConcat(a: seq<Lane>, b: seq<Lane>)
    ensures NonEmpty(a + b) == NonEmpty(a) + NonEmpty(b)
  {
    if b == [] { assert a + b == a; } else {
      assert (a + b)[..|a + b| - 1] == a + b[..|b| - 1];
      NonEmptyConcat(a, b[..|b| - 1]);
    }
  }

  /** The lanes after an action alone in lane `f` joined the lane before. */
  function Joined(lanes: seq<Lane>, f: nat): (r: seq<Lane>)
    requires 0 < f < |lanes|
    ensures |r| == |lanes| - 1 && r[f - 1] == lanes[f - 1] + lanes[f]
  {
    lanes[..f - 1] + [lanes[f - 1] + lanes[f]] + lanes[f + 1..]
  }

  lemma JoinDropsLane(lanes: seq<Lane>, f: nat)
    requires 0 < f < |lanes| && forall i :: 0 <= i < |lanes| ==> lanes[i] != []
    ensures NonEmpty(lanes[f := []][f - 1 := lanes[f - 1] + lanes[f]]) == Joined(lanes, f)
  {
    var a, b := lanes[..f - 1] + [lanes[f - 1] + lanes[f]], lanes[f + 1..];
    assert lanes[f := []][f - 1 := lanes[f - 1] + lanes[f]] == a + ([[]] + b);
    NonEmptyConcat(a, [[]] + b);
    NonEmptyConcat([[]], b);
    var empty: seq<Lane> := [[]];
    assert empty[..0] == [] && NonEmpty(empty) == [];
  }

  lemma AloneTaken(lane: Lane, uid: nat)
    requires |lane| == 1 && HasUid(lane, uid)
    ensures Without(lane, uid) == [] && [FindIn(lane, uid)] == lane
  {
    assert lane[..0] == [] && Without(lane[..0], uid) == [];
  }

  lemma {:induction false} WithoutConcat(a: Lane, b: Lane, uid: nat)
    ensures Without(a + b, uid) == Without(a, uid) + Without(b, uid)
  {
    if b == [] { assert a + b == a; } else {
      assert (a + b)[..|a + b| - 1] == a + b[..|b| - 1];
      WithoutConcat(a, b[..|b| - 1], uid);
    }
  }

  lemma TakenFromJoined(lane: Lane, alone: Lane, uid: nat, step: int)
    requires !HasUid(lane, uid) && |alone| == 1 && HasUid(alone, uid)
    ensures var joined := WithStep(lane + alone, step);
            HasUid(joined, uid) && Without(joined, uid) == WithStep(lane, step) && FindIn(joined, uid) == alone[0].(step := step)
  {
    hide Without, FindIn, WithStep;
    var joined := WithStep(lane + alone, step);
    assert joined == WithStep(lane, step) + WithStep(alone, step);
    assert joined[|lane|].uid == uid;
    WithStepHasUid(lane, step, uid);
    WithStepHasUid(alone, step, uid);
    WithoutConcat(WithStep(lane, step), WithStep(alone, step), uid);
    WithoutNone(WithStep(lane, step), uid);
    AloneTaken(WithStep(alone, step), uid);
    var action := FindIn(joined, uid);
    var i :| 0 <= i < |joined| && joined[i] == action;
    assert i == |lane| by { assert forall k :: 0 <= k < |lane| ==> joined[k].uid == lane[k].uid && lane[k].uid != uid; }
  }

  lemma JoinAndLeave(lanes: seq<Lane>, f: nat, uid: nat)
    requires 0 < f < |lanes| && |lanes[f]| == 1 && OnlyAt(lanes, uid, f)
    ensures var r := Renumbered(Joined(lanes, f));
            OnlyAt(r, uid, f - 1) &&
            Renumbered(InsertAt(r[f - 1 := Without(r[f - 1], uid)], f, [FindIn(r[f - 1], uid)])) == Renumbered(lanes)
  {
    hide HasUid, Without, FindIn;
    var joined := Joined(lanes, f);
    var r := Renumbered(joined);
    TakenFromJoined(lanes[f - 1], lanes[f], uid, f);
    assert r[f - 1] == WithStep(lanes[f - 1] + lanes[f], f);
    forall i | 0 <= i < |r| && i != f - 1 ensures !HasUid(r[i], uid) {
      var k := if i < f - 1 then i else i + 1;
      assert r[i] == WithStep(lanes[k], i + 1);
      WithStepHasUid(lanes[k], i + 1, uid);
    }
    var back := InsertAt(r[f - 1 := Without(r[f - 1], uid)], f, [FindIn(r[f - 1], uid)]);
    assert |back| == |lanes|;
    forall k | 0 <= k < |lanes| ensures Renumbered(back)[k] == Renumbered(lanes)[k] {
      if k < f - 1 { assert back[k] == WithStep(lanes[k], k + 1); WithStepTwice(lanes[k], k + 1, k + 1); }
      else if k == f - 1 { WithStepTwice(lanes[k], f, k + 1); }
      else if k == f { assert back[k] == WithStep(lanes[k], f); WithStepTwice(lanes[k], f, k + 1); }
      else { assert back[k] == r[k - 1] == WithStep(lanes[k], k); WithStepTwice(lanes[k], k, k + 1); }
    }
  }

  /** Putting an action alone in its lane in parallel with the lane before, and taking it out again, restores the lanes. */
  lemma ParallelOnAndOff(actions: seq<Action>, uid: nat)
    requires UidsDistinct(actions) && LaneIndexOf(ToLanes(actions), uid).Some?
    requires var lanes := ToLanes(actions);
             var f := LaneIndexOf(lanes, uid).value;
             |lanes[f]| == 1 && f > 0
    ensures ToLanes(Parallel(Parallel(actions, uid, true), uid, false)) == Renumbered(ToLanes(actions))
  {
    hide ToLanes, LaneIndexOf, Renumbered, StepsOf, Without, FindIn, NonEmpty, Flatten;
    var lanes := ToLanes(actions);
    var f := LaneIndexOf(lanes, uid).value;
    FoundAlone(actions, uid);
    LanesNonEmpty(actions);
    AloneTaken(lanes[f], uid);
    JoinDropsLane(lanes, f);
    var on := Parallel(actions, uid, true);
    var joined := Joined(lanes, f);
    LanesRoundTrip(lanes[f := []][f - 1 := lanes[f - 1] + lanes[f]]);
    assert ToLanes(on) == Renumbered(joined);
    var r := Renumbered(joined);
    JoinAndLeave(lanes, f, uid);
    OnlyAtFinds(r, uid, f - 1);
    var back := InsertAt(r[f - 1 := Without(r[f - 1], uid)], f, [FindIn(r[f - 1], uid)]);
    assert Parallel(on, uid, false) == FromLanes(back);
    BackNonEmpty(lanes, f, uid);
    WrittenOut(back);
  }

  lemma BackNonEmpty(lanes: seq<Lane>, f: nat, uid: nat)
    requires 0 < f < |lanes| && |lanes[f]| == 1 && OnlyAt(lanes, uid, f) && forall i :: 0 <= i < |lanes| ==> lanes[i] != []
    ensures var r := Renumbered(Joined(lanes, f));
            f - 1 < |r| && HasUid(r[f - 1], uid) &&
            var back := InsertAt(r[f - 1 := Without(r[f - 1], uid)], f, [FindIn(r[f - 1], uid)]);
            forall i :: 0 <= i < |back| ==> back[i] != []
  {
    JoinAndLeave(lanes, f, uid);
    var r := Renumbered(Joined(lanes, f));
    var back := InsertAt(r[f - 1 := Without(r[f - 1], uid)], f, [FindIn(r[f - 1], uid)]);
    assert |back| == |lanes|;
    forall i | 0 <= i < |back| ensures back[i] != [] {
      assert Renumbered(back)[i] == Renumbered(lanes)[i];
      RenumberedAt(back, i);
      RenumberedAt(lanes, i);
    }
  }

  // ---------------------------------------------------------------- where the moves put an action

  lemma TakenApart(lane: Lane, uid: nat) returns (a: Lane, x: Action, b: Lane)
    requires HasUid(lane, uid) && UidsDistinct(lane)
    ensures lane == a + [x] + b && x.uid == uid && Without(lane, uid) == a + b && FindIn(lane, uid) == x
  {
    hide Without, FindIn;
    var i :| 0 <= i < |lane| && lane[i].uid == uid;
    a, x, b := lane[..i], lane[i], lane[i + 1..];
    assert lane == a + [x] + b;
    var found := FindIn(lane, uid);
    var j :| 0 <= j < |lane| && lane[j] == found;
    assert i == j;
    WithoutConcat(a + [x], b, uid);
    WithoutConcat(a, [x], uid);
    WithoutNone(a, uid);
    WithoutNone(b, uid);
    WithoutOne(x);
  }

  lemma WithoutOne(x: Action)
    ensures Without([x], x.uid) == []
  {
    assert [x][..0] == [] && Without([], x.uid) == [];
  }

  /**
   * An action leaves a parallel group into a step of its own: right after the rest of
   * the group when it moves down, right before it when it moves up.
   */
  lemma MoveLeavesGroup(actions: seq<Action>, uid: nat, down: bool) returns (f: nat, a: Lane, x: Action, b: Lane)
    requires UidsDistinct(actions) && LaneIndexOf(ToLanes(actions), uid).Some? && |ToLanes(actions)[LaneIndexOf(ToLanes(actions), uid).value]| > 1
    ensures f < |ToLanes(actions)| && ToLanes(actions)[f] == a + [x] + b && x.uid == uid
    ensures var lanes := ToLanes(actions);
            ToLanes(Move(actions, uid, down)) == Renumbered(lanes[..f] + (if down then [a + b, [x]] else [[x], a + b]) + lanes[f + 1..])
  {
    hide ToLanes, FromLanes, LaneIndexOf, Renumbered, Without, FindIn;
    var lanes := ToLanes(actions);
    f := LaneIndexOf(lanes, uid).value;
    DistinctLanes(actions);
    LanesNonEmpty(actions);
    a, x, b := TakenApart(lanes[f], uid);
    var left := lanes[..f] + (if down then [a + b, [x]] else [[x], a + b]) + lanes[f + 1..];
    assert MovedLanes(lanes, uid, down).value == left;
    assert forall i :: 0 <= i < |left| ==> left[i] != [];
    WrittenOut(left);
  }

  /** An action with a step to itself changes places with the step after it or before it; the last goes no further down, the first no further up. */
  lemma MoveChangesPlaces(actions: seq<Action>, uid: nat, down: bool) returns (f: nat)
    requires LaneIndexOf(ToLanes(actions), uid).Some? && |ToLanes(actions)[LaneIndexOf(ToLanes(actions), uid).value]| == 1
    ensures f < |ToLanes(actions)| && |ToLanes(actions)[f]| == 1 && HasUid(ToLanes(actions)[f], uid)
    ensures var lanes := ToLanes(actions);
            if down && f + 1 < |lanes| then ToLanes(Move(actions, uid, down)) == Renumbered(lanes[..f] + [lanes[f + 1], lanes[f]] + lanes[f + 2..])
            else if !down && f > 0 then ToLanes(Move(actions, uid, down)) == Renumbered(lanes[..f - 1] + [lanes[f], lanes[f - 1]] + lanes[f + 1..])
            else Move(actions, uid, down) == actions
  {
    hide ToLanes, FromLanes, LaneIndexOf, Renumbered, Without, FindIn;
    var lanes := ToLanes(actions);
    f := LaneIndexOf(lanes, uid).value;
    LanesNonEmpty(actions);
    if down && f + 1 < |lanes| {
      var left := lanes[..f] + [lanes[f + 1], lanes[f]] + lanes[f + 2..];
      assert MovedLanes(lanes, uid, down).value == left;
      WrittenOut(left);
    } else if !down && f > 0 {
      var left := lanes[..f - 1] + [lanes[f], lanes[f - 1]] + lanes[f + 1..];
      assert MovedLanes(lanes, uid, down).value == left;
      WrittenOut(left);
    }
  }

  lemma NonEmptyKeeps(lanes: seq<Lane>)
    requires forall i :: 0 <= i < |lanes| ==> lanes[i] != []
    ensures NonEmpty(lanes) == lanes
  {
  }

  /** Dropping one possibly empty lane. */
  lemma NonEmptyAround(a: seq<Lane>, lane: Lane, b: seq<Lane>)
    requires (forall i :: 0 <= i < |a| ==> a[i] != []) && (forall i :: 0 <= i < |b| ==> b[i] != [])
    ensures NonEmpty(a + [lane] + b) == a + (if lane == [] then [] else [lane]) + b
  {
    NonEmptyConcat(a + [lane], b);
    NonEmptyConcat(a, [lane]);
    NonEmptyKeeps(a);
    NonEmptyKeeps(b);
    assert [lane][..0] == [] && NonEmpty([lane][..0]) == [];
  }

  /**
   * Joining puts the action at the end of the step before, whose group it leaves behind;
   * leaving puts it right after the rest of its group; the first step has none to join.
   */
  lemma ParallelPuts(actions: seq<Action>, uid: nat, parallel: bool) returns (f: nat, a: Lane, x: Action, b: Lane)
    requires UidsDistinct(actions) && LaneIndexOf(ToLanes(actions), uid).Some?
    ensures f < |ToLanes(actions)| && ToLanes(actions)[f] == a + [x] + b && x.uid == uid
    ensures var lanes, rest := ToLanes(actions), if a + b == [] then [] else [a + b];
            if !parallel then ToLanes(Parallel(actions, uid, false)) == Renumbered(lanes[..f] + rest + ([[x]] + lanes[f + 1..]))
            else if f > 0 then ToLanes(Parallel(actions, uid, true)) == Renumbered(lanes[..f - 1] + [lanes[f - 1] + [x]] + rest + lanes[f + 1..])
            else Parallel(actions, uid, true) == actions
  {
    hide ToLanes, LaneIndexOf, Renumbered, Without, FindIn, NonEmpty, Flatten;
    var lanes := ToLanes(actions);
    f := LaneIndexOf(lanes, uid).value;
    DistinctLanes(actions);
    LanesNonEmpty(actions);
    a, x, b := TakenApart(lanes[f], uid);
    if !parallel {
      var left := lanes[..f] + [a + b] + ([[x]] + lanes[f + 1..]);
      assert ParalleledLanes(lanes, uid, false).value == left;
      LanesRoundTrip(left);
      NonEmptyAround(lanes[..f], a + b, [[x]] + lanes[f + 1..]);
    } else if f > 0 {
      var front := lanes[..f - 1] + [lanes[f - 1] + [x]];
      var left := front + [a + b] + lanes[f + 1..];
      assert ParalleledLanes(lanes, uid, true).value == left;
      LanesRoundTrip(left);
      NonEmptyAround(front, a + b, lanes[f + 1..]);
    }
  }

  /** An action that is not in the list is not moved. */
  lemma UnknownStays(actions: seq<Action>, uid: nat, flag: bool)
    requires !HasUid(actions, uid)
    ensures Move(actions, uid, flag) == actions && Parallel(actions, uid, flag) == actions
  {
    var lanes := ToLanes(actions);
    if LaneIndexOf(lanes, uid).Some? { var k := UidIn(actions, LaneIndexOf(lanes, uid).value, uid); }
  }
}
