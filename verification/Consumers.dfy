/**
 * The idempotent consumers: task.create (services/task-service/src/main.ts) and
 * notification.send (services/notification-service/src/main.ts). Unique columns turn
 * a repeated delivery into a read of the row the first one wrote.
 */
module Consumers {
  import opened Base

  datatype TaskList = TaskList(id: nat, owner: nat, isDefault: bool)

  /** A row of `tasks`; `source` is the action that created it, none for a task a user made. */
  datatype Task = Task(id: nat, owner: nat, list: nat, title: string, due: Option<nat>, source: Option<nat>)

  datatype CreateTask = CreateTask(action: nat, owner: nat, title: string, dueInDays: Option<nat>, list: Option<nat>)

  /** `replies` are the results sent, with the task they carry. */
  datatype State = State(lists: seq<TaskList>, tasks: seq<Task>, replies: set<(nat, Task)>)

  function FindTask(tasks: seq<Task>, action: nat): (found: Option<nat>)
    ensures found.Some? ==> found.value < |tasks| && tasks[found.value].source == Some(action)
    ensures found.None? ==> forall i :: 0 <= i < |tasks| ==> tasks[i].source != Some(action)
  {
    if tasks == [] then None
    else if tasks[|tasks| - 1].source == Some(action) then Some(|tasks| - 1)
    else
      var front := tasks[..|tasks| - 1];
      assert forall i :: 0 <= i < |front| ==> front[i] == tasks[i];
      FindTask(front, action)
  }

  function FindDefault(lists: seq<TaskList>, owner: nat): (found: Option<nat>)
    ensures found.Some? ==> found.value < |lists| && lists[found.value].owner == owner && lists[found.value].isDefault
    ensures found.None? ==> forall i :: 0 <= i < |lists| ==> !(lists[i].owner == owner && lists[i].isDefault)
  {
    if lists == [] then None
    else if lists[|lists| - 1].owner == owner && lists[|lists| - 1].isDefault then Some(|lists| - 1)
    else
      var front := lists[..|lists| - 1];
      assert forall i :: 0 <= i < |front| ==> front[i] == lists[i];
      FindDefault(front, owner)
  }

  predicate Owned(lists: seq<TaskList>, owner: nat, id: nat) { exists i :: 0 <= i < |lists| && lists[i].id == id && lists[i].owner == owner }

  // ---------------------------------------------------------------- the statements

  /** INSERT … ON CONFLICT (owner_id) WHERE is_default DO NOTHING. */
  function WithDefault(lists: seq<TaskList>, owner: nat, freshId: nat): seq<TaskList> {
    if FindDefault(lists, owner).Some? then lists else lists + [TaskList(freshId, owner, true)]
  }

  /** INSERT … ON CONFLICT (source_action_id) DO NOTHING. */
  function WithTask(tasks: seq<Task>, task: Task): seq<Task> {
    if task.source.Some? && FindTask(tasks, task.source.value).Some? then tasks else tasks + [task]
  }

  /** Statements of any number of consumers and users, in any order. */
  datatype Event =
    | AddList(list: TaskList)
    | EnsureDefault(owner: nat, freshId: nat)
    | InsertTask(task: Task)
    | Reply(action: nat)

  predicate Enabled(s: State, ev: Event) {
    match ev
    case AddList(list) => !list.isDefault
    case EnsureDefault(_, _) => true
    case InsertTask(task) => Owned(s.lists, task.owner, task.list)
    case Reply(a) => FindTask(s.tasks, a).Some?
  }

  function After(s: State, ev: Event): State
    requires Enabled(s, ev)
  {
    match ev
    case AddList(list) => s.(lists := s.lists + [list])
    case EnsureDefault(owner, freshId) => s.(lists := WithDefault(s.lists, owner, freshId))
    case InsertTask(task) => s.(tasks := WithTask(s.tasks, task))
    case Reply(a) => s.(replies := s.replies + {(a, s.tasks[FindTask(s.tasks, a).value])})
  }

  // ---------------------------------------------------------------- one task per action

  predicate SourcesUnique(tasks: seq<Task>) {
    forall i, j :: 0 <= i < j < |tasks| && tasks[i].source.Some? ==> tasks[i].source != tasks[j].source
  }

  predicate OneDefault(lists: seq<TaskList>) {
    forall i, j :: 0 <= i < j < |lists| && lists[i].isDefault && lists[j].isDefault ==> lists[i].owner != lists[j].owner
  }

  predicate TasksListed(s: State) { forall i :: 0 <= i < |s.tasks| ==> Owned(s.lists, s.tasks[i].owner, s.tasks[i].list) }

  predicate RepliesHold(s: State) { forall r :: r in s.replies ==> r.1 in s.tasks && r.1.source == Some(r.0) }

  predicate Inv(s: State) { SourcesUnique(s.tasks) && OneDefault(s.lists) && TasksListed(s) && RepliesHold(s) }

  lemma OwnedStays(lists: seq<TaskList>, more: seq<TaskList>, owner: nat, id: nat)
    requires Owned(lists, owner, id)
    ensures Owned(lists + more, owner, id)
  {
    var i :| 0 <= i < |lists| && lists[i].id == id && lists[i].owner == owner;
    assert (lists + more)[i] == lists[i];
  }

  lemma ListsKeep(s: State, more: seq<TaskList>)
    requires TasksListed(s)
    ensures TasksListed(s.(lists := s.lists + more))
  {
    forall i | 0 <= i < |s.tasks| ensures Owned(s.lists + more, s.tasks[i].owner, s.tasks[i].list) {
      OwnedStays(s.lists, more, s.tasks[i].owner, s.tasks[i].list);
    }
  }

  lemma StepKeeps(s: State, ev: Event)
    requires Inv(s) && Enabled(s, ev)
    ensures Inv(After(s, ev))
  {
    match ev
    case AddList(list) => ListsKeep(s, [list]);
    case EnsureDefault(owner, freshId) => ListsKeep(s, [TaskList(freshId, owner, true)]);
    case InsertTask(task) =>
      var tasks := WithTask(s.tasks, task);
      forall r | r in s.replies ensures r.1 in tasks {
        var i :| 0 <= i < |s.tasks| && s.tasks[i] == r.1;
        assert tasks[i] == r.1;
      }
    case Reply(a) =>
  }

  const EMPTY := State([], [], {})

  predicate IsRun(states: seq<State>, events: seq<Event>) {
    |states| == |events| + 1 && states[0] == EMPTY &&
    forall k :: 0 <= k < |events| ==> Enabled(states[k], events[k]) && states[k + 1] == After(states[k], events[k])
  }

  lemma {:induction false} RunKeeps(states: seq<State>, events: seq<Event>, k: nat)
    requires IsRun(states, events) && k < |states|
    ensures Inv(states[k])
  {
    if k > 0 {
      RunKeeps(states, events, k - 1);
      StepKeeps(states[k - 1], events[k - 1]);
    }
  }

  /**
   * However deliveries repeat and interleave: an action has at most one task, a user at
   * most one default list, every task lies in a list of its owner, and all results of
   * an action carry the same task.
   */
  lemma OneTaskPerAction(states: seq<State>, events: seq<Event>, k: nat)
    requires IsRun(states, events) && k < |states|
    ensures SourcesUnique(states[k].tasks) && OneDefault(states[k].lists) && TasksListed(states[k])
    ensures forall r, q :: r in states[k].replies && q in states[k].replies && r.0 == q.0 ==> r == q
  {
    RunKeeps(states, events, k);
    var s := states[k];
    forall r, q | r in s.replies && q in s.replies && r.0 == q.0 ensures r == q {
      assert r.1 in s.tasks && q.1 in s.tasks;
      var i :| 0 <= i < |s.tasks| && s.tasks[i] == r.1;
      var j :| 0 <= j < |s.tasks| && s.tasks[j] == q.1;
      assert !(i < j) && !(j < i);
    }
  }

  // ---------------------------------------------------------------- the task consumer

  class TaskService {
    var lists: seq<TaskList>
    var tasks: seq<Task>
    var replies: set<(nat, Task)>

    constructor ()
      ensures Snapshot() == EMPTY
    {
      lists, tasks, replies := [], [], {};
    }

    ghost function Snapshot(): State
      reads this
    {
      State(lists, tasks, replies)
    }

    method DefaultListId(owner: nat, freshId: nat) returns (id: nat)
      modifies `lists
      ensures lists == WithDefault(old(lists), owner, freshId)
      ensures FindDefault(lists, owner).Some? && id == lists[FindDefault(lists, owner).value].id && Owned(lists, owner, id)
    {
      if FindDefault(lists, owner).None? { lists := lists + [TaskList(freshId, owner, true)]; }
      id := lists[FindDefault(lists, owner).value].id;
    }

    /** Creates the task of an action, or finds the one it already has. */
    method CreateTaskFromAction(command: CreateTask, freshId: nat, freshListId: nat, today: nat) returns (task: Task, created: bool)
      modifies this
      ensures replies == old(replies)
      ensures created <==> FindTask(old(tasks), command.action).None?
      ensures task.source == Some(command.action) && task in tasks
      ensures tasks == if created then old(tasks) + [task] else old(tasks)
      ensures lists == if command.list.Some? && Owned(old(lists), command.owner, command.list.value) then old(lists) else WithDefault(old(lists), command.owner, freshListId)
      ensures created ==> task == Task(freshId, command.owner, task.list, command.title,
                                       if command.dueInDays.Some? then Some(today + command.dueInDays.value) else None, Some(command.action)) &&
                          Owned(lists, command.owner, task.list) &&
                          (command.list.Some? && Owned(old(lists), command.owner, command.list.value) ==> task.list == command.list.value)
    {
      var listId: nat;
      if command.list.Some? && Owned(lists, command.owner, command.list.value) {
        listId := command.list.value;
      } else {
        listId := DefaultListId(command.owner, freshListId);
      }
      var existing := FindTask(tasks, command.action);
      if existing.None? {
        task := Task(freshId, command.owner, listId, command.title, if command.dueInDays.Some? then Some(today + command.dueInDays.value) else None, Some(command.action));
        tasks := tasks + [task];
        assert tasks[|tasks| - 1] == task;
        return task, true;
      }
      return tasks[existing.value], false;
    }

    /** The handler: the result is sent whether the task is new or not. */
    method HandleRequest(command: CreateTask, freshId: nat, freshListId: nat, today: nat) returns (created: bool)
      requires Inv(Snapshot())
      modifies this
      ensures Inv(Snapshot())
      ensures created <==> FindTask(old(tasks), command.action).None?
      ensures exists task :: task in tasks && task.source == Some(command.action) && replies == old(replies) + {(command.action, task)}
    {
      var task: Task;
      ghost var before := Snapshot();
      task, created := CreateTaskFromAction(command, freshId, freshListId, today);
      HandledKeeps(before, lists, tasks, task, created, command.owner, freshListId);
      replies := replies + {(command.action, task)};
    }
  }

  lemma HandledKeeps(s: State, lists: seq<TaskList>, tasks: seq<Task>, task: Task, created: bool, owner: nat, freshListId: nat)
    requires Inv(s) && (lists == s.lists || lists == WithDefault(s.lists, owner, freshListId)) && tasks == (if created then s.tasks + [task] else s.tasks)
    requires task in tasks && task.source.Some? && (created <==> FindTask(s.tasks, task.source.value).None?) && (created ==> Owned(lists, task.owner, task.list))
    ensures Inv(State(lists, tasks, s.replies + {(task.source.value, task)}))
  {
    var s1 := s.(lists := lists);
    if lists != s.lists { StepKeeps(s, EnsureDefault(owner, freshListId)); }
    if created { StepKeeps(s1, InsertTask(task)); }
    var s2 := s1.(tasks := tasks);
    assert Inv(s2);
  }

  // ---------------------------------------------------------------- the notification consumer

  datatype Draft = Draft(owner: nat, title: string, body: string, sourceKey: string)

  datatype Notification = Notification(id: nat, draft: Draft)

  function FindNotification(rows: seq<Notification>, key: string): (found: Option<nat>)
    ensures found.Some? ==> found.value < |rows| && rows[found.value].draft.sourceKey == key
    ensures found.None? ==> forall i :: 0 <= i < |rows| ==> rows[i].draft.sourceKey != key
  {
    if rows == [] then None
    else if rows[|rows| - 1].draft.sourceKey == key then Some(|rows| - 1)
    else
      var front := rows[..|rows| - 1];
      assert forall i :: 0 <= i < |front| ==> front[i] == rows[i];
      FindNotification(front, key)
  }

  predicate KeysUnique(rows: seq<Notification>) { forall i, j :: 0 <= i < j < |rows| ==> rows[i].draft.sourceKey != rows[j].draft.sourceKey }

  /** The inbox after a list of deliveries, each with a fresh id. */
  function Delivered(drafts: seq<Draft>): seq<Notification> {
    if drafts == [] then [] else
      var rows, last := Delivered(drafts[..|drafts| - 1]), drafts[|drafts| - 1];
      if FindNotification(rows, last.sourceKey).Some? then rows else rows + [Notification(|drafts| - 1, last)]
  }

  /** Exactly once: every source has one notification, that of its first delivery. */
  lemma {:induction false} DeliveredOnce(drafts: seq<Draft>, k: nat)
    requires k < |drafts| && forall j :: 0 <= j < k ==> drafts[j].sourceKey != drafts[k].sourceKey
    ensures KeysUnique(Delivered(drafts)) && Notification(k, drafts[k]) in Delivered(drafts)
    ensures forall n :: n in Delivered(drafts) && n.draft.sourceKey == drafts[k].sourceKey ==> n == Notification(k, drafts[k])
  {
    DeliveredUnique(drafts);
    DeliveredFirst(drafts, k);
    var rows := Delivered(drafts);
    forall n | n in rows && n.draft.sourceKey == drafts[k].sourceKey ensures n == Notification(k, drafts[k]) {
      var i :| 0 <= i < |rows| && rows[i] == n;
      var j :| 0 <= j < |rows| && rows[j] == Notification(k, drafts[k]);
      assert !(i < j) && !(j < i);
    }
  }

  lemma {:induction false} DeliveredUnique(drafts: seq<Draft>)
    ensures KeysUnique(Delivered(drafts))
    ensures forall n :: n in Delivered(drafts) ==> n.id < |drafts| && n.draft == drafts[n.id]
  {
    if drafts != [] {
      var front := drafts[..|drafts| - 1];
      DeliveredUnique(front);
      assert forall i :: 0 <= i < |front| ==> front[i] == drafts[i];
    }
  }

  lemma {:induction false} DeliveredFirst(drafts: seq<Draft>, k: nat)
    requires k < |drafts| && forall j :: 0 <= j < k ==> drafts[j].sourceKey != drafts[k].sourceKey
    ensures Notification(k, drafts[k]) in Delivered(drafts)
  {
    var front, last := drafts[..|drafts| - 1], drafts[|drafts| - 1];
    var rows := Delivered(front);
    if k < |drafts| - 1 {
      DeliveredFirst(front, k);
      var i :| 0 <= i < |rows| && rows[i] == Notification(k, drafts[k]);
      assert Delivered(drafts)[i] == rows[i];
    } else {
      DeliveredUnique(front);
      var found := FindNotification(rows, last.sourceKey);
      assert forall i :: 0 <= i < |rows| ==> rows[i] in rows && drafts[rows[i].id] == rows[i].draft;
      assert Delivered(drafts) == rows + [Notification(k, last)];
      assert Delivered(drafts)[|rows|] == Notification(k, last);
    }
  }

  class NotificationService {
    var rows: seq<Notification>
    /** Every delivery so far, duplicates included. */
    ghost var drafts: seq<Draft>

    ghost predicate Valid()
      reads this
    {
      rows == Delivered(drafts)
    }

    constructor ()
      ensures Valid() && drafts == []
    {
      rows, drafts := [], [];
    }

    method Deliver(draft: Draft, freshId: nat) returns (row: Notification, created: bool)
      requires Valid() && freshId == |drafts|
      modifies this
      ensures Valid() && drafts == old(drafts) + [draft]
      ensures created <==> FindNotification(old(rows), draft.sourceKey).None?
      ensures row in rows && row.draft.sourceKey == draft.sourceKey && (created ==> row == Notification(freshId, draft))
    {
      assert (drafts + [draft])[..|drafts|] == drafts;
      drafts := drafts + [draft];
      var existing := FindNotification(rows, draft.sourceKey);
      if existing.None? {
        row := Notification(freshId, draft);
        rows := rows + [row];
        assert rows[|rows| - 1] == row;
        return row, true;
      }
      return rows[existing.value], false;
    }
  }
}
