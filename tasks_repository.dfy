/**
 * TaskRepository: one entry per task under ["tasks_by_user", userId, taskId].
 */
module TasksRepository {
  import opened Wrappers
  import opened Records
  import opened Kv
  import opened Schema
  import opened Sorting

  function TaskCreatedAt(t: Task): int
  {
    t.createdAt
  }

  /** `Partial<Pick<Task, "isDone" | "text">>`: an absent field is `None`. */
  datatype TaskPatch = TaskPatch(isDone: Option<bool>, text: Option<string>)

  /** `{ ...task, ...patch }`. */
  function Merge(t: Task, patch: TaskPatch): Task
  {
    t.(isDone := patch.isDone.GetOr(t.isDone), text := patch.text.GetOr(t.text))
  }

  /** A patch touches only the fields it names: id, owner and creation time stay, and applying it again changes nothing. */
  lemma MergeSpec(t: Task, patch: TaskPatch)
    ensures var m := Merge(t, patch);
      && m.id == t.id && m.userId == t.userId && m.createdAt == t.createdAt
      && (patch.isDone.Some? ==> m.isDone == patch.isDone.value)
      && (patch.isDone.None? ==> m.isDone == t.isDone)
      && (patch.text.Some? ==> m.text == patch.text.value)
      && (patch.text.None? ==> m.text == t.text)
      && Merge(m, patch) == m
  {
  }

  function LookupTask(data: map<Key, Value>, userId: int, taskId: string): Option<Task>
  {
    var k := TaskKey(userId, taskId);
    if k in data && data[k].TaskValue? then Some(data[k].task) else None
  }

  function NewTask(taskId: string, userId: int, text: string, createdAt: int): Task
  {
    Task(taskId, userId, text, false, createdAt)
  }

  function WithTask(data: map<Key, Value>, t: Task): map<Key, Value>
  {
    data[TaskKey(t.userId, t.id) := TaskValue(t)]
  }

  /** The store after `update`: the merged task is written back under its own id. */
  function Updated(data: map<Key, Value>, userId: int, taskId: string, patch: TaskPatch): map<Key, Value>
  {
    match LookupTask(data, userId, taskId)
    case None => data
    case Some(t) => data[TaskKey(userId, Merge(t, patch).id) := TaskValue(Merge(t, patch))]
  }

  function WithoutTask(data: map<Key, Value>, userId: int, taskId: string): map<Key, Value>
  {
    if LookupTask(data, userId, taskId).Some? then data - {TaskKey(userId, taskId)} else data
  }

  function TaskKeys(data: map<Key, Value>, userId: int): set<Key>
  {
    Selected(data, Prefix(TaskPrefix(userId)))
  }

  function WithoutUserTasks(data: map<Key, Value>, userId: int): map<Key, Value>
  {
    data - TaskKeys(data, userId)
  }

  function TasksOf(entries: seq<Entry>): seq<Task>
    requires forall i | 0 <= i < |entries| :: entries[i].value.TaskValue?
  {
    seq(|entries|, i requires 0 <= i < |entries| => entries[i].value.task)
  }

  lemma TaskKeysHoldTasks(data: map<Key, Value>, userId: int)
    requires WellFormed(data)
    ensures forall k | k in TaskKeys(data, userId) ::
      && data[k].TaskValue?
      && k == TaskKey(userId, data[k].task.id)
      && data[k].task.userId == userId
  {
    forall k | k in TaskKeys(data, userId)
      ensures data[k].TaskValue? && k == TaskKey(userId, data[k].task.id)
    {
      assert k[..2] == TaskPrefix(userId);
      assert k[0] == Str(TASKS_KEY) && k[1] == Num(userId);
    }
  }

  lemma InTaskKeys(data: map<Key, Value>, userId: int, taskId: string)
    requires TaskKey(userId, taskId) in data
    ensures TaskKey(userId, taskId) in TaskKeys(data, userId)
  {
    assert TaskKey(userId, taskId)[..2] == TaskPrefix(userId);
  }

  lemma UserScanHoldsTasks(data: map<Key, Value>, userId: int)
    requires WellFormed(data)
    ensures var es := Scan(data, Prefix(TaskPrefix(userId)));
      forall i | 0 <= i < |es| :: es[i].value.TaskValue?
  {
    ScanSpec(data, Prefix(TaskPrefix(userId)));
    TaskKeysHoldTasks(data, userId);
  }

  /** `findByUser`: the user's tasks, sorted by `createdAt`. */
  ghost function UserTasks(data: map<Key, Value>, userId: int): seq<Task>
    requires WellFormed(data)
  {
    UserScanHoldsTasks(data, userId);
    SortBy(TasksOf(Scan(data, Prefix(TaskPrefix(userId)))), TaskCreatedAt)
  }

  lemma UserTaskScanSpec(data: map<Key, Value>, userId: int)
    requires WellFormed(data)
    ensures var ts := (UserScanHoldsTasks(data, userId); TasksOf(Scan(data, Prefix(TaskPrefix(userId)))));
      && |ts| == |TaskKeys(data, userId)|
      && (forall i | 0 <= i < |ts| :: ts[i].userId == userId && LookupTask(data, userId, ts[i].id) == Some(ts[i]))
      && (forall id | LookupTask(data, userId, id).Some? :: LookupTask(data, userId, id).value in ts)
  {
    var sel := Prefix(TaskPrefix(userId));
    var entries := Scan(data, sel);
    ScanSpec(data, sel);
    TaskKeysHoldTasks(data, userId);
    var ts := TasksOf(entries);
    forall i | 0 <= i < |ts| ensures ts[i].userId == userId && LookupTask(data, userId, ts[i].id) == Some(ts[i]) {
      assert entries[i].key in TaskKeys(data, userId);
    }
    forall id | LookupTask(data, userId, id).Some? ensures LookupTask(data, userId, id).value in ts {
      InTaskKeys(data, userId, id);
      var i :| 0 <= i < |entries| && entries[i].key == TaskKey(userId, id);
      assert ts[i] == LookupTask(data, userId, id).value;
    }
  }

  /** `findByUser(u)` lists exactly u's stored tasks, each once, oldest first. */
  lemma UserTasksSpec(data: map<Key, Value>, userId: int)
    requires WellFormed(data)
    ensures var ts := UserTasks(data, userId);
      && SortedBy(ts, TaskCreatedAt)
      && |ts| == |TaskKeys(data, userId)|
      && (forall t | t in ts :: t.userId == userId && LookupTask(data, userId, t.id) == Some(t))
      && (forall id | LookupTask(data, userId, id).Some? :: LookupTask(data, userId, id).value in ts)
  {
    UserScanHoldsTasks(data, userId);
    var us := TasksOf(Scan(data, Prefix(TaskPrefix(userId))));
    UserTaskScanSpec(data, userId);
    SameElements(UserTasks(data, userId), us);
  }

  /** Tasks created in the same millisecond keep their scan (key) order: the sort is stable. */
  lemma SameMillisecondTasksInScanOrder(data: map<Key, Value>, userId: int, t: int)
    requires WellFormed(data)
    ensures WithKey(UserTasks(data, userId), TaskCreatedAt, t)
         == (UserScanHoldsTasks(data, userId);
             WithKey(TasksOf(Scan(data, Prefix(TaskPrefix(userId)))), TaskCreatedAt, t))
  {
    UserScanHoldsTasks(data, userId);
    SortByStable(TasksOf(Scan(data, Prefix(TaskPrefix(userId)))), TaskCreatedAt, t);
  }

  /** A created task is not done, is found by id and is listed for its owner. */
  lemma CreateTaskThenFind(data: map<Key, Value>, t: Task)
    requires WellFormed(data)
    ensures WellFormed(WithTask(data, t))
    ensures LookupTask(WithTask(data, t), t.userId, t.id) == Some(t)
    ensures t in UserTasks(WithTask(data, t), t.userId)
  {
    WellFormedPut(data, TaskKey(t.userId, t.id), TaskValue(t));
    UserTasksSpec(WithTask(data, t), t.userId);
  }

  /** Writing one task leaves every other task's entry as it was. */
  lemma UpdateKeepsOthers(data: map<Key, Value>, userId: int, taskId: string, patch: TaskPatch, otherUser: int, otherId: string)
    requires WellFormed(data)
    requires (otherUser, otherId) != (userId, taskId)
    ensures LookupTask(Updated(data, userId, taskId, patch), otherUser, otherId) == LookupTask(data, otherUser, otherId)
    ensures LookupTask(WithoutTask(data, userId, taskId), otherUser, otherId) == LookupTask(data, otherUser, otherId)
  {
    assert TaskKey(otherUser, otherId) != TaskKey(userId, taskId);
    if LookupTask(data, userId, taskId).Some? {
      assert EntryOk(TaskKey(userId, taskId), TaskValue(LookupTask(data, userId, taskId).value));
    }
  }

  /** `update` of a stored task stores the merged task; of a missing one, changes nothing. */
  lemma UpdateThenFind(data: map<Key, Value>, userId: int, taskId: string, patch: TaskPatch)
    requires WellFormed(data)
    ensures WellFormed(Updated(data, userId, taskId, patch))
    ensures LookupTask(data, userId, taskId).None? ==> Updated(data, userId, taskId, patch) == data
    ensures LookupTask(data, userId, taskId).Some? ==>
      LookupTask(Updated(data, userId, taskId, patch), userId, taskId)
        == Some(Merge(LookupTask(data, userId, taskId).value, patch))
  {
    if LookupTask(data, userId, taskId).Some? {
      var t := LookupTask(data, userId, taskId).value;
      assert EntryOk(TaskKey(userId, taskId), TaskValue(t));
      WellFormedPut(data, TaskKey(userId, taskId), TaskValue(Merge(t, patch)));
    }
  }

  /** The function a patch of one task applies to a list of tasks. */
  function PatchOne(taskId: string, patch: TaskPatch): Task -> Task
  {
    (t: Task) => if t.id == taskId then Merge(t, patch) else t
  }

  /** Overwriting a listed task rewrites its entry in the user's scan and leaves the others. */
  lemma PatchedScan(data: map<Key, Value>, userId: int, taskId: string, patch: TaskPatch)
    requires WellFormed(data) && LookupTask(data, userId, taskId).Some?
    ensures WellFormed(Updated(data, userId, taskId, patch))
    ensures forall e | e in Scan(data, Prefix(TaskPrefix(userId))) :: e.value.TaskValue?
    ensures forall e | e in Scan(Updated(data, userId, taskId, patch), Prefix(TaskPrefix(userId))) :: e.value.TaskValue?
    ensures TasksOf(Scan(Updated(data, userId, taskId, patch), Prefix(TaskPrefix(userId))))
         == MapSeq(TasksOf(Scan(data, Prefix(TaskPrefix(userId)))), PatchOne(taskId, patch))
  {
    UpdateThenFind(data, userId, taskId, patch);
    var f := PatchOne(taskId, patch);
    var after := Updated(data, userId, taskId, patch);
    var sel := Prefix(TaskPrefix(userId));
    UserScanHoldsTasks(data, userId);
    UserScanHoldsTasks(after, userId);
    var before := TasksOf(Scan(data, sel));
    var now := TasksOf(Scan(after, sel));
    var t := LookupTask(data, userId, taskId).value;
    var k := TaskKey(userId, taskId);
    assert EntryOk(k, TaskValue(t));
    assert after == data[k := TaskValue(Merge(t, patch))];
    ScanAfterOverwrite(data, sel, k, TaskValue(Merge(t, patch)));
    ScanSpec(data, sel);
    TaskKeysHoldTasks(data, userId);
    forall i | 0 <= i < |now| ensures now[i] == MapSeq(before, f)[i] {
      var key := Scan(data, sel)[i].key;
      assert key in TaskKeys(data, userId);
      if key != k {
        assert before[i].id != taskId;
      }
    }
  }

  /** Patching a task the user does not have changes no listed task. */
  lemma PatchMissesUnlisted(data: map<Key, Value>, userId: int, taskId: string, patch: TaskPatch)
    requires WellFormed(data) && LookupTask(data, userId, taskId).None?
    ensures forall e | e in Scan(data, Prefix(TaskPrefix(userId))) :: e.value.TaskValue?
    ensures var before := TasksOf(Scan(data, Prefix(TaskPrefix(userId))));
      MapSeq(before, PatchOne(taskId, patch)) == before
  {
    UserScanHoldsTasks(data, userId);
    var before := TasksOf(Scan(data, Prefix(TaskPrefix(userId))));
    UserTaskScanSpec(data, userId);
    forall i | 0 <= i < |before| ensures MapSeq(before, PatchOne(taskId, patch))[i] == before[i] {
      assert LookupTask(data, userId, before[i].id) == Some(before[i]);
    }
  }

  /**
   * An update keeps the listing's order: the user's list afterwards is the list
   * before with the patched task replaced in place.
   */
  lemma UpdateKeepsOrder(data: map<Key, Value>, userId: int, taskId: string, patch: TaskPatch)
    requires WellFormed(data)
    ensures WellFormed(Updated(data, userId, taskId, patch))
    ensures UserTasks(Updated(data, userId, taskId, patch), userId)
         == MapSeq(UserTasks(data, userId), PatchOne(taskId, patch))
  {
    UpdateThenFind(data, userId, taskId, patch);
    var f := PatchOne(taskId, patch);
    assert forall y :: TaskCreatedAt(f(y)) == TaskCreatedAt(y);
    UserScanHoldsTasks(data, userId);
    var before := TasksOf(Scan(data, Prefix(TaskPrefix(userId))));
    if LookupTask(data, userId, taskId).Some? {
      PatchedScan(data, userId, taskId, patch);
    } else {
      PatchMissesUnlisted(data, userId, taskId, patch);
    }
    SortByMapCommutes(before, f, TaskCreatedAt);
  }

  /** After `delete` the task is gone, and no other task changed. */
  lemma DeleteTaskSpec(data: map<Key, Value>, userId: int, taskId: string)
    requires WellFormed(data)
    ensures WellFormed(WithoutTask(data, userId, taskId))
    ensures LookupTask(WithoutTask(data, userId, taskId), userId, taskId).None?
    ensures LookupTask(data, userId, taskId).None? ==> WithoutTask(data, userId, taskId) == data
  {
    WellFormedMinus(data, {TaskKey(userId, taskId)});
  }

  /** After `deleteAll` the user has no task left; other users keep theirs. */
  lemma DeleteAllTasksSpec(data: map<Key, Value>, userId: int)
    requires WellFormed(data)
    ensures WellFormed(WithoutUserTasks(data, userId))
    ensures forall id :: LookupTask(WithoutUserTasks(data, userId), userId, id).None?
    ensures forall u, id | u != userId :: LookupTask(WithoutUserTasks(data, userId), u, id) == LookupTask(data, u, id)
  {
    WellFormedMinus(data, TaskKeys(data, userId));
    forall id ensures LookupTask(WithoutUserTasks(data, userId), userId, id).None? {
      if TaskKey(userId, id) in data {
        InTaskKeys(data, userId, id);
      }
    }
    forall u, id | u != userId
      ensures LookupTask(WithoutUserTasks(data, userId), u, id) == LookupTask(data, u, id)
    {
      assert TaskKey(u, id)[..2][1] != TaskPrefix(userId)[1];
    }
  }

  function TaskKeysOf(userId: int, ts: seq<Task>): set<Key>
  {
    set t | t in ts :: TaskKey(userId, t.id)
  }

  lemma DeletedOneMoreTask(data: map<Key, Value>, userId: int, ts: seq<Task>, i: nat)
    requires i < |ts|
    ensures data - TaskKeysOf(userId, ts[..i]) - {TaskKey(userId, ts[i].id)}
         == data - TaskKeysOf(userId, ts[..i + 1])
  {
    assert ts[..i + 1] == ts[..i] + [ts[i]];
    assert forall x :: x in ts[..i + 1] <==> x in ts[..i] || x == ts[i];
    assert TaskKeysOf(userId, ts[..i + 1]) == TaskKeysOf(userId, ts[..i]) + {TaskKey(userId, ts[i].id)};
  }

  /** Removing the key of every listed task removes exactly the user's tasks. */
  lemma DeletedListedTasks(data: map<Key, Value>, userId: int)
    requires WellFormed(data)
    ensures var gone := data - TaskKeysOf(userId, UserTasks(data, userId));
      WellFormed(gone) && gone == WithoutUserTasks(data, userId)
  {
    ListedKeysAreTaskKeys(data, userId);
    WellFormedMinus(data, TaskKeys(data, userId));
  }

  lemma ListedKeysAreTaskKeys(data: map<Key, Value>, userId: int)
    requires WellFormed(data)
    ensures TaskKeysOf(userId, UserTasks(data, userId)) == TaskKeys(data, userId)
  {
    var ts := UserTasks(data, userId);
    UserTasksSpec(data, userId);
    TaskKeysHoldTasks(data, userId);
    forall k | k in TaskKeysOf(userId, ts) ensures k in TaskKeys(data, userId) {
      var t :| t in ts && k == TaskKey(userId, t.id);
      InTaskKeys(data, userId, t.id);
    }
    forall k | k in TaskKeys(data, userId) ensures k in TaskKeysOf(userId, ts) {
      var id := data[k].task.id;
      assert LookupTask(data, userId, id).Some?;
    }
  }

  /** The deletes issued for the listed entries, one per element, in order. */
  method DeleteTaskKeys(kv: Store, userId: int, rs: seq<Task>)
    modifies kv
    ensures kv.data == old(kv.data) - TaskKeysOf(userId, rs)
  {
    ghost var before := kv.data;
    var i := 0;
    while i < |rs|
      invariant 0 <= i <= |rs|
      invariant kv.data == before - TaskKeysOf(userId, rs[..i])
    {
      kv.Delete(TaskKey(userId, rs[i].id));
      DeletedOneMoreTask(before, userId, rs, i);
      i := i + 1;
    }
    assert rs[..i] == rs;
  }

  /** The loop that reads the value of each listed entry, in listing order. */
  method CollectTasks(entries: seq<Entry>) returns (found: seq<Task>)
    requires forall i | 0 <= i < |entries| :: entries[i].value.TaskValue?
    ensures found == TasksOf(entries)
  {
    found := [];
    var i := 0;
    while i < |entries|
      invariant 0 <= i <= |entries|
      invariant |found| == i
      invariant forall j | 0 <= j < i :: found[j] == entries[j].value.task
    {
      found := found + [entries[i].value.task];
      i := i + 1;
    }
  }

  class TaskRepository {
    const kv: Store

    constructor (kv: Store)
      ensures this.kv == kv
    {
      this.kv := kv;
    }

    /** `create`: the id and the creation time come from the UUID generator and the clock. */
    method Create(userId: int, text: string, taskId: string, createdAt: int) returns (task: Task)
      requires WellFormed(kv.data)
      modifies kv
      ensures WellFormed(kv.data)
      ensures task == NewTask(taskId, userId, text, createdAt)
      ensures kv.data == WithTask(old(kv.data), task)
    {
      task := NewTask(taskId, userId, text, createdAt);
      WellFormedPut(kv.data, TaskKey(userId, task.id), TaskValue(task));
      kv.Set(TaskKey(userId, task.id), TaskValue(task));
    }

    method FindByUser(userId: int) returns (tasks: seq<Task>)
      requires WellFormed(kv.data)
      ensures tasks == UserTasks(kv.data, userId)
    {
      var entries := kv.List(Prefix(TaskPrefix(userId)));
      UserScanHoldsTasks(kv.data, userId);
      var found := CollectTasks(entries);
      tasks := SortBy(found, TaskCreatedAt);
    }

    method FindById(userId: int, taskId: string) returns (task: Option<Task>)
      ensures task == LookupTask(kv.data, userId, taskId)
    {
      var res := kv.Get(TaskKey(userId, taskId));
      task := if res.Some? && res.value.TaskValue? then Some(res.value.task) else None;
    }

    method Update(userId: int, taskId: string, patch: TaskPatch) returns (updated: Option<Task>)
      requires WellFormed(kv.data)
      modifies kv
      ensures WellFormed(kv.data)
      ensures kv.data == Updated(old(kv.data), userId, taskId, patch)
      ensures updated == match LookupTask(old(kv.data), userId, taskId)
                         case None => None
                         case Some(t) => Some(Merge(t, patch))
    {
      var task := FindById(userId, taskId);
      if task.None? {
        return None;
      }
      var updatedTask := Merge(task.value, patch);
      UpdateThenFind(kv.data, userId, taskId, patch);
      kv.Set(TaskKey(userId, updatedTask.id), TaskValue(updatedTask));
      return Some(updatedTask);
    }

    method Delete(userId: int, taskId: string) returns (deleted: bool)
      requires WellFormed(kv.data)
      modifies kv
      ensures WellFormed(kv.data)
      ensures deleted == LookupTask(old(kv.data), userId, taskId).Some?
      ensures kv.data == WithoutTask(old(kv.data), userId, taskId)
    {
      var task := FindById(userId, taskId);
      if task.None? {
        return false;
      }
      WellFormedMinus(kv.data, {TaskKey(userId, taskId)});
      kv.Delete(TaskKey(userId, taskId));
      return true;
    }

    /** `deleteAll`: one delete per listed task (run concurrently in the source, each on its own key). */
    method DeleteAll(userId: int)
      requires WellFormed(kv.data)
      modifies kv
      ensures WellFormed(kv.data)
      ensures kv.data == WithoutUserTasks(old(kv.data), userId)
    {
      var tasks := FindByUser(userId);
      ghost var before := kv.data;
      DeleteTaskKeys(kv, userId, tasks);
      DeletedListedTasks(before, userId);
    }
  }
}
