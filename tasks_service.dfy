/**
 * TaskService: the use cases over the task repository; tasks are addressed
 * by their 1-based position in the user's list.
 */
module TasksService {
  import opened Wrappers
  import opened Records
  import opened Kv
  import opened Schema
  import opened Strings
  import opened Sorting
  import opened TasksRepository

  const NO_TASKS: string := "No tasks in the list"

  function Mark(t: Task): string
  {
    if t.isDone then "\U{2705}" else "\U{274C}"
  }

  function Status(t: Task): string
  {
    if t.isDone then "(done)" else "(undone)"
  }

  /** The n-th line of a listing: "{mark} {n}. {text} {status}". */
  function TaskLine(t: Task, n: nat): string
  {
    Mark(t) + " " + NatToString(n) + ". " + t.text + " " + Status(t)
  }

  function TaskLines(ts: seq<Task>): (lines: seq<string>)
    ensures |lines| == |ts|
  {
    seq(|ts|, i requires 0 <= i < |ts| => TaskLine(ts[i], i + 1))
  }

  function TasksList(ts: seq<Task>): string
  {
    if |ts| == 0 then NO_TASKS else Join(TaskLines(ts), '\n')
  }

  /**
   * The sentinel is returned exactly for an empty list; otherwise the text
   * splits at its line breaks back into one line per task, in order, when no
   * task text spans lines.
   */
  lemma TasksListSpec(ts: seq<Task>)
    ensures TasksList(ts) == NO_TASKS <==> |ts| == 0
    ensures |ts| > 0 && (forall i | 0 <= i < |ts| :: '\n' !in ts[i].text) ==>
      Split(TasksList(ts), '\n') == TaskLines(ts)
  {
    if |ts| > 0 {
      var lines := TaskLines(ts);
      JoinStartsWithFirst(lines, '\n');
      assert lines[0][0] == Mark(ts[0])[0];
      assert TasksList(ts)[0] != NO_TASKS[0];
      if forall i | 0 <= i < |ts| :: '\n' !in ts[i].text {
        forall i | 0 <= i < |lines| ensures '\n' !in lines[i] {
          TaskLineSingle(ts[i], i + 1);
        }
        SplitJoin(lines, '\n');
      }
    }
  }

  lemma TaskLineSingle(t: Task, n: nat)
    requires '\n' !in t.text
    ensures '\n' !in TaskLine(t, n)
  {
    var num := NatToString(n);
    assert forall c | c in num :: IsDigit(c);
  }

  /** `tasks[index - 1]` of the user's list; out of range it is `undefined`. */
  ghost function TaskAt(data: map<Key, Value>, userId: int, index: int): Option<Task>
    requires WellFormed(data)
  {
    var ts := UserTasks(data, userId);
    if 1 <= index <= |ts| then Some(ts[index - 1]) else None
  }

  function FlipPatch(t: Task): TaskPatch
  {
    TaskPatch(Some(!t.isDone), None)
  }

  /** The store after `toggleTask`. */
  ghost function ToggledAt(data: map<Key, Value>, userId: int, index: int): map<Key, Value>
    requires WellFormed(data)
  {
    match TaskAt(data, userId, index)
    case None => data
    case Some(t) => Updated(data, userId, t.id, FlipPatch(t))
  }

  /** The store after `deleteTask`. */
  ghost function DeletedAt(data: map<Key, Value>, userId: int, index: int): map<Key, Value>
    requires WellFormed(data)
  {
    match TaskAt(data, userId, index)
    case None => data
    case Some(t) => WithoutTask(data, userId, t.id)
  }

  /**
   * Toggling the k-th task flips its `isDone` in place: the list keeps its
   * order and every other task.
   */
  lemma ToggleAtSpec(data: map<Key, Value>, userId: int, index: int)
    requires WellFormed(data)
    ensures WellFormed(ToggledAt(data, userId, index))
    ensures TaskAt(data, userId, index).None? ==> ToggledAt(data, userId, index) == data
    ensures TaskAt(data, userId, index).Some? ==>
      var t := TaskAt(data, userId, index).value;
      var before := UserTasks(data, userId);
      var after := UserTasks(ToggledAt(data, userId, index), userId);
      && |after| == |before|
      && after[index - 1] == t.(isDone := !t.isDone)
      && forall j | 0 <= j < |before| && before[j].id != t.id :: after[j] == before[j]
  {
    if TaskAt(data, userId, index).Some? {
      var t := TaskAt(data, userId, index).value;
      UpdateKeepsOrder(data, userId, t.id, FlipPatch(t));
    }
  }

  lemma ToggleOnce(data: map<Key, Value>, userId: int, index: int)
    requires WellFormed(data) && TaskAt(data, userId, index).Some?
    ensures var t := TaskAt(data, userId, index).value;
      var once := ToggledAt(data, userId, index);
      && WellFormed(once)
      && TaskKey(userId, t.id) in data && data[TaskKey(userId, t.id)] == TaskValue(t)
      && once == data[TaskKey(userId, t.id) := TaskValue(t.(isDone := !t.isDone))]
      && TaskAt(once, userId, index) == Some(t.(isDone := !t.isDone))
      && LookupTask(once, userId, t.id) == Some(t.(isDone := !t.isDone))
  {
    ToggleAtSpec(data, userId, index);
    var t := TaskAt(data, userId, index).value;
    UserTasksSpec(data, userId);
    assert t in UserTasks(data, userId);
    UpdateThenFind(data, userId, t.id, FlipPatch(t));
  }

  lemma ToggledFound(data: map<Key, Value>, userId: int, index: int, t: Task)
    requires WellFormed(data) && TaskAt(data, userId, index) == Some(t)
    requires LookupTask(data, userId, t.id) == Some(t)
    ensures ToggledAt(data, userId, index) == data[TaskKey(userId, t.id) := TaskValue(t.(isDone := !t.isDone))]
  {
  }

  /** Toggling the same position twice restores the store. */
  lemma ToggleTwice(data: map<Key, Value>, userId: int, index: int)
    requires WellFormed(data)
    ensures WellFormed(ToggledAt(data, userId, index))
    ensures ToggledAt(ToggledAt(data, userId, index), userId, index) == data
  {
    if TaskAt(data, userId, index).Some? {
      var t := TaskAt(data, userId, index).value;
      var t1 := t.(isDone := !t.isDone);
      ToggleOnce(data, userId, index);
      ToggledFound(ToggledAt(data, userId, index), userId, index, t1);
      RestoreEntry(data, TaskKey(userId, t.id), TaskValue(t1), TaskValue(t));
    }
  }

  lemma RestoreEntry(data: map<Key, Value>, k: Key, x: Value, y: Value)
    requires k in data && data[k] == y
    ensures data[k := x][k := y] == data
  {
  }

  /** Deleting the k-th task removes that task and keeps every other listed task. */
  lemma DeleteAtSpec(data: map<Key, Value>, userId: int, index: int)
    requires WellFormed(data)
    ensures WellFormed(DeletedAt(data, userId, index))
    ensures TaskAt(data, userId, index).None? ==> DeletedAt(data, userId, index) == data
    ensures TaskAt(data, userId, index).Some? ==>
      var t := TaskAt(data, userId, index).value;
      var after := UserTasks(DeletedAt(data, userId, index), userId);
      && t !in after
      && forall u | u in UserTasks(data, userId) && u.id != t.id :: u in after
  {
    if TaskAt(data, userId, index).Some? {
      var t := TaskAt(data, userId, index).value;
      var d := DeletedAt(data, userId, index);
      DeleteTaskSpec(data, userId, t.id);
      UserTasksSpec(data, userId);
      UserTasksSpec(d, userId);
      forall u | u in UserTasks(data, userId) && u.id != t.id ensures u in UserTasks(d, userId) {
        UpdateKeepsOthers(data, userId, t.id, TaskPatch(None, None), userId, u.id);
      }
    }
  }

  /** After `clearTasks(u)` nothing is listed for u. */
  lemma ClearedTasksListNothing(data: map<Key, Value>, userId: int)
    requires WellFormed(data)
    ensures WellFormed(WithoutUserTasks(data, userId))
    ensures UserTasks(WithoutUserTasks(data, userId), userId) == []
  {
    var after := WithoutUserTasks(data, userId);
    WellFormedMinus(data, TaskKeys(data, userId));
    UserTasksSpec(after, userId);
    assert TaskKeys(after, userId) == {};
  }

  class TaskService {
    const taskRepository: TaskRepository

    constructor (taskRepository: TaskRepository)
      ensures this.taskRepository == taskRepository
    {
      this.taskRepository := taskRepository;
    }

    method AddTask(userId: int, text: string, taskId: string, createdAt: int) returns (task: Task)
      requires WellFormed(taskRepository.kv.data)
      modifies taskRepository.kv
      ensures WellFormed(taskRepository.kv.data)
      ensures task == NewTask(taskId, userId, text, createdAt)
      ensures taskRepository.kv.data == WithTask(old(taskRepository.kv.data), task)
    {
      task := taskRepository.Create(userId, text, taskId, createdAt);
    }

    method GetTasks(userId: int) returns (tasks: seq<Task>)
      requires WellFormed(taskRepository.kv.data)
      ensures tasks == UserTasks(taskRepository.kv.data, userId)
    {
      tasks := taskRepository.FindByUser(userId);
    }

    method GetTasksList(userId: int) returns (text: string)
      requires WellFormed(taskRepository.kv.data)
      ensures text == TasksList(UserTasks(taskRepository.kv.data, userId))
    {
      var tasks := GetTasks(userId);
      text := TasksList(tasks);
    }

    method DeleteTask(userId: int, index: int) returns (deleted: Option<Task>)
      requires WellFormed(taskRepository.kv.data)
      modifies taskRepository.kv
      ensures WellFormed(taskRepository.kv.data)
      ensures deleted == TaskAt(old(taskRepository.kv.data), userId, index)
      ensures taskRepository.kv.data == DeletedAt(old(taskRepository.kv.data), userId, index)
    {
      var tasks := taskRepository.FindByUser(userId);
      if !(1 <= index <= |tasks|) {
        return None;
      }
      var taskToDelete := tasks[index - 1];
      var _ := taskRepository.Delete(userId, taskToDelete.id);
      return Some(taskToDelete);
    }

    method ToggleTask(userId: int, index: int) returns (toggled: Option<Task>)
      requires WellFormed(taskRepository.kv.data)
      modifies taskRepository.kv
      ensures WellFormed(taskRepository.kv.data)
      ensures taskRepository.kv.data == ToggledAt(old(taskRepository.kv.data), userId, index)
      ensures toggled == match TaskAt(old(taskRepository.kv.data), userId, index)
                         case None => None
                         case Some(t) => Some(t.(isDone := !t.isDone))
    {
      var tasks := taskRepository.FindByUser(userId);
      if !(1 <= index <= |tasks|) {
        return None;
      }
      var taskToToggle := tasks[index - 1];
      UserTasksSpec(taskRepository.kv.data, userId);
      assert taskToToggle in tasks;
      toggled := taskRepository.Update(userId, taskToToggle.id, FlipPatch(taskToToggle));
    }

    method ClearTasks(userId: int)
      requires WellFormed(taskRepository.kv.data)
      modifies taskRepository.kv
      ensures WellFormed(taskRepository.kv.data)
      ensures taskRepository.kv.data == WithoutUserTasks(old(taskRepository.kv.data), userId)
    {
      taskRepository.DeleteAll(userId);
    }
  }
}
