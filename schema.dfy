/**
 * The store layout shared by the reminder and task repositories:
 *   ["reminders_by_user", userId, reminderId] -> Reminder      (primary index)
 *   ["reminders_by_time", dueISO, reminderId] -> {userId, id}  (time index)
 *   ["tasks_by_user", userId, taskId]         -> Task
 */
module Schema {
  import opened Kv
  import opened Records

  const REMINDERS_KEY: string := "reminders_by_user"
  const TIME_INDEX_KEY: string := "reminders_by_time"
  const TASKS_KEY: string := "tasks_by_user"

  function PrimaryKey(userId: int, reminderId: string): Key
  {
    [Str(REMINDERS_KEY), Num(userId), Str(reminderId)]
  }

  function TimeKey(iso: string, reminderId: string): Key
  {
    [Str(TIME_INDEX_KEY), Str(iso), Str(reminderId)]
  }

  function TaskKey(userId: int, taskId: string): Key
  {
    [Str(TASKS_KEY), Num(userId), Str(taskId)]
  }

  function UserPrefix(userId: int): Key
  {
    [Str(REMINDERS_KEY), Num(userId)]
  }

  function TaskPrefix(userId: int): Key
  {
    [Str(TASKS_KEY), Num(userId)]
  }

  predicate InNamespace(k: Key, name: string)
  {
    |k| > 0 && k[0] == Str(name)
  }

  lemma NamespacesDistinct()
    ensures REMINDERS_KEY != TIME_INDEX_KEY && REMINDERS_KEY != TASKS_KEY && TIME_INDEX_KEY != TASKS_KEY
  {
    assert REMINDERS_KEY[13] != TIME_INDEX_KEY[13];
  }

  /**
   * What the repositories keep under each namespace: a primary entry holds the
   * reminder whose owner and id its key names, a time-index entry holds a
   * reference, a task entry holds the task its key names.
   */
  predicate EntryOk(k: Key, v: Value)
  {
    && (InNamespace(k, REMINDERS_KEY) ==>
          v.ReminderValue? && k == PrimaryKey(v.reminder.reminderUserId, v.reminder.reminderId))
    && (InNamespace(k, TIME_INDEX_KEY) ==> v.TimeValue?)
    && (InNamespace(k, TASKS_KEY) ==> v.TaskValue? && k == TaskKey(v.task.userId, v.task.id))
  }

  ghost predicate WellFormed(data: map<Key, Value>)
  {
    forall k | k in data :: EntryOk(k, data[k])
  }

  lemma WellFormedPut(data: map<Key, Value>, k: Key, v: Value)
    requires WellFormed(data) && EntryOk(k, v)
    ensures WellFormed(data[k := v])
  {
  }

  lemma WellFormedMinus(data: map<Key, Value>, gone: set<Key>)
    requires WellFormed(data)
    ensures WellFormed(data - gone)
  {
  }
}
