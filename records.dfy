/**
 * The values the reminder and task modules keep in the key-value store.
 * Dates are represented by what the code reads from them: a due date by its
 * `toISOString()` text (which sorts chronologically) and `createdAt` by its
 * `getTime()` milliseconds.
 */
module Records {

  /** A stored reminder; `reminderDate` is the ISO-8601 UTC text of the due instant. */
  datatype Reminder = Reminder(
    reminderString: string,
    reminderDate: string,
    reminderToDateString: string,
    reminderId: string,
    reminderUserId: int,
    createdAt: int)

  /** The value of a time-index entry: which primary record the entry points at. */
  datatype TimeRef = TimeRef(reminderUserId: int, reminderId: string)

  datatype Task = Task(id: string, userId: int, text: string, isDone: bool, createdAt: int)

  /** Everything a store entry can hold; `U64` is a `Deno.KvU64` counter. */
  datatype Value =
    | ReminderValue(reminder: Reminder)
    | TimeValue(ref: TimeRef)
    | TaskValue(task: Task)
    | U64(n: int)
}
