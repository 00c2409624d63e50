# Reminder and task store of a Telegram bot, modelled in Dafny

The bot keeps two kinds of user data in a Deno KV store:

- **Reminders**, each stored twice:
  - under a primary key `["reminders_by_user", userId, id]`, holding the whole record;
  - under a time key `["reminders_by_time", dueISO, id]`, holding only `(userId, id)`.
- **Tasks**, stored once under `["tasks_by_user", userId, id]`.

The repositories write these entries through atomic batches and read them back with prefix listings. The services format numbered lists and act on the k-th listed item. A scheduler tick lists every time key due before "now". For each one it notifies the owner and then deletes the reminder, or deletes the orphaned time key when no record is left. The conversation code checks the number a user types. The tests run against an in-memory mock of the store.

The model has two store layers:

- `Kv` is the contract of the real Deno KV store that the repositories and the scheduler run on:
  - tuple keys, ordered part by part;
  - a strict prefix: the prefix key itself is not listed;
  - an exclusive end bound;
  - `list` read as an ascending snapshot;
  - atomic batches applied in order.
- `KvMock` models `test/mocks/kv.mock.ts` as written:
  - keys flattened to strings;
  - a JavaScript `Map` kept in insertion order, shared by the store and its atomic batches;
  - prefix listing by string `startsWith`;
  - `KvU64` counters.

Modules:

| Module | Contents |
|---|---|
| `Wrappers` | `Option` and `Result`. |
| `Strings` | `join`, `split` and `String(number)`. |
| `Ordering` | Lexicographic order. |
| `Sorting` | A stable sort by key. |
| `Records` | The stored values. |
| `Schema` | The key layout and the store invariant `WellFormed`. |
| `RemindersRepository`, `RemindersService`, `RemindersConversations` | The reminder code. |
| `TasksRepository`, `TasksService` | The task code. |
| `Scheduler` | The scheduler tick. |
| `KvMock` | The test mock. |

Each imperative TypeScript class is a Dafny `class` whose methods change the shared `Kv.Store` (or the mock's `JsMap`). Each method is proved against a specification function of the old state. The properties are then proved about those functions as lemmas.

## Model

| member | source | states |
|---|---|---|
| Kv.KeyLessIrreflexive | src/core/scheduler.ts:22-25 | No key sorts before itself under the store's key order. |
| Kv.KeyLessTransitive | src/core/scheduler.ts:22-25 | The key order is transitive, so a ranged listing has a well-defined order. |
| Kv.KeyLessTrichotomous | src/core/scheduler.ts:22-25 | Any two distinct keys are ordered one way or the other. |
| Kv.ScanSpec | src/modules/reminders/reminders.repository.ts:48-51 | A listing holds exactly the stored entries its selector selects: one entry per selected key, each with the stored value, and no other entries. |
| Kv.ScanAscending | src/core/scheduler.ts:22-27 | Listed entries come in strictly ascending key order. |
| Kv.ScanAfterOverwrite | src/modules/tasks/tasks.repository.ts:42 | Overwriting an existing key leaves the selected key set and the listing order unchanged. |
| Kv.Store.Get | src/modules/reminders/reminders.repository.ts:61-66 | `get` finds a value exactly when the key is stored, and returns the stored value. |
| Kv.Store.Set | src/modules/tasks/tasks.repository.ts:15 | `set` stores the value at the key and changes no other key. |
| Kv.Store.Delete | src/core/scheduler.ts:59 | `delete` removes only the given key. |
| Kv.Store.Commit | src/modules/reminders/reminders.repository.ts:35-41 | A committed batch applies its mutations in order, as one step. |
| Kv.Store.List | src/modules/reminders/reminders.repository.ts:48 | The selection loop returns the selected entries in ascending key order, equal to the specification `Scan`. |
| Kv.Least | src/core/scheduler.ts:22-27 | Returns the smallest key of a non-empty set: it is in the set and below every other member. |
| Sorting.SortByStable | src/modules/reminders/reminders.repository.ts:52-54 | The sort is stable: the elements that share a `createdAt` come out in the order they went in, as `Array.prototype.sort` guarantees. |
| Schema.WellFormedPut | src/modules/reminders/reminders.repository.ts:35-41 | Storing an entry of the right shape keeps the store invariant. |
| Schema.WellFormedMinus | src/modules/reminders/reminders.repository.ts:73-76 | Deleting any keys keeps the store invariant. |
| RemindersRepository.UserScanSpec | src/modules/reminders/reminders.repository.ts:48-51 | The prefix scan of a user's primary keys yields exactly that user's stored reminders, each the record `findById` returns, one per key. |
| RemindersRepository.UserRemindersSpec | src/modules/reminders/reminders.repository.ts:46-55 | `findByUser` returns every stored reminder of the user and only those, once each, sorted by `createdAt` ascending. |
| RemindersRepository.SameMillisecondInScanOrder | src/modules/reminders/reminders.repository.ts:48-54 | Reminders created in the same millisecond are listed in the order the prefix scan returns them, which is their key order. |
| RemindersRepository.StoredIsScanned | src/modules/reminders/reminders.repository.ts:48 | Every stored primary record of the user shows up in the prefix scan. |
| RemindersRepository.ListedKeysAreUserKeys | src/modules/reminders/reminders.repository.ts:81-87 | The primary keys of the listed reminders are exactly the user's primary keys. |
| RemindersRepository.DeletedListedReminders | src/modules/reminders/reminders.repository.ts:81-87 | Deleting the primary key of every listed reminder removes exactly the user's primary entries. |
| RemindersRepository.CreateThenFind | src/modules/reminders/reminders.repository.ts:26-43 | After `create`, `findById` returns the new reminder and `findByUser` lists it. |
| RemindersRepository.CreateBatchWritesTwoKeys | src/modules/reminders/reminders.repository.ts:35-41 | Whatever was stored, committing `create`'s batch adds or overwrites exactly two keys: the record under its primary key and the reference under its time key. Every other key keeps its value. |
| RemindersRepository.CreateKeepsOthers | src/modules/reminders/reminders.repository.ts:35-41 | `create` changes no other reminder's record. |
| RemindersRepository.DeleteTwice | src/modules/reminders/reminders.repository.ts:69-79 | After `delete`, the reminder is gone, and a second `delete` changes nothing. |
| RemindersRepository.DeleteKeepsOthers | src/modules/reminders/reminders.repository.ts:73-76 | `delete` leaves every other reminder's record unchanged. |
| RemindersRepository.DeleteBatchRemovesTwoKeys | src/modules/reminders/reminders.repository.ts:73-76 | For a stored reminder, committing `delete`'s batch removes exactly its primary key and the time key computed from its stored date, and nothing else changes. |
| RemindersRepository.DeleteErasesBothIndexes | src/modules/reminders/reminders.repository.ts:73-78 | Deleting an existing reminder removes its primary key and leaves no time entry pointing at it. |
| RemindersRepository.CreatePreservesDualIndex | src/modules/reminders/reminders.repository.ts:35-41 | Given a fresh id, `create` keeps the dual-index invariant: every record has its own time entry, and every time entry points at its record or is an orphan. |
| RemindersRepository.DeletePreservesDualIndex | src/modules/reminders/reminders.repository.ts:69-79 | `delete` keeps the dual-index invariant. |
| RemindersRepository.DeleteAllPreservesDualIndex | src/modules/reminders/reminders.repository.ts:81-87 | `deleteAll` keeps the dual-index invariant. |
| RemindersRepository.DeleteAllLeavesOrphans | src/modules/reminders/reminders.repository.ts:81-87 | After `deleteAll`, each of the user's former reminders is gone and its time entry remains as an orphan. |
| RemindersRepository.DeletePrimaryKeys | src/modules/reminders/reminders.repository.ts:83-86 | The deletion loop removes exactly the primary keys of the given reminders. |
| RemindersRepository.CollectReminders | src/modules/reminders/reminders.repository.ts:49-51 | The push loop collects the listed records in listing order. |
| RemindersRepository.ReminderRepository.constructor | src/modules/reminders/reminders.repository.ts:3 | The repository works on the one shared store, the module-level `kv`, passed here as a parameter. |
| RemindersRepository.ReminderRepository.Create | src/modules/reminders/reminders.repository.ts:9-44 | An unparseable date throws before any write. Otherwise the reminder is built from the inputs, and exactly its primary and time entries are written. The store invariant is kept. |
| RemindersRepository.ReminderRepository.FindByUser | src/modules/reminders/reminders.repository.ts:46-55 | Returns the user's reminders in `createdAt` order, as `UserRemindersSpec` describes. |
| RemindersRepository.ReminderRepository.FindById | src/modules/reminders/reminders.repository.ts:57-67 | Returns the stored record for `(userId, id)`, or null when there is none. |
| RemindersRepository.ReminderRepository.Delete | src/modules/reminders/reminders.repository.ts:69-79 | Returns true exactly when the reminder existed. If it existed, both its primary key and the time key computed from its stored date are removed; if not, nothing changes. |
| RemindersRepository.ReminderRepository.DeleteAll | src/modules/reminders/reminders.repository.ts:81-87 | Removes exactly the user's primary entries and keeps every time entry. |
| RemindersService.RemindersListSpec | src/modules/reminders/reminders.service.ts:21-34 | The list text is the "No reminders in the list" sentinel exactly when there are no reminders. Otherwise, splitting it at newlines gives the numbered lines in order, with no trailing newline. |
| RemindersService.ReminderLineSingle | src/modules/reminders/reminders.service.ts:26-31 | A reminder whose texts have no newline renders as one line. |
| RemindersService.DeletedNotListed | src/modules/reminders/reminders.service.ts:36-50 | After `deleteReminder`, `getReminders` no longer contains that id. |
| RemindersService.ClearedListsNothing | src/modules/reminders/reminders.service.ts:52-54 | After `clearReminders`, `getReminders` is empty. |
| RemindersService.ReminderService.constructor | src/modules/reminders/reminders.service.ts:5 | The service works on the given repository. |
| RemindersService.ReminderService.AddReminder | src/modules/reminders/reminders.service.ts:7-15 | Returns and writes exactly what repository `create` does. |
| RemindersService.ReminderService.GetReminders | src/modules/reminders/reminders.service.ts:17-19 | Returns `findByUser`. |
| RemindersService.ReminderService.GetRemindersList | src/modules/reminders/reminders.service.ts:21-34 | Returns the formatted listing of `findByUser`. |
| RemindersService.ReminderService.DeleteReminder | src/modules/reminders/reminders.service.ts:36-50 | Returns null, and deletes nothing, when the id is missing. Otherwise it returns the stored record and deletes it. |
| RemindersService.ReminderService.ClearReminders | src/modules/reminders/reminders.service.ts:52-54 | Removes all of the user's reminder records. |
| RemindersConversations.ListedNumberAccepted | src/modules/reminders/reminders.conversations.ts:133-137 | The decimal form of n is accepted exactly when 1 <= n <= max. |
| RemindersConversations.IndexEdgeCases | src/modules/reminders/reminders.conversations.ts:133-137 | The empty text, "0" and max + 1 are rejected; "01" is accepted exactly when max >= 1. |
| RemindersConversations.LeadingZerosAccepted | src/modules/reminders/reminders.conversations.ts:135-136 | A leading zero does not change whether a digit string is accepted. |
| RemindersConversations.SelectReminder | src/modules/reminders/reminders.conversations.ts:113-116 | A validated number n is in bounds and selects `reminders[n-1]`, the reminder the listing shows on the line numbered n. |
| RemindersConversations.PromptSelectsListedLine | src/modules/reminders/reminders.conversations.ts:81-116 | The prompt opens with the same listing `getRemindersList` gives, line i starts with "i+1. ", and typing i+1 selects the i-th reminder. |
| Scheduler.Notifier.constructor | src/core/scheduler.ts:9-11 | A notifier starts with no attempts and a fixed set of unreachable chats. |
| Scheduler.Notifier.SendMessage | src/core/scheduler.ts:36-39 | Every send is logged. It succeeds exactly when the chat is reachable. |
| Scheduler.DueKeyIff | src/core/scheduler.ts:21-25 | A time key is listed by the tick exactly when its due text sorts strictly before "now": the end bound is exclusive. |
| Scheduler.DueScanIsTimeEntries | src/core/scheduler.ts:22-25 | The tick only visits time-index entries. |
| Scheduler.StepKeepsOthers | src/core/scheduler.ts:28-60 | Handling one entry leaves every reminder it does not point at unchanged. |
| Scheduler.ProcessShrinks | src/core/scheduler.ts:27-61 | A tick only deletes keys; it never adds or rewrites one. |
| Scheduler.ProcessKeepsUnreferenced | src/core/scheduler.ts:27-61 | Reminders that no visited entry points at survive the tick unchanged. |
| Scheduler.ProcessDeletesReferenced | src/core/scheduler.ts:28-53 | A reminder pointed at by a visited entry is deleted. If it existed when the tick started, its owner was sent "🔔 Reminder: " followed by its text. |
| Scheduler.NotifiedAtMostOnce | src/core/scheduler.ts:27-53 | Within one pass, a reminder gets exactly one message if it is stored and some listed entry points at it, and none otherwise: the first such entry deletes the record, so later entries find nothing to send. |
| Scheduler.TickFiresExactlyDue | src/core/scheduler.ts:20-62 | In a dual-indexed store, a reminder due before "now" is deleted and announced exactly once, whether or not the send succeeds. A reminder due at or after "now" is left as it was, with no message. |
| Scheduler.ProcessClearsListed | src/core/scheduler.ts:48-60 | Every visited time key is gone after the tick, whether it belonged to a reminder or was an orphan. |
| Scheduler.TickClearsDueKeys | src/core/scheduler.ts:20-62 | In a dual-indexed store, no due time key survives the tick. |
| Scheduler.StaleEntrySurvivesStep | src/core/scheduler.ts:48-60 | When a scanned time key is not the one computed from the record's date, the record is deleted without that key. The key survives, and a later visit removes it as an orphan without a notification. |
| Scheduler.StepPreservesDualIndex | src/core/scheduler.ts:28-60 | Handling one entry keeps the dual-index invariant. |
| Scheduler.ProcessPreservesDualIndex | src/core/scheduler.ts:27-61 | Handling a sequence of listed entries keeps the dual-index invariant. |
| Scheduler.TickPreservesDualIndex | src/core/scheduler.ts:20-62 | A whole tick keeps the dual-index invariant. |
| Scheduler.ProcessAt | src/core/scheduler.ts:27 | The tick's effect from entry i on is the step for entry i followed by the rest. |
| Scheduler.SchedulerService.constructor | src/core/scheduler.ts:9-11 | The scheduler works on the given bot and store. |
| Scheduler.SchedulerService.HandleEntry | src/core/scheduler.ts:28-60 | For an entry whose record exists: one send, then that reminder's deletion. For an orphan: no send, and only the scanned key is deleted. |
| Scheduler.SchedulerService.HandleEntries | src/core/scheduler.ts:27-61 | The loop over listed entries deletes and notifies as the `Process`/`Notices` folds say. A failed send does not stop the remaining entries. |
| Scheduler.SchedulerService.CheckAndSendReminders | src/core/scheduler.ts:20-62 | One tick applies `Process`/`Notices` to the snapshot of due time entries. |
| TasksRepository.MergeSpec | src/modules/tasks/tasks.repository.ts:41 | `update` overwrites only the supplied `isDone`/`text` fields, keeps `id`, `userId` and `createdAt`, and applying a patch twice is the same as once. |
| TasksRepository.UserTaskScanSpec | src/modules/tasks/tasks.repository.ts:19-24 | The prefix scan yields exactly the user's stored tasks, one per key. |
| TasksRepository.UserTasksSpec | src/modules/tasks/tasks.repository.ts:19-26 | `findByUser` returns every task of the user and only those, sorted by `createdAt` ascending. |
| TasksRepository.SameMillisecondTasksInScanOrder | src/modules/tasks/tasks.repository.ts:21-25 | Tasks created in the same millisecond are listed in their scan (key) order. |
| TasksRepository.CreateTaskThenFind | src/modules/tasks/tasks.repository.ts:7-17 | After `create`, `findById` returns the task and `findByUser` lists it. |
| TasksRepository.UpdateKeepsOthers | src/modules/tasks/tasks.repository.ts:33-51 | `update` and `delete` leave every other task unchanged. |
| TasksRepository.UpdateThenFind | src/modules/tasks/tasks.repository.ts:33-44 | `update` of a missing task writes nothing. Otherwise `findById` afterwards returns the merged task. |
| TasksRepository.PatchedScan | src/modules/tasks/tasks.repository.ts:41-42 | After `update`, the user's scan is the old scan with only that task patched. |
| TasksRepository.PatchMissesUnlisted | src/modules/tasks/tasks.repository.ts:38-39 | Patching a task id that is not stored changes no listed task. |
| TasksRepository.UpdateKeepsOrder | src/modules/tasks/tasks.repository.ts:33-44 | After `update`, `findByUser` is the old listing with only the updated task patched, in the same order. |
| TasksRepository.DeleteTaskSpec | src/modules/tasks/tasks.repository.ts:46-51 | After `delete` the task is gone, and deleting a missing task changes nothing. |
| TasksRepository.DeleteAllTasksSpec | src/modules/tasks/tasks.repository.ts:53-59 | After `deleteAll`, the user has no tasks, and every other user's tasks are unchanged. |
| TasksRepository.DeletedListedTasks | src/modules/tasks/tasks.repository.ts:53-59 | Deleting the key of every listed task removes exactly the user's tasks. |
| TasksRepository.ListedKeysAreTaskKeys | src/modules/tasks/tasks.repository.ts:53-59 | The keys of the listed tasks are exactly the user's task keys. |
| TasksRepository.DeleteTaskKeys | src/modules/tasks/tasks.repository.ts:55-58 | The deletion loop removes exactly the keys of the given tasks. |
| TasksRepository.CollectTasks | src/modules/tasks/tasks.repository.ts:21-23 | The push loop collects the listed tasks in listing order. |
| TasksRepository.TaskRepository.constructor | src/modules/tasks/tasks.repository.ts:1 | The repository works on the one shared store, the module-level `kv`, passed here as a parameter. |
| TasksRepository.TaskRepository.Create | src/modules/tasks/tasks.repository.ts:7-17 | Stores exactly one entry, the new undone task, under its key, and returns it. |
| TasksRepository.TaskRepository.FindByUser | src/modules/tasks/tasks.repository.ts:19-26 | Returns the user's tasks in `createdAt` order, as `UserTasksSpec` describes. |
| TasksRepository.TaskRepository.FindById | src/modules/tasks/tasks.repository.ts:28-31 | Returns the stored task, or null for a missing key. |
| TasksRepository.TaskRepository.Update | src/modules/tasks/tasks.repository.ts:33-44 | Returns null, writing nothing, for a missing task. Otherwise it stores and returns the merged task. |
| TasksRepository.TaskRepository.Delete | src/modules/tasks/tasks.repository.ts:46-51 | Returns true exactly when the task existed, and removes only its key. |
| TasksRepository.TaskRepository.DeleteAll | src/modules/tasks/tasks.repository.ts:53-59 | Removes exactly the user's tasks. |
| TasksService.TasksListSpec | src/modules/tasks/tasks.service.ts:15-27 | The list text is "No tasks in the list" exactly when there are no tasks. Otherwise, splitting it at newlines gives the marked, numbered lines in order. |
| TasksService.TaskLineSingle | src/modules/tasks/tasks.service.ts:21-24 | A task whose text has no newline renders as one line. |
| TasksService.ToggleAtSpec | src/modules/tasks/tasks.service.ts:37-44 | An index outside 1..len changes nothing. Otherwise the k-th task has `isDone` flipped, the listing keeps its length, and every other listed task is unchanged. |
| TasksService.ToggleOnce | src/modules/tasks/tasks.service.ts:37-44 | Toggling a listed task rewrites only its entry, with `isDone` flipped, and the same index then names the flipped task. |
| TasksService.ToggledFound | src/modules/tasks/tasks.service.ts:38-43 | Toggling the task found at an index writes that task back with `isDone` flipped. |
| TasksService.ToggleTwice | src/modules/tasks/tasks.service.ts:37-44 | Toggling the same index twice restores the store exactly. |
| TasksService.DeleteAtSpec | src/modules/tasks/tasks.service.ts:29-35 | An index outside 1..len changes nothing. Otherwise the k-th task is no longer listed and all other tasks remain listed. |
| TasksService.ClearedTasksListNothing | src/modules/tasks/tasks.service.ts:46-48 | After `clearTasks`, `getTasks` is empty. |
| TasksService.TaskService.constructor | src/modules/tasks/tasks.service.ts:5 | The service works on the given repository. |
| TasksService.TaskService.AddTask | src/modules/tasks/tasks.service.ts:7-9 | Returns and writes what repository `create` does. |
| TasksService.TaskService.GetTasks | src/modules/tasks/tasks.service.ts:11-13 | Returns `findByUser`. |
| TasksService.TaskService.GetTasksList | src/modules/tasks/tasks.service.ts:15-27 | Returns the formatted listing of `findByUser`. |
| TasksService.TaskService.DeleteTask | src/modules/tasks/tasks.service.ts:29-35 | Returns the k-th listed task and deletes it. Returns null, with no change, for an index outside 1..len. |
| TasksService.TaskService.ToggleTask | src/modules/tasks/tasks.service.ts:37-44 | Returns the k-th task with `isDone` flipped and stores it. Returns null, with no change, outside 1..len. |
| TasksService.TaskService.ClearTasks | src/modules/tasks/tasks.service.ts:46-48 | Removes exactly the user's tasks. |
| KvMock.KeyToStringParts | test/mocks/kv.mock.ts:7-14 | For parts without "/", splitting the flattened key at "/" gives back each part's rendering. |
| KvMock.StringAndNumberPartsCollide | test/mocks/kv.mock.ts:7-14 | Different keys can flatten to the same string: the string part "1" and the number part 1. |
| KvMock.WithoutDistinct | test/mocks/kv.mock.ts:125 | Removing a key from the insertion order keeps the keys distinct. |
| KvMock.MapUpdatesValid | test/mocks/kv.mock.ts:111-126 | After `set(k, v)`, `get(k)` is v. An existing key keeps its insertion position. `delete(k)` removes only k. Both keep the map valid. |
| KvMock.SumsAdd | test/mocks/kv.mock.ts:45-52 | While in range, two queued sums have the same effect as one sum of both amounts. |
| KvMock.SumOfMissing | test/mocks/kv.mock.ts:45-52 | A sum on a missing key counts from 0. |
| KvMock.MinMaxSpec | test/mocks/kv.mock.ts:54-72 | `min`/`max` leave the smaller/larger of the current and the new value, writing when the key is absent. Each is idempotent. |
| KvMock.ReplayThrowKeepsEarlierOps | test/mocks/kv.mock.ts:79-86 | When a counter leaves the 64-bit range, the commit throws at that operation, and every earlier operation stays applied. |
| KvMock.SetDeleteBatchCommits | test/mocks/kv.mock.ts:79-86 | A batch of sets and deletes always commits: `commit` returns ok. |
| KvMock.ApplyOpKeepsValid | test/mocks/kv.mock.ts:21-72 | Every queued operation keeps the map valid. |
| KvMock.ReplayKeepsValid | test/mocks/kv.mock.ts:79-86 | A commit, whether or not it throws, leaves the map valid. |
| KvMock.PrefixEntriesSpec | test/mocks/kv.mock.ts:134-145 | A prefix listing holds every stored string key that starts with the prefix string, in insertion order, each as a one-part key, and nothing else. |
| KvMock.PrefixEntriesUnique | test/mocks/kv.mock.ts:134-145 | A prefix listing never yields the same key twice. |
| KvMock.PrefixEntriesSnoc | test/mocks/kv.mock.ts:136-144 | Walking one more map key appends its entry exactly when it is stored and starts with the prefix. |
| KvMock.PrefixListingOvermatches | test/mocks/kv.mock.ts:134-145 | As written: the prefix for user 1's tasks also lists a task key of user 12, which does not have that prefix. |
| KvMock.UnderPrefixIsPartPrefix | test/mocks/kv.mock.ts:134-145 | Corrected: testing `startsWith(prefix + "/")` is exactly a part-wise prefix test on the rendered parts. |
| KvMock.CorrectedPrefixExcludesOtherUser | test/mocks/kv.mock.ts:134-145 | Under the corrected test, user 1's prefix no longer lists user 12's key. |
| KvMock.JsMap.constructor | test/mocks/kv.mock.ts:90 | A new map is empty. |
| KvMock.JsMap.Get | test/mocks/kv.mock.ts:92-109 | Returns the stored value, or null for a missing key. |
| KvMock.JsMap.Set | test/mocks/kv.mock.ts:111-121 | The new state is `Map.set`: an existing key keeps its position, and a new key is appended. |
| KvMock.JsMap.Delete | test/mocks/kv.mock.ts:123-126 | The new state is `Map.delete`: only that key is gone. |
| KvMock.JsMap.Clear | test/mocks/kv.mock.ts:175-177 | The map is empty afterwards. |
| KvMock.MockAtomic.constructor | test/mocks/kv.mock.ts:19 | A batch starts with no queued operations and shares the store's map. |
| KvMock.MockAtomic.Set | test/mocks/kv.mock.ts:21-26 | Queues a set and changes nothing else. |
| KvMock.MockAtomic.Delete | test/mocks/kv.mock.ts:28-33 | Queues a delete and changes nothing else. |
| KvMock.MockAtomic.Sum | test/mocks/kv.mock.ts:45-52 | Queues a sum and changes nothing else. |
| KvMock.MockAtomic.Min | test/mocks/kv.mock.ts:54-62 | Queues a min and changes nothing else. |
| KvMock.MockAtomic.Max | test/mocks/kv.mock.ts:64-72 | Queues a max and changes nothing else. |
| KvMock.MockAtomic.Run | test/mocks/kv.mock.ts:21-72 | Runs one queued operation on the shared map. It fails, with no change, exactly when a counter would leave the 64-bit range. |
| KvMock.MockAtomic.Commit | test/mocks/kv.mock.ts:79-86 | Applies the queued operations in insertion order. It stops at the first throwing one, with the earlier ones applied, and otherwise returns ok. |
| KvMock.MockKv.constructor | test/mocks/kv.mock.ts:89-90 | A new mock owns a fresh, empty map. |
| KvMock.MockKv.Get | test/mocks/kv.mock.ts:92-109 | Looks up the flattened key. A missing key gives null. |
| KvMock.MockKv.Set | test/mocks/kv.mock.ts:111-121 | Stores the value under the flattened key; a following `get` returns it. |
| KvMock.MockKv.Delete | test/mocks/kv.mock.ts:123-126 | Removes only the flattened key. |
| KvMock.MockKv.List | test/mocks/kv.mock.ts:128-168 | A prefix selector lists by string `startsWith` in insertion order, ignoring `start`/`end`. A range selector lists nothing. |
| KvMock.MockKv.Atomic | test/mocks/kv.mock.ts:170-172 | Returns a fresh, empty batch on the same map. |
| KvMock.MockKv.Close | test/mocks/kv.mock.ts:175-177 | Empties the store. |

## Left out

- Natural-language date parsing and locale rendering (`chrono.parseDate`, `toLocaleString("ru-RU")`) are foreign library calls. `Create` takes their result as a parameter: `None` stands for the null that makes the code throw before any write, and `Some` carries the ISO due text and its display string.
- `crypto.randomUUID()` and `new Date()` are parameters (the id and `createdAt`). `CreatePreservesDualIndex` assumes the id is fresh.
- The real store's key order compares due dates as their ISO-8601 text. That text sorts chronologically for the years the bot uses; no calendar arithmetic is modelled.
- `bot.api.sendMessage` is network I/O. It is a `Notifier` whose sends fail exactly for chats in a fixed "unreachable" set. The scheduler ignores the outcome, as the code does with its `catch`/`finally`.
- Kv.Store.Get, Kv.Store.Commit, Kv.Store.Delete, Kv.Store.List: every store operation succeeds. A rejected `get`, `delete` or `commit` is not modelled. In the code such a rejection throws out of `create`/`delete` and aborts the rest of a tick, which leaves the remaining due entries for a later tick. Scheduler.TickFiresExactlyDue and Scheduler.TickClearsDueKeys therefore hold for ticks in which the store does not fail.
- `SchedulerService.run` and `setInterval` are timer plumbing; the model covers one tick. Overlapping ticks and other concurrent writers are not modelled, and neither are the awaits inside a tick.
- Deno KV `list` paging, cursors, versionstamps and consistency levels are left out. A listing is a snapshot taken before the loop.
- Scheduler.DueKeyIff: the end bound is exclusive, as the code passes `end` to `list`. A description that calls it inclusive does not match the code, and the model follows the code.
- JavaScript numbers are unbounded integers here. Large or fractional user ids, the exponent form of `String(n)` for huge values and `Number(text)` precision are not modelled. Task indexes are integers; a fractional index, for which `tasks[index - 1]` is undefined in the code, cannot be expressed.
- `bigint` key parts are merged with numbers in `Kv.KeyPart`; the mock's `keyToString` renders both with `String()`.
- The mock's `check` is a no-op with no state, and `mutate`/`enqueue` only throw, so they are not modelled. The `list` iterator protocol and versionstamp strings are replaced by a returned sequence.
- The mock reads a stored value's `.value` as the counter. The bot's records have no such field, so the model reads any non-counter value as absent (0 for `sum`). A value whose `value` field is not a `bigint`, which would make `current + n` throw, is not modelled.
- KvMock.MockAtomic.Commit: the code returns `{ ok: true }` whenever it returns. The model states this as "Committed", and a counter out of range makes the commit throw partway through, which the model records as an outcome instead of an exception.
- The grammY glue (conversations' wait loops, handlers, menus, modules, `bot.ts`, `src/core/app.ts`, configuration and `src/core/database.ts`) and the legacy session code are not part of this model.

## Findings

| source | as written | input that shows it | evidently intended | confidence | as-written member | corrected member |
|---|---|---|---|---|---|---|
| test/mocks/kv.mock.ts:134-145 | `list({prefix})` keeps every key whose flattened string starts with the flattened prefix | prefix `["tasks_by_user", 1]` against stored key `["tasks_by_user", 12, "t"]`: "tasks_by_user/12/t" starts with "tasks_by_user/1", so user 1's listing includes user 12's task | part-wise prefix matching, as the real store does: test `startsWith(prefix + "/")` | not executed | KvMock.PrefixListingOvermatches | KvMock.UnderPrefixIsPartPrefix |
