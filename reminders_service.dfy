/**
 * ReminderService: the use cases over the reminder repository, and the
 * numbered text listing shown to the user.
 */
module RemindersService {
  import opened Wrappers
  import opened Records
  import opened Kv
  import opened Schema
  import opened Strings
  import opened RemindersRepository

  const NO_REMINDERS: string := "No reminders in the list"

  /** The n-th line of a listing: "{n}. {text} ({display date})". */
  function ReminderLine(r: Reminder, n: nat): string
  {
    NatToString(n) + ". " + r.reminderString + " (" + r.reminderToDateString + ")"
  }

  function ReminderLines(rs: seq<Reminder>): (lines: seq<string>)
    ensures |lines| == |rs|
  {
    seq(|rs|, i requires 0 <= i < |rs| => ReminderLine(rs[i], i + 1))
  }

  /** The listing of `getRemindersList` for the reminders `findByUser` returned. */
  function RemindersList(rs: seq<Reminder>): string
  {
    if |rs| == 0 then NO_REMINDERS else Join(ReminderLines(rs), '\n')
  }

  predicate SingleLine(r: Reminder)
  {
    '\n' !in r.reminderString && '\n' !in r.reminderToDateString
  }

  /**
   * The sentinel is returned exactly for an empty list; otherwise the text
   * splits at its line breaks back into one numbered line per reminder, in
   * order, when no reminder text spans lines.
   */
  lemma RemindersListSpec(rs: seq<Reminder>)
    ensures RemindersList(rs) == NO_REMINDERS <==> |rs| == 0
    ensures |rs| > 0 && (forall i | 0 <= i < |rs| :: SingleLine(rs[i])) ==>
      Split(RemindersList(rs), '\n') == ReminderLines(rs)
  {
    if |rs| > 0 {
      var lines := ReminderLines(rs);
      JoinStartsWithFirst(lines, '\n');
      var first := NatToString(1);
      assert lines[0] == first + ". " + rs[0].reminderString + " (" + rs[0].reminderToDateString + ")";
      assert lines[0][0] == first[0];
      assert IsDigit(RemindersList(rs)[0]);
      assert RemindersList(rs)[0] != NO_REMINDERS[0];
      if forall i | 0 <= i < |rs| :: SingleLine(rs[i]) {
        forall i | 0 <= i < |lines| ensures '\n' !in lines[i] {
          ReminderLineSingle(rs[i], i + 1);
        }
        SplitJoin(lines, '\n');
      }
    }
  }

  lemma ReminderLineSingle(r: Reminder, n: nat)
    requires SingleLine(r)
    ensures '\n' !in ReminderLine(r, n)
  {
    var num := NatToString(n);
    assert forall c | c in num :: IsDigit(c);
  }

  /** A deleted reminder is no longer listed for its owner. */
  lemma DeletedNotListed(data: map<Key, Value>, userId: int, reminderId: string)
    requires WellFormed(data)
    ensures WellFormed(WithoutReminder(data, userId, reminderId))
    ensures forall r | r in UserReminders(WithoutReminder(data, userId, reminderId), userId) ::
      r.reminderId != reminderId
  {
    var after := WithoutReminder(data, userId, reminderId);
    if Lookup(data, userId, reminderId).Some? {
      var r := Lookup(data, userId, reminderId).value;
      WellFormedMinus(data, {PrimaryKey(userId, reminderId), TimeKey(r.reminderDate, reminderId)});
    }
    DeleteTwice(data, userId, reminderId);
    UserRemindersSpec(after, userId);
  }

  /** After `clearReminders(u)` nothing is listed for u. */
  lemma ClearedListsNothing(data: map<Key, Value>, userId: int)
    requires WellFormed(data)
    ensures WellFormed(WithoutUser(data, userId))
    ensures UserReminders(WithoutUser(data, userId), userId) == []
  {
    var after := WithoutUser(data, userId);
    WellFormedMinus(data, UserKeys(data, userId));
    UserRemindersSpec(after, userId);
    assert UserKeys(after, userId) == {};
  }

  class ReminderService {
    const reminderRepository: ReminderRepository

    constructor (reminderRepository: ReminderRepository)
      ensures this.reminderRepository == reminderRepository
    {
      this.reminderRepository := reminderRepository;
    }

    method AddReminder(reminderUserId: int, reminderString: string, reminderId: string,
                       due: Option<DueDate>, createdAt: int)
      returns (result: Result<Reminder, CreateError>)
      requires WellFormed(reminderRepository.kv.data)
      modifies reminderRepository.kv
      ensures WellFormed(reminderRepository.kv.data)
      ensures due.None? ==> result == Failure(InvalidDate) && reminderRepository.kv.data == old(reminderRepository.kv.data)
      ensures due.Some? ==>
        && result == Success(NewReminder(reminderUserId, reminderString, reminderId, due.value, createdAt))
        && reminderRepository.kv.data == WithReminder(old(reminderRepository.kv.data), result.value)
    {
      result := reminderRepository.Create(reminderUserId, reminderString, reminderId, due, createdAt);
    }

    method GetReminders(reminderUserId: int) returns (reminders: seq<Reminder>)
      requires WellFormed(reminderRepository.kv.data)
      ensures reminders == UserReminders(reminderRepository.kv.data, reminderUserId)
    {
      reminders := reminderRepository.FindByUser(reminderUserId);
    }

    method GetRemindersList(reminderUserId: int) returns (text: string)
      requires WellFormed(reminderRepository.kv.data)
      ensures text == RemindersList(UserReminders(reminderRepository.kv.data, reminderUserId))
    {
      var reminders := GetReminders(reminderUserId);
      text := RemindersList(reminders);
    }

    /** `deleteReminder`: the deleted record, or none when it was not stored. */
    method DeleteReminder(reminderUserId: int, reminderId: string) returns (deleted: Option<Reminder>)
      requires WellFormed(reminderRepository.kv.data)
      modifies reminderRepository.kv
      ensures WellFormed(reminderRepository.kv.data)
      ensures deleted == Lookup(old(reminderRepository.kv.data), reminderUserId, reminderId)
      ensures reminderRepository.kv.data == WithoutReminder(old(reminderRepository.kv.data), reminderUserId, reminderId)
    {
      var reminderToDelete := reminderRepository.FindById(reminderUserId, reminderId);
      if reminderToDelete.None? {
        return None;
      }
      assert EntryOk(PrimaryKey(reminderUserId, reminderId), ReminderValue(reminderToDelete.value));
      var _ := reminderRepository.Delete(reminderUserId, reminderToDelete.value.reminderId);
      return reminderToDelete;
    }

    method ClearReminders(reminderUserId: int)
      requires WellFormed(reminderRepository.kv.data)
      modifies reminderRepository.kv
      ensures WellFormed(reminderRepository.kv.data)
      ensures reminderRepository.kv.data == WithoutUser(old(reminderRepository.kv.data), reminderUserId)
    {
      reminderRepository.DeleteAll(reminderUserId);
    }
  }
}
