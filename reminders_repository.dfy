/**
 * ReminderRepository: keeps every reminder twice, once under its owner
 * (primary index) and once under its due time (time index).
 */
module RemindersRepository {
  import opened Wrappers
  import opened Records
  import opened Kv
  import opened Schema
  import opened Sorting

  /**
   * What the date collaborator makes of the reminder text: the due instant as
   * `toISOString()` and its `toLocaleString("ru-RU", ...)` rendering.
   */
  datatype DueDate = DueDate(iso: string, display: string)

  /** `chrono.parseDate` found no date: reading `toLocaleString` of `null` throws. */
  datatype CreateError = InvalidDate

  function CreatedAt(r: Reminder): int
  {
    r.createdAt
  }

  /** The primary record of (userId, reminderId), if stored. */
  function Lookup(data: map<Key, Value>, userId: int, reminderId: string): Option<Reminder>
  {
    var k := PrimaryKey(userId, reminderId);
    if k in data && data[k].ReminderValue? then Some(data[k].reminder) else None
  }

  function NewReminder(reminderUserId: int, reminderString: string, reminderId: string, due: DueDate, createdAt: int): Reminder
  {
    Reminder(reminderString, due.iso, due.display, reminderId, reminderUserId, createdAt)
  }

  /** The store after the atomic batch of `create`. */
  function WithReminder(data: map<Key, Value>, r: Reminder): map<Key, Value>
  {
    data[PrimaryKey(r.reminderUserId, r.reminderId) := ReminderValue(r)]
        [TimeKey(r.reminderDate, r.reminderId) := TimeValue(TimeRef(r.reminderUserId, r.reminderId))]
  }

  /** The store after `delete`: both entries of a stored reminder go, the time key computed from its stored date. */
  function WithoutReminder(data: map<Key, Value>, userId: int, reminderId: string): map<Key, Value>
  {
    match Lookup(data, userId, reminderId)
    case None => data
    case Some(r) => data - {PrimaryKey(userId, reminderId), TimeKey(r.reminderDate, reminderId)}
  }

  /** The atomic batch `create` commits: the primary entry, then the time-index entry. */
  function CreateBatch(r: Reminder): seq<Mutation>
  {
    [ Put(PrimaryKey(r.reminderUserId, r.reminderId), ReminderValue(r)),
      Put(TimeKey(r.reminderDate, r.reminderId), TimeValue(TimeRef(r.reminderUserId, r.reminderId))) ]
  }

  /**
   * Whatever was stored, committing `create`'s batch stores exactly two
   * entries: the record under its primary key and the reference under its
   * time key. Every other key keeps its value.
   */
  lemma CreateBatchWritesTwoKeys(data: map<Key, Value>, r: Reminder)
    ensures var after := Apply(data, CreateBatch(r));
      var pk := PrimaryKey(r.reminderUserId, r.reminderId);
      var tk := TimeKey(r.reminderDate, r.reminderId);
      && after == WithReminder(data, r)
      && after.Keys == data.Keys + {pk, tk}
      && after[pk] == ReminderValue(r)
      && after[tk] == TimeValue(TimeRef(r.reminderUserId, r.reminderId))
      && forall k | k in data && k != pk && k != tk :: after[k] == data[k]
  {
    NamespacesDistinct();
    var pk := PrimaryKey(r.reminderUserId, r.reminderId);
    var tk := TimeKey(r.reminderDate, r.reminderId);
    var tv := TimeValue(TimeRef(r.reminderUserId, r.reminderId));
    var b := CreateBatch(r);
    assert b[1..] == [Put(tk, tv)] && b[1..][1..] == [];
    assert Apply(data, b) == Apply(data[pk := ReminderValue(r)], [Put(tk, tv)]) == data[pk := ReminderValue(r)][tk := tv];
    assert pk[0] != tk[0];
  }

  /**
   * Committing `delete`'s batch for a stored reminder removes exactly its
   * primary key and the time key computed from its stored date.
   */
  lemma DeleteBatchRemovesTwoKeys(data: map<Key, Value>, userId: int, reminderId: string)
    requires Lookup(data, userId, reminderId).Some?
    ensures var r := Lookup(data, userId, reminderId).value;
      var pk := PrimaryKey(userId, reminderId);
      var tk := TimeKey(r.reminderDate, reminderId);
      var after := Apply(data, [Remove(pk), Remove(tk)]);
      && after == WithoutReminder(data, userId, reminderId)
      && pk in data && after.Keys == data.Keys - {pk, tk}
      && forall k | k in after :: after[k] == data[k]
  {
    var r := Lookup(data, userId, reminderId).value;
    var pk := PrimaryKey(userId, reminderId);
    var tk := TimeKey(r.reminderDate, reminderId);
    var ops := [Remove(pk), Remove(tk)];
    assert ops[1..] == [Remove(tk)] && ops[1..][1..] == [];
    assert Apply(data, ops) == Apply(data - {pk}, [Remove(tk)]) == data - {pk} - {tk};
    assert data - {pk} - {tk} == data - {pk, tk};
  }

  /** The primary keys of one user: what `list({prefix: ["reminders_by_user", userId]})` selects. */
  function UserKeys(data: map<Key, Value>, userId: int): set<Key>
  {
    Selected(data, Prefix(UserPrefix(userId)))
  }

  /** The store after `deleteAll`: the user's primary entries go, the time index stays. */
  function WithoutUser(data: map<Key, Value>, userId: int): map<Key, Value>
  {
    data - UserKeys(data, userId)
  }

  function RemindersOf(entries: seq<Entry>): seq<Reminder>
    requires forall i | 0 <= i < |entries| :: entries[i].value.ReminderValue?
  {
    seq(|entries|, i requires 0 <= i < |entries| => entries[i].value.reminder)
  }

  lemma UserKeysHoldReminders(data: map<Key, Value>, userId: int)
    requires WellFormed(data)
    ensures forall k | k in UserKeys(data, userId) ::
      && data[k].ReminderValue?
      && k == PrimaryKey(userId, data[k].reminder.reminderId)
      && data[k].reminder.reminderUserId == userId
  {
    forall k | k in UserKeys(data, userId)
      ensures data[k].ReminderValue? && k == PrimaryKey(userId, data[k].reminder.reminderId)
    {
      assert k[..2] == UserPrefix(userId);
      assert k[0] == Str(REMINDERS_KEY) && k[1] == Num(userId);
    }
  }

  /** Every entry listed under a user's prefix is one of that user's reminders. */
  lemma UserScanHoldsReminders(data: map<Key, Value>, userId: int)
    requires WellFormed(data)
    ensures var es := Scan(data, Prefix(UserPrefix(userId)));
      forall i | 0 <= i < |es| :: es[i].value.ReminderValue?
  {
    ScanSpec(data, Prefix(UserPrefix(userId)));
    UserKeysHoldReminders(data, userId);
  }

  /** `findByUser`: the user's primary records, sorted by `createdAt`. */
  ghost function UserReminders(data: map<Key, Value>, userId: int): seq<Reminder>
    requires WellFormed(data)
  {
    UserScanHoldsReminders(data, userId);
    SortBy(RemindersOf(Scan(data, Prefix(UserPrefix(userId)))), CreatedAt)
  }

  /** The reminders listed under a user's prefix, before sorting: each stored one of u's, once. */
  lemma UserScanSpec(data: map<Key, Value>, userId: int)
    requires WellFormed(data)
    ensures var us := (UserScanHoldsReminders(data, userId); RemindersOf(Scan(data, Prefix(UserPrefix(userId)))));
      && |us| == |UserKeys(data, userId)|
      && (forall i | 0 <= i < |us| :: us[i].reminderUserId == userId && Lookup(data, userId, us[i].reminderId) == Some(us[i]))
      && (forall id | Lookup(data, userId, id).Some? :: Lookup(data, userId, id).value in us)
  {
    var sel := Prefix(UserPrefix(userId));
    var entries := Scan(data, sel);
    ScanSpec(data, sel);
    UserKeysHoldReminders(data, userId);
    var us := RemindersOf(entries);
    forall i | 0 <= i < |us| ensures us[i].reminderUserId == userId && Lookup(data, userId, us[i].reminderId) == Some(us[i]) {
      assert entries[i].key in UserKeys(data, userId);
    }
    forall id | Lookup(data, userId, id).Some? ensures Lookup(data, userId, id).value in us {
      StoredIsScanned(data, userId, id);
      var i :| 0 <= i < |entries| && entries[i].key == PrimaryKey(userId, id);
      assert us[i] == Lookup(data, userId, id).value;
    }
  }

  lemma StoredIsScanned(data: map<Key, Value>, userId: int, id: string)
    requires Lookup(data, userId, id).Some?
    ensures exists i | 0 <= i < |Scan(data, Prefix(UserPrefix(userId)))| ::
      Scan(data, Prefix(UserPrefix(userId)))[i].key == PrimaryKey(userId, id)
  {
    var k := PrimaryKey(userId, id);
    assert k[..2] == UserPrefix(userId);
    ScanSpec(data, Prefix(UserPrefix(userId)));
    assert Selects(Prefix(UserPrefix(userId)), k);
  }

  /**
   * `findByUser(u)` lists exactly u's stored reminders, each once, in
   * ascending `createdAt` order.
   */
  lemma UserRemindersSpec(data: map<Key, Value>, userId: int)
    requires WellFormed(data)
    ensures var rs := UserReminders(data, userId);
      && SortedBy(rs, CreatedAt)
      && |rs| == |UserKeys(data, userId)|
      && (forall r | r in rs :: r.reminderUserId == userId && Lookup(data, userId, r.reminderId) == Some(r))
      && (forall id | Lookup(data, userId, id).Some? :: Lookup(data, userId, id).value in rs)
  {
    UserScanHoldsReminders(data, userId);
    var us := RemindersOf(Scan(data, Prefix(UserPrefix(userId))));
    UserScanSpec(data, userId);
    var rs := UserReminders(data, userId);
    SameElements(rs, us);
  }

  /**
   * Reminders created in the same millisecond keep the order the prefix scan
   * lists them in (their key order), because the sort is stable.
   */
  lemma SameMillisecondInScanOrder(data: map<Key, Value>, userId: int, t: int)
    requires WellFormed(data)
    ensures WithKey(UserReminders(data, userId), CreatedAt, t)
         == (UserScanHoldsReminders(data, userId);
             WithKey(RemindersOf(Scan(data, Prefix(UserPrefix(userId)))), CreatedAt, t))
  {
    UserScanHoldsReminders(data, userId);
    SortByStable(RemindersOf(Scan(data, Prefix(UserPrefix(userId)))), CreatedAt, t);
  }

  /**
   * The dual-index invariant, allowing orphans: every stored reminder has its
   * time entry, pointing back at it; a time entry whose reminder is stored is
   * that reminder's own time entry.
   */
  ghost predicate DualIndexed(data: map<Key, Value>)
  {
    && (forall userId, id | Lookup(data, userId, id).Some? ::
          HasTimeEntry(data, Lookup(data, userId, id).value))
    && (forall k | k in data && InNamespace(k, TIME_INDEX_KEY) && data[k].TimeValue? ::
          IsOwnTimeEntry(data, k, data[k].ref))
  }

  predicate HasTimeEntry(data: map<Key, Value>, r: Reminder)
  {
    var t := TimeKey(r.reminderDate, r.reminderId);
    t in data && data[t] == TimeValue(TimeRef(r.reminderUserId, r.reminderId))
  }

  predicate IsOwnTimeEntry(data: map<Key, Value>, k: Key, ref: TimeRef)
  {
    match Lookup(data, ref.reminderUserId, ref.reminderId)
    case None => true
    case Some(r) => k == TimeKey(r.reminderDate, ref.reminderId)
  }

  /** An orphan: a time entry whose primary record is gone. */
  predicate IsOrphan(data: map<Key, Value>, k: Key)
  {
    k in data && InNamespace(k, TIME_INDEX_KEY) && data[k].TimeValue?
    && Lookup(data, data[k].ref.reminderUserId, data[k].ref.reminderId).None?
  }

  /** A fresh id (a new UUID) appears in no key and no reference of the store. */
  ghost predicate FreshId(data: map<Key, Value>, id: string)
  {
    forall k | k in data :: Str(id) !in k && (data[k].TimeValue? ==> data[k].ref.reminderId != id)
  }

  function PrimaryKeys(userId: int, rs: seq<Reminder>): set<Key>
  {
    set r | r in rs :: PrimaryKey(userId, r.reminderId)
  }

  lemma PrimaryKeysSnoc(userId: int, rs: seq<Reminder>, r: Reminder)
    ensures PrimaryKeys(userId, rs + [r]) == PrimaryKeys(userId, rs) + {PrimaryKey(userId, r.reminderId)}
  {
    assert forall x :: x in rs + [r] <==> x in rs || x == r;
  }

  lemma DeletedOneMore(data: map<Key, Value>, userId: int, rs: seq<Reminder>, i: nat)
    requires i < |rs|
    ensures data - PrimaryKeys(userId, rs[..i]) - {PrimaryKey(userId, rs[i].reminderId)}
         == data - PrimaryKeys(userId, rs[..i + 1])
  {
    PrimaryKeysSnoc(userId, rs[..i], rs[i]);
    assert rs[..i + 1] == rs[..i] + [rs[i]];
  }

  /** Removing the primary key of every listed reminder removes exactly the user's primary entries. */
  lemma DeletedListedReminders(data: map<Key, Value>, userId: int)
    requires WellFormed(data)
    ensures var gone := data - PrimaryKeys(userId, UserReminders(data, userId));
      WellFormed(gone) && gone == WithoutUser(data, userId)
  {
    ListedKeysAreUserKeys(data, userId);
    WellFormedMinus(data, UserKeys(data, userId));
  }

  /** The keys `deleteAll` removes, one per listed reminder, are exactly the user's primary keys. */
  lemma ListedKeysAreUserKeys(data: map<Key, Value>, userId: int)
    requires WellFormed(data)
    ensures PrimaryKeys(userId, UserReminders(data, userId)) == UserKeys(data, userId)
  {
    var rs := UserReminders(data, userId);
    UserRemindersSpec(data, userId);
    UserKeysHoldReminders(data, userId);
    forall k | k in PrimaryKeys(userId, rs) ensures k in UserKeys(data, userId) {
      var r :| r in rs && k == PrimaryKey(userId, r.reminderId);
      assert k[..2] == UserPrefix(userId);
    }
    forall k | k in UserKeys(data, userId) ensures k in PrimaryKeys(userId, rs) {
      var id := data[k].reminder.reminderId;
      assert Lookup(data, userId, id).Some?;
    }
  }

  /** A created reminder is found by id and listed for its owner. */
  lemma CreateThenFind(data: map<Key, Value>, r: Reminder)
    requires WellFormed(data)
    ensures WellFormed(WithReminder(data, r))
    ensures Lookup(WithReminder(data, r), r.reminderUserId, r.reminderId) == Some(r)
    ensures r in UserReminders(WithReminder(data, r), r.reminderUserId)
  {
    NamespacesDistinct();
    var d := WithReminder(data, r);
    assert PrimaryKey(r.reminderUserId, r.reminderId) != TimeKey(r.reminderDate, r.reminderId);
    WellFormedPut(data, PrimaryKey(r.reminderUserId, r.reminderId), ReminderValue(r));
    WellFormedPut(data[PrimaryKey(r.reminderUserId, r.reminderId) := ReminderValue(r)],
      TimeKey(r.reminderDate, r.reminderId), TimeValue(TimeRef(r.reminderUserId, r.reminderId)));
    UserRemindersSpec(d, r.reminderUserId);
  }

  /** Creating one reminder changes no other record of the primary index. */
  lemma CreateKeepsOthers(data: map<Key, Value>, r: Reminder, userId: int, id: string)
    requires (userId, id) != (r.reminderUserId, r.reminderId)
    ensures Lookup(WithReminder(data, r), userId, id) == Lookup(data, userId, id)
  {
    NamespacesDistinct();
    assert PrimaryKey(userId, id) != TimeKey(r.reminderDate, r.reminderId);
    assert PrimaryKey(userId, id) != PrimaryKey(r.reminderUserId, r.reminderId);
  }

  /** After `delete` the record is gone, so a second `delete` returns false and changes nothing. */
  lemma DeleteTwice(data: map<Key, Value>, userId: int, id: string)
    ensures Lookup(WithoutReminder(data, userId, id), userId, id).None?
    ensures WithoutReminder(WithoutReminder(data, userId, id), userId, id) == WithoutReminder(data, userId, id)
  {
  }

  /** Deleting one reminder changes no other record of the primary index. */
  lemma DeleteKeepsOthers(data: map<Key, Value>, userId: int, id: string, otherUser: int, otherId: string)
    requires (otherUser, otherId) != (userId, id)
    ensures Lookup(WithoutReminder(data, userId, id), otherUser, otherId) == Lookup(data, otherUser, otherId)
  {
    NamespacesDistinct();
    if Lookup(data, userId, id).Some? {
      var r := Lookup(data, userId, id).value;
      assert PrimaryKey(otherUser, otherId) != TimeKey(r.reminderDate, id);
      assert PrimaryKey(otherUser, otherId) != PrimaryKey(userId, id);
    }
  }

  /** Under the dual-index invariant `delete` leaves no entry of the reminder in either index. */
  lemma DeleteErasesBothIndexes(data: map<Key, Value>, userId: int, id: string)
    requires DualIndexed(data)
    requires Lookup(data, userId, id).Some?
    ensures var after := WithoutReminder(data, userId, id);
      && PrimaryKey(userId, id) !in after
      && forall k | k in after && InNamespace(k, TIME_INDEX_KEY) && after[k].TimeValue? ::
           after[k].ref != TimeRef(userId, id)
  {
    var r := Lookup(data, userId, id).value;
    var after := WithoutReminder(data, userId, id);
    forall k | k in after && InNamespace(k, TIME_INDEX_KEY) && after[k].TimeValue?
      ensures after[k].ref != TimeRef(userId, id)
    {
      assert IsOwnTimeEntry(data, k, data[k].ref);
    }
  }

  /** `create` with a fresh id keeps the dual-index invariant. */
  lemma CreatePreservesDualIndex(data: map<Key, Value>, r: Reminder)
    requires WellFormed(data) && DualIndexed(data) && FreshId(data, r.reminderId)
    ensures DualIndexed(WithReminder(data, r))
  {
    NamespacesDistinct();
    var pk := PrimaryKey(r.reminderUserId, r.reminderId);
    var tk := TimeKey(r.reminderDate, r.reminderId);
    var d := WithReminder(data, r);
    assert pk != tk;
    forall userId, id | Lookup(d, userId, id).Some?
      ensures HasTimeEntry(d, Lookup(d, userId, id).value)
    {
      if (userId, id) != (r.reminderUserId, r.reminderId) {
        CreateKeepsOthers(data, r, userId, id);
        var old_r := Lookup(data, userId, id).value;
        assert HasTimeEntry(data, old_r);
        var k := PrimaryKey(userId, id);
        assert Str(id) in k;
        assert id != r.reminderId;
        assert TimeKey(old_r.reminderDate, id) != tk;
      }
    }
    forall k | k in d && InNamespace(k, TIME_INDEX_KEY) && d[k].TimeValue?
      ensures IsOwnTimeEntry(d, k, d[k].ref)
    {
      if k != tk {
        assert k != pk;
        assert k in data && d[k] == data[k];
        assert data[k].ref.reminderId != r.reminderId;
        CreateKeepsOthers(data, r, data[k].ref.reminderUserId, data[k].ref.reminderId);
        assert IsOwnTimeEntry(data, k, data[k].ref);
      }
    }
  }

  /** `delete` keeps the dual-index invariant. */
  lemma DeletePreservesDualIndex(data: map<Key, Value>, userId: int, id: string)
    requires WellFormed(data) && DualIndexed(data)
    ensures DualIndexed(WithoutReminder(data, userId, id))
  {
    var d := WithoutReminder(data, userId, id);
    DeleteTwice(data, userId, id);
    forall u, i | Lookup(d, u, i).Some?
      ensures HasTimeEntry(d, Lookup(d, u, i).value)
    {
      DeleteKeepsOthers(data, userId, id, u, i);
      var r := Lookup(data, u, i).value;
      assert HasTimeEntry(data, r);
      NamespacesDistinct();
      assert data[PrimaryKey(u, i)] == ReminderValue(r);
      assert EntryOk(PrimaryKey(u, i), ReminderValue(r));
      if Lookup(data, userId, id).Some? {
        var gone := Lookup(data, userId, id).value;
        assert EntryOk(PrimaryKey(userId, id), ReminderValue(gone));
        assert HasTimeEntry(data, gone);
      }
    }
    forall k | k in d && InNamespace(k, TIME_INDEX_KEY) && d[k].TimeValue?
      ensures IsOwnTimeEntry(d, k, d[k].ref)
    {
      var ref := d[k].ref;
      if (ref.reminderUserId, ref.reminderId) != (userId, id) {
        DeleteKeepsOthers(data, userId, id, ref.reminderUserId, ref.reminderId);
        assert IsOwnTimeEntry(data, k, data[k].ref);
      }
    }
  }

  /** `deleteAll` keeps the dual-index invariant (what remains of the time index are orphans). */
  lemma DeleteAllPreservesDualIndex(data: map<Key, Value>, userId: int)
    requires DualIndexed(data)
    ensures DualIndexed(WithoutUser(data, userId))
  {
    NamespacesDistinct();
    var d := WithoutUser(data, userId);
    forall u, i | Lookup(d, u, i).Some?
      ensures HasTimeEntry(d, Lookup(d, u, i).value)
    {
      var r := Lookup(d, u, i).value;
      assert Lookup(data, u, i) == Some(r);
      assert HasTimeEntry(data, r);
      assert TimeKey(r.reminderDate, i) !in UserKeys(data, userId);
    }
    forall k | k in d && InNamespace(k, TIME_INDEX_KEY) && d[k].TimeValue?
      ensures IsOwnTimeEntry(d, k, d[k].ref)
    {
      var ref := d[k].ref;
      assert IsOwnTimeEntry(data, k, data[k].ref);
      if Lookup(d, ref.reminderUserId, ref.reminderId).Some? {
        assert Lookup(data, ref.reminderUserId, ref.reminderId) == Lookup(d, ref.reminderUserId, ref.reminderId);
      }
    }
  }

  /**
   * `deleteAll` removes only the primary index: the time entries of the
   * deleted reminders stay behind as orphans.
   */
  lemma DeleteAllLeavesOrphans(data: map<Key, Value>, userId: int)
    requires WellFormed(data) && DualIndexed(data)
    ensures forall r | r in UserReminders(data, userId) ::
      && Lookup(WithoutUser(data, userId), userId, r.reminderId).None?
      && IsOrphan(WithoutUser(data, userId), TimeKey(r.reminderDate, r.reminderId))
  {
    NamespacesDistinct();
    UserRemindersSpec(data, userId);
    var d := WithoutUser(data, userId);
    forall r | r in UserReminders(data, userId)
      ensures Lookup(d, userId, r.reminderId).None? && IsOrphan(d, TimeKey(r.reminderDate, r.reminderId))
    {
      var pk := PrimaryKey(userId, r.reminderId);
      assert pk[..2] == UserPrefix(userId);
      assert pk in UserKeys(data, userId);
      assert HasTimeEntry(data, Lookup(data, userId, r.reminderId).value);
      assert TimeKey(r.reminderDate, r.reminderId) !in UserKeys(data, userId);
    }
  }

  /** The deletes issued for the listed entries, one per element, in order. */
  method DeletePrimaryKeys(kv: Store, userId: int, rs: seq<Reminder>)
    modifies kv
    ensures kv.data == old(kv.data) - PrimaryKeys(userId, rs)
  {
    ghost var before := kv.data;
    var i := 0;
    while i < |rs|
      invariant 0 <= i <= |rs|
      invariant kv.data == before - PrimaryKeys(userId, rs[..i])
    {
      kv.Delete(PrimaryKey(userId, rs[i].reminderId));
      DeletedOneMore(before, userId, rs, i);
      i := i + 1;
    }
    assert rs[..i] == rs;
  }

  /** The loop that reads the value of each listed entry, in listing order. */
  method CollectReminders(entries: seq<Entry>) returns (found: seq<Reminder>)
    requires forall i | 0 <= i < |entries| :: entries[i].value.ReminderValue?
    ensures found == RemindersOf(entries)
  {
    found := [];
    var i := 0;
    while i < |entries|
      invariant 0 <= i <= |entries|
      invariant |found| == i
      invariant forall j | 0 <= j < i :: found[j] == entries[j].value.reminder
    {
      found := found + [entries[i].value.reminder];
      i := i + 1;
    }
  }

  class ReminderRepository {
    const kv: Store

    constructor (kv: Store)
      ensures this.kv == kv
    {
      this.kv := kv;
    }

    /**
     * `create`: the id, the parsed due date and the creation time come from
     * the UUID generator, the date parser and the clock.
     */
    method Create(reminderUserId: int, reminderString: string, reminderId: string,
                  due: Option<DueDate>, createdAt: int)
      returns (result: Result<Reminder, CreateError>)
      requires WellFormed(kv.data)
      modifies kv
      ensures WellFormed(kv.data)
      ensures due.None? ==> result == Failure(InvalidDate) && kv.data == old(kv.data)
      ensures due.Some? ==>
        && result == Success(NewReminder(reminderUserId, reminderString, reminderId, due.value, createdAt))
        && kv.data == WithReminder(old(kv.data), result.value)
    {
      if due.None? {
        return Failure(InvalidDate);
      }
      var reminder := NewReminder(reminderUserId, reminderString, reminderId, due.value, createdAt);
      kv.Commit(CreateBatch(reminder));
      CreateBatchWritesTwoKeys(old(kv.data), reminder);
      WellFormedPut(old(kv.data), PrimaryKey(reminderUserId, reminder.reminderId), ReminderValue(reminder));
      WellFormedPut(old(kv.data)[PrimaryKey(reminderUserId, reminder.reminderId) := ReminderValue(reminder)],
        TimeKey(reminder.reminderDate, reminder.reminderId),
        TimeValue(TimeRef(reminder.reminderUserId, reminder.reminderId)));
      return Success(reminder);
    }

    method FindByUser(reminderUserId: int) returns (reminders: seq<Reminder>)
      requires WellFormed(kv.data)
      ensures reminders == UserReminders(kv.data, reminderUserId)
    {
      var entries := kv.List(Prefix(UserPrefix(reminderUserId)));
      UserScanHoldsReminders(kv.data, reminderUserId);
      var found := CollectReminders(entries);
      reminders := SortBy(found, CreatedAt);
    }

    method FindById(reminderUserId: int, reminderId: string) returns (reminder: Option<Reminder>)
      ensures reminder == Lookup(kv.data, reminderUserId, reminderId)
    {
      var res := kv.Get(PrimaryKey(reminderUserId, reminderId));
      reminder := if res.Some? && res.value.ReminderValue? then Some(res.value.reminder) else None;
    }

    method Delete(reminderUserId: int, reminderId: string) returns (deleted: bool)
      requires WellFormed(kv.data)
      modifies kv
      ensures WellFormed(kv.data)
      ensures deleted == Lookup(old(kv.data), reminderUserId, reminderId).Some?
      ensures kv.data == WithoutReminder(old(kv.data), reminderUserId, reminderId)
    {
      var reminder := FindById(reminderUserId, reminderId);
      if reminder.None? {
        return false;
      }
      var primary := PrimaryKey(reminderUserId, reminderId);
      var time := TimeKey(reminder.value.reminderDate, reminderId);
      kv.Commit([Remove(primary), Remove(time)]);
      DeleteBatchRemovesTwoKeys(old(kv.data), reminderUserId, reminderId);
      WellFormedMinus(old(kv.data), {primary, time});
      return true;
    }

    /** `deleteAll`: one delete per listed reminder (run concurrently in the source, each on its own key). */
    method DeleteAll(reminderUserId: int)
      requires WellFormed(kv.data)
      modifies kv
      ensures WellFormed(kv.data)
      ensures kv.data == WithoutUser(old(kv.data), reminderUserId)
    {
      var reminders := FindByUser(reminderUserId);
      ghost var before := kv.data;
      DeletePrimaryKeys(kv, reminderUserId, reminders);
      DeletedListedReminders(before, reminderUserId);
    }
  }
}
