/**
 * SchedulerService: on every tick it lists the time index up to the current
 * instant and, for each listed entry, either notifies the owner of the stored
 * reminder and deletes it from both indexes, or deletes an orphaned entry.
 */
module Scheduler {
  import opened Wrappers
  import opened Records
  import opened Ordering
  import opened Kv
  import opened Schema
  import opened RemindersRepository

  datatype Message = Message(chatId: int, text: string)

  /**
   * The bot's `api.sendMessage`: every call is recorded as an attempt; a call
   * to a chat in `unreachable` fails (the API call throws).
   */
  class Notifier {
    var attempts: seq<Message>
    var unreachable: set<int>

    constructor (unreachable: set<int>)
      ensures attempts == [] && this.unreachable == unreachable
    {
      attempts := [];
      this.unreachable := unreachable;
    }

    method SendMessage(chatId: int, text: string) returns (delivered: bool)
      modifies this
      ensures attempts == old(attempts) + [Message(chatId, text)]
      ensures unreachable == old(unreachable)
      ensures delivered <==> chatId !in unreachable
    {
      attempts := attempts + [Message(chatId, text)];
      delivered := chatId !in unreachable;
    }
  }

  function ReminderText(r: Reminder): string
  {
    "\U{1F514} Reminder: " + r.reminderString
  }

  /** `{prefix: ["reminders_by_time"], end: ["reminders_by_time", now]}`. */
  function DueSelector(now: string): Selector
  {
    PrefixEnd([Str(TIME_INDEX_KEY)], [Str(TIME_INDEX_KEY), Str(now)])
  }

  /** Code-unit order of two strings, as the store compares string parts. */
  predicate StrLess(a: string, b: string)
  {
    Lex(CharLess, a, b)
  }

  lemma KeyLessSameHead(p: KeyPart, a: Key, b: Key)
    ensures KeyLess([p] + a, [p] + b) == KeyLess(a, b)
  {
    PartLessStrictTotal();
    assert ([p] + a)[1..] == a && ([p] + b)[1..] == b;
  }

  lemma KeyLessLonger(x: KeyPart, y: KeyPart, z: KeyPart)
    ensures KeyLess([x, y], [z]) == PartLess(x, z)
  {
    assert [x, y][1..] == [y] && [z][1..] == [];
    assert !Lex(PartLess, [y], []);
  }

  /** A time-index key is listed exactly when its instant sorts strictly before `now`. */
  lemma DueKeyIff(iso: string, id: string, now: string)
    ensures Selects(DueSelector(now), TimeKey(iso, id)) <==> StrLess(iso, now)
  {
    var k := TimeKey(iso, id);
    assert HasPrefix(k, [Str(TIME_INDEX_KEY)]) by {
      assert k[..1] == [Str(TIME_INDEX_KEY)];
    }
    assert k == [Str(TIME_INDEX_KEY)] + [Str(iso), Str(id)];
    KeyLessSameHead(Str(TIME_INDEX_KEY), [Str(iso), Str(id)], [Str(now)]);
    KeyLessLonger(Str(iso), Str(id), Str(now));
  }

  /** One listed time-index entry, as the loop body handles it. */
  function Step(data: map<Key, Value>, e: Entry): map<Key, Value>
    requires e.value.TimeValue?
  {
    match Lookup(data, e.value.ref.reminderUserId, e.value.ref.reminderId)
    case Some(r) => WithoutReminder(data, r.reminderUserId, r.reminderId)
    case None => data - {e.key}
  }

  /** The message one listed entry sends, if any. */
  function StepNotice(data: map<Key, Value>, e: Entry): seq<Message>
    requires e.value.TimeValue?
  {
    match Lookup(data, e.value.ref.reminderUserId, e.value.ref.reminderId)
    case Some(r) => [Message(e.value.ref.reminderUserId, ReminderText(r))]
    case None => []
  }

  predicate AllRefs(es: seq<Entry>)
  {
    forall i | 0 <= i < |es| :: es[i].value.TimeValue?
  }

  /** The store after handling the listed entries in order. */
  function Process(data: map<Key, Value>, es: seq<Entry>): map<Key, Value>
    requires AllRefs(es)
    decreases |es|
  {
    if es == [] then data else Process(Step(data, es[0]), es[1..])
  }

  /** The messages sent while handling the listed entries in order. */
  function Notices(data: map<Key, Value>, es: seq<Entry>): seq<Message>
    requires AllRefs(es)
    decreases |es|
  {
    if es == [] then [] else StepNotice(data, es[0]) + Notices(Step(data, es[0]), es[1..])
  }

  /** `b` is `a` with some entries removed and none changed. */
  predicate Shrinks(a: map<Key, Value>, b: map<Key, Value>)
  {
    forall k | k in b :: k in a && b[k] == a[k]
  }

  lemma {:induction false} ProcessShrinks(data: map<Key, Value>, es: seq<Entry>)
    requires AllRefs(es)
    ensures Shrinks(data, Process(data, es))
    decreases |es|
  {
    if es != [] {
      ProcessShrinks(Step(data, es[0]), es[1..]);
    }
  }

  lemma ShrinksWellFormed(a: map<Key, Value>, b: map<Key, Value>)
    requires WellFormed(a) && Shrinks(a, b)
    ensures WellFormed(b)
  {
    forall k | k in b ensures EntryOk(k, b[k]) {
      assert EntryOk(k, a[k]);
    }
  }

  lemma ShrinksLookup(a: map<Key, Value>, b: map<Key, Value>, userId: int, id: string)
    requires Shrinks(a, b)
    ensures Lookup(b, userId, id).None? || Lookup(b, userId, id) == Lookup(a, userId, id)
  {
  }

  /** The entries listed from the time index under a well-formed store. */
  predicate TimeEntries(es: seq<Entry>)
  {
    forall i | 0 <= i < |es| :: InNamespace(es[i].key, TIME_INDEX_KEY) && es[i].value.TimeValue?
  }

  lemma DueScanIsTimeEntries(data: map<Key, Value>, now: string)
    requires WellFormed(data)
    ensures TimeEntries(Scan(data, DueSelector(now)))
  {
    var es := Scan(data, DueSelector(now));
    ScanSpec(data, DueSelector(now));
    forall i | 0 <= i < |es| ensures InNamespace(es[i].key, TIME_INDEX_KEY) && es[i].value.TimeValue? {
      assert es[i].key[..1] == [Str(TIME_INDEX_KEY)];
      assert EntryOk(es[i].key, data[es[i].key]);
    }
  }

  /** An entry that refers to another reminder leaves this one's record as it is. */
  lemma StepKeepsOthers(data: map<Key, Value>, e: Entry, userId: int, id: string)
    requires WellFormed(data)
    requires InNamespace(e.key, TIME_INDEX_KEY) && e.value.TimeValue?
    requires e.value.ref != TimeRef(userId, id)
    ensures Lookup(Step(data, e), userId, id) == Lookup(data, userId, id)
  {
    NamespacesDistinct();
    var ref := e.value.ref;
    match Lookup(data, ref.reminderUserId, ref.reminderId)
    case Some(r) =>
      assert EntryOk(PrimaryKey(ref.reminderUserId, ref.reminderId), ReminderValue(r));
      DeleteKeepsOthers(data, r.reminderUserId, r.reminderId, userId, id);
    case None =>
      assert e.key != PrimaryKey(userId, id);
  }

  /**
   * A reminder no listed entry refers to is neither deleted nor announced.
   */
  lemma {:induction false} ProcessKeepsUnreferenced(data: map<Key, Value>, es: seq<Entry>, userId: int, id: string)
    requires WellFormed(data) && TimeEntries(es)
    requires forall i | 0 <= i < |es| :: es[i].value.ref != TimeRef(userId, id)
    ensures Lookup(Process(data, es), userId, id) == Lookup(data, userId, id)
    decreases |es|
  {
    if es != [] {
      StepKeepsOthers(data, es[0], userId, id);
      ProcessShrinks(data, es[..1]);
      assert Process(data, es[..1]) == Step(data, es[0]) by {
        assert es[..1][1..] == [];
      }
      ShrinksWellFormed(data, Step(data, es[0]));
      ProcessKeepsUnreferenced(Step(data, es[0]), es[1..], userId, id);
    }
  }

  /**
   * Once some listed entry refers to a reminder, handling the list deletes
   * it; if it was stored when the list was handled, its owner is sent its text.
   */
  lemma {:induction false} ProcessDeletesReferenced(data: map<Key, Value>, es: seq<Entry>, userId: int, id: string)
    requires WellFormed(data) && TimeEntries(es)
    requires exists i :: 0 <= i < |es| && es[i].value.ref == TimeRef(userId, id)
    ensures Lookup(Process(data, es), userId, id).None?
    ensures Lookup(data, userId, id).Some? ==>
      Message(userId, ReminderText(Lookup(data, userId, id).value)) in Notices(data, es)
    decreases |es|
  {
    var e := es[0];
    var next := Step(data, e);
    ProcessShrinks(data, [e]);
    assert Process(data, [e]) == next;
    ShrinksWellFormed(data, next);
    if e.value.ref == TimeRef(userId, id) {
      assert Lookup(next, userId, id).None? by {
        if Lookup(data, userId, id).Some? {
          var r := Lookup(data, userId, id).value;
          assert EntryOk(PrimaryKey(userId, id), ReminderValue(r));
        }
      }
      ProcessShrinks(next, es[1..]);
    } else {
      StepKeepsOthers(data, e, userId, id);
      var i :| 0 <= i < |es| && es[i].value.ref == TimeRef(userId, id);
      assert es[1..][i - 1] == es[i];
      ProcessDeletesReferenced(next, es[1..], userId, id);
    }
  }

  /**
   * How many messages the listed entries that point at `ref` send: the
   * notices of one reminder within `Notices`.
   */
  function NoticesFor(data: map<Key, Value>, es: seq<Entry>, ref: TimeRef): nat
    requires AllRefs(es)
    decreases |es|
  {
    if es == [] then 0
    else (if es[0].value.ref == ref then |StepNotice(data, es[0])| else 0) + NoticesFor(Step(data, es[0]), es[1..], ref)
  }

  /**
   * A reminder is announced at most once per pass over the list: exactly once
   * when it is stored and some listed entry points at it, never otherwise. The
   * first such entry deletes the record, so later ones find nothing to send.
   */
  lemma {:induction false} NotifiedAtMostOnce(data: map<Key, Value>, es: seq<Entry>, userId: int, id: string)
    requires WellFormed(data) && TimeEntries(es)
    ensures NoticesFor(data, es, TimeRef(userId, id))
         == if Lookup(data, userId, id).Some? && (exists i | 0 <= i < |es| :: es[i].value.ref == TimeRef(userId, id))
            then 1 else 0
    decreases |es|
  {
    if es != [] {
      var ref := TimeRef(userId, id);
      var e := es[0];
      var next := Step(data, e);
      ProcessShrinks(data, [e]);
      assert Process(data, [e]) == next;
      ShrinksWellFormed(data, next);
      NotifiedAtMostOnce(next, es[1..], userId, id);
      if e.value.ref == ref {
        assert Lookup(next, userId, id).None? by {
          if Lookup(data, userId, id).Some? {
            var r := Lookup(data, userId, id).value;
            assert EntryOk(PrimaryKey(userId, id), ReminderValue(r));
          }
        }
      } else {
        StepKeepsOthers(data, e, userId, id);
        assert (exists i | 0 <= i < |es| :: es[i].value.ref == ref)
            == (exists j | 0 <= j < |es[1..]| :: es[1..][j].value.ref == ref) by {
          if exists i | 0 <= i < |es| :: es[i].value.ref == ref {
            var i :| 0 <= i < |es| && es[i].value.ref == ref;
            assert es[1..][i - 1] == es[i];
          }
          if exists j | 0 <= j < |es[1..]| :: es[1..][j].value.ref == ref {
            var j :| 0 <= j < |es[1..]| && es[1..][j].value.ref == ref;
            assert es[j + 1] == es[1..][j];
          }
        }
      }
    }
  }

  /**
   * Under the dual-index invariant one tick decides each stored reminder by
   * its due instant: it is deleted and announced to its owner when the instant
   * sorts before `now`, and left untouched otherwise.
   */
  lemma TickFiresExactlyDue(data: map<Key, Value>, now: string, userId: int, id: string)
    requires WellFormed(data) && DualIndexed(data)
    requires Lookup(data, userId, id).Some?
    ensures TimeEntries(Scan(data, DueSelector(now)))
    ensures var r := Lookup(data, userId, id).value;
      var es := Scan(data, DueSelector(now));
      && (StrLess(r.reminderDate, now) ==>
            Lookup(Process(data, es), userId, id).None? && Message(userId, ReminderText(r)) in Notices(data, es))
      && (!StrLess(r.reminderDate, now) ==> Lookup(Process(data, es), userId, id) == Some(r))
      && NoticesFor(data, es, TimeRef(userId, id)) == if StrLess(r.reminderDate, now) then 1 else 0
  {
    var r := Lookup(data, userId, id).value;
    DueScanIsTimeEntries(data, now);
    var es := Scan(data, DueSelector(now));
    ScanSpec(data, DueSelector(now));
    assert EntryOk(PrimaryKey(userId, id), ReminderValue(r));
    var tk := TimeKey(r.reminderDate, id);
    assert HasTimeEntry(data, r);
    DueKeyIff(r.reminderDate, id, now);
    if StrLess(r.reminderDate, now) {
      var i :| 0 <= i < |es| && es[i].key == tk;
      ProcessDeletesReferenced(data, es, userId, id);
    } else {
      forall i | 0 <= i < |es| ensures es[i].value.ref != TimeRef(userId, id) {

      }
      ProcessKeepsUnreferenced(data, es, userId, id);
    }
    NotifiedAtMostOnce(data, es, userId, id);
  }

  /**
   * Under the dual-index invariant a tick clears every listed key: found
   * reminders take their time entry with them, orphans are deleted by key.
   */
  lemma {:induction false} ProcessClearsListed(data0: map<Key, Value>, data: map<Key, Value>, es: seq<Entry>)
    requires WellFormed(data0) && DualIndexed(data0) && Shrinks(data0, data)
    requires TimeEntries(es)
    requires forall i | 0 <= i < |es| :: es[i].key in data0 && es[i].value == data0[es[i].key]
    ensures forall i | 0 <= i < |es| :: es[i].key !in Process(data, es)
    decreases |es|
  {
    if es != [] {
      var e := es[0];
      var next := Step(data, e);
      ProcessShrinks(data, [e]);
      assert Process(data, [e]) == next;
      assert e.key !in next by {
        var ref := e.value.ref;
        match Lookup(data, ref.reminderUserId, ref.reminderId)
        case Some(r) =>
          assert Lookup(data0, ref.reminderUserId, ref.reminderId) == Some(r);
          assert IsOwnTimeEntry(data0, e.key, data0[e.key].ref);
          assert EntryOk(PrimaryKey(ref.reminderUserId, ref.reminderId), ReminderValue(r));
        case None =>
      }
      ProcessClearsListed(data0, next, es[1..]);
      ProcessShrinks(next, es[1..]);
    }
  }

  /** After a tick under the dual-index invariant no listed (due) time-index key is left. */
  lemma TickClearsDueKeys(data: map<Key, Value>, now: string)
    requires WellFormed(data) && DualIndexed(data)
    ensures TimeEntries(Scan(data, DueSelector(now)))
    ensures forall k | k in Selected(data, DueSelector(now)) :: k !in Process(data, Scan(data, DueSelector(now)))
  {
    DueScanIsTimeEntries(data, now);
    var es := Scan(data, DueSelector(now));
    ScanSpec(data, DueSelector(now));
    ProcessClearsListed(data, data, es);
    forall k | k in Selected(data, DueSelector(now)) ensures k !in Process(data, es) {
      var i :| 0 <= i < |es| && es[i].key == k;
    }
  }

  /**
   * A listed entry that refers to a stored reminder but is not that
   * reminder's own time key survives the step (the delete recomputes the key
   * from the stored date); handled again, it is then an orphan and deleted.
   */
  lemma StaleEntrySurvivesStep(data: map<Key, Value>, e: Entry)
    requires WellFormed(data)
    requires InNamespace(e.key, TIME_INDEX_KEY) && e.value.TimeValue? && e.key in data
    requires Lookup(data, e.value.ref.reminderUserId, e.value.ref.reminderId).Some?
    requires !IsOwnTimeEntry(data, e.key, e.value.ref)
    ensures e.key in Step(data, e)
    ensures Lookup(Step(data, e), e.value.ref.reminderUserId, e.value.ref.reminderId).None?
    ensures StepNotice(Step(data, e), e) == []
    ensures Step(Step(data, e), e) == Step(data, e) - {e.key}
  {
    NamespacesDistinct();
    var ref := e.value.ref;
    var r := Lookup(data, ref.reminderUserId, ref.reminderId).value;
    assert EntryOk(PrimaryKey(ref.reminderUserId, ref.reminderId), ReminderValue(r));
    assert e.key != PrimaryKey(ref.reminderUserId, ref.reminderId);
  }

  /** One step keeps the dual-index invariant. */
  lemma StepPreservesDualIndex(data: map<Key, Value>, e: Entry)
    requires WellFormed(data) && DualIndexed(data)
    requires InNamespace(e.key, TIME_INDEX_KEY) && e.value.TimeValue?
    requires e.key in data ==> data[e.key] == e.value
    ensures DualIndexed(Step(data, e))
  {
    NamespacesDistinct();
    var ref := e.value.ref;
    match Lookup(data, ref.reminderUserId, ref.reminderId)
    case Some(r) =>
      DeletePreservesDualIndex(data, r.reminderUserId, r.reminderId);
    case None =>
      var d := data - {e.key};
      forall u, i | Lookup(d, u, i).Some? ensures HasTimeEntry(d, Lookup(d, u, i).value) {
        var r := Lookup(d, u, i).value;
        assert Lookup(data, u, i) == Some(r);
        assert HasTimeEntry(data, r);
        assert EntryOk(PrimaryKey(u, i), ReminderValue(r));
      }
  }

  lemma {:induction false} ProcessPreservesDualIndex(data0: map<Key, Value>, data: map<Key, Value>, es: seq<Entry>)
    requires WellFormed(data) && DualIndexed(data) && Shrinks(data0, data) && TimeEntries(es)
    requires forall i | 0 <= i < |es| :: es[i].key in data0 && es[i].value == data0[es[i].key]
    ensures DualIndexed(Process(data, es))
    decreases |es|
  {
    if es != [] {
      StepPreservesDualIndex(data, es[0]);
      ProcessShrinks(data, [es[0]]);
      assert Process(data, [es[0]]) == Step(data, es[0]);
      ShrinksWellFormed(data, Step(data, es[0]));
      ProcessPreservesDualIndex(data0, Step(data, es[0]), es[1..]);
    }
  }

  /** A tick keeps the dual-index invariant. */
  lemma TickPreservesDualIndex(data: map<Key, Value>, now: string)
    requires WellFormed(data) && DualIndexed(data)
    ensures TimeEntries(Scan(data, DueSelector(now)))
    ensures DualIndexed(Process(data, Scan(data, DueSelector(now))))
  {
    DueScanIsTimeEntries(data, now);
    ScanSpec(data, DueSelector(now));
    ProcessPreservesDualIndex(data, data, Scan(data, DueSelector(now)));
  }

  lemma ProcessAt(data: map<Key, Value>, es: seq<Entry>, i: nat)
    requires AllRefs(es) && i < |es|
    ensures Process(data, es[i..]) == Process(Step(data, es[i]), es[i + 1..])
    ensures Notices(data, es[i..]) == StepNotice(data, es[i]) + Notices(Step(data, es[i]), es[i + 1..])
  {
    assert es[i..][1..] == es[i + 1..];
  }

  class SchedulerService {
    const reminderRepository: ReminderRepository
    const bot: Notifier

    constructor (bot: Notifier, kv: Store)
      ensures this.bot == bot && reminderRepository.kv == kv
    {
      this.bot := bot;
      reminderRepository := new ReminderRepository(kv);
    }

    /** The body of the tick's loop, for one listed entry. */
    method HandleEntry(e: Entry)
      requires WellFormed(reminderRepository.kv.data) && e.value.TimeValue?
      modifies reminderRepository.kv, bot
      ensures WellFormed(reminderRepository.kv.data)
      ensures reminderRepository.kv.data == Step(old(reminderRepository.kv.data), e)
      ensures bot.attempts == old(bot.attempts) + StepNotice(old(reminderRepository.kv.data), e)
    {
      var kv := reminderRepository.kv;
      var reminder := reminderRepository.FindById(e.value.ref.reminderUserId, e.value.ref.reminderId);
      if reminder.Some? {
        var delivered := bot.SendMessage(e.value.ref.reminderUserId, ReminderText(reminder.value));
        // a failed send is only logged; the reminder is deleted either way
        var _ := reminderRepository.Delete(reminder.value.reminderUserId, reminder.value.reminderId);
      } else {
        WellFormedMinus(kv.data, {e.key});
        kv.Delete(e.key);
      }
    }

    /** One tick: `now` is the clock's reading as `toISOString()`. */
    method CheckAndSendReminders(now: string)
      requires WellFormed(reminderRepository.kv.data)
      modifies reminderRepository.kv, bot
      ensures WellFormed(reminderRepository.kv.data)
      ensures TimeEntries(Scan(old(reminderRepository.kv.data), DueSelector(now)))
      ensures var data0 := old(reminderRepository.kv.data);
        var es := Scan(data0, DueSelector(now));
        && reminderRepository.kv.data == Process(data0, es)
        && bot.attempts == old(bot.attempts) + Notices(data0, es)
    {
      var entries := reminderRepository.kv.List(DueSelector(now));
      DueScanIsTimeEntries(reminderRepository.kv.data, now);
      HandleEntries(entries);
    }

    /** The tick's loop over the listed entries, in listing order. */
    method HandleEntries(entries: seq<Entry>)
      requires WellFormed(reminderRepository.kv.data) && AllRefs(entries)
      modifies reminderRepository.kv, bot
      ensures WellFormed(reminderRepository.kv.data)
      ensures reminderRepository.kv.data == Process(old(reminderRepository.kv.data), entries)
      ensures bot.attempts == old(bot.attempts) + Notices(old(reminderRepository.kv.data), entries)
    {
      var kv := reminderRepository.kv;
      ghost var data0 := kv.data;
      ghost var sent0 := bot.attempts;
      assert entries[0..] == entries;
      var i := 0;
      while i < |entries|
        invariant 0 <= i <= |entries|
        invariant WellFormed(kv.data)
        invariant AllRefs(entries[i..])
        invariant Process(kv.data, entries[i..]) == Process(data0, entries)
        invariant bot.attempts + Notices(kv.data, entries[i..]) == sent0 + Notices(data0, entries)
      {
        ProcessAt(kv.data, entries, i);
        HandleEntry(entries[i]);
        i := i + 1;
      }
      assert entries[i..] == [];
    }
  }
}
