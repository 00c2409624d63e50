/**
 * The part of the delete-reminder conversation that carries logic: the
 * numbered prompt, the check of the number the user typed, and the
 * selection of the reminder that number names.
 */
module RemindersConversations {
  import opened Records
  import opened Strings
  import opened RemindersService

  /** `isValidReminderIndex`: non-empty, all ASCII digits (`/^\d+$/`), and `Number(text)` within 1..max. */
  predicate IsValidReminderIndex(text: string, max: int)
  {
    if text == "" then false
    else IsDigits(text) && 0 < DigitsValue(text) <= max
  }

  /** The number the user sees in front of a listed reminder is accepted exactly when it is in 1..max. */
  lemma ListedNumberAccepted(n: nat, max: int)
    ensures IsValidReminderIndex(NatToString(n), max) <==> 1 <= n <= max
  {
    DigitsValueOfNatToString(n);
  }

  /** "" and "0" are rejected, as is the number just above the list; "01" reads as 1. */
  lemma IndexEdgeCases(max: nat)
    ensures !IsValidReminderIndex("", max)
    ensures !IsValidReminderIndex("0", max)
    ensures !IsValidReminderIndex(NatToString(max + 1), max)
    ensures IsValidReminderIndex("01", max) <==> max >= 1
  {
    ListedNumberAccepted(0, max);
    assert NatToString(0) == "0";
    ListedNumberAccepted(max + 1, max);
    ListedNumberAccepted(1, max);
    assert NatToString(1) == "1";
    LeadingZeroValue("1");
    assert "0" + "1" == "01";
  }

  /** Leading zeros are accepted: they do not change the number read. */
  lemma LeadingZerosAccepted(text: string, max: int)
    requires IsDigits(text) && text != ""
    ensures IsValidReminderIndex("0" + text, max) == IsValidReminderIndex(text, max)
  {
    LeadingZeroValue(text);
  }

  /**
   * `reminders[Number(text) - 1]`: a validated number n always names a listed
   * reminder, the one the listing shows on the line numbered n.
   */
  function SelectReminder(rs: seq<Reminder>, text: string): (r: Reminder)
    requires IsValidReminderIndex(text, |rs|)
    ensures r in rs
    ensures 1 <= DigitsValue(text) <= |rs| && r == rs[DigitsValue(text) - 1]
    ensures ReminderLines(rs)[DigitsValue(text) - 1] == ReminderLine(r, DigitsValue(text))
  {
    rs[DigitsValue(text) - 1]
  }

  /** The prompt sent when no valid number came with the command. */
  function DeletePrompt(rs: seq<Reminder>): string
  {
    Join(ReminderLines(rs), '\n') + "\n\nPlease provide a reminder number to delete."
  }

  /**
   * The prompt opens with the same listing `getRemindersList` gives, and the
   * number shown on the i-th line selects the i-th reminder.
   */
  lemma PromptSelectsListedLine(rs: seq<Reminder>, i: nat)
    requires i < |rs|
    ensures StartsWith(DeletePrompt(rs), RemindersList(rs))
    ensures StartsWith(ReminderLines(rs)[i], NatToString(i + 1) + ". ")
    ensures IsValidReminderIndex(NatToString(i + 1), |rs|)
    ensures SelectReminder(rs, NatToString(i + 1)) == rs[i]
  {
    ListedNumberAccepted(i + 1, |rs|);
    DigitsValueOfNatToString(i + 1);
    var line := ReminderLines(rs)[i];
    var head := NatToString(i + 1) + ". ";
    assert line == head + (rs[i].reminderString + " (" + rs[i].reminderToDateString + ")");
    assert line[..|head|] == head;
    var list := Join(ReminderLines(rs), '\n');
    assert DeletePrompt(rs)[..|list|] == list;
  }
}
