/**
 * The today screen: today's habits under the chosen filter, pressing a habit,
 * and the value dialog for count and duration goals.
 */
module TodayScreen {
  import opened Optional
  import opened Dates
  import opened Text
  import opened Collections
  import opened HabitTypes
  import HabitContext

  datatype FilterType = All | Completed | Missed | Reminders

  /** `habit.completionData[today]?.completed || false`. */
  function CompletedTodayFlag(today: Day): Habit -> bool {
    (h: Habit) => CompletedOn(h.completionData, today)
  }

  function MissedToday(today: Day): Habit -> bool {
    (h: Habit) => !CompletedOn(h.completionData, today)
  }

  function HasReminders(): Habit -> bool {
    (h: Habit) => |h.reminders| > 0
  }

  function KeepAll(): Habit -> bool {
    (h: Habit) => true
  }

  /** The `switch (filter)` inside the filter callback. */
  function FilterPredicate(filter: FilterType, today: Day): Habit -> bool {
    match filter
    case Completed => CompletedTodayFlag(today)
    case Missed => MissedToday(today)
    case Reminders => HasReminders()
    case All => KeepAll()
  }

  /** `filteredHabits`: today's scheduled habits kept by the filter, in order. */
  function FilteredHabits(hs: seq<Habit>, today: Day, filter: FilterType): (r: seq<Habit>)
    ensures IsSubsequence(r, HabitContext.HabitsForDate(hs, today))
    ensures forall k :: 0 <= k < |r| ==> FilterPredicate(filter, today)(r[k])
  {
    FilterIsSubsequence(HabitContext.HabitsForDate(hs, today), FilterPredicate(filter, today));
    Filter(HabitContext.HabitsForDate(hs, today), FilterPredicate(filter, today))
  }

  /** `all` shows today's habits as they are. */
  lemma AllKeepsToday(hs: seq<Habit>, today: Day)
    ensures FilteredHabits(hs, today, All) == HabitContext.HabitsForDate(hs, today)
  {
    FilterAll(HabitContext.HabitsForDate(hs, today), KeepAll());
  }

  /** `completed` and `missed` split today's habits between them. */
  lemma CompletedAndMissedSplitToday(hs: seq<Habit>, today: Day)
    ensures multiset(FilteredHabits(hs, today, Completed)) + multiset(FilteredHabits(hs, today, Missed))
      == multiset(HabitContext.HabitsForDate(hs, today))
    ensures |FilteredHabits(hs, today, Completed)| + |FilteredHabits(hs, today, Missed)| == |HabitContext.HabitsForDate(hs, today)|
  {
    FilterPartition(HabitContext.HabitsForDate(hs, today), CompletedTodayFlag(today), MissedToday(today));
  }

  /** `reminders` keeps exactly today's habits that have a reminder. */
  lemma RemindersKeepsReminded(hs: seq<Habit>, today: Day)
    ensures forall h :: h in FilteredHabits(hs, today, Reminders) <==> h in HabitContext.HabitsForDate(hs, today) && |h.reminders| > 0
  {
    var todays := HabitContext.HabitsForDate(hs, today);
    var rem := FilteredHabits(hs, today, Reminders);
    assert rem == Filter(todays, HasReminders());
    forall h | h in todays && |h.reminders| > 0 ensures h in rem {
      var k :| 0 <= k < |todays| && todays[k] == h;
    }
    forall h | h in rem ensures h in todays && |h.reminders| > 0 {
      var k :| 0 <= k < |rem| && rem[k] == h;
    }
  }

  /** `inputDialog`. */
  datatype InputDialog = InputDialog(visible: bool, habit: Option<Habit>, title: string, message: string,
                                     placeholder: string, defaultValue: string)

  const ClosedDialog: InputDialog := InputDialog(false, None, "", "", "", "")

  /** The dialog's `Enter ${goalTypeLabel}:` line. */
  function GoalPrompt(g: GoalType): (m: string)
    ensures m == if g == Count then "Enter count:" else "Enter duration (minutes):"
  {
    var goalLabel := if g == Count then "count" else "duration (minutes)";
    "Enter " + goalLabel + ":"
  }

  /** `openGoalInput`: the dialog asking for a count or a duration, prefilled with today's value. */
  function GoalInputDialog(h: Habit, today: Day): (d: InputDialog)
    ensures d.visible && d.habit == Some(h) && d.title == h.name
    ensures d.message == (if h.goalType == Count then "Enter count:" else "Enter duration (minutes):")
    ensures today in h.completionData && h.completionData[today].value.Some? ==>
      d.defaultValue == IntToString(h.completionData[today].value.value)
    ensures !(today in h.completionData && h.completionData[today].value.Some?) ==> d.defaultValue == ""
  {
    var current := if today in h.completionData then h.completionData[today].value else None;
    var unit := OrString(h.targetUnit, if h.goalType == Duration then "minutes" else "reps");
    InputDialog(true, Some(h), h.name, GoalPrompt(h.goalType),
      "Target: " + IntToString(OrNumber(h.targetValue, 1)) + " " + unit,
      if current.Some? then IntToString(current.value) else "")
  }

  /** `parseInt(value) || 0`. */
  function SubmittedValue(value: string): int {
    match ParseInt(value)
    case Some(n) => n
    case None => 0
  }

  /** A typed positive number is what gets submitted. */
  lemma SubmittedValueReadsNumber(pad: string, n: nat)
    requires IsBlank(pad)
    ensures SubmittedValue(pad + DecimalString(n)) == n
  {
    ParseIntDecimal(pad, n);
  }

  /** The screen's dialog state, issuing toggles to the habit provider. */
  class Today {
    var dialog: InputDialog
    const provider: HabitContext.HabitProvider

    constructor (p: HabitContext.HabitProvider)
      ensures dialog == ClosedDialog && provider == p
    {
      dialog := ClosedDialog;
      provider := p;
    }

    /** `handleHabitPress`: a check goal is toggled for today at once; other goals open the dialog instead. */
    method HandleHabitPress(h: Habit, today: Day, now: Instant)
      modifies this, provider
      ensures h.goalType == Check ==>
        provider.habits == HabitContext.ToggledHabits(old(provider.habits), h.id, today, None, today, now)
        && dialog == old(dialog)
      ensures h.goalType != Check ==> provider.habits == old(provider.habits) && dialog == GoalInputDialog(h, today)
      ensures provider.settings == old(provider.settings)
    {
      if h.goalType == Check {
        provider.ToggleHabitCompletion(h.id, None, None, today, now);
      } else {
        dialog := GoalInputDialog(h, today);
      }
    }

    /**
     * `handleInputSubmit`: a positive value toggles today's record of the
     * dialog's habit with that value; in every case the dialog closes and
     * forgets the habit.
     */
    method HandleInputSubmit(value: string, today: Day, now: Instant)
      modifies this, provider
      ensures old(dialog).habit.Some? && SubmittedValue(value) > 0 ==>
        provider.habits == HabitContext.ToggledHabits(old(provider.habits), old(dialog).habit.value.id, today,
                                                      Some(SubmittedValue(value)), today, now)
      ensures !(old(dialog).habit.Some? && SubmittedValue(value) > 0) ==> provider.habits == old(provider.habits)
      ensures dialog == old(dialog).(visible := false, habit := None)
      ensures provider.settings == old(provider.settings)
    {
      if dialog.habit.Some? {
        var numValue := SubmittedValue(value);
        if numValue > 0 {
          provider.ToggleHabitCompletion(dialog.habit.value.id, Some(today), Some(numValue), today, now);
        }
      }
      dialog := dialog.(visible := false, habit := None);
    }

    /** `handleInputCancel`. */
    method HandleInputCancel()
      modifies this
      ensures dialog == old(dialog).(visible := false, habit := None)
    {
      dialog := dialog.(visible := false, habit := None);
    }
  }
}
