/**
 * The add/edit habit screen: the form's state, what editing loads into it,
 * the goal-type switch, and `handleSave`'s validation and the data it hands
 * to `addHabit` or `updateHabit`.
 */
module HabitForm {
  import opened Optional
  import opened Text
  import opened HabitTypes
  import HabitContext

  /** `formData`. */
  datatype FormData = FormData(
    name: string,
    icon: string,
    color: string,
    goalType: GoalType,
    targetValue: int,
    targetUnit: string,
    frequency: Frequency,
    weekdays: seq<WeekdayIndex>,
    category: Category,
    reminders: seq<Reminder>,
    notes: string,
    isActive: bool
  )

  /** `[1, 2, 3, 4, 5, 6, 0]`: every weekday, Monday first. */
  const AllWeekdays: seq<WeekdayIndex> := [1, 2, 3, 4, 5, 6, 0]

  const BlankForm: FormData := FormData("", "checkmark-circle", HabitColors[0], Check, 1, "", Daily,
                                        AllWeekdays, Anytime, [], "", true)

  /**
   * The form an existing habit loads: a missing or zero target becomes 1,
   * missing weekdays become every weekday, and a missing unit or note the
   * empty string; everything else is the habit's own.
   */
  function EditForm(h: Habit): (f: FormData)
    ensures f.targetValue == (if h.targetValue.Some? && h.targetValue.value != 0 then h.targetValue.value else 1)
    ensures f.weekdays == (if h.weekdays.Some? then h.weekdays.value else AllWeekdays)
    ensures f.targetUnit == (if TruthyString(h.targetUnit) then h.targetUnit.value else "")
    ensures f.notes == (if TruthyString(h.notes) then h.notes.value else "")
    ensures f.name == h.name && f.icon == h.icon && f.color == h.color && f.goalType == h.goalType
    ensures f.frequency == h.frequency && f.category == h.category && f.reminders == h.reminders && f.isActive == h.isActive
  {
    FormData(h.name, h.icon, h.color, h.goalType, OrNumber(h.targetValue, 1), OrString(h.targetUnit, ""),
             h.frequency, h.weekdays.GetOr(AllWeekdays), h.category, h.reminders, OrString(h.notes, ""), h.isActive)
  }

  /** `parseInt(text) || 0`: what typing into the target field stores. */
  function TargetFromText(text: string): int {
    match ParseInt(text)
    case Some(n) => n
    case None => 0
  }

  /** Typing a number's decimal digits stores that number; text without digits stores 0. */
  lemma TargetFromTextReadsNumber(n: nat)
    ensures TargetFromText(DecimalString(n)) == n
    ensures TargetFromText("") == 0
  {
    var d := DecimalString(n);
    MagnitudeOfDecimal(n);
    UnsignedDigits(d);
  }

  /** What pressing save does. */
  datatype SaveOutcome =
    | Rejected(message: string)
    | Updated(habitId: string, updates: HabitContext.HabitPatch)
    | Added(draft: HabitContext.HabitDraft)

  /** The saved unit: `minutes` for durations, the entered unit or `reps` for counts, none for checks. */
  function SavedUnit(f: FormData): (unit: Option<string>)
    ensures f.goalType == Duration ==> unit == Some("minutes")
    ensures f.goalType == Count ==> unit == Some(if f.targetUnit != "" then f.targetUnit else "reps")
    ensures f.goalType == Check ==> unit.None?
  {
    match f.goalType
    case Duration => Some("minutes")
    case Count => Some(if f.targetUnit != "" then f.targetUnit else "reps")
    case Check => None
  }

  /** `habitData` as `addHabit` receives it. */
  function SavedDraft(f: FormData): HabitContext.HabitDraft {
    HabitContext.HabitDraft(Trim(f.name), f.icon, f.color, f.goalType, Some(f.targetValue), SavedUnit(f),
                            f.frequency, Some(f.weekdays), f.reminders, f.category, f.isActive, Some(f.notes))
  }

  /** `habitData` as `updateHabit` receives it: every form field is present, `targetUnit` possibly as `undefined`. */
  function SavedPatch(f: FormData): HabitContext.HabitPatch {
    HabitContext.EmptyPatch.(name := Some(Trim(f.name)), icon := Some(f.icon), color := Some(f.color),
      goalType := Some(f.goalType), targetValue := Some(Some(f.targetValue)), targetUnit := Some(SavedUnit(f)),
      frequency := Some(f.frequency), weekdays := Some(Some(f.weekdays)), reminders := Some(f.reminders),
      category := Some(f.category), isActive := Some(f.isActive), notes := Some(Some(f.notes)))
  }

  /**
   * `handleSave`: a blank name is refused first, then a goal other than a
   * check with a target of 0 or less; otherwise the trimmed data goes to
   * `updateHabit` when a habit id was passed in and to `addHabit` when not.
   */
  function HandleSave(f: FormData, habitId: Option<string>): (out: SaveOutcome)
    ensures IsBlank(f.name) <==> out == Rejected("Please enter a habit name")
    ensures out == Rejected("Please enter a valid target value") <==> !IsBlank(f.name) && f.goalType != Check && f.targetValue <= 0
    ensures out.Rejected? <==> IsBlank(f.name) || (f.goalType != Check && f.targetValue <= 0)
    ensures out.Updated? <==> !out.Rejected? && TruthyString(habitId)
    ensures out.Added? <==> !out.Rejected? && !TruthyString(habitId)
    ensures out.Updated? ==> out.habitId == habitId.value && out.updates == SavedPatch(f)
    ensures out.Added? ==> out.draft == SavedDraft(f)
  {
    if Trim(f.name) == [] then Rejected("Please enter a habit name")
    else if f.goalType != Check && f.targetValue <= 0 then Rejected("Please enter a valid target value")
    else if TruthyString(habitId) then Updated(habitId.value, SavedPatch(f))
    else Added(SavedDraft(f))
  }

  /** A saved habit's name is the trimmed input, never blank, and a check goal is never refused for its target. */
  lemma SavedNameIsTrimmed(f: FormData, habitId: Option<string>, id: string, now: Instant)
    ensures HandleSave(f, habitId).Added? ==>
      var h := HabitContext.NewHabit(HandleSave(f, habitId).draft, id, now);
      h.name == Trim(f.name) && h.name != [] && !IsSpace(h.name[0])
    ensures f.goalType == Check && !IsBlank(f.name) ==> !HandleSave(f, habitId).Rejected?
  {
    TrimIdempotent(f.name);
  }

  /** An update renames the habit to the trimmed input and otherwise keeps its identity and history. */
  lemma UpdateKeepsHistory(h: Habit, f: FormData)
    ensures var u := HabitContext.ApplyPatch(h, SavedPatch(f));
      && u.name == Trim(f.name) && u.id == h.id && u.createdAt == h.createdAt
      && u.streak == h.streak && u.longestStreak == h.longestStreak
      && u.completedDates == h.completedDates && u.completionData == h.completionData
      && u.targetUnit == SavedUnit(f)
  {
  }

  /** The screen's form state. */
  class HabitFormScreen {
    var form: FormData

    constructor ()
      ensures form == BlankForm
    {
      form := BlankForm;
    }

    /** The effect that loads the habit being edited, when a habit id was passed in and that habit exists. */
    method LoadExisting(habitId: Option<string>, habits: seq<Habit>)
      modifies this
      ensures TruthyString(habitId) && HabitContext.FindHabit(habits, habitId.value).Some? ==>
        form == EditForm(HabitContext.FindHabit(habits, habitId.value).value)
      ensures !(TruthyString(habitId) && HabitContext.FindHabit(habits, habitId.value).Some?) ==> form == old(form)
    {
      if TruthyString(habitId) {
        var existing := HabitContext.FindHabit(habits, habitId.value);
        if existing.Some? {
          form := EditForm(existing.value);
        }
      }
    }

    /** Choosing a goal type resets the target: 0 for a check, 1 otherwise. */
    method SelectGoalType(g: GoalType)
      modifies this
      ensures form == old(form).(goalType := g, targetValue := if g == Check then 0 else 1)
    {
      form := form.(goalType := g, targetValue := if g == Check then 0 else 1);
    }

    /** Typing into the target field. */
    method EnterTargetValue(text: string)
      modifies this
      ensures form == old(form).(targetValue := TargetFromText(text))
    {
      form := form.(targetValue := TargetFromText(text));
    }
  }

  /** Right after choosing a goal type the form passes the target check. */
  lemma FreshGoalTypeIsValid(f: FormData, g: GoalType, habitId: Option<string>)
    requires !IsBlank(f.name)
    ensures !HandleSave(f.(goalType := g, targetValue := if g == Check then 0 else 1), habitId).Rejected?
  {
  }
}
