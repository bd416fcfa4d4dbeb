/**
 * The records of `types.ts`: a habit, its per-day completion records, its
 * reminders, and the user settings; plus the ten-colour palette of
 * `constants/colors.ts`.
 */
module HabitTypes {
  import opened Optional
  import opened Dates

  datatype GoalType = Check | Count | Duration

  /**
   * How often a habit applies. `OtherFrequency` stands for a value outside the
   * declared union (habits are read back from untyped JSON), which
   * `getHabitsForDate` treats like `daily`.
   */
  datatype Frequency = Daily | Weekly | Custom | OtherFrequency(raw: string)

  datatype Category = Morning | Afternoon | Evening | Anytime

  /** An entry of `weekdays`: a `getDay()` number, 0 (Sunday) to 6 (Saturday). */
  type WeekdayIndex = w: int | 0 <= w < 7

  /** A reminder; its `HH:MM` time is kept as minutes since midnight (see `Dates.ClockString`). */
  datatype Reminder = Reminder(id: string, time: Minutes, enabled: bool)

  /** A point in time (`new Date().toISOString()`), as milliseconds since the epoch. */
  type Instant = int

  /** `1000 * 60 * 60 * 24`: a day in milliseconds. */
  const DayMs: int := 86400000

  /** `t.toISOString().split('T')[0]`: the UTC day an instant falls on. */
  function UtcDay(t: Instant): Day {
    t / DayMs
  }

  /** Stepping a whole number of days back moves the UTC day back by as many. */
  lemma UtcDayBack(t: Instant, n: int)
    ensures UtcDay(t - n * DayMs) == UtcDay(t) - n
  {
    assert t - n * DayMs == (t / DayMs - n) * DayMs + t % DayMs;
  }

  /** One date's outcome for one habit. */
  datatype CompletionRecord = CompletionRecord(completed: bool, value: Option<int>, completedAt: Instant)

  /** `completionData`: date keys to records; the model's keys are day numbers. */
  type CompletionData = map<Day, CompletionRecord>

  datatype Habit = Habit(
    id: string,
    name: string,
    icon: string,
    color: string,
    goalType: GoalType,
    targetValue: Option<int>,
    targetUnit: Option<string>,
    frequency: Frequency,
    weekdays: Option<seq<WeekdayIndex>>,
    reminders: seq<Reminder>,
    category: Category,
    streak: int,
    longestStreak: int,
    completedDates: seq<Day>,
    completionData: CompletionData,
    createdAt: Instant,
    isActive: bool,
    notes: Option<string>
  )

  datatype Theme = Light | Dark

  /** `weekStartsOn`: 0 is Sunday, 1 is Monday. */
  type WeekStart = w: int | 0 <= w <= 1

  datatype UserSettings = UserSettings(
    theme: Theme,
    notifications: bool,
    hapticFeedback: bool,
    weekStartsOn: WeekStart
  )

  /** `habit.completionData[date]?.completed || false`: a missing record is not a completion. */
  predicate CompletedOn(data: CompletionData, d: Day) {
    d in data && data[d].completed
  }

  /** `habit.targetUnit || (habit.goalType === 'duration' ? 'min' : 'reps')`: the unit shown beside a value. */
  function UnitLabel(h: Habit): (unit: string)
    ensures TruthyString(h.targetUnit) ==> unit == h.targetUnit.value
    ensures !TruthyString(h.targetUnit) ==> unit == (if h.goalType == Duration then "min" else "reps")
  {
    OrString(h.targetUnit, if h.goalType == Duration then "min" else "reps")
  }

  /** `HABIT_COLORS`. */
  const HabitColors: seq<string> := [
    "#FF6B6B", "#4ECDC4", "#45B7D1", "#96CEB4", "#FECA57",
    "#FF9FF3", "#54A0FF", "#5F27CD", "#00D2D3", "#FF9F43"
  ]

  /** `HABIT_COLORS[i % HABIT_COLORS.length]`: the palette taken round-robin. */
  function PaletteColor(i: nat): (c: string)
    ensures c in HabitColors
  {
    assert |HabitColors| == 10;
    HabitColors[i % 10]
  }

  /** The palette repeats after its ten colours. */
  lemma PaletteColorPeriodic(i: nat)
    ensures PaletteColor(i + |HabitColors|) == PaletteColor(i)
  {
    assert |HabitColors| == 10;
    assert (i + 10) % 10 == i % 10;
  }

  // The named colours of `COLORS` the computations choose between.
  const Primary := "#2F6FED"
  const Success := "#27AE60"
  const Warning := "#E67E22"
  const Danger := "#E74C3C"
  const TextSecondary := "#94A3B8"
  const TextMuted := "#64748B"
  const Border := "#334155"
}
