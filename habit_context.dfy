/**
 * The habit repository of `context/HabitContext.tsx`: a provider holding the
 * habit list and the settings, whose operations rebuild the list (add, update
 * by patch, delete, toggle one date's completion) and whose selectors filter
 * it (habits scheduled on a date, today's progress). The streak is
 * recomputed on every toggle by walking back day by day from today.
 */
module HabitContext {
  import opened Optional
  import opened Dates
  import opened Collections
  import opened Rounding
  import opened HabitTypes
  import opened Streaks

  /** `defaultSettings`. */
  const DefaultSettings: UserSettings := UserSettings(Dark, true, true, 1)

  // ---------------------------------------------------------------------------
  // The streak walk
  // ---------------------------------------------------------------------------

  /** The days whose record says completed. */
  function CompletedKeys(data: CompletionData): (s: set<Day>)
    ensures forall d :: d in s <==> CompletedOn(data, d)
  {
    set d | d in data && data[d].completed
  }

  /** The streak `calculateStreak` computes: the run of completed days ending today. */
  function Streak(data: CompletionData, today: Day): nat {
    RunLength(CompletedKeys(data), today)
  }

  /**
   * `calculateStreak`: steps back one day at a time from `today` while the
   * day's record exists and is completed.
   */
  method CalculateStreak(data: CompletionData, today: Day) returns (streak: nat)
    ensures streak == Streak(data, today)
    ensures forall d :: today - streak < d <= today ==> CompletedOn(data, d)
    ensures !CompletedOn(data, today - streak)
  {
    ghost var done := CompletedKeys(data);
    streak := 0;
    var current := today;
    while current in data && data[current].completed
      invariant current == today - streak
      invariant forall d :: current < d <= today ==> CompletedOn(data, d)
      invariant RunLength(done, today) == streak + RunLength(done, current)
      decreases DaysUpTo(done, current)
    {
      assert current in DaysUpTo(done, current) && current !in DaysUpTo(done, current - 1);
      assert DaysUpTo(done, current - 1) < DaysUpTo(done, current);
      streak := streak + 1;
      current := current - 1;
    }
  }

  // ---------------------------------------------------------------------------
  // toggleHabitCompletion on one habit
  // ---------------------------------------------------------------------------

  /** The new `completionData`: the target's record is replaced, flag flipped, even when un-toggling. */
  function ToggledData(data: CompletionData, target: Day, value: Option<int>, now: Instant): CompletionData {
    data[target := CompletionRecord(!CompletedOn(data, target), value, now)]
  }

  /**
   * The body of the `map` callback for the matching habit: flip the record,
   * then re-derive `completedDates`, the streak (by the backward walk) and
   * the longest streak.
   */
  method ToggleOne(habit: Habit, target: Day, value: Option<int>, today: Day, now: Instant) returns (r: Habit)
    ensures r == ToggledHabit(habit, target, value, today, now)
  {
    var isCurrentlyCompleted := target in habit.completionData && habit.completionData[target].completed;
    var newCompletionData := habit.completionData[target := CompletionRecord(!isCurrentlyCompleted, value, now)];
    var completedDates := SortedDays(CompletedKeys(newCompletionData));
    var newStreak := CalculateStreak(newCompletionData, today);
    var longestStreak := if habit.longestStreak >= newStreak then habit.longestStreak else newStreak;
    r := habit.(completionData := newCompletionData, completedDates := completedDates,
                streak := newStreak, longestStreak := longestStreak);
  }

  /** The habit after a toggle of `target`, with `completedDates`, `streak` and `longestStreak` re-derived. */
  function ToggledHabit(h: Habit, target: Day, value: Option<int>, today: Day, now: Instant): Habit {
    var data := ToggledData(h.completionData, target, value, now);
    var s := Streak(data, today);
    h.(completionData := data,
       completedDates := SortedDays(CompletedKeys(data)),
       streak := s,
       longestStreak := if h.longestStreak >= s then h.longestStreak else s)
  }

  /**
   * The derived fields agree with `completionData`: `completedDates` is the
   * ascending list of the completed days, `streak` is the run ending today,
   * and `longestStreak` is at least `streak`.
   */
  predicate Consistent(h: Habit, today: Day) {
    && h.completedDates == SortedDays(CompletedKeys(h.completionData))
    && h.streak == Streak(h.completionData, today)
    && h.streak <= h.longestStreak
  }

  /** A toggle flips the target's flag, stamps its value and time, and touches no other date or field. */
  lemma ToggleFlips(h: Habit, target: Day, value: Option<int>, today: Day, now: Instant)
    ensures var r := ToggledHabit(h, target, value, today, now);
      && CompletedOn(r.completionData, target) == !CompletedOn(h.completionData, target)
      && r.completionData[target].value == value
      && r.completionData[target].completedAt == now
      && (forall d :: d != target ==> (d in r.completionData <==> d in h.completionData))
      && (forall d :: d != target && d in h.completionData ==> r.completionData[d] == h.completionData[d])
      && r.(completionData := h.completionData, completedDates := h.completedDates,
            streak := h.streak, longestStreak := h.longestStreak) == h
  {
  }

  /**
   * After a toggle the derived fields are consistent: `completedDates` holds
   * exactly the completed days in strictly ascending order, the streak is the
   * run ending today, and `longestStreak` is the running maximum, so it never
   * decreases.
   */
  lemma ToggleRederives(h: Habit, target: Day, value: Option<int>, today: Day, now: Instant)
    ensures var r := ToggledHabit(h, target, value, today, now);
      && Consistent(r, today)
      && StrictlyIncreasing(r.completedDates)
      && (forall d :: d in r.completedDates <==> CompletedOn(r.completionData, d))
      && IsRun(CompletedKeys(r.completionData), today, r.streak)
      && r.longestStreak >= h.longestStreak
      && (r.longestStreak == h.longestStreak || r.longestStreak == r.streak)
  {
  }

  /** Two flips of the same date give back the same set of completed days. */
  lemma ToggledDataTwice(data: CompletionData, target: Day, v1: Option<int>, v2: Option<int>, n1: Instant, n2: Instant)
    ensures CompletedKeys(ToggledData(ToggledData(data, target, v1, n1), target, v2, n2)) == CompletedKeys(data)
  {
    var twice := ToggledData(ToggledData(data, target, v1, n1), target, v2, n2);
    forall d ensures CompletedOn(twice, d) == CompletedOn(data, d) {
      if d != target {
        assert (d in twice) == (d in data);
      }
    }
  }

  /** Toggling the same date twice restores every flag, `completedDates` and the streak. */
  lemma ToggleTwice(h: Habit, target: Day, v1: Option<int>, v2: Option<int>, today: Day, n1: Instant, n2: Instant)
    ensures var r := ToggledHabit(ToggledHabit(h, target, v1, today, n1), target, v2, today, n2);
      && (forall d :: CompletedOn(r.completionData, d) == CompletedOn(h.completionData, d))
      && r.completedDates == SortedDays(CompletedKeys(h.completionData))
      && r.streak == Streak(h.completionData, today)
      && (Consistent(h, today) ==> r.completedDates == h.completedDates && r.streak == h.streak)
  {
    ToggledDataTwice(h.completionData, target, v1, v2, n1, n2);
  }

  /** Toggling today: on a completed today the streak drops to 0, otherwise it becomes one more than yesterday's. */
  lemma ToggleTodayStreak(h: Habit, value: Option<int>, today: Day, now: Instant)
    ensures ToggledHabit(h, today, value, today, now).streak ==
      if CompletedOn(h.completionData, today) then 0 else 1 + Streak(h.completionData, today - 1)
  {
    var data := ToggledData(h.completionData, today, value, now);
    var a, b := CompletedKeys(h.completionData), CompletedKeys(data);
    if !CompletedOn(h.completionData, today) {
      assert today in b;
      RunLengthStep(b, today);
      assert forall d :: d <= today - 1 ==> (d in a <==> d in b) by {
        forall d | d <= today - 1 ensures d in a <==> d in b {
          assert CompletedOn(data, d) == CompletedOn(h.completionData, d);
        }
      }
      RunLengthAgreesBelow(a, b, today - 1);
    }
  }

  /** A toggle after today, or before the gap that ends the current run, leaves the streak as it was. */
  lemma ToggleAwayKeepsStreak(h: Habit, target: Day, value: Option<int>, today: Day, now: Instant)
    requires target > today || target < today - Streak(h.completionData, today)
    ensures ToggledHabit(h, target, value, today, now).streak == Streak(h.completionData, today)
  {
    var data := ToggledData(h.completionData, target, value, now);
    var a, b := CompletedKeys(h.completionData), CompletedKeys(data);
    assert forall d :: d != target ==> (d in a <==> d in b) by {
      forall d | d != target ensures d in a <==> d in b {
        assert CompletedOn(data, d) == CompletedOn(h.completionData, d);
      }
    }
    RunLengthAwayFromRun(a, b, today, target);
  }

  // ---------------------------------------------------------------------------
  // New habits and patches
  // ---------------------------------------------------------------------------

  /** What `addHabit` receives: a habit without the fields it fills in itself. */
  datatype HabitDraft = HabitDraft(
    name: string,
    icon: string,
    color: string,
    goalType: GoalType,
    targetValue: Option<int>,
    targetUnit: Option<string>,
    frequency: Frequency,
    weekdays: Option<seq<WeekdayIndex>>,
    reminders: seq<Reminder>,
    category: Category,
    isActive: bool,
    notes: Option<string>
  )

  /** The habit `addHabit` builds from a draft, a fresh id and the creation time. */
  function NewHabit(draft: HabitDraft, id: string, now: Instant): Habit {
    Habit(id, draft.name, draft.icon, draft.color, draft.goalType, draft.targetValue,
          draft.targetUnit, draft.frequency, draft.weekdays, draft.reminders, draft.category,
          0, 0, [], map[], now, draft.isActive, draft.notes)
  }

  /** A new habit has no completions, a zero streak, and is consistent for every day. */
  lemma NewHabitIsFresh(draft: HabitDraft, id: string, now: Instant, today: Day)
    ensures var h := NewHabit(draft, id, now);
      && h.id == id && h.createdAt == now && h.name == draft.name
      && h.streak == 0 && h.longestStreak == 0
      && h.completedDates == [] && h.completionData == map[]
      && Consistent(h, today)
  {
    var h := NewHabit(draft, id, now);
    assert CompletedKeys(h.completionData) == {};
  }

  /**
   * `Partial<Habit>`: each field may be absent. For the optional fields an
   * inner `None` is a key that is present with the value `undefined`, which
   * the spread copies over the old value.
   */
  datatype HabitPatch = HabitPatch(
    id: Option<string>,
    name: Option<string>,
    icon: Option<string>,
    color: Option<string>,
    goalType: Option<GoalType>,
    targetValue: Option<Option<int>>,
    targetUnit: Option<Option<string>>,
    frequency: Option<Frequency>,
    weekdays: Option<Option<seq<WeekdayIndex>>>,
    reminders: Option<seq<Reminder>>,
    category: Option<Category>,
    streak: Option<int>,
    longestStreak: Option<int>,
    completedDates: Option<seq<Day>>,
    completionData: Option<CompletionData>,
    createdAt: Option<Instant>,
    isActive: Option<bool>,
    notes: Option<Option<string>>
  )

  const EmptyPatch: HabitPatch := HabitPatch(None, None, None, None, None, None, None, None, None,
                                             None, None, None, None, None, None, None, None, None)

  /** `{ ...habit, ...updates }`. */
  function ApplyPatch(h: Habit, p: HabitPatch): Habit {
    Habit(p.id.GetOr(h.id), p.name.GetOr(h.name), p.icon.GetOr(h.icon), p.color.GetOr(h.color),
          p.goalType.GetOr(h.goalType), p.targetValue.GetOr(h.targetValue),
          p.targetUnit.GetOr(h.targetUnit), p.frequency.GetOr(h.frequency),
          p.weekdays.GetOr(h.weekdays), p.reminders.GetOr(h.reminders),
          p.category.GetOr(h.category), p.streak.GetOr(h.streak),
          p.longestStreak.GetOr(h.longestStreak), p.completedDates.GetOr(h.completedDates),
          p.completionData.GetOr(h.completionData), p.createdAt.GetOr(h.createdAt),
          p.isActive.GetOr(h.isActive), p.notes.GetOr(h.notes))
  }

  /** `{ ...p, ...q }`: the later patch wins field by field. */
  function ThenPatch(p: HabitPatch, q: HabitPatch): HabitPatch {
    HabitPatch(Later(p.id, q.id), Later(p.name, q.name), Later(p.icon, q.icon),
               Later(p.color, q.color), Later(p.goalType, q.goalType),
               Later(p.targetValue, q.targetValue), Later(p.targetUnit, q.targetUnit),
               Later(p.frequency, q.frequency), Later(p.weekdays, q.weekdays),
               Later(p.reminders, q.reminders), Later(p.category, q.category),
               Later(p.streak, q.streak), Later(p.longestStreak, q.longestStreak),
               Later(p.completedDates, q.completedDates), Later(p.completionData, q.completionData),
               Later(p.createdAt, q.createdAt), Later(p.isActive, q.isActive), Later(p.notes, q.notes))
  }

  function Later<T>(a: Option<T>, b: Option<T>): Option<T> {
    if b.Some? then b else a
  }

  /** The empty patch changes nothing, a patch applied twice is applied once, and two patches compose by spreading. */
  lemma PatchLaws(h: Habit, p: HabitPatch, q: HabitPatch)
    ensures ApplyPatch(h, EmptyPatch) == h
    ensures ApplyPatch(ApplyPatch(h, p), p) == ApplyPatch(h, p)
    ensures ApplyPatch(ApplyPatch(h, p), q) == ApplyPatch(h, ThenPatch(p, q))
    ensures p.id.None? ==> ApplyPatch(h, p).id == h.id
  {
  }

  // ---------------------------------------------------------------------------
  // The habit list
  // ---------------------------------------------------------------------------

  /** `habits.map(habit => habit.id === id ? f(habit) : habit)`. */
  function MapMatching(hs: seq<Habit>, id: string, f: Habit -> Habit): (r: seq<Habit>)
    ensures |r| == |hs|
    ensures forall k :: 0 <= k < |hs| ==> r[k] == if hs[k].id == id then f(hs[k]) else hs[k]
  {
    if hs == [] then []
    else
      var last := hs[|hs| - 1];
      MapMatching(hs[..|hs| - 1], id, f) + [if last.id == id then f(last) else last]
  }

  /** `habits.find(h => h.id === id)`: the first habit with that id. */
  function FindHabit(hs: seq<Habit>, id: string): (r: Option<Habit>)
    ensures r.Some? ==> r.value.id == id
    ensures r.Some? ==> exists k :: 0 <= k < |hs| && hs[k] == r.value && forall j :: 0 <= j < k ==> hs[j].id != id
    ensures r.None? <==> forall k :: 0 <= k < |hs| ==> hs[k].id != id
  {
    if hs == [] then None
    else if hs[0].id == id then Some(hs[0])
    else
      var r := FindHabit(hs[1..], id);
      assert forall k :: 1 <= k < |hs| ==> hs[k] == hs[1..][k - 1];
      r
  }

  /** With no habit of that id the list comes back unchanged. */
  lemma MapMatchingUnknownId(hs: seq<Habit>, id: string, f: Habit -> Habit)
    requires forall k :: 0 <= k < |hs| ==> hs[k].id != id
    ensures MapMatching(hs, id, f) == hs
  {
  }

  /** `updateHabit` on the list. */
  function UpdatedHabits(hs: seq<Habit>, id: string, p: HabitPatch): seq<Habit> {
    MapMatching(hs, id, h => ApplyPatch(h, p))
  }

  /** `toggleHabitCompletion` on the list. */
  function ToggledHabits(hs: seq<Habit>, id: string, target: Day, value: Option<int>, today: Day, now: Instant): seq<Habit> {
    MapMatching(hs, id, h => ToggledHabit(h, target, value, today, now))
  }

  /** A toggle keeps every id, so the list keeps its length, order and identities. */
  lemma ToggledHabitsKeepIds(hs: seq<Habit>, id: string, target: Day, value: Option<int>, today: Day, now: Instant)
    ensures var r := ToggledHabits(hs, id, target, value, today, now);
      && |r| == |hs|
      && (forall k :: 0 <= k < |hs| ==> r[k].id == hs[k].id)
      && (forall k :: 0 <= k < |hs| && hs[k].id != id ==> r[k] == hs[k])
      && (forall k :: 0 <= k < |hs| && hs[k].id == id ==> Consistent(r[k], today))
  {
    var r := ToggledHabits(hs, id, target, value, today, now);
    forall k | 0 <= k < |hs| && hs[k].id == id ensures Consistent(r[k], today) {
      ToggleRederives(hs[k], target, value, today, now);
    }
  }

  function IdIsNot(id: string): Habit -> bool {
    (h: Habit) => h.id != id
  }

  /** `deleteHabit` on the list. */
  function WithoutHabit(hs: seq<Habit>, id: string): seq<Habit> {
    Filter(hs, IdIsNot(id))
  }

  /**
   * Deleting removes exactly the habits with that id and keeps the others in
   * their order; an unknown id leaves the list unchanged.
   */
  lemma DeleteRemovesExactly(hs: seq<Habit>, id: string)
    ensures var r := WithoutHabit(hs, id);
      && (forall k :: 0 <= k < |r| ==> r[k].id != id)
      && (forall k :: 0 <= k < |hs| && hs[k].id != id ==> hs[k] in r)
      && IsSubsequence(r, hs)
      && ((forall k :: 0 <= k < |hs| ==> hs[k].id != id) ==> r == hs)
  {
    FilterIsSubsequence(hs, IdIsNot(id));
    if forall k :: 0 <= k < |hs| ==> hs[k].id != id {
      FilterAll(hs, IdIsNot(id));
    }
  }

  // ---------------------------------------------------------------------------
  // Selectors
  // ---------------------------------------------------------------------------

  /** The filter of `getHabitsForDate`: daily and unrecognised frequencies always, weekly and custom on their weekdays. */
  function ScheduledOn(h: Habit, date: Day): (b: bool)
    ensures h.frequency.Daily? || h.frequency.OtherFrequency? ==> b
    ensures forall offsetMs :: 0 <= offsetMs < DayMs ==> (b <==> ScheduledOnAsWritten(h, date, offsetMs))
  {
    match h.frequency
    case Daily => true
    case Weekly => h.weekdays.Some? && Weekday(date) in h.weekdays.value
    case Custom => h.weekdays.Some? && Weekday(date) in h.weekdays.value
    case OtherFrequency(_) => true
  }

  /** On weekly and custom habits the filter keeps a habit exactly on the weekdays it names, in every time zone. */
  lemma ScheduledOnItsWeekdays(h: Habit, date: Day)
    requires h.frequency == Weekly || h.frequency == Custom
    ensures h in HabitsForDate([h], date) <==> h.weekdays.Some? && Weekday(date) in h.weekdays.value
  {
    if ScheduledOn(h, date) {
      FilterAll([h], ScheduledFor(date));
    } else {
      FilterNone([h], ScheduledFor(date));
    }
  }

  /**
   * `new Date(date).getDay()` as written: the `YYYY-MM-DD` string parses as
   * UTC midnight, and `getDay` reads the weekday in the local zone, which is
   * `offsetMs` milliseconds ahead of UTC (negative west of it).
   */
  function LocalWeekdayOfDate(date: Day, offsetMs: int): (w: int)
    ensures 0 <= w < 7
    ensures 0 <= offsetMs < DayMs ==> w == Weekday(date)
    ensures -DayMs <= offsetMs < 0 ==> w == Weekday(date - 1)
  {
    LocalMidnightDay(date, offsetMs);
    Weekday(UtcDay(date * DayMs + offsetMs))
  }

  /** Within a day of UTC, the local date of UTC midnight is the date itself east of UTC and the day before west of it. */
  lemma LocalMidnightDay(date: Day, offsetMs: int)
    ensures 0 <= offsetMs < DayMs ==> UtcDay(date * DayMs + offsetMs) == date
    ensures -DayMs <= offsetMs < 0 ==> UtcDay(date * DayMs + offsetMs) == date - 1
  {
    if -DayMs <= offsetMs < 0 {
      assert date * DayMs + offsetMs == (date - 1) * DayMs + (offsetMs + DayMs);
    }
  }

  /** The `getHabitsForDate` filter as written, with the local weekday of the date's UTC midnight. */
  predicate ScheduledOnAsWritten(h: Habit, date: Day, offsetMs: int) {
    match h.frequency
    case Daily => true
    case Weekly => h.weekdays.Some? && LocalWeekdayOfDate(date, offsetMs) in h.weekdays.value
    case Custom => h.weekdays.Some? && LocalWeekdayOfDate(date, offsetMs) in h.weekdays.value
    case OtherFrequency(_) => true
  }

  /**
   * West of UTC the filter as written reads the previous day's weekday: a
   * weekly habit naming only the date's own weekday is left out on that date.
   */
  lemma WestOfUtcMissesWeekday(h: Habit, date: Day, offsetMs: int)
    requires h.frequency == Weekly && h.weekdays == Some([Weekday(date)])
    requires -DayMs <= offsetMs < 0
    ensures ScheduledOn(h, date)
    ensures !ScheduledOnAsWritten(h, date, offsetMs)
  {
    assert Weekday(date - 1) != Weekday(date);
  }

  function ScheduledFor(date: Day): Habit -> bool {
    (h: Habit) => ScheduledOn(h, date)
  }

  /** `getHabitsForDate`. */
  function HabitsForDate(hs: seq<Habit>, date: Day): (r: seq<Habit>)
    ensures |r| <= |hs|
    ensures forall k :: 0 <= k < |r| ==> ScheduledOn(r[k], date) && r[k] in hs
    ensures forall k :: 0 <= k < |hs| && ScheduledOn(hs[k], date) ==> hs[k] in r
  {
    Filter(hs, ScheduledFor(date))
  }

  /** The habits for a date are, in their order, exactly the scheduled ones. */
  lemma HabitsForDateSelects(hs: seq<Habit>, date: Day)
    ensures var r := HabitsForDate(hs, date);
      && IsSubsequence(r, hs)
      && (forall k :: 0 <= k < |r| ==> ScheduledOn(r[k], date))
      && (forall k :: 0 <= k < |hs| && ScheduledOn(hs[k], date) ==> hs[k] in r)
      && ((forall k :: 0 <= k < |hs| ==> hs[k].frequency == Daily) ==> r == hs)
  {
    FilterIsSubsequence(hs, ScheduledFor(date));
    if forall k :: 0 <= k < |hs| ==> hs[k].frequency == Daily {
      FilterAll(hs, ScheduledFor(date));
    }
  }

  datatype Progress = Progress(completed: nat, total: nat, percentage: nat)

  function CompletedToday(today: Day): Habit -> bool {
    (h: Habit) => CompletedOn(h.completionData, today)
  }

  /** `getTodaysProgress`. */
  function TodaysProgress(hs: seq<Habit>, today: Day): (p: Progress)
    ensures p.total == |HabitsForDate(hs, today)|
    ensures p.completed == CountWhere(HabitsForDate(hs, today), CompletedToday(today))
    ensures p.completed <= p.total
    ensures p.total > 0 ==> p.percentage == RoundedPercent(p.completed, p.total)
    ensures p.total > 0 ==> 2 * p.total * p.percentage <= 200 * p.completed + p.total < 2 * p.total * (p.percentage + 1)
    ensures p.percentage <= 100
    ensures p.total == 0 ==> p.percentage == 0
  {
    var todays := HabitsForDate(hs, today);
    var completed := CountWhere(todays, CompletedToday(today));
    var total := |todays|;
    if total > 0 then
      RoundedPercentBounds(completed, total);
      Progress(completed, total, RoundedPercent(completed, total))
    else Progress(completed, total, 0)
  }

  /** Every habit of the day done gives 100 percent; none done gives 0. */
  lemma ProgressExtremes(hs: seq<Habit>, today: Day)
    ensures var todays := HabitsForDate(hs, today);
      && (todays != [] && (forall k :: 0 <= k < |todays| ==> CompletedOn(todays[k].completionData, today)) ==>
            TodaysProgress(hs, today).percentage == 100)
      && ((forall k :: 0 <= k < |todays| ==> !CompletedOn(todays[k].completionData, today)) ==>
            TodaysProgress(hs, today).percentage == 0)
  {
    var todays := HabitsForDate(hs, today);
    if forall k :: 0 <= k < |todays| ==> CompletedOn(todays[k].completionData, today) {
      FilterAll(todays, CompletedToday(today));
      if todays != [] {
        RoundedPercentBounds(|todays|, |todays|);
      }
    }
    if forall k :: 0 <= k < |todays| ==> !CompletedOn(todays[k].completionData, today) {
      FilterNone(todays, CompletedToday(today));
      if todays != [] {
        RoundedPercentBounds(0, |todays|);
      }
    }
  }

  /** The more of the day's habits are done, the higher the percentage. */
  lemma ProgressMonotone(hs: seq<Habit>, today: Day, a: nat, b: nat)
    requires 0 < |HabitsForDate(hs, today)| && a <= b
    ensures RoundedPercent(a, |HabitsForDate(hs, today)|) <= RoundedPercent(b, |HabitsForDate(hs, today)|)
  {
    RoundedPercentMonotone(a, b, |HabitsForDate(hs, today)|);
  }

  // ---------------------------------------------------------------------------
  // Settings
  // ---------------------------------------------------------------------------

  /** `Partial<UserSettings>`. */
  datatype SettingsPatch = SettingsPatch(
    theme: Option<Theme>,
    notifications: Option<bool>,
    hapticFeedback: Option<bool>,
    weekStartsOn: Option<WeekStart>
  )

  /** `{ ...settings, ...newSettings }`. */
  function MergeSettings(s: UserSettings, p: SettingsPatch): UserSettings {
    UserSettings(p.theme.GetOr(s.theme), p.notifications.GetOr(s.notifications),
                 p.hapticFeedback.GetOr(s.hapticFeedback), p.weekStartsOn.GetOr(s.weekStartsOn))
  }

  /** A field given in the patch is taken, one left out is kept, and merging twice is merging once. */
  lemma MergeSettingsLaws(s: UserSettings, p: SettingsPatch)
    ensures var m := MergeSettings(s, p);
      && (m.theme == if p.theme.Some? then p.theme.value else s.theme)
      && (m.notifications == if p.notifications.Some? then p.notifications.value else s.notifications)
      && (m.hapticFeedback == if p.hapticFeedback.Some? then p.hapticFeedback.value else s.hapticFeedback)
      && (m.weekStartsOn == if p.weekStartsOn.Some? then p.weekStartsOn.value else s.weekStartsOn)
      && MergeSettings(m, p) == m
      && MergeSettings(s, SettingsPatch(None, None, None, None)) == s
  {
  }

  // ---------------------------------------------------------------------------
  // The provider
  // ---------------------------------------------------------------------------

  /** `HabitProvider`'s state and the operations it hands out. */
  class HabitProvider {
    var habits: seq<Habit>
    var settings: UserSettings

    constructor ()
      ensures habits == [] && settings == DefaultSettings
    {
      habits := [];
      settings := DefaultSettings;
    }

    /**
     * `loadData` once the stored strings are parsed: stored habits replace
     * the list, stored settings are spread over the defaults; a missing entry
     * keeps the current state.
     */
    method LoadData(habitsData: Option<seq<Habit>>, settingsData: Option<SettingsPatch>)
      modifies this
      ensures habits == if habitsData.Some? then habitsData.value else old(habits)
      ensures settings == if settingsData.Some? then MergeSettings(DefaultSettings, settingsData.value) else old(settings)
    {
      if habitsData.Some? {
        habits := habitsData.value;
      }
      if settingsData.Some? {
        settings := MergeSettings(DefaultSettings, settingsData.value);
      }
    }

    /** `addHabit`: appends one new habit; no validation of the name. */
    method AddHabit(draft: HabitDraft, id: string, now: Instant)
      modifies this
      ensures habits == old(habits) + [NewHabit(draft, id, now)]
      ensures settings == old(settings)
    {
      habits := habits + [NewHabit(draft, id, now)];
    }

    /** `updateHabit`: spreads the patch over every habit with that id. */
    method UpdateHabit(id: string, updates: HabitPatch)
      modifies this
      ensures habits == UpdatedHabits(old(habits), id, updates)
      ensures settings == old(settings)
    {
      habits := UpdatedHabits(habits, id, updates);
    }

    /** `deleteHabit`: keeps the habits with another id. */
    method DeleteHabit(id: string)
      modifies this
      ensures habits == WithoutHabit(old(habits), id)
      ensures settings == old(settings)
    {
      habits := WithoutHabit(habits, id);
    }

    /**
     * `toggleHabitCompletion`: the target date is `date`, or today when none
     * is given; each habit with the id gets its record flipped and its
     * derived fields recomputed with `CalculateStreak`.
     */
    method ToggleHabitCompletion(habitId: string, date: Option<Day>, value: Option<int>, today: Day, now: Instant)
      modifies this
      ensures habits == ToggledHabits(old(habits), habitId, date.GetOr(today), value, today, now)
      ensures settings == old(settings)
    {
      var target := date.GetOr(today);
      var hs := habits;
      var updated: seq<Habit> := [];
      for i := 0 to |hs|
        invariant settings == old(settings)
        invariant |updated| == i
        invariant forall k :: 0 <= k < i ==>
          updated[k] == if hs[k].id == habitId then ToggledHabit(hs[k], target, value, today, now) else hs[k]
      {
        var habit := hs[i];
        if habit.id == habitId {
          habit := ToggleOne(habit, target, value, today, now);
        }
        updated := updated + [habit];
      }
      habits := updated;
    }

    /** `updateSettings`: spreads the patch over the current settings. */
    method UpdateSettings(newSettings: SettingsPatch)
      modifies this
      ensures settings == MergeSettings(old(settings), newSettings)
      ensures habits == old(habits)
    {
      settings := MergeSettings(settings, newSettings);
    }
  }
}
