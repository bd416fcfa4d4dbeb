/**
 * The older, self-contained tracker of `app/modules/HabbitTracker.tsx`. Its
 * habits keep their completions as a list of dates; the screen validates new
 * names, hands out palette colours round-robin, re-sorts the list on every
 * toggle and recomputes the streak by walking back from today.
 */
module LegacyTracker {
  import opened Optional
  import opened Text
  import opened Dates
  import opened Collections
  import opened Rounding
  import opened HabitTypes
  import opened Streaks
  import opened CalendarMarks

  /** The tracker's own `Habit` record. */
  datatype TrackerHabit = TrackerHabit(
    id: string,
    name: string,
    streak: int,
    doneToday: bool,
    completedDates: seq<Day>,
    createdAt: Instant,
    color: string
  )

  /** A record as read back from storage: older versions may lack `completedDates` or `color`, or use `date`. */
  datatype StoredHabit = StoredHabit(
    id: string,
    name: string,
    streak: int,
    doneToday: bool,
    completedDates: Option<seq<Day>>,
    date: Option<seq<Day>>,
    createdAt: Instant,
    color: Option<string>
  )

  // ---------------------------------------------------------------------------
  // Migration on load
  // ---------------------------------------------------------------------------

  /**
   * One record of the migration `map`: `completedDates || date || []` (an
   * empty list is truthy, so a present `completedDates` always wins) and
   * `color || HABIT_COLORS[index % 10]`.
   */
  function Migrate(h: StoredHabit, index: nat): (r: TrackerHabit)
    ensures r.id == h.id && r.name == h.name && r.streak == h.streak
    ensures r.doneToday == h.doneToday && r.createdAt == h.createdAt
    ensures h.completedDates.Some? ==> r.completedDates == h.completedDates.value
    ensures h.completedDates.None? && h.date.Some? ==> r.completedDates == h.date.value
    ensures h.completedDates.None? && h.date.None? ==> r.completedDates == []
    ensures TruthyString(h.color) ==> r.color == h.color.value
    ensures !TruthyString(h.color) ==> r.color == PaletteColor(index) && r.color in HabitColors
  {
    TrackerHabit(h.id, h.name, h.streak, h.doneToday,
                 if h.completedDates.Some? then h.completedDates.value
                 else if h.date.Some? then h.date.value
                 else [],
                 h.createdAt,
                 OrString(h.color, PaletteColor(index)))
  }

  /** `loadedHabits.map((habit, index) => ...)`. */
  function MigrateAll(stored: seq<StoredHabit>): (r: seq<TrackerHabit>)
    ensures |r| == |stored|
    ensures forall k :: 0 <= k < |stored| ==> r[k] == Migrate(stored[k], k)
  {
    seq(|stored|, k requires 0 <= k < |stored| => Migrate(stored[k], k))
  }

  /**
   * Migration keeps identity, name, streak, flag and creation time; the dates
   * come from `completedDates`, else from `date`, else nothing; the colour is
   * kept when non-empty and is otherwise a palette colour.
   */
  lemma MigrateFields(stored: seq<StoredHabit>, k: nat)
    requires k < |stored|
    ensures var h, r := stored[k], MigrateAll(stored)[k];
      && r.id == h.id && r.name == h.name && r.streak == h.streak
      && r.doneToday == h.doneToday && r.createdAt == h.createdAt
      && (h.completedDates.Some? ==> r.completedDates == h.completedDates.value)
      && (h.completedDates.None? && h.date.Some? ==> r.completedDates == h.date.value)
      && (h.completedDates.None? && h.date.None? ==> r.completedDates == [])
      && (TruthyString(h.color) ==> r.color == h.color.value)
      && (!TruthyString(h.color) ==> r.color == PaletteColor(k) && r.color in HabitColors)
  {
  }

  /** Migrated records that already had dates and a colour come back as they were. */
  lemma MigrateCurrentIsIdentity(stored: seq<StoredHabit>)
    requires forall k :: 0 <= k < |stored| ==> stored[k].completedDates.Some? && TruthyString(stored[k].color)
    ensures forall k :: 0 <= k < |stored| ==>
      var h := stored[k];
      MigrateAll(stored)[k] == TrackerHabit(h.id, h.name, h.streak, h.doneToday, h.completedDates.value, h.createdAt, h.color.value)
  {
  }

  // ---------------------------------------------------------------------------
  // Daily reset
  // ---------------------------------------------------------------------------

  /** `doneToday` re-derived from the dates for every habit. */
  function ResetDay(hs: seq<TrackerHabit>, today: Day): (r: seq<TrackerHabit>)
    ensures |r| == |hs|
    ensures forall k :: 0 <= k < |hs| ==> r[k] == hs[k].(doneToday := today in hs[k].completedDates)
  {
    if hs == [] then []
    else
      var last := hs[|hs| - 1];
      ResetDay(hs[..|hs| - 1], today) + [last.(doneToday := today in last.completedDates)]
  }

  // ---------------------------------------------------------------------------
  // Adding
  // ---------------------------------------------------------------------------

  datatype AddOutcome = Added | EmptyName | Duplicate

  /** `habits.some(h => h.name.toLowerCase() === name.toLowerCase())`. */
  predicate NameTaken(hs: seq<TrackerHabit>, name: string) {
    exists k :: 0 <= k < |hs| && SameIgnoringCase(hs[k].name, name)
  }

  /** The habit a successful `addHabit` appends. */
  function FreshHabit(hs: seq<TrackerHabit>, name: string, id: string, now: Instant): TrackerHabit {
    TrackerHabit(id, name, 0, false, [], now, PaletteColor(|hs|))
  }

  // ---------------------------------------------------------------------------
  // Toggling a date
  // ---------------------------------------------------------------------------

  function DaySet(ds: seq<Day>): (s: set<Day>)
    ensures forall d :: d in s <==> d in ds
  {
    set d | d in ds
  }

  function IsNot(date: Day): Day -> bool {
    (d: Day) => d != date
  }

  /** The list after a toggle: append and `sort()` when `date` is missing, otherwise drop every copy of it. */
  function ToggledDates(ds: seq<Day>, date: Day): (r: seq<Day>)
    ensures date in r <==> date !in ds
    ensures date !in ds ==> multiset(r) == multiset(ds) + multiset{date} && SortedBy(r, Itself())
    ensures date in ds ==> |r| <= |ds| && forall k :: 0 <= k < |r| ==> r[k] in ds
  {
    if date !in ds then
      var r := SortBy(ds + [date], Itself());
      assert multiset(ds + [date]) == multiset(ds) + multiset{date};
      assert date in multiset(r);
      r
    else
      Filter(ds, IsNot(date))
  }

  /**
   * A toggle flips the membership of `date` and keeps every other day; a
   * strictly increasing list stays strictly increasing, so it is exactly the
   * sorted list of its days.
   */
  lemma {:induction false} ToggledDatesFlips(ds: seq<Day>, date: Day)
    ensures var r := ToggledDates(ds, date);
      && (date in r <==> date !in ds)
      && (forall d :: d != date ==> (d in r <==> d in ds))
      && (StrictlyIncreasing(ds) ==> StrictlyIncreasing(r) && r == SortedDays(DaySet(r)))
  {
    var r := ToggledDates(ds, date);
    if date !in ds {
      var xs := ds + [date];
      assert forall d :: d in r <==> d in multiset(xs);
      assert forall d :: d in xs <==> d == date || d in ds;
      if StrictlyIncreasing(ds) {
        forall x ensures multiset(r)[x] <= 1 {
          IncreasingHasNoRepeats(ds, x);
          assert multiset(r)[x] == multiset(ds)[x] + multiset{date}[x];
        }
        SortedWithoutRepeats(r);
      }
    } else {
      forall d | d != date && d in ds ensures d in r {
        var k :| 0 <= k < |ds| && ds[k] == d;
        assert IsNot(date)(ds[k]);
      }
      if StrictlyIncreasing(ds) {
        FilterKeepsIncreasing(ds, IsNot(date));
      }
    }
    if StrictlyIncreasing(r) {
      SortedDaysUnique(r, DaySet(r));
    }
  }

  /** The toggled habit: new dates, the streak back from today over them, and `doneToday`. */
  function ToggledEntry(h: TrackerHabit, date: Day, today: Day): TrackerHabit {
    var ds := ToggledDates(h.completedDates, date);
    h.(completedDates := ds, streak := RunLength(DaySet(ds), today), doneToday := today in ds)
  }

  /** `toggleHabitForDate` on the list. */
  function ToggledList(hs: seq<TrackerHabit>, id: string, date: Day, today: Day): (r: seq<TrackerHabit>)
    ensures |r| == |hs|
    ensures forall k :: 0 <= k < |hs| ==> r[k] == if hs[k].id == id then ToggledEntry(hs[k], date, today) else hs[k]
  {
    if hs == [] then []
    else
      var last := hs[|hs| - 1];
      ToggledList(hs[..|hs| - 1], id, date, today) + [if last.id == id then ToggledEntry(last, date, today) else last]
  }

  /** `doneToday` after a toggle says whether today is in the new list, and toggling today flips it. */
  lemma ToggledEntryToday(h: TrackerHabit, date: Day, today: Day)
    ensures var r := ToggledEntry(h, date, today);
      && (r.doneToday <==> r.streak > 0)
      && (date == today ==> r.doneToday == (today !in h.completedDates))
      && IsRun(DaySet(r.completedDates), today, r.streak)
  {
    ToggledDatesFlips(h.completedDates, date);
  }

  /** The backward walk over the date list: counts days from today while each is in the list. */
  method StreakFromToday(dates: seq<Day>, today: Day) returns (streak: nat)
    ensures streak == RunLength(DaySet(dates), today)
  {
    ghost var done := DaySet(dates);
    streak := 0;
    var checkDate := today;
    while checkDate in dates
      invariant checkDate == today - streak
      invariant RunLength(done, today) == streak + RunLength(done, checkDate)
      decreases DaysUpTo(done, checkDate)
    {
      assert checkDate in DaysUpTo(done, checkDate) && checkDate !in DaysUpTo(done, checkDate - 1);
      assert DaysUpTo(done, checkDate - 1) < DaysUpTo(done, checkDate);
      streak := streak + 1;
      checkDate := checkDate - 1;
    }
  }

  // ---------------------------------------------------------------------------
  // Deleting, looking up, the calendar and the day list
  // ---------------------------------------------------------------------------

  function IdIsNot(id: string): TrackerHabit -> bool {
    (h: TrackerHabit) => h.id != id
  }

  /** `habits.find(h => h.id === id)`: the first habit with that id. */
  function FindById(hs: seq<TrackerHabit>, id: string): (r: Option<TrackerHabit>)
    ensures r.Some? ==> r.value.id == id
    ensures r.Some? ==> exists k :: 0 <= k < |hs| && hs[k] == r.value && forall j :: 0 <= j < k ==> hs[j].id != id
    ensures r.None? <==> forall k :: 0 <= k < |hs| ==> hs[k].id != id
  {
    if hs == [] then None
    else if hs[0].id == id then Some(hs[0])
    else
      var r := FindById(hs[1..], id);
      assert forall k :: 1 <= k < |hs| ==> hs[k] == hs[1..][k - 1];
      r
  }

  /** What each habit contributes to the unfiltered calendar. */
  function Sources(hs: seq<TrackerHabit>): (r: seq<DatedColor>)
    ensures |r| == |hs|
    ensures forall k :: 0 <= k < |hs| ==> r[k] == DatedColor(hs[k].color, hs[k].completedDates)
  {
    if hs == [] then [] else Sources(hs[..|hs| - 1]) + [DatedColor(hs[|hs| - 1].color, hs[|hs| - 1].completedDates)]
  }

  /** An entry of `getHabitsForDate`: the habit and whether the date is among its completions. */
  datatype HabitOnDate = HabitOnDate(habit: TrackerHabit, completedOnDate: bool)

  /** `getHabitsForDate`: every habit, no frequency filter, each flagged for the date. */
  function HabitsForDate(hs: seq<TrackerHabit>, date: Day): (r: seq<HabitOnDate>)
    ensures |r| == |hs|
    ensures forall k :: 0 <= k < |hs| ==> r[k].habit == hs[k] && (r[k].completedOnDate <==> date in hs[k].completedDates)
  {
    if hs == [] then []
    else
      var last := hs[|hs| - 1];
      HabitsForDate(hs[..|hs| - 1], date) + [HabitOnDate(last, date in last.completedDates)]
  }

  /**
   * The list row's `completionPercentage`: completions over the days since
   * creation (at least one), rounded; 0 when there are no completions.
   */
  function CompletionPercentage(h: TrackerHabit, daysSinceCreation: nat): (p: nat)
    ensures h.completedDates == [] ==> p == 0
    ensures var days := if daysSinceCreation >= 1 then daysSinceCreation else 1;
      |h.completedDates| > 0 ==> p == RoundedPercent(|h.completedDates|, days)
    ensures var days := if daysSinceCreation >= 1 then daysSinceCreation else 1;
      2 * days * p <= 200 * |h.completedDates| + days < 2 * days * (p + 1)
    ensures |h.completedDates| <= daysSinceCreation ==> p <= 100
  {
    var days := if daysSinceCreation >= 1 then daysSinceCreation else 1;
    if |h.completedDates| > 0 then
      RoundedPercentBounds(|h.completedDates|, days);
      RoundedPercent(|h.completedDates|, days)
    else 0
  }

  /** One completion per day since creation is 100 percent. */
  lemma CompletionPercentageFull(h: TrackerHabit, daysSinceCreation: nat)
    requires daysSinceCreation >= 1 && |h.completedDates| == daysSinceCreation
    ensures CompletionPercentage(h, daysSinceCreation) == 100
  {
    RoundedPercentBounds(|h.completedDates|, daysSinceCreation);
  }

  /** The calendar's fallback highlight colour. */
  const DefaultSelectedColor: string := "#0af"

  // ---------------------------------------------------------------------------
  // The screen state
  // ---------------------------------------------------------------------------

  /** The tracker screen: its habit list and the text of the new-habit field. */
  class Tracker {
    var habits: seq<TrackerHabit>
    var newHabit: string

    constructor ()
      ensures habits == [] && newHabit == ""
    {
      habits := [];
      newHabit := "";
    }

    /** `loadHabits`: a stored list replaces the state after migration. */
    method LoadHabits(saved: Option<seq<StoredHabit>>)
      modifies this
      ensures habits == if saved.Some? then MigrateAll(saved.value) else old(habits)
      ensures newHabit == old(newHabit)
    {
      if saved.Some? {
        habits := MigrateAll(saved.value);
      }
    }

    /**
     * `checkAndResetDay`: when the stored reset date is not today and there
     * are habits, re-derive every `doneToday`; `reset` tells the caller to
     * store today as the new reset date.
     */
    method CheckAndResetDay(lastResetDate: Option<Day>, today: Day) returns (reset: bool)
      modifies this
      ensures reset == (lastResetDate != Some(today) && |old(habits)| > 0)
      ensures habits == if reset then ResetDay(old(habits), today) else old(habits)
      ensures newHabit == old(newHabit)
    {
      reset := lastResetDate != Some(today) && |habits| > 0;
      if reset {
        habits := ResetDay(habits, today);
      }
    }

    /**
     * `addHabit`: a blank name and a name already taken (ignoring case) are
     * refused and change nothing; otherwise one habit named by the trimmed
     * input is appended with the next palette colour and the field is cleared.
     */
    method AddHabit(id: string, now: Instant) returns (outcome: AddOutcome)
      modifies this
      ensures outcome == EmptyName <==> Trim(old(newHabit)) == []
      ensures outcome == Duplicate <==> Trim(old(newHabit)) != [] && NameTaken(old(habits), Trim(old(newHabit)))
      ensures outcome != Added ==> habits == old(habits) && newHabit == old(newHabit)
      ensures outcome == Added ==>
        && habits == old(habits) + [FreshHabit(old(habits), Trim(old(newHabit)), id, now)]
        && newHabit == ""
    {
      var name := Trim(newHabit);
      if name == [] {
        return EmptyName;
      }
      if NameTaken(habits, name) {
        return Duplicate;
      }
      habits := habits + [FreshHabit(habits, name, id, now)];
      newHabit := "";
      outcome := Added;
    }

    /** `toggleHabitForDate`: every habit with the id gets the date toggled and its streak and flag recomputed. */
    method ToggleHabitForDate(habitId: string, date: Day, today: Day)
      modifies this
      ensures habits == ToggledList(old(habits), habitId, date, today)
      ensures newHabit == old(newHabit)
    {
      var hs := habits;
      var updated: seq<TrackerHabit> := [];
      for i := 0 to |hs|
        invariant newHabit == old(newHabit)
        invariant |updated| == i
        invariant forall k :: 0 <= k < i ==>
          updated[k] == if hs[k].id == habitId then ToggledEntry(hs[k], date, today) else hs[k]
      {
        var habit := hs[i];
        if habit.id == habitId {
          var newCompletedDates: seq<Day>;
          if date !in habit.completedDates {
            newCompletedDates := SortBy(habit.completedDates + [date], Itself());
          } else {
            newCompletedDates := Filter(habit.completedDates, IsNot(date));
          }
          var streak := StreakFromToday(newCompletedDates, today);
          habit := habit.(completedDates := newCompletedDates, streak := streak,
                          doneToday := today in newCompletedDates);
        }
        updated := updated + [habit];
      }
      habits := updated;
    }

    /** `toggleHabit`: the toggle of today. */
    method ToggleHabit(id: string, today: Day)
      modifies this
      ensures habits == ToggledList(old(habits), id, today, today)
      ensures newHabit == old(newHabit)
    {
      ToggleHabitForDate(id, today, today);
    }

    /** The confirmed branch of `deleteHabit`: keeps the habits with another id. */
    method DeleteHabit(id: string)
      modifies this
      ensures habits == Filter(old(habits), IdIsNot(id))
      ensures newHabit == old(newHabit)
    {
      habits := Filter(habits, IdIsNot(id));
    }

    /**
     * `getMarkedDates`: with a habit chosen, its dates highlighted in its
     * colour with white text, or nothing for an unknown id; with none chosen,
     * one dot per habit per listed date.
     */
    method GetMarkedDates(selectedHabit: Option<string>) returns (marked: map<Day, Mark>)
      ensures TruthyString(selectedHabit) && FindById(habits, selectedHabit.value).None? ==> marked == map[]
      ensures TruthyString(selectedHabit) && FindById(habits, selectedHabit.value).Some? ==>
        var h := FindById(habits, selectedHabit.value).value;
        && (forall d :: d in marked <==> d in h.completedDates)
        && (forall d :: d in marked ==> marked[d] == Mark(None, true, Some(h.color), Some("white")))
      ensures !TruthyString(selectedHabit) ==>
        && (forall d :: d in marked <==> DotsFor(Sources(habits), d) != [])
        && (forall d :: d in marked ==> marked[d] == DotMark(DotsFor(Sources(habits), d)))
    {
      if TruthyString(selectedHabit) {
        var habit := FindById(habits, selectedHabit.value);
        if habit.None? {
          return map[];
        }
        marked := HabitMarks(habit.value.completedDates, habit.value.color, Some("white"));
      } else {
        marked := AddDots(Sources(habits));
      }
    }

    /**
     * The calendar's `markedDates`: the marks with the selected date
     * highlighted in the chosen habit's colour, or `#0af` when none is chosen.
     */
    method SelectedCalendarMarks(selectedDate: Day, selectedHabit: Option<string>) returns (marked: map<Day, Mark>)
      ensures selectedDate in marked && marked[selectedDate].selected
      ensures !TruthyString(selectedHabit) ==> marked[selectedDate].selectedColor == Some(DefaultSelectedColor)
      ensures TruthyString(selectedHabit) ==>
        var found := FindById(habits, selectedHabit.value);
        marked[selectedDate].selectedColor ==
          Some(if found.Some? && found.value.color != "" then found.value.color else DefaultSelectedColor)
      ensures TruthyString(selectedHabit) && FindById(habits, selectedHabit.value).Some? ==>
        var h := FindById(habits, selectedHabit.value).value;
        && (forall d :: d in marked <==> d in h.completedDates || d == selectedDate)
        && (forall d :: d in marked && d != selectedDate ==> marked[d] == Mark(None, true, Some(h.color), Some("white")))
      ensures TruthyString(selectedHabit) && FindById(habits, selectedHabit.value).None? ==> marked.Keys == {selectedDate}
      ensures !TruthyString(selectedHabit) ==>
        && (forall d :: d in marked <==> DotsFor(Sources(habits), d) != [] || d == selectedDate)
        && (forall d :: d in marked && d != selectedDate ==> marked[d] == DotMark(DotsFor(Sources(habits), d)))
    {
      var base := GetMarkedDates(selectedHabit);
      var color := DefaultSelectedColor;
      if TruthyString(selectedHabit) {
        var habit := FindById(habits, selectedHabit.value);
        if habit.Some? && habit.value.color != "" {
          color := habit.value.color;
        }
      }
      marked := WithSelected(base, selectedDate, color);
    }
  }

  /** With no date listed twice by any habit, the unfiltered calendar shows one dot per habit listing a date. */
  lemma UnfilteredDotCount(hs: seq<TrackerHabit>, d: Day)
    requires forall k :: 0 <= k < |hs| ==> StrictlyIncreasing(hs[k].completedDates)
    ensures |DotsFor(Sources(hs), d)| == CountWhere(Sources(hs), Lists(d))
    ensures DotsFor(Sources(hs), d) != [] <==> exists k :: 0 <= k < |hs| && d in hs[k].completedDates
  {
    var src := Sources(hs);
    forall k | 0 <= k < |src| ensures NoRepeats(src[k].dates) {
      assert src[k].dates == hs[k].completedDates;
    }
    DotCountIsHabitCount(src, d);
    DotsIffListed(src, d);
    if exists k :: 0 <= k < |src| && d in src[k].dates {
      var k :| 0 <= k < |src| && d in src[k].dates;
      assert d in hs[k].completedDates;
    }
  }
}
