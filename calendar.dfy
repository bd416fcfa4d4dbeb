/**
 * The calendar screen: the dictionary of marked dates (one habit's dates, or
 * every habit's dots) with the selected date highlighted, and the list of the
 * selected day's habits with their completion state.
 */
module CalendarScreen {
  import opened Optional
  import opened Dates
  import opened Collections
  import opened HabitTypes
  import opened CalendarMarks
  import HabitContext

  /** What each habit contributes to the unfiltered calendar. */
  function Sources(hs: seq<Habit>): (r: seq<DatedColor>)
    ensures |r| == |hs|
    ensures forall k :: 0 <= k < |hs| ==> r[k] == DatedColor(hs[k].color, hs[k].completedDates)
  {
    seq(|hs|, k requires 0 <= k < |hs| => DatedColor(hs[k].color, hs[k].completedDates))
  }

  /**
   * `getMarkedDates`. With a habit chosen, its completed dates are selected in
   * its colour; with the chosen id unknown, nothing is; with none chosen,
   * every date gets one dot per listing habit. Then the selected date is
   * highlighted in the primary colour, keeping the dots it had.
   */
  method MarkedDates(habits: seq<Habit>, selectedHabit: Option<string>, selectedDate: Day) returns (marked: map<Day, Mark>)
    ensures selectedDate in marked && marked[selectedDate].selected && marked[selectedDate].selectedColor == Some(Primary)
    ensures TruthyString(selectedHabit) && HabitContext.FindHabit(habits, selectedHabit.value).None? ==>
      marked == map[selectedDate := Mark(None, true, Some(Primary), None)]
    ensures TruthyString(selectedHabit) && HabitContext.FindHabit(habits, selectedHabit.value).Some? ==>
      var h := HabitContext.FindHabit(habits, selectedHabit.value).value;
      && (forall d :: d in marked <==> d in h.completedDates || d == selectedDate)
      && (forall d :: d in h.completedDates && d != selectedDate ==> marked[d] == Mark(None, true, Some(h.color), None))
      && marked[selectedDate].dots.None?
    ensures !TruthyString(selectedHabit) ==>
      && (forall d :: d in marked <==> DotsFor(Sources(habits), d) != [] || d == selectedDate)
      && (forall d :: d in marked && d != selectedDate ==> marked[d] == DotMark(DotsFor(Sources(habits), d)))
      && marked[selectedDate].dots == (if DotsFor(Sources(habits), selectedDate) != [] then Some(DotsFor(Sources(habits), selectedDate)) else None)
  {
    var base: map<Day, Mark> := map[];
    if TruthyString(selectedHabit) {
      var habit := HabitContext.FindHabit(habits, selectedHabit.value);
      if habit.Some? {
        base := HabitMarks(habit.value.completedDates, habit.value.color, None);
      }
    } else {
      base := AddDots(Sources(habits));
    }
    marked := WithSelected(base, selectedDate, Primary);
  }

  /**
   * With no habit listing a date twice (as `completedDates` is kept), the
   * unfiltered calendar shows one dot per habit listing the date.
   */
  lemma UnfilteredDotCount(hs: seq<Habit>, d: Day)
    requires forall k :: 0 <= k < |hs| ==> StrictlyIncreasing(hs[k].completedDates)
    ensures |DotsFor(Sources(hs), d)| == CountWhere(Sources(hs), Lists(d))
    ensures DotsFor(Sources(hs), d) != [] <==> exists k :: 0 <= k < |hs| && d in hs[k].completedDates
  {
    var src := Sources(hs);
    forall k | 0 <= k < |src| ensures NoRepeats(src[k].dates) {
      assert src[k].dates == hs[k].completedDates;
    }
    DotCountIsHabitCount(src, d);
    DotsIffListed(src, d);
    if exists k :: 0 <= k < |src| && d in src[k].dates {
      var k :| 0 <= k < |src| && d in src[k].dates;
      assert d in hs[k].completedDates;
    }
  }

  /** A habit in the day's list, as `renderDayDetails` draws it. */
  datatype DayEntry = DayEntry(habit: Habit, isCompleted: bool, shownValue: Option<int>, unit: string)

  /**
   * One habit on the selected day: completed only when that day's record
   * exists and says so; the value is shown when the record holds a non-zero one.
   */
  function DayEntryFor(h: Habit, date: Day): (e: DayEntry)
    ensures e.habit == h
    ensures e.isCompleted <==> date in h.completionData && h.completionData[date].completed
    ensures date !in h.completionData ==> !e.isCompleted && e.shownValue.None?
    ensures e.shownValue.Some? <==> date in h.completionData && h.completionData[date].value.Some? && h.completionData[date].value.value != 0
    ensures e.shownValue.Some? ==> e.shownValue == h.completionData[date].value
  {
    var value := if date in h.completionData then h.completionData[date].value else None;
    DayEntry(h, CompletedOn(h.completionData, date), if value.Some? && value.value != 0 then value else None, UnitLabel(h))
  }

  /** The day's list: the habits scheduled on the date, each with its state. */
  function DayDetails(hs: seq<Habit>, date: Day): (r: seq<DayEntry>)
    ensures |r| == |HabitContext.HabitsForDate(hs, date)|
    ensures forall k :: 0 <= k < |r| ==> r[k] == DayEntryFor(HabitContext.HabitsForDate(hs, date)[k], date)
  {
    var scheduled := HabitContext.HabitsForDate(hs, date);
    seq(|scheduled|, k requires 0 <= k < |scheduled| => DayEntryFor(scheduled[k], date))
  }
}
