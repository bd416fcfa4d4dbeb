/**
 * The per-day figures the insight cards share: how many habits list a date
 * among their completed dates, and how many habits are active.
 */
module DailyCounts {
  import opened Dates
  import opened Collections
  import opened HabitTypes

  /** `habit.completedDates.includes(dateStr)`. */
  function ListsDate(d: Day): Habit -> bool {
    (h: Habit) => d in h.completedDates
  }

  function IsActive(): Habit -> bool {
    (h: Habit) => h.isActive
  }

  /** `habits.reduce((sum, habit) => sum + (habit.completedDates.includes(d) ? 1 : 0), 0)`, over all habits, active or not. */
  function CompletionsOn(hs: seq<Habit>, d: Day): (n: nat)
    ensures n <= |hs|
  {
    CountWhere(hs, ListsDate(d))
  }

  /** `habits.filter(h => h.isActive).length`. */
  function ActiveCount(hs: seq<Habit>): (n: nat)
    ensures n <= |hs|
  {
    CountWhere(hs, IsActive())
  }

  /** When no habit is inactive, a day's completions never exceed the active count. */
  lemma CompletionsWithinActive(hs: seq<Habit>, d: Day)
    requires forall k :: 0 <= k < |hs| ==> hs[k].isActive
    ensures CompletionsOn(hs, d) <= ActiveCount(hs)
  {
    FilterAll(hs, IsActive());
  }
}
