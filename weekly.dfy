/**
 * The weekly completion card: one bar per day of the last seven days, oldest
 * first, with the share of active habits completed that day.
 */
module WeeklyCompletion {
  import opened Dates
  import opened Collections
  import opened Rounding
  import opened HabitTypes
  import opened DailyCounts

  /** `toLocaleDateString('en-US', { weekday: 'short' })` of a weekday number. */
  const WeekdayShort: seq<string> := ["Sun", "Mon", "Tue", "Wed", "Thu", "Fri", "Sat"]

  /** One pushed entry of `weekData` (its day-of-month label is not modelled). */
  datatype DayBar = DayBar(date: Day, day: string, percentage: nat, completions: nat, total: nat, isToday: bool)

  /** The entry for `date`, with `today` the date the card is drawn on. */
  function DayBarFor(hs: seq<Habit>, date: Day, today: Day): (bar: DayBar)
    ensures bar.date == date && bar.day == WeekdayShort[Weekday(date)]
    ensures bar.completions == CompletionsOn(hs, date)
    ensures bar.total == ActiveCount(hs)
    ensures bar.total == 0 ==> bar.percentage == 0
    ensures bar.total > 0 ==> bar.percentage == RoundedPercent(bar.completions, bar.total)
    ensures bar.completions <= bar.total ==> bar.percentage <= 100
    ensures bar.isToday <==> date == today
  {
    var completions := CompletionsOn(hs, date);
    var total := ActiveCount(hs);
    var percentage := if total > 0 then RoundedPercentBounds(completions, total); RoundedPercent(completions, total) else 0;
    DayBar(date, WeekdayShort[Weekday(date)], percentage, completions, total, date == today)
  }

  /** `getWeeklyData`: `for (let i = 6; i >= 0; i--)` pushes the entry for `today - i`. */
  method WeeklyData(hs: seq<Habit>, today: Day) returns (week: seq<DayBar>)
    ensures |week| == 7
    ensures forall k :: 0 <= k < 7 ==> week[k] == DayBarFor(hs, today - 6 + k, today)
  {
    week := [];
    var i := 6;
    while i >= 0
      invariant -1 <= i <= 6
      invariant |week| == 6 - i
      invariant forall k :: 0 <= k < |week| ==> week[k] == DayBarFor(hs, today - 6 + k, today)
    {
      week := week + [DayBarFor(hs, today - i, today)];
      i := i - 1;
    }
  }

  /**
   * The seven days are consecutive and end today, the total is the same in
   * every entry, and only the last entry is today's.
   */
  lemma WeekShape(hs: seq<Habit>, today: Day, week: seq<DayBar>)
    requires |week| == 7
    requires forall k :: 0 <= k < 7 ==> week[k] == DayBarFor(hs, today - 6 + k, today)
    ensures week[6].date == today && week[6].isToday
    ensures forall k :: 0 <= k < 6 ==> week[k + 1].date == week[k].date + 1 && !week[k].isToday
    ensures forall k :: 0 <= k < 7 ==> week[k].total == week[0].total
  {
  }

  function Percentages(week: seq<DayBar>): (ps: seq<int>)
    ensures |ps| == |week|
    ensures forall k :: 0 <= k < |week| ==> ps[k] == week[k].percentage
  {
    seq(|week|, k requires 0 <= k < |week| => week[k].percentage)
  }

  /** `averageCompletion`: the rounded mean of the seven rounded percentages. */
  function AverageCompletion(week: seq<DayBar>): (avg: nat)
    requires |week| == 7
    ensures 14 * avg <= 2 * Sum(Percentages(week)) + 7 < 14 * (avg + 1)
    ensures avg <= MaxOr(Percentages(week), 0)
  {
    RoundedMean(Percentages(week))
  }

  /** With every habit active, no bar and so no average exceeds 100. */
  lemma AverageAtMostHundred(hs: seq<Habit>, today: Day, week: seq<DayBar>)
    requires forall k :: 0 <= k < |hs| ==> hs[k].isActive
    requires |week| == 7
    requires forall k :: 0 <= k < 7 ==> week[k] == DayBarFor(hs, today - 6 + k, today)
    ensures forall k :: 0 <= k < 7 ==> week[k].percentage <= 100
    ensures AverageCompletion(week) <= 100
  {
    forall k | 0 <= k < 7 ensures week[k].percentage <= 100 {
      CompletionsWithinActive(hs, today - 6 + k);
    }
    var ps := Percentages(week);
    SumBounds(ps, 0, 100);
    RoundRatioBetween(Sum(ps), 7, 0, 100);
  }

  /** `getBarColor`: the colour of the first threshold of 90, 75, 50, 25 the percentage reaches. */
  function BarColor(percentage: int): (c: string)
    ensures c == Success <==> percentage >= 90
    ensures c == Primary <==> 75 <= percentage < 90
    ensures c == Warning <==> 50 <= percentage < 75
    ensures c == Danger + "80" <==> 25 <= percentage < 50
    ensures c == TextMuted <==> percentage < 25
  {
    [Success, Primary, Warning, Danger + "80", TextMuted][Tier(percentage)]
  }
}
