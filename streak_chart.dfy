/**
 * The streak progression chart: one bar per day of the window, oldest first,
 * giving the percentage of all habits completed that day, scaled against the
 * tallest bar.
 */
module StreakChart {
  import opened Dates
  import opened Collections
  import opened Rounding
  import opened HabitTypes
  import opened DailyCounts

  /** `days`: a week, a month, and 90 days for every other range, the year as well. */
  function ChartDays(timeRange: string): (days: nat)
    ensures days > 0
    ensures timeRange == "week" ==> days == 7
    ensures timeRange == "month" ==> days == 30
    ensures timeRange != "week" && timeRange != "month" ==> days == 90
  {
    if timeRange == "week" then 7 else if timeRange == "month" then 30 else 90
  }

  /** One pushed entry (its day-of-month label is not modelled). */
  datatype StreakPoint = StreakPoint(date: Day, avgStreak: nat)

  /** `Math.round(totalStreaks / habits.length * 100)`, or 0 without habits. */
  function PointFor(hs: seq<Habit>, date: Day): (p: StreakPoint)
    ensures p.date == date
    ensures hs == [] ==> p.avgStreak == 0
    ensures hs != [] ==> p.avgStreak == RoundedPercent(CompletionsOn(hs, date), |hs|)
    ensures p.avgStreak <= 100
  {
    if hs == [] then StreakPoint(date, 0)
    else
      RoundedPercentBounds(CompletionsOn(hs, date), |hs|);
      StreakPoint(date, RoundedPercent(CompletionsOn(hs, date), |hs|))
  }

  /** `getStreakData`: `for (let i = days - 1; i >= 0; i--)` pushes the point for `today - i`. */
  method StreakData(hs: seq<Habit>, today: Day, timeRange: string) returns (data: seq<StreakPoint>)
    ensures |data| == ChartDays(timeRange)
    ensures forall k :: 0 <= k < |data| ==> data[k] == PointFor(hs, today - (|data| - 1) + k)
  {
    var days := ChartDays(timeRange);
    data := [];
    var i: int := days - 1;
    while i >= 0
      invariant -1 <= i < days
      invariant |data| == days - 1 - i
      invariant forall k :: 0 <= k < |data| ==> data[k] == PointFor(hs, today - (days - 1) + k)
    {
      data := data + [PointFor(hs, today - i)];
      i := i - 1;
    }
  }

  /** The points are consecutive days ending today. */
  lemma StreakDataEndsToday(hs: seq<Habit>, today: Day, data: seq<StreakPoint>)
    requires data != []
    requires forall k :: 0 <= k < |data| ==> data[k] == PointFor(hs, today - (|data| - 1) + k)
    ensures data[|data| - 1].date == today
    ensures forall k :: 0 <= k < |data| - 1 ==> data[k + 1].date == data[k].date + 1
  {
  }

  function Heights(data: seq<StreakPoint>): (hs: seq<int>)
    ensures |hs| == |data|
    ensures forall k :: 0 <= k < |data| ==> hs[k] == data[k].avgStreak
  {
    seq(|data|, k requires 0 <= k < |data| => data[k].avgStreak)
  }

  /**
   * `Math.max(...data.map(d => d.avgStreak), 1)`: never below 1 and never
   * below a bar, so each bar's height `avgStreak / maxStreak` is a share of
   * the chart between 0 and 100 percent.
   */
  function MaxStreak(data: seq<StreakPoint>): (m: int)
    ensures m >= 1
    ensures forall k :: 0 <= k < |data| ==> 0 <= data[k].avgStreak <= m
    ensures m == 1 || exists k :: 0 <= k < |data| && data[k].avgStreak == m
  {
    var heights := Heights(data);
    var m := MaxOr(heights, 1);
    assert forall k :: 0 <= k < |data| ==> heights[k] in heights;
    assert m == 1 || m in heights;
    m
  }

  /** The bar colour: success from 75, warning from 50, danger below. */
  function BarColor(avgStreak: int): (c: string)
    ensures c == Success <==> avgStreak >= 75
    ensures c == Warning <==> 50 <= avgStreak < 75
    ensures c == Danger <==> avgStreak < 50
  {
    if avgStreak >= 75 then Success else if avgStreak >= 50 then Warning else Danger
  }
}
