/**
 * The simpler habit performance card of the insights screens: the share of
 * the window's days on which each habit was completed, habits listed by
 * falling rate.
 */
module ScreenHabitTrends {
  import opened Collections
  import opened Rounding
  import opened HabitTypes
  import HabitTrends

  /** `{ ...habit, recentCompletions, completionRate }`. */
  datatype RateRow = RateRow(habit: Habit, recentCompletions: nat, completionRate: nat)

  /** One habit's row: its completed dates within the window and their rounded share of the window. */
  function RateRowFor(h: Habit, now: Instant, days: nat): (row: RateRow)
    ensures row.habit == h
    ensures row.recentCompletions == CountWhere(h.completedDates, HabitTrends.InWindow(now, days))
    ensures days == 0 ==> row.completionRate == 0
    ensures days > 0 ==> row.completionRate == RoundedPercent(row.recentCompletions, days)
    ensures days > 0 && row.recentCompletions <= days ==> row.completionRate <= 100
  {
    var recent := CountWhere(h.completedDates, HabitTrends.InWindow(now, days));
    if days > 0 then
      RoundedPercentBounds(recent, days);
      RateRow(h, recent, RoundedPercent(recent, days))
    else RateRow(h, recent, 0)
  }

  function ByFallingRate(): RateRow -> int {
    (row: RateRow) => -(row.completionRate as int)
  }

  /** `habits.map(...)`: the rows in the habits' own order. */
  function RateRowsInOrder(hs: seq<Habit>, now: Instant, days: nat): (rows: seq<RateRow>)
    ensures |rows| == |hs|
    ensures forall k :: 0 <= k < |hs| ==> rows[k] == RateRowFor(hs[k], now, days)
  {
    seq(|hs|, k requires 0 <= k < |hs| => RateRowFor(hs[k], now, days))
  }

  /** Every row of the list belongs to one of the habits. */
  lemma RateRowsInOrderHabits(hs: seq<Habit>, now: Instant, days: nat)
    ensures forall row :: row in RateRowsInOrder(hs, now, days) ==> row.habit in hs
  {
    var rows := RateRowsInOrder(hs, now, days);
    forall row | row in rows ensures row.habit in hs {
      var k :| 0 <= k < |rows| && rows[k] == row;
      assert hs[k] in hs;
    }
  }

  /** `getHabitTrends`: every habit's row, sorted by falling rate. */
  function RateRows(hs: seq<Habit>, now: Instant, timeRange: string): (r: seq<RateRow>)
    ensures |r| == |hs|
    ensures multiset(r) == multiset(RateRowsInOrder(hs, now, HabitTrends.WindowDays(timeRange)))
    ensures forall i, j :: 0 <= i < j < |r| ==> r[i].completionRate >= r[j].completionRate
  {
    var r := SortBy(RateRowsInOrder(hs, now, HabitTrends.WindowDays(timeRange)), ByFallingRate());
    assert forall i, j :: 0 <= i < j < |r| ==> ByFallingRate()(r[i]) <= ByFallingRate()(r[j]);
    r
  }

  /** Each habit keeps its row, with all its own fields, and every row is some habit's. */
  lemma RateRowsCover(hs: seq<Habit>, now: Instant, timeRange: string)
    ensures forall k :: 0 <= k < |hs| ==> RateRowFor(hs[k], now, HabitTrends.WindowDays(timeRange)) in RateRows(hs, now, timeRange)
    ensures forall row :: row in RateRows(hs, now, timeRange) ==> row.habit in hs
  {
    var days := HabitTrends.WindowDays(timeRange);
    var rows := RateRowsInOrder(hs, now, days);
    var r := RateRows(hs, now, timeRange);
    SameMembers(r, rows);
    RateRowsInOrderHabits(hs, now, days);
  }

  /** Both performance cards give a habit the same count and the same rate. */
  lemma AgreesWithTrendCard(h: Habit, now: Instant, days: nat)
    ensures RateRowFor(h, now, days).recentCompletions == HabitTrends.TrendFor(h, now, days).recentCompletions
    ensures RateRowFor(h, now, days).completionRate == HabitTrends.TrendFor(h, now, days).completionRate
  {
  }
}
