/**
 * The habit performance card of the insights screen: for each habit, how many
 * of its completed dates fall within the chosen window, the rounded rate, and
 * a trend comparing the nearer half of the window with the farther half; the
 * habits are listed by falling rate.
 */
module HabitTrends {
  import opened Dates
  import opened Collections
  import opened Rounding
  import opened HabitTypes

  /** The window length for a time-range name; unknown names keep the month default. */
  function WindowDays(timeRange: string): (days: nat)
    ensures days > 0
    ensures timeRange == "week" ==> days == 7
    ensures timeRange == "month" ==> days == 30
    ensures timeRange == "3months" ==> days == 90
    ensures timeRange == "year" ==> days == 365
    ensures timeRange !in {"week", "month", "3months", "year"} ==> days == 30
  {
    match timeRange
    case "week" => 7
    case "month" => 30
    case "3months" => 90
    case "year" => 365
    case _ => 30
  }

  /**
   * `(now - new Date(date)) / DAY <= n`. A `full-date` string parses as UTC
   * midnight of its day, so the comparison is exact on milliseconds.
   */
  predicate WithinDays(now: Instant, d: Day, n: int) {
    now - d * DayMs <= n * DayMs
  }

  /**
   * In whole days: a date is within `n` days when it is fewer than `n` days
   * before today's date, or exactly `n` days before it at UTC midnight.
   */
  lemma WithinDaysByDay(now: Instant, d: Day, n: int)
    ensures WithinDays(now, d, n) <==> (now / DayMs - d < n || (now / DayMs - d == n && now % DayMs == 0))
  {
    var today, t := now / DayMs, now % DayMs;
    assert now == today * DayMs + t && 0 <= t < DayMs;
    assert now - d * DayMs - n * DayMs == (today - d - n) * DayMs + t;
    if today - d - n >= 1 {
      assert (today - d - n) * DayMs >= DayMs;
    }
    if today - d - n <= -1 {
      assert (today - d - n) * DayMs <= -DayMs;
    }
  }

  function InWindow(now: Instant, n: int): Day -> bool {
    (d: Day) => WithinDays(now, d, n)
  }

  /** `daysDiff > half && daysDiff <= days`. */
  function InOlderHalf(now: Instant, half: int, days: int): Day -> bool {
    (d: Day) => !WithinDays(now, d, half) && WithinDays(now, d, days)
  }

  /** The nearer half and the farther half of the window split the window's count between them. */
  lemma HalvesPartition(dates: seq<Day>, now: Instant, days: nat)
    ensures CountWhere(dates, InWindow(now, days / 2)) + CountWhere(dates, InOlderHalf(now, days / 2, days))
      == CountWhere(dates, InWindow(now, days))
  {
    assert days / 2 <= days;
    CountSplit(dates, InWindow(now, days), InWindow(now, days / 2), InOlderHalf(now, days / 2, days));
  }

  datatype Trend = Up | Down | Stable

  /** Better than before when the nearer half holds more completions. */
  function TrendOf(recentHalf: int, olderHalf: int): Trend {
    if recentHalf > olderHalf then Up
    else if recentHalf < olderHalf then Down
    else Stable
  }

  /** `{ ...habit, recentCompletions, completionRate, trend, trendValue }`. */
  datatype HabitTrend = HabitTrend(habit: Habit, recentCompletions: nat, completionRate: nat, trend: Trend, trendValue: int)

  /**
   * One habit's row. The trend value is the nearer half's count minus the
   * farther half's, so it also reads as twice the nearer count minus the
   * whole window's; its sign is the trend.
   */
  function TrendFor(h: Habit, now: Instant, days: nat): (t: HabitTrend)
    ensures t.habit == h
    ensures t.recentCompletions == CountWhere(h.completedDates, InWindow(now, days))
    ensures t.trendValue == 2 * CountWhere(h.completedDates, InWindow(now, days / 2)) - t.recentCompletions
    ensures t.trend == Up <==> t.trendValue > 0
    ensures t.trend == Down <==> t.trendValue < 0
    ensures t.trend == Stable <==> t.trendValue == 0
    ensures days == 0 ==> t.completionRate == 0
    ensures days > 0 ==> t.completionRate == RoundedPercent(t.recentCompletions, days)
    ensures days > 0 && t.recentCompletions <= days ==> t.completionRate <= 100
  {
    var recent := CountWhere(h.completedDates, InWindow(now, days));
    var rate := if days > 0 then RoundedPercentBounds(recent, days); RoundedPercent(recent, days) else 0;
    var recentHalf := CountWhere(h.completedDates, InWindow(now, days / 2));
    var olderHalf := CountWhere(h.completedDates, InOlderHalf(now, days / 2, days));
    HalvesPartition(h.completedDates, now, days);
    HabitTrend(h, recent, rate, TrendOf(recentHalf, olderHalf), recentHalf - olderHalf)
  }

  /** `(a, b) => b.completionRate - a.completionRate`, as an ascending key. */
  function ByFallingRate(): HabitTrend -> int {
    (t: HabitTrend) => -(t.completionRate as int)
  }

  /** `habits.map(...)`: the rows in the habits' own order. */
  function TrendRowsInOrder(hs: seq<Habit>, now: Instant, days: nat): (rows: seq<HabitTrend>)
    ensures |rows| == |hs|
    ensures forall k :: 0 <= k < |hs| ==> rows[k] == TrendFor(hs[k], now, days)
  {
    seq(|hs|, k requires 0 <= k < |hs| => TrendFor(hs[k], now, days))
  }

  /** Every row of the list belongs to one of the habits. */
  lemma TrendRowsInOrderHabits(hs: seq<Habit>, now: Instant, days: nat)
    ensures forall t :: t in TrendRowsInOrder(hs, now, days) ==> t.habit in hs
  {
    var rows := TrendRowsInOrder(hs, now, days);
    forall t | t in rows ensures t.habit in hs {
      var k :| 0 <= k < |rows| && rows[k] == t;
      assert hs[k] in hs;
    }
  }

  /** `getHabitTrends`: every habit's row, sorted by falling rate (ties keep their order). */
  function HabitTrendRows(hs: seq<Habit>, now: Instant, timeRange: string): (r: seq<HabitTrend>)
    ensures |r| == |hs|
    ensures multiset(r) == multiset(TrendRowsInOrder(hs, now, WindowDays(timeRange)))
    ensures forall i, j :: 0 <= i < j < |r| ==> r[i].completionRate >= r[j].completionRate
  {
    var r := SortBy(TrendRowsInOrder(hs, now, WindowDays(timeRange)), ByFallingRate());
    assert forall i, j :: 0 <= i < j < |r| ==> ByFallingRate()(r[i]) <= ByFallingRate()(r[j]);
    r
  }

  /** Every habit has its row in the result, and every row belongs to a habit. */
  lemma HabitTrendRowsCover(hs: seq<Habit>, now: Instant, timeRange: string)
    ensures forall k :: 0 <= k < |hs| ==> TrendFor(hs[k], now, WindowDays(timeRange)) in HabitTrendRows(hs, now, timeRange)
    ensures forall t :: t in HabitTrendRows(hs, now, timeRange) ==> t.habit in hs
  {
    var days := WindowDays(timeRange);
    var rows := TrendRowsInOrder(hs, now, days);
    var r := HabitTrendRows(hs, now, timeRange);
    SameMembers(r, rows);
    TrendRowsInOrderHabits(hs, now, days);
  }

  function Rates(rows: seq<HabitTrend>): (rates: seq<int>)
    ensures |rates| == |rows|
    ensures forall k :: 0 <= k < |rows| ==> rates[k] == rows[k].completionRate
  {
    seq(|rows|, k requires 0 <= k < |rows| => rows[k].completionRate)
  }

  /** The header's "avg rate": the rounded mean of the rounded rates (shown only when there are rows). */
  function AverageRate(rows: seq<HabitTrend>): (avg: nat)
    requires rows != []
    ensures 2 * |rows| * avg <= 2 * Sum(Rates(rows)) + |rows| < 2 * |rows| * (avg + 1)
    ensures avg <= MaxOr(Rates(rows), 0)
    ensures (forall k :: 0 <= k < |rows| ==> rows[k].completionRate <= 100) ==> avg <= 100
  {
    RoundedMean(Rates(rows))
  }

  /** The label and colour of a rate band. */
  datatype Performance = Performance(level: string, color: string)

  /** The bands from best to worst. */
  const PerformanceLevels: seq<Performance> := [
    Performance("Excellent", Success),
    Performance("Great", Primary),
    Performance("Good", Warning),
    Performance("Fair", Danger + "80"),
    Performance("Needs Work", TextMuted)
  ]

  /** `getPerformanceLevel`: the first threshold of 90, 75, 50, 25 the rate reaches picks the band. */
  function PerformanceLevel(rate: int): (p: Performance)
    ensures p in PerformanceLevels
    ensures p.level == "Excellent" <==> rate >= 90
    ensures p.level == "Great" <==> 75 <= rate < 90
    ensures p.level == "Good" <==> 50 <= rate < 75
    ensures p.level == "Fair" <==> 25 <= rate < 50
    ensures p.level == "Needs Work" <==> rate < 25
  {
    PerformanceLevels[Tier(rate)]
  }

  /** A higher rate never gets a band further down the list. */
  lemma PerformanceLevelMonotone(a: int, b: int, i: nat, j: nat)
    requires a <= b
    requires i < |PerformanceLevels| && PerformanceLevels[i] == PerformanceLevel(a)
    requires j < |PerformanceLevels| && PerformanceLevels[j] == PerformanceLevel(b)
    ensures j <= i
  {
    TierMonotone(a, b);
  }

  /** `getTrendIcon`. */
  function TrendIcon(t: Trend): (icon: string)
    ensures icon == "trending-up" <==> t == Up
    ensures icon == "trending-down" <==> t == Down
    ensures icon == "remove" <==> t == Stable
  {
    match t
    case Up => "trending-up"
    case Down => "trending-down"
    case Stable => "remove"
  }

  /** `getTrendColor`. */
  function TrendColor(t: Trend): (c: string)
    ensures c == Success <==> t == Up
    ensures c == Danger <==> t == Down
    ensures c == TextSecondary <==> t == Stable
  {
    match t
    case Up => Success
    case Down => Danger
    case Stable => TextSecondary
  }
}
