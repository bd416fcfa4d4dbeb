/**
 * The figures of the insights screen: the summary counts over the chosen
 * window, the most consistent habit, the per-category progress rows and the
 * four achievements.
 */
module Insights {
  import opened Optional
  import opened Dates
  import opened Collections
  import opened Rounding
  import opened HabitTypes
  import opened DailyCounts

  datatype TimeRange = Week | Month | ThreeMonths | Year

  /** The days the range's `startDate` lies before `now`. */
  function RangeDays(range: TimeRange): (n: nat)
    ensures n > 0
    ensures n == 7 <==> range == Week
    ensures n == 30 <==> range == Month
    ensures n == 90 <==> range == ThreeMonths
    ensures n == 365 <==> range == Year
  {
    match range
    case Week => 7
    case Month => 30
    case ThreeMonths => 90
    case Year => 365
  }

  /** `startDate.toISOString().split('T')[0]`, the first date the window counts. */
  function WindowStart(now: Instant, range: TimeRange): Day {
    UtcDay(now - RangeDays(range) * DayMs)
  }

  /** The window starts the range's number of days before today's UTC date. */
  lemma WindowStartIsDaysBack(now: Instant, range: TimeRange)
    ensures WindowStart(now, range) == UtcDay(now) - RangeDays(range)
  {
    UtcDayBack(now, RangeDays(range));
  }

  /** `date >= start` on `full-date` strings, which orders as the dates do. */
  function OnOrAfter(start: Day): Day -> bool {
    (d: Day) => d >= start
  }

  function HasStreak(): Habit -> bool {
    (h: Habit) => h.streak > 0
  }

  /** A habit's completed dates within the window. */
  function InWindowCount(h: Habit, start: Day): (n: nat)
    ensures n <= |h.completedDates|
  {
    CountWhere(h.completedDates, OnOrAfter(start))
  }

  /** The window's completions summed over the habits. */
  function WindowTotal(hs: seq<Habit>, start: Day): nat {
    if hs == [] then 0 else WindowTotal(hs[..|hs| - 1], start) + InWindowCount(hs[|hs| - 1], start)
  }

  /** All completions of all habits, whatever their date. */
  function AllTimeTotal(hs: seq<Habit>): nat {
    if hs == [] then 0 else AllTimeTotal(hs[..|hs| - 1]) + |hs[|hs| - 1].completedDates|
  }

  /** The window never holds more completions than all time does. */
  lemma {:induction false} WindowTotalAtMostAllTime(hs: seq<Habit>, start: Day)
    ensures WindowTotal(hs, start) <= AllTimeTotal(hs)
  {
    if hs != [] {
      WindowTotalAtMostAllTime(hs[..|hs| - 1], start);
    }
  }

  /** A window starting no later counts at least as many completions. */
  lemma {:induction false} WindowTotalMonotone(hs: seq<Habit>, early: Day, late: Day)
    requires early <= late
    ensures WindowTotal(hs, late) <= WindowTotal(hs, early)
  {
    if hs != [] {
      WindowTotalMonotone(hs[..|hs| - 1], early, late);
      CountMonotone(hs[|hs| - 1].completedDates, OnOrAfter(late), OnOrAfter(early));
    }
  }

  function LongestStreaks(hs: seq<Habit>): (r: seq<int>)
    ensures |r| == |hs|
    ensures forall k :: 0 <= k < |hs| ==> r[k] == hs[k].longestStreak
  {
    seq(|hs|, k requires 0 <= k < |hs| => hs[k].longestStreak)
  }

  // ---------------------------------------------------------------------------
  // The most consistent habit
  // ---------------------------------------------------------------------------

  /** One step of the `reduce`: a habit with dates replaces the best so far when its window count is strictly higher. */
  function ConsistencyStep(best: Option<Habit>, h: Habit, start: Day): Option<Habit> {
    if |h.completedDates| == 0 then best
    else if InWindowCount(h, start) > (if best.Some? then InWindowCount(best.value, start) else 0) then Some(h)
    else best
  }

  /** `habits.reduce(ConsistencyStep, null)`. */
  function MostConsistent(hs: seq<Habit>, start: Day): (best: Option<Habit>)
    ensures best.None? ==> forall k :: 0 <= k < |hs| ==> InWindowCount(hs[k], start) == 0
    ensures best.Some? ==> InWindowCount(best.value, start) > 0
    ensures best.Some? ==> forall k :: 0 <= k < |hs| ==> InWindowCount(hs[k], start) <= InWindowCount(best.value, start)
  {
    if hs == [] then None
    else
      var init := hs[..|hs| - 1];
      assert forall k :: 0 <= k < |init| ==> hs[k] == init[k];
      ConsistencyStep(MostConsistent(init, start), hs[|hs| - 1], start)
  }

  /**
   * The result is null exactly when no habit has a completion in the window;
   * otherwise it is the first habit whose window count is the maximum.
   */
  lemma MostConsistentIsFirstBest(hs: seq<Habit>, start: Day)
    ensures MostConsistent(hs, start).None? <==> forall k :: 0 <= k < |hs| ==> InWindowCount(hs[k], start) == 0
    ensures MostConsistent(hs, start).Some? ==>
      (exists i :: 0 <= i < |hs| && hs[i] == MostConsistent(hs, start).value
         && forall j :: 0 <= j < i ==> InWindowCount(hs[j], start) < InWindowCount(hs[i], start))
  {
    if forall k :: 0 <= k < |hs| ==> InWindowCount(hs[k], start) == 0 {
      AllZeroNoBest(hs, start);
    }
    if MostConsistent(hs, start).Some? {
      BestIsFirst(hs, start);
    }
  }

  /** With no completion in the window anywhere, the `reduce` never leaves null. */
  lemma {:induction false} AllZeroNoBest(hs: seq<Habit>, start: Day)
    requires forall k :: 0 <= k < |hs| ==> InWindowCount(hs[k], start) == 0
    ensures MostConsistent(hs, start).None?
  {
    if hs != [] {
      var init := hs[..|hs| - 1];
      forall k | 0 <= k < |init| ensures InWindowCount(init[k], start) == 0 {
        assert init[k] == hs[k];
      }
      AllZeroNoBest(init, start);
      assert InWindowCount(hs[|hs| - 1], start) == 0;
    }
  }

  lemma MostConsistentUnfold(hs: seq<Habit>, start: Day)
    requires hs != []
    ensures MostConsistent(hs, start) == ConsistencyStep(MostConsistent(hs[..|hs| - 1], start), hs[|hs| - 1], start)
  {
  }

  /** Every habit before position `i` has a strictly lower window count than the one at `i`. */
  predicate BeatsEarlier(hs: seq<Habit>, start: Day, i: int)
    requires 0 <= i < |hs|
  {
    forall j :: 0 <= j < i ==> InWindowCount(hs[j], start) < InWindowCount(hs[i], start)
  }

  /** The habit the `reduce` keeps beats every habit before it. */
  lemma {:induction false} BestIsFirst(hs: seq<Habit>, start: Day)
    requires MostConsistent(hs, start).Some?
    ensures exists i :: 0 <= i < |hs| && hs[i] == MostConsistent(hs, start).value && BeatsEarlier(hs, start, i)
  {
    var init, last := hs[..|hs| - 1], hs[|hs| - 1];
    var prev := MostConsistent(init, start);
    var prevCount := if prev.Some? then InWindowCount(prev.value, start) else 0;
    MostConsistentUnfold(hs, start);
    if |last.completedDates| != 0 && InWindowCount(last, start) > prevCount {
      LastBeatsEarlier(hs, init, start, prevCount);
    } else {
      assert MostConsistent(hs, start) == prev;
      BestIsFirst(init, start);
      var i :| 0 <= i < |init| && init[i] == prev.value && BeatsEarlier(init, start, i);
      PrefixBeatsEarlier(hs, start, i);
    }
  }

  /** A last habit counting above everything before it beats everything before it. */
  lemma LastBeatsEarlier(hs: seq<Habit>, init: seq<Habit>, start: Day, bound: int)
    requires hs != [] && init == hs[..|hs| - 1]
    requires forall k :: 0 <= k < |init| ==> InWindowCount(init[k], start) <= bound
    requires InWindowCount(hs[|hs| - 1], start) > bound
    ensures BeatsEarlier(hs, start, |hs| - 1)
  {
    forall j | 0 <= j < |hs| - 1 ensures InWindowCount(hs[j], start) < InWindowCount(hs[|hs| - 1], start) {
      assert hs[j] == init[j];
    }
  }

  /** Beating the earlier habits of the list without its last one is beating them in the whole list. */
  lemma PrefixBeatsEarlier(hs: seq<Habit>, start: Day, i: int)
    requires 0 <= i < |hs| - 1 && BeatsEarlier(hs[..|hs| - 1], start, i)
    ensures BeatsEarlier(hs, start, i)
  {
    var init := hs[..|hs| - 1];
    forall j | 0 <= j < i ensures InWindowCount(hs[j], start) < InWindowCount(hs[i], start) {
      assert hs[j] == init[j] && hs[i] == init[i];
    }
  }



  // ---------------------------------------------------------------------------
  // getInsightsData
  // ---------------------------------------------------------------------------

  datatype InsightsData = InsightsData(
    totalHabits: nat,
    activeHabits: nat,
    totalCompletions: nat,
    completionRate: nat,
    longestStreak: int,
    currentStreaks: nat,
    mostConsistentHabit: Option<Habit>
  )

  /** `Math.max(...habits.map(h => h.longestStreak), 0)`. */
  function LongestStreak(hs: seq<Habit>): (m: int)
    ensures m >= 0
    ensures forall k :: 0 <= k < |hs| ==> hs[k].longestStreak <= m
    ensures m == 0 || exists k :: 0 <= k < |hs| && hs[k].longestStreak == m
  {
    var streaks := LongestStreaks(hs);
    var m := MaxOr(streaks, 0);
    assert forall k :: 0 <= k < |hs| ==> streaks[k] in streaks;
    assert m == 0 || m in streaks;
    m
  }

  /**
   * The window is a whole number of days long, so its rounded-up length is the
   * range's day count, and every active habit could have been completed once
   * on each of those days; no active habit gives 0.
   */
  function CompletionRate(total: nat, active: nat, days: nat): (rate: nat)
    requires days > 0
    ensures active == 0 ==> rate == 0
    ensures active > 0 ==> rate == RoundedPercent(total, active * days)
    ensures total <= active * days ==> rate <= 100
  {
    var possible := active * days;
    if possible > 0 then
      RoundedPercentBounds(total, possible);
      RoundedPercent(total, possible)
    else 0
  }

  /** `getInsightsData`. */
  function InsightsFor(hs: seq<Habit>, now: Instant, range: TimeRange): (data: InsightsData)
    ensures data.totalHabits == |hs|
    ensures data.activeHabits == ActiveCount(hs) && data.activeHabits <= data.totalHabits
    ensures data.currentStreaks == CountWhere(hs, HasStreak()) && data.currentStreaks <= data.totalHabits
    ensures data.totalCompletions == WindowTotal(hs, WindowStart(now, range))
    ensures data.completionRate == CompletionRate(data.totalCompletions, data.activeHabits, RangeDays(range))
    ensures data.longestStreak == LongestStreak(hs)
    ensures data.mostConsistentHabit == MostConsistent(hs, WindowStart(now, range))
  {
    var start := WindowStart(now, range);
    var active := ActiveCount(hs);
    var total := WindowTotal(hs, start);
    InsightsData(|hs|, active, total, CompletionRate(total, active, RangeDays(range)), LongestStreak(hs),
      CountWhere(hs, HasStreak()), MostConsistent(hs, start))
  }

  // ---------------------------------------------------------------------------
  // getProgressData
  // ---------------------------------------------------------------------------

  datatype ProgressItem = ProgressItem(categoryLabel: string, value: nat, total: nat, color: string, icon: string)

  /** The categories in the order their rows appear. */
  const Categories: seq<Category> := [Morning, Afternoon, Evening, Anytime]

  /** `category.charAt(0).toUpperCase() + category.slice(1)`. */
  function CategoryLabel(c: Category): string {
    match c
    case Morning => "Morning"
    case Afternoon => "Afternoon"
    case Evening => "Evening"
    case Anytime => "Anytime"
  }

  function CategoryColor(c: Category): string {
    match c
    case Morning => Warning
    case Afternoon => Primary
    case Evening => Success
    case Anytime => TextSecondary
  }

  function CategoryIcon(c: Category): string {
    match c
    case Morning => "sunny"
    case Afternoon => "partly-sunny"
    case Evening => "moon"
    case Anytime => "time"
  }

  function InCategory(c: Category): Habit -> bool {
    (h: Habit) => h.category == c
  }

  function InCategoryWithStreak(c: Category): Habit -> bool {
    (h: Habit) => h.category == c && h.streak > 0
  }

  /** One category's row: how many of its habits have a running streak, out of how many it has. */
  function CategoryItem(hs: seq<Habit>, c: Category): (item: ProgressItem)
    ensures item.categoryLabel == CategoryLabel(c)
    ensures item.total == CountWhere(hs, InCategory(c))
    ensures item.value == CountWhere(hs, InCategoryWithStreak(c))
    ensures item.value <= item.total
  {
    CountMonotone(hs, InCategoryWithStreak(c), InCategory(c));
    ProgressItem(CategoryLabel(c), CountWhere(hs, InCategoryWithStreak(c)), CountWhere(hs, InCategory(c)),
      CategoryColor(c), CategoryIcon(c))
  }

  function HasHabits(): ProgressItem -> bool {
    (item: ProgressItem) => item.total > 0
  }

  function AllCategoryItems(hs: seq<Habit>): (items: seq<ProgressItem>)
    ensures |items| == |Categories|
    ensures forall i :: 0 <= i < |Categories| ==> items[i] == CategoryItem(hs, Categories[i])
  {
    seq(|Categories|, i requires 0 <= i < |Categories| => CategoryItem(hs, Categories[i]))
  }

  /** `getProgressData`: the category rows in their fixed order, leaving out the empty categories. */
  function ProgressData(hs: seq<Habit>): (r: seq<ProgressItem>)
    ensures IsSubsequence(r, AllCategoryItems(hs))
    ensures forall k :: 0 <= k < |r| ==> 0 < r[k].total && r[k].value <= r[k].total
  {
    FilterIsSubsequence(AllCategoryItems(hs), HasHabits());
    Filter(AllCategoryItems(hs), HasHabits())
  }

  /** A category has a row exactly when it has a habit. */
  lemma ProgressDataListsNonEmpty(hs: seq<Habit>, c: Category)
    ensures CategoryItem(hs, c) in ProgressData(hs) <==> CountWhere(hs, InCategory(c)) > 0
  {
    var all := AllCategoryItems(hs);
    var i := match c case Morning => 0 case Afternoon => 1 case Evening => 2 case Anytime => 3;
    assert all[i] == CategoryItem(hs, c);
  }

  // ---------------------------------------------------------------------------
  // getAchievements
  // ---------------------------------------------------------------------------

  datatype Achievement = Achievement(
    id: string,
    title: string,
    description: string,
    icon: string,
    color: string,
    unlocked: bool,
    progress: Option<int>,
    target: Option<int>
  )

  function Min(a: int, b: int): int {
    if a <= b then a else b
  }

  /** An achievement with a target: progress is the metric capped at the target, reached or not. */
  function ThresholdAchievement(id: string, title: string, description: string, icon: string, color: string,
                                metric: int, target: nat): (a: Achievement)
    ensures a.id == id && a.target == Some(target)
    ensures a.unlocked <==> metric >= target
    ensures a.progress.Some? && a.progress.value <= target
    ensures a.unlocked <==> a.progress.value == target
    ensures metric < target ==> a.progress.value == metric
  {
    Achievement(id, title, description, icon, color, metric >= target, Some(Min(metric, target)), Some(target))
  }

  /** `getAchievements`: completions counted over all time, the streak as the best longest streak. */
  function Achievements(hs: seq<Habit>): (r: seq<Achievement>)
    ensures |r| == 4
    ensures r[0].id == "first_habit" && (r[0].unlocked <==> |hs| > 0) && r[0].progress.None?
    ensures r[1].id == "week_streak" && (r[1].unlocked <==> MaxOr(LongestStreaks(hs), 0) >= 7)
    ensures r[2].id == "completionist" && (r[2].unlocked <==> AllTimeTotal(hs) >= 100)
    ensures r[3].id == "month_streak" && (r[3].unlocked <==> MaxOr(LongestStreaks(hs), 0) >= 30)
    ensures forall k :: 1 <= k < 4 ==> r[k].progress.Some? && r[k].target.Some? && r[k].progress.value <= r[k].target.value
  {
    var total := AllTimeTotal(hs);
    var maxStreak := MaxOr(LongestStreaks(hs), 0);
    [
      Achievement("first_habit", "First Steps", "Create your first habit", "add-circle", Primary, |hs| > 0, None, None),
      ThresholdAchievement("week_streak", "Week Warrior", "Maintain a 7-day streak", "flame", Warning, maxStreak, 7),
      ThresholdAchievement("completionist", "Completionist", "Complete 100 habits", "trophy", Success, total, 100),
      ThresholdAchievement("month_streak", "Monthly Master", "Maintain a 30-day streak", "star", Primary, maxStreak, 30)
    ]
  }

  /** The month-long streak achievement implies the week-long one. */
  lemma MonthStreakImpliesWeekStreak(hs: seq<Habit>)
    ensures Achievements(hs)[3].unlocked ==> Achievements(hs)[1].unlocked
  {
  }
}
