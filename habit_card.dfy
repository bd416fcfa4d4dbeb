/**
 * The habit card: whether today is completed, the next reminder still to
 * come today, and the progress towards a count or duration goal.
 */
module HabitCard {
  import opened Optional
  import opened Dates
  import opened Collections
  import opened HabitTypes

  /** `todayCompletion?.completed || false`. */
  function IsCompletedToday(h: Habit, today: Day): (done: bool)
    ensures done <==> today in h.completionData && h.completionData[today].completed
    ensures today !in h.completionData ==> !done
  {
    CompletedOn(h.completionData, today)
  }

  /** What `getNextReminderTime` returns: `null`, `undefined`, or a time. */
  datatype NextReminder = NoReminders | NoneLater | At(time: Minutes)

  /** `r.enabled && r.time > currentTime`, on `HH:MM` strings that compare as minutes do. */
  function EnabledAfter(current: Minutes): Reminder -> bool {
    (r: Reminder) => r.enabled && r.time > current
  }

  /** `(a, b) => a.time.localeCompare(b.time)` as an ascending key. */
  function ByTime(): Reminder -> int {
    (r: Reminder) => r.time as int
  }

  /** `getNextReminderTime`: the earliest enabled reminder after the current minute. */
  function NextReminderTime(reminders: seq<Reminder>, current: Minutes): (next: NextReminder)
    ensures next == NoReminders <==> reminders == []
    ensures next == NoneLater <==> reminders != [] && forall k :: 0 <= k < |reminders| ==> !EnabledAfter(current)(reminders[k])
    ensures next.At? ==> exists k :: 0 <= k < |reminders| && reminders[k].enabled && reminders[k].time == next.time
    ensures next.At? ==> next.time > current
    ensures next.At? ==> forall k :: 0 <= k < |reminders| && EnabledAfter(current)(reminders[k]) ==> next.time <= reminders[k].time
  {
    if reminders == [] then NoReminders
    else
      var due := Filter(reminders, EnabledAfter(current));
      if due == [] then
        FilterNoneMeansNone(reminders, EnabledAfter(current));
        NoneLater
      else
        SortByFirstIsLeast(due, ByTime());
        var first := SortBy(due, ByTime())[0];
        assert first in reminders && EnabledAfter(current)(first);
        forall k | 0 <= k < |reminders| && EnabledAfter(current)(reminders[k]) ensures first.time <= reminders[k].time {
          var j :| 0 <= j < |due| && due[j] == reminders[k];
        }
        At(first.time)
  }

  /** Nothing passes a filter whose result is empty. */
  lemma FilterNoneMeansNone<T>(xs: seq<T>, p: T -> bool)
    requires Filter(xs, p) == []
    ensures forall k :: 0 <= k < |xs| ==> !p(xs[k])
  {
  }

  /** A percentage kept as the exact fraction `num / den`. */
  datatype Share = Share(num: int, den: nat)

  /** `{ current, target, percentage, unit }`. */
  datatype GoalProgress = GoalProgress(current: int, target: int, percentage: Share, unit: string)

  /** `Math.min((current / target) * 100, 100)` for `target > 0`. */
  function CappedPercentage(current: int, target: int): (p: Share)
    requires target > 0
    ensures p.den > 0 && p.num <= 100 * p.den
    ensures current >= target ==> p == Share(100, 1)
    ensures current < target ==> p == Share(100 * current, target)
  {
    if 100 * current >= 100 * target then Share(100, 1) else Share(100 * current, target)
  }

  /**
   * `getGoalProgress`: none for a check goal; otherwise today's value against
   * the target, with a missing or zero target giving 0 and the share capped at 100.
   */
  function GoalProgressFor(h: Habit, today: Day): (g: Option<GoalProgress>)
    ensures g.None? <==> h.goalType == Check
    ensures g.Some? ==> g.value.target == OrNumber(h.targetValue, 0)
    ensures g.Some? ==> g.value.current == (if today in h.completionData then OrNumber(h.completionData[today].value, 0) else 0)
    ensures g.Some? && g.value.target <= 0 ==> g.value.percentage == Share(0, 1)
    ensures g.Some? && g.value.target > 0 ==> g.value.percentage == CappedPercentage(g.value.current, g.value.target)
    ensures g.Some? ==> g.value.percentage.den > 0 && g.value.percentage.num <= 100 * g.value.percentage.den
    ensures g.Some? ==> g.value.unit == UnitLabel(h)
  {
    if h.goalType == Check then None
    else
      var target := OrNumber(h.targetValue, 0);
      var current := if today in h.completionData then OrNumber(h.completionData[today].value, 0) else 0;
      var percentage := if target > 0 then CappedPercentage(current, target) else Share(0, 1);
      Some(GoalProgress(current, target, percentage, UnitLabel(h)))
  }

  /** Reaching the target fills the bar, and a non-negative value never gives a negative share. */
  lemma GoalProgressBounds(h: Habit, today: Day)
    requires GoalProgressFor(h, today).Some?
    ensures var g := GoalProgressFor(h, today).value;
      g.current >= g.target > 0 ==> g.percentage == Share(100, 1)
    ensures var g := GoalProgressFor(h, today).value;
      g.current >= 0 ==> g.percentage.num >= 0
  {
  }
}
