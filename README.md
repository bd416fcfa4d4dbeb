# Habit tracker core, modelled in Dafny

This project models the core of a React Native habit tracker. It covers:

- the habit repository, which adds, updates, deletes and toggles habits and recomputes streaks;
- the screens that read the repository: today, calendar, add/edit and insights, together with the insight cards (trends, weekly completion, heat map, streak chart);
- the older self-contained tracker screen, whose habits keep a sorted list of dates;
- the two timer screens: setting up a countdown, and running it.

Modelling choices:

- Dates are whole day numbers (`Dates.Day`, where 0 is 1970-01-01). Weekdays follow `getDay()`.
- Instants are milliseconds since the epoch.
- `Dates` proves that the `full-date` strings (`YYYY-MM-DD`) of valid civil dates order lexicographically exactly as their day numbers do. The same holds for the `HH:MM` strings of reminders against minute counts. The model therefore compares numbers wherever the source compares or sorts these strings.
- Percentages come from `Math.round(100 * a / b)`. For non-negative operands this is the exact rational rounding `(200a + b) / 2b`, and the model uses that.
- Code that changes state step by step becomes a class with `modifies` clauses:
  - the repository is `HabitContext.HabitProvider`;
  - the screens are `TodayScreen.Today`, `HabitForm.HabitFormScreen`, `LegacyTracker.Tracker`, `ActTimerScreen.ActTimer` and `RunningTimerScreen.RunningTimer`.
- Loops become methods with invariants:
  - the streak walks (`CalculateStreak`, `StreakFromToday`);
  - the calendar's marking loops;
  - the seven-day, twelve-week and chart loops.
  Each method is proved equal to a specification function, and the properties are proved about those functions.
- The countdown's interval is a flag, `ticking`, that says whether the once-a-second callback is installed.

`app/modules/runningTimer.tsx:35-40` repeats `formatTime` from `app/actTimer.tsx:27-32`. `TimerFormat` models both copies.

## Model

| member | source | states |
|---|---|---|
| HabitContext.HabitProvider.constructor | context/HabitContext.tsx:29-38 | Starts with no habits and the default settings: dark theme, notifications and haptics on, weeks starting on Monday. |
| HabitContext.HabitProvider.LoadData | context/HabitContext.tsx:44-56 | A stored habit list replaces the list. Stored settings are spread over the defaults. Anything missing leaves that part of the state as it was. |
| HabitContext.HabitProvider.AddHabit | context/HabitContext.tsx:67-80 | Appends exactly one habit, built from the draft with the given id and time, and leaves the settings alone. |
| HabitContext.NewHabitIsFresh | context/HabitContext.tsx:67-76 | A new habit has the id, time and draft fields it was given, no completions, zero streaks, and derived fields that agree with its (empty) records. |
| HabitContext.HabitProvider.UpdateHabit | context/HabitContext.tsx:82-87 | The list becomes the list with the patch spread over every habit with that id. |
| HabitContext.PatchLaws | context/HabitContext.tsx:82-85 | The empty patch changes nothing. Applying a patch twice is the same as once. Two patches in a row equal their spread composition. A patch without `id` keeps the id. |
| HabitContext.MapMatching | context/HabitContext.tsx:83-85 | The result keeps the list's length and order; it changes exactly the entries with the id. |
| HabitContext.MapMatchingUnknownId | context/HabitContext.tsx:83-85 | An id no habit has leaves the list unchanged. |
| HabitContext.HabitProvider.DeleteHabit | context/HabitContext.tsx:89-92 | The list becomes the list without the habits with that id. |
| HabitContext.DeleteRemovesExactly | context/HabitContext.tsx:89-92 | No remaining habit has the id. Every other habit stays, in its order. An unknown id changes nothing. |
| HabitContext.CalculateStreak | context/HabitContext.tsx:94-112 | The backward walk returns the run of completed days ending today: every day of the run is completed and the day before it is not. |
| Streaks.RunLength | context/HabitContext.tsx:94-112 | The run length is a streak ending at today, and is 0 exactly when today is not done. |
| Streaks.RunLengthUnique | context/HabitContext.tsx:99-109 | Only one length satisfies the run condition, so the walk's result is determined. |
| Streaks.RunLengthStep | context/HabitContext.tsx:103-105 | A done day extends by one the run that ends on the day before. |
| HabitContext.CompletedKeys | context/HabitContext.tsx:131-133 | The completed days are exactly the dates whose record says completed. |
| HabitContext.ToggledDataTwice | context/HabitContext.tsx:119-129 | Two toggles of the same date give back the same set of completed days. |
| HabitContext.HabitProvider.ToggleHabitCompletion | context/HabitContext.tsx:114-150 | Toggles the date (today when none is given) on every habit with that id, and leaves the settings alone. |
| HabitContext.ToggleFlips | context/HabitContext.tsx:119-129 | The target's `completed` flag flips and its record gets the new value and time. No other date and no other field changes. |
| HabitContext.ToggleRederives | context/HabitContext.tsx:131-144 | After a toggle: `completedDates` is exactly the completed days, strictly ascending; `streak` is the run ending today; `longestStreak` is the running maximum and never decreases. |
| Streaks.SortedDays | context/HabitContext.tsx:131-133 | The ascending list of a set of days: strictly increasing, the same members, one entry per day. |
| Streaks.SortedDaysUnique | context/HabitContext.tsx:131-133 | Any strictly increasing list with exactly those days is that list. |
| Streaks.RunLengthAgreesBelow | context/HabitContext.tsx:99-109 | The walk looks only at today and earlier: two sets that agree there give the same run. |
| Streaks.RunLengthAwayFromRun | context/HabitContext.tsx:99-109 | Changing one day after today, or before the gap that ends the run, keeps the run. |
| HabitContext.ToggleTwice | context/HabitContext.tsx:114-150 | Toggling the same date twice restores every flag, `completedDates` and the streak. |
| HabitContext.ToggleTodayStreak | context/HabitContext.tsx:114-135 | Toggling today sets the streak to 0 if today was done, and to one more than yesterday's run if not. |
| HabitContext.ToggleAwayKeepsStreak | context/HabitContext.tsx:114-135 | Toggling a date after today, or before the gap that ends the current run, keeps the streak. |
| HabitContext.ToggleOne | context/HabitContext.tsx:118-145 | The callback's result for the matching habit is the toggled habit. The record is flipped and the completed dates are re-derived in order. The streak from the backward walk equals the streak function, and the longest streak is the larger of the old value and the new streak. |
| HabitContext.ToggledHabitsKeepIds | context/HabitContext.tsx:117-147 | A toggle on the list keeps its length, order and ids. It changes only the matching habits, and leaves each of them consistent. |
| HabitContext.HabitProvider.UpdateSettings | context/HabitContext.tsx:152-160 | The settings become the patch spread over the old settings. The habits do not change. |
| HabitContext.MergeSettingsLaws | context/HabitContext.tsx:152-153 | For each of theme, notifications, haptic feedback and week start, a field given in the patch is taken and one left out is kept. Merging the same patch twice equals merging it once, and an empty patch changes nothing. |
| HabitContext.HabitsForDateSelects | context/HabitContext.tsx:162-173 | The habits for a date are, in their order, exactly the scheduled ones: daily and unrecognised frequencies always, weekly and custom when the weekday is listed. With only daily habits, that is all of them. |
| HabitContext.HabitsForDate | context/HabitContext.tsx:162-173 | The result is no longer than the list. Each habit in it is scheduled that day and comes from the list, and every scheduled habit of the list is in it. |
| HabitContext.ScheduledOn | context/HabitContext.tsx:164-171 | Daily and unrecognised frequencies are always scheduled. In any zone at or east of UTC, less than a day ahead, it agrees with the filter as written. |
| HabitContext.ScheduledOnItsWeekdays | context/HabitContext.tsx:166-169 | A weekly or custom habit is among the habits for a date exactly when it names that date's weekday. |
| HabitContext.LocalWeekdayOfDate | context/HabitContext.tsx:167 | `new Date(date).getDay()` as written: east of UTC (within a day) it is the date's weekday, and west of UTC it is the previous day's weekday. |
| HabitContext.WestOfUtcMissesWeekday | context/HabitContext.tsx:166-169 | West of UTC, a weekly habit that names only a date's weekday is scheduled on that date by the intended filter but dropped by the filter as written. |
| HabitContext.TodaysProgress | context/HabitContext.tsx:175-187 | `total` counts today's scheduled habits and `completed` counts those of them completed today, so `completed` is at most `total`. With something scheduled, the percentage is `Math.round(100 · completed / total)`, stated as the half-up rounding bounds. It is at most 100, and 0 when nothing is scheduled. |
| HabitContext.ProgressExtremes | context/HabitContext.tsx:175-187 | All of today's habits done gives 100 percent; none done gives 0. |
| HabitContext.ProgressMonotone | context/HabitContext.tsx:185 | More habits done never lowers the percentage. |
| HabitContext.FindHabit | screens/habit/AddEditHabitScreen.tsx:44 | `find` returns the first habit with the id, or nothing exactly when no habit has it. |
| Rounding.RoundedPercentBounds | context/HabitContext.tsx:185 | The rounded percentage of a part of a whole is at most 100. It is 100 for the whole and 0 for nothing. |
| Rounding.RoundedPercentMonotone | context/HabitContext.tsx:185 | The rounded percentage grows with the part. |
| HabitTypes.UtcDayBack | screens/insights/InsightsScreen.tsx:37-46 | Going back a whole number of days in milliseconds moves the UTC date back by that many days. |
| HabitTypes.PaletteColor | app/modules/HabbitTracker.tsx:27-30 | `HABIT_COLORS[i % 10]` is always one of the ten palette colours. |
| HabitTypes.PaletteColorPeriodic | app/modules/HabbitTracker.tsx:58 | The palette repeats every ten indices. |
| Dates.Weekday | context/HabitContext.tsx:167 | `getDay()` numbers lie from 0 to 6. |
| Dates.FullDateOrderIsDayOrder | screens/insights/InsightsScreen.tsx:53 | `YYYY-MM-DD` strings of valid dates order, and are equal, exactly as their day numbers are. |
| Dates.ClockStringOrder | src/components/habit/HabitCard.tsx:31-35 | Zero-padded `HH:MM` strings order, and are equal, exactly as their minute counts are. |
| TodayScreen.FilteredHabits | screens/TodayScreen.tsx:142-155 | The filtered list is a subsequence of today's habits, and every habit in it passes the chosen filter. |
| TodayScreen.AllKeepsToday | screens/TodayScreen.tsx:152-153 | The `all` filter shows exactly today's habits. |
| TodayScreen.CompletedAndMissedSplitToday | screens/TodayScreen.tsx:143-149 | Between them, `completed` and `missed` hold every one of today's habits exactly once. |
| TodayScreen.RemindersKeepsReminded | screens/TodayScreen.tsx:150-151 | `reminders` holds exactly those of today's habits that have a reminder. |
| TodayScreen.Today.constructor | screens/TodayScreen.tsx:42-49 | The screen starts with the dialog closed and no habit in it. |
| TodayScreen.Today.HandleHabitPress | screens/TodayScreen.tsx:157-163 | A check goal toggles today's completion in the repository. Any other goal leaves the habits alone and opens the dialog. |
| TodayScreen.GoalInputDialog | screens/TodayScreen.tsx:166-179 | The dialog is visible for that habit under its name, asks for a count or a duration, and is prefilled with today's value or empty. |
| TodayScreen.SubmittedValueReadsNumber | screens/TodayScreen.tsx:184 | A typed number, after any leading blanks, is the value submitted. |
| Text.ParseIntNegative | screens/TodayScreen.tsx:184-185 | `parseInt` reads a leading minus sign, so a negative entry submits nothing. |
| TodayScreen.Today.HandleInputSubmit | screens/TodayScreen.tsx:182-190 | A positive value toggles today's record of the dialog's habit with that value; anything else leaves the habits alone. The dialog always closes and forgets the habit. |
| TodayScreen.Today.HandleInputCancel | screens/TodayScreen.tsx:193-195 | The dialog closes and forgets the habit. |
| HabitForm.HabitFormScreen.constructor | screens/habit/AddEditHabitScreen.tsx:46-59 | The blank form: a check goal with target 1, daily, every weekday, anytime, active. |
| HabitForm.EditForm | screens/habit/AddEditHabitScreen.tsx:61-78 | Editing loads the habit's fields. A missing or zero target becomes 1, missing weekdays become every weekday, and a missing unit or note becomes empty. |
| HabitForm.HabitFormScreen.LoadExisting | screens/habit/AddEditHabitScreen.tsx:42-44 | The form is loaded only when an id was passed and a habit has it; otherwise the form is untouched. |
| HabitForm.HandleSave | screens/habit/AddEditHabitScreen.tsx:80-106 | A blank name is refused first. Then a non-check goal with a target of 0 or less is refused. Otherwise an id means an update with the trimmed data, and no id means an add. The outcome is in each case exactly as stated, in both directions. |
| HabitForm.SavedUnit | screens/habit/AddEditHabitScreen.tsx:94-96 | The saved unit: `minutes` for a duration, the typed unit or `reps` for a count, none for a check. |
| HabitForm.SavedNameIsTrimmed | screens/habit/AddEditHabitScreen.tsx:81-93 | An added habit's name is the trimmed input, never empty, and never starts with a blank. A check goal with a name is never refused. |
| HabitForm.UpdateKeepsHistory | screens/habit/AddEditHabitScreen.tsx:91-100 | An update renames the habit to the trimmed input and keeps its id, creation time, streaks and completion history. |
| HabitForm.HabitFormScreen.SelectGoalType | screens/habit/AddEditHabitScreen.tsx:165-169 | Choosing a goal type sets the target to 0 for a check and to 1 otherwise. |
| HabitForm.FreshGoalTypeIsValid | screens/habit/AddEditHabitScreen.tsx:165-169 | Right after choosing a goal type, a named form passes the target check. |
| HabitForm.TargetFromTextReadsNumber | screens/habit/AddEditHabitScreen.tsx:186-189 | Typing a number's digits stores that number; an empty field stores 0. |
| HabitForm.HabitFormScreen.EnterTargetValue | screens/habit/AddEditHabitScreen.tsx:186-189 | Typing sets the target to the number `parseInt` reads from the text, or 0 when it reads none; nothing else changes. |
| Text.Trim | screens/habit/AddEditHabitScreen.tsx:81 | The trimmed string is empty exactly when the input is all blanks. Otherwise it starts and ends with a non-blank. |
| Text.TrimIdempotent | screens/habit/AddEditHabitScreen.tsx:93 | Trimming twice is the same as trimming once. |
| Text.DecimalStringRoundTrip | screens/TodayScreen.tsx:177 | Reading back `n.toString()` gives `n`. |
| Text.ParseIntDecimal | screens/TodayScreen.tsx:184 | `parseInt` of blanks followed by a decimal rendering gives the number. |
| CalendarScreen.MarkedDates | screens/calender/CalendarScreen.tsx:24-58 | With a habit chosen, exactly its dates are selected in its colour. If the chosen id is unknown, only the selected date is marked. With no habit chosen, every listed date gets its dots. In every case the selected date is highlighted in the primary colour and keeps its dots. |
| CalendarMarks.AddDots | screens/calender/CalendarScreen.tsx:38-47 | The nested loops mark exactly the dates some habit lists. Each marked date carries that date's dots, in habit order. |
| CalendarMarks.DotsIffListed | screens/calender/CalendarScreen.tsx:38-47 | A date has dots exactly when some habit lists it. |
| CalendarMarks.DotCountIsHabitCount | screens/calender/CalendarScreen.tsx:38-47 | When no habit lists a date twice, a date's dots number the habits that list it. |
| CalendarMarks.PushDots | screens/calender/CalendarScreen.tsx:39-46 | One pass of the outer loop adds that habit's dots and keeps the marks equal to the dots of the habits seen so far. |
| CalendarMarks.HabitMarks | screens/calender/CalendarScreen.tsx:27-36 | The chosen habit's dates, and only those, become selected entries in its colour. |
| CalendarMarks.WithSelected | screens/calender/CalendarScreen.tsx:50-55 | The selected date is added, highlighted in the given colour, and keeps its dots. Every other entry is untouched. |
| CalendarScreen.UnfilteredDotCount | screens/calender/CalendarScreen.tsx:38-47 | With duplicate-free date lists, the dots at a date number the habits completed on it, and there are dots exactly when some habit lists the date. |
| CalendarScreen.DayEntryFor | screens/calender/CalendarScreen.tsx:107-125 | A day entry is completed exactly when its record says so. It shows a value exactly when the record has a non-zero value, with the unit label. |
| CalendarScreen.DayDetails | screens/calender/CalendarScreen.tsx:107-125 | The day list has one entry per habit scheduled on the date, in order. |
| HabitTypes.UnitLabel | screens/calender/CalendarScreen.tsx:124 | The unit shown is `targetUnit` when it is non-empty, else `min` for durations and `reps` otherwise. |
| HabitCard.IsCompletedToday | src/components/habit/HabitCard.tsx:24-26 | The card is completed exactly when today's record exists and says completed. |
| HabitCard.NextReminderTime | src/components/habit/HabitCard.tsx:28-38 | No reminders gives `null`. When no reminder is both enabled and later, the result is `undefined`. Otherwise it is the earliest enabled reminder time after now. |
| HabitCard.GoalProgressFor | src/components/habit/HabitCard.tsx:52-64 | A check goal has no progress. Otherwise the target is `targetValue` and the current value is today's `value`, each 0 when missing. The share is 0 without a positive target, and value over target capped at 100 percent with one. The unit label is as on the calendar. |
| HabitCard.CappedPercentage | src/components/habit/HabitCard.tsx:56-61 | The percentage is never above 100. It is exactly 100 once the target is reached, and value over target below that. |
| HabitCard.GoalProgressBounds | src/components/habit/HabitCard.tsx:52-64 | Reaching the target fills the bar. A non-negative value never gives a negative share. |
| HabitTrends.WindowDays | src/components/insights/HabitTrendsCard.tsx:16-23 | Week, month, 3 months and year give 7, 30, 90 and 365 days. Any other range keeps the default of 30. |
| HabitTrends.WithinDaysByDay | src/components/insights/HabitTrendsCard.tsx:27-29 | A date is within `n` days when fewer than `n` days separate it from today's UTC date, or exactly `n` at UTC midnight. |
| HabitTrends.HalvesPartition | src/components/insights/HabitTrendsCard.tsx:35-46 | The nearer half and the farther half split the window's completions between them. |
| HabitTrends.TrendFor | src/components/insights/HabitTrendsCard.tsx:25-58 | The recent count is the window's completions, and the rate is its rounded percentage of the window (at most 100 when it fits). The trend value is the nearer half minus the farther half. The trend is up, down or stable exactly as that value is positive, negative or zero. |
| HabitTrends.HabitTrendRows | src/components/insights/HabitTrendsCard.tsx:25-59 | One row per habit, a permutation of the per-habit rows, ordered by falling rate. |
| Collections.SortBy | src/components/insights/HabitTrendsCard.tsx:59 | The sort returns a permutation of its input, ordered by the key. |
| Collections.SortByFirstIsLeast | src/components/insights/HabitTrendsCard.tsx:59 | The first element of the sorted list is from the input and has the least key. |
| HabitTrends.HabitTrendRowsCover | src/components/insights/HabitTrendsCard.tsx:25-59 | Every habit's row is present and every row belongs to a habit. |
| HabitTrends.AverageRate | src/components/insights/HabitTrendsCard.tsx:112 | The average rate is the sum of the rows' rounded rates divided by the number of rows, rounded half up. It is never above the best rate, and is at most 100 when every rate is. |
| Rounding.RoundedMean | src/components/insights/WeeklyCompletionCard.tsx:45-47 | The result is the sum divided by the count, rounded half up: `2·n·m <= 2·sum + n < 2·n·(m + 1)`. For non-negative numbers it never exceeds their maximum. |
| HabitTrends.PerformanceLevel | src/components/insights/HabitTrendsCard.tsx:64-70 | Excellent from 90, Great from 75, Good from 50, Fair from 25, Needs Work below, each band in both directions. |
| HabitTrends.PerformanceLevelMonotone | src/components/insights/HabitTrendsCard.tsx:64-70 | A higher rate never gets a lower band. |
| Rounding.Tier | src/components/insights/WeeklyCompletionCard.tsx:49-55 | The band index is 0 from 90, 1 from 75, 2 from 50, 3 from 25 and 4 below, each in both directions. |
| Rounding.RoundRatio | context/HabitContext.tsx:185 | `Math.round(num / den)` is the integer whose distance from the exact ratio is at most one half, halves rounding up. |
| Rounding.TierMonotone | src/components/insights/WeeklyCompletionCard.tsx:49-55 | The 90/75/50/25 band index never rises as the value grows. |
| HabitTrends.TrendIcon | src/components/insights/HabitTrendsCard.tsx:72-78 | The icon is `trending-up` exactly for an upward trend, `trending-down` exactly for a downward one, and `remove` exactly for a stable one. |
| HabitTrends.TrendColor | src/components/insights/HabitTrendsCard.tsx:80-86 | Up is drawn in the success colour, down in the danger colour and stable in the secondary text colour, each exactly. |
| ScreenHabitTrends.RateRowFor | screens/insights/HabitTrendsCard.tsx:24-37 | The recent count is the window's completions, and the rate is their rounded percentage of the window. |
| ScreenHabitTrends.RateRows | screens/insights/HabitTrendsCard.tsx:15-38 | One row per habit, a permutation of the per-habit rows, ordered by falling rate. |
| ScreenHabitTrends.RateRowsCover | screens/insights/HabitTrendsCard.tsx:24-38 | Every habit's row is present and every row belongs to a habit. |
| ScreenHabitTrends.AgreesWithTrendCard | screens/insights/HabitTrendsCard.tsx:24-36 | This card and the component card give a habit the same count and the same rate. |
| Insights.RangeDays | screens/insights/InsightsScreen.tsx:34-48 | A week covers 7 days, a month 30, three months 90 and a year 365, each value for exactly that range. Every range is positive, so the rate never divides by zero. |
| Insights.InWindowCount | screens/insights/InsightsScreen.tsx:52-54 | A habit's window count never exceeds its completed dates. |
| Insights.WindowStartIsDaysBack | screens/insights/InsightsScreen.tsx:34-48 | The window starts the range's number of days before today's UTC date. |
| Insights.WindowTotalAtMostAllTime | screens/insights/InsightsScreen.tsx:52-54 | The window never counts more completions than all time. |
| Insights.WindowTotalMonotone | screens/insights/InsightsScreen.tsx:52-54 | A window that starts earlier counts at least as many completions. |
| Insights.LongestStreak | screens/insights/InsightsScreen.tsx:56 | `Math.max(...streaks, 0)` is non-negative, at least every habit's longest streak, and is one of them unless it is 0. |
| Insights.CompletionRate | screens/insights/InsightsScreen.tsx:59-61 | No active habits gives 0. Otherwise the rate is the rounded percentage of the possible completions, and at most 100 when the count fits. |
| Insights.MostConsistent | screens/insights/InsightsScreen.tsx:63-69 | There is no best habit only when no habit has completions in the window. Otherwise the best habit has some, and no habit has more. |
| Insights.MostConsistentIsFirstBest | screens/insights/InsightsScreen.tsx:63-69 | The result is none exactly when every window count is 0. Otherwise it is the first habit with the highest count. |
| Insights.InsightsFor | screens/insights/InsightsScreen.tsx:30-80 | Each summary figure has the meaning stated here: total and active counts, running streaks, window completions, rate, longest streak and most consistent habit. |
| Insights.CategoryItem | screens/insights/InsightsScreen.tsx:84-98 | A category's row counts its habits and, of those, the ones with a running streak, under the capitalised name. |
| Insights.ProgressData | screens/insights/InsightsScreen.tsx:82-100 | The rows are the category rows in their fixed order, without the empty ones. Each row has a positive total and at most that many with a streak. |
| Insights.ProgressDataListsNonEmpty | screens/insights/InsightsScreen.tsx:99 | A category has a row exactly when it has a habit. |
| Insights.ThresholdAchievement | screens/insights/InsightsScreen.tsx:115-144 | An achievement is unlocked exactly when the metric reaches the target. Progress is the metric capped at the target, and equals the target exactly when unlocked. |
| Insights.Achievements | screens/insights/InsightsScreen.tsx:102-146 | The four achievements unlock exactly at: one habit, a 7-day longest streak, 100 completions over all time, a 30-day longest streak. |
| Insights.MonthStreakImpliesWeekStreak | screens/insights/InsightsScreen.tsx:116-144 | Unlocking the month streak implies the week streak. |
| DailyCounts.CompletionsOn | src/components/insights/WeeklyCompletionCard.tsx:24-26 | A day's completions never exceed the number of habits. |
| DailyCounts.ActiveCount | src/components/insights/WeeklyCompletionCard.tsx:28 | The active count never exceeds the number of habits. |
| DailyCounts.CompletionsWithinActive | src/components/insights/WeeklyCompletionCard.tsx:24-28 | With every habit active, a day's completions never exceed the active count. |
| WeeklyCompletion.WeeklyData | src/components/insights/WeeklyCompletionCard.tsx:14-42 | The loop produces seven bars, the k-th for six days before today plus k. |
| WeeklyCompletion.DayBarFor | src/components/insights/WeeklyCompletionCard.tsx:20-38 | A bar has: its weekday label; the completions over all habits; the active count; the rounded percentage, or 0 without active habits; `isToday` exactly for today. |
| WeeklyCompletion.WeekShape | src/components/insights/WeeklyCompletionCard.tsx:19-39 | The bars are consecutive days and only the last is today. |
| WeeklyCompletion.AverageCompletion | src/components/insights/WeeklyCompletionCard.tsx:45-47 | The weekly average is the sum of the seven rounded day percentages divided by 7, rounded half up. It never exceeds the best day. |
| WeeklyCompletion.AverageAtMostHundred | src/components/insights/WeeklyCompletionCard.tsx:24-47 | With every habit active, no bar and no average exceeds 100. |
| WeeklyCompletion.BarColor | src/components/insights/WeeklyCompletionCard.tsx:49-55 | The colour of each band from 90, 75, 50 and 25, each in both directions. |
| CompletionHeatMap.HeatmapData | src/components/insights/CompletionHeatMap.tsx:14-44 | Twelve rows of seven cells. The cell at row r and column c is the day `week * 7 + (6 - day)` days before today, with `week = 11 - r`. |
| CompletionHeatMap.CellFor | src/components/insights/CompletionHeatMap.tsx:22-38 | A cell has its date, its weekday, its completions over all habits, and their share of the active habits. |
| CompletionHeatMap.IntensityOf | src/components/insights/CompletionHeatMap.tsx:30-31 | The intensity is 0 exactly when nothing was completed or no habit is active. Otherwise it is completions over active habits. |
| CompletionHeatMap.GridIsChronological | src/components/insights/CompletionHeatMap.tsx:19-23 | Reading the grid row by row goes forward one day per cell, ending today. |
| CompletionHeatMap.OffsetsCoverOnce | src/components/insights/CompletionHeatMap.tsx:19-23 | Each of the last 84 days is exactly one cell. |
| CompletionHeatMap.IntensityColor | src/components/insights/CompletionHeatMap.tsx:46-52 | Border colour for 0. Then primary at 40, 60 and 80 up to a quarter, a half and three quarters. Full primary above that. Each band holds in both directions. |
| CompletionHeatMap.ShadesOfPrimary | src/components/insights/CompletionHeatMap.tsx:48-51 | The three lighter shades are the primary colour with the alpha suffixes 40, 60 and 80. |
| CompletionHeatMap.EmptyDayIsBorder | src/components/insights/CompletionHeatMap.tsx:26-52 | A day gets the border colour exactly when nothing was completed or no habit is active. |
| StreakChart.ChartDays | src/components/insights/StreakChart.tsx:17 | Week and month give 7 and 30 days. Every other range, the year as well, gives 90. |
| StreakChart.PointFor | src/components/insights/StreakChart.tsx:21-38 | A point is the rounded percentage of habits completed on the day, 0 without habits, and never above 100. |
| StreakChart.StreakData | src/components/insights/StreakChart.tsx:14-42 | The loop produces one point per chart day, the k-th for `days - 1 - k` days before today. |
| StreakChart.StreakDataEndsToday | src/components/insights/StreakChart.tsx:20-39 | The points are consecutive days ending today. |
| StreakChart.MaxStreak | src/components/insights/StreakChart.tsx:45 | The scale is at least 1, at least every point, and is one of them unless it is 1. |
| StreakChart.BarColor | src/components/insights/StreakChart.tsx:61-65 | Success from 75, warning from 50, danger below, each in both directions. |
| LegacyTracker.MigrateAll | app/modules/HabbitTracker.tsx:55-59 | The migration maps every stored record, with its index, in order. |
| LegacyTracker.Migrate | app/modules/HabbitTracker.tsx:55-59 | One record's migration keeps id, name, streak, `doneToday` and `createdAt`. The dates are `completedDates` when present, else `date`, else empty. A non-empty colour is kept; otherwise it is the palette colour of the index, which is one of the habit colours. |
| LegacyTracker.MigrateFields | app/modules/HabbitTracker.tsx:55-59 | Migration keeps the identity fields. The dates come from `completedDates`, else `date`, else nothing. A non-empty colour is kept; otherwise the record gets the palette colour of its index. |
| LegacyTracker.MigrateCurrentIsIdentity | app/modules/HabbitTracker.tsx:55-59 | Records that already have dates and a colour come back unchanged. |
| LegacyTracker.Tracker.LoadHabits | app/modules/HabbitTracker.tsx:50-65 | A stored list replaces the habits after migration. Nothing stored leaves them. |
| LegacyTracker.ResetDay | app/modules/HabbitTracker.tsx:82-85 | Every `doneToday` becomes whether today is among the habit's dates; nothing else changes. |
| LegacyTracker.Tracker.CheckAndResetDay | app/modules/HabbitTracker.tsx:76-93 | The reset happens exactly when the stored reset date is not today and there are habits. |
| LegacyTracker.Tracker.AddHabit | app/modules/HabbitTracker.tsx:95-119 | A blank name, or a name already taken ignoring case, is refused and changes nothing. Otherwise exactly one habit, with the trimmed name and the next palette colour, is appended and the field is cleared. |
| LegacyTracker.Tracker.constructor | app/modules/HabbitTracker.tsx:33-34 | The screen starts with no habits and an empty name field. |
| Text.ToLower | app/modules/HabbitTracker.tsx:101 | Lowercasing keeps the length and lowercases each character. |
| Text.ToLowerIdempotent | app/modules/HabbitTracker.tsx:101 | Lowercasing twice is the same as lowercasing once. |
| LegacyTracker.ToggledDates | app/modules/HabbitTracker.tsx:124-131 | The date is in the result exactly when it was not in the list. Adding it gives the old multiset plus the date, sorted. Removing it leaves only dates from the old list and no more of them. |
| LegacyTracker.ToggledDatesFlips | app/modules/HabbitTracker.tsx:124-131 | A toggle flips the date's membership and keeps every other date. A strictly increasing list stays strictly increasing, and so is the sorted list of its days. |
| LegacyTracker.StreakFromToday | app/modules/HabbitTracker.tsx:133-145 | The backward walk over the date list returns the run of listed days ending today. |
| LegacyTracker.ToggledEntryToday | app/modules/HabbitTracker.tsx:147-152 | After a toggle, `doneToday` holds exactly when the streak is positive. Toggling today flips it. The streak is the run ending today. |
| LegacyTracker.ToggledList | app/modules/HabbitTracker.tsx:121-158 | Exactly the habits with the id are toggled; the others stay as they were. |
| LegacyTracker.Tracker.ToggleHabitForDate | app/modules/HabbitTracker.tsx:121-158 | The loop over the habits produces the toggled list. |
| LegacyTracker.Tracker.ToggleHabit | app/modules/HabbitTracker.tsx:160-163 | Toggling from the list toggles today. |
| LegacyTracker.Tracker.DeleteHabit | app/modules/HabbitTracker.tsx:165-183 | The confirmed delete keeps exactly the habits with another id. |
| LegacyTracker.FindById | app/modules/HabbitTracker.tsx:187 | `find` returns the first habit with the id, or nothing exactly when no habit has it. |
| LegacyTracker.Tracker.GetMarkedDates | app/modules/HabbitTracker.tsx:185-215 | With a habit chosen, its dates are selected in its colour with white text, and an unknown id marks nothing. With none chosen, every listed date gets one dot per listing. |
| LegacyTracker.Tracker.SelectedCalendarMarks | app/modules/HabbitTracker.tsx:339-347 | The selected date is always highlighted: in the chosen habit's colour when it has one, and in `#0af` otherwise. Every other entry is as `getMarkedDates` gives it: the chosen habit's dates, nothing for an unknown id, or the dots when no habit is chosen. |
| LegacyTracker.UnfilteredDotCount | app/modules/HabbitTracker.tsx:201-212 | With sorted, duplicate-free date lists, the dots at a date number the habits that list it. |
| LegacyTracker.HabitsForDate | app/modules/HabbitTracker.tsx:217-222 | Every habit is listed, in order, flagged exactly when the date is among its dates. |
| LegacyTracker.CompletionPercentage | app/modules/HabbitTracker.tsx:225-227 | Without completions the percentage is 0. With completions it is the rounded percentage of completions over the days since creation, counted as at least 1. That is the half-up rounding of `100 * completions / days`. It is at most 100 when there are no more completions than days since creation. |
| LegacyTracker.CompletionPercentageFull | app/modules/HabbitTracker.tsx:225-227 | One completion for each day since creation gives 100. |
| TimerFormat.JsRem | app/actTimer.tsx:29-30 | JavaScript's `%` agrees with the mathematical remainder for a non-negative dividend. For a negative dividend it lies in `(-b, 0]`. In both cases the dividend minus the result is a multiple of the divisor, which pins the value. A negative count reaches `formatTime` through `Number(params.seconds)`. |
| TimerFormat.JsRemMultiple | app/actTimer.tsx:29-30 | The dividend minus its JavaScript remainder is a whole multiple of the divisor, for either sign. |
| TimerFormat.DecomposeSplits | app/actTimer.tsx:27-30 | For a non-negative count, `h * 3600 + m * 60 + s` is the count, with `m` and `s` below 60. |
| TimerFormat.DecomposeRoundTrip | app/actTimer.tsx:27-30 | Splitting a sum of hours, minutes below 60 and seconds below 60 gives those three back. |
| TimerFormat.TwoDigitFields | app/actTimer.tsx:27-32 | Below 100 hours the rendering is eight characters, `HH:MM:SS`, of zero-padded two-digit fields. |
| TimerFormat.FormatTime | app/modules/runningTimer.tsx:35-40 | Below 100 hours the rendering has colons at offsets 2 and 5. Reading its three fields back as numbers and adding them up as hours, minutes and seconds gives the count again. |
| TimerFormat.FieldsReadBack | app/actTimer.tsx:27-32 | The zero-padded fields of a count below 100 hours, joined by colons, parse back to that count. |
| ActTimerScreen.SelectionRoundTrip | app/actTimer.tsx:23-25 | Any picker selection totals less than a day. Its rendering shows the three selections, and it splits back into them. |
| ActTimerScreen.ActTimer.constructor | app/actTimer.tsx:48-54 | The screen starts with the pickers at 0, no name, no saved timers, nothing left and not running. |
| ActTimerScreen.ActTimer.SelectHour | app/actTimer.tsx:98 | The hour picker sets the hour within 0 to 23 and changes nothing else. |
| ActTimerScreen.ActTimer.SelectMinute | app/actTimer.tsx:99 | The minute picker sets the minute within 0 to 59 and changes nothing else. |
| ActTimerScreen.ActTimer.SelectSecond | app/actTimer.tsx:100 | The second picker sets the second within 0 to 59 and changes nothing else. |
| ActTimerScreen.ActTimer.SetName | app/actTimer.tsx:107 | Typing replaces the name and changes nothing else. |
| ActTimerScreen.ActTimer.SaveTimer | app/actTimer.tsx:57-62 | Without a name or a positive total nothing changes. Otherwise exactly one entry with the name and total is appended and the name is cleared. |
| ActTimerScreen.StartLaunch | app/actTimer.tsx:64-73 | Nothing is launched exactly when the total is not positive. Otherwise the launch has the total and the typed name, or `Custom Timer` when none was typed. |
| ActTimerScreen.ActTimer.StartTimer | app/actTimer.tsx:64-73 | Starting launches what `StartLaunch` gives for the current selection and name, and changes nothing. |
| ActTimerScreen.ActTimer.PauseTimer | app/actTimer.tsx:76-79 | The timer stops running; nothing else changes. |
| ActTimerScreen.ActTimer.ResetTimer | app/actTimer.tsx:81-87 | Paused, nothing left, and all three pickers at 0. The name and the saved list stay. |
| ActTimerScreen.PressedSavedLaunch | app/actTimer.tsx:125-128 | As written, pressing a saved entry launches the current selection, whatever the entry. |
| ActTimerScreen.ActTimer.PressSavedTimer | app/actTimer.tsx:125-128 | A press on a saved entry launches what the as-written handler gives, on the current pickers and name. |
| ActTimerScreen.LaunchName | app/actTimer.tsx:71 | The launched name is never empty; a typed name is kept. |
| ActTimerScreen.SavedPressIgnoresEntry | app/actTimer.tsx:125-131 | With the pickers at zero, pressing a saved one-minute timer launches nothing, while the entry's own launch would be one minute. |
| ActTimerScreen.SavedLaunch | app/actTimer.tsx:121-131 | A saved entry with a positive duration and a name launches exactly its own countdown. |
| ActTimerScreen.SavedEntryLaunchesItself | app/actTimer.tsx:57-62 | Every entry `saveTimer` can append lasts under a day, renders in eight characters, and launches its own name and duration. |
| RunningTimerScreen.Start | app/modules/runningTimer.tsx:21-25 | On mount the timer shows the total as running. The interval is installed exactly when the total is positive. |
| RunningTimerScreen.RunningTimer.constructor | app/modules/runningTimer.tsx:21-25 | The total is the numeric `seconds` parameter, or 0 when it is missing or not a number. The name is the `name` parameter, or `Custom Timer` when it is missing or empty. The state is the start state. |
| RunningTimerScreen.Tick | app/modules/runningTimer.tsx:44-54 | At one second or less a tick shows 0, stops running and clears the interval. Above that one second goes. Nothing fires without an interval. The count never goes negative, and the interval only runs while running. |
| RunningTimerScreen.RunningTimer.OnTick | app/modules/runningTimer.tsx:43-55 | The interval callback performs exactly one tick on the state. |
| RunningTimerScreen.TicksCountDown | app/modules/runningTimer.tsx:51-53 | While more seconds are left than ticks, each tick takes exactly one second. |
| RunningTimerScreen.ExactlyTotalTicks | app/modules/runningTimer.tsx:44-54 | From a positive total N, fewer than N ticks leave it still counting, and N or more have stopped it at 0. |
| RunningTimerScreen.NoTotalNoCountdown | app/modules/runningTimer.tsx:58-62 | A total that is not positive never starts counting. |
| RunningTimerScreen.Toggle | app/modules/runningTimer.tsx:69-77 | `togglePause` flips `running`, clears the interval on pause and installs one on resume, and keeps the count. |
| RunningTimerScreen.RunningTimer.TogglePause | app/modules/runningTimer.tsx:69-77 | The method performs exactly the toggle on the state. |
| RunningTimerScreen.PauseThenResume | app/modules/runningTimer.tsx:69-77 | While paused no tick changes anything, and resuming returns to the state at the pause. |
| RunningTimerScreen.RunningTimer.StopTimer | app/modules/runningTimer.tsx:79-82 | Stopping clears the interval and keeps the count and the flag. |
| RunningTimerScreen.StoppedStaysStopped | app/modules/runningTimer.tsx:46-49 | Once the interval is cleared, no further tick changes anything. |

## Left out

- Persistence: the AsyncStorage reads and writes, JSON encoding, and storage errors are left out. Loads take the parsed value as a parameter, or none.
- Clocks and time zones:
  - The current time is a parameter (`now`, `today`).
  - `setDate(getDate() - i)` on a local date, followed by `toISOString()`, is treated as the UTC date `i` days back. The source mixes local and UTC time, which can shift a day around midnight in non-UTC zones. The model does not capture that.
  - `new Date(date).getDay()` in `getHabitsForDate` (context/HabitContext.tsx:167) reads the local weekday of the date's UTC midnight. West of UTC that is the previous day's weekday at every hour, and the Today screen passes the UTC `today` string to it. HabitContext.ScheduledOn, `Dates.Weekday` and everything built on them (HabitsForDate, TodaysProgress, the Today screen's filters) use the date's own UTC weekday instead. The behaviour as written is modelled separately, by HabitContext.LocalWeekdayOfDate and HabitContext.ScheduledOnAsWritten, and recorded under "## Findings".
- Generated ids (`Date.now()` plus `Math.random()`) are parameters.
- The quote randomness, the progress-circle animation and `setInterval` timing of the countdown screen are left out, as are navigation, alerts and notifications.
- The two-dimensional picker maths of `app/Component/picker.tsx` is not part of this model. The picker values are assumed to be the listed ranges.
- Floating point: exact rational arithmetic replaces the floats.
  - Percentages are rounded with `Math.round` exactly. The rounding error of `(a / b) * 100` in floating point is not modelled.
  - The heat-map intensity, and a card's goal share before rounding, are kept as fractions.
  - `HabitTrends.WithinDays` compares milliseconds exactly.
- Day-of-month labels (`getDate()`) and `toLocaleDateString` labels other than the short weekday name are not modelled. The model has no conversion from day numbers back to civil dates.
- `Text.ToLower` lowercases ASCII letters only. `localeCompare` on reminder times is treated as code-unit order, which on `HH:MM` digits is the same.
- `Number(params.seconds)` of a string that is not an integer is modelled as `None` (so 0). Fractional seconds are not modelled.
- `toggleHabitCompletion` with `date` given as the empty string falls back to today in the source. The model's `date` is an `Option<Day>`: `None` stands for both an absent and an empty date.
- `Partial<Habit>` patches may set a required field to `undefined` in the source. The model's patches can only set required fields to values.
- HabitTrends.HabitTrendRows: states a permutation sorted by falling rate, but not that equal rates keep the habits' order, as the stable `Array.prototype.sort` does. The same holds for ScreenHabitTrends.RateRows.
- WeeklyCompletion.DayBarFor: counts completions of inactive habits against the active count, as the source does, so a bar can exceed 100 percent. The bound is proved only when every habit is active.
- CompletionHeatMap.IntensityOf: shares the same source behaviour, so an intensity can exceed 1.
- The settings screen, onboarding, app layout and the small presentational components are not part of this model.

## Findings

| source | as written | input that shows it | evidently intended | confidence | as-written member | corrected member |
|---|---|---|---|---|---|---|
| app/actTimer.tsx:125-128 | Pressing a saved timer calls `startTimer()`, which reads the pickers and the name field, not the pressed entry. | After a reset (pickers at 0), press a saved entry `{ name: "Run", seconds: 60 }`: nothing launches. | The pressed entry's own countdown, `Launch(60, "Run")`. | medium, not executed | ActTimerScreen.PressedSavedLaunch | ActTimerScreen.SavedLaunch |
| context/HabitContext.tsx:166-169 | Weekly and custom habits are matched against `new Date(date).getDay()`. The date string parses as UTC midnight and `getDay` reads the local weekday. | Five hours west of UTC (offset −18000000 ms), take a weekly habit with `weekdays: [3]` and the date "2024-01-10", a Wednesday. `getDay()` is 2, so the habit is missing from that Wednesday. | The weekday of the date string itself, so the habit is listed on its Wednesday in every zone. | medium, not executed | HabitContext.WestOfUtcMissesWeekday | HabitContext.ScheduledOnItsWeekdays |
