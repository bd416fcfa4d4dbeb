/**
 * The completion heat map: the last twelve weeks as twelve rows of seven
 * cells, oldest first, each shaded by the share of active habits completed
 * that day.
 */
module CompletionHeatMap {
  import opened Dates
  import opened Collections
  import opened HabitTypes
  import opened DailyCounts

  const Weeks: nat := 12

  /** `completions / totalHabits` kept as an exact fraction; `0` when there are no active habits. */
  datatype Intensity = Intensity(num: nat, den: nat)

  function IntensityOf(completions: nat, active: nat): (i: Intensity)
    ensures i.den > 0
    ensures i.num == 0 <==> completions == 0 || active == 0
    ensures active > 0 ==> i == Intensity(completions, active)
  {
    if active > 0 then Intensity(completions, active) else Intensity(0, 1)
  }

  /** One cell: its date, intensity, completion count and weekday. */
  datatype Cell = Cell(date: Day, intensity: Intensity, completions: nat, day: int)

  function CellFor(hs: seq<Habit>, date: Day): (c: Cell)
    ensures c.date == date && c.day == Weekday(date)
    ensures c.completions == CompletionsOn(hs, date)
    ensures c.intensity == IntensityOf(c.completions, ActiveCount(hs))
  {
    var completions := CompletionsOn(hs, date);
    Cell(date, IntensityOf(completions, ActiveCount(hs)), completions, Weekday(date))
  }

  /** How many days before today the cell at `week` (counting back) and `day` (0 to 6 in a row) lies. */
  function Offset(week: int, day: int): int {
    week * 7 + (6 - day)
  }

  /**
   * `getHeatmapData`: for `week` from 11 down to 0, a row of the cells for
   * `day` from 0 to 6, each `week * 7 + (6 - day)` days before today.
   */
  method HeatmapData(hs: seq<Habit>, today: Day) returns (grid: seq<seq<Cell>>)
    ensures |grid| == Weeks
    ensures forall r :: 0 <= r < Weeks ==> |grid[r]| == 7
    ensures forall r, c :: 0 <= r < Weeks && 0 <= c < 7 ==> grid[r][c] == CellFor(hs, today - Offset(Weeks - 1 - r, c))
  {
    grid := [];
    var week := Weeks as int - 1;
    while week >= 0
      invariant -1 <= week < Weeks
      invariant |grid| == Weeks - 1 - week
      invariant forall r :: 0 <= r < |grid| ==> |grid[r]| == 7
      invariant forall r, c :: 0 <= r < |grid| && 0 <= c < 7 ==> grid[r][c] == CellFor(hs, today - Offset(Weeks - 1 - r, c))
    {
      var row := [];
      for day := 0 to 7
        invariant |row| == day
        invariant forall c :: 0 <= c < day ==> row[c] == CellFor(hs, today - Offset(week, c))
      {
        row := row + [CellFor(hs, today - Offset(week, day))];
      }
      grid := grid + [row];
      week := week - 1;
    }
  }

  /**
   * Read row by row, the cells are the 84 consecutive days ending today:
   * cell `7 * r + c` lies `83 - (7 * r + c)` days back, so every offset from
   * 0 to 83 occurs exactly once and later cells are later days.
   */
  lemma GridIsChronological(r: int, c: int)
    requires 0 <= r < Weeks && 0 <= c < 7
    ensures Offset(Weeks - 1 - r, c) == 83 - (7 * r + c)
  {
  }

  /** Every offset from 0 to 83 belongs to exactly one cell: `week` is the offset's quotient by 7. */
  lemma OffsetsCoverOnce(n: int)
    requires 0 <= n < 7 * Weeks
    ensures 0 <= n / 7 < Weeks && 0 <= 6 - n % 7 < 7 && Offset(n / 7, 6 - n % 7) == n
    ensures forall w, c :: 0 <= w < Weeks && 0 <= c < 7 && Offset(w, c) == n ==> w == n / 7 && c == 6 - n % 7
  {
  }

  // `COLORS.primary` with the alpha suffixes `40`, `60` and `80`.
  const Primary40 := "#2F6FED40"
  const Primary60 := "#2F6FED60"
  const Primary80 := "#2F6FED80"

  lemma ShadesOfPrimary()
    ensures Primary40 == Primary + "40" && Primary60 == Primary + "60" && Primary80 == Primary + "80"
  {
  }

  /** `getIntensityColor`: the border colour for none, then four shades of the primary colour. */
  function IntensityColor(i: Intensity): (color: string)
    requires i.den > 0
    ensures color == Border <==> i.num == 0
    ensures color == Primary40 <==> 0 < i.num && 4 * i.num <= i.den
    ensures color == Primary60 <==> i.den < 4 * i.num && 2 * i.num <= i.den
    ensures color == Primary80 <==> i.den < 2 * i.num && 4 * i.num <= 3 * i.den
    ensures color == Primary <==> 3 * i.den < 4 * i.num
  {
    if i.num == 0 then Border
    else if 4 * i.num <= i.den then Primary40
    else if 2 * i.num <= i.den then Primary60
    else if 4 * i.num <= 3 * i.den then Primary80
    else Primary
  }

  /** A day on which no habit was completed, or with no active habits, is drawn in the border colour. */
  lemma EmptyDayIsBorder(hs: seq<Habit>, date: Day)
    ensures CompletionsOn(hs, date) == 0 || ActiveCount(hs) == 0 <==> IntensityColor(CellFor(hs, date).intensity) == Border
  {
  }
}
