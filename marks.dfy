/**
 * The `markedDates` dictionary both calendars hand to the calendar widget:
 * per date either a list of coloured dots (one per habit listing the date) or a
 * selected highlight in one habit's colour, and finally the selected date
 * highlighted on top of whatever it already carried.
 */
module CalendarMarks {
  import opened Optional
  import opened Dates
  import opened Collections

  /**
   * One entry of `markedDates`. Absent keys are `None` (and `false` for
   * `selected`); a dot is kept as its colour.
   */
  datatype Mark = Mark(dots: Option<seq<string>>, selected: bool, selectedColor: Option<string>, textColor: Option<string>)

  /** `{ ...undefined }`: the entry a date has when nothing marked it. */
  const NoMark: Mark := Mark(None, false, None, None)

  /** What a habit contributes to the calendar: its colour and its completed dates. */
  datatype DatedColor = DatedColor(color: string, dates: seq<Day>)

  /** How many times `d` appears in `ds`. */
  function Occurrences(ds: seq<Day>, d: Day): (n: nat)
    ensures n <= |ds|
    ensures n == 0 <==> d !in ds
  {
    if ds == [] then 0
    else Occurrences(ds[..|ds| - 1], d) + (if ds[|ds| - 1] == d then 1 else 0)
  }

  function Repeat(c: string, n: nat): (r: seq<string>)
    ensures |r| == n
    ensures forall k :: 0 <= k < n ==> r[k] == c
  {
    if n == 0 then [] else Repeat(c, n - 1) + [c]
  }

  /** The dots the nested `forEach` leaves at `d`: each source's colour once per listing, in source order. */
  function DotsFor(src: seq<DatedColor>, d: Day): seq<string> {
    if src == [] then []
    else
      var last := src[|src| - 1];
      DotsFor(src[..|src| - 1], d) + Repeat(last.color, Occurrences(last.dates, d))
  }

  /** The entry of a date that has dots. */
  function DotMark(dots: seq<string>): Mark {
    Mark(Some(dots), false, None, None)
  }

  /**
   * The unfiltered branch of `getMarkedDates`: for every habit and every one
   * of its dates, create `{ dots: [] }` if the date is new, then push the
   * habit's colour.
   */
  method AddDots(src: seq<DatedColor>) returns (marked: map<Day, Mark>)
    ensures forall d :: d in marked <==> DotsFor(src, d) != []
    ensures forall d :: d in marked ==> marked[d] == DotMark(DotsFor(src, d))
  {
    marked := map[];
    for i := 0 to |src|
      invariant forall d :: d in marked <==> DotsFor(src[..i], d) != []
      invariant forall d :: d in marked ==> marked[d] == DotMark(DotsFor(src[..i], d))
    {
      marked := PushDots(marked, src[..i], src[i].color, src[i].dates);
      assert src[..i + 1] == src[..i] + [src[i]];
    }
    assert src[..|src|] == src;
  }

  /** The dots after the first `j` dates of one more source. */
  function Pending(base: seq<DatedColor>, color: string, dates: seq<Day>, j: nat, d: Day): seq<string>
    requires j <= |dates|
  {
    DotsFor(base, d) + Repeat(color, Occurrences(dates[..j], d))
  }

  lemma PendingStep(base: seq<DatedColor>, color: string, dates: seq<Day>, j: nat)
    requires j < |dates|
    ensures forall d :: Pending(base, color, dates, j + 1, d) == (if dates[j] == d
      then Pending(base, color, dates, j, d) + [color] else Pending(base, color, dates, j, d))
  {
    assert dates[..j + 1][..j] == dates[..j];
  }

  lemma PendingEnds(base: seq<DatedColor>, color: string, dates: seq<Day>)
    ensures forall d :: Pending(base, color, dates, 0, d) == DotsFor(base, d)
    ensures forall d :: Pending(base, color, dates, |dates|, d) == DotsFor(base + [DatedColor(color, dates)], d)
  {
    assert dates[..0] == [] && dates[..|dates|] == dates;
    assert (base + [DatedColor(color, dates)])[..|base|] == base;
  }

  /** One pass of the inner loop keeps the marks equal to the pending dots. */
  lemma PushStep(m: map<Day, Mark>, base: seq<DatedColor>, color: string, dates: seq<Day>, j: nat)
    requires j < |dates|
    requires forall d :: d in m <==> Pending(base, color, dates, j, d) != []
    requires forall d :: d in m ==> m[d] == DotMark(Pending(base, color, dates, j, d))
    ensures var m' := m[dates[j] := DotMark(Pending(base, color, dates, j, dates[j]) + [color])];
      && (forall d :: d in m' <==> Pending(base, color, dates, j + 1, d) != [])
      && (forall d :: d in m' ==> m'[d] == DotMark(Pending(base, color, dates, j + 1, d)))
  {
    PendingStep(base, color, dates, j);
  }

  /** The inner `forEach`: one habit's dates each push the habit's colour. */
  method PushDots(marked: map<Day, Mark>, ghost base: seq<DatedColor>, color: string, dates: seq<Day>)
    returns (m: map<Day, Mark>)
    requires forall d :: d in marked <==> DotsFor(base, d) != []
    requires forall d :: d in marked ==> marked[d] == DotMark(DotsFor(base, d))
    ensures forall d :: d in m <==> DotsFor(base + [DatedColor(color, dates)], d) != []
    ensures forall d :: d in m ==> m[d] == DotMark(DotsFor(base + [DatedColor(color, dates)], d))
  {
    PendingEnds(base, color, dates);
    m := marked;
    for j := 0 to |dates|
      invariant forall d :: d in m <==> Pending(base, color, dates, j, d) != []
      invariant forall d :: d in m ==> m[d] == DotMark(Pending(base, color, dates, j, d))
    {
      var date := dates[j];
      var dots := if date in m then m[date].dots.GetOr([]) else [];
      assert dots == Pending(base, color, dates, j, date);
      PushStep(m, base, color, dates, j);
      m := m[date := DotMark(dots + [color])];
    }
  }

  /** A date has dots exactly when some source lists it. */
  lemma {:induction false} DotsIffListed(src: seq<DatedColor>, d: Day)
    ensures DotsFor(src, d) != [] <==> exists k :: 0 <= k < |src| && d in src[k].dates
  {
    if src != [] {
      var init := src[..|src| - 1];
      DotsIffListed(init, d);
      if exists k :: 0 <= k < |init| && d in init[k].dates {
        var k :| 0 <= k < |init| && d in init[k].dates;
        assert src[k] == init[k];
      }
      if exists k :: 0 <= k < |src| && d in src[k].dates {
        var k :| 0 <= k < |src| && d in src[k].dates;
        if k < |init| { assert init[k] == src[k]; }
      }
    }
  }

  function Lists(d: Day): DatedColor -> bool {
    (s: DatedColor) => d in s.dates
  }

  predicate NoRepeats(ds: seq<Day>) {
    forall i, j :: 0 <= i < j < |ds| ==> ds[i] != ds[j]
  }

  lemma {:induction false} OccurrencesOnce(ds: seq<Day>, d: Day)
    requires NoRepeats(ds)
    ensures Occurrences(ds, d) == if d in ds then 1 else 0
  {
    if ds != [] {
      var init := ds[..|ds| - 1];
      OccurrencesOnce(init, d);
      if ds[|ds| - 1] == d {
        assert forall i :: 0 <= i < |init| ==> init[i] != d by {
          forall i | 0 <= i < |init| ensures init[i] != d {
            assert ds[i] != ds[|ds| - 1];
          }
        }
      }
    }
  }

  /** When no source lists a date twice, the dots at a date number the sources that list it. */
  lemma {:induction false} DotCountIsHabitCount(src: seq<DatedColor>, d: Day)
    requires forall k :: 0 <= k < |src| ==> NoRepeats(src[k].dates)
    ensures |DotsFor(src, d)| == CountWhere(src, Lists(d))
  {
    if src != [] {
      var init, last := src[..|src| - 1], src[|src| - 1];
      DotCountIsHabitCount(init, d);
      OccurrencesOnce(last.dates, d);
      assert |DotsFor(src, d)| == |DotsFor(init, d)| + Occurrences(last.dates, d);
      assert init + [last] == src;
      FilterSnoc(init, last, Lists(d));
      assert CountWhere(src, Lists(d)) == CountWhere(init, Lists(d)) + (if d in last.dates then 1 else 0);
    }
  }

  /** The filtered branch: every date of the chosen habit becomes a selected entry in its colour. */
  method HabitMarks(dates: seq<Day>, color: string, textColor: Option<string>) returns (marked: map<Day, Mark>)
    ensures forall d :: d in marked <==> d in dates
    ensures forall d :: d in marked ==> marked[d] == Mark(None, true, Some(color), textColor)
  {
    marked := map[];
    for j := 0 to |dates|
      invariant forall d :: d in marked <==> d in dates[..j]
      invariant forall d :: d in marked ==> marked[d] == Mark(None, true, Some(color), textColor)
    {
      assert dates[..j + 1] == dates[..j] + [dates[j]];
      marked := marked[dates[j] := Mark(None, true, Some(color), textColor)];
    }
    assert dates[..|dates|] == dates;
  }

  /**
   * `{ ...marked, [sel]: { ...marked[sel], selected: true, selectedColor: color } }`:
   * the selected date is highlighted and keeps its dots; every other entry is untouched.
   */
  function WithSelected(marked: map<Day, Mark>, sel: Day, color: string): (r: map<Day, Mark>)
    ensures r.Keys == marked.Keys + {sel}
    ensures r[sel].selected && r[sel].selectedColor == Some(color)
    ensures r[sel].dots == (if sel in marked then marked[sel].dots else None)
    ensures forall d :: d in marked && d != sel ==> r[d] == marked[d]
  {
    var base := if sel in marked then marked[sel] else NoMark;
    marked[sel := base.(selected := true, selectedColor := Some(color))]
  }
}
