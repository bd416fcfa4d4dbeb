/**
 * The timer setup screen: three pickers for hours, minutes and seconds, a
 * name, the list of saved timers, and the buttons that save, start, pause
 * and reset.
 */
module ActTimerScreen {
  import opened Optional
  import opened Text
  import opened TimerFormat

  /** `{ name, seconds }` of the saved list. */
  datatype SavedTimer = SavedTimer(name: string, seconds: int)

  /** The parameters `startTimer` passes to the countdown screen. */
  datatype Launch = Launch(seconds: int, name: string)

  /** `timerName || 'Custom Timer'`. */
  function LaunchName(name: string): (r: string)
    ensures r != ""
    ensures name != "" ==> r == name
  {
    if name != "" then name else "Custom Timer"
  }

  /**
   * What `startTimer` does with a total and a typed name: with a positive
   * total it launches the countdown for the total under the name, or under
   * "Custom Timer" when no name was typed; with none it launches nothing.
   */
  function StartLaunch(total: int, name: string): (launch: Option<Launch>)
    ensures launch.None? <==> total <= 0
    ensures launch.Some? ==> launch.value.seconds == total && launch.value.seconds > 0
    ensures launch.Some? && name != "" ==> launch.value.name == name
    ensures launch.Some? && name == "" ==> launch.value.name == "Custom Timer"
  {
    if total <= 0 then None else Some(Launch(total, LaunchName(name)))
  }

  class ActTimer {
    var selectedHour: int
    var selectedMinute: int
    var selectedSecond: int
    var timerName: string
    var savedTimers: seq<SavedTimer>
    var secondsLeft: int
    var running: bool

    /** The pickers offer hours 0..23 and minutes and seconds 0..59. */
    ghost predicate Valid()
      reads this
    {
      0 <= selectedHour < 24 && 0 <= selectedMinute < 60 && 0 <= selectedSecond < 60
    }

    /** `selectedHour * 3600 + selectedMinute * 60 + selectedSecond`. */
    function TotalSeconds(): int
      reads this
    {
      selectedHour * 3600 + selectedMinute * 60 + selectedSecond
    }

    constructor ()
      ensures Valid()
      ensures selectedHour == 0 && selectedMinute == 0 && selectedSecond == 0
      ensures timerName == "" && savedTimers == [] && secondsLeft == 0 && !running
    {
      selectedHour, selectedMinute, selectedSecond := 0, 0, 0;
      timerName, savedTimers := "", [];
      secondsLeft, running := 0, false;
    }

    /** The three pickers' `onSelect`. */
    method SelectHour(v: int)
      requires Valid() && 0 <= v < 24
      modifies this
      ensures Valid()
      ensures selectedHour == v && selectedMinute == old(selectedMinute) && selectedSecond == old(selectedSecond)
      ensures timerName == old(timerName) && savedTimers == old(savedTimers)
      ensures secondsLeft == old(secondsLeft) && running == old(running)
    {
      selectedHour := v;
    }

    method SelectMinute(v: int)
      requires Valid() && 0 <= v < 60
      modifies this
      ensures Valid()
      ensures selectedMinute == v && selectedHour == old(selectedHour) && selectedSecond == old(selectedSecond)
      ensures timerName == old(timerName) && savedTimers == old(savedTimers)
      ensures secondsLeft == old(secondsLeft) && running == old(running)
    {
      selectedMinute := v;
    }

    method SelectSecond(v: int)
      requires Valid() && 0 <= v < 60
      modifies this
      ensures Valid()
      ensures selectedSecond == v && selectedHour == old(selectedHour) && selectedMinute == old(selectedMinute)
      ensures timerName == old(timerName) && savedTimers == old(savedTimers)
      ensures secondsLeft == old(secondsLeft) && running == old(running)
    {
      selectedSecond := v;
    }

    /** The name field's `onChangeText`. */
    method SetName(name: string)
      modifies this
      ensures timerName == name
      ensures selectedHour == old(selectedHour) && selectedMinute == old(selectedMinute) && selectedSecond == old(selectedSecond)
      ensures savedTimers == old(savedTimers) && secondsLeft == old(secondsLeft) && running == old(running)
    {
      timerName := name;
    }

    /**
     * `saveTimer`: without a name or without a positive total nothing
     * changes; otherwise exactly one entry with the name and the total is
     * appended and the name field is cleared.
     */
    method SaveTimer()
      modifies this
      ensures old(timerName) == "" || old(TotalSeconds()) <= 0 ==>
        savedTimers == old(savedTimers) && timerName == old(timerName)
      ensures old(timerName) != "" && old(TotalSeconds()) > 0 ==>
        savedTimers == old(savedTimers) + [SavedTimer(old(timerName), old(TotalSeconds()))] && timerName == ""
      ensures selectedHour == old(selectedHour) && selectedMinute == old(selectedMinute) && selectedSecond == old(selectedSecond)
      ensures secondsLeft == old(secondsLeft) && running == old(running)
    {
      var total := TotalSeconds();
      if timerName == "" || total <= 0 {
        return;
      }
      savedTimers := savedTimers + [SavedTimer(timerName, total)];
      timerName := "";
    }

    /** `startTimer`, on the current selection and name; it changes nothing on this screen. */
    method StartTimer() returns (launch: Option<Launch>)
      ensures launch == StartLaunch(TotalSeconds(), timerName)
    {
      var total := TotalSeconds();
      if total <= 0 {
        return None;
      }
      return Some(Launch(total, LaunchName(timerName)));
    }

    /**
     * Pressing an entry of the saved list: the list shows the entry's name
     * and duration, but the press handler calls `startTimer()`, which reads
     * the pickers and the name field, not the entry.
     */
    method PressSavedTimer(item: SavedTimer) returns (launch: Option<Launch>)
      ensures launch == PressedSavedLaunch(item, TotalSeconds(), timerName)
    {
      launch := StartTimer();
    }

    /** `pauseTimer`: the timer stops running; nothing else changes. */
    method PauseTimer()
      modifies this
      ensures !running
      ensures selectedHour == old(selectedHour) && selectedMinute == old(selectedMinute) && selectedSecond == old(selectedSecond)
      ensures timerName == old(timerName) && savedTimers == old(savedTimers) && secondsLeft == old(secondsLeft)
    {
      running := false;
    }

    /** `resetTimer`: paused, nothing left, and all three pickers back at 0; the name and the saved list stay. */
    method ResetTimer()
      modifies this
      ensures Valid()
      ensures !running && secondsLeft == 0 && selectedHour == 0 && selectedMinute == 0 && selectedSecond == 0
      ensures TotalSeconds() == 0
      ensures timerName == old(timerName) && savedTimers == old(savedTimers)
    {
      PauseTimer();
      secondsLeft := 0;
      selectedHour, selectedMinute, selectedSecond := 0, 0, 0;
    }
  }

  /**
   * What the pickers can produce: a total below one day whose rendering
   * shows the three selections as two-digit fields, and which splits back
   * into exactly those selections.
   */
  lemma SelectionRoundTrip(h: int, m: int, s: int)
    requires 0 <= h < 24 && 0 <= m < 60 && 0 <= s < 60
    ensures 0 <= h * 3600 + m * 60 + s < 86400
    ensures Decompose(h * 3600 + m * 60 + s) == Hms(h, m, s)
    ensures FormatTime(h * 3600 + m * 60 + s) == DigitsOf(h, 2) + ":" + DigitsOf(m, 2) + ":" + DigitsOf(s, 2)
  {
    DecomposeRoundTrip(h, m, s);
    TwoDigitFields(h * 3600 + m * 60 + s);
  }

  /** The launch a press on a saved entry produces as written: the entry plays no part. */
  function PressedSavedLaunch(item: SavedTimer, total: int, name: string): (launch: Option<Launch>)
    ensures launch.None? <==> total <= 0
    ensures launch.Some? ==> launch.value.seconds == total && launch.value.name == LaunchName(name)
  {
    StartLaunch(total, name)
  }

  /**
   * With the pickers back at zero (after a reset, say), pressing a saved
   * one-minute timer launches nothing.
   */
  lemma SavedPressIgnoresEntry()
    ensures var item := SavedTimer("Run", 60);
      PressedSavedLaunch(item, 0, "").None? && SavedLaunch(item) == Some(Launch(60, "Run"))
  {
  }

  /** The launch a press on a saved entry is evidently meant to produce: that entry's countdown. */
  function SavedLaunch(item: SavedTimer): (launch: Option<Launch>)
    ensures item.seconds > 0 && item.name != "" ==> launch == Some(Launch(item.seconds, item.name))
    ensures item.seconds <= 0 ==> launch.None?
  {
    StartLaunch(item.seconds, item.name)
  }

  /**
   * Every entry `saveTimer` can append lasts less than a day, renders in
   * eight characters, and when pressed launches exactly its own name and
   * duration.
   */
  lemma SavedEntryLaunchesItself(name: string, h: int, m: int, s: int)
    requires 0 <= h < 24 && 0 <= m < 60 && 0 <= s < 60
    requires name != "" && h * 3600 + m * 60 + s > 0
    ensures var e := SavedTimer(name, h * 3600 + m * 60 + s);
      && 0 < e.seconds < 86400 && |FormatTime(e.seconds)| == 8
      && SavedLaunch(e) == Some(Launch(e.seconds, name))
  {
    SelectionRoundTrip(h, m, s);
    TwoDigitFields(h * 3600 + m * 60 + s);
  }
}
