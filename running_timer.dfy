/**
 * The countdown screen: it counts a number of seconds down once a second,
 * stops itself at zero, and can be paused and resumed.
 */
module RunningTimerScreen {
  import opened Optional

  /**
   * The countdown's state: seconds left, the `running` flag the screen
   * shows, and whether the once-a-second interval is installed.
   */
  datatype Countdown = Countdown(secondsLeft: int, running: bool, ticking: bool)

  /** The interval only ever runs while the screen says it is running. */
  predicate Consistent(c: Countdown) {
    c.ticking ==> c.running
  }

  /**
   * One firing of the interval (the `setSecondsLeft` updater): at one second
   * or less it clears itself, stops running and shows 0; otherwise one
   * second goes. Without an interval nothing fires.
   */
  function Tick(c: Countdown): (n: Countdown)
    ensures !c.ticking ==> n == c
    ensures c.ticking && c.secondsLeft <= 1 ==> n == Countdown(0, false, false)
    ensures c.ticking && c.secondsLeft > 1 ==> n == c.(secondsLeft := c.secondsLeft - 1)
    ensures c.secondsLeft >= 0 ==> n.secondsLeft >= 0
    ensures Consistent(c) ==> Consistent(n)
  {
    if !c.ticking then c
    else if c.secondsLeft <= 1 then Countdown(0, false, false)
    else c.(secondsLeft := c.secondsLeft - 1)
  }

  /** `k` firings in a row. */
  function Ticks(c: Countdown, k: nat): Countdown
    decreases k
  {
    if k == 0 then c else Ticks(Tick(c), k - 1)
  }

  /** `togglePause`: pausing clears the interval; resuming installs a fresh one. */
  function Toggle(c: Countdown): (n: Countdown)
    ensures n.running == !c.running && n.ticking == n.running
    ensures n.secondsLeft == c.secondsLeft
  {
    if c.running then c.(running := false, ticking := false)
    else c.(running := true, ticking := true)
  }

  /** The state on mount: running, with the interval installed only for a positive total. */
  function Start(total: int): (c: Countdown)
    ensures c.secondsLeft == total && c.running
    ensures c.ticking <==> total > 0
    ensures Consistent(c)
  {
    Countdown(total, true, total > 0)
  }

  /** While more seconds are left than firings, each firing takes exactly one second. */
  lemma {:induction false} TicksCountDown(c: Countdown, k: nat)
    requires c.ticking && c.running && c.secondsLeft > k
    ensures Ticks(c, k) == c.(secondsLeft := c.secondsLeft - k)
    decreases k
  {
    if k > 0 {
      TicksCountDown(Tick(c), k - 1);
    }
  }

  /** Once stopped, no firing changes anything. */
  lemma {:induction false} StoppedStaysStopped(c: Countdown, k: nat)
    requires !c.ticking
    ensures Ticks(c, k) == c
    decreases k
  {
    if k > 0 {
      StoppedStaysStopped(Tick(c), k - 1);
    }
  }

  /** From a positive total, exactly `n` firings reach 0: before that it is still counting, after that it has stopped. */
  lemma ExactlyTotalTicks(n: int, k: nat)
    requires n > 0
    ensures k < n ==> Ticks(Start(n), k) == Countdown(n - k, true, true)
    ensures k >= n ==> Ticks(Start(n), k) == Countdown(0, false, false)
  {
    if k < n {
      TicksCountDown(Start(n), k);
    } else {
      TicksCountDown(Start(n), n - 1);
      var last := Ticks(Start(n), n - 1);
      assert last == Countdown(1, true, true);
      TicksAfter(Start(n), n - 1, 1);
      StoppedStaysStopped(Countdown(0, false, false), k - n);
      TicksAfter(Start(n), n, k - n);
    }
  }

  /** Firings compose: `i` and then `j` firings are `i + j` firings. */
  lemma {:induction false} TicksAfter(c: Countdown, i: nat, j: nat)
    ensures Ticks(Ticks(c, i), j) == Ticks(c, i + j)
    decreases i
  {
    if i > 0 {
      TicksAfter(Tick(c), i - 1, j);
    }
  }

  /** A zero or missing total never starts the interval, so the display stays as it is. */
  lemma NoTotalNoCountdown(total: int, k: nat)
    requires total <= 0
    ensures Ticks(Start(total), k) == Start(total)
  {
    StoppedStaysStopped(Start(total), k);
  }

  /** Pausing stops the count for any number of firings, and resuming picks up where it stopped. */
  lemma PauseThenResume(c: Countdown, k: nat)
    requires c.running && c.ticking
    ensures Ticks(Toggle(c), k) == Toggle(c)
    ensures Toggle(Ticks(Toggle(c), k)) == c
  {
    StoppedStaysStopped(Toggle(c), k);
  }

  /** The countdown screen's state. */
  class RunningTimer {
    /** `Number(params.seconds) || 0`, with a non-number passed as `None`. */
    const totalSeconds: int
    /** `params.name || "Custom Timer"`. */
    const timerName: string
    var secondsLeft: int
    var running: bool
    var ticking: bool

    function State(): Countdown
      reads this
    {
      Countdown(secondsLeft, running, ticking)
    }

    /** Mounting the screen: the count starts only when the total is positive. */
    constructor (seconds: Option<int>, name: Option<string>)
      ensures totalSeconds == OrNumber(seconds, 0) && timerName == OrString(name, "Custom Timer")
      ensures State() == Start(totalSeconds)
    {
      totalSeconds := OrNumber(seconds, 0);
      timerName := OrString(name, "Custom Timer");
      secondsLeft := OrNumber(seconds, 0);
      running := true;
      ticking := OrNumber(seconds, 0) > 0;
    }

    /** One firing of the interval. */
    method OnTick()
      modifies this
      ensures State() == Tick(old(State()))
    {
      if ticking {
        if secondsLeft <= 1 {
          ticking := false;
          running := false;
          secondsLeft := 0;
        } else {
          secondsLeft := secondsLeft - 1;
        }
      }
    }

    /** `togglePause`. */
    method TogglePause()
      modifies this
      ensures State() == Toggle(old(State()))
    {
      if running {
        running := false;
        ticking := false;
      } else {
        running := true;
        ticking := true;
      }
    }

    /** `stopTimer`: the interval is cleared before leaving the screen. */
    method StopTimer()
      modifies this
      ensures State() == old(State()).(ticking := false)
    {
      ticking := false;
    }
  }
}
