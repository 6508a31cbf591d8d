/**
 * The countdown's state and its transitions, as values.  The widget keeps
 * three variables: `remainingSeconds`, the seconds left while paused;
 * `endTime`, the wall-clock deadline in milliseconds while running; and
 * `paused`.  Every transition that needs the clock takes the current time
 * `now` in milliseconds, as `Date.now()` would give it.
 */
module Timer {

  function Max(a: int, b: int): int { if a >= b then a else b }

  /** `Math.max(0, Math.floor((endTime - now) / 1000))`: whole seconds to the
      deadline, 0 once it has passed.  Dafny's `/` rounds towards negative
      infinity for a positive divisor, as `Math.floor` of the quotient does. */
  function SecondsUntil(endTime: int, now: int): (r: int)
    ensures r >= 0
    ensures endTime - now <= 0 ==> r == 0
    ensures endTime - now > 0 ==> r * 1000 <= endTime - now < r * 1000 + 1000
  {
    Max(0, (endTime - now) / 1000)
  }

  datatype TimerState = TimerState(remainingSeconds: int, endTime: int, paused: bool)
  {
    /** What every transition keeps: the stored seconds are never negative. */
    predicate Valid() { remainingSeconds >= 0 }

    /** `getRemainingSeconds()`: the stored seconds while paused, the seconds
        to the deadline while running. */
    function Remaining(now: int): (r: int)
      ensures paused ==> r == remainingSeconds
      ensures !paused ==> r == SecondsUntil(endTime, now)
      ensures Valid() ==> r >= 0
    {
      if paused then remainingSeconds else SecondsUntil(endTime, now)
    }

    /** "pause": a running timer stores what is left and stops; a paused one is left alone. */
    function Pause(now: int): TimerState {
      if !paused then TimerState(SecondsUntil(endTime, now), endTime, true) else this
    }

    /** "resume": a paused timer gets a deadline that far from now and runs. */
    function Resume(now: int): TimerState {
      if paused then TimerState(remainingSeconds, now + remainingSeconds * 1000, false) else this
    }

    /** "start": with a positive duration, set it and run; without one, resume
        if paused with time left, and otherwise do nothing. */
    function Start(seconds: int, now: int): TimerState {
      if seconds > 0 then TimerState(seconds, now + seconds * 1000, false)
      else if paused && remainingSeconds > 0 then TimerState(remainingSeconds, now + remainingSeconds * 1000, false)
      else this
    }

    /** "add": a positive duration goes onto the stored seconds or the deadline. */
    function Add(seconds: int): TimerState {
      if seconds > 0 then
        if paused then TimerState(remainingSeconds + seconds, endTime, paused)
        else TimerState(remainingSeconds, endTime + seconds * 1000, paused)
      else this
    }

    /** "sub" and "subtract": a positive duration comes off the stored seconds,
        stopping at 0, or off the deadline, with no stop. */
    function Subtract(seconds: int): TimerState {
      if seconds > 0 then
        if paused then TimerState(Max(0, remainingSeconds - seconds), endTime, paused)
        else TimerState(remainingSeconds, endTime - seconds * 1000, paused)
      else this
    }

    /** "set": a non-negative duration becomes the time left, and the timer runs. */
    function Set(seconds: int, now: int): TimerState {
      if seconds >= 0 then TimerState(seconds, now + seconds * 1000, false) else this
    }

    /** The credit branch of the event handler: positive minutes go onto the
        stored seconds or the deadline. */
    function Credit(minutes: int): TimerState {
      if minutes > 0 then
        if paused then TimerState(remainingSeconds + minutes * 60, endTime, paused)
        else TimerState(remainingSeconds, endTime + minutes * 60 * 1000, paused)
      else this
    }
  }

  /** The widget's state when it loads: paused with nothing left. */
  function Initial(now: int): (st: TimerState)
    ensures st.Valid() && st.paused && st.Remaining(now) == 0
  {
    TimerState(0, now + 0 * 1000, true)
  }

  // ---- pause and resume ----

  /** Pausing keeps the read-out of that moment, and it no longer moves. */
  lemma PauseFreezesReadout(st: TimerState, now: int, later: int)
    requires st.Valid()
    ensures st.Pause(now).paused && st.Pause(now).Valid()
    ensures st.Pause(now).Remaining(later) == st.Remaining(now)
  {
  }

  /** Running, the pause stores `max(0, floor((endTime - now) / 1000))`. */
  lemma PauseWhileRunning(st: TimerState, now: int)
    requires !st.paused
    ensures st.Pause(now).remainingSeconds * 1000 <= Max(0, st.endTime - now)
    ensures Max(0, st.endTime - now) < st.Pause(now).remainingSeconds * 1000 + 1000
    ensures st.Pause(now).endTime == st.endTime
  {
  }

  /** Pausing twice is pausing once, and pausing a paused timer changes nothing. */
  lemma PauseIdempotent(st: TimerState, now: int, now2: int)
    ensures st.Pause(now).Pause(now2) == st.Pause(now)
    ensures st.paused ==> st.Pause(now) == st
  {
  }

  /** A paused timer resumed and paused again at the same moment has the
      same seconds stored. */
  lemma ResumePauseRoundTrip(st: TimerState, now: int)
    requires st.paused && st.Valid()
    ensures st.Resume(now).Pause(now).remainingSeconds == st.remainingSeconds
    ensures st.Resume(now).Pause(now).paused
  {
    assert (st.remainingSeconds * 1000) / 1000 == st.remainingSeconds;
  }

  /** Resuming a timer that is already running changes nothing; resuming
      a paused one sets it running. */
  lemma ResumeWhileRunning(st: TimerState, now: int)
    ensures !st.paused ==> st.Resume(now) == st
    ensures !st.Resume(now).paused
  {
  }

  /** Resumed, the timer counts down one second per thousand milliseconds
      from what was stored, and stops at 0. */
  lemma ResumeCountsDown(st: TimerState, now: int, elapsed: nat)
    requires st.paused && st.Valid()
    ensures st.Resume(now).Remaining(now + elapsed * 1000) == Max(0, st.remainingSeconds - elapsed)
  {
    var d := st.remainingSeconds * 1000 - elapsed * 1000;
    assert d == (st.remainingSeconds - elapsed) * 1000;
    assert d / 1000 == st.remainingSeconds - elapsed;
  }

  // ---- add, subtract, credit ----

  /** Adding never changes whether the timer runs, and a non-positive amount changes nothing. */
  lemma AddKeepsPaused(st: TimerState, seconds: int)
    ensures st.Add(seconds).paused == st.paused
    ensures seconds <= 0 ==> st.Add(seconds) == st
  {
  }

  /** Adding moves the read-out: by exactly the amount while paused, and
      never down while running. */
  lemma AddMovesReadout(st: TimerState, seconds: int, now: int)
    requires seconds > 0
    ensures st.paused ==> st.Add(seconds).Remaining(now) == st.Remaining(now) + seconds
    ensures !st.paused ==> st.Add(seconds).Remaining(now) == Max(0, (st.endTime - now) / 1000 + seconds)
    ensures st.Add(seconds).Remaining(now) >= st.Remaining(now)
  {
    if !st.paused {
      var d := st.endTime - now;
      assert (d + seconds * 1000) / 1000 == d / 1000 + seconds;
    }
  }

  /** While paused, subtracting stops at 0: 10 seconds less 100 leaves 0. */
  lemma SubtractClamps(st: TimerState, seconds: int)
    requires st.paused && seconds > 0
    ensures st.Subtract(seconds).remainingSeconds == Max(0, st.remainingSeconds - seconds)
    ensures st.Subtract(seconds).paused
  {
  }

  lemma SubtractExample(now: int)
    ensures TimerState(10, now, true).Subtract(100) == TimerState(0, now, true)
  {
  }

  /** While running, subtracting moves the deadline back by the full amount,
      even past the present (the read-out is then 0). */
  lemma SubtractWhileRunning(st: TimerState, seconds: int, now: int)
    requires !st.paused && seconds > 0
    ensures st.Subtract(seconds).endTime == st.endTime - seconds * 1000
    ensures !st.Subtract(seconds).paused
    ensures st.endTime - seconds * 1000 <= now ==> st.Subtract(seconds).Remaining(now) == 0
  {
  }

  /** Subtracting what was just added gives the state back. */
  lemma AddSubtractRoundTrip(st: TimerState, seconds: int)
    requires st.Valid()
    ensures st.Add(seconds).Subtract(seconds) == st
  {
  }

  /** An event credit of `m` minutes is an "add" of `m * 60` seconds. */
  lemma CreditIsAdd(st: TimerState, minutes: int)
    ensures st.Credit(minutes) == st.Add(minutes * 60)
  {
  }

  /** A credit never changes whether the timer runs, and a non-positive one changes nothing. */
  lemma CreditKeepsPaused(st: TimerState, minutes: int)
    ensures st.Credit(minutes).paused == st.paused
    ensures minutes <= 0 ==> st.Credit(minutes) == st
  {
    CreditIsAdd(st, minutes);
    AddKeepsPaused(st, minutes * 60);
  }

  // ---- start and set ----

  /** Whatever the parser returns, "set" runs the timer with exactly that
      many seconds left, 0 included: its `>= 0` guard always holds. */
  lemma SetAlwaysRuns(st: TimerState, seconds: nat, now: int)
    ensures st.Set(seconds, now) == TimerState(seconds, now + seconds * 1000, false)
    ensures st.Set(seconds, now).Remaining(now) == seconds
  {
    assert (seconds * 1000) / 1000 == seconds;
  }

  /** "start" with a positive duration is "set". */
  lemma StartWithDuration(st: TimerState, seconds: int, now: int)
    requires seconds > 0
    ensures st.Start(seconds, now) == st.Set(seconds, now)
  {
  }

  /** "start" without a duration resumes a paused timer with time left and
      otherwise changes nothing. */
  lemma StartWithoutDuration(st: TimerState, now: int)
    ensures st.paused && st.remainingSeconds > 0 ==> st.Start(0, now) == st.Resume(now)
    ensures !st.paused ==> st.Start(0, now) == st
    ensures st.paused && st.remainingSeconds == 0 ==> st.Start(0, now) == st
  {
  }

  // ---- The invariant ----

  /** Every transition keeps the stored seconds non-negative. */
  lemma TransitionsKeepValid(st: TimerState, seconds: nat, minutes: int, now: int)
    requires st.Valid()
    ensures st.Pause(now).Valid() && st.Resume(now).Valid() && st.Start(seconds, now).Valid()
    ensures st.Add(seconds).Valid() && st.Subtract(seconds).Valid() && st.Set(seconds, now).Valid()
    ensures st.Credit(minutes).Valid()
  {
  }
}
