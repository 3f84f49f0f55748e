/**
 * The pausable stopwatch `Timer` (Timer.kt). `System.nanoTime()` is not read here:
 * every operation receives the current clock reading `now` (nanoseconds).
 */
module Timing {

  class Timer {
    var startTime: int
    var pausedTime: int
    var isRunning: bool

    /** A new timer counts from clock reading 0 and is running. */
    constructor ()
      ensures startTime == 0 && pausedTime == 0 && isRunning
    {
      startTime := 0;
      pausedTime := 0;
      isRunning := true;
    }

    /** `getElapsedMillis`, kept in integer nanoseconds. */
    function Elapsed(now: int): (r: int)
      reads this
      ensures isRunning ==> r == now - startTime
      ensures !isRunning ==> r == pausedTime
    {
      if isRunning then now - startTime else pausedTime
    }

    /** `start`: restarts the count from `now`, whether or not the timer was paused. */
    method Start(now: int)
      modifies this
      ensures startTime == now && isRunning && pausedTime == old(pausedTime)
      ensures Elapsed(now) == 0
    {
      startTime := now;
      isRunning := true;
    }

    /** `pause`: freezes the elapsed time; does nothing on a paused timer. */
    method Pause(now: int)
      modifies this
      ensures !isRunning
      ensures old(isRunning) ==> pausedTime == now - old(startTime) && startTime == old(startTime)
      ensures !old(isRunning) ==> pausedTime == old(pausedTime) && startTime == old(startTime)
      ensures Elapsed(now) == old(Elapsed(now))
    {
      if isRunning {
        pausedTime := now - startTime;
        isRunning := false;
      }
    }

    /** `resume`: continues counting from the frozen value; does nothing on a running timer. */
    method Resume(now: int)
      modifies this
      ensures isRunning
      ensures !old(isRunning) ==> startTime == now - old(pausedTime) && pausedTime == old(pausedTime)
      ensures old(isRunning) ==> startTime == old(startTime) && pausedTime == old(pausedTime)
      ensures Elapsed(now) == old(Elapsed(now))
    {
      if !isRunning {
        startTime := now - pausedTime;
        isRunning := true;
      }
    }

    /** While paused, the elapsed time does not depend on the clock. */
    lemma PausedIgnoresClock(t1: int, t2: int)
      requires !isRunning
      ensures Elapsed(t1) == Elapsed(t2)
    {
    }

    /** While running, the elapsed time advances exactly as the clock does. */
    lemma RunningFollowsClock(t1: int, t2: int)
      requires isRunning
      ensures Elapsed(t2) - Elapsed(t1) == t2 - t1
    {
    }
  }

  /**
   * Pausing at `t1`, letting the clock run to `t2` and resuming gives, at `t2`, the value the
   * timer showed at `t1`: the time spent paused is not counted.
   */
  method PauseThenResume(timer: Timer, t1: int, t2: int) returns (atPause: int, atResume: int)
    requires timer.isRunning
    modifies timer
    ensures atPause == old(timer.Elapsed(t1)) && atResume == atPause
    ensures timer.isRunning && timer.Elapsed(t2) == atPause
  {
    timer.Pause(t1);
    atPause := timer.Elapsed(t1);
    timer.Resume(t2);
    atResume := timer.Elapsed(t2);
  }
}
