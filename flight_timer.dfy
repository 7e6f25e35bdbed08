/**
  The focus timer (app/hooks/useFlightTimer.ts). One animation-frame callback,
  `tick(now)`, captures the start time on its first call, derives the elapsed
  time and the progress fraction, and asks for another frame until the full
  duration has passed. The frame timestamp is an input here instead of coming
  from requestAnimationFrame.
*/
module FlightTimer {
  import opened Optional

  /** Seconds since `start`, capped at the session length. */
  function Elapsed(start: real, now: real, totalSeconds: real): (r: real)
    ensures r <= totalSeconds
    ensures now >= start && totalSeconds >= 0.0 ==> r >= 0.0
  {
    var raw := (now - start) / 1000.0;
    if raw <= totalSeconds then raw else totalSeconds
  }

  /** The progress fraction for an elapsed time, capped at 1. */
  function ProgressOf(elapsed: real, totalSeconds: real): (r: real)
    requires totalSeconds > 0.0
    ensures r <= 1.0
    ensures elapsed >= 0.0 ==> r >= 0.0
  {
    var raw := elapsed / totalSeconds;
    if raw <= 1.0 then raw else 1.0
  }

  /** `Math.max(totalSeconds - elapsedSeconds, 0)`. */
  function Remaining(totalSeconds: real, elapsedSeconds: int): (r: real)
    ensures r >= 0.0
    ensures r == 0.0 <==> elapsedSeconds as real >= totalSeconds
    ensures r > 0.0 ==> r + elapsedSeconds as real == totalSeconds
  {
    var raw := totalSeconds - elapsedSeconds as real;
    if raw >= 0.0 then raw else 0.0
  }

  /** The state the hook keeps across frames: `startRef`, `progress` and
      `elapsedSeconds`, and the `totalSeconds` it was last rendered with. */
  class Timer {
    var totalSeconds: real
    var start: Option<real>
    var progress: real
    var elapsedSeconds: int

    ghost predicate Valid()
      reads this
    {
      totalSeconds > 0.0
    }

    /** The hook's initial state: no start time yet, nothing elapsed. */
    constructor (totalSeconds: real)
      requires totalSeconds > 0.0
      ensures Valid()
      ensures this.totalSeconds == totalSeconds
      ensures start == None && progress == 0.0 && elapsedSeconds == 0
    {
      this.totalSeconds := totalSeconds;
      start := None;
      progress := 0.0;
      elapsedSeconds := 0;
    }

    /** `remainingSeconds` as the hook returns it: never negative, and never more
        than the session once the whole seconds have started counting. */
    function RemainingSeconds(): (r: real)
      reads this
      ensures r >= 0.0
      ensures elapsedSeconds >= 0 && totalSeconds >= 0.0 ==> r <= totalSeconds
    {
      Remaining(totalSeconds, elapsedSeconds)
    }

    /** `isComplete` as the hook returns it. */
    predicate IsComplete()
      reads this
    {
      progress >= 1.0
    }

    /** One frame. The start time is captured on the first call only; the result
        says whether another frame is requested. */
    method Tick(now: real) returns (scheduled: bool)
      requires Valid()
      modifies this
      ensures Valid() && totalSeconds == old(totalSeconds)
      ensures start == Some(if old(start).Some? then old(start).value else now)
      ensures var elapsed := Elapsed(start.value, now, totalSeconds);
        && progress == ProgressOf(elapsed, totalSeconds)
        && elapsedSeconds == elapsed.Floor
        && scheduled == (elapsed < totalSeconds)
      ensures scheduled <==> !IsComplete()
    {
      if start.None? {
        start := Some(now);
      }
      var elapsed := Elapsed(start.value, now, totalSeconds);
      var nextProgress := ProgressOf(elapsed, totalSeconds);
      var nextElapsedWhole := elapsed.Floor;
      progress := nextProgress;
      if elapsedSeconds != nextElapsedWhole {
        elapsedSeconds := nextElapsedWhole;
      }
      scheduled := elapsed < totalSeconds;
      ScheduledIffNotComplete(start.value, now, totalSeconds);
    }

    /** The effect re-run for a new `totalSeconds`: the old frame is cancelled
        and a new one requested, while `startRef`, `progress` and
        `elapsedSeconds` keep their values. A timer that completed under the
        old length therefore resumes from the old start under the new one. */
    method SetTotalSeconds(total: real)
      requires Valid() && total > 0.0
      modifies this
      ensures Valid() && totalSeconds == total
      ensures start == old(start) && progress == old(progress) && elapsedSeconds == old(elapsedSeconds)
    {
      totalSeconds := total;
    }
  }

  /** After a frame, another frame is requested exactly when the progress it
      stored is below 1, i.e. when `isComplete` is false. */
  lemma ScheduledIffNotComplete(start: real, now: real, totalSeconds: real)
    requires totalSeconds > 0.0
    ensures var elapsed := Elapsed(start, now, totalSeconds);
      elapsed < totalSeconds <==> ProgressOf(elapsed, totalSeconds) < 1.0
  {
    var elapsed := Elapsed(start, now, totalSeconds);
    if elapsed < totalSeconds {
      var q := elapsed / totalSeconds;
      assert (1.0 - q) * totalSeconds == totalSeconds - elapsed;
    } else {
      assert elapsed == totalSeconds;
    }
  }

  /** For a whole number of seconds, a frame completes the session exactly when
      it leaves no seconds remaining. */
  lemma CompleteIffNoTimeLeft(start: real, now: real, totalSeconds: int)
    requires totalSeconds > 0
    ensures var elapsed := Elapsed(start, now, totalSeconds as real);
      ProgressOf(elapsed, totalSeconds as real) >= 1.0 <==> Remaining(totalSeconds as real, elapsed.Floor) == 0.0
  {
    var total := totalSeconds as real;
    var elapsed := Elapsed(start, now, total);
    ScheduledIffNotComplete(start, now, total);
    if elapsed < total {
      assert elapsed.Floor < totalSeconds;
    } else {
      assert elapsed == total;
    }
  }

  /** Once time has started, the progress fraction lies in [0, 1] and the elapsed
      time in [0, totalSeconds]. */
  lemma ProgressInUnitInterval(start: real, now: real, totalSeconds: real)
    requires totalSeconds > 0.0 && now >= start
    ensures var elapsed := Elapsed(start, now, totalSeconds);
      && 0.0 <= elapsed <= totalSeconds
      && 0.0 <= ProgressOf(elapsed, totalSeconds) <= 1.0
  {
  }

  lemma QuotientMonotone(x: real, y: real, d: real)
    requires x <= y && d > 0.0
    ensures x / d <= y / d
  {
    assert y / d - x / d == (y - x) / d;
    assert (y - x) / d * d == y - x;
  }

  /** Later frames never move the timer backwards: progress and whole elapsed
      seconds are non-decreasing in the frame timestamp. */
  lemma TickMonotone(start: real, now1: real, now2: real, totalSeconds: real)
    requires totalSeconds > 0.0 && now1 <= now2
    ensures Elapsed(start, now1, totalSeconds) <= Elapsed(start, now2, totalSeconds)
    ensures ProgressOf(Elapsed(start, now1, totalSeconds), totalSeconds)
         <= ProgressOf(Elapsed(start, now2, totalSeconds), totalSeconds)
    ensures Elapsed(start, now1, totalSeconds).Floor <= Elapsed(start, now2, totalSeconds).Floor
  {
    var e1 := Elapsed(start, now1, totalSeconds);
    var e2 := Elapsed(start, now2, totalSeconds);
    assert (now1 - start) / 1000.0 <= (now2 - start) / 1000.0;
    assert e1 <= e2;
    QuotientMonotone(e1, e2, totalSeconds);
  }

  /** A sixty-second session, thirty seconds in: half done, thirty seconds left,
      not complete; at sixty seconds it is complete. */
  lemma HalfwayAndDone(start: real)
    ensures var e := Elapsed(start, start + 30000.0, 60.0);
      && ProgressOf(e, 60.0) == 0.5
      && e.Floor == 30
      && Remaining(60.0, e.Floor) == 30.0
      && ProgressOf(e, 60.0) < 1.0
    ensures var e := Elapsed(start, start + 60000.0, 60.0);
      && ProgressOf(e, 60.0) == 1.0
      && Remaining(60.0, e.Floor) == 0.0
  {
  }

  /** Three frames of a sixty-second session driven through the class. */
  method SessionScenario()
  {
    var timer := new Timer(60.0);
    assert !timer.IsComplete() && timer.RemainingSeconds() == 60.0;
    var more := timer.Tick(5000.0);
    assert timer.start == Some(5000.0) && timer.progress == 0.0 && more;
    more := timer.Tick(35000.0);
    assert timer.start == Some(5000.0);
    assert timer.progress == 0.5 && timer.RemainingSeconds() == 30.0 && more;
    more := timer.Tick(65000.0);
    assert timer.IsComplete() && timer.RemainingSeconds() == 0.0 && !more;
    timer.SetTotalSeconds(90.0);
    assert timer.start == Some(5000.0) && timer.IsComplete() && timer.RemainingSeconds() == 30.0;
    more := timer.Tick(85000.0);
    assert !timer.IsComplete() && timer.RemainingSeconds() == 10.0 && more;
  }
}
