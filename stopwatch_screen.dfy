/** The count-up stopwatch screen: a centisecond count `time` driven by an
    interval callback, start/pause/resume/reset handlers, and the choice of
    which buttons the screen shows. */
module StopwatchScreen {
  import opened Options

  // ---------------------------------------------------------------------
  // Clock arithmetic

  /** `Math.floor((Date.now() - startTimeRef.current) / 10)`: whole
      centiseconds since the anchor. */
  function TimeAt(now: int, startTime: int): (t: int)
    ensures t * 10 <= now - startTime < t * 10 + 10
  {
    (now - startTime) / 10
  }

  /** `Date.now() - time * 10`: the start instant that makes the current
      count come out at `now`. */
  function Anchor(now: int, time: int): int
  {
    now - time * 10
  }

  /** Start and resume re-anchor so that a tick at the same instant yields
      the count unchanged: pressing them never makes the count jump. */
  lemma ReanchorKeepsTime(now: int, time: int)
    ensures TimeAt(now, Anchor(now, time)) == time
  {
  }

  /** After re-anchoring at `resumeAt` with count `time`, the count is
      `time` plus the centiseconds since the resume: time spent stopped is
      not counted. */
  lemma ResumeCountsOnFromTime(time: int, resumeAt: int, now: int)
    ensures TimeAt(now, Anchor(resumeAt, time)) == time + TimeAt(now, resumeAt)
  {
    assert now - Anchor(resumeAt, time) == (now - resumeAt) + time * 10;
  }

  /** With the anchor fixed, ticks never make the count go down. */
  lemma TimeMonotone(startTime: int, t1: int, t2: int)
    requires t1 <= t2
    ensures TimeAt(t1, startTime) <= TimeAt(t2, startTime)
  {
  }

  // ---------------------------------------------------------------------
  // Which buttons are shown

  /** The three button groups under the ring (the "focus" button above them
      is always shown). */
  datatype ButtonGroup = PauseAndReset | StartOnly | ResumeAndReset

  /** `running ? <Pause/Reset> : (!running && time === 0 && <Start>)`
      followed by `!running && time > 0 && <Resume/Reset>`. */
  function VisibleGroups(running: bool, time: int): (g: set<ButtonGroup>)
    ensures PauseAndReset in g <==> running
    ensures StartOnly in g <==> !running && time == 0
    ensures ResumeAndReset in g <==> !running && time > 0
  {
    (if running then {PauseAndReset} else if time == 0 then {StartOnly} else {})
    + (if !running && time > 0 then {ResumeAndReset} else {})
  }

  /** For every count the stopwatch can show, exactly one group is visible. */
  lemma ExactlyOneGroup(running: bool, time: int)
    requires time >= 0
    ensures |VisibleGroups(running, time)| == 1
  {
    var g := VisibleGroups(running, time);
    if running {
      assert g == {PauseAndReset};
    } else if time == 0 {
      assert g == {StartOnly};
    } else {
      assert g == {ResumeAndReset};
    }
  }

  /** A stopped negative count (reachable only if the clock runs backwards)
      shows no group at all. */
  lemma NoGroupForNegativeTime(time: int)
    requires time < 0
    ensures VisibleGroups(false, time) == {}
  {
  }

  // ---------------------------------------------------------------------
  // The screen's state

  /** The handles of the host's armed intervals cleared by
      `clearInterval(intervalRef.current)`: the one in the ref, or none while
      the ref still holds its initial `null`. */
  function ClearedBy(intervalRef: Option<nat>): (c: set<nat>)
    ensures intervalRef.None? ==> c == {}
    ensures intervalRef.Some? ==> c == {intervalRef.value}
  {
    match intervalRef
    case None => {}
    case Some(h) => {h}
  }

  /** The screen's state `time` and `running`, its refs `startTime` and
      `intervalRef`, and, standing for the host's timers, the set `live` of
      armed interval handles and the next handle `setInterval` will return. */
  class Stopwatch {
    var time: int
    var running: bool
    var startTime: int
    var intervalRef: Option<nat>
    var live: set<nat>
    var nextHandle: nat

    /** Every handle the screen knows was issued by the host. */
    ghost predicate Valid()
      reads this
    {
      (forall h :: h in live ==> h < nextHandle) &&
      (intervalRef.Some? ==> intervalRef.value < nextHandle)
    }

    /** Mounting the screen. */
    constructor ()
      ensures Valid()
      ensures time == 0 && !running && startTime == 0
      ensures intervalRef == None && live == {}
    {
      time := 0;
      running := false;
      startTime := 0;
      intervalRef := None;
      live := {};
      nextHandle := 0;
    }

    /** `setInterval(tick, 10)`: arms one more interval and returns its handle. */
    method SetInterval() returns (h: nat)
      requires Valid()
      modifies this`live, this`nextHandle
      ensures Valid()
      ensures h !in old(live) && live == old(live) + {h}
    {
      h := nextHandle;
      live := live + {h};
      nextHandle := nextHandle + 1;
    }

    /** `startStopwatch()`: re-anchors, arms a new interval (without
      clearing one already armed) and runs. */
    method StartStopwatch(now: int)
      requires Valid()
      modifies this
      ensures Valid()
      ensures time == old(time) && running
      ensures startTime == Anchor(now, old(time))
      ensures intervalRef.Some? && intervalRef.value !in old(live)
      ensures live == old(live) + {intervalRef.value}
    {
      startTime := Anchor(now, time);
      var h := SetInterval();
      intervalRef := Some(h);
      running := true;
    }

    /** `resumeStopwatch()`: the same steps as `startStopwatch()`. */
    method ResumeStopwatch(now: int)
      requires Valid()
      modifies this
      ensures Valid()
      ensures time == old(time) && running
      ensures startTime == Anchor(now, old(time))
      ensures intervalRef.Some? && intervalRef.value !in old(live)
      ensures live == old(live) + {intervalRef.value}
    {
      StartStopwatch(now);
    }

    /** `pauseStopwatch()`: clears the interval last armed and stops; the
      count is kept. */
    method PauseStopwatch()
      requires Valid()
      modifies this
      ensures Valid()
      ensures !running && time == old(time) && startTime == old(startTime)
      ensures intervalRef == old(intervalRef)
      ensures live == old(live) - ClearedBy(old(intervalRef))
    {
      live := live - ClearedBy(intervalRef);
      running := false;
    }

    /** `resetStopwatch()`: clears the interval last armed, zeroes the count
      and stops. */
    method ResetStopwatch()
      requires Valid()
      modifies this
      ensures Valid()
      ensures !running && time == 0 && startTime == old(startTime)
      ensures intervalRef == old(intervalRef)
      ensures live == old(live) - ClearedBy(old(intervalRef))
    {
      live := live - ClearedBy(intervalRef);
      time := 0;
      running := false;
    }

    /** The interval body; the host runs it only while some interval is armed. */
    method IntervalTick(now: int)
      requires live != {}
      modifies this`time
      ensures time == TimeAt(now, startTime)
    {
      time := (now - startTime) / 10;
    }
  }

  // ---------------------------------------------------------------------
  // Scenarios

  /** Start, tick, pause, then resume any time later: a tick at the resume
      instant shows the count the screen showed when it was paused. */
  method PauseThenResume(t0: int, t1: int, t2: int)
    returns (atPause: int, atResume: int)
    ensures atPause == TimeAt(t1, t0)
    ensures atResume == atPause
  {
    var w := new Stopwatch();
    w.StartStopwatch(t0);
    w.IntervalTick(t1);
    atPause := w.time;
    w.PauseStopwatch();
    w.ResumeStopwatch(t2);
    ReanchorKeepsTime(t2, atPause);
    w.IntervalTick(t2);
    atResume := w.time;
  }

  /** Pressing "focus" while the stopwatch runs arms a second interval;
      "Pause" clears only the newer one, so the older keeps ticking and the
      count goes on advancing while the screen says it is paused. */
  method FocusWhileRunningThenPause(t0: int, t1: int, t2: int)
    returns (armed: nat, stillRunning: bool, count: int)
    requires t2 >= t1 + 10
    ensures armed == 1 && !stillRunning
    ensures count == TimeAt(t2, t1) && count > 0
  {
    var w := new Stopwatch();
    w.StartStopwatch(t0);
    var first := w.intervalRef.value;
    w.StartStopwatch(t1);
    w.PauseStopwatch();
    assert w.live == {first};
    armed := |w.live|;
    stillRunning := w.running;
    w.IntervalTick(t2);
    count := w.time;
  }
}
