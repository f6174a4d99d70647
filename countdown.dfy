/** The focus-timer countdown engine of the `useStopwatch` hook.

    The engine never counts ticks: every tick recomputes the whole seconds
    elapsed from millisecond timestamps (the start instant and the total
    time spent paused) and derives the seconds remaining from them. The
    host clock `Date.now()` is an explicit `now` parameter of every
    operation. */
module Countdown {

  // ---------------------------------------------------------------------
  // Wall-clock arithmetic

  /** `Math.floor((now - start - totalPaused) / 1000)`: whole seconds of
      running time. The divisor is positive, so Dafny's `/` is the floor. */
  function ElapsedAt(now: int, startTime: int, totalPaused: int): (e: int)
    ensures e * 1000 <= now - startTime - totalPaused < e * 1000 + 1000
  {
    (now - startTime - totalPaused) / 1000
  }

  /** `Math.max(0, initialTime - elapsed)`. */
  function RemainingAfter(initialTime: int, elapsed: int): (r: int)
    ensures r >= 0 && r >= initialTime - elapsed
    ensures r == 0 || r == initialTime - elapsed
    ensures 0 <= elapsed && 0 <= initialTime ==> r <= initialTime
  {
    if initialTime - elapsed > 0 then initialTime - elapsed else 0
  }

  // ---------------------------------------------------------------------
  // The hook's state and its transitions

  /** Everything the hook keeps: the store's `initialTime` and
      `remainingTime`, the React state `elapsedTime`, `timeCompleted` and
      `running`, and the refs `startTime`, `pauseTime`, `totalPaused`. */
  datatype Snapshot = Snapshot(
    initialTime: int,
    remainingTime: int,
    elapsedTime: int,
    running: bool,
    timeCompleted: bool,
    startTime: int,
    pauseTime: int,
    totalPaused: int)

  /** The state of a freshly mounted hook over the store's two counters. */
  function Mounted(initialTime: int, remainingTime: int): (s: Snapshot)
    ensures !s.running && !s.timeCompleted && s.elapsedTime == 0
    ensures s.startTime == 0 && s.pauseTime == 0 && s.totalPaused == 0
    ensures s.initialTime == initialTime && s.remainingTime == remainingTime
  {
    Snapshot(initialTime, remainingTime, 0, false, false, 0, 0, 0)
  }

  /** `startTimer(duration)`: stores the duration, anchors the start instant
      and runs. The accumulated pause, the elapsed seconds and the
      completion flag are kept as they are. */
  function Start(s: Snapshot, duration: int, now: int): (r: Snapshot)
    ensures r.running && r.initialTime == duration && r.startTime == now
    ensures r.totalPaused == s.totalPaused && r.pauseTime == s.pauseTime
    ensures r.elapsedTime == s.elapsedTime && r.timeCompleted == s.timeCompleted
    ensures r.remainingTime == s.remainingTime
  {
    s.(initialTime := duration, startTime := now, running := true)
  }

  /** `pauseStopwatch()`: records the pause instant and stops. */
  function Pause(s: Snapshot, now: int): (r: Snapshot)
    ensures !r.running && r.pauseTime == now
    ensures r.startTime == s.startTime && r.totalPaused == s.totalPaused
    ensures r.initialTime == s.initialTime && r.remainingTime == s.remainingTime
    ensures r.elapsedTime == s.elapsedTime && r.timeCompleted == s.timeCompleted
  {
    s.(pauseTime := now, running := false)
  }

  /** `resumeStopwatch()`: only when not running, adds the gap since the
      recorded pause instant to the accumulated pause and runs again. */
  function Resume(s: Snapshot, now: int): (r: Snapshot)
    ensures s.running ==> r == s
    ensures !s.running ==> r.running && r.totalPaused - s.totalPaused == now - s.pauseTime
    ensures !s.running ==> r == s.(totalPaused := r.totalPaused, running := true)
  {
    if s.running then s
    else s.(totalPaused := s.totalPaused + (now - s.pauseTime), running := true)
  }

  /** `updateTime()`, the tick body. When not running nothing happens.
      Otherwise elapsed and remaining seconds are recomputed from the clock;
      reaching zero marks the session completed and stops it. */
  function Tick(s: Snapshot, now: int): (r: Snapshot)
    ensures !s.running ==> r == s
    ensures s.running ==> r.elapsedTime == ElapsedAt(now, s.startTime, s.totalPaused)
    ensures s.running ==> r.remainingTime == RemainingAfter(s.initialTime, r.elapsedTime)
    ensures s.running ==> (r.running <==> r.remainingTime != 0)
    ensures s.running ==> (r.timeCompleted <==> s.timeCompleted || r.remainingTime == 0)
    ensures r.initialTime == s.initialTime && r.startTime == s.startTime
    ensures r.pauseTime == s.pauseTime && r.totalPaused == s.totalPaused
  {
    if !s.running then s
    else
      var elapsed := ElapsedAt(now, s.startTime, s.totalPaused);
      var remaining := RemainingAfter(s.initialTime, elapsed);
      var r := s.(elapsedTime := elapsed, remainingTime := remaining);
      if remaining == 0 then r.(timeCompleted := true, running := false) else r
  }

  // ---------------------------------------------------------------------
  // Runs of ticks

  /** The state after the ticks at the instants `ts`, in order. */
  function RunTicks(s: Snapshot, ts: seq<int>): Snapshot
    decreases |ts|
  {
    if ts == [] then s else RunTicks(Tick(s, ts[0]), ts[1..])
  }

  /** Ticks never move the time references or the target duration, so a
      pause or resume interleaved with ticks sees the same references. */
  lemma {:induction false} TicksKeepReferences(s: Snapshot, ts: seq<int>)
    ensures RunTicks(s, ts).startTime == s.startTime
    ensures RunTicks(s, ts).totalPaused == s.totalPaused
    ensures RunTicks(s, ts).pauseTime == s.pauseTime
    ensures RunTicks(s, ts).initialTime == s.initialTime
    decreases |ts|
  {
    if ts != [] {
      TicksKeepReferences(Tick(s, ts[0]), ts[1..]);
    }
  }

  /** While the engine is stopped every tick is a no-op, however many arrive. */
  lemma {:induction false} StoppedTicksAreNoOps(s: Snapshot, ts: seq<int>)
    requires !s.running
    ensures RunTicks(s, ts) == s
    decreases |ts|
  {
    if ts != [] {
      StoppedTicksAreNoOps(Tick(s, ts[0]), ts[1..]);
    }
  }

  /** A tick that computes zero seconds remaining completes the session and
      every later tick leaves the state as that tick left it (until a start
      or resume runs the engine again). */
  lemma CompletionIsFinalForTicks(s: Snapshot, now: int, later: seq<int>)
    requires s.running && Tick(s, now).remainingTime == 0
    ensures Tick(s, now).timeCompleted && !Tick(s, now).running
    ensures RunTicks(Tick(s, now), later) == Tick(s, now)
  {
    StoppedTicksAreNoOps(Tick(s, now), later);
  }

  /** Resume after completion re-arms the engine: completion is not final
      for resume, and the flag `timeCompleted` stays set. */
  lemma ResumeReArmsAfterCompletion(s: Snapshot, now: int)
    requires s.timeCompleted && !s.running
    ensures Resume(s, now).running && Resume(s, now).timeCompleted
  {
  }

  /** With the references fixed, the elapsed seconds never decrease as the
      clock advances. */
  lemma ElapsedMonotone(startTime: int, totalPaused: int, t1: int, t2: int)
    requires t1 <= t2
    ensures ElapsedAt(t1, startTime, totalPaused) <= ElapsedAt(t2, startTime, totalPaused)
  {
  }

  /** Two ticks while running, the second no earlier than the first: the
      remaining seconds never go up. */
  lemma RemainingNonIncreasing(s: Snapshot, t1: int, t2: int)
    requires s.running && t1 <= t2
    ensures Tick(Tick(s, t1), t2).remainingTime <= Tick(s, t1).remainingTime
  {
    var a := Tick(s, t1);
    if a.running {
      ElapsedMonotone(s.startTime, s.totalPaused, t1, t2);
    }
  }

  // ---------------------------------------------------------------------
  // Freedom from drift across pause and resume

  /** The elapsed seconds evaluated at the resume instant, after resume,
      equal those evaluated at the pause instant, before pause, however long
      the pause lasted, whether the engine was running, stopped or completed
      when paused. */
  lemma NoDrift(s: Snapshot, pauseAt: int, resumeAt: int)
    ensures Resume(Pause(s, pauseAt), resumeAt).running
    ensures ElapsedAt(resumeAt, Resume(Pause(s, pauseAt), resumeAt).startTime,
                      Resume(Pause(s, pauseAt), resumeAt).totalPaused)
         == ElapsedAt(pauseAt, s.startTime, s.totalPaused)
  {
  }

  /** One pause at `pauseAt` followed by a resume at `resumeAt`. */
  datatype PauseSpan = PauseSpan(pauseAt: int, resumeAt: int)

  /** Total milliseconds spent in the pauses `spans`. */
  function PausedMs(spans: seq<PauseSpan>): int
    decreases |spans|
  {
    if spans == [] then 0 else (spans[0].resumeAt - spans[0].pauseAt) + PausedMs(spans[1..])
  }

  /** The state after pausing and resuming once per span, in order. */
  function PauseResumeAll(s: Snapshot, spans: seq<PauseSpan>): Snapshot
    decreases |spans|
  {
    if spans == [] then s
    else PauseResumeAll(Resume(Pause(s, spans[0].pauseAt), spans[0].resumeAt), spans[1..])
  }

  /** Over any number of pause/resume cycles the engine keeps running from
      the same start instant and has accumulated exactly the time paused.
      A first cycle may start from a stopped or completed engine: its pause
      records the pause instant whatever the state. */
  lemma {:induction false} PausesAccumulate(s: Snapshot, spans: seq<PauseSpan>)
    requires s.running || spans != []
    ensures PauseResumeAll(s, spans).running
    ensures PauseResumeAll(s, spans).startTime == s.startTime
    ensures PauseResumeAll(s, spans).initialTime == s.initialTime
    ensures PauseResumeAll(s, spans).totalPaused == s.totalPaused + PausedMs(spans)
    decreases |spans|
  {
    if spans != [] {
      PausesAccumulate(Resume(Pause(s, spans[0].pauseAt), spans[0].resumeAt), spans[1..]);
    }
  }

  /** Consequently the elapsed seconds after any pause/resume cycles count
      running time only: they equal the elapsed seconds of an engine that
      never paused, read `PausedMs(spans)` milliseconds earlier. */
  lemma ElapsedCountsRunningTimeOnly(s: Snapshot, spans: seq<PauseSpan>, now: int)
    ensures ElapsedAt(now, PauseResumeAll(s, spans).startTime, PauseResumeAll(s, spans).totalPaused)
         == ElapsedAt(now - PausedMs(spans), s.startTime, s.totalPaused)
  {
    if spans != [] {
      PausesAccumulate(s, spans);
    }
  }

  /** A second pause while paused overwrites the pause instant, so the
      resume that follows discounts only the time since the second pause:
      the elapsed seconds at the resume instant are those at the second
      pause instant, and the time between the two pauses counts as running. */
  lemma RepeatedPauseCountsFromLastPause(s: Snapshot, pause1: int, pause2: int, resumeAt: int)
    ensures Resume(Pause(Pause(s, pause1), pause2), resumeAt).totalPaused
         == s.totalPaused + (resumeAt - pause2)
    ensures ElapsedAt(resumeAt, s.startTime, Resume(Pause(Pause(s, pause1), pause2), resumeAt).totalPaused)
         == ElapsedAt(pause2, s.startTime, s.totalPaused)
  {
  }

  /** For instance: started at 0, paused at 10 s, paused again at 20 s and
      resumed at 30 s, the engine reports 20 elapsed seconds, not 10. */
  lemma RepeatedPauseExample(s: Snapshot)
    requires s.startTime == 0 && s.totalPaused == 0
    ensures ElapsedAt(30000, 0, Resume(Pause(Pause(s, 10000), 20000), 30000).totalPaused) == 20
  {
  }

  /** A session started for `duration` seconds at `t0`, run for `run1` ms,
      paused for `paused` ms, then run for `run2` ms: the tick then reports
      the duration less the whole seconds of running time, whatever `paused`
      was, provided the session starts with no accumulated pause. */
  lemma DriftFreeSession(s: Snapshot, duration: int, t0: int, run1: nat, paused: nat, run2: nat)
    requires s.totalPaused == 0
    ensures
      var afterStart := Start(s, duration, t0);
      var resumed := Resume(Pause(afterStart, t0 + run1), t0 + run1 + paused);
      Tick(resumed, t0 + run1 + paused + run2).remainingTime
        == RemainingAfter(duration, (run1 + run2) / 1000)
  {
  }

  /** A new session carries over the pause total of earlier sessions: the
      first tick after `startTimer` measures from the new start instant but
      still subtracts the old accumulated pause. */
  lemma StartCarriesPauseTotal(s: Snapshot, duration: int, t0: int, now: int)
    ensures Tick(Start(s, duration, t0), now).elapsedTime == ElapsedAt(now, t0, s.totalPaused)
    ensures Tick(Start(s, duration, t0), now).totalPaused == s.totalPaused
  {
  }

  /** `startTimer` does not clear the pause accumulated by an earlier
      session: a session started after one that paused for five seconds
      reports, one second in, more seconds remaining than it was started
      with. */
  lemma StartKeepsEarlierPauses(s: Snapshot)
    requires s.totalPaused == 5000
    ensures Tick(Start(s, 10, 100000), 101000).remainingTime == 14
  {
  }

  // ---------------------------------------------------------------------
  // The hook itself

  /** The hook's state held as mutable fields; each operation takes the
      clock reading `now` in place of `Date.now()`. */
  class Timer {
    var initialTime: int
    var remainingTime: int
    var elapsedTime: int
    var running: bool
    var timeCompleted: bool
    var startTime: int
    var pauseTime: int
    var totalPaused: int

    function State(): Snapshot
      reads this
    {
      Snapshot(initialTime, remainingTime, elapsedTime, running, timeCompleted,
               startTime, pauseTime, totalPaused)
    }

    /** Mounting the hook over a store holding `initialTime` and `remainingTime`. */
    constructor (initialTime: int, remainingTime: int)
      ensures State() == Mounted(initialTime, remainingTime)
    {
      this.initialTime := initialTime;
      this.remainingTime := remainingTime;
      elapsedTime := 0;
      timeCompleted := false;
      running := false;
      startTime := 0;
      pauseTime := 0;
      totalPaused := 0;
    }

    method StartTimer(duration: int, now: int)
      modifies this
      ensures State() == Start(old(State()), duration, now)
    {
      initialTime := duration;
      startTime := now;
      running := true;
    }

    method PauseStopwatch(now: int)
      modifies this
      ensures State() == Pause(old(State()), now)
    {
      pauseTime := now;
      running := false;
    }

    method ResumeStopwatch(now: int)
      modifies this
      ensures State() == Resume(old(State()), now)
    {
      if !running {
        totalPaused := totalPaused + (now - pauseTime);
        running := true;
      }
    }

    method UpdateTime(now: int)
      modifies this
      ensures State() == Tick(old(State()), now)
    {
      if running {
        var elapsed := (now - startTime - totalPaused) / 1000;
        var remaining := if initialTime - elapsed > 0 then initialTime - elapsed else 0;
        elapsedTime := elapsed;
        remainingTime := remaining;
        if remaining == 0 {
          timeCompleted := true;
          running := false;
        }
      }
    }
  }

  /** A client of the hook: start, tick at the pause instant, pause,
      resume any time later and tick at the resume instant. Both ticks report
      the same elapsed seconds, however long the pause lasted, and even if the
      first tick completed the session (resume runs it again). */
  method PauseThenResume(duration: int, t0: int, pauseAt: int, resumeAt: int)
    returns (atPause: int, atResume: int)
    ensures atPause == ElapsedAt(pauseAt, t0, 0)
    ensures atResume == atPause
  {
    var timer := new Timer(duration, duration);
    timer.StartTimer(duration, t0);
    timer.UpdateTime(pauseAt);
    atPause := timer.elapsedTime;
    timer.PauseStopwatch(pauseAt);
    timer.ResumeStopwatch(resumeAt);
    timer.UpdateTime(resumeAt);
    atResume := timer.elapsedTime;
  }
}
