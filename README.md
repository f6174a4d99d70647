# ZenTimer focus-timer engine, in Dafny

This project models the timing core of the ZenTimer mobile app and proves
properties of it:

- **Countdown engine** (`countdown.dfy`, module `Countdown`): the
  `useStopwatch` hook behind the focus timer. It keeps a start instant, the
  instant of the last pause and the total milliseconds spent paused. On every
  tick it recomputes the whole seconds elapsed,
  `floor((now - start - totalPaused) / 1000)`, and the seconds remaining,
  `max(0, initialTime - elapsed)`. When a tick reaches zero it marks the
  session completed and stops. The hook is the class `Countdown.Timer`. Its
  four operations are tied to pure transition functions on a `Snapshot` of
  the hook's state. The lemmas are stated over those functions: freedom from
  drift across any number of pause/resume cycles, monotone countdown, and
  completion stopping later ticks.
- **Count-up stopwatch screen** (`stopwatch_screen.dfy`, module
  `StopwatchScreen`): the screen's centisecond count `time`, its start,
  resume, pause and reset handlers, and the interval callback. The class
  `StopwatchScreen.Stopwatch` also records the host's armed intervals as
  handles, and the choice of visible button group is a function.
- **Display formatting** (`stopwatch_format.dfy`, module `StopwatchFormat`):
  `pad` and `formatTime`, which render a count as `MM:SS:CC`. Proved: the
  shape of the output, the field bounds, a round trip below one hour, and
  hourly wrap-around.
- **Reducers** (`reducers.dfy`, module `Reducers`, over the plain-object model
  in `jsobject.dfy`): `circleColorReducer` and `resetClicksReducer`.

The host clock `Date.now()` is an explicit `now: int` parameter of every
operation. Millisecond timestamps and counts are unbounded integers. Every
divisor in the source is positive, so Dafny's `/` gives the same floor as
`Math.floor`.

`startTimer` does not zero the accumulated pause, so a later session
inherits it (`Countdown.StartCarriesPauseTotal`,
`Countdown.StartKeepsEarlierPauses`). The hook raises no errors: it does not
reject a double start, nor a pause or resume in any state. A second pause
while paused overwrites the pause instant, so the following resume discounts
only the time since that second pause
(`Countdown.RepeatedPauseCountsFromLastPause`); freedom from drift holds for
one pause per resume. The hook has no reset. `resumeStopwatch` re-arms a completed session, so completion happens
once per run, not once per session (`Countdown.ResumeReArmsAfterCompletion`).
On the screen, `startStopwatch` never clears an interval already armed. The
always-visible "focus" button can therefore arm a second interval that
"Pause" does not clear (`StopwatchScreen.FocusWhileRunningThenPause`).

## Model

| member | source | states |
|---|---|---|
| `Countdown.ElapsedAt` | hooks/useStopwatch.js:44-46 | the elapsed value is the floor of running milliseconds over 1000: `e*1000 <= now - start - totalPaused < e*1000 + 1000` |
| `Countdown.RemainingAfter` | hooks/useStopwatch.js:48 | remaining is never negative, is either 0 or `initialTime - elapsed`, and never exceeds `initialTime` when elapsed and initial time are non-negative |
| `Countdown.Mounted` | hooks/useStopwatch.js:12-18 | a mounted hook is stopped, not completed, with zero elapsed time and zero refs, over the store's two counters |
| `Countdown.Start` | hooks/useStopwatch.js:20-24 | start sets the duration, the start instant and running; accumulated pause, pause instant, elapsed time, completion flag and remaining time are kept (not zeroed) |
| `Countdown.Pause` | hooks/useStopwatch.js:26-29 | pause records the pause instant and clears running, and nothing else changes |
| `Countdown.Resume` | hooks/useStopwatch.js:31-37 | while running, resume changes nothing; otherwise it adds exactly `now - pauseTime` to the accumulated pause, sets running, and changes nothing else |
| `Countdown.Tick` | hooks/useStopwatch.js:40-57 | a tick while stopped is a no-op; while running it sets elapsed and remaining from the clock, stops exactly when remaining is 0, then sets the completion flag, and never moves the references or the duration |
| `Countdown.TicksKeepReferences` | hooks/useStopwatch.js:40-57 | any run of ticks leaves the start instant, pause instant, accumulated pause and duration unchanged |
| `Countdown.StoppedTicksAreNoOps` | hooks/useStopwatch.js:40-41 | any number of ticks on a stopped engine leaves the state unchanged |
| `Countdown.CompletionIsFinalForTicks` | hooks/useStopwatch.js:52-55 | a tick that computes 0 remaining sets the completion flag and stops, and every later tick leaves that state unchanged |
| `Countdown.ResumeReArmsAfterCompletion` | hooks/useStopwatch.js:31-37 | resume on a completed, stopped session runs it again and the completion flag stays set |
| `Countdown.ElapsedMonotone` | hooks/useStopwatch.js:44-46 | with fixed references, elapsed seconds never decrease as the clock advances |
| `Countdown.RemainingNonIncreasing` | hooks/useStopwatch.js:44-55 | from a running state, a later tick never reports more seconds remaining than an earlier one |
| `Countdown.NoDrift` | hooks/useStopwatch.js:26-46 | from any state, after pause then resume the engine runs, and elapsed at the resume instant equals elapsed at the pause instant, whatever the pause length |
| `Countdown.PausesAccumulate` | hooks/useStopwatch.js:26-37 | after one or more pause/resume cycles from any state (or none from a running state), the engine runs from the same start instant and duration, and its accumulated pause has grown by exactly the total time paused |
| `Countdown.ElapsedCountsRunningTimeOnly` | hooks/useStopwatch.js:26-46 | after any pause/resume cycles from any state, elapsed equals that of an engine that never paused, read the total pause length earlier |
| `Countdown.RepeatedPauseCountsFromLastPause` | hooks/useStopwatch.js:26-37 | a second pause while paused moves the pause instant: the resume adds only `resumeAt - pause2`, and elapsed at the resume equals elapsed at the second pause |
| `Countdown.RepeatedPauseExample` | hooks/useStopwatch.js:26-37 | started at 0, paused at 10 s and again at 20 s, resumed at 30 s: 20 elapsed seconds, not 10 |
| `Countdown.DriftFreeSession` | hooks/useStopwatch.js:20-55 | start for D seconds, run r1 ms, pause any time, run r2 ms: the tick reports `max(0, D - floor((r1+r2)/1000))`, when no earlier pause was accumulated |
| `Countdown.StartCarriesPauseTotal` | hooks/useStopwatch.js:20-46 | for every state, the first tick after start measures elapsed time from the new start instant minus the old accumulated pause, which start keeps |
| `Countdown.StartKeepsEarlierPauses` | hooks/useStopwatch.js:20-24 | after an earlier 5 s pause, a 10 s session reports 14 s remaining one second after its start, because start keeps the old pause total |
| `Countdown.Timer.constructor` | hooks/useStopwatch.js:12-18 | the hook's initial state is the mounted snapshot |
| `Countdown.Timer.StartTimer` | hooks/useStopwatch.js:20-24 | the new state is `Start` of the old state |
| `Countdown.Timer.PauseStopwatch` | hooks/useStopwatch.js:26-29 | the new state is `Pause` of the old state |
| `Countdown.Timer.ResumeStopwatch` | hooks/useStopwatch.js:31-37 | the new state is `Resume` of the old state |
| `Countdown.Timer.UpdateTime` | hooks/useStopwatch.js:40-57 | the new state is `Tick` of the old state |
| `Countdown.PauseThenResume` | hooks/useStopwatch.js:20-57 | using the hook's methods, ticks at the pause and resume instants report the same elapsed seconds, even when the first tick completed the session |
| `StopwatchFormat.NatToString` | screens/StopwatchScreen/StopwatchScreen.js:23 | `toString` of a non-negative integer is a non-empty string of digits, one digit exactly below 10, with no leading zero |
| `StopwatchFormat.NatToStringRoundTrip` | screens/StopwatchScreen/StopwatchScreen.js:23 | the decimal digits read back give the number |
| `StopwatchFormat.PadStart` | screens/StopwatchScreen/StopwatchScreen.js:23 | `padStart` returns a long enough string unchanged; otherwise it fills to the target length on the left with the fill character, keeping the string as the suffix |
| `StopwatchFormat.Pad` | screens/StopwatchScreen/StopwatchScreen.js:22-24 | `pad` yields at least two digits, exactly two precisely when the number is below 100 |
| `StopwatchFormat.PadRoundTrip` | screens/StopwatchScreen/StopwatchScreen.js:22-24 | below 100, `pad` is the tens digit then the units digit, and those read back as the number |
| `StopwatchFormat.Minutes` | screens/StopwatchScreen/StopwatchScreen.js:46 | minutes are in [0, 60) |
| `StopwatchFormat.Seconds` | screens/StopwatchScreen/StopwatchScreen.js:47 | seconds are in [0, 60) |
| `StopwatchFormat.Centis` | screens/StopwatchScreen/StopwatchScreen.js:48 | centiseconds are in [0, 100) |
| `StopwatchFormat.FormatTime` | screens/StopwatchScreen/StopwatchScreen.js:45-50 | the display is always 8 characters, `DD:DD:DD` |
| `StopwatchFormat.FieldsRecombine` | screens/StopwatchScreen/StopwatchScreen.js:46-48 | below one hour, `minutes*6000 + seconds*100 + centis == t` |
| `StopwatchFormat.FormatRoundTrip` | screens/StopwatchScreen/StopwatchScreen.js:45-50 | below one hour, reading the display back gives the count |
| `StopwatchFormat.FormatInjectiveBelowHour` | screens/StopwatchScreen/StopwatchScreen.js:45-50 | two counts below one hour with the same display are equal |
| `StopwatchFormat.FormatWrapsHourly` | screens/StopwatchScreen/StopwatchScreen.js:46 | the minutes wrap: counts one hour apart show the same display |
| `StopwatchScreen.TimeAt` | screens/StopwatchScreen/StopwatchScreen.js:28-30 | the tick count is the floor of centiseconds since the anchor: `t*10 <= now - start < t*10 + 10` |
| `StopwatchScreen.ReanchorKeepsTime` | screens/StopwatchScreen/StopwatchScreen.js:26-30 | re-anchoring at `now - time*10` makes a tick at the same instant yield `time` unchanged |
| `StopwatchScreen.ResumeCountsOnFromTime` | screens/StopwatchScreen/StopwatchScreen.js:52-58 | after resuming with count `time`, a later tick counts `time` plus the centiseconds since the resume |
| `StopwatchScreen.TimeMonotone` | screens/StopwatchScreen/StopwatchScreen.js:29 | with a fixed anchor the count never decreases as the clock advances |
| `StopwatchScreen.VisibleGroups` | screens/StopwatchScreen/StopwatchScreen.js:114-156 | Pause+Reset is shown iff running, Start iff stopped with count 0, Resume+Reset iff stopped with a positive count |
| `StopwatchScreen.ExactlyOneGroup` | screens/StopwatchScreen/StopwatchScreen.js:114-156 | for every non-negative count exactly one group is visible |
| `StopwatchScreen.NoGroupForNegativeTime` | screens/StopwatchScreen/StopwatchScreen.js:131-141 | a stopped negative count shows no group |
| `StopwatchScreen.ClearedBy` | screens/StopwatchScreen/StopwatchScreen.js:35 | `clearInterval(intervalRef.current)` clears exactly the interval held in the ref, and nothing while the ref is still `null` |
| `StopwatchScreen.Stopwatch.constructor` | screens/StopwatchScreen/StopwatchScreen.js:16-19 | the screen mounts with count 0, stopped, anchor 0, no interval handle and none armed |
| `StopwatchScreen.Stopwatch.SetInterval` | screens/StopwatchScreen/StopwatchScreen.js:28 | `setInterval` arms exactly one new interval with a handle not already armed |
| `StopwatchScreen.Stopwatch.StartStopwatch` | screens/StopwatchScreen/StopwatchScreen.js:26-32 | start keeps the count, anchors at `now - time*10`, runs, and adds one new interval to those armed without clearing any |
| `StopwatchScreen.Stopwatch.ResumeStopwatch` | screens/StopwatchScreen/StopwatchScreen.js:52-58 | resume does exactly what start does |
| `StopwatchScreen.Stopwatch.PauseStopwatch` | screens/StopwatchScreen/StopwatchScreen.js:34-37 | pause stops, keeps the count and the anchor, and disarms only the interval last armed |
| `StopwatchScreen.Stopwatch.ResetStopwatch` | screens/StopwatchScreen/StopwatchScreen.js:39-43 | reset stops, zeroes the count, and disarms only the interval last armed |
| `StopwatchScreen.Stopwatch.IntervalTick` | screens/StopwatchScreen/StopwatchScreen.js:28-30 | a tick sets the count to the centiseconds since the anchor |
| `StopwatchScreen.PauseThenResume` | screens/StopwatchScreen/StopwatchScreen.js:26-58 | start, tick, pause, then resume any time later: a tick at the resume instant shows the count shown at the pause |
| `StopwatchScreen.FocusWhileRunningThenPause` | screens/StopwatchScreen/StopwatchScreen.js:26-37 | two starts then a pause leave one interval armed, and its tick advances the count while the screen is stopped |
| `JsObject.SpreadWith` | reducers/circleColorReducer.js:12-15 | the spread sets the key to the value and keeps every other property, adding none |
| `Reducers.CircleColorReducer` | reducers/circleColorReducer.js:9-19 | SET_CIRCLE_COLOR sets `circleColor` to the payload and keeps every other property; any other action returns the state, or the initial state when none is given |
| `Reducers.CircleColorDefault` | reducers/circleColorReducer.js:3-9 | with no state, any other action yields `{ circleColor: skyBlue }` |
| `Reducers.CircleColorIdempotent` | reducers/circleColorReducer.js:11-15 | applying the same SET_CIRCLE_COLOR twice equals applying it once |
| `Reducers.ResetClicksReducer` | reducers/resetClicksReducer.js:7-17 | SET_RESET_CLICKS sets `resetClicks` to the payload and keeps every other property; any other action returns the state, or the initial state when none is given |
| `Reducers.ResetClicksDefault` | reducers/resetClicksReducer.js:1-7 | with no state, any other action yields `{ resetClicks: 0 }` |
| `Reducers.ResetClicksLastWriteWins` | reducers/resetClicksReducer.js:9-13 | two successive SET_RESET_CLICKS actions leave the second payload, as if the first had not happened |

## Left out

- Timer scheduling: `useInterval(updateTime, running ? 1000 : null)` in the hook and the host's interval callbacks on the screen are not modelled. A tick is an explicit call taking `now`. On the screen the armed intervals are recorded only as a set of handles.
- `Date.now()` is the parameter `now`. The model does not assume the clock is monotone.
- Redux plumbing: `useSelector`, `useDispatch` and the action creators. The store's `initialTime` and `remainingTime` are plain fields, and dispatching a new value writes the field.
- React state timing: setters such as `setRunning` take effect on the next render, and the closures read the values of the render that created them. The model applies every update at once. A call that lands between a setter and the re-render is not captured.
- The session-start handlers (`handleNoActivityNoTime`, `handleActivityNoTime`, `handleNoActivityTime`, `handleActivityTime`) and their message and dispatch order: their code is not part of this model.
- The hook has no error cases, no reset, and no guard against a double start; the model has none either.
- `StopwatchFormat.FormatTime`: defined for non-negative counts only. A negative count (reachable only if the clock runs backwards) would make JavaScript's truncating `%` and `toString` produce a minus sign. That case is not modelled.
- Floating point: JavaScript numbers are unbounded integers here. `formatTime` divides in floating point; the model uses exact integer division, which gives the same result for counts of practical size.
- The SVG progress ring (`2 * Math.PI * 150`, `strokeDashoffset`), the style sheet and all rendering.
- The literal value of `skyBlue`: the style sheet that defines it is not part of this model. It is the opaque `StyleConst("skyBlue")`.
- Property order of JavaScript objects: objects are finite maps.
- Object identity: objects compare by value. Each reducer's SET branch returns a new object even when nothing changes, and its default branch returns the same object; Redux's `===` change detection is not modelled, so `Reducers.CircleColorIdempotent` and `Reducers.ResetClicksLastWriteWins` are equalities of values, not of references.
- The login and signup screens, navigation, the resend timer, the bundler configuration and the tests of other modules: outside the timing core.
