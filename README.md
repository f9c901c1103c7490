# TomatoClock timer core in Dafny

A model of the logic inside the `App` component of TomatoClock, a
Pomodoro timer written in React. The model covers four parts:

- **The phase/session state machine** (`pomodoro.dfy`, module `Pomodoro`). The
  component keeps five pieces of state: `mode`, `sessions`, `timeLeft`,
  `isRunning` and `isBreak`. The phase lengths are fixed at 1500, 300 and 900
  seconds. A once-per-second interval callback counts `timeLeft` down. When it
  runs out, the callback stops the timer and moves to the next phase. Every 4th
  completed work session leads to a long break. The pure functions on `State`
  are the specification. The class `Timer` has the same five fields and updates
  them in place through its methods `Tick`, `Start`, `Pause`, `Reset` and
  `Skip`. Each method is proved against its function and keeps the invariant
  `Consistent`:
  - `isBreak` holds exactly when the mode is not work;
  - `1 <= timeLeft <= Duration(mode)`;
  - the kind of break agrees with the session count.
- **`formatTime`** (`time_format.dfy`, module `TimeFormat`). It turns seconds
  into `MM:SS`, with the number-to-text step and the zero padding written out.
  A parser `ParseTime` reads the text back, and the round trip is proved.
- **The beep schedules** (`alarm.dfy`, module `Alarm`). Each sound is reduced
  to integer millisecond offsets: beep `i` is queued at `i * beepGap`. The test
  run also queues one auto-stop at `beepCount * beepGap + durationMs`.
- **The upload validator** (`audio_upload.dfy`, module `AudioUpload`). It checks
  the MIME type first, then the 5 MB size limit.

`wrappers.dfy` holds the shared `Option` type.

The countdown follows the code: it is the plain decrement-per-callback kind,
with no wall-clock anchor and no drift correction. A skip applies the same
transition as a natural completion but raises no notification and plays no
sound. Nothing stops the notification beeps once they are queued.

## Model

| member | source | states |
|---|---|---|
| `Pomodoro.Duration` | src/App.jsx:24-26 | every phase has a positive length, and work (1500 s) is the longest |
| `Pomodoro.Initial` | src/App.jsx:5-9 | the mount state is a consistent, stopped work phase with 0 sessions and 1500 s left |
| `Pomodoro.Complete` | src/App.jsx:37-65 | the end of a phase stops the timer and makes exactly one transition. Work: sessions + 1, then a long break iff the new count is a multiple of 4, otherwise a short break, with `isBreak` set. A break: back to work, sessions unchanged, `isBreak` cleared. The new `timeLeft` is the new phase's length, and the result is consistent |
| `Pomodoro.AfterTick` | src/App.jsx:36-70 | a tick keeps the invariant; while more than 1 s is left it takes off exactly one second and keeps mode and sessions |
| `Pomodoro.AfterSkip` | src/App.jsx:230-250 | skipping, with its own copy of the transition code, gives exactly the natural-completion state |
| `Pomodoro.AfterReset` | src/App.jsx:222-228 | reset gives the mount state from any state: stopped, work phase, 0 sessions, 1500 s |
| `Pomodoro.AfterStart` | src/App.jsx:214-216 | start sets `isRunning`, changes no other field and keeps the invariant |
| `Pomodoro.AfterPause` | src/App.jsx:218-220 | pause clears `isRunning`, changes no other field and keeps the invariant |
| `Pomodoro.TicksCountDown` | src/App.jsx:36-69 | before the countdown runs out, `k` ticks take exactly `k` seconds off and change nothing else |
| `Pomodoro.PhaseEndsAfterTimeLeftTicks` | src/App.jsx:36-70 | a phase with `timeLeft` seconds left keeps its mode for `timeLeft - 1` ticks and ends on the `timeLeft`-th tick with one transition |
| `Pomodoro.SkipMatchesNaturalCompletion` | src/App.jsx:230-250 | skipping a consistent state gives the same state as ticking until the phase runs out |
| `Pomodoro.SkipCycle` | src/App.jsx:230-250 | repeated skips from mount alternate work and break. After `2k` skips the state is work with `k` sessions. After `2k+1` skips it is a break with `k+1` sessions, long iff `k+1` is a multiple of 4 |
| `Pomodoro.FourthBreakIsLong` | src/App.jsx:236-244 | the 4th work session leads to a long break, and the 3rd and 5th to short ones |
| `Pomodoro.Apply` | src/App.jsx:33-250 | one event: a tick changes nothing unless running, reset gives the mount state, start runs and pause and skip stop the timer; every event keeps the invariant, and only reset lowers `sessions` |
| `Pomodoro.RunKeepsConsistent` | src/App.jsx:33-250 | every sequence of ticks (only while running) and button presses keeps the invariant |
| `Pomodoro.SessionsOnlyGrowWithoutReset` | src/App.jsx:46-48 | without a reset press, the session count never decreases over any event sequence |
| `Pomodoro.Timer.constructor` | src/App.jsx:5-9 | the fields start at the mount state |
| `Pomodoro.Timer.Tick` | src/App.jsx:35-71 | while running: the new fields are `AfterTick` of the old ones. A notice, standing for the `playNotification` call, is raised iff `timeLeft <= 1`. The notice is "work complete" when the finished phase was work, else "break over" |
| `Pomodoro.Timer.Start` | src/App.jsx:214-216 | the fields become `AfterStart` of the old ones, and the invariant is kept |
| `Pomodoro.Timer.Pause` | src/App.jsx:218-220 | the fields become `AfterPause` of the old ones, and the invariant is kept |
| `Pomodoro.Timer.Reset` | src/App.jsx:222-228 | the fields become the mount state from any state |
| `Pomodoro.Timer.Skip` | src/App.jsx:230-250 | the fields become `AfterSkip` of the old ones (the natural-completion transition), with no notice |
| `TimeFormat.NatToString` | src/App.jsx:255 | `toString()` of a natural number below 10^21 is a non-empty digit string, with at most two digits below 100 |
| `TimeFormat.NatToStringShape` | src/App.jsx:255 | that text has one digit iff the number is below 10, and never a leading zero |
| `TimeFormat.DigitsValueOfNatToString` | src/App.jsx:255 | the digits denote the number they were made from |
| `TimeFormat.PadStart` | src/App.jsx:255 | `padStart` gives length `max(width, len)` |
| `TimeFormat.PadStartShape` | src/App.jsx:255 | the padded text ends with the original and has only fill characters before it |
| `TimeFormat.ZeroPadKeepsValue` | src/App.jsx:255 | zero padding keeps a digit string's value |
| `TimeFormat.Pad2` | src/App.jsx:255 | a number padded to two digits is at least 2 long, and exactly 2 below 100 |
| `TimeFormat.Pad2Value` | src/App.jsx:255 | the padded text is digits that denote the number |
| `TimeFormat.JoinFields` | src/App.jsx:255 | joining two padded fields (seconds below 100) puts the colon 3 from the end, and gives exactly 5 characters when minutes are below 100 |
| `TimeFormat.JoinFieldsParts` | src/App.jsx:255 | both fields can be read back from the joined text |
| `TimeFormat.FormatTime` | src/App.jsx:252-256 | the result has a colon 3 characters from the end, at least 5 characters, and exactly 5 for inputs below 6000 s |
| `TimeFormat.FormatTimeFields` | src/App.jsx:253-255 | the digits before the colon denote `seconds / 60`; the two after it denote `seconds % 60`, which is below 60 |
| `TimeFormat.ParseTime` | src/App.jsx:252-256 | the reference inverse: it accepts only text with a colon 3 from the end |
| `TimeFormat.ParseFormatTime` | src/App.jsx:252-256 | parsing a formatted time gives the seconds back, so `mins * 60 + secs == seconds` |
| `TimeFormat.FormatTimeInjective` | src/App.jsx:252-256 | different second counts are displayed differently |
| `TimeFormat.FormatWorkTime` | src/App.jsx:24 | the work phase's 1500 s show as `25:00` |
| `Alarm.BeepTotal` | src/App.jsx:103 | the beep loop runs `beepCount` times, or not at all when `beepCount <= 0` |
| `Alarm.BeepSchedule` | src/App.jsx:103-120 | there are exactly that many beeps, and beep `i` is queued at `i * beepGap` |
| `Alarm.ScheduleIncreasing` | src/App.jsx:103-120 | with a positive gap, the beep offsets are strictly increasing |
| `Alarm.ScheduleBeeps` | src/App.jsx:180-200 | the loop's queued delays are exactly the beep schedule |
| `Alarm.AutoStopOffset` | src/App.jsx:206 | the test run's auto-stop delay `beepCount * beepGap + durationMs`: one gap after the last beep starts plus one tone's length, never less than one tone's length for non-negative settings |
| `Alarm.AutoStopAfterEveryTone` | src/App.jsx:202-206 | the auto-stop comes at least one gap after every tone has ended: `i * gap + duration + gap <= autoStop` |
| `Alarm.AutoStopAfterEveryBeep` | src/App.jsx:202-206 | when gap or duration is positive and neither is negative, the auto-stop is later than every beep offset |
| `Alarm.ScheduleEndsBeforeAutoStop` | src/App.jsx:180-206 | every offset in the test schedule comes before the auto-stop offset |
| `Alarm.PlayNotification` | src/App.jsx:92-122 | it plays the clip iff the custom type is selected and a clip is loaded; otherwise it queues exactly the beep schedule |
| `Alarm.TestAudio` | src/App.jsx:145-207 | a click while the test plays stops it. Otherwise it plays the clip iff custom is selected and loaded, or queues the beep schedule plus the auto-stop. The flag the beeps' guard closed over is always false |
| `Alarm.SoundedAsWritten` | src/App.jsx:181-182 | as written, a queued beep sounds iff the flag value it closed over is true: with it true every beep sounds, and never more than were queued |
| `Alarm.CapturedFalseSilencesAll` | src/App.jsx:181-182 | when the captured flag is false, every beep callback returns before sounding |
| `Alarm.TestBeepsAsWritten` | src/App.jsx:160-200 | as written, a synthesized test started from idle sounds no beep at all, for any settings |
| `Alarm.Sounded` | src/App.jsx:182 | intended guard: a beep sounds iff it falls due before the flag is cleared |
| `Alarm.SoundedIsPrefix` | src/App.jsx:180-200 | with increasing offsets, what sounds is a prefix of the schedule: everything before the stop and nothing after it |
| `Alarm.StopTime` | src/App.jsx:146-206 | the flag is cleared at the stop click or at the auto-stop, whichever comes first |
| `Alarm.StopCutsSchedule` | src/App.jsx:146-206 | a schedule that ends before the auto-stop is cut only by a stop click; without a click, all of it sounds |
| `Alarm.TestBeepsIntended` | src/App.jsx:145-207 | intended test run: the beeps due before a stop click sound, in order, and none after it; without a click all `beepCount` beeps sound |
| `Alarm.StopAt500WithDefaults` | src/App.jsx:10-16 | under the intended guard (`Sounded`), on the schedule of the default settings (3 beeps 400 ms apart), a stop at 500 ms lets 2 beeps sound and a stop at 300 ms lets 1; as written none sounds |
| `AudioUpload.StartsWith` | src/App.jsx:320 | `s.startsWith(prefix)`: the prefix is no longer than `s` and equals its start, character by character |
| `AudioUpload.CheckUpload` | src/App.jsx:316-329 | accepted iff a file exists, its type starts with `audio/`, and its size is at most 5 MiB. A non-audio type is refused for its type. An audio type over the limit is refused for its size |
| `AudioUpload.Alert` | src/App.jsx:320-328 | of the two checks: an alert is shown exactly for the type and size rejections |
| `AudioUpload.TypeCheckedBeforeSize` | src/App.jsx:320-329 | a non-audio file is refused as non-audio whatever its size |
| `AudioUpload.AudioSubtypesPass` | src/App.jsx:320 | any `audio/...` type passes the type check |
| `AudioUpload.SizeLimitIsInclusive` | src/App.jsx:326-328 | exactly 5 MiB is accepted and one byte more is refused, although the alert says "less than 5MB" |
| `AudioUpload.SmallerStillAccepted` | src/App.jsx:326 | if a file is accepted, a smaller file of the same type is too |

## Left out

- Rendering, the progress ring and `getProgress`/`getStrokeDashoffset` (src/App.jsx:258-267, 362-579): UI and floating-point arithmetic.
- The Web Audio oscillator, gain, frequency dip and exponential ramp, plus the `frequency` and `volume` settings (src/App.jsx:105-119): foreign API calls with float parameters. Only the integer offsets are kept.
- The tone duration is modelled as whole milliseconds (`durationMs`). The source stores it as 0.3 seconds and multiplies by 1000.
- The `try`/`catch` around the audio code (src/App.jsx:92-125, 163-211): device and autoplay failures are outside the model.
- The Notification API and permission requests (src/App.jsx:81-89, 140-142): browser I/O. Only the choice of message is modelled, as `Notice`.
- The page-title flash interval (src/App.jsx:128-137): DOM side effects.
- `localStorage`, `FileReader`, `Audio` objects and `URL.createObjectURL` (src/App.jsx:269-314, 331-360): persistence and I/O. `saveAudioToStorage`, `loadAudioFromStorage` and `clearCustomAudio` are left out with them, and so are the load-error and save-error alerts (src/App.jsx:346, 349). The clip's presence is a boolean input.
- `setInterval`/`setTimeout` scheduling, effect re-subscription and React's update queue: the runtime is not modelled. A completion's post-state is the intended one, in which `timeLeft` is the new phase's length. The `return prevTime` in the updater is not modelled as competing with the queued updates. The effect depends only on `[isRunning, mode, sessions]` (src/App.jsx:77), so the interval calls the `playNotification` of the render that armed it: a sound setting, sound type or clip changed while a phase runs does not reach that phase's completion sound, and the inputs of `Alarm.PlayNotification` are those captured values.
- Pomodoro.Timer.Tick: requires `isRunning`, because the interval exists only while the timer runs (src/App.jsx:34, 72-73). The event-sequence model (`Pomodoro.Apply`) treats a tick while stopped as no change.
- Pomodoro.State: `sessions` is an unbounded natural number. The 2^53 limit of JavaScript numbers is not modelled.
- TimeFormat.FormatTime: takes a natural number. The component only passes `timeLeft`, which the invariant keeps at 1 or more. Negative or fractional input is not modelled. Minute values of 10^21 or more, which `toString()` writes in exponent notation, and seconds above 2^53 are not modelled either; the component passes at most 1500.
- Alarm.TestAudio: returns what the click does. It does not model the `isTestPlaying`/`testAudioContext` state updates, closing the audio context, or the clip's `onended` handler.
- Alarm.PlayNotification: the notification beeps have no guard and no auto-stop, so they always sound once queued. No cancellation is modelled because the source has none.

## Findings

| source | as written | input that shows it | evidently intended | confidence | as-written member | corrected member |
|---|---|---|---|---|---|---|
| src/App.jsx:182 | each test-beep callback checks the `isTestPlaying` value captured when the test button was clicked. That value is always `false`, because a click with the flag set returns at line 157. So every callback returns before sounding | synthesized sound, default settings, click "test" while idle: 0 of the 3 beeps sound | each callback reads the flag as it is when it fires, so the beeps sound until the stop click or the auto-stop | not executed; high (stale closure over React state) | `Alarm.TestBeepsAsWritten` | `Alarm.TestBeepsIntended` |
