# Timer app: stopwatch, countdown and their saved state

This project models the timer page in `template/script.js`. The page has a
stopwatch with laps and a countdown with hour, minute and second inputs and
preset buttons. It keeps both in `localStorage` across page loads. The model
has three layers:

- **Text and arithmetic.**
  - Module `JsText` holds the JavaScript conversions the page uses: `String(n)`, `padStart(2, '0')`, `%` on possibly negative numbers, and recovering a number with `/\d+/` and `parseInt`.
  - Module `Clock` holds the clock split, `getInputTime`/`setInputTime`, and the two display formats (`HH:MM:SS.cc`, `HH:MM:SS`).
  - `Clock` also proves that each display reads back as the value it shows.
- **The two state machines as functions of their state.** Module `Stopwatch` works on values in milliseconds; the wall clock `Date.now()` is a parameter `now`. Module `Countdown` works in whole seconds, and `Tick` is one step of the once-a-second interval. Both modules carry lemmas about the operations:
  - segment accounting;
  - the ten-row lap cap and lap numbering;
  - counting down to zero and finishing;
  - the `0 <= time <= initialTime` invariant;
  - clamping.
- **The saved state.** Module `Persistence` models the three keys the page writes (`stopwatchState`, `stopwatchLaps`, `countdownState`). It covers what loading each key restores and what `init` does when a key cannot be parsed.
- **The page itself.** Module `TimerApp`, class `App`, holds the script's module-level variables as fields, along with the lap list rows, the input values, a finished flag and the store. Its methods update those fields in place as the script's functions do:
  - `recordLap` trims the list with a `while` loop;
  - `saveLaps` copies the rows with a loop;
  - `loadLaps` appends the saved rows one by one.
  - Each method's contract ties the new stopwatch and countdown views to the functions above. It also says exactly which storage key the method writes or removes.

Numbers are unbounded integers. JavaScript's `%` truncates toward zero; it is
written out as `JsRem`, and `Math.floor(a / b)` for a positive `b` is Dafny's `/`.

## Behaviour as written

The model follows the code. Several places behave unexpectedly, and each has a lemma that states it:

- **Resuming a countdown restarts it.** Starting a stopped countdown always reloads the time from the inputs, and pausing does not touch them (`Countdown.PauseThenStartRestarts`).
- **The finish comes one tick late.** From `n > 0`, `n` ticks reach zero without finishing and tick `n + 1` finishes (`Countdown.FinishOneTickLate`, `Countdown.FiveSecondTicks`).
  - One might expect a 5 s countdown to finish on tick five; the code finishes on tick six, and the model follows the code.
- **A lap after a pause double-counts.** Pausing leaves the lap button enabled, and a lap then counts the last segment twice and the pause as well (`Stopwatch.LapAfterPauseDoubleCounts`, `Stopwatch.LapAfterPauseExample`). The lap time is the accounted time only while the stopwatch runs (`Stopwatch.LapTimeWhenRunning`).
- **Resetting the stopwatch leaves the laps in storage.** A reload brings them back (`TimerApp.App.ResetStopwatch`, `Persistence.ResetThenReloadRestoresLaps`).
- **`startStopwatch` has no double-start guard.** Starting again drops the open segment (`Stopwatch.DoubleStartDropsSegment`). Only the toggle handler avoids this.
  - Each start sets up a new interval, which suggests a guarded start was intended; the code has none, and the model follows the code.
- **The presets ignore the running state** (`Countdown.PresetWhileRunning`).
- **The countdown reload is uncorrected.** The countdown record is written only on start and pause. Loading it restores neither `running` nor the time that passed (`Persistence.CountdownReloadUncorrected`).
- **Malformed JSON throws.** A key on which `JSON.parse` throws ends `init` at that key (`Persistence.BootStopsAtCorruptKey`).

## Model

| member | source | states |
|---|---|---|
| JsText.IntToString | template/script.js:89 | computes `String(n)`: a minus sign before the digits of a negative number (read back by `DigitsValueOfNatToString`) |
| JsText.DigitsValue | template/script.js:516 | computes `parseInt` of a digit string, most significant digit first |
| JsText.FirstNumber | template/script.js:514-516 | computes `parseInt` of the first digit run, if there is one (recovers `N` from `Lap N` by `NumberAfterWords`) |
| Clock.JoinSeconds | template/script.js:218-224 | computes `hours * 3600 + minutes * 60 + seconds` (inverse of `SplitSeconds` by `JoinSplit`/`SplitJoin`) |
| Clock.FormatHms | template/script.js:200-206 | computes the `HH:MM:SS` template both displays share (also the first part of line 89): each field's `String` padded to two characters, joined with colons (read back by `ParseFormatHms`) |
| Clock.FormatCountdownTime | template/script.js:200-206 | computes the `HH:MM:SS` text of the split (read back by `CountdownDisplayRoundTrip`) |
| Clock.FormatStopwatchTime | template/script.js:82-90 | computes the `HH:MM:SS.cc` text (read back by `StopwatchDisplayRoundTrip`) |
| Stopwatch.Initial | template/script.js:8-12 | the starting stopwatch: stopped, start time 0, nothing banked, count 0, no laps; it accounts no time at any `now`, and its empty list meets the lap numbering that `CommandsKeepNumbering` preserves |
| Stopwatch.LapLabel | template/script.js:168 | computes the number text `Lap N` of a lap row (read back by `LapLabelNumber`) |
| Stopwatch.Start | template/script.js:97-99 | computes `startStopwatch`: running, segment opened at `now` |
| Stopwatch.Pause | template/script.js:118-121 | computes `pauseStopwatch`: stopped, open segment banked |
| Stopwatch.Reset | template/script.js:136-155 | computes `resetStopwatch`: stopped, nothing banked, no laps, count 0 |
| Stopwatch.Reading | template/script.js:93 | computes `now - startTime + elapsed`, what the display and a lap show |
| Stopwatch.Elapsed | template/script.js:92-121 | computes the time accounted at `now`: the bank, plus the open segment while running |
| Stopwatch.Trim | template/script.js:175-178 | computes the trimming loop: drops the last row while there are more than ten (closed form in `TrimKeepsNewest`) |
| Stopwatch.RecordLap | template/script.js:161-178 | computes `recordLap`: `AddLap` with the reading's text |
| Stopwatch.AddLap | template/script.js:162-178 | computes the count raised by one and the row `Lap N` put first, then trimmed |
| Stopwatch.Toggle | template/script.js:185-191 | computes the start button: pause when running, start otherwise |
| Countdown.Initial | template/script.js:15-17 | the starting countdown is stopped, not finished, at time 0 with duration 0, holding the given inputs, and so meets the `0 <= time <= initialTime` invariant that `RunKeepsSteady` preserves |
| Countdown.StartRejected | template/script.js:237-244 | the alert condition: only a stopped countdown refuses to start, and with inputs that are not negative it refuses exactly when all three are zero |
| Countdown.InputTime | template/script.js:218-224 | computes `getInputTime` on the inputs |
| Countdown.Start | template/script.js:236-274 | computes `startCountdown`: unchanged when refused, else running and not finished, reloading time and duration from the inputs when it was stopped |
| Countdown.Pause | template/script.js:276-278 | computes `pauseCountdown`: stopped, time kept |
| Countdown.Finish | template/script.js:326-336 | computes `finishCountdown`: stopped, time 0, finished |
| Countdown.Tick | template/script.js:208-216 | computes `updateCountdownDisplay`: finish on a time of zero or less, else one second off |
| Countdown.Reset | template/script.js:293-323 | computes `resetCountdown`: stopped, time back to the duration, not finished, inputs set from the duration |
| Countdown.ApplyPreset | template/script.js:391-399 | computes a preset: inputs, duration and time set to the preset |
| Countdown.EditInput | template/script.js:402-410 | computes one input set to the clamped value |
| Countdown.CommitInputs | template/script.js:412-417 | computes the `change` handler: time and duration set to the input total |
| Countdown.Toggle | template/script.js:380-386 | computes the start button: pause when running, start otherwise |
| Countdown.Ticks | template/script.js:208-216 | computes `k` ticks in a row |
| Countdown.Apply | template/script.js:208-417 | computes one user command or tick |
| Countdown.Run | template/script.js:208-417 | computes a sequence of commands in order |
| Persistence.StopwatchSnapshotOf | template/script.js:460-467 | computes the `{running, elapsed, startTime}` record |
| Persistence.CountdownSnapshotOf | template/script.js:522-529 | computes the `{running, time, initialTime}` record |
| Persistence.RestoreStopwatch | template/script.js:469-485 | computes `loadStopwatchState` on a record: the bank caught up by the time since the start when it was saved running |
| Persistence.RestoreLaps | template/script.js:498-520 | computes `loadLaps` on saved rows: rows appended, count recovered |
| Persistence.RecoveredLapsCount | template/script.js:513-517 | computes the count: the first row's number when it has digits, else the count unchanged |
| Persistence.RestoreCountdown | template/script.js:531-541 | computes `loadCountdownState` on a record: duration, time and inputs restored |
| Persistence.Boot | template/script.js:547-556 | computes `init`'s three loads in order, stopping at the first unparseable key |
| JsText.JsRem | template/script.js:85-87 | JavaScript's `%` for a positive divisor: strictly between `-b` and `b`, Dafny's `%` on a non-negative dividend, never positive on a non-positive one, and differing from the dividend by a multiple of `b` (which fixes the value) |
| JsText.NatToString | template/script.js:89 | `String(n)` is one or more digits; one digit exactly below 10, two exactly from 10 to 99; never a leading zero unless `n` is 0 |
| JsText.Pad2 | template/script.js:89 | `padStart(2, '0')` gives at least two characters, ends with the input and has only zeros before it |
| JsText.DigitPrefix | template/script.js:514 | the longest all-digit prefix: a prefix, all digits, followed by a non-digit or the end |
| JsText.FirstDigitRun | template/script.js:514-515 | `match(/\d+/)` finds none exactly when the text has no digit; otherwise it finds the longest digit run starting at the leftmost digit |
| JsText.DigitsValueOfNatToString | template/script.js:514-516 | `parseInt(String(n)) == n` |
| JsText.Pad2RoundTrip | template/script.js:89 | a padded field below 100 is two digits that read back as the field |
| JsText.PadRoundTrip | template/script.js:89 | a padded field of any non-negative width reads back as the field |
| JsText.NumberAfterWords | template/script.js:514-516 | the number in `Lap N` is recovered as `N` |
| Clock.SplitSeconds | template/script.js:226-234 | for `t >= 0` the split has hours at least 0 and minutes and seconds in `0..59` |
| Clock.JoinSplit | template/script.js:218-234 | `getInputTime` after `setInputTime(t)` gives `t` for `t >= 0` |
| Clock.SplitJoin | template/script.js:218-234 | fields in range survive being joined and split again |
| Clock.StopwatchFieldsOf | template/script.js:82-87 | for `ms >= 0` minutes and seconds are below 60 and hundredths below 100 |
| Clock.StopwatchFieldsRecompose | template/script.js:82-87 | `h*3600000 + m*60000 + s*1000 + cc*10 + ms%10 == ms` |
| Clock.ParseFormatHms | template/script.js:200-206 | the `HH:MM:SS` text of fields in range reads back as those fields |
| Clock.CountdownDisplayRoundTrip | template/script.js:200-206 | the countdown display of `t >= 0` reads back as `t` |
| Clock.StopwatchDisplayRoundTrip | template/script.js:82-90 | the stopwatch display of `ms >= 0` reads back as its fields, worth `ms` rounded down to 10 ms |
| Clock.StopwatchDisplayDistinguishes | template/script.js:82-90 | two non-negative values show the same text exactly when they agree down to 10 ms |
| Clock.FormatOneAndAHalfSeconds | template/script.js:82-90 | 1500 ms is shown as `00:00:01.50` |
| Stopwatch.ToggleKeepsElapsed | template/script.js:185-191 | the start button flips `running` and moves no accounted time |
| Stopwatch.StartPauseBanksSegment | template/script.js:97-121 | start at `t0` then pause at `t1` stops the stopwatch and banks exactly `t1 - t0` |
| Stopwatch.RunSegmentsSumsLengths | template/script.js:97-121 | after any start/pause pairs the bank is the sum of the segment lengths; the laps are untouched |
| Stopwatch.ElapsedMonotone | template/script.js:92-95 | the accounted time never decreases as `now` grows, and grows one-for-one while running |
| Stopwatch.ResetClears | template/script.js:136-159 | reset from any state: stopped, nothing accounted, count 0, no laps |
| Stopwatch.DoubleStartDropsSegment | template/script.js:97-101 | starting a running stopwatch loses the open segment |
| Stopwatch.TrimKeepsNewest | template/script.js:175-178 | the trimming loop keeps exactly the first `min(n, 10)` rows |
| Stopwatch.RecordLapShape | template/script.js:161-178 | a lap raises the count by one and puts `Lap N` with the reading first; at most ten rows; earlier rows keep their order and only the oldest are dropped; nothing else changes |
| Stopwatch.AddLapShape | template/script.js:161-178 | the same, for a lap row with any time text |
| Stopwatch.LapTimeWhenRunning | template/script.js:161-169 | while running, the lap's time text is the accounted time |
| Stopwatch.LapAfterPauseDoubleCounts | template/script.js:161-163 | after a pause the lap reading exceeds the accounted time by the time since the last start |
| Stopwatch.LapAfterPauseExample | template/script.js:161-169 | one second run, paused, a lap at 3 s shows four seconds, a different text from the one second accounted |
| Stopwatch.CommandsKeepNumbering | template/script.js:136-178 | start, pause, reset and lap keep the rows numbered down from the count, one per lap recorded, up to ten |
| Stopwatch.PushKeepsNumbering | template/script.js:168-178 | lap `n + 1` put before rows numbered down from `n` and trimmed gives rows numbered down from `n + 1` |
| Stopwatch.LapScenario | template/script.js:97-182 | start at 0, lap at 1.5 s gives `Lap 1` at `00:00:01.50`; pause at 2 s accounts 2 s; reset clears everything |
| Countdown.Clamp | template/script.js:402-410 | a value in range is kept; below `min` it becomes `min`; above `max` (and not below `min`) it becomes `max` |
| Countdown.TickSteps | template/script.js:208-216 | a tick on a positive time takes one second off and changes nothing else; on zero or less it stops at zero and finishes |
| Countdown.TicksCountDown | template/script.js:208-216 | up to `time` ticks only count down |
| Countdown.FinishOneTickLate | template/script.js:208-216 | from `n > 0`, `n` ticks reach zero unfinished and tick `n + 1` finishes |
| Countdown.TicksSplit | template/script.js:208-216 | `j` ticks then `k` ticks are `j + k` ticks |
| Countdown.FinishIsFixedPoint | template/script.js:326-333 | a tick on a finished countdown leaves it as it is |
| Countdown.PresetThenStart | template/script.js:391-399 | a preset of `seconds > 0` and then start runs from `seconds`, whatever the inputs held |
| Countdown.FiveSecondTicks | template/script.js:208-216 | from 5 s: three ticks leave 2 s; five leave 0 s, unfinished; the sixth finishes |
| Countdown.StartFromInputs | template/script.js:236-250 | a stopped countdown with input total 0 is unchanged; otherwise time and duration become the input total and it runs |
| Countdown.PauseThenStartRestarts | template/script.js:236-291 | after `k` ticks, pause then start reloads the time from the inputs |
| Countdown.ResetRestoresDuration | template/script.js:293-323 | reset stops, restores time to the duration and writes inputs in range that read back as the duration |
| Countdown.PresetWhileRunning | template/script.js:391-399 | a preset changes a running countdown's time and inputs without stopping it |
| Countdown.CommandsKeepSteady | template/script.js:208-417 | every command, including an edit with non-negative `min` and `max`, keeps `0 <= time <= initialTime` and keeps the inputs non-negative, given a non-negative preset |
| Countdown.ApplyKeepsSteady | template/script.js:208-417 | one well-formed command keeps the state steady with non-negative inputs |
| Countdown.RunKeepsSteady | template/script.js:208-417 | any run of well-formed commands from a steady state with non-negative inputs ends steady with non-negative inputs |
| Countdown.ClampIdempotent | template/script.js:402-410 | clamping twice is clamping once |
| Countdown.EditKeepsNonNegative | template/script.js:402-410 | with `min` 0, editing keeps the inputs non-negative |
| Persistence.StopwatchReloadCatchesUp | template/script.js:460-485 | loading a saved stopwatch restores the time accounted at the reload, and leaves `running` as the page has it |
| Persistence.ReloadNeverGoesBack | template/script.js:469-485 | the restored time is at least the time accounted at any earlier moment |
| Persistence.ReloadScenario | template/script.js:475-479 | a running record with 1000 ms loaded 500 ms after its start gives 1500 ms, not running |
| Stopwatch.LapLabelNumber | template/script.js:168 | the regex and `parseInt` of lines 514-516 read `N` back from the label `Lap N`, for every `N` |
| Persistence.RecoveredCountIsNewest | template/script.js:513-517 | from rows numbered down from the count, the recovered count is the newest lap's number |
| Persistence.LapsRoundTrip | template/script.js:487-520 | saved laps load back in the same order, and the count is the newest lap's number |
| Persistence.CountdownReloadRoundTrip | template/script.js:522-541 | time and duration survive a reload and the inputs read back as the duration |
| Persistence.CountdownReloadUncorrected | template/script.js:522-541 | after `k` unsaved ticks the reload still gives the saved time, `k` seconds more than the page showed |
| Persistence.BootStopsAtCorruptKey | template/script.js:547-555 | loading gets through exactly when no key is unparseable; an unparseable `stopwatchState` leaves everything untouched, an unparseable `stopwatchLaps` leaves the laps and count untouched, and any unparseable key leaves the countdown untouched |
| Persistence.BootLeavesStopped | template/script.js:547-555 | after loading neither timer runs |
| Persistence.ResetThenReloadRestoresLaps | template/script.js:136-158 | reset empties the lap list, but a reload restores the laps and count from before the reset |
| TimerApp.App.constructor | template/script.js:8-17 | both timers at rest, no laps, the inputs as given |
| TimerApp.App.StopwatchDisplay | template/script.js:92-95 | the display text of the reading, which reads back as the reading to 10 ms when not negative |
| TimerApp.App.SaveStopwatchState | template/script.js:460-467 | writes the stopwatch record and nothing else |
| TimerApp.App.StartStopwatch | template/script.js:97-116 | the stopwatch becomes `Stopwatch.Start`; the record is saved; the countdown is untouched |
| TimerApp.App.PauseStopwatch | template/script.js:118-134 | the stopwatch becomes `Stopwatch.Pause`; the record is saved |
| TimerApp.App.ResetStopwatch | template/script.js:136-159 | the stopwatch becomes `Stopwatch.Reset`; only `stopwatchState` is removed |
| TimerApp.App.RecordLap | template/script.js:161-182 | the stopwatch becomes `Stopwatch.RecordLap`; the trimmed list is saved under `stopwatchLaps` |
| TimerApp.App.InsertLap | template/script.js:162-178 | the count goes up by one, `Lap N` with the given time goes first and the list is trimmed, as `Stopwatch.AddLap` |
| TimerApp.App.TrimLaps | template/script.js:175-178 | the loop leaves the list as `Stopwatch.Trim` of it, the newest ten rows; nothing else changes |
| TimerApp.App.SaveLaps | template/script.js:487-496 | writes the rows in list order and nothing else |
| TimerApp.App.ToggleStopwatch | template/script.js:185-191 | the stopwatch becomes `Stopwatch.Toggle`; the record is saved |
| TimerApp.App.CountdownDisplay | template/script.js:200-206 | the display text of the time, which reads back as the time when not negative |
| TimerApp.App.GetInputTime | template/script.js:218-224 | the input total, which splits back into the inputs when they are in range |
| TimerApp.App.SetInputTime | template/script.js:226-234 | the inputs become the split of the total; nothing else changes |
| TimerApp.App.SaveCountdownState | template/script.js:522-529 | writes the countdown record and nothing else |
| TimerApp.App.StartCountdown | template/script.js:236-274 | alerts exactly when stopped with input total 0, then nothing changes; otherwise the countdown becomes `Countdown.Start` and is saved |
| TimerApp.App.PauseCountdown | template/script.js:276-291 | the countdown becomes `Countdown.Pause`; the record is saved |
| TimerApp.App.ResetCountdown | template/script.js:293-323 | the countdown becomes `Countdown.Reset`; only `countdownState` is removed |
| TimerApp.App.FinishCountdown | template/script.js:326-354 | the countdown becomes `Countdown.Finish`; nothing is saved |
| TimerApp.App.Tick | template/script.js:208-216 | shows the time before the step, then the countdown becomes `Countdown.Tick`; nothing is saved |
| TimerApp.App.ToggleCountdown | template/script.js:380-386 | the countdown becomes `Countdown.Toggle`; saved unless the start was refused |
| TimerApp.App.ApplyPreset | template/script.js:391-399 | the countdown becomes `Countdown.ApplyPreset`; nothing is saved |
| TimerApp.App.EditInput | template/script.js:402-410 | one input becomes the clamped value |
| TimerApp.App.CommitInputs | template/script.js:412-417 | time and duration become the input total |
| TimerApp.App.LoadStopwatchState | template/script.js:469-485 | applies `Persistence.RestoreStopwatch` when the key holds a record; reports an unparseable key |
| TimerApp.App.LoadLaps | template/script.js:498-520 | appends the saved rows and recovers the count, as `Persistence.RestoreLaps`; reports an unparseable key |
| TimerApp.App.LoadCountdownState | template/script.js:531-541 | applies `Persistence.RestoreCountdown` when the key holds a record; reports an unparseable key |
| TimerApp.App.Init | template/script.js:547-556 | loads the three keys in order and stops at an unparseable one, as `Persistence.Boot` |

## Left out

- DOM rendering: button labels and icons, `classList`, the `disabled` flags of the buttons and inputs, and every display `textContent` write except the texts `StopwatchDisplay`, `CountdownDisplay` and `Tick` return (the writes of the reset, finish, preset, `change` and load code). Those writes show the formatted value of state the model does track. The "time's up" message and the finished card style are the one boolean `finished`.
- `setInterval`/`clearInterval`: the interval drivers are host scheduling. `Tick` and `StopwatchDisplay` are called from outside. A second `startCountdown` while running (which starts a second interval) is modelled only by its effect on the state.
- Tab switching, the `activeTab` key and keyboard shortcuts. They are event wiring with no state of the timers.
- `playAlertSound`: Web Audio, a foreign API.
- `alert`: `StartCountdown` returns whether it would be shown.
- JSON encoding. Each key holds nothing, a record of its own kind, or text on which `JSON.parse` throws. Records with missing or mistyped fields are not modelled, so `state.elapsed || 0` and the like are just the field.
- The inputs are integers. `parseInt(value) || 0` on an empty or non-numeric input is taken to be 0. The inputs' `min` and `max` live in HTML that is not part of this model and are parameters of `EditInput`.
- `parseInt` of more digits than a double holds exactly: lap numbers are unbounded naturals.
- Numbers are unbounded integers. The precision limits of JavaScript numbers above 2^53 are not modelled.
