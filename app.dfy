/** The page's module-level variables as the fields of one object, and its
    commands as methods that update them in place. Each method is specified by
    the matching function of modules Stopwatch, Countdown and Persistence: the
    stopwatch and countdown views of the new fields are that function of the
    old ones, and the store changes only in the key the command writes or
    removes. The wall clock is the parameter `now` (milliseconds). */
module TimerApp {
  import opened JsText
  import Clock
  import SW = Stopwatch
  import CD = Countdown
  import P = Persistence

  class App {
    // Stopwatch
    var stopwatchRunning: bool
    var stopwatchStartTime: int
    var stopwatchElapsed: int
    var lapsCount: nat
    /** The rows of the lap list element, newest first. */
    var laps: seq<SW.LapEntry>

    // Countdown
    var countdownRunning: bool
    var countdownTime: int
    var countdownInitialTime: int
    /** Whether the "time's up" message and the finished style are shown. */
    var countdownFinished: bool
    /** The values of the hour, minute and second inputs. */
    var hoursInput: int
    var minutesInput: int
    var secondsInput: int

    /** `localStorage`. */
    var store: P.Storage

    function StopwatchState(): SW.State
      reads this
    {
      SW.State(stopwatchRunning, stopwatchStartTime, stopwatchElapsed, lapsCount, laps)
    }

    function CountdownState(): CD.State
      reads this
    {
      CD.State(countdownRunning, countdownTime, countdownInitialTime, countdownFinished,
               Clock.Hms(hoursInput, minutesInput, secondsInput))
    }

    /** The page as the script finds it: both timers at rest, no laps, the
        inputs holding their initial values and the store as the browser has it. */
    constructor (saved: P.Storage, inputs: Clock.Hms)
      ensures StopwatchState() == SW.Initial()
      ensures CountdownState() == CD.Initial(inputs)
      ensures store == saved
    {
      stopwatchRunning, stopwatchStartTime, stopwatchElapsed, lapsCount, laps := false, 0, 0, 0, [];
      countdownRunning, countdownTime, countdownInitialTime, countdownFinished := false, 0, 0, false;
      hoursInput, minutesInput, secondsInput := inputs.hours, inputs.minutes, inputs.seconds;
      store := saved;
    }

    // -------------------------------------------------------------------------
    // Stopwatch

    /** `updateStopwatchDisplay`: the text the display shows at `now`. It reads
        back as the reading to the hundredth whenever the reading is not negative. */
    method StopwatchDisplay(now: int) returns (text: string)
      ensures text == Clock.FormatStopwatchTime(SW.Reading(StopwatchState(), now))
      ensures SW.Reading(StopwatchState(), now) >= 0 ==>
        Clock.ParseStopwatchTime(text).Some?
        && Clock.FieldsMs(Clock.ParseStopwatchTime(text).value) == SW.Reading(StopwatchState(), now) / 10 * 10
    {
      var currentTime := now - stopwatchStartTime + stopwatchElapsed;
      assert currentTime == SW.Reading(StopwatchState(), now);
      text := Clock.FormatStopwatchTime(currentTime);
      if currentTime >= 0 {
        Clock.StopwatchDisplayRoundTrip(currentTime);
      }
    }

    /** `saveStopwatchState`. */
    method SaveStopwatchState()
      modifies this
      ensures StopwatchState() == old(StopwatchState()) && CountdownState() == old(CountdownState())
      ensures store == old(store).(stopwatchState := P.Present(P.StopwatchSnapshotOf(StopwatchState())))
    {
      store := store.(stopwatchState := P.Present(P.StopwatchSnapshot(stopwatchRunning, stopwatchElapsed, stopwatchStartTime)));
    }

    /** `startStopwatch`. */
    method StartStopwatch(now: int)
      modifies this
      ensures StopwatchState() == SW.Start(old(StopwatchState()), now)
      ensures CountdownState() == old(CountdownState())
      ensures store == old(store).(stopwatchState := P.Present(P.StopwatchSnapshotOf(StopwatchState())))
    {
      stopwatchRunning := true;
      stopwatchStartTime := now;
      SaveStopwatchState();
    }

    /** `pauseStopwatch`. */
    method PauseStopwatch(now: int)
      modifies this
      ensures StopwatchState() == SW.Pause(old(StopwatchState()), now)
      ensures CountdownState() == old(CountdownState())
      ensures store == old(store).(stopwatchState := P.Present(P.StopwatchSnapshotOf(StopwatchState())))
    {
      stopwatchRunning := false;
      stopwatchElapsed := stopwatchElapsed + (now - stopwatchStartTime);
      SaveStopwatchState();
    }

    /** `resetStopwatch`: removes `stopwatchState`; `stopwatchLaps` stays. */
    method ResetStopwatch()
      modifies this
      ensures StopwatchState() == SW.Reset(old(StopwatchState()))
      ensures CountdownState() == old(CountdownState())
      ensures store == old(store).(stopwatchState := P.Absent)
    {
      stopwatchRunning := false;
      stopwatchElapsed := 0;
      lapsCount := 0;
      laps := [];
      store := store.(stopwatchState := P.Absent);
    }

    /** `recordLap`: the new row goes first, then rows are removed from the end
        while there are more than ten, then the list is saved. */
    method RecordLap(now: int)
      modifies this
      ensures StopwatchState() == SW.RecordLap(old(StopwatchState()), now)
      ensures CountdownState() == old(CountdownState())
      ensures store == old(store).(stopwatchLaps := P.Present(laps))
    {
      ghost var before := StopwatchState();
      var currentTime := now - stopwatchStartTime + stopwatchElapsed;
      assert currentTime == SW.Reading(before, now);
      InsertLap(Clock.FormatStopwatchTime(currentTime));
      assert StopwatchState() == SW.RecordLap(before, now);
      SaveLaps();
    }

    /** The part of `recordLap` that counts the lap, puts its row first and
        trims the list. */
    method InsertLap(time: string)
      modifies this
      ensures StopwatchState() == SW.AddLap(old(StopwatchState()), time)
      ensures CountdownState() == old(CountdownState()) && store == old(store)
    {
      lapsCount := lapsCount + 1;
      laps := [SW.LapEntry(SW.LapLabel(lapsCount), time)] + laps;
      TrimLaps();
    }

    /** The loop of `recordLap` that removes the last row while there are more than ten. */
    method TrimLaps()
      modifies this
      ensures laps == SW.Trim(old(laps))
      ensures StopwatchState() == old(StopwatchState()).(laps := laps)
      ensures CountdownState() == old(CountdownState()) && store == old(store)
    {
      while |laps| > SW.MaxLaps
        invariant SW.Trim(laps) == SW.Trim(old(laps))
        invariant StopwatchState() == old(StopwatchState()).(laps := laps)
        invariant CountdownState() == old(CountdownState()) && store == old(store)
        decreases |laps|
      {
        SW.TrimDropsLast(laps);
        laps := laps[..|laps| - 1];
      }
    }

    /** `saveLaps`: the rows, number and time text, are copied in list order. */
    method SaveLaps()
      modifies this
      ensures StopwatchState() == old(StopwatchState()) && CountdownState() == old(CountdownState())
      ensures store == old(store).(stopwatchLaps := P.Present(laps))
    {
      var saved: seq<SW.LapEntry> := [];
      var i := 0;
      while i < |laps|
        invariant 0 <= i <= |laps|
        invariant saved == laps[..i]
      {
        saved := saved + [SW.LapEntry(laps[i].number, laps[i].time)];
        i := i + 1;
      }
      assert saved == laps;
      store := store.(stopwatchLaps := P.Present(saved));
    }

    /** The stopwatch's start button. */
    method ToggleStopwatch(now: int)
      modifies this
      ensures StopwatchState() == SW.Toggle(old(StopwatchState()), now)
      ensures CountdownState() == old(CountdownState())
      ensures store == old(store).(stopwatchState := P.Present(P.StopwatchSnapshotOf(StopwatchState())))
    {
      if stopwatchRunning {
        PauseStopwatch(now);
      } else {
        StartStopwatch(now);
      }
    }

    // -------------------------------------------------------------------------
    // Countdown

    /** The countdown display's text for the current time. It reads back as
        that time whenever the time is not negative. */
    method CountdownDisplay() returns (text: string)
      ensures text == Clock.FormatCountdownTime(CountdownState().time)
      ensures CountdownState().time >= 0 ==>
        Clock.ParseHms(text).Some? && Clock.JoinSeconds(Clock.ParseHms(text).value) == CountdownState().time
    {
      text := Clock.FormatCountdownTime(countdownTime);
      if countdownTime >= 0 {
        Clock.CountdownDisplayRoundTrip(countdownTime);
      }
    }

    /** `getInputTime`. */
    method GetInputTime() returns (total: int)
      ensures total == CD.InputTime(CountdownState())
      ensures Clock.InRange(CountdownState().inputs) ==> Clock.SplitSeconds(total) == CountdownState().inputs
    {
      total := hoursInput * 3600 + minutesInput * 60 + secondsInput;
      if Clock.InRange(CountdownState().inputs) {
        Clock.SplitJoin(CountdownState().inputs);
      }
    }

    /** `setInputTime`. */
    method SetInputTime(totalSeconds: int)
      modifies this
      ensures CountdownState() == old(CountdownState()).(inputs := Clock.SplitSeconds(totalSeconds))
      ensures StopwatchState() == old(StopwatchState()) && store == old(store)
    {
      hoursInput := totalSeconds / 3600;
      minutesInput := JsRem(totalSeconds, 3600) / 60;
      secondsInput := JsRem(totalSeconds, 60);
    }

    /** `saveCountdownState`. */
    method SaveCountdownState()
      modifies this
      ensures StopwatchState() == old(StopwatchState()) && CountdownState() == old(CountdownState())
      ensures store == old(store).(countdownState := P.Present(P.CountdownSnapshotOf(CountdownState())))
    {
      store := store.(countdownState := P.Present(P.CountdownSnapshot(countdownRunning, countdownTime, countdownInitialTime)));
    }

    /** `startCountdown`: `alerted` tells whether it stopped at the "Please set
        a time" alert, in which case nothing changes. */
    method StartCountdown() returns (alerted: bool)
      modifies this
      ensures alerted == CD.StartRejected(old(CountdownState()))
      ensures CountdownState() == CD.Start(old(CountdownState()))
      ensures StopwatchState() == old(StopwatchState())
      ensures store == if alerted then old(store)
                       else old(store).(countdownState := P.Present(P.CountdownSnapshotOf(CountdownState())))
    {
      if !countdownRunning {
        var inputTime := GetInputTime();
        if inputTime == 0 {
          return true;
        }
        countdownTime := inputTime;
        countdownInitialTime := inputTime;
      }
      countdownRunning := true;
      countdownFinished := false;
      SaveCountdownState();
      alerted := false;
    }

    /** `pauseCountdown`. */
    method PauseCountdown()
      modifies this
      ensures CountdownState() == CD.Pause(old(CountdownState()))
      ensures StopwatchState() == old(StopwatchState())
      ensures store == old(store).(countdownState := P.Present(P.CountdownSnapshotOf(CountdownState())))
    {
      countdownRunning := false;
      SaveCountdownState();
    }

    /** `resetCountdown`: removes `countdownState`. */
    method ResetCountdown()
      modifies this
      ensures CountdownState() == CD.Reset(old(CountdownState()))
      ensures StopwatchState() == old(StopwatchState())
      ensures store == old(store).(countdownState := P.Absent)
    {
      countdownRunning := false;
      countdownTime := countdownInitialTime;
      countdownFinished := false;
      SetInputTime(countdownInitialTime);
      store := store.(countdownState := P.Absent);
    }

    /** `finishCountdown`: nothing is saved. */
    method FinishCountdown()
      modifies this
      ensures CountdownState() == CD.Finish(old(CountdownState()))
      ensures StopwatchState() == old(StopwatchState()) && store == old(store)
    {
      countdownRunning := false;
      countdownTime := 0;
      countdownFinished := true;
    }

    /** `updateCountdownDisplay`: `shown` is the text put on the display before
        the step, which finishes on a time of zero or less and else counts down. */
    method Tick() returns (shown: string)
      modifies this
      ensures shown == Clock.FormatCountdownTime(old(countdownTime))
      ensures CountdownState() == CD.Tick(old(CountdownState()))
      ensures StopwatchState() == old(StopwatchState()) && store == old(store)
    {
      shown := Clock.FormatCountdownTime(countdownTime);
      if countdownTime <= 0 {
        FinishCountdown();
      } else {
        countdownTime := countdownTime - 1;
      }
    }

    /** The countdown's start button. */
    method ToggleCountdown() returns (alerted: bool)
      modifies this
      ensures CountdownState() == CD.Toggle(old(CountdownState()))
      ensures alerted == CD.StartRejected(old(CountdownState()))
      ensures StopwatchState() == old(StopwatchState())
      ensures store == if alerted then old(store)
                       else old(store).(countdownState := P.Present(P.CountdownSnapshotOf(CountdownState())))
    {
      if countdownRunning {
        PauseCountdown();
        alerted := false;
      } else {
        alerted := StartCountdown();
      }
    }

    /** A preset button with `data-seconds` = `seconds`. */
    method ApplyPreset(seconds: int)
      modifies this
      ensures CountdownState() == CD.ApplyPreset(old(CountdownState()), seconds)
      ensures StopwatchState() == old(StopwatchState()) && store == old(store)
    {
      SetInputTime(seconds);
      countdownInitialTime := seconds;
      countdownTime := seconds;
    }

    /** Typing `value` into one input, with that input's `min` and `max`. */
    method EditInput(field: CD.Field, value: int, min: int, max: int)
      modifies this
      ensures CountdownState() == CD.EditInput(old(CountdownState()), field, value, min, max)
      ensures StopwatchState() == old(StopwatchState()) && store == old(store)
    {
      var v := value;
      if v > max { v := max; }
      if value < min { v := min; }
      match field
      case Hours => hoursInput := v;
      case Minutes => minutesInput := v;
      case Seconds => secondsInput := v;
    }

    /** An input's `change` handler. */
    method CommitInputs()
      modifies this
      ensures CountdownState() == CD.CommitInputs(old(CountdownState()))
      ensures StopwatchState() == old(StopwatchState()) && store == old(store)
    {
      var totalSeconds := GetInputTime();
      countdownTime := totalSeconds;
      countdownInitialTime := totalSeconds;
    }

    // -------------------------------------------------------------------------
    // Loading the store

    /** `loadStopwatchState`: `parsed` is false when `JSON.parse` throws. */
    method LoadStopwatchState(now: int) returns (parsed: bool)
      modifies this
      ensures parsed == !store.stopwatchState.Corrupt?
      ensures StopwatchState() == (if store.stopwatchState.Present?
        then P.RestoreStopwatch(old(StopwatchState()), store.stopwatchState.value, now)
        else old(StopwatchState()))
      ensures CountdownState() == old(CountdownState()) && store == old(store)
    {
      match store.stopwatchState
      case Absent => parsed := true;
      case Corrupt => parsed := false;
      case Present(state) =>
        stopwatchElapsed := state.elapsed;
        if state.running {
          var timeSinceStart := now - state.startTime;
          stopwatchElapsed := state.elapsed + timeSinceStart;
        }
        parsed := true;
    }

    /** `loadLaps`: the saved rows are appended one by one, then the count is
        read from the first row's number text. */
    method LoadLaps() returns (parsed: bool)
      modifies this
      ensures parsed == !store.stopwatchLaps.Corrupt?
      ensures StopwatchState() == (if store.stopwatchLaps.Present?
        then P.RestoreLaps(old(StopwatchState()), store.stopwatchLaps.value)
        else old(StopwatchState()))
      ensures CountdownState() == old(CountdownState()) && store == old(store)
    {
      match store.stopwatchLaps
      case Absent => parsed := true;
      case Corrupt => parsed := false;
      case Present(saved) =>
        var i := 0;
        while i < |saved|
          invariant 0 <= i <= |saved|
          invariant laps == old(laps) + saved[..i]
          invariant StopwatchState() == old(StopwatchState()).(laps := laps)
          invariant CountdownState() == old(CountdownState()) && store == old(store)
        {
          laps := laps + [saved[i]];
          i := i + 1;
        }
        assert saved[..i] == saved;
        if |saved| > 0 {
          var lastLapNumber := FirstNumber(saved[0].number);
          if lastLapNumber.Some? {
            lapsCount := lastLapNumber.value;
          }
        }
        parsed := true;
    }

    /** `loadCountdownState`. */
    method LoadCountdownState() returns (parsed: bool)
      modifies this
      ensures parsed == !store.countdownState.Corrupt?
      ensures CountdownState() == (if store.countdownState.Present?
        then P.RestoreCountdown(old(CountdownState()), store.countdownState.value)
        else old(CountdownState()))
      ensures StopwatchState() == old(StopwatchState()) && store == old(store)
    {
      match store.countdownState
      case Absent => parsed := true;
      case Corrupt => parsed := false;
      case Present(state) =>
        countdownInitialTime := state.initialTime;
        countdownTime := state.time;
        SetInputTime(countdownInitialTime);
        parsed := true;
    }

    /** `init`'s loading: the three keys in order, stopping at the first one on
        which `JSON.parse` throws. */
    method Init(now: int) returns (ok: bool)
      modifies this
      ensures var b := P.Boot(old(StopwatchState()), old(CountdownState()), old(store), now);
        StopwatchState() == b.stopwatch && CountdownState() == b.countdown && ok == b.ok
      ensures store == old(store)
    {
      ok := LoadStopwatchState(now);
      if !ok { return; }
      ok := LoadLaps();
      if !ok { return; }
      ok := LoadCountdownState();
    }
  }
}
