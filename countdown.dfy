/** The countdown's state and its commands as functions of the state. The
    countdown counts whole seconds; `Tick` is the once-a-second step the page's
    interval runs while the countdown is running. */
module Countdown {
  import Clock

  /** One of the three number inputs. */
  datatype Field = Hours | Minutes | Seconds

  /** `countdownRunning`, `countdownTime`, `countdownInitialTime`, whether the
      "time's up" state is shown (the message and the finished style of the
      card), and the values of the hour, minute and second inputs. */
  datatype State = State(running: bool, time: int, initialTime: int, finished: bool, inputs: Clock.Hms)

  /** The page's starting state, with whatever the inputs initially hold. */
  function Initial(inputs: Clock.Hms): (c: State)
    ensures Steady(c) && c.time == 0 && c.initialTime == 0
    ensures !c.running && !c.finished && c.inputs == inputs
  {
    State(false, 0, 0, false, inputs)
  }

  /** `getInputTime()`: the inputs as a count of seconds. */
  function InputTime(c: State): int {
    Clock.JoinSeconds(c.inputs)
  }

  /** `startCountdown` alerts "Please set a time" and changes nothing. */
  function StartRejected(c: State): (r: bool)
    ensures r ==> !c.running
    ensures NonNegativeInputs(c) ==> (r <==> !c.running && c.inputs == Clock.Hms(0, 0, 0))
  {
    !c.running && InputTime(c) == 0
  }

  /** `startCountdown`: when not running, always reloads the time from the inputs. */
  function Start(c: State): State {
    if StartRejected(c) then c
    else if c.running then c.(finished := false)
    else c.(running := true, time := InputTime(c), initialTime := InputTime(c), finished := false)
  }

  /** `pauseCountdown`. */
  function Pause(c: State): State {
    c.(running := false)
  }

  /** `finishCountdown`. */
  function Finish(c: State): State {
    c.(running := false, time := 0, finished := true)
  }

  /** `updateCountdownDisplay`: finish on a time of zero or less, else count down. */
  function Tick(c: State): State {
    if c.time <= 0 then Finish(c) else c.(time := c.time - 1)
  }

  /** `resetCountdown`: back to the configured duration, written into the inputs. */
  function Reset(c: State): State {
    c.(running := false, time := c.initialTime, finished := false, inputs := Clock.SplitSeconds(c.initialTime))
  }

  /** A preset button: sets inputs, duration and time, whatever the state. */
  function ApplyPreset(c: State, seconds: int): State {
    c.(inputs := Clock.SplitSeconds(seconds), initialTime := seconds, time := seconds)
  }

  /** The inputs' `input` handler: a value above `max` becomes `max`, one below
      `min` becomes `min`; both tests read the typed value, so `min` wins when
      `max < min`. */
  function Clamp(value: int, min: int, max: int): (r: int)
    ensures min <= max ==> min <= r <= max
    ensures min <= value <= max ==> r == value
    ensures value < min ==> r == min
    ensures value > max && value >= min ==> r == max
  {
    if value < min then min else if value > max then max else value
  }

  /** Typing `value` into one input, followed by its `input` handler. */
  function EditInput(c: State, field: Field, value: int, min: int, max: int): State {
    var v := Clamp(value, min, max);
    match field
    case Hours => c.(inputs := c.inputs.(hours := v))
    case Minutes => c.(inputs := c.inputs.(minutes := v))
    case Seconds => c.(inputs := c.inputs.(seconds := v))
  }

  /** The inputs' `change` handler: duration and time follow the inputs. */
  function CommitInputs(c: State): State {
    c.(time := InputTime(c), initialTime := InputTime(c))
  }

  /** The start button's handler. */
  function Toggle(c: State): State {
    if c.running then Pause(c) else Start(c)
  }

  /** `k` ticks in a row. */
  function Ticks(c: State, k: nat): State
    decreases k
  {
    if k == 0 then c else Ticks(Tick(c), k - 1)
  }

  // ---------------------------------------------------------------------------
  // Ticking

  /** A tick on a positive time takes one second off and changes nothing else;
      on zero or less it finishes: stopped, zero, finished. */
  lemma TickSteps(c: State)
    ensures c.time > 0 ==> Tick(c) == c.(time := c.time - 1)
    ensures c.time <= 0 ==> !Tick(c).running && Tick(c).time == 0 && Tick(c).finished
    ensures Tick(c).inputs == c.inputs && Tick(c).initialTime == c.initialTime
  {
  }

  /** Up to `time` ticks only count down. */
  lemma {:induction false} TicksCountDown(c: State, k: nat)
    requires k <= c.time
    ensures Ticks(c, k) == c.(time := c.time - k)
    decreases k
  {
    if k > 0 {
      TicksCountDown(c.(time := c.time - 1), k - 1);
    }
  }

  /** From `n > 0`, `n` ticks reach zero without finishing; the finish comes on
      tick `n + 1`, one second after the display first shows zero. */
  lemma FinishOneTickLate(c: State)
    requires c.time > 0
    ensures Ticks(c, c.time as nat) == c.(time := 0)
    ensures Ticks(c, c.time as nat + 1) == Finish(c)
  {
    var n := c.time as nat;
    TicksCountDown(c, n);
    assert Ticks(c, n + 1) == Ticks(Tick(c), n);
    if n > 1 {
      TicksCountDown(Tick(c), n - 1);
      assert Ticks(Tick(c), n) == Ticks(Ticks(Tick(c), n - 1), 1) by {
        TicksSplit(Tick(c), n - 1, 1);
      }
    }
  }

  /** Ticking `j` then `k` times is ticking `j + k` times. */
  lemma {:induction false} TicksSplit(c: State, j: nat, k: nat)
    ensures Ticks(Ticks(c, j), k) == Ticks(c, j + k)
    decreases j
  {
    if j > 0 {
      TicksSplit(Tick(c), j - 1, k);
    }
  }

  /** Ticking a finished countdown again finishes it again: the state stays put. */
  lemma FinishIsFixedPoint(c: State)
    ensures Tick(Finish(c)) == Finish(c)
  {
  }

  /** A preset followed by start runs from the preset, whatever the inputs held. */
  lemma PresetThenStart(c: State, seconds: int)
    requires !c.running && seconds > 0
    ensures var r := Start(ApplyPreset(c, seconds));
      r.running && r.time == seconds && r.initialTime == seconds && !r.finished
  {
    Clock.JoinSplit(seconds);
    StartFromInputs(ApplyPreset(c, seconds));
  }

  /** A countdown running from 5 s (as `PresetThenStart` leaves one): three ticks leave 2 s; five leave 0 s, still
      running and not finished; the sixth finishes. */
  lemma FiveSecondTicks(c: State)
    requires c.running && c.time == 5 && !c.finished
    ensures Ticks(c, 3).time == 2 && !Ticks(c, 3).finished
    ensures Ticks(c, 5).time == 0 && !Ticks(c, 5).finished && Ticks(c, 5).running
    ensures Ticks(c, 6).finished && !Ticks(c, 6).running
  {
    TicksCountDown(c, 3);
    FinishOneTickLate(c);
  }

  // ---------------------------------------------------------------------------
  // Start, pause, reset

  /** `startCountdown` on a stopped countdown with a zero input total changes
      nothing; otherwise time and duration become the input total and it runs. */
  lemma StartFromInputs(c: State)
    requires !c.running
    ensures StartRejected(c) <==> InputTime(c) == 0
    ensures StartRejected(c) ==> Start(c) == c
    ensures !StartRejected(c) ==> Start(c) == c.(running := true, time := InputTime(c),
                                                 initialTime := InputTime(c), finished := false)
  {
  }

  /** Pausing after `k` ticks and starting again does not resume: the time is
      reloaded from the inputs, which neither ticking nor pausing touched. */
  lemma PauseThenStartRestarts(c: State, k: nat)
    requires !c.running && InputTime(c) > k
    ensures var running := Ticks(Start(c), k);
      && running.time == InputTime(c) - k
      && Start(Pause(running)).time == InputTime(c)
      && Start(Pause(running)).running
  {
    var s := Start(c);
    TicksCountDown(s, k);
  }

  /** `resetCountdown` stops, restores the duration and writes it back into
      the inputs so that reading them gives the duration again. */
  lemma ResetRestoresDuration(c: State)
    requires c.initialTime >= 0
    ensures var r := Reset(c);
      !r.running && !r.finished && r.time == c.initialTime && r.initialTime == c.initialTime
      && InputTime(r) == c.initialTime && Clock.InRange(r.inputs)
  {
    Clock.JoinSplit(c.initialTime);
  }

  /** A preset changes the time even while the countdown runs: it keeps running
      from the preset value. */
  lemma PresetWhileRunning(c: State, seconds: int)
    requires c.running && seconds >= 0
    ensures ApplyPreset(c, seconds).running && ApplyPreset(c, seconds).time == seconds
    ensures InputTime(ApplyPreset(c, seconds)) == seconds
  {
    Clock.JoinSplit(seconds);
  }

  // ---------------------------------------------------------------------------
  // The steady-state invariant

  /** `0 <= time <= initialTime`. */
  predicate Steady(c: State) {
    0 <= c.time <= c.initialTime
  }

  predicate NonNegativeInputs(c: State) {
    c.inputs.hours >= 0 && c.inputs.minutes >= 0 && c.inputs.seconds >= 0
  }

  /** Every command keeps `0 <= time <= initialTime` and inputs that are not
      negative, given a preset that is not negative and an edit whose `min` and
      `max` are not negative. */
  lemma CommandsKeepSteady(c: State, seconds: int, field: Field, value: int, min: int, max: int)
    requires Steady(c) && NonNegativeInputs(c) && seconds >= 0 && min >= 0 && max >= 0
    ensures Steady(Tick(c)) && Steady(Finish(c)) && Steady(Pause(c)) && Steady(Reset(c))
    ensures Steady(Start(c)) && Steady(CommitInputs(c)) && Steady(ApplyPreset(c, seconds))
    ensures Steady(EditInput(c, field, value, min, max))
    ensures NonNegativeInputs(Tick(c)) && NonNegativeInputs(Finish(c)) && NonNegativeInputs(Pause(c))
    ensures NonNegativeInputs(Reset(c)) && NonNegativeInputs(Start(c)) && NonNegativeInputs(CommitInputs(c))
    ensures NonNegativeInputs(ApplyPreset(c, seconds)) && NonNegativeInputs(EditInput(c, field, value, min, max))
  {
  }

  /** The user's commands and the interval's tick. */
  datatype Command =
    | StartCommand | PauseCommand | ToggleCommand | TickCommand | ResetCommand
    | PresetCommand(seconds: int)
    | EditCommand(field: Field, value: int, min: int, max: int)
    | CommitCommand

  function Apply(c: State, cmd: Command): State {
    match cmd
    case StartCommand => Start(c)
    case PauseCommand => Pause(c)
    case ToggleCommand => Toggle(c)
    case TickCommand => Tick(c)
    case ResetCommand => Reset(c)
    case PresetCommand(seconds) => ApplyPreset(c, seconds)
    case EditCommand(field, value, min, max) => EditInput(c, field, value, min, max)
    case CommitCommand => CommitInputs(c)
  }

  function Run(c: State, cmds: seq<Command>): State
    decreases |cmds|
  {
    if cmds == [] then c else Run(Apply(c, cmds[0]), cmds[1..])
  }

  /** Presets from buttons with a non-negative `data-seconds`, inputs whose
      `min` and `max` are not negative. */
  predicate WellFormed(cmd: Command) {
    match cmd
    case PresetCommand(seconds) => seconds >= 0
    case EditCommand(_, _, min, max) => min >= 0 && max >= 0
    case _ => true
  }

  /** One well-formed command keeps the state steady with non-negative inputs. */
  lemma ApplyKeepsSteady(c: State, cmd: Command)
    requires Steady(c) && NonNegativeInputs(c) && WellFormed(cmd)
    ensures Steady(Apply(c, cmd)) && NonNegativeInputs(Apply(c, cmd))
  {
    match cmd {
      case PresetCommand(seconds) => CommandsKeepSteady(c, seconds, Hours, 0, 0, 0);
      case EditCommand(field, value, min, max) => CommandsKeepSteady(c, 0, field, value, min, max);
      case _ => CommandsKeepSteady(c, 0, Hours, 0, 0, 0);
    }
  }

  /** From a steady state, any run of well-formed commands ends steady, with
      inputs that are not negative. */
  lemma {:induction false} RunKeepsSteady(c: State, cmds: seq<Command>)
    requires Steady(c) && NonNegativeInputs(c)
    requires forall i :: 0 <= i < |cmds| ==> WellFormed(cmds[i])
    ensures Steady(Run(c, cmds)) && NonNegativeInputs(Run(c, cmds))
    decreases |cmds|
  {
    if cmds != [] {
      var cmd := cmds[0];
      ApplyKeepsSteady(c, cmd);
      assert forall i :: 0 <= i < |cmds[1..]| ==> WellFormed(cmds[1..][i]) by {
        forall i | 0 <= i < |cmds[1..]| ensures WellFormed(cmds[1..][i]) {
          assert cmds[1..][i] == cmds[i + 1];
        }
      }
      RunKeepsSteady(Apply(c, cmd), cmds[1..]);
    }
  }

  /** Clamping lands in range and clamping again changes nothing. */
  lemma ClampIdempotent(value: int, min: int, max: int)
    requires min <= max
    ensures Clamp(Clamp(value, min, max), min, max) == Clamp(value, min, max)
  {
  }

  /** Editing an input with a minimum of zero keeps the inputs non-negative. */
  lemma EditKeepsNonNegative(c: State, field: Field, value: int, max: int)
    requires NonNegativeInputs(c) && max >= 0
    ensures NonNegativeInputs(EditInput(c, field, value, 0, max))
  {
  }
}
