/** The stopwatch's state and its commands as functions of the state and the
    wall-clock reading `now` (milliseconds, what `Date.now()` returns). The
    `App` class in module TimerApp holds the same state in mutable fields and
    its methods are specified by these functions. */
module Stopwatch {
  import opened JsText
  import Clock

  /** How many laps the lap list keeps. */
  const MaxLaps: nat := 10

  /** One row of the lap list: its number text `Lap N` and its time text `HH:MM:SS.cc`. */
  datatype LapEntry = LapEntry(number: string, time: string)

  /** The number text of lap `n`. */
  function LapLabel(n: nat): string {
    "Lap " + NatToString(n)
  }

  /** The regex and `parseInt` read `n` back from the label `Lap n`. */
  lemma LapLabelNumber(n: nat)
    ensures FirstNumber(LapLabel(n)) == Some(n)
  {
    NumberAfterWords("Lap ", n);
  }

  /** `stopwatchRunning`, `stopwatchStartTime`, `stopwatchElapsed`, `lapsCount`
      and the rows of the lap list, newest first. `elapsed` banks the time of
      finished run segments; `startTime` is where the open segment began. */
  datatype State = State(running: bool, startTime: int, elapsed: int, lapsCount: nat, laps: seq<LapEntry>)

  /** The state the page starts with: stopped, start time 0, nothing banked,
      no laps; it accounts no time and its (empty) list is numbered. */
  function Initial(): (s: State)
    ensures !s.running && s.startTime == 0 && s.elapsed == 0 && s.lapsCount == 0 && s.laps == []
    ensures forall now :: Elapsed(s, now) == 0
    ensures LapsNumbered(s)
  {
    State(false, 0, 0, 0, [])
  }

  /** `startStopwatch`: opens a segment at `now`. It has no guard of its own. */
  function Start(s: State, now: int): State {
    s.(running := true, startTime := now)
  }

  /** `pauseStopwatch`: banks the open segment. */
  function Pause(s: State, now: int): State {
    s.(running := false, elapsed := s.elapsed + (now - s.startTime))
  }

  /** `resetStopwatch`: the start time is left as it was. */
  function Reset(s: State): State {
    s.(running := false, elapsed := 0, lapsCount := 0, laps := [])
  }

  /** `Date.now() - stopwatchStartTime + stopwatchElapsed`: what the display
      tick shows and what `recordLap` records, whether running or not. */
  function Reading(s: State, now: int): int {
    now - s.startTime + s.elapsed
  }

  /** The time the stopwatch has accounted for at `now`: the banked time, plus
      the open segment while running. */
  function Elapsed(s: State, now: int): int {
    if s.running then now - s.startTime + s.elapsed else s.elapsed
  }

  /** The lap list after `while (children.length > 10) removeChild(lastChild)`. */
  function Trim(laps: seq<LapEntry>): seq<LapEntry>
    decreases |laps|
  {
    if |laps| > MaxLaps then Trim(laps[..|laps| - 1]) else laps
  }

  /** `recordLap`: records the reading as the next lap. */
  function RecordLap(s: State, now: int): State {
    AddLap(s, Clock.FormatStopwatchTime(Reading(s, now)))
  }

  /** Numbers a lap with time text `time`, puts it first and trims the list. */
  function AddLap(s: State, time: string): State {
    var n := s.lapsCount + 1;
    s.(lapsCount := n, laps := Trim([LapEntry(LapLabel(n), time)] + s.laps))
  }

  /** The toggle button's handler: pause when running, start otherwise. */
  function Toggle(s: State, now: int): State {
    if s.running then Pause(s, now) else Start(s, now)
  }

  // ---------------------------------------------------------------------------
  // Time accounting

  /** Start and pause move no time: starting a stopped stopwatch and pausing a
      running one leave the accounted time where it was, and the toggle does too. */
  lemma ToggleKeepsElapsed(s: State, now: int)
    ensures Elapsed(Toggle(s, now), now) == Elapsed(s, now)
    ensures Toggle(s, now).running == !s.running
  {
  }

  /** One run segment from `t0` to `t1` adds exactly `t1 - t0` to the bank. */
  lemma StartPauseBanksSegment(s: State, t0: int, t1: int)
    ensures var r := Pause(Start(s, t0), t1);
      !r.running && r.elapsed == s.elapsed + (t1 - t0) && r.laps == s.laps && r.lapsCount == s.lapsCount
  {
  }

  /** Start-pause pairs at the given times, in order. */
  function RunSegments(s: State, segments: seq<(int, int)>): State
    decreases |segments|
  {
    if segments == [] then s
    else RunSegments(Pause(Start(s, segments[0].0), segments[0].1), segments[1..])
  }

  function TotalLength(segments: seq<(int, int)>): int
    decreases |segments|
  {
    if segments == [] then 0 else (segments[0].1 - segments[0].0) + TotalLength(segments[1..])
  }

  /** After any number of start/pause pairs the bank is the sum of the segment
      lengths, whatever the pauses between them lasted. */
  lemma {:induction false} RunSegmentsSumsLengths(s: State, segments: seq<(int, int)>)
    ensures RunSegments(s, segments).elapsed == s.elapsed + TotalLength(segments)
    ensures segments != [] ==> !RunSegments(s, segments).running
    ensures RunSegments(s, segments).laps == s.laps
    ensures RunSegments(s, segments).lapsCount == s.lapsCount
    decreases |segments|
  {
    if segments != [] {
      RunSegmentsSumsLengths(Pause(Start(s, segments[0].0), segments[0].1), segments[1..]);
    }
  }

  /** While running, the accounted time grows with the clock and never goes back. */
  lemma ElapsedMonotone(s: State, t1: int, t2: int)
    requires t1 <= t2
    ensures Elapsed(s, t1) <= Elapsed(s, t2)
    ensures s.running ==> Elapsed(s, t2) - Elapsed(s, t1) == t2 - t1
  {
  }

  /** `resetStopwatch` from any state: stopped, nothing accounted, no laps. */
  lemma ResetClears(s: State, now: int)
    ensures var r := Reset(s);
      !r.running && Elapsed(r, now) == 0 && r.lapsCount == 0 && r.laps == []
  {
  }

  /** Starting again while running (possible only by calling `startStopwatch`
      directly; the toggle handler avoids it) drops the open segment. */
  lemma DoubleStartDropsSegment(s: State, now: int)
    requires s.running
    ensures Elapsed(Start(s, now), now) == Elapsed(s, now) - (now - s.startTime)
  {
  }

  // ---------------------------------------------------------------------------
  // Laps

  /** One turn of the trimming loop does not change what trimming keeps. */
  lemma TrimDropsLast(laps: seq<LapEntry>)
    requires |laps| > MaxLaps
    ensures Trim(laps[..|laps| - 1]) == Trim(laps)
  {
  }

  /** Trimming keeps the newest ten rows, in order, and drops only the tail. */
  lemma {:induction false} TrimKeepsNewest(laps: seq<LapEntry>)
    ensures Trim(laps) == laps[..if |laps| <= MaxLaps then |laps| else MaxLaps]
    decreases |laps|
  {
    if |laps| > MaxLaps {
      TrimKeepsNewest(laps[..|laps| - 1]);
      assert laps[..|laps| - 1][..MaxLaps] == laps[..MaxLaps];
    } else {
      assert laps[..|laps|] == laps;
    }
  }

  /** `recordLap` raises the count by one and puts `Lap N` with the current
      reading first; the list then holds at most ten rows, the earlier rows keep
      their order and only the oldest are dropped. Nothing else changes. */
  lemma RecordLapShape(s: State, now: int)
    ensures var r := RecordLap(s, now);
      && r.lapsCount == s.lapsCount + 1
      && |r.laps| == (if |s.laps| < MaxLaps then |s.laps| + 1 else MaxLaps)
      && r.laps[0] == LapEntry(LapLabel(s.lapsCount + 1), Clock.FormatStopwatchTime(Reading(s, now)))
      && r.laps[1..] == s.laps[..|r.laps| - 1]
      && r.running == s.running && r.startTime == s.startTime && r.elapsed == s.elapsed
  {
    AddLapShape(s, Clock.FormatStopwatchTime(Reading(s, now)));
  }

  lemma AddLapShape(s: State, time: string)
    ensures var r := AddLap(s, time);
      && r.lapsCount == s.lapsCount + 1
      && |r.laps| == (if |s.laps| < MaxLaps then |s.laps| + 1 else MaxLaps)
      && r.laps[0] == LapEntry(LapLabel(s.lapsCount + 1), time)
      && r.laps[1..] == s.laps[..|r.laps| - 1]
      && r.running == s.running && r.startTime == s.startTime && r.elapsed == s.elapsed
  {
    var full := [LapEntry(LapLabel(s.lapsCount + 1), time)] + s.laps;
    TrimKeepsNewest(full);
    var k := if |full| <= MaxLaps then |full| else MaxLaps;
    assert full[..k][1..] == s.laps[..k - 1];
  }

  /** While running, a lap records the accounted time. */
  lemma LapTimeWhenRunning(s: State, now: int)
    requires s.running
    ensures var r := RecordLap(s, now);
      |r.laps| > 0 && r.laps[0].time == Clock.FormatStopwatchTime(Elapsed(s, now))
  {
    assert Reading(s, now) == Elapsed(s, now);
    RecordLapShape(s, now);
  }

  /** After a pause the lap button stays enabled, and a lap then records the
      banked time plus the time since the last start: the last segment is
      counted twice and the pause is counted too. */
  lemma LapAfterPauseDoubleCounts(s: State, t0: int, t1: int, t2: int)
    ensures var p := Pause(Start(s, t0), t1);
      Reading(p, t2) == Elapsed(p, t2) + (t2 - t0)
  {
  }

  /** A concrete case: run for one second from 0 ms, pause, lap at 3 s. The lap
      shows four seconds where one second was run. */
  lemma LapAfterPauseExample()
    ensures var p := Pause(Start(Initial(), 0), 1000);
      var r := RecordLap(p, 3000);
      && Elapsed(p, 3000) == 1000
      && |r.laps| > 0 && r.laps[0].time == Clock.FormatStopwatchTime(4000)
      && Clock.FormatStopwatchTime(4000) != Clock.FormatStopwatchTime(1000)
  {
    var p := Pause(Start(Initial(), 0), 1000);
    assert Reading(p, 3000) == 4000;
    RecordLapShape(p, 3000);
    Clock.StopwatchDisplayDistinguishes(4000, 1000);
  }

  /** The rows are `Lap n`, `Lap n-1`, ... counting down from `lapsCount`,
      and there are as many as were recorded, up to ten. */
  predicate LapsNumbered(s: State) {
    NumberedFrom(s.laps, s.lapsCount)
  }

  predicate NumberedFrom(laps: seq<LapEntry>, n: nat) {
    && |laps| == (if n < MaxLaps then n else MaxLaps)
    && forall i :: 0 <= i < |laps| ==> laps[i].number == LapLabel(n - i)
  }

  /** Numbering is kept by every command: lap numbers are never reused, and
      numbering continues after the oldest rows are dropped. */
  lemma CommandsKeepNumbering(s: State, now: int)
    requires LapsNumbered(s)
    ensures LapsNumbered(Start(s, now)) && LapsNumbered(Pause(s, now)) && LapsNumbered(Reset(s))
    ensures LapsNumbered(RecordLap(s, now))
  {
    RecordLapKeepsNumbering(s, now);
  }

  lemma RecordLapKeepsNumbering(s: State, now: int)
    requires LapsNumbered(s)
    ensures LapsNumbered(RecordLap(s, now))
  {
    var time := Clock.FormatStopwatchTime(Reading(s, now));
    PushKeepsNumbering(s.laps, s.lapsCount, LapEntry(LapLabel(s.lapsCount + 1), time));
  }

  /** Putting lap `n + 1` in front of rows numbered down from `n` and trimming
      gives rows numbered down from `n + 1`. */
  lemma PushKeepsNumbering(laps: seq<LapEntry>, n: nat, entry: LapEntry)
    requires NumberedFrom(laps, n)
    requires entry.number == LapLabel(n + 1)
    ensures NumberedFrom(Trim([entry] + laps), n + 1)
  {
    var full := [entry] + laps;
    TrimKeepsNewest(full);
    var t := Trim(full);
    forall i | 0 <= i < |t| ensures t[i].number == LapLabel(n + 1 - i) {
      if i > 0 {
        assert t[i] == full[i] == laps[i - 1];
      }
    }
  }

  /** Start at 0 ms, lap at 1500 ms gives `Lap 1` at
      `00:00:01.50`; pause at 2000 ms; reset clears everything. */
  lemma LapScenario()
    ensures var s1 := Start(Initial(), 0);
      var s2 := RecordLap(s1, 1500);
      var s3 := Pause(s2, 2000);
      && s2.laps == [LapEntry("Lap 1", "00:00:01.50")]
      && Elapsed(s3, 2000) == 2000
      && Elapsed(Reset(s3), 2500) == 0 && Reset(s3).laps == []
  {
    var s1 := Start(Initial(), 0);
    RecordLapShape(s1, 1500);
    Clock.FormatOneAndAHalfSeconds();
    FirstLapLabel();
  }

  lemma FirstLapLabel()
    ensures LapLabel(1) == "Lap 1"
  {
    assert NatToString(1) == "1";
  }
}
