/** What the page keeps in `localStorage` and how it reads it back when the
    page loads. Each key holds JSON text; here a key holds nothing, a record of
    the key's own kind, or text on which `JSON.parse` throws. */
module Persistence {
  import opened JsText
  import Clock
  import SW = Stopwatch
  import CD = Countdown

  /** What `localStorage.getItem(key)` gives for one key. */
  datatype Slot<T> = Absent | Present(value: T) | Corrupt

  /** The `stopwatchState` record: `{running, elapsed, startTime}`. */
  datatype StopwatchSnapshot = StopwatchSnapshot(running: bool, elapsed: int, startTime: int)

  /** The `countdownState` record: `{running, time, initialTime}`. */
  datatype CountdownSnapshot = CountdownSnapshot(running: bool, time: int, initialTime: int)

  /** The keys `stopwatchState`, `stopwatchLaps` (the lap rows, newest first)
      and `countdownState`. */
  datatype Storage = Storage(
    stopwatchState: Slot<StopwatchSnapshot>,
    stopwatchLaps: Slot<seq<SW.LapEntry>>,
    countdownState: Slot<CountdownSnapshot>)

  /** `saveStopwatchState`'s record. */
  function StopwatchSnapshotOf(s: SW.State): StopwatchSnapshot {
    StopwatchSnapshot(s.running, s.elapsed, s.startTime)
  }

  /** `saveCountdownState`'s record. */
  function CountdownSnapshotOf(c: CD.State): CountdownSnapshot {
    CountdownSnapshot(c.running, c.time, c.initialTime)
  }

  /** `loadStopwatchState` on a record: a record saved while running is caught
      up by the time since its start; the running flag is not restored. */
  function RestoreStopwatch(s: SW.State, saved: StopwatchSnapshot, now: int): SW.State {
    s.(elapsed := if saved.running then saved.elapsed + (now - saved.startTime) else saved.elapsed)
  }

  /** `loadLaps` on a saved list: the rows are appended and the lap count is
      read from the first (newest) row's number text, when it has digits. */
  function RestoreLaps(s: SW.State, saved: seq<SW.LapEntry>): SW.State {
    s.(laps := s.laps + saved, lapsCount := RecoveredLapsCount(s.lapsCount, saved))
  }

  function RecoveredLapsCount(current: nat, saved: seq<SW.LapEntry>): nat {
    if |saved| == 0 then current
    else match FirstNumber(saved[0].number)
      case Some(n) => n
      case None => current
  }

  /** `loadCountdownState` on a record: time and duration come back, the inputs
      show the duration; the running flag is not restored and no time passes. */
  function RestoreCountdown(c: CD.State, saved: CountdownSnapshot): CD.State {
    c.(initialTime := saved.initialTime, time := saved.time, inputs := Clock.SplitSeconds(saved.initialTime))
  }

  /** The state after `init` has loaded the three keys, and whether it got
      through: `JSON.parse` throwing on one key ends `init` there. */
  datatype Booted = Booted(stopwatch: SW.State, countdown: CD.State, ok: bool)

  function Boot(sw: SW.State, cd: CD.State, st: Storage, now: int): Booted {
    if st.stopwatchState.Corrupt? then Booted(sw, cd, false)
    else
      var sw1 := if st.stopwatchState.Present? then RestoreStopwatch(sw, st.stopwatchState.value, now) else sw;
      if st.stopwatchLaps.Corrupt? then Booted(sw1, cd, false)
      else
        var sw2 := if st.stopwatchLaps.Present? then RestoreLaps(sw1, st.stopwatchLaps.value) else sw1;
        if st.countdownState.Corrupt? then Booted(sw2, cd, false)
        else
          var cd1 := if st.countdownState.Present? then RestoreCountdown(cd, st.countdownState.value) else cd;
          Booted(sw2, cd1, true)
  }

  // ---------------------------------------------------------------------------
  // Stopwatch record

  /** Reloading catches up: the restored bank is the time the stopwatch had
      accounted for at the reload, and the restored stopwatch is not running. */
  lemma StopwatchReloadCatchesUp(s: SW.State, page: SW.State, now: int)
    ensures var r := RestoreStopwatch(page, StopwatchSnapshotOf(s), now);
      r.elapsed == SW.Elapsed(s, now) && r.running == page.running
      && r.startTime == page.startTime && r.laps == page.laps
  {
  }

  /** A reload never shows less time than was accounted before it. */
  lemma ReloadNeverGoesBack(s: SW.State, page: SW.State, before: int, now: int)
    requires before <= now
    ensures SW.Elapsed(s, before) <= RestoreStopwatch(page, StopwatchSnapshotOf(s), now).elapsed
  {
    SW.ElapsedMonotone(s, before, now);
  }

  /** A record `{running: true, elapsed: 1000, startTime: T}` loaded at
      `T + 500` gives 1500 ms on a stopwatch that is not running. */
  lemma ReloadScenario(t: int)
    ensures var r := RestoreStopwatch(SW.Initial(), StopwatchSnapshot(true, 1000, t), t + 500);
      r.elapsed == 1500 && !r.running
  {
  }

  // ---------------------------------------------------------------------------
  // Lap list record

  /** Saved laps load back in the same newest-first order, and the lap count is
      the newest lap's number, so numbering carries on where it stopped. */
  lemma {:induction false} LapsRoundTrip(s: SW.State)
    requires SW.LapsNumbered(s)
    ensures var r := RestoreLaps(SW.Initial(), s.laps);
      r.laps == s.laps && r.lapsCount == s.lapsCount && SW.LapsNumbered(r)
  {
    RecoveredCountIsNewest(s);
    assert [] + s.laps == s.laps;
  }

  /** The count recovered from numbered rows is the newest lap's number. */
  lemma RecoveredCountIsNewest(s: SW.State)
    requires SW.LapsNumbered(s)
    ensures RecoveredLapsCount(0, s.laps) == s.lapsCount
  {
    if |s.laps| > 0 {
      assert s.laps[0].number == "Lap " + NatToString(s.lapsCount);
      NumberAfterWords("Lap ", s.lapsCount);
    }
  }

  // ---------------------------------------------------------------------------
  // Countdown record

  /** Time and duration survive a reload, the inputs read back as the duration,
      and the running flag is whatever the loading page has. */
  lemma CountdownReloadRoundTrip(c: CD.State, page: CD.State)
    requires c.initialTime >= 0
    ensures var r := RestoreCountdown(page, CountdownSnapshotOf(c));
      r.time == c.time && r.initialTime == c.initialTime && r.running == page.running
      && CD.InputTime(r) == c.initialTime
  {
    Clock.JoinSplit(c.initialTime);
  }

  /** The countdown record is written on start and pause only, and reloading it
      makes no correction for time: after `k` ticks since the last save the
      reload comes back `k` seconds early. */
  lemma CountdownReloadUncorrected(c: CD.State, page: CD.State, k: nat)
    requires k <= c.time
    ensures CD.Ticks(c, k).time == c.time - k
    ensures RestoreCountdown(page, CountdownSnapshotOf(c)).time == c.time
  {
    CD.TicksCountDown(c, k);
  }

  // ---------------------------------------------------------------------------
  // Page load

  /** `init` gets through exactly when no key holds text `JSON.parse` rejects;
      a rejected key leaves its own part and every later part as it was. */
  lemma BootStopsAtCorruptKey(sw: SW.State, cd: CD.State, st: Storage, now: int)
    ensures Boot(sw, cd, st, now).ok
      <==> !st.stopwatchState.Corrupt? && !st.stopwatchLaps.Corrupt? && !st.countdownState.Corrupt?
    ensures st.stopwatchState.Corrupt? ==> Boot(sw, cd, st, now) == Booted(sw, cd, false)
    ensures st.stopwatchLaps.Corrupt? ==>
      Boot(sw, cd, st, now).stopwatch.laps == sw.laps && Boot(sw, cd, st, now).stopwatch.lapsCount == sw.lapsCount
    ensures !Boot(sw, cd, st, now).ok ==> Boot(sw, cd, st, now).countdown == cd
  {
  }

  /** After a page load neither timer runs, whatever the records say. */
  lemma BootLeavesStopped(sw: SW.State, cd: CD.State, st: Storage, now: int)
    requires !sw.running && !cd.running
    ensures !Boot(sw, cd, st, now).stopwatch.running && !Boot(sw, cd, st, now).countdown.running
  {
  }

  /** `resetStopwatch` removes `stopwatchState` but not `stopwatchLaps`: after a
      reset and a reload the laps of before the reset come back. */
  lemma ResetThenReloadRestoresLaps(s: SW.State, st: Storage, cd: CD.State, now: int)
    requires SW.LapsNumbered(s) && |s.laps| > 0
    requires st.stopwatchLaps == Present(s.laps)
    ensures SW.Reset(s).laps == []
    ensures var b := Boot(SW.Initial(), cd, st.(stopwatchState := Absent), now);
      b.stopwatch.laps == s.laps && b.stopwatch.lapsCount == s.lapsCount
  {
    LapsRoundTrip(s);
  }
}
