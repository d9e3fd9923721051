/** Splitting a count of seconds or milliseconds into clock fields and
    rendering them as `HH:MM:SS` (countdown, hour/minute/second inputs) or
    `HH:MM:SS.cc` (stopwatch, `cc` in hundredths). */
module Clock {
  import opened JsText

  /** Hours, minutes and seconds, as the three countdown inputs hold them and
      as the displays show them. */
  datatype Hms = Hms(hours: int, minutes: int, seconds: int)

  /** `Math.floor(t / 3600)`, `Math.floor((t % 3600) / 60)` and `t % 60`, the
      split shared by the countdown display and the inputs. For a positive
      divisor Dafny's `/` is JavaScript's `Math.floor` of the quotient; `%` is
      JavaScript's, as `JsRem`. */
  function SplitSeconds(t: int): (h: Hms)
    ensures t >= 0 ==> 0 <= h.hours && 0 <= h.minutes < 60 && 0 <= h.seconds < 60
  {
    Hms(t / 3600, JsRem(t, 3600) / 60, JsRem(t, 60))
  }

  /** `hours * 3600 + minutes * 60 + seconds`, as the inputs are read back. */
  function JoinSeconds(h: Hms): int {
    h.hours * 3600 + h.minutes * 60 + h.seconds
  }

  predicate InRange(h: Hms) {
    0 <= h.hours && 0 <= h.minutes < 60 && 0 <= h.seconds < 60
  }

  /** Splitting a non-negative count of seconds and joining the fields gives it back. */
  lemma JoinSplit(t: int)
    requires t >= 0
    ensures JoinSeconds(SplitSeconds(t)) == t
  {
    var q, r := t / 3600, t % 3600;
    assert t == q * 3600 + r;
    var m, s := r / 60, r % 60;
    assert r == m * 60 + s;
    assert t == (q * 60 + m) * 60 + s;
    assert t % 60 == s;
  }

  /** Fields in their natural ranges survive joining and splitting again. */
  lemma SplitJoin(h: Hms)
    requires InRange(h)
    ensures SplitSeconds(JoinSeconds(h)) == h
  {
    var t := JoinSeconds(h);
    var r := h.minutes * 60 + h.seconds;
    assert 0 <= r < 3600;
    assert t == h.hours * 3600 + r;
    assert t / 3600 == h.hours && t % 3600 == r;
    assert r / 60 == h.minutes && r % 60 == h.seconds;
    assert t == (h.hours * 60 + h.minutes) * 60 + h.seconds;
    assert t % 60 == h.seconds;
  }

  /** The stopwatch display's fields: the clock part of the whole seconds and
      `Math.floor((ms % 1000) / 10)` hundredths. */
  datatype StopwatchFields = StopwatchFields(clock: Hms, hundredths: int)

  function StopwatchFieldsOf(ms: int): (f: StopwatchFields)
    ensures ms >= 0 ==> InRange(f.clock) && 0 <= f.hundredths < 100
  {
    StopwatchFields(SplitSeconds(ms / 1000), JsRem(ms, 1000) / 10)
  }

  /** The milliseconds the fields stand for. */
  function FieldsMs(f: StopwatchFields): int {
    JoinSeconds(f.clock) * 1000 + f.hundredths * 10
  }

  /** The stopwatch fields lose exactly the last millisecond digit:
      `h*3600000 + m*60000 + s*1000 + cc*10 + ms%10 == ms`. */
  lemma StopwatchFieldsRecompose(ms: int)
    requires ms >= 0
    ensures var f := StopwatchFieldsOf(ms);
      f.clock.hours * 3600000 + f.clock.minutes * 60000 + f.clock.seconds * 1000
        + f.hundredths * 10 + ms % 10 == ms
  {
    var f := StopwatchFieldsOf(ms);
    assert f.clock == SplitSeconds(ms / 1000) && f.hundredths == (ms % 1000) / 10;
    JoinSplit(ms / 1000);
    MillisecondDigits(ms);
  }

  /** Whole seconds, hundredths and the last digit add back up to `ms`. */
  lemma MillisecondDigits(ms: int)
    requires ms >= 0
    ensures (ms / 1000) * 1000 + ((ms % 1000) / 10) * 10 + ms % 10 == ms
  {
    var k := ms % 1000;
    assert ms == (ms / 1000) * 1000 + k;
    assert k == (k / 10) * 10 + k % 10;
    assert ms % 10 == k % 10 by {
      assert ms == ((ms / 1000) * 100 + k / 10) * 10 + k % 10;
    }
  }

  // ---------------------------------------------------------------------------
  // Rendering

  /** The `HH:MM:SS` template shared by both displays: each field padded to
      two characters, joined with colons. */
  function FormatHms(h: Hms): string {
    Pad2(IntToString(h.hours)) + ":" + Pad2(IntToString(h.minutes)) + ":" + Pad2(IntToString(h.seconds))
  }

  /** `formatCountdownTime(totalSeconds)`: `HH:MM:SS`. */
  function FormatCountdownTime(t: int): string {
    FormatHms(SplitSeconds(t))
  }

  /** `formatStopwatchTime(ms)`: `HH:MM:SS.cc`. */
  function FormatStopwatchTime(ms: int): string {
    var f := StopwatchFieldsOf(ms);
    FormatHms(f.clock) + "." + Pad2(IntToString(f.hundredths))
  }

  // ---------------------------------------------------------------------------
  // Reading a display back: `HH:MM:SS` has two-digit minutes and seconds after
  // an hours field of two digits or more.

  function ParseHms(text: string): Option<Hms> {
    var n := |text|;
    if n < 8 then None
    else ReadFields(text[..n - 6], text[n - 6], text[n - 5..n - 3], text[n - 3], text[n - 2..])
  }

  /** Reads `hh`, `mm`, `ss` as numbers when both separators are colons. */
  function ReadFields(hh: string, sep1: char, mm: string, sep2: char, ss: string): Option<Hms> {
    if sep1 == ':' && sep2 == ':' && AllDigits(hh) && AllDigits(mm) && AllDigits(ss)
    then Some(Hms(DigitsValue(hh), DigitsValue(mm), DigitsValue(ss)))
    else None
  }

  function ParseStopwatchTime(text: string): Option<StopwatchFields> {
    var n := |text|;
    if n < 11 || text[n - 3] != '.' || !AllDigits(text[n - 2..]) then None
    else
      match ParseHms(text[..n - 3])
      case None => None
      case Some(h) => Some(StopwatchFields(h, DigitsValue(text[n - 2..])))
  }

  /** Where the three fields of `a:b:c` sit when `b` and `c` have two characters. */
  lemma JoinedParts(a: string, b: string, c: string)
    requires |b| == 2 && |c| == 2
    ensures var text, n := a + ":" + b + ":" + c, |a| + 6;
      |text| == n && text[..n - 6] == a && text[n - 6] == ':' && text[n - 5..n - 3] == b
        && text[n - 3] == ':' && text[n - 2..] == c
  {
    var ab := a + ":" + b;
    var text := ab + ":" + c;
    assert ab[..|a|] == a;
    assert ab[|a| + 1..] == b;
    assert text[..|ab|] == ab;
    assert text[|ab| + 1..] == c;
  }

  /** `HH:MM:SS` assembled from digit strings reads back as their values. */
  lemma ParseJoined(a: string, b: string, c: string)
    requires |a| >= 2 && |b| == 2 && |c| == 2
    requires AllDigits(a) && AllDigits(b) && AllDigits(c)
    ensures ParseHms(a + ":" + b + ":" + c) == Some(Hms(DigitsValue(a), DigitsValue(b), DigitsValue(c)))
  {
    ParseHmsSplitsJoined(a, b, c);
  }

  lemma ParseHmsSplitsJoined(a: string, b: string, c: string)
    requires |a| >= 2 && |b| == 2 && |c| == 2
    ensures ParseHms(a + ":" + b + ":" + c) == ReadFields(a, ':', b, ':', c)
  {
    JoinedParts(a, b, c);
  }

  /** The `HH:MM:SS` rendering of fields in range reads back as those fields. */
  lemma ParseFormatHms(h: Hms)
    requires InRange(h)
    ensures ParseHms(FormatHms(h)) == Some(h)
  {
    PadRoundTrip(h.hours);
    Pad2RoundTrip(h.minutes);
    Pad2RoundTrip(h.seconds);
    ParseJoined(Pad2(IntToString(h.hours)), Pad2(IntToString(h.minutes)), Pad2(IntToString(h.seconds)));
  }

  /** The countdown display shows a non-negative count of seconds without loss. */
  lemma CountdownDisplayRoundTrip(t: int)
    requires t >= 0
    ensures ParseHms(FormatCountdownTime(t)) == Some(SplitSeconds(t))
    ensures JoinSeconds(ParseHms(FormatCountdownTime(t)).value) == t
  {
    ParseFormatHms(SplitSeconds(t));
    JoinSplit(t);
  }

  /** The stopwatch display reads back as its fields, which give the time
      rounded down to ten milliseconds. */
  lemma StopwatchDisplayRoundTrip(ms: int)
    requires ms >= 0
    ensures ParseStopwatchTime(FormatStopwatchTime(ms)) == Some(StopwatchFieldsOf(ms))
    ensures FieldsMs(ParseStopwatchTime(FormatStopwatchTime(ms)).value) == ms - ms % 10
  {
    var f := StopwatchFieldsOf(ms);
    ParseFormatHms(f.clock);
    Pad2RoundTrip(f.hundredths);
    ParseDotted(FormatHms(f.clock), Pad2(IntToString(f.hundredths)));
    StopwatchFieldsRecompose(ms);
  }

  /** `HH:MM:SS.cc` assembled from a clock text and two digits splits back at the dot. */
  lemma ParseDotted(head: string, tail: string)
    requires |head| >= 8 && |tail| == 2 && AllDigits(tail)
    ensures ParseStopwatchTime(head + "." + tail)
      == match ParseHms(head)
         case None => None
         case Some(h) => Some(StopwatchFields(h, DigitsValue(tail)))
  {
    var text := head + "." + tail;
    var n := |text|;
    assert text[..n - 3] == head;
    assert text[n - 2..] == tail;
  }

  /** Two non-negative values show the same stopwatch text only when they agree
      down to ten milliseconds. */
  lemma StopwatchDisplayDistinguishes(a: int, b: int)
    requires a >= 0 && b >= 0
    ensures FormatStopwatchTime(a) == FormatStopwatchTime(b) <==> a / 10 == b / 10
  {
    if a / 10 == b / 10 {
      SameTenMillisecondsSameFields(a, b);
    } else {
      StopwatchDisplayRoundTrip(a);
      StopwatchDisplayRoundTrip(b);
    }
  }

  lemma SameTenMillisecondsSameFields(a: int, b: int)
    requires a >= 0 && b >= 0 && a / 10 == b / 10
    ensures StopwatchFieldsOf(a) == StopwatchFieldsOf(b)
  {
    assert a / 1000 == (a / 10) / 100 && b / 1000 == (b / 10) / 100;
    assert (a % 1000) / 10 == (a / 10) % 100 && (b % 1000) / 10 == (b / 10) % 100;
  }

  /** A stopwatch value of 1.5 s is shown as `00:00:01.50`. */
  lemma FormatOneAndAHalfSeconds()
    ensures FormatStopwatchTime(1500) == "00:00:01.50"
  {
    assert StopwatchFieldsOf(1500) == StopwatchFields(Hms(0, 0, 1), 50);
    assert NatToString(50) == "50";
  }
}
