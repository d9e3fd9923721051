/** The few JavaScript string and number conversions the timer relies on:
    `String(n)` for integers, `padStart(2, '0')`, the remainder operator `%`,
    and recovering a number from a label with `s.match(/\d+/)` and `parseInt`. */
module JsText {

  datatype Option<T> = None | Some(value: T)

  predicate IsDigit(c: char) {
    '0' <= c <= '9'
  }

  predicate AllDigits(s: string) {
    forall i :: 0 <= i < |s| ==> IsDigit(s[i])
  }

  function DigitChar(d: nat): (c: char)
    requires d < 10
    ensures IsDigit(c) && c as int - '0' as int == d
  {
    ('0' as int + d) as char
  }

  function DigitValue(c: char): nat
    requires IsDigit(c)
  {
    c as int - '0' as int
  }

  /** `a % b` as JavaScript evaluates it for a positive divisor: the remainder
      takes the sign of the dividend (truncated division), unlike Dafny's `%`. */
  function JsRem(a: int, b: int): (r: int)
    requires b > 0
    ensures -b < r < b
    ensures a >= 0 ==> r == a % b
    ensures a <= 0 ==> r <= 0
    ensures (a - r) % b == 0
  {
    if a >= 0 then
      MultipleMod(a / b, b);
      a % b
    else
      NegativeDividend(a, b);
      -((-a) % b)
  }

  /** For a negative dividend, taking off the remainder of its negation leaves
      a multiple of `b`. */
  lemma NegativeDividend(a: int, b: int)
    requires a < 0 && b > 0
    ensures (a + (-a) % b) % b == 0
  {
    var n := -a;
    assert n == (n / b) * b + n % b;
    MultipleMod(-(n / b), b);
    assert a + n % b == (-(n / b)) * b;
  }

  lemma MultipleMod(m: int, b: int)
    requires b > 0
    ensures (m * b) % b == 0
  {
    var x := m * b;
    assert x == (x / b) * b + x % b;
    var d := m - x / b;
    assert x % b == d * b;
    ScaledBounds(d, b);
  }

  /** A non-zero multiple of `b` is at least `b` away from zero. */
  lemma ScaledBounds(d: int, b: int)
    requires b > 0
    ensures d >= 1 ==> d * b >= b
    ensures d <= -1 ==> d * b <= -b
  {
  }

  /** `String(n)` for a non-negative integer: decimal digits, no leading zero. */
  function NatToString(n: nat): (s: string)
    ensures 1 <= |s| && AllDigits(s)
    ensures (|s| == 1) == (n < 10)
    ensures |s| == 2 <==> 10 <= n < 100
    ensures s[0] == '0' ==> n == 0
  {
    if n < 10 then [DigitChar(n)] else NatToString(n / 10) + [DigitChar(n % 10)]
  }

  /** `String(n)` for any integer. */
  function IntToString(n: int): string {
    if n < 0 then "-" + NatToString(-n) else NatToString(n)
  }

  /** `parseInt` applied to a string made of digits only. */
  function DigitsValue(s: string): nat
    requires AllDigits(s)
  {
    if s == [] then 0 else DigitsValue(s[..|s| - 1]) * 10 + DigitValue(s[|s| - 1])
  }

  /** `s.padStart(2, '0')`. */
  function Pad2(s: string): (r: string)
    ensures |r| == if |s| < 2 then 2 else |s|
    ensures r[|r| - |s|..] == s
    ensures forall i :: 0 <= i < |r| - |s| ==> r[i] == '0'
  {
    if |s| == 0 then "00" else if |s| == 1 then "0" + s else s
  }

  /** The longest prefix of `s` made of digits. */
  function DigitPrefix(s: string): (r: string)
    ensures |r| <= |s| && r == s[..|r|] && AllDigits(r)
    ensures |r| < |s| ==> !IsDigit(s[|r|])
  {
    if s == [] || !IsDigit(s[0]) then [] else [s[0]] + DigitPrefix(s[1..])
  }

  /** What `s.match(/\d+/)` finds: the leftmost maximal run of digits, if any. */
  function FirstDigitRun(s: string): (r: Option<string>)
    ensures r.Some? ==> |r.value| >= 1 && AllDigits(r.value)
    ensures r.None? <==> (forall i :: 0 <= i < |s| ==> !IsDigit(s[i]))
    ensures r.Some? ==>
      exists i :: 0 <= i < |s| && IsDigit(s[i]) && (forall j :: 0 <= j < i ==> !IsDigit(s[j]))
        && r.value == DigitPrefix(s[i..])
  {
    if s == [] then None
    else if IsDigit(s[0]) then Some(DigitPrefix(s))
    else FirstDigitRun(s[1..])
  }

  /** `parseInt(s.match(/\d+/)[0])` when the match succeeds. */
  function FirstNumber(s: string): Option<nat> {
    match FirstDigitRun(s)
    case None => None
    case Some(d) => Some(DigitsValue(d))
  }

  // ---------------------------------------------------------------------------
  // Round trips between the renderings and their readings

  /** Reading back `String(n)` gives `n`. */
  lemma {:induction false} DigitsValueOfNatToString(n: nat)
    ensures DigitsValue(NatToString(n)) == n
  {
    if n >= 10 {
      var s := NatToString(n / 10);
      var t := s + [DigitChar(n % 10)];
      assert t[..|t| - 1] == s;
      DigitsValueOfNatToString(n / 10);
    }
  }

  /** A leading zero does not change the value `parseInt` reads. */
  lemma {:induction false} DigitsValueLeadingZero(s: string)
    requires AllDigits(s)
    ensures AllDigits("0" + s) && DigitsValue("0" + s) == DigitsValue(s)
  {
    var t := "0" + s;
    assert AllDigits(t) by {
      forall i | 0 <= i < |t| ensures IsDigit(t[i]) {
        if i > 0 { assert t[i] == s[i - 1]; }
      }
    }
    if s != [] {
      assert t[..|t| - 1] == "0" + s[..|s| - 1];
      assert t[|t| - 1] == s[|s| - 1];
      DigitsValueLeadingZero(s[..|s| - 1]);
    }
  }

  /** A two-digit field rendered with `padStart(2, '0')` reads back exactly. */
  lemma Pad2RoundTrip(n: int)
    requires 0 <= n < 100
    ensures |Pad2(IntToString(n))| == 2
    ensures AllDigits(Pad2(IntToString(n))) && DigitsValue(Pad2(IntToString(n))) == n
  {
    var s := NatToString(n);
    DigitsValueOfNatToString(n);
    if n < 10 {
      DigitsValueLeadingZero(s);
    }
  }

  /** A field of any non-negative width rendered with `padStart(2, '0')` reads back exactly. */
  lemma PadRoundTrip(n: int)
    requires 0 <= n
    ensures |Pad2(IntToString(n))| >= 2
    ensures AllDigits(Pad2(IntToString(n))) && DigitsValue(Pad2(IntToString(n))) == n
  {
    if n < 100 {
      Pad2RoundTrip(n);
    } else {
      DigitsValueOfNatToString(n);
    }
  }

  /** A digit-only string is its own digit prefix. */
  lemma {:induction false} DigitPrefixOfDigits(s: string)
    requires AllDigits(s)
    ensures DigitPrefix(s) == s
  {
    if s != [] {
      assert AllDigits(s[1..]) by {
        forall i | 0 <= i < |s[1..]| ensures IsDigit(s[1..][i]) { assert s[1..][i] == s[i + 1]; }
      }
      DigitPrefixOfDigits(s[1..]);
      assert s == [s[0]] + s[1..];
    }
  }

  /** Text without digits in front of a string does not change what the regex finds. */
  lemma {:induction false} FirstDigitRunSkips(p: string, s: string)
    requires forall i :: 0 <= i < |p| ==> !IsDigit(p[i])
    ensures FirstDigitRun(p + s) == FirstDigitRun(s)
  {
    if p != [] {
      assert (p + s)[0] == p[0];
      assert (p + s)[1..] == p[1..] + s;
      FirstDigitRunSkips(p[1..], s);
    } else {
      assert p + s == s;
    }
  }

  /** The number in a label "<words> N" is recovered by the regex and `parseInt`. */
  lemma NumberAfterWords(p: string, n: nat)
    requires forall i :: 0 <= i < |p| ==> !IsDigit(p[i])
    ensures FirstNumber(p + NatToString(n)) == Some(n)
  {
    var s := NatToString(n);
    FirstDigitRunSkips(p, s);
    DigitPrefixOfDigits(s);
    DigitsValueOfNatToString(n);
  }
}
