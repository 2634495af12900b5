/**
 * The player's `m:ss` time labels: `formatTime` turns a media time in seconds into
 * whole minutes, a colon and two-digit whole seconds, and a NaN time into "0:00".
 */
module TimeFormat {

  datatype Option<T> = None | Some(value: T)

  /**
   * A time as the media element reports it: NaN while the duration is not known,
   * otherwise a number of seconds.
   */
  datatype Seconds = NaN | Finite(value: real)

  predicate IsDigits(s: string)
  {
    forall i :: 0 <= i < |s| ==> '0' <= s[i] <= '9'
  }

  function Digit(d: nat): (c: char)
    requires d < 10
    ensures '0' <= c <= '9' && c as int - '0' as int == d
  {
    ('0' as int + d) as char
  }

  function DigitValue(c: char): nat
  {
    if '0' <= c <= '9' then c as int - '0' as int else 0
  }

  /** The number a string of decimal digits denotes, most significant digit first. */
  function DigitsValue(s: string): nat
  {
    if s == [] then 0 else DigitsValue(s[..|s| - 1]) * 10 + DigitValue(s[|s| - 1])
  }

  /**
   * A non-negative integer in plain decimal digits with no leading zero; reading
   * them back gives the number. JavaScript prints integers this way below 10^21
   * and switches to exponent notation from 10^21 on.
   */
  function Decimal(n: nat): (r: string)
    ensures 0 < |r| && IsDigits(r)
    ensures r[0] == '0' <==> n == 0
    ensures |r| == 1 <==> n < 10
    ensures DigitsValue(r) == n
    decreases n
  {
    if n < 10 then [Digit(n)]
    else
      var front := Decimal(n / 10);
      var r := front + [Digit(n % 10)];
      assert r[..|r| - 1] == front;
      r
  }

  /** JavaScript's `a % 60` for `a >= 0`: what is left of `a` after its whole minutes. */
  function Mod60(a: real): (r: real)
    requires 0.0 <= a
    ensures 0.0 <= r < 60.0
    ensures a - r == (WholeMinutes(a) * 60) as real
  {
    var k := (a / 60.0).Floor;
    assert k as real <= a / 60.0 < k as real + 1.0;
    a - k as real * 60.0
  }

  /** `Math.floor(s / 60)`: the whole minutes in `s` seconds, the same as in its whole seconds. */
  function WholeMinutes(s: real): (m: nat)
    requires 0.0 <= s
    ensures m == s.Floor / 60
  {
    var m := (s / 60.0).Floor;
    assert 60 * m <= s.Floor < 60 * m + 60 by {
      assert m as real <= s / 60.0 < m as real + 1.0;
      assert (60 * m) as real <= s;
    }
    m
  }

  /** `Math.floor(s % 60)`: the seconds past the whole minutes, the same as for its whole seconds. */
  function WholeSeconds(s: real): (k: nat)
    requires 0.0 <= s
    ensures k == s.Floor % 60
  {
    var m := WholeMinutes(s);
    assert Mod60(s) == s - (60 * m) as real;
    assert (s - (60 * m) as real).Floor == s.Floor - 60 * m;
    Mod60(s).Floor
  }

  /** `formatTime(seconds)`: `"0:00"` for NaN, otherwise the whole minutes, a colon, and the seconds past them padded to two digits. */
  function FormatTime(t: Seconds): (r: string)
    requires t.Finite? ==> 0.0 <= t.value
    ensures 4 <= |r| && r[|r| - 3] == ':'
    ensures IsDigits(r[..|r| - 3]) && IsDigits(r[|r| - 2..])
  {
    match t
    case NaN => "0:00"
    case Finite(s) => Clock(WholeMinutes(s), WholeSeconds(s))
  }

  /** `${secs < 10 ? '0' : ''}${secs}`: seconds below a minute, always as two digits. */
  function TwoDigits(secs: nat): (r: string)
    requires secs < 60
    ensures |r| == 2 && IsDigits(r) && DigitsValue(r) == secs
  {
    if secs < 10 then
      var r := ['0', Digit(secs)];
      assert r[..1] == ['0'] && ['0'][..0] == [];
      r
    else
      Decimal(secs)
  }

  /** The label for `mins` minutes and `secs` seconds. */
  function Clock(mins: nat, secs: nat): (r: string)
    requires secs < 60
    ensures 4 <= |r| && r[|r| - 3] == ':'
    ensures r[..|r| - 3] == Decimal(mins) && r[|r| - 2..] == TwoDigits(secs)
  {
    var r := Decimal(mins) + ":" + TwoDigits(secs);
    assert r[..|r| - 3] == Decimal(mins);
    assert r[|r| - 2..] == TwoDigits(secs);
    r
  }

  /**
   * Reads an `m:ss` label back as a number of whole seconds: digits, a colon and
   * exactly two digits denoting less than 60; anything else is `None`.
   */
  function ParseClock(text: string): Option<nat>
  {
    if 4 <= |text| && text[|text| - 3] == ':' &&
       IsDigits(text[..|text| - 3]) && IsDigits(text[|text| - 2..]) &&
       DigitsValue(text[|text| - 2..]) < 60
    then Some(DigitsValue(text[..|text| - 3]) * 60 + DigitsValue(text[|text| - 2..]))
    else None
  }

  /** Every `m:ss` label reads back as the number of seconds it stands for. */
  lemma ClockRoundTrip(mins: nat, secs: nat)
    requires secs < 60
    ensures ParseClock(Clock(mins, secs)) == Some(mins * 60 + secs)
  {
    var r := Clock(mins, secs);
    assert DigitsValue(r[..|r| - 3]) == mins;
  }

  /**
   * A label shown for a known time reads back as the whole number of seconds
   * elapsed: the fraction of a second is dropped and nothing else is lost.
   */
  lemma FormatTimeReadsBack(s: real)
    requires 0.0 <= s
    ensures 0 <= s.Floor && ParseClock(FormatTime(Finite(s))) == Some(s.Floor as nat)
  {
    var mins, secs := WholeMinutes(s), WholeSeconds(s);
    assert FormatTime(Finite(s)) == Clock(mins, secs);
    ClockRoundTrip(mins, secs);
  }

  /**
   * The label for a known time is exactly the whole minutes of its whole seconds in
   * plain digits, a colon, and the seconds past them in two digits.
   */
  lemma FormatTimeValue(s: real)
    requires 0.0 <= s
    ensures 0 <= s.Floor
    ensures FormatTime(Finite(s)) == Decimal(s.Floor / 60) + ":" + TwoDigits(s.Floor % 60)
  {
    assert FormatTime(Finite(s)) == Clock(WholeMinutes(s), WholeSeconds(s));
  }

  /** A time past one minute: `formatTime(65)` is `"1:05"`. */
  lemma FormatTimePastAMinute()
    ensures FormatTime(Finite(65.0)) == "1:05"
  {
    assert (65.0).Floor == 65;
    assert FormatTime(Finite(65.0)) == Clock(1, 5);
    assert Decimal(1) == "1" && TwoDigits(5) == "05";
  }

  /** A time under a minute and an unknown time: `formatTime(9)` is `"0:09"`, `formatTime(NaN)` is `"0:00"`. */
  lemma FormatTimeUnderAMinute()
    ensures FormatTime(Finite(9.0)) == "0:09"
    ensures FormatTime(NaN) == "0:00"
  {
    assert (9.0).Floor == 9;
    assert FormatTime(Finite(9.0)) == Clock(0, 9);
    assert Decimal(0) == "0" && TwoDigits(9) == "09";
  }
}
