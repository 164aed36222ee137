/** Clock times as the application writes and reads them: "HH:MM" (what
    `toTimeString().slice(0, 5)` and an <input type="time"> produce) and
    "HH:MM:SS" (what the database's time columns return). Every parser in the
    application splits on ':' and keeps the first two numbers, so the seconds
    field never takes part in any computation. */
module TimeOfDay {

  predicate IsDigit(c: char) { '0' <= c <= '9' }

  function DigitValue(c: char): (v: nat)
    requires IsDigit(c)
    ensures v < 10
  {
    (c as int) - ('0' as int)
  }

  function DigitChar(v: nat): (c: char)
    requires v < 10
    ensures IsDigit(c) && DigitValue(c) == v
  {
    (('0' as int) + v) as char
  }

  /** The number written by two decimal digits. */
  function TwoDigits(hi: char, lo: char): (n: nat)
    requires IsDigit(hi) && IsDigit(lo)
    ensures n < 100
  {
    10 * DigitValue(hi) + DigitValue(lo)
  }

  /** "DD:DD" at the head of `s`, optionally followed by ":DD". */
  predicate ClockShape(s: seq<char>)
  {
    (|s| == 5 || |s| == 8) &&
    IsDigit(s[0]) && IsDigit(s[1]) && s[2] == ':' && IsDigit(s[3]) && IsDigit(s[4]) &&
    (|s| == 8 ==> s[5] == ':' && IsDigit(s[6]) && IsDigit(s[7]))
  }

  /** First component of `s.split(':').map(Number)`. */
  function HourOf(s: seq<char>): nat
    requires ClockShape(s)
  {
    TwoDigits(s[0], s[1])
  }

  /** Second component of `s.split(':').map(Number)`. */
  function MinuteOf(s: seq<char>): nat
    requires ClockShape(s)
  {
    TwoDigits(s[3], s[4])
  }

  /** A well-formed time of day: the clock shape with hour < 24, minute < 60
      and, when present, second < 60. */
  predicate WellFormedTime(s: seq<char>)
  {
    ClockShape(s) && HourOf(s) < 24 && MinuteOf(s) < 60 &&
    (|s| == 8 ==> TwoDigits(s[6], s[7]) < 60)
  }

  /** Minutes since midnight, the quantity both lateness computations subtract. */
  function MinuteOfDay(s: seq<char>): (m: nat)
    requires WellFormedTime(s)
    ensures m < 24 * 60
    ensures m / 60 == HourOf(s) && m % 60 == MinuteOf(s)
  {
    HourOf(s) * 60 + MinuteOf(s)
  }

  /** Signed minutes from `scheduled` to `actual` on the same calendar day:
      the value of `Math.floor((actual - scheduled) / 60000)` once both Dates
      were built with `setHours(h, m, 0, 0)` on one day. */
  function DelayMinutes(scheduled: seq<char>, actual: seq<char>): (d: int)
    requires WellFormedTime(scheduled) && WellFormedTime(actual)
    ensures -24 * 60 < d < 24 * 60
    ensures d <= 0 <==> MinuteOfDay(actual) <= MinuteOfDay(scheduled)
  {
    MinuteOfDay(actual) - MinuteOfDay(scheduled)
  }

  predicate ValidClock(hour: int, minute: int)
  {
    0 <= hour < 24 && 0 <= minute < 60
  }

  /** The zero-padded "HH:MM" that `toTimeString().slice(0, 5)` yields. */
  function FormatHHMM(hour: int, minute: int): (s: seq<char>)
    requires ValidClock(hour, minute)
    ensures |s| == 5 && WellFormedTime(s)
    ensures HourOf(s) == hour && MinuteOf(s) == minute
    ensures MinuteOfDay(s) == hour * 60 + minute
  {
    [DigitChar(hour / 10), DigitChar(hour % 10), ':', DigitChar(minute / 10), DigitChar(minute % 10)]
  }

  lemma DigitRoundTrip(c: char)
    requires IsDigit(c)
    ensures DigitChar(DigitValue(c)) == c
  {
  }

  /** Formatting the parsed hour and minute of an "HH:MM" string gives the
      string back: parsing and formatting are inverse on five-character times. */
  lemma {:induction false} ParseThenFormat(s: seq<char>)
    requires WellFormedTime(s) && |s| == 5
    ensures FormatHHMM(HourOf(s), MinuteOf(s)) == s
  {
    var h, m := HourOf(s), MinuteOf(s);
    assert h / 10 == DigitValue(s[0]) && h % 10 == DigitValue(s[1]);
    assert m / 10 == DigitValue(s[3]) && m % 10 == DigitValue(s[4]);
    DigitRoundTrip(s[0]);
    DigitRoundTrip(s[1]);
    DigitRoundTrip(s[3]);
    DigitRoundTrip(s[4]);
    var f := FormatHHMM(h, m);
    assert f[0] == s[0] && f[1] == s[1] && f[2] == s[2] && f[3] == s[3] && f[4] == s[4];
  }

  /** The seconds field is ignored: an "HH:MM:SS" time has the minute of day of
      its "HH:MM" prefix. */
  lemma SecondsIgnored(s: seq<char>)
    requires WellFormedTime(s) && |s| == 8
    ensures WellFormedTime(s[..5]) && MinuteOfDay(s) == MinuteOfDay(s[..5])
  {
  }
}
