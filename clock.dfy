/** Wall-clock display of a time cursor. A cursor is a real number of hours
    since midnight of the day the start time was read on; the display keeps
    only hour and minute of the day, so it wraps past midnight. */
module Clock {
  import opened Types

  const MinutesPerDay: int := 24 * 60

  /** Minute of the day shown for a cursor: floor to whole minutes, then
      drop whole days. */
  function MinuteOfDay(hours: real): (minute: int)
    ensures 0 <= minute < MinutesPerDay
  {
    (hours * 60.0).Floor % MinutesPerDay
  }

  predicate IsDigit(c: char) {
    '0' <= c <= '9'
  }

  function DigitValue(c: char): nat
    requires IsDigit(c)
  {
    c as int - '0' as int
  }

  function DigitChar(d: nat): (c: char)
    requires d < 10
    ensures IsDigit(c) && DigitValue(c) == d
  {
    ('0' as int + d) as char
  }

  /** Zero-padded two-digit rendering of `n`. */
  function TwoDigits(n: nat): (s: string)
    requires n < 100
    ensures |s| == 2 && IsDigit(s[0]) && IsDigit(s[1])
    ensures DigitValue(s[0]) * 10 + DigitValue(s[1]) == n
  {
    [DigitChar(n / 10), DigitChar(n % 10)]
  }

  /** The "HH:MM" text of a cursor. */
  function FormatClock(hours: real): (text: string)
    ensures |text| == 5 && text[2] == ':'
    ensures ParseClock(text) == Some(MinuteOfDay(hours))
  {
    var minute := MinuteOfDay(hours);
    TwoDigits(minute / 60) + ":" + TwoDigits(minute % 60)
  }

  /** Reads a canonical "HH:MM" text (two digits each, hour below 24,
      minute below 60) as a minute of the day. */
  function ParseClock(text: string): (minute: Option<int>)
    ensures minute.Some? ==> 0 <= minute.value < MinutesPerDay
  {
    if |text| == 5 && IsDigit(text[0]) && IsDigit(text[1]) && text[2] == ':' && IsDigit(text[3]) && IsDigit(text[4]) then
      var hour := DigitValue(text[0]) * 10 + DigitValue(text[1]);
      var min := DigitValue(text[3]) * 10 + DigitValue(text[4]);
      if hour < 24 && min < 60 then Some(hour * 60 + min) else None
    else
      None
  }

  lemma DigitRoundTrip(c: char)
    requires IsDigit(c)
    ensures DigitChar(DigitValue(c)) == c
  {
  }

  /** Formatting the time read from a canonical "HH:MM" text gives back the
      same text: the first entry of a day shows the configured start time. */
  lemma {:induction false} FormatParsedClock(text: string)
    requires ParseClock(text).Some?
    ensures FormatClock(ParseClock(text).value as real / 60.0) == text
  {
    var minute := ParseClock(text).value;
    var hour := DigitValue(text[0]) * 10 + DigitValue(text[1]);
    var min := DigitValue(text[3]) * 10 + DigitValue(text[4]);
    assert minute == hour * 60 + min;
    assert (minute as real / 60.0) * 60.0 == minute as real;
    assert MinuteOfDay(minute as real / 60.0) == minute;
    assert minute / 60 == hour && minute % 60 == min;
    DigitRoundTrip(text[0]);
    DigitRoundTrip(text[1]);
    DigitRoundTrip(text[3]);
    DigitRoundTrip(text[4]);
    assert TwoDigits(hour) == text[..2];
    assert TwoDigits(min) == text[3..];
    assert text == text[..2] + ":" + text[3..];
  }

  /** Shifting by a whole number shifts the floor by the same amount. */
  lemma FloorShift(x: real, k: int)
    ensures (x + k as real).Floor == x.Floor + k
  {
    var f := x.Floor;
    assert f as real <= x < f as real + 1.0;
    assert (f + k) as real <= x + k as real < (f + k) as real + 1.0;
  }

  /** The display drops the date: a cursor a whole day later shows the same
      text. */
  lemma FormatWrapsAtMidnight(hours: real)
    ensures FormatClock(hours + 24.0) == FormatClock(hours)
  {
    assert (hours + 24.0) * 60.0 == hours * 60.0 + MinutesPerDay as real;
    FloorShift(hours * 60.0, MinutesPerDay);
    assert MinuteOfDay(hours + 24.0) == MinuteOfDay(hours);
  }
}
