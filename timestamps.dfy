/**
  Python datetime values as the exporter uses them: validity, the microsecond
  count that datetime subtraction works on, and the strftime("%Y%m%dT%H%M%S")
  rendering that the HDF5 writer stores for datetime metadata. That rendering is
  the basic combined date and time format of ISO 8601:2004, section 4.3.2.
*/
module Timestamps {
  import opened Base

  function DaysBeforeYear(y: int): int {
    var p := y - 1;
    365 * p + p / 4 - p / 100 + p / 400
  }

  function DaysBeforeMonth(y: int, m: int): int
    requires 1 <= m <= 12
  {
    var table := [0, 31, 59, 90, 120, 151, 181, 212, 243, 273, 304, 334];
    table[m - 1] + (if m > 2 && IsLeapYear(y) then 1 else 0)
  }

  /** Microseconds since 0001-01-01T00:00:00, so that t2 - t1 is Ticks(t2) - Ticks(t1). */
  function Ticks(t: DateTime): int
  {
    var days := DaysBeforeYear(t.year) + DaysBeforeMonth(t.year, t.month) + t.day - 1;
    ((days * 24 + t.hour) * 60 + t.minute) * 60 * 1000000 + t.second * 1000000 + t.microsecond
  }

  function Pow10(n: nat): (p: nat)
    ensures p >= 1
  {
    if n == 0 then 1 else 10 * Pow10(n - 1)
  }

  predicate IsDigit(c: char) {
    '0' <= c <= '9'
  }

  /** n written in decimal, zero-padded to exactly width digits. */
  function Digits(n: nat, width: nat): (s: string)
    requires n < Pow10(width)
    ensures |s| == width
    ensures forall i :: 0 <= i < |s| ==> IsDigit(s[i])
  {
    if width == 0 then ""
    else Digits(n / 10, width - 1) + [('0' as int + n % 10) as char]
  }

  /** The number a string of decimal digits denotes. */
  function DigitsValue(s: string): nat
    requires forall i :: 0 <= i < |s| ==> IsDigit(s[i])
  {
    if s == [] then 0
    else
      assert IsDigit(s[|s| - 1]);
      10 * DigitsValue(s[..|s| - 1]) + (s[|s| - 1] as int - '0' as int)
  }

  lemma {:induction false} DigitsRoundTrip(n: nat, width: nat)
    requires n < Pow10(width)
    ensures DigitsValue(Digits(n, width)) == n
  {
    if width > 0 {
      var s := Digits(n, width);
      assert s[..|s| - 1] == Digits(n / 10, width - 1);
      DigitsRoundTrip(n / 10, width - 1);
    }
  }

  /** strftime("%Y%m%dT%H%M%S"): the basic ISO 8601 form; microseconds are not rendered. */
  function FormatBasic(t: DateTime): (s: string)
    ensures |s| == 15 && s[8] == 'T'
    ensures forall i :: 0 <= i < 15 && i != 8 ==> IsDigit(s[i])
  {
    Digits(t.year, 4) + Digits(t.month, 2) + Digits(t.day, 2) + "T"
      + Digits(t.hour, 2) + Digits(t.minute, 2) + Digits(t.second, 2)
  }

  predicate IsBasicForm(s: string) {
    |s| == 15 && s[8] == 'T' && forall i :: 0 <= i < 15 && i != 8 ==> IsDigit(s[i])
  }

  /** Reads a YYYYMMDDThhmmss string back; the microsecond, which it does not carry, is 0. */
  function ParseBasic(s: string): (r: Option<DateTime>)
    ensures r.Some? ==> IsBasicForm(s) && r.value.microsecond == 0
  {
    if !IsBasicForm(s) then None
    else
      var t := CivilTime(DigitsValue(s[0..4]), DigitsValue(s[4..6]), DigitsValue(s[6..8]),
                         DigitsValue(s[9..11]), DigitsValue(s[11..13]), DigitsValue(s[13..15]), 0);
      if ValidCivilTime(t) then Some(t) else None
  }

  /** Where each field sits in the rendering. */
  lemma FormatFields(t: DateTime)
    ensures FormatBasic(t)[0..4] == Digits(t.year, 4)
    ensures FormatBasic(t)[4..6] == Digits(t.month, 2)
    ensures FormatBasic(t)[6..8] == Digits(t.day, 2)
    ensures FormatBasic(t)[9..11] == Digits(t.hour, 2)
    ensures FormatBasic(t)[11..13] == Digits(t.minute, 2)
    ensures FormatBasic(t)[13..15] == Digits(t.second, 2)
  {
    var date := Digits(t.year, 4) + Digits(t.month, 2) + Digits(t.day, 2);
    var time := Digits(t.hour, 2) + Digits(t.minute, 2) + Digits(t.second, 2);
    assert FormatBasic(t) == date + "T" + time;
    assert date[0..4] == Digits(t.year, 4) && date[4..6] == Digits(t.month, 2) && date[6..8] == Digits(t.day, 2);
    assert time[0..2] == Digits(t.hour, 2) && time[2..4] == Digits(t.minute, 2) && time[4..6] == Digits(t.second, 2);
  }

  /** Parsing the rendering recovers the datetime, truncated to whole seconds. */
  lemma FormatParseRoundTrip(t: DateTime)
    ensures ParseBasic(FormatBasic(t)) == Some(t.(microsecond := 0))
  {
    FormatFields(t);
    DigitsRoundTrip(t.year, 4);
    DigitsRoundTrip(t.month, 2);
    DigitsRoundTrip(t.day, 2);
    DigitsRoundTrip(t.hour, 2);
    DigitsRoundTrip(t.minute, 2);
    DigitsRoundTrip(t.second, 2);
  }

  /** Two datetimes render alike exactly when they agree down to the second. */
  lemma FormatInjective(t: DateTime, u: DateTime)
    ensures FormatBasic(t) == FormatBasic(u) <==> t.(microsecond := 0) == u.(microsecond := 0)
  {
    if FormatBasic(t) == FormatBasic(u) {
      FormatParseRoundTrip(t);
      FormatParseRoundTrip(u);
    }
  }
}
