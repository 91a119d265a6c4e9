/**
 * The one date-time format the parser accepts, "dd/MM/yyyy HHmm", read the
 * way java.time reads it with its default (smart) resolution: a day of 29
 * to 31 past the end of its month is pulled back to the month's last day.
 */
module Dates {
  import opened Wrappers
  import opened Text

  /** A resolved local date-time (java.time.LocalDateTime, to the minute). */
  datatype DateTime = DateTime(year: int, month: int, day: int, hour: int, minute: int)

  /** Leap years of the proleptic Gregorian calendar. */
  predicate IsLeapYear(y: int) {
    y % 4 == 0 && (y % 100 != 0 || y % 400 == 0)
  }

  function DaysInMonth(month: int, year: int): (n: int)
    requires 1 <= month <= 12
    ensures 28 <= n <= 31
  {
    if month == 2 then (if IsLeapYear(year) then 29 else 28)
    else if month == 4 || month == 6 || month == 9 || month == 11 then 30
    else 31
  }

  /** A date-time that names a real minute of a real day (from year 1 on). */
  predicate ValidDateTime(d: DateTime) {
    && 1 <= d.year
    && 1 <= d.month <= 12
    && 1 <= d.day <= DaysInMonth(d.month, d.year)
    && 0 <= d.hour <= 23
    && 0 <= d.minute <= 59
  }

  /** Text laid out as "dd/MM/yyyy HHmm": digits, two slashes and one space. */
  predicate Shaped(t: string) {
    && |t| == 15
    && t[2] == '/' && t[5] == '/' && t[10] == ' '
    && forall i :: 0 <= i < 15 && i != 2 && i != 5 && i != 10 ==> IsDigit(t[i])
  }

  function TwoDigits(t: string, i: nat): (n: nat)
    requires i + 2 <= |t| && IsDigit(t[i]) && IsDigit(t[i + 1])
    ensures n < 100
  {
    10 * DigitValue(t[i]) + DigitValue(t[i + 1])
  }

  function FourDigits(t: string, i: nat): (n: nat)
    requires i + 4 <= |t| && IsDigit(t[i]) && IsDigit(t[i + 1]) && IsDigit(t[i + 2]) && IsDigit(t[i + 3])
    ensures n < 10000
  {
    100 * TwoDigits(t, i) + TwoDigits(t, i + 2)
  }

  /**
   * `LocalDateTime.parse(t, ofPattern("dd/MM/yyyy HHmm"))`; None stands for
   * the DateTimeParseException. The day must be 1 to 31 and is then clamped
   * to the month's length; the month 1 to 12, the year at least 1, the hour
   * 0 to 23 and the minute 0 to 59.
   */
  function ParseDate(t: string): (r: Option<DateTime>)
    ensures r.Some? <==>
      && Shaped(t)
      && 1 <= TwoDigits(t, 0) <= 31 && 1 <= TwoDigits(t, 3) <= 12 && FourDigits(t, 6) >= 1
      && TwoDigits(t, 11) <= 23 && TwoDigits(t, 13) <= 59
    ensures r.Some? ==> ValidDateTime(r.value)
    ensures r.Some? ==> r.value.month == TwoDigits(t, 3)
    ensures r.Some? ==>
      var last := DaysInMonth(TwoDigits(t, 3), FourDigits(t, 6));
      r.value.day == if TwoDigits(t, 0) <= last then TwoDigits(t, 0) else last
    ensures r.Some? ==> r.value.year == FourDigits(t, 6)
    ensures r.Some? ==> r.value.hour == TwoDigits(t, 11) && r.value.minute == TwoDigits(t, 13)
  {
    if !Shaped(t) then None
    else
      var day, month, year := TwoDigits(t, 0), TwoDigits(t, 3), FourDigits(t, 6);
      var hour, minute := TwoDigits(t, 11), TwoDigits(t, 13);
      if 1 <= day <= 31 && 1 <= month <= 12 && 1 <= year && hour <= 23 && minute <= 59 then
        var last := DaysInMonth(month, year);
        Some(DateTime(year, month, if day <= last then day else last, hour, minute))
      else None
  }

  function Pad2(n: nat): (s: string)
    requires n < 100
    ensures |s| == 2 && IsDigit(s[0]) && IsDigit(s[1]) && TwoDigits(s, 0) == n
  {
    [DigitChar(n / 10), DigitChar(n % 10)]
  }

  /** Four digits, most significant first. */
  function Pad4(n: nat): (s: string)
    requires n < 10000
    ensures |s| == 4 && AllDigits(s) && FourDigits(s, 0) == n
  {
    var s := Pad2(n / 100) + Pad2(n % 100);
    assert TwoDigits(s, 0) == n / 100 && TwoDigits(s, 2) == n % 100;
    s
  }

  /** `d.format(ofPattern("dd/MM/yyyy HHmm"))` for a four-digit year. */
  function FormatDate(d: DateTime): (t: string)
    requires ValidDateTime(d) && d.year <= 9999
    ensures Shaped(t)
  {
    Pad2(d.day) + "/" + Pad2(d.month) + "/" + Pad4(d.year) + " " + Pad2(d.hour) + Pad2(d.minute)
  }

  /** Formatting then parsing gives back the same date-time. */
  lemma ParseFormatDate(d: DateTime)
    requires ValidDateTime(d) && d.year <= 9999
    ensures ParseDate(FormatDate(d)) == Some(d)
  {
  }

  /** The worked example of the format: 2 December 2024 at 18:00. */
  lemma ParseDateExample()
    ensures ParseDate("02/12/2024 1800") == Some(DateTime(2024, 12, 2, 18, 0))
    ensures ParseDate("2024-12-02 18:00") == None
  {
  }

  lemma FormatDateExample()
    ensures FormatDate(DateTime(2024, 12, 2, 18, 0)) == "02/12/2024 1800"
  {
  }

  /** A day past the end of February is pulled back to its last day. */
  lemma ParseDateClampsDay()
    ensures ParseDate("31/02/2023 0900") == Some(DateTime(2023, 2, 28, 9, 0))
    ensures ParseDate("31/02/2024 0900") == Some(DateTime(2024, 2, 29, 9, 0))
    ensures ParseDate("32/01/2024 0900") == None
  {
  }
}
