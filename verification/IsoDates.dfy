/** Instants as text: how a date is written, and which texts the journal configuration takes for one.
  *
  * `ToIso` is the date-time string of ECMA-262, section 21.4.1.32: four digits of year up to 9999, and a
  * sign and six digits beyond.  `IsoShape` is the pattern a configured instant must match.
  */
module IsoDates {

  const DAY_MS := 86_400_000

  /** The first instant of year 10000. */
  const FIVE_DIGIT_YEARS := 253_402_300_800_000

  /** The last instant a date can hold. */
  const MAX_INSTANT := 8_640_000_000_000_000

  // --- Digits -----------------------------------------------------------------------------------------

  function Digit(n: nat): char
    requires n < 10
  {
    '0' + n as char
  }

  predicate IsDigit(c: char) { '0' <= c <= '9' }

  /** The last `width` decimal digits. */
  function Pad(n: nat, width: nat): (s: string)
    ensures |s| == width && forall i :: 0 <= i < |s| ==> IsDigit(s[i])
  {
    if width == 0 then "" else Pad(n / 10, width - 1) + [Digit(n % 10)]
  }

  predicate Digits(s: string, from: nat, n: nat) {
    from + n <= |s| && forall i :: from <= i < from + n ==> IsDigit(s[i])
  }

  // --- The calendar ------------------------------------------------------------------------------------

  function LeapYearsTo(y: nat): int { y / 4 - y / 100 + y / 400 }

  predicate Leap(y: nat) { y % 4 == 0 && (y % 100 != 0 || y % 400 == 0) }

  /** The days from 1970 to the start of a year. */
  function DaysBefore(y: nat): int
    requires y >= 1
  {
    365 * (y - 1970) + LeapYearsTo(y - 1) - LeapYearsTo(1969)
  }

  lemma YearIsLong(y: nat)
    requires y >= 1
    ensures DaysBefore(y + 1) == DaysBefore(y) + 365 + (if Leap(y) then 1 else 0)
  {
    assert y / 4 == (y - 1) / 4 + (if y % 4 == 0 then 1 else 0);
    assert y / 100 == (y - 1) / 100 + (if y % 100 == 0 then 1 else 0);
    assert y / 400 == (y - 1) / 400 + (if y % 400 == 0 then 1 else 0);
    CenturiesDivide(y);
  }

  lemma CenturiesDivide(y: nat)
    ensures (y % 400 == 0 ==> y % 100 == 0) && (y % 100 == 0 ==> y % 4 == 0)
  {
    assert y == 400 * (y / 400) + y % 400;
    assert y == 100 * (y / 100) + y % 100;
    if y % 400 == 0 { assert y == 100 * (4 * (y / 400)); }
    if y % 100 == 0 { assert y == 4 * (25 * (y / 100)); }
  }

  function YearOf(day: nat, from: nat): (y: nat)
    requires from >= 1970 && DaysBefore(from) <= day
    ensures y >= from && DaysBefore(y) <= day < DaysBefore(y + 1)
    decreases day - DaysBefore(from)
  {
    YearIsLong(from);
    if day < DaysBefore(from + 1) then from else YearOf(day, from + 1)
  }

  function MonthDays(m: nat, leap: bool): nat {
    if m == 2 then (if leap then 29 else 28) else if m in [4, 6, 9, 11] then 30 else 31
  }

  datatype Month = Month(month: nat, day: nat)

  /** The month from `m` on that holds a day so many days later. */
  function MonthOf(days: nat, m: nat, leap: bool): Month
    requires 1 <= m <= 12
    decreases 12 - m
  {
    if days < MonthDays(m, leap) || m == 12 then Month(m, days + 1)
    else MonthOf(days - MonthDays(m, leap), m + 1, leap)
  }

  // --- Writing -------------------------------------------------------------------------------------------

  function YearText(y: nat): string {
    if y <= 9999 then Pad(y, 4) else "+" + Pad(y, 6)
  }

  function DateText(t: nat): string {
    var y := YearOf(t / DAY_MS, 1970);
    var m := MonthOf(t / DAY_MS - DaysBefore(y), 1, Leap(y));
    YearText(y) + ("-" + Pad(m.month, 2) + "-" + Pad(m.day, 2))
  }

  function MinuteText(t: nat): string {
    "T" + Pad(t / 3_600_000 % 24, 2) + ":" + Pad(t / 60_000 % 60, 2)
  }

  function SecondText(t: nat): string { ":" + Pad(t / 1000 % 60, 2) }

  /** The instant down to the second, without a zone. */
  function ToSecond(t: nat): string { DateText(t) + MinuteText(t) + SecondText(t) }

  function ToIso(t: nat): string { ToSecond(t) + ("." + Pad(t % 1000, 3) + "Z") }

  // --- The pattern -----------------------------------------------------------------------------------------

  predicate ToTheMinute(s: string) {
    && |s| >= 16
    && Digits(s, 0, 4) && s[4] == '-' && Digits(s, 5, 2) && s[7] == '-' && Digits(s, 8, 2)
    && s[10] == 'T' && Digits(s, 11, 2) && s[13] == ':' && Digits(s, 14, 2)
  }

  predicate Zone(z: string) {
    z == "Z" || (|z| == 6 && z[0] in "+-" && Digits(z, 1, 2) && z[3] == ':' && Digits(z, 4, 2))
  }

  predicate Fraction(r: string) {
    Zone(r) || (|r| >= 1 && r[0] == '.' && exists n :: 1 <= n <= 3 && Digits(r, 1, n) && Zone(r[1 + n..]))
  }

  predicate Seconds(r: string) {
    Zone(r) || (|r| >= 3 && r[0] == ':' && Digits(r, 1, 2) && Fraction(r[3..]))
  }

  /** Date and time to the minute, perhaps seconds, perhaps up to three digits of them, and a zone. */
  predicate IsoShape(s: string) { ToTheMinute(s) && Seconds(s[16..]) }

  // --- Which instants are written in that pattern -----------------------------------------------------------

  lemma {:induction false} YearsInOrder(a: nat, b: nat)
    requires 1 <= a <= b
    ensures DaysBefore(a) <= DaysBefore(b)
    decreases b
  {
    if a < b {
      YearsInOrder(a, b - 1);
      YearIsLong(b - 1);
    }
  }

  lemma YearTenThousand()
    ensures DaysBefore(9999) == 2_932_532 && DaysBefore(10000) == 2_932_897
  {
  }

  lemma DaysOf(t: nat)
    ensures t / DAY_MS < 2_932_897 <==> t < FIVE_DIGIT_YEARS
  {
    assert t == t / DAY_MS * DAY_MS + t % DAY_MS;
  }

  lemma YearBefore(day: nat, y: nat)
    requires y >= 1970 && DaysBefore(y) <= day < DaysBefore(y + 1)
    ensures y <= 9999 <==> day < 2_932_897
  {
    YearTenThousand();
    if y <= 9999 { YearsInOrder(y + 1, 10000); } else { YearsInOrder(10000, y); }
  }

  /** Four digits are enough for the year exactly before the first instant of year 10000. */
  lemma FourDigitYears(t: nat)
    ensures YearOf(t / DAY_MS, 1970) <= 9999 <==> t < FIVE_DIGIT_YEARS
  {
    DaysOf(t);
    YearBefore(t / DAY_MS, YearOf(t / DAY_MS, 1970));
  }

  lemma MinuteShape(date: string, rest: string, t: nat)
    requires |date| == 10 && Digits(date, 0, 4) && date[4] == '-' && Digits(date, 5, 2) && date[7] == '-'
    requires Digits(date, 8, 2)
    ensures ToTheMinute(date + MinuteText(t) + rest) && (date + MinuteText(t) + rest)[16..] == rest
  {
    var time := MinuteText(t);
    assert |time| == 6 && time[0] == 'T' && Digits(time, 1, 2) && time[3] == ':' && Digits(time, 4, 2);
    var s := date + time + rest;
    assert forall i :: 0 <= i < 10 ==> s[i] == date[i];
    assert forall i :: 10 <= i < 16 ==> s[i] == time[i - 10];
    assert IsDigit(s[11]) && IsDigit(s[12]) && IsDigit(s[14]) && IsDigit(s[15]);
  }

  lemma JoinDate(y: string, m: string, d: string)
    requires |y| == 4 && |m| == 2 && |d| == 2
    ensures y + ("-" + m + "-" + d) == [y[0], y[1], y[2], y[3], '-', m[0], m[1], '-', d[0], d[1]]
  {
  }

  lemma DateShape(t: nat)
    requires t < FIVE_DIGIT_YEARS
    ensures var date := DateText(t);
      && |date| == 10 && Digits(date, 0, 4) && date[4] == '-' && Digits(date, 5, 2) && date[7] == '-'
      && Digits(date, 8, 2)
  {
    FourDigitYears(t);
    var y := YearOf(t / DAY_MS, 1970);
    var m := MonthOf(t / DAY_MS - DaysBefore(y), 1, Leap(y));
    JoinDate(Pad(y, 4), Pad(m.month, 2), Pad(m.day, 2));
  }

  /** Before year 10000, and to the second, an instant with any zone matches. */
  lemma ZonedTextMatches(t: nat, rest: string)
    requires t < FIVE_DIGIT_YEARS && Fraction(rest)
    ensures IsoShape(ToSecond(t) + rest)
  {
    DateShape(t);
    var seconds := SecondText(t) + rest;
    MinuteShape(DateText(t), seconds, t);
    assert ToSecond(t) + rest == DateText(t) + MinuteText(t) + seconds;
    assert seconds[3..] == rest;
  }

  lemma MillisMatch(t: nat)
    ensures Fraction("." + Pad(t % 1000, 3) + "Z")
  {
    var r := "." + Pad(t % 1000, 3) + "Z";
    assert Digits(r, 1, 3) && r[1 + 3..] == "Z";
  }

  /** A written instant matches the pattern exactly before year 10000. */
  lemma WrittenMatchesExactly(t: nat)
    ensures IsoShape(ToIso(t)) <==> t < FIVE_DIGIT_YEARS
  {
    if t < FIVE_DIGIT_YEARS {
      MillisMatch(t);
      ZonedTextMatches(t, "." + Pad(t % 1000, 3) + "Z");
    } else {
      FourDigitYears(t);
      assert ToIso(t)[0] == '+';
    }
  }

  function MinutesWest(m: nat): string { "-00:" + Pad(m, 2) }

  lemma MinutesWestIsZone(m: nat)
    ensures Fraction(MinutesWest(m))
  {
    var z := MinutesWest(m);
    assert z[0] == '-' && Digits(z, 1, 2) && z[3] == ':' && Digits(z, 4, 2);
    assert z[0] in "+-";
  }

  // --- The last second of year 9999 -----------------------------------------------------------------------

  const LAST_SECOND := FIVE_DIGIT_YEARS - 1000

  lemma YearOfLastDay(y: nat)
    requires y >= 1970 && DaysBefore(y) <= 2_932_896 < DaysBefore(y + 1)
    ensures y == 9999
  {
    YearTenThousand();
    if y < 9999 { YearsInOrder(y + 1, 9999); } else if y > 9999 { YearsInOrder(10000, y); }
  }

  lemma July(days: nat)
    requires days >= 212
    ensures MonthOf(days, 1, false) == MonthOf(days - 181, 7, false)
  {
    assert MonthOf(days, 1, false) == MonthOf(days - 59, 3, false);
    assert MonthOf(days - 59, 3, false) == MonthOf(days - 120, 5, false);
  }

  /** The months before December take 334 days of a year that is not a leap year. */
  lemma December(days: nat)
    requires 334 <= days < 365
    ensures MonthOf(days, 1, false) == Month(12, days - 333)
  {
    July(days);
    assert MonthOf(days - 181, 7, false) == MonthOf(days - 243, 9, false);
    assert MonthOf(days - 243, 9, false) == MonthOf(days - 304, 11, false);
    assert MonthOf(days - 304, 11, false) == MonthOf(days - 334, 12, false);
  }

  lemma TwoDigits(n: nat)
    requires n < 100
    ensures Pad(n, 2) == [Digit(n / 10), Digit(n % 10)]
  {
    assert Pad(n / 10 / 10, 0) == "";
    assert Pad(n / 10, 1) == "" + [Digit(n / 10 % 10)];
  }

  lemma FourNines()
    ensures Pad(9999, 4) == "9999"
  {
    assert Pad(9, 1) == "9" && Pad(99, 2) == "99" && Pad(999, 3) == "999";
  }

  lemma LastYear(t: nat)
    requires t / DAY_MS == 2_932_896
    ensures YearOf(t / DAY_MS, 1970) == 9999 && t / DAY_MS - DaysBefore(9999) == 364 && !Leap(9999)
  {
    YearOfLastDay(YearOf(t / DAY_MS, 1970));
    YearTenThousand();
  }

  lemma LastDate(t: nat)
    requires t / DAY_MS == 2_932_896
    ensures DateText(t) == "9999-12-31"
  {
    LastYear(t);
    December(364);
    FourNines();
    TwoDigits(12);
    TwoDigits(31);
    JoinDate(Pad(9999, 4), Pad(12, 2), Pad(31, 2));
  }

  lemma LastTime(t: nat)
    requires t / 3_600_000 % 24 == 23 && t / 60_000 % 60 == 59 && t / 1000 % 60 == 59
    ensures MinuteText(t) + SecondText(t) == "T23:59:59"
  {
    TwoDigits(23);
    TwoDigits(59);
    var h, m := Pad(23, 2), Pad(59, 2);
    assert h == "23" && m == "59";
    assert MinuteText(t) == "T" + h + ":" + m && SecondText(t) == ":" + m;
  }

  /** The instant's whole days since 1970 end on the last day of year 9999, and it is 59 s past 23:59. */
  predicate IsLastSecond(t: nat) {
    && t / DAY_MS == 2_932_896
    && t / 3_600_000 % 24 == 23 && t / 60_000 % 60 == 59 && t / 1000 % 60 == 59 && t % 1000 == 0
  }

  lemma LastSecondParts()
    ensures IsLastSecond(LAST_SECOND)
  {
  }

  lemma LastSecondText(t: nat)
    requires IsLastSecond(t)
    ensures ToSecond(t) == "9999-12-31" + "T23:59:59"
  {
    LastDate(t);
    LastTime(t);
    JoinRight(DateText(t), MinuteText(t), SecondText(t));
  }

  lemma LastSecondIsLast(t: nat)
    requires IsLastSecond(t)
    ensures t == LAST_SECOND
  {
    var minutes := t / 1000 / 60;
    assert t / 1000 == 60 * minutes + 59;
    assert minutes == 60 * (minutes / 60) + 59;
    assert minutes / 60 == 24 * (minutes / 60 / 24) + 23;
  }

  lemma JoinRight(a: string, b: string, c: string)
    ensures a + b + c == a + (b + c)
  {
  }

  lemma OneMinuteWestText()
    ensures MinutesWest(1) == "-00:01"
  {
    TwoDigits(1);
  }
}
