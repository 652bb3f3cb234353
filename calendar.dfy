/**
 * Calendar dates as JavaScript's `Date` sees the strings of an
 * `<input type="date">`: proleptic Gregorian dates at UTC midnight, written
 * `YYYY-MM-DD` (the first ten characters of `toISOString()`).
 */
module Calendar {
  import opened Options
  import opened Strings

  datatype Date = Date(year: int, month: int, day: int)

  predicate IsLeapYear(y: int) {
    y % 4 == 0 && (y % 100 != 0 || y % 400 == 0)
  }

  function DaysInYear(y: int): (n: int) {
    if IsLeapYear(y) then 366 else 365
  }

  function DaysInMonth(y: int, m: int): (n: int)
    requires 1 <= m <= 12
  {
    if m == 2 then (if IsLeapYear(y) then 29 else 28)
    else if m == 4 || m == 6 || m == 9 || m == 11 then 30
    else 31
  }

  /** A date that exists in the calendar (years from 0 on). */
  predicate IsValid(d: Date) {
    0 <= d.year && 1 <= d.month <= 12 && 1 <= d.day <= DaysInMonth(d.year, d.month)
  }

  /** Days of year `y` that come before the first of month `m`. */
  function DaysBeforeMonth(y: int, m: int): (n: int)
    requires 1 <= m <= 12
    ensures 0 <= n && n + DaysInMonth(y, m) <= DaysInYear(y)
  {
    (match m
     case 1 => 0 case 2 => 31 case 3 => 59 case 4 => 90 case 5 => 120 case 6 => 151
     case 7 => 181 case 8 => 212 case 9 => 243 case 10 => 273 case 11 => 304 case _ => 334)
    + (if m > 2 && IsLeapYear(y) then 1 else 0)
  }

  lemma MonthStep(y: int, m: int)
    requires 1 <= m < 12
    ensures DaysBeforeMonth(y, m + 1) == DaysBeforeMonth(y, m) + DaysInMonth(y, m)
  {
  }

  /** Days in the years 0 .. y-1 (year 0 is a leap year). */
  function DaysBeforeYear(y: nat): (n: int) {
    if y == 0 then 0 else DaysBeforeYear(y - 1) + DaysInYear(y - 1)
  }

  /** Each year adds exactly its own length. */
  lemma YearStep(y: nat)
    ensures DaysBeforeYear(y + 1) == DaysBeforeYear(y) + DaysInYear(y)
  {
  }

  /** The days before year `y` counted directly: 365 a year plus one per leap year. */
  function ClosedDaysBeforeYear(y: nat): int {
    365 * y + (y + 3) / 4 - (y + 99) / 100 + (y + 399) / 400
  }

  lemma ClosedYearStep(y: nat)
    ensures ClosedDaysBeforeYear(y + 1) == ClosedDaysBeforeYear(y) + DaysInYear(y)
  {
    CountStep4(y);
    CountStep100(y);
    CountStep400(y);
    DivisibleChain(y);
  }

  /** A multiple of 400 is a multiple of 100, and a multiple of 100 one of 4. */
  lemma DivisibleChain(y: nat)
    ensures y % 400 == 0 ==> y % 100 == 0
    ensures y % 100 == 0 ==> y % 4 == 0
  {
    if y % 400 == 0 {
      assert y == 100 * (4 * (y / 400));
    }
    if y % 100 == 0 {
      assert y == 4 * (25 * (y / 100));
    }
  }

  /** Multiples of 4 up to `y` inclusive, against those below `y`. */
  lemma CountStep4(y: nat)
    ensures (y + 4) / 4 == (y + 3) / 4 + (if y % 4 == 0 then 1 else 0)
  {
  }

  lemma CountStep100(y: nat)
    ensures (y + 100) / 100 == (y + 99) / 100 + (if y % 100 == 0 then 1 else 0)
  {
  }

  lemma CountStep400(y: nat)
    ensures (y + 400) / 400 == (y + 399) / 400 + (if y % 400 == 0 then 1 else 0)
  {
  }

  /** The recursive count of days before a year agrees with the closed form. */
  lemma {:induction false} DaysBeforeYearClosed(y: nat)
    ensures DaysBeforeYear(y) == ClosedDaysBeforeYear(y)
  {
    if y > 0 {
      DaysBeforeYearClosed(y - 1);
      ClosedYearStep(y - 1);
    }
  }

  /** All days of an earlier year come before the first day of a later one. */
  lemma {:induction false} YearsBefore(a: nat, b: nat)
    requires a < b
    ensures DaysBeforeYear(a) + DaysInYear(a) <= DaysBeforeYear(b)
    decreases b - a
  {
    YearStep(b - 1);
    if a < b - 1 {
      YearsBefore(a, b - 1);
    }
  }

  /** All days of an earlier month come before the first day of a later month. */
  lemma {:induction false} MonthsBefore(y: int, a: int, b: int)
    requires 1 <= a < b <= 12
    ensures DaysBeforeMonth(y, a) + DaysInMonth(y, a) <= DaysBeforeMonth(y, b)
    decreases b - a
  {
    MonthStep(y, b - 1);
    if a < b - 1 {
      MonthsBefore(y, a, b - 1);
    }
  }

  /** The number of days from 0000-01-01 to `d`. */
  function DayNumber(d: Date): (n: int)
    requires IsValid(d)
  {
    DaysBeforeYear(d.year) + DaysBeforeMonth(d.year, d.month) + d.day - 1
  }

  /** Calendar order: by year, then month, then day. */
  predicate Before(a: Date, b: Date) {
    a.year < b.year
    || (a.year == b.year && (a.month < b.month || (a.month == b.month && a.day < b.day)))
  }

  /** Day numbers follow calendar order. */
  lemma BeforeDayNumber(a: Date, b: Date)
    requires IsValid(a) && IsValid(b)
    ensures Before(a, b) <==> DayNumber(a) < DayNumber(b)
  {
    if Before(a, b) {
      BeforeIncreases(a, b);
    } else if Before(b, a) {
      BeforeIncreases(b, a);
    } else {
      assert a == b;
    }
  }

  lemma BeforeIncreases(a: Date, b: Date)
    requires IsValid(a) && IsValid(b) && Before(a, b)
    ensures DayNumber(a) < DayNumber(b)
  {
    if a.year < b.year {
      YearsBefore(a.year, b.year);
    } else if a.month < b.month {
      MonthsBefore(a.year, a.month, b.month);
    }
  }

  /** Two calendar dates with the same day number are the same date. */
  lemma DayNumberInjective(a: Date, b: Date)
    requires IsValid(a) && IsValid(b) && DayNumber(a) == DayNumber(b)
    ensures a == b
  {
    BeforeDayNumber(a, b);
    BeforeDayNumber(b, a);
  }

  /** `setDate(getDate() + 1)`: the following calendar day. */
  function NextDay(d: Date): (r: Date)
    requires IsValid(d)
    ensures IsValid(r) && DayNumber(r) == DayNumber(d) + 1
  {
    if d.day < DaysInMonth(d.year, d.month) then
      d.(day := d.day + 1)
    else if d.month < 12 then
      MonthStep(d.year, d.month);
      Date(d.year, d.month + 1, 1)
    else
      YearStep(d.year);
      Date(d.year + 1, 1, 1)
  }

  /** Milliseconds in a day, 1000 * 60 * 60 * 24. */
  const MsPerDay: int := 86400000
  /** The day number of 1970-01-01, the origin of JavaScript time values. */
  const UnixEpochDay: int := 719528

  lemma UnixEpoch()
    ensures IsValid(Date(1970, 1, 1)) && DayNumber(Date(1970, 1, 1)) == UnixEpochDay
  {
    DaysBeforeYearClosed(1970);
  }

  /** `getTime()` of the date at UTC midnight: milliseconds since 1970-01-01. */
  function TimeValue(d: Date): (t: int)
    requires IsValid(d)
    ensures t % MsPerDay == 0
  {
    (DayNumber(d) - UnixEpochDay) * MsPerDay
  }

  /** Time values differ by whole days. */
  lemma TimeValueDifference(a: Date, b: Date)
    requires IsValid(a) && IsValid(b)
    ensures TimeValue(b) - TimeValue(a) == (DayNumber(b) - DayNumber(a)) * MsPerDay
  {
  }

  /** `toISOString().slice(0, 10)`: `YYYY-MM-DD`. */
  function Format(d: Date): (s: string)
    requires IsValid(d) && d.year <= 9999
    ensures |s| == 10
  {
    Pad4(d.year) + "-" + Pad2(d.month) + "-" + Pad2(d.day)
  }

  /**
   * The parse of a date string: `YYYY-MM-DD` naming a date that exists.
   * Anything else is an Invalid Date (`Date.parse` gives NaN).
   */
  function Parse(s: string): (r: Option<Date>)
    ensures r.Some? ==> IsValid(r.value) && r.value.year <= 9999
  {
    if |s| == 10 && s[4] == '-' && s[7] == '-'
       && IsDigit(s[0]) && IsDigit(s[1]) && IsDigit(s[2]) && IsDigit(s[3])
       && IsDigit(s[5]) && IsDigit(s[6]) && IsDigit(s[8]) && IsDigit(s[9])
    then
      var d := Date(Value4(s[0], s[1], s[2], s[3]), Value2(s[5], s[6]), Value2(s[8], s[9]));
      if IsValid(d) then Some(d) else None
    else
      None
  }

  /** A string that parses is the canonical string of its date. */
  lemma ParseCanonical(s: string)
    requires Parse(s).Some?
    ensures Format(Parse(s).value) == s
  {
    Pad4OfValue(s[0], s[1], s[2], s[3]);
    Pad2OfValue(s[5], s[6]);
    Pad2OfValue(s[8], s[9]);
  }

  /** Every date of years 0000-9999 is read back from its own string. */
  lemma ParseFormat(d: Date)
    requires IsValid(d) && d.year <= 9999
    ensures Parse(Format(d)) == Some(d)
  {
    var s := Format(d);
    assert s[4] == '-' && s[7] == '-';
    assert s[..4] == Pad4(d.year) && s[5..7] == Pad2(d.month) && s[8..] == Pad2(d.day);
  }

  /** Month and day written `MM-DD` are ordered as the pair (month, day). */
  lemma MonthDayLess(x: Date, y: Date)
    requires IsValid(x) && IsValid(y)
    ensures Less(Pad2(x.month) + "-" + Pad2(x.day), Pad2(y.month) + "-" + Pad2(y.day))
            <==> x.month < y.month || (x.month == y.month && x.day < y.day)
  {
    SeparatedLess(Pad2(x.month), Pad2(x.day), Pad2(y.month), Pad2(y.day));
    Pad2Less(x.month, y.month);
    Pad2Less(x.day, y.day);
    assert Pad2(x.month) == Pad2(y.month) <==> x.month == y.month;
  }

  /** The `YYYY-MM-DD` strings of two dates are ordered as the dates. */
  lemma FormatLess(x: Date, y: Date)
    requires IsValid(x) && IsValid(y) && x.year <= 9999 && y.year <= 9999
    ensures Less(Format(x), Format(y)) <==> Before(x, y)
  {
    var mx, my := Pad2(x.month) + "-" + Pad2(x.day), Pad2(y.month) + "-" + Pad2(y.day);
    assert Format(x) == Pad4(x.year) + "-" + mx;
    assert Format(y) == Pad4(y.year) + "-" + my;
    SeparatedLess(Pad4(x.year), mx, Pad4(y.year), my);
    Pad4Less(x.year, y.year);
    assert Pad4(x.year) == Pad4(y.year) <==> x.year == y.year;
    MonthDayLess(x, y);
  }

  /** Between date strings, JavaScript's string order is calendar order. */
  lemma LessIsBefore(a: string, b: string)
    requires Parse(a).Some? && Parse(b).Some?
    ensures Less(a, b) <==> DayNumber(Parse(a).value) < DayNumber(Parse(b).value)
  {
    ParseCanonical(a);
    ParseCanonical(b);
    FormatLess(Parse(a).value, Parse(b).value);
    BeforeDayNumber(Parse(a).value, Parse(b).value);
  }
}
