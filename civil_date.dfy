/** Civil dates in the proleptic Gregorian calendar. This stands in for the
    JavaScript `Date` object wherever the almanac reads a year, month, day or
    weekday, adds one day, or compares two dates: a `Date` here is always a
    whole day, read in one fixed calendar frame. */
module CivilDate {
  import opened JsRuntime

  /** `month` is 1..12 (`getMonth() + 1`), `day` is 1..31 (`getDate()`). */
  datatype Date = Date(year: int, month: int, day: int)

  predicate IsLeapYear(year: int)
  {
    year % 4 == 0 && (year % 100 != 0 || year % 400 == 0)
  }

  function YearLength(year: int): int
  {
    if IsLeapYear(year) then 366 else 365
  }

  /** The day count of a month: what `new Date(year, month, 0).getDate()` reads. */
  function DaysInMonth(year: int, month: int): (n: int)
    requires 1 <= month <= 12
    ensures 28 <= n <= 31
    ensures month == 2 ==> (n == 29 <==> IsLeapYear(year))
    ensures month != 2 ==> (n == 30 <==> month in {4, 6, 9, 11})
  {
    if month == 2 then (if IsLeapYear(year) then 29 else 28)
    else if month == 4 || month == 6 || month == 9 || month == 11 then 30
    else 31
  }

  predicate Valid(d: Date)
  {
    1 <= d.month <= 12 && 1 <= d.day <= DaysInMonth(d.year, d.month)
  }

  /** Days of the year that precede the first of `month`. */
  function DaysBeforeMonth(year: int, month: int): (n: int)
    requires 1 <= month <= 12
    ensures 0 <= n
  {
    if month == 1 then 0 else DaysBeforeMonth(year, month - 1) + DaysInMonth(year, month - 1)
  }

  lemma MonthStep(year: int, month: int)
    requires 1 <= month < 12
    ensures DaysBeforeMonth(year, month + 1) == DaysBeforeMonth(year, month) + DaysInMonth(year, month)
  {
  }

  /** The cumulative month table of the Gregorian calendar. */
  lemma DaysBeforeMonthTable(year: int, month: int)
    requires 1 <= month <= 12
    ensures DaysBeforeMonth(year, month) ==
            [0, 31, 59, 90, 120, 151, 181, 212, 243, 273, 304, 334][month - 1]
              + (if month > 2 && IsLeapYear(year) then 1 else 0)
  {
    var leap := if IsLeapYear(year) then 1 else 0;
    assert DaysBeforeMonth(year, 2) == 31;
    assert DaysBeforeMonth(year, 3) == 59 + leap;
    assert DaysBeforeMonth(year, 4) == 90 + leap;
    assert DaysBeforeMonth(year, 5) == 120 + leap;
    assert DaysBeforeMonth(year, 6) == 151 + leap;
    assert DaysBeforeMonth(year, 7) == 181 + leap;
    assert DaysBeforeMonth(year, 8) == 212 + leap;
    assert DaysBeforeMonth(year, 9) == 243 + leap;
    assert DaysBeforeMonth(year, 10) == 273 + leap;
    assert DaysBeforeMonth(year, 11) == 304 + leap;
  }

  lemma DecemberEndsYear(year: int)
    ensures DaysBeforeMonth(year, 12) + DaysInMonth(year, 12) == YearLength(year)
  {
    DaysBeforeMonthTable(year, 12);
  }

  lemma {:induction false} MonthsAscend(year: int, m1: int, m2: int)
    requires 1 <= m1 < m2 <= 12
    ensures DaysBeforeMonth(year, m1) + DaysInMonth(year, m1) <= DaysBeforeMonth(year, m2)
    decreases m2 - m1
  {
    MonthStep(year, m1);
    if m1 + 1 < m2 {
      MonthsAscend(year, m1 + 1, m2);
    }
  }

  /** The leap years in [1, year). */
  function LeapYearsBefore(year: int): int
  {
    (year - 1) / 4 - (year - 1) / 100 + (year - 1) / 400
  }

  /** Days from 1970-01-01 to the first of January of `year` (negative before
      1970): 365 a year plus one for every leap year in between. */
  function DaysBeforeYear(year: int): int
  {
    365 * (year - 1970) + LeapYearsBefore(year) - LeapYearsBefore(1970)
  }

  lemma QuarterStep(n: int)
    ensures n / 4 - (n - 1) / 4 == if n % 4 == 0 then 1 else 0
  {
  }

  lemma CenturyStep(n: int)
    ensures n / 100 - (n - 1) / 100 == if n % 100 == 0 then 1 else 0
  {
  }

  lemma QuadCenturyStep(n: int)
    ensures n / 400 - (n - 1) / 400 == if n % 400 == 0 then 1 else 0
  {
  }

  lemma YearStep(year: int)
    ensures DaysBeforeYear(year + 1) == DaysBeforeYear(year) + YearLength(year)
  {
    QuarterStep(year);
    CenturyStep(year);
    QuadCenturyStep(year);
  }

  lemma {:induction false} YearsAscend(y1: int, y2: int)
    requires y1 < y2
    ensures DaysBeforeYear(y1) + YearLength(y1) <= DaysBeforeYear(y2)
    decreases y2 - y1
  {
    YearStep(y1);
    if y1 + 1 < y2 {
      YearsAscend(y1 + 1, y2);
      YearStep(y1 + 1);
    }
  }

  /** The number of days from 1970-01-01 to `d`: the day part of a JavaScript
      timestamp, which is what `<=` on two `Date` objects compares. */
  function DayNumber(d: Date): int
    requires 1 <= d.month <= 12
  {
    DaysBeforeYear(d.year) + DaysBeforeMonth(d.year, d.month) + d.day - 1
  }

  /** `getDay()`: 0 is Sunday; 1970-01-01 was a Thursday. */
  function Weekday(d: Date): (w: int)
    requires 1 <= d.month <= 12
    ensures 0 <= w < 7
  {
    (DayNumber(d) + 4) % 7
  }

  lemma ModSevenShift(a: int, k: int)
    ensures (a + k) % 7 == (a % 7 + k) % 7
  {
    var q := a / 7;
    assert a == 7 * q + a % 7;
    assert a + k == 7 * q + (a % 7 + k);
  }

  lemma WeekdayShift(year: int, month: int, day: int)
    requires 1 <= month <= 12
    ensures Weekday(Date(year, month, day)) == (Weekday(Date(year, month, 1)) + day - 1) % 7
  {
    var first := DayNumber(Date(year, month, 1));
    assert DayNumber(Date(year, month, day)) == first + day - 1;
    ModSevenShift(first + 4, day - 1);
  }

  /** What `cur.setDate(cur.getDate() + 1)` does to a date: the day after,
      rolling over into the next month and the next year. */
  function NextDay(d: Date): (r: Date)
    requires Valid(d)
    ensures Valid(r)
  {
    if d.day < DaysInMonth(d.year, d.month) then
      d.(day := d.day + 1)
    else if d.month < 12 then
      Date(d.year, d.month + 1, 1)
    else
      Date(d.year + 1, 1, 1)
  }

  /** The next day is exactly one day later. */
  lemma NextDayNumber(d: Date)
    requires Valid(d)
    ensures DayNumber(NextDay(d)) == DayNumber(d) + 1
  {
    if d.day == DaysInMonth(d.year, d.month) {
      if d.month < 12 {
        MonthStep(d.year, d.month);
      } else {
        YearStep(d.year);
        DecemberEndsYear(d.year);
      }
    }
  }

  /** Chronological order of (year, month, day). */
  predicate Before(a: Date, b: Date)
  {
    a.year < b.year ||
    (a.year == b.year && (a.month < b.month || (a.month == b.month && a.day < b.day)))
  }

  lemma DayNumberAscends(a: Date, b: Date)
    requires Valid(a) && Valid(b) && Before(a, b)
    ensures DayNumber(a) < DayNumber(b)
  {
    if a.year < b.year {
      if a.month < 12 {
        MonthsAscend(a.year, a.month, 12);
      }
      DecemberEndsYear(a.year);
      YearsAscend(a.year, b.year);
    } else if a.month < b.month {
      MonthsAscend(a.year, a.month, b.month);
    }
  }

  /** On valid dates, the day count orders exactly as the calendar does. */
  lemma DayNumberOrder(a: Date, b: Date)
    requires Valid(a) && Valid(b)
    ensures Before(a, b) <==> DayNumber(a) < DayNumber(b)
    ensures a == b <==> DayNumber(a) == DayNumber(b)
  {
    if Before(a, b) {
      DayNumberAscends(a, b);
    } else if Before(b, a) {
      DayNumberAscends(b, a);
    }
  }

  /** `new Date(year, monthIndex, 1)`: a year in 0..99 means 1900 + year, and
      a month index outside 0..11 rolls over into earlier or later years. */
  function MonthStart(year: int, monthIndex: int): (d: Date)
    ensures Valid(d) && d.day == 1
    ensures !(0 <= year <= 99) && 0 <= monthIndex <= 11 ==> d == Date(year, monthIndex + 1, 1)
  {
    var fullYear := if 0 <= year <= 99 then 1900 + year else year;
    Date(fullYear + monthIndex / 12, monthIndex % 12 + 1, 1)
  }

  /** `new Date(year, monthIndex + 1, 0).getDate()`: the length of the month
      that `MonthStart(year, monthIndex)` begins. */
  function MonthLength(year: int, monthIndex: int): (n: int)
    ensures 28 <= n <= 31
  {
    var s := MonthStart(year, monthIndex);
    DaysInMonth(s.year, s.month)
  }

  /** Day 0 of the following month is the last day of this one: the day after
      it is the first of the next month. */
  lemma MonthLengthIsDayZero(year: int, monthIndex: int)
    ensures NextDay(Date(MonthStart(year, monthIndex).year, MonthStart(year, monthIndex).month,
                         MonthLength(year, monthIndex)))
            == MonthStart(year, monthIndex + 1)
  {
    var q, r := monthIndex / 12, monthIndex % 12;
    assert monthIndex == 12 * q + r;
    if r < 11 {
      assert (monthIndex + 1) / 12 == q && (monthIndex + 1) % 12 == r + 1;
    } else {
      assert (monthIndex + 1) / 12 == q + 1 && (monthIndex + 1) % 12 == 0;
    }
  }

  // ---------------------------------------------------------------------
  // The YYYY-MM-DD text of a date.
  // ---------------------------------------------------------------------

  /** `${year}-${String(monthIndex + 1).padStart(2, "0")}-${String(day).padStart(2, "0")}` */
  function IsoDate(year: int, monthIndex: int, day: int): string
  {
    IntToString(year) + "-" + PadStart(IntToString(monthIndex + 1), 2, '0')
      + "-" + PadStart(IntToString(day), 2, '0')
  }

  /** The text of a date whose year is not negative, and whose month and day
      fit in two digits, is three digit fields joined by '-'. */
  lemma IsoDateFields(year: int, monthIndex: int, day: int)
    requires 0 <= year && 0 <= monthIndex <= 98 && 1 <= day <= 99
    ensures IsoDate(year, monthIndex, day)
            == Digits(year, NumDigits(year)) + "-" + Digits(monthIndex + 1, 2) + "-" + Digits(day, 2)
  {
    var y := IntToString(year);
    var m := PadStart(IntToString(monthIndex + 1), 2, '0');
    var d := PadStart(IntToString(day), 2, '0');
    assert IsoDate(year, monthIndex, day) == y + "-" + m + "-" + d;
    assert y == Digits(year, NumDigits(year));
    TwoDigits(monthIndex + 1);
    TwoDigits(day);
  }

  /** `toLocalIso(date)`: the text of a date (also what `isoToday()` builds). */
  function ToLocalIso(d: Date): string
  {
    IsoDate(d.year, d.month - 1, d.day)
  }

  lemma FourDigitYear(year: int)
    requires 1000 <= year <= 9999
    ensures IntToString(year) == Digits(year, 4)
  {
    assert NumDigits(year / 10 / 10 / 10) == 1;
    assert NumDigits(year / 10 / 10) == 2;
    assert NumDigits(year / 10) == 3;
  }

  lemma TwoDigits(n: int)
    requires 1 <= n <= 99
    ensures PadStart(IntToString(n), 2, '0') == Digits(n, 2)
  {
    Pad2Digits(n);
    if n >= 10 {
      assert NumDigits(n / 10) == 1;
    }
  }

  /** With four-digit years, the text is three fixed-width digit fields. */
  lemma LocalIsoFields(d: Date)
    requires Valid(d) && 1000 <= d.year <= 9999
    ensures ToLocalIso(d) == Digits(d.year, 4) + ("-" + (Digits(d.month, 2) + ("-" + Digits(d.day, 2))))
  {
    FourDigitYear(d.year);
    IsoDateFields(d.year, d.month - 1, d.day);
    RegroupFields(Digits(d.year, 4), Digits(d.month, 2), Digits(d.day, 2));
  }

  lemma RegroupFields(y: string, m: string, d: string)
    ensures y + "-" + m + "-" + d == y + ("-" + (m + ("-" + d)))
  {
  }

  lemma {:induction false} DigitsOrder(x: nat, y: nat, width: nat)
    requires x < Pow10(width) && y < Pow10(width)
    ensures StrLess(Digits(x, width), Digits(y, width)) <==> x < y
    ensures Digits(x, width) == Digits(y, width) <==> x == y
  {
    if width > 0 {
      DigitsOrder(x / 10, y / 10, width - 1);
      StrLessConcat(Digits(x / 10, width - 1), [DigitChar(x % 10)],
                    Digits(y / 10, width - 1), [DigitChar(y % 10)]);
      var dx, dy := Digits(x, width), Digits(y, width);
      if dx == dy {
        assert dx[width - 1] == dy[width - 1];
        assert dx[..width - 1] == dy[..width - 1];
        assert dx[..width - 1] == Digits(x / 10, width - 1);
        assert dy[..width - 1] == Digits(y / 10, width - 1);
      }
    }
  }

  /** Comparing "F-" + rest texts whose fixed-width fields have equal length. */
  lemma FieldThenRest(x: nat, y: nat, width: nat, a: string, b: string)
    requires x < Pow10(width) && y < Pow10(width)
    ensures StrLess(Digits(x, width) + ("-" + a), Digits(y, width) + ("-" + b))
            <==> x < y || (x == y && StrLess(a, b))
  {
    StrLessConcat(Digits(x, width), "-" + a, Digits(y, width), "-" + b);
    StrLessConcat("-", a, "-", b);
    StrLessIrreflexive("-");
    DigitsOrder(x, y, width);
  }

  /** Because every field is zero-padded, comparing the texts of two dates
      with four-digit years as strings is comparing the dates. */
  lemma LocalIsoOrder(a: Date, b: Date)
    requires Valid(a) && Valid(b)
    requires 1000 <= a.year <= 9999 && 1000 <= b.year <= 9999
    ensures StrLess(ToLocalIso(a), ToLocalIso(b)) <==> Before(a, b)
  {
    LocalIsoFields(a);
    LocalIsoFields(b);
    assert Pow10(2) == 100 && Pow10(4) == 10000;
    var ra := Digits(a.month, 2) + ("-" + Digits(a.day, 2));
    var rb := Digits(b.month, 2) + ("-" + Digits(b.day, 2));
    FieldThenRest(a.year, b.year, 4, ra, rb);
    FieldThenRest(a.month, b.month, 2, Digits(a.day, 2), Digits(b.day, 2));
    DigitsOrder(a.day, b.day, 2);
  }
}
