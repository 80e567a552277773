/** The proleptic Gregorian calendar of Python's `datetime` module, reduced to what the model needs:
    dates, their ordinal day number, `weekday()` with Monday = 0, day differences, ISO text,
    times of day and the English day names of `calendar.day_name`. */
module Calendar {
  import opened Wrappers
  import Text

  datatype Ymd = Ymd(year: int, month: int, day: int)

  predicate IsLeap(y: int)
  {
    y % 4 == 0 && (y % 100 != 0 || y % 400 == 0)
  }

  function DaysInMonth(y: int, m: int): (n: int)
    requires 1 <= m <= 12
    ensures 28 <= n <= 31
  {
    if m == 2 then (if IsLeap(y) then 29 else 28)
    else if m == 4 || m == 6 || m == 9 || m == 11 then 30
    else 31
  }

  function DaysInYear(y: int): int
  {
    if IsLeap(y) then 366 else 365
  }

  /** The dates `datetime.date` can hold: years 1 to 9999. */
  predicate ValidYmd(d: Ymd)
  {
    1 <= d.year <= 9999 && 1 <= d.month <= 12 && 1 <= d.day <= DaysInMonth(d.year, d.month)
  }

  type Date = d: Ymd | ValidYmd(d) witness Ymd(1, 1, 1)

  /** Days in the years before `y`. */
  function DaysBeforeYear(y: int): int
    requires y >= 1
  {
    var p := y - 1;
    p * 365 + p / 4 - p / 100 + p / 400
  }

  /** Days in the months of year `y` before month `m`. */
  function DaysBeforeMonth(y: int, m: int): int
    requires 1 <= m <= 12
  {
    [0, 31, 59, 90, 120, 151, 181, 212, 243, 273, 304, 334][m - 1] + (if m > 2 && IsLeap(y) then 1 else 0)
  }

  /** `date.toordinal()`: 0001-01-01 is day 1. */
  function Ordinal(d: Date): (o: int)
    ensures o >= 1
    ensures DaysBeforeYear(d.year) < o <= DaysBeforeYear(d.year) + DaysInYear(d.year)
  {
    DayOfYearBound(d);
    DaysBeforeYear(d.year) + DaysBeforeMonth(d.year, d.month) + d.day
  }

  /** `date.weekday()`: Monday is 0 and Sunday is 6. */
  function Weekday(d: Date): (w: int)
    ensures 0 <= w < 7
  {
    (Ordinal(d) + 6) % 7
  }

  /** `(b - a).days`: positive, zero or negative exactly when `a` is before, equal to or after `b`. */
  function DaysBetween(a: Date, b: Date): (n: int)
    ensures n > 0 <==> Before(a, b)
    ensures n == 0 <==> a == b
    ensures n < 0 <==> Before(b, a)
  {
    OrdinalMonotone(a, b);
    OrdinalMonotone(b, a);
    Ordinal(b) - Ordinal(a)
  }

  /** Calendar order of two dates: year, then month, then day. */
  predicate Before(a: Date, b: Date)
  {
    a.year < b.year || (a.year == b.year && (a.month < b.month || (a.month == b.month && a.day < b.day)))
  }

  /** Moving to the next year adds one to each of the century-rule quotients exactly when the year is divisible. */
  lemma QuotientSteps(p: int)
    requires p >= 0
    ensures (p + 1) / 4 - p / 4 == if (p + 1) % 4 == 0 then 1 else 0
    ensures (p + 1) / 100 - p / 100 == if (p + 1) % 100 == 0 then 1 else 0
    ensures (p + 1) / 400 - p / 400 == if (p + 1) % 400 == 0 then 1 else 0
  {
  }

  lemma DivisibleBy400(y: int)
    requires y % 400 == 0
    ensures y % 100 == 0 && y % 4 == 0
  {
    var q := y / 400;
    assert y == 100 * (4 * q);
    assert y == 4 * (100 * q);
  }

  lemma DivisibleBy100(y: int)
    requires y % 100 == 0
    ensures y % 4 == 0
  {
    var q := y / 100;
    assert y == 4 * (25 * q);
  }

  lemma DaysBeforeYearStep(y: int)
    requires y >= 1
    ensures DaysBeforeYear(y + 1) == DaysBeforeYear(y) + DaysInYear(y)
  {
    QuotientSteps(y - 1);
    if y % 400 == 0 {
      DivisibleBy400(y);
    } else if y % 100 == 0 {
      DivisibleBy100(y);
    }
  }

  /** The days of a year fit between its first day and the first day of any later year. */
  lemma {:induction false} DaysBeforeLaterYear(y: int, z: int)
    requires 1 <= y < z
    ensures DaysBeforeYear(y) + DaysInYear(y) <= DaysBeforeYear(z)
    decreases z - y
  {
    DaysBeforeYearStep(y);
    if y + 1 < z {
      DaysBeforeLaterYear(y + 1, z);
    }
  }

  lemma DayOfYearBound(d: Date)
    ensures DaysBeforeMonth(d.year, d.month) + d.day <= DaysInYear(d.year)
  {
  }

  lemma DaysBeforeLaterMonth(y: int, m: int, n: int)
    requires 1 <= m < n <= 12
    ensures DaysBeforeMonth(y, m) + DaysInMonth(y, m) <= DaysBeforeMonth(y, n)
  {
  }

  /** The ordinal follows calendar order, so distinct dates have distinct ordinals. */
  lemma OrdinalMonotone(a: Date, b: Date)
    ensures Before(a, b) ==> Ordinal(a) < Ordinal(b)
  {
    if Before(a, b) {
      if a.year < b.year {
        DayOfYearBound(a);
        DaysBeforeLaterYear(a.year, b.year);
      } else if a.month < b.month {
        DaysBeforeLaterMonth(a.year, a.month, b.month);
      }
    }
  }

  /** The date after `d` (`d + timedelta(days=1)`); 9999-12-31 has none. */
  function NextDay(d: Date): (e: Date)
    requires d != Ymd(9999, 12, 31)
    ensures Before(d, e)
  {
    if d.day < DaysInMonth(d.year, d.month) then Ymd(d.year, d.month, d.day + 1)
    else if d.month < 12 then Ymd(d.year, d.month + 1, 1)
    else Ymd(d.year + 1, 1, 1)
  }

  /** Consecutive dates have consecutive ordinals, so every ordinal from 1 on names one day. */
  lemma OrdinalSucc(d: Date)
    requires d != Ymd(9999, 12, 31)
    ensures Ordinal(NextDay(d)) == Ordinal(d) + 1
  {
    if d.day == DaysInMonth(d.year, d.month) && d.month == 12 {
      DaysBeforeYearStep(d.year);
    }
  }

  /** A date and the next one are one day apart, and their weekdays are consecutive. */
  lemma NextDayOneApart(d: Date)
    requires d != Ymd(9999, 12, 31)
    ensures DaysBetween(d, NextDay(d)) == 1
    ensures Weekday(NextDay(d)) == (Weekday(d) + 1) % 7
  {
    OrdinalSucc(d);
    WeekdayShift(d, NextDay(d));
  }

  /** The weekday advances by the day difference, modulo seven. */
  lemma WeekdayShift(a: Date, b: Date)
    ensures Weekday(b) == (Weekday(a) + DaysBetween(a, b)) % 7
  {
    var x := Ordinal(a) + 6;
    var n := DaysBetween(a, b);
    ModShift(x % 7 + n, x / 7);
  }

  lemma ModShift(a: int, q: int)
    ensures (a + 7 * q) % 7 == a % 7
  {
  }

  /** 0001-01-01, the first ordinal day, is a Monday, and so is 2024-01-01. */
  lemma MondayIsZero()
    ensures Weekday(Ymd(1, 1, 1)) == 0
    ensures Weekday(Ymd(2024, 1, 1)) == 0
  {
  }

  /** `str(date)`, the ISO 8601 calendar date `YYYY-MM-DD` (Python's `date.isoformat()`). */
  function IsoFormat(d: Date): (s: string)
    ensures |s| == 10 && s[4] == '-' && s[7] == '-'
    ensures forall i :: 0 <= i < 10 && i != 4 && i != 7 ==> Text.IsDigit(s[i])
  {
    Text.Padded(d.year, 4) + "-" + Text.Padded(d.month, 2) + "-" + Text.Padded(d.day, 2)
  }

  /** Reads a `YYYY-MM-DD` text naming a valid date. */
  function ParseIso(s: string): (r: Option<Date>)
    ensures r.Some? ==> |s| == 10
  {
    if |s| != 10 || s[4] != '-' || s[7] != '-' then None
    else match (Text.ParseDigits(s[..4]), Text.ParseDigits(s[5..7]), Text.ParseDigits(s[8..]))
      case (Some(y), Some(m), Some(d)) =>
        if ValidYmd(Ymd(y, m, d)) then Some(Ymd(y, m, d)) else None
      case _ => None
  }

  /** Reading the ISO text of a date gives the date back. */
  lemma IsoRoundTrip(d: Date)
    ensures ParseIso(IsoFormat(d)) == Some(d)
  {
    var s := IsoFormat(d);
    assert s[..4] == Text.Padded(d.year, 4);
    assert s[5..7] == Text.Padded(d.month, 2);
    assert s[8..] == Text.Padded(d.day, 2);
    Text.ParsePadded(d.year, 4);
    Text.ParsePadded(d.month, 2);
    Text.ParsePadded(d.day, 2);
  }

  /** A `datetime.time` of day; only equality between times matters to the model. */
  datatype Time = Time(hour: int, minute: int, second: int)

  /** `calendar.day_name` in the English locale. */
  const DayNames: seq<string> := ["Monday", "Tuesday", "Wednesday", "Thursday", "Friday", "Saturday", "Sunday"]

  /** `calendar.day_name[i]`: Python indexing of the seven names, negative indices counting from the end;
      None where Python raises IndexError. */
  function DayName(i: int): (r: Option<string>)
    ensures r.Some? <==> -7 <= i < 7
    ensures 0 <= i < 7 ==> r == Some(DayNames[i])
    ensures -7 <= i < 0 ==> r == Some(DayNames[7 + i])
    ensures r.Some? ==> r.value == DayNames[i % 7]
  {
    if 0 <= i < 7 then Some(DayNames[i])
    else if -7 <= i < 0 then Some(DayNames[7 + i])
    else None
  }
}
