/** Python's proleptic Gregorian `datetime`, at the resolution the backend
    uses: a moment is a whole number of minutes since 0001-01-01 00:00
    (`datetime.min`), a date is a day number since that day. This module
    gives weekday and hour of a moment, the `"%Y-%m-%d %H:%M"` rendering of
    `strftime`, and the two `strptime` formats `"%m/%d/%y"` and `"%Y-%m-%d"`. */
module Calendar {
  import opened Wrappers
  import opened Text

  /** Minutes since 0001-01-01 00:00. */
  type Moment = nat

  const MinutesPerDay: nat := 1440

  /** `timedelta(days=5*365)` in minutes. */
  const FiveYears: nat := 5 * 365 * MinutesPerDay

  datatype Date = Date(year: int, month: int, day: int)

  predicate IsLeap(y: int)
  {
    y % 4 == 0 && (y % 100 != 0 || y % 400 == 0)
  }

  function DaysInYear(y: int): nat
  {
    if IsLeap(y) then 366 else 365
  }

  function DaysInMonth(y: int, m: int): (n: nat)
    requires 1 <= m <= 12
    ensures 28 <= n <= 31
  {
    if m == 2 then (if IsLeap(y) then 29 else 28)
    else if m == 4 || m == 6 || m == 9 || m == 11 then 30
    else 31
  }

  /** Days of year `y` before the first of month `m`. */
  function DaysBeforeMonth(y: int, m: int): nat
    requires 1 <= m <= 12
  {
    [0, 31, 59, 90, 120, 151, 181, 212, 243, 273, 304, 334][m - 1]
      + (if m > 2 && IsLeap(y) then 1 else 0)
  }

  lemma MonthTable(y: int, m: int)
    requires 1 <= m <= 12
    ensures m < 12 ==> DaysBeforeMonth(y, m + 1) == DaysBeforeMonth(y, m) + DaysInMonth(y, m)
    ensures m == 12 ==> DaysBeforeMonth(y, m) + DaysInMonth(y, m) == DaysInYear(y)
  {
  }

  /** Days from 0001-01-01 to the first day of year `y`. */
  function DaysBeforeYear(y: int): nat
    requires y >= 1
  {
    if y == 1 then 0 else DaysBeforeYear(y - 1) + DaysInYear(y - 1)
  }

  /** The recursive count agrees with the closed form of Python's `_days_before_year`. */
  lemma {:induction false} DaysBeforeYearClosedForm(y: int)
    requires y >= 1
    ensures DaysBeforeYear(y) == (y - 1) * 365 + (y - 1) / 4 - (y - 1) / 100 + (y - 1) / 400
  {
    if y > 1 {
      DaysBeforeYearClosedForm(y - 1);
      DivStep(y - 1);
      LeapCount(y - 1);
    }
  }

  /** The leap rule as a count of the three divisibility tests. */
  lemma LeapCount(q: nat)
    ensures DaysInYear(q) == 365 + (if q % 4 == 0 then 1 else 0) - (if q % 100 == 0 then 1 else 0) + (if q % 400 == 0 then 1 else 0)
  {
    if q % 400 == 0 {
      Divides400(q);
    } else if q % 100 == 0 {
      Divides100(q);
    }
  }

  lemma Divides400(q: nat)
    requires q % 400 == 0
    ensures q % 100 == 0 && q % 4 == 0
  {
    var k := q / 400;
    assert q == 100 * (4 * k) && q / 100 == 4 * k;
    assert q == 4 * (100 * k) && q / 4 == 100 * k;
  }

  lemma Divides100(q: nat)
    requires q % 100 == 0
    ensures q % 4 == 0
  {
    var k := q / 100;
    assert q == 4 * (25 * k) && q / 4 == 25 * k;
  }

  lemma DivStep(q: nat)
    requires q >= 1
    ensures q / 4 == (q - 1) / 4 + (if q % 4 == 0 then 1 else 0)
    ensures q / 100 == (q - 1) / 100 + (if q % 100 == 0 then 1 else 0)
    ensures q / 400 == (q - 1) / 400 + (if q % 400 == 0 then 1 else 0)
  {
  }

  lemma {:induction false} DaysBeforeYearMonotone(a: int, b: int)
    requires 1 <= a <= b
    ensures DaysBeforeYear(a) + (if a < b then DaysInYear(a) else 0) <= DaysBeforeYear(b)
    decreases b - a
  {
    if a < b {
      DaysBeforeYearMonotone(a, b - 1);
    }
  }

  /** A date with the fields `datetime.date` accepts (`MINYEAR` .. `MAXYEAR`). */
  predicate ValidDate(d: Date)
  {
    1 <= d.year <= 9999 && 1 <= d.month <= 12 && 1 <= d.day <= DaysInMonth(d.year, d.month)
  }

  /** A date the Gregorian count reaches, with no upper bound on the year. */
  predicate WellFormed(d: Date)
  {
    1 <= d.year && 1 <= d.month <= 12 && 1 <= d.day <= DaysInMonth(d.year, d.month)
  }

  /** `d.toordinal() - 1`: days since 0001-01-01. */
  function DayNumber(d: Date): nat
    requires WellFormed(d)
  {
    DaysBeforeYear(d.year) + DaysBeforeMonth(d.year, d.month) + d.day - 1
  }

  function YearFrom(y: int, n: nat): (r: (int, nat))
    requires y >= 1
    ensures r.0 >= y && r.1 < DaysInYear(r.0)
    ensures DaysBeforeYear(r.0) + r.1 == DaysBeforeYear(y) + n
    decreases n
  {
    if n < DaysInYear(y) then (y, n) else YearFrom(y + 1, n - DaysInYear(y))
  }

  function MonthFrom(y: int, m: int, n: nat): (r: (int, nat))
    requires 1 <= m <= 12
    requires DaysBeforeMonth(y, m) + n < DaysInYear(y)
    ensures m <= r.0 <= 12 && r.1 < DaysInMonth(y, r.0)
    ensures DaysBeforeMonth(y, r.0) + r.1 == DaysBeforeMonth(y, m) + n
    decreases 12 - m
  {
    MonthTable(y, m);
    if n < DaysInMonth(y, m) then (m, n) else MonthFrom(y, m + 1, n - DaysInMonth(y, m))
  }

  /** The calendar date of day number `n` (`date.fromordinal(n + 1)`). */
  function CivilFromDays(n: nat): (d: Date)
    ensures WellFormed(d)
    ensures DayNumber(d) == n
  {
    var (y, doy) := YearFrom(1, n);
    var (m, dom) := MonthFrom(y, 1, doy);
    Date(y, m, dom + 1)
  }

  lemma {:induction false} YearUnique(y: int, k: nat, y': int, k': nat)
    requires y >= 1 && y' >= 1 && k < DaysInYear(y) && k' < DaysInYear(y')
    requires DaysBeforeYear(y) + k == DaysBeforeYear(y') + k'
    ensures y == y' && k == k'
  {
    if y < y' {
      DaysBeforeYearMonotone(y, y');
    } else if y' < y {
      DaysBeforeYearMonotone(y', y);
    }
  }

  lemma MonthUnique(y: int, m: int, k: nat, m': int, k': nat)
    requires 1 <= m <= 12 && 1 <= m' <= 12
    requires k < DaysInMonth(y, m) && k' < DaysInMonth(y, m')
    requires DaysBeforeMonth(y, m) + k == DaysBeforeMonth(y, m') + k'
    ensures m == m' && k == k'
  {
  }

  /** Day numbers and dates are in one-to-one correspondence: converting a
      date to its day number and back gives the date again. */
  lemma DateRoundTrip(d: Date)
    requires WellFormed(d)
    ensures CivilFromDays(DayNumber(d)) == d
  {
    var n := DayNumber(d);
    var (y, doy) := YearFrom(1, n);
    MonthTable(d.year, 12);
    YearUnique(y, doy, d.year, DaysBeforeMonth(d.year, d.month) + d.day - 1);
    var (m, dom) := MonthFrom(y, 1, doy);
    MonthUnique(y, m, dom, d.month, d.day - 1);
  }

  // ----- moments -----

  /** `dt.weekday()`: 0 is Monday. 0001-01-01 was a Monday. */
  function Weekday(t: Moment): (w: nat)
    ensures w < 7
  {
    (t / MinutesPerDay) % 7
  }

  /** `dt.hour`. */
  function HourOf(t: Moment): (h: nat)
    ensures h < 24
  {
    (t % MinutesPerDay) / 60
  }

  /** `dt.minute`. */
  function MinuteOf(t: Moment): (m: nat)
    ensures m < 60
  {
    t % 60
  }

  function DateOf(t: Moment): Date
  {
    CivilFromDays(t / MinutesPerDay)
  }

  /** Midnight at the start of a date: the moment `strptime` yields for a date-only format. */
  function Midnight(d: Date): Moment
    requires WellFormed(d)
  {
    DayNumber(d) * MinutesPerDay
  }

  /** `d.strftime("%Y-%m-%d")`. */
  function FormatDate(d: Date): string
    requires d.year >= 0 && d.month >= 0 && d.day >= 0
  {
    Pad(d.year, 4) + "-" + Pad(d.month, 2) + "-" + Pad(d.day, 2)
  }

  /** `d.strftime("%m/%d/%y")`: month, day and the year's last two digits. */
  function FormatMDY(d: Date): string
    requires d.year >= 0 && d.month >= 0 && d.day >= 0
  {
    Pad(d.month, 2) + "/" + Pad(d.day, 2) + "/" + Pad(d.year % 100, 2)
  }

  /** `dt.strftime("%Y-%m-%d %H:%M")`. */
  function FormatMoment(t: Moment): string
  {
    var d := DateOf(t);
    FormatDate(d) + " " + Pad(HourOf(t), 2) + ":" + Pad(MinuteOf(t), 2)
  }

  /** The shape `strftime("%Y-%m-%d %H:%M")` produces for years 1 to 9999:
      sixteen characters, digits except for the separators. */
  predicate IsSlotShape(s: string)
  {
    && |s| == 16
    && s[4] == '-' && s[7] == '-' && s[10] == ' ' && s[13] == ':'
    && forall i :: 0 <= i < 16 && i != 4 && i != 7 && i != 10 && i != 13 ==> IsDigit(s[i])
  }

  /** Every moment within `datetime`'s range renders in the slot shape. */
  lemma FormatMomentShape(t: Moment)
    requires DateOf(t).year <= 9999
    ensures IsSlotShape(FormatMoment(t))
  {
    var d := DateOf(t);
    PadRoundTrip(d.year, 4);
    PadRoundTrip(d.month, 2);
    PadRoundTrip(d.day, 2);
    PadRoundTrip(HourOf(t), 2);
    PadRoundTrip(MinuteOf(t), 2);
    var s := FormatMoment(t);
    var y, mo, da, h, mi := Pad(d.year, 4), Pad(d.month, 2), Pad(d.day, 2), Pad(HourOf(t), 2), Pad(MinuteOf(t), 2);
    assert s == y + "-" + mo + "-" + da + " " + h + ":" + mi;
    forall i | 0 <= i < 16 && i != 4 && i != 7 && i != 10 && i != 13
      ensures IsDigit(s[i])
    {
      if i < 4 { assert s[i] == y[i]; }
      else if i < 7 { assert s[i] == mo[i - 5]; }
      else if i < 10 { assert s[i] == da[i - 8]; }
      else if i < 13 { assert s[i] == h[i - 11]; }
      else { assert s[i] == mi[i - 14]; }
    }
  }

  // ----- strptime -----

  /** `%m`, which `strptime` matches with `1[0-2]|0[1-9]|[1-9]`. */
  function ParseMonth(s: string): (r: Option<int>)
    ensures r.Some? ==> 1 <= r.value <= 12
  {
    if |s| == 1 && '1' <= s[0] <= '9' then Some(DigitValue(s[0]))
    else if |s| == 2 && AllDigits(s) && 1 <= DigitsValue(s) <= 12 then Some(DigitsValue(s))
    else None
  }

  /** `%d`, which `strptime` matches with `3[01]|[12]\d|0[1-9]|[1-9]| [1-9]`. */
  function ParseDay(s: string): (r: Option<int>)
    ensures r.Some? ==> 1 <= r.value <= 31
  {
    if |s| == 1 && '1' <= s[0] <= '9' then Some(DigitValue(s[0]))
    else if |s| == 2 && AllDigits(s) && 1 <= DigitsValue(s) <= 31 then Some(DigitsValue(s))
    else if |s| == 2 && s[0] == ' ' && '1' <= s[1] <= '9' then Some(DigitValue(s[1]))
    else None
  }

  /** The date three matched fields denote, or `None` where `datetime` raises `ValueError`. */
  function CheckDate(year: int, month: Option<int>, day: Option<int>): (r: Option<Date>)
    ensures r.Some? ==> ValidDate(r.value)
  {
    if month.Some? && day.Some? && 1 <= year <= 9999
       && 1 <= month.value <= 12 && 1 <= day.value <= DaysInMonth(year, month.value)
    then Some(Date(year, month.value, day.value))
    else None
  }

  /** `datetime.strptime(s, "%m/%d/%y")`; `%y` maps 00-68 to 2000-2068 and 69-99 to 1969-1999. */
  function ParseMDY(s: string): (r: Option<Date>)
    ensures r.Some? ==> ValidDate(r.value)
  {
    var parts := SplitOn(s, '/');
    if |parts| == 3 && |parts[2]| == 2 && AllDigits(parts[2]) then
      var yy := DigitsValue(parts[2]);
      CheckDate(if yy <= 68 then 2000 + yy else 1900 + yy, ParseMonth(parts[0]), ParseDay(parts[1]))
    else None
  }

  /** `datetime.strptime(s, "%Y-%m-%d")`; `%Y` is exactly four digits. */
  function ParseISO(s: string): (r: Option<Date>)
    ensures r.Some? ==> ValidDate(r.value)
  {
    var parts := SplitOn(s, '-');
    if |parts| == 3 && |parts[0]| == 4 && AllDigits(parts[0]) then
      CheckDate(DigitsValue(parts[0]), ParseMonth(parts[1]), ParseDay(parts[2]))
    else None
  }

  lemma {:induction false} SplitThree(a: string, b: string, c: string, sep: char)
    requires sep !in a && sep !in b && sep !in c
    ensures SplitOn(a + [sep] + b + [sep] + c, sep) == [a, b, c]
  {
    var tail := b + [sep] + c;
    var s := a + [sep] + b + [sep] + c;
    assert s == a + [sep] + tail;
    FirstSeparator(a, tail, sep);
    assert s[..|a|] == a && s[|a| + 1..] == tail;
    FirstSeparator(b, c, sep);
    assert tail[..|b|] == b && tail[|b| + 1..] == c;
    NoSeparator(c, sep);
    assert SplitOn(tail, sep) == [b] + SplitOn(c, sep);
    assert SplitOn(s, sep) == [a] + SplitOn(tail, sep);
  }

  /** Parsing what `strftime("%Y-%m-%d")` printed gives the date back. */
  lemma ISORoundTrip(d: Date)
    requires ValidDate(d)
    ensures ParseISO(FormatDate(d)) == Some(d)
  {
    PadRoundTrip(d.year, 4);
    PadRoundTrip(d.month, 2);
    PadRoundTrip(d.day, 2);
    var y, m, dd := Pad(d.year, 4), Pad(d.month, 2), Pad(d.day, 2);
    DigitsHaveNoSeparator(y, '-');
    DigitsHaveNoSeparator(m, '-');
    DigitsHaveNoSeparator(dd, '-');
    SplitThree(y, m, dd, '-');
    assert FormatDate(d) == y + ['-'] + m + ['-'] + dd;
  }

  /** Parsing the `%m/%d/%y` text of a valid date in the years `%y` reaches (1969 to 2068)
      returns that date. */
  lemma MDYRoundTrip(d: Date)
    requires ValidDate(d) && 1969 <= d.year <= 2068
    ensures ParseMDY(FormatMDY(d)) == Some(d)
  {
    var yy := YearDigits(d.year);
    var m, dd, y := Pad(d.month, 2), Pad(d.day, 2), Pad(yy, 2);
    MDYFields(d);
    DigitsHaveNoSeparator(m, '/');
    DigitsHaveNoSeparator(dd, '/');
    DigitsHaveNoSeparator(y, '/');
    SplitThree(m, dd, y, '/');
    ParseMDYOfFields(FormatMDY(d), m, dd, y, yy, d);
  }

  lemma ParseMDYOfFields(s: string, m: string, dd: string, y: string, yy: int, d: Date)
    requires SplitOn(s, '/') == [m, dd, y] && |y| == 2 && AllDigits(y) && DigitsValue(y) == yy
    requires ParseMonth(m) == Some(d.month) && ParseDay(dd) == Some(d.day)
    requires CheckDate(if yy <= 68 then 2000 + yy else 1900 + yy, Some(d.month), Some(d.day)) == Some(d)
    ensures ParseMDY(s) == Some(d)
  {
  }

  /** `%y`'s two digits of a year from 1969 to 2068, and the century `strptime` restores. */
  lemma YearDigitsOf(year: int)
    requires 1969 <= year <= 2068
    ensures year % 100 == YearDigits(year)
    ensures (if YearDigits(year) <= 68 then 2000 + YearDigits(year) else 1900 + YearDigits(year)) == year
  {
    if year >= 2000 {
      assert year == 20 * 100 + (year - 2000);
    } else {
      assert year == 19 * 100 + (year - 1900);
    }
  }

  function YearDigits(year: int): int
  {
    if year >= 2000 then year - 2000 else year - 1900
  }

  /** The three fields of `%m/%d/%y` read back as the month, the day and the year. */
  lemma MDYFields(d: Date)
    requires ValidDate(d) && 1969 <= d.year <= 2068
    ensures 0 <= YearDigits(d.year) < 100
    ensures FormatMDY(d) == Pad(d.month, 2) + ['/'] + Pad(d.day, 2) + ['/'] + Pad(YearDigits(d.year), 2)
    ensures ParseMonth(Pad(d.month, 2)) == Some(d.month)
    ensures ParseDay(Pad(d.day, 2)) == Some(d.day)
    ensures |Pad(YearDigits(d.year), 2)| == 2 && DigitsValue(Pad(YearDigits(d.year), 2)) == YearDigits(d.year)
    ensures CheckDate(if YearDigits(d.year) <= 68 then 2000 + YearDigits(d.year) else 1900 + YearDigits(d.year),
      Some(d.month), Some(d.day)) == Some(d)
  {
    YearDigitsOf(d.year);
    PadRoundTrip(d.month, 2);
    PadRoundTrip(d.day, 2);
    PadRoundTrip(YearDigits(d.year), 2);
  }
}
