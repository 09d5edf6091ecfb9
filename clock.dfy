/**
 * Naive UTC date-times as `datetime.strptime(s, '%Y-%m-%dT%H:%M:%SZ')` produces them, the
 * `isoformat()` renderings the sync writes, and a day count that places two date-times on one
 * time line.
 */
module Clock {
  import opened Optional
  import opened Strings

  /** A `datetime` without microseconds or time zone. */
  datatype DateTime = DateTime(year: int, month: int, day: int, hour: int, minute: int, second: int)

  predicate IsLeapYear(y: int) {
    y % 4 == 0 && (y % 100 != 0 || y % 400 == 0)
  }

  function DaysInMonth(y: int, m: int): (n: int)
    requires 1 <= m <= 12
    ensures 28 <= n <= 31
    ensures m == 2 ==> (n == 29 <==> IsLeapYear(y))
  {
    if m == 2 then (if IsLeapYear(y) then 29 else 28)
    else if m == 4 || m == 6 || m == 9 || m == 11 then 30
    else 31
  }

  /** The range checks of Python's `date` constructor (MINYEAR 1, MAXYEAR 9999). */
  predicate ValidDate(y: int, m: int, d: int) {
    1 <= y <= 9999 && 1 <= m <= 12 && 1 <= d <= DaysInMonth(y, m)
  }

  /** The range checks of Python's `datetime` constructor. */
  predicate Valid(dt: DateTime) {
    && ValidDate(dt.year, dt.month, dt.day)
    && 0 <= dt.hour < 24 && 0 <= dt.minute < 60 && 0 <= dt.second < 60
  }

  type ValidDateTime = dt: DateTime | Valid(dt) witness DateTime(1, 1, 1, 0, 0, 0)

  /** `date.isoformat()`: `YYYY-MM-DD`. */
  function IsoDate(dt: DateTime): (s: string)
    requires ValidDate(dt.year, dt.month, dt.day)
    ensures |s| == 10
  {
    Pad4(dt.year) + "-" + Pad2(dt.month) + "-" + Pad2(dt.day)
  }

  /** `datetime.isoformat()` of a naive value with no microseconds: `YYYY-MM-DDTHH:MM:SS`. */
  function IsoFormat(dt: DateTime): (s: string)
    requires Valid(dt)
    ensures |s| == 19 && s[..10] == IsoDate(dt)
  {
    IsoDate(dt) + "T" + Pad2(dt.hour) + ":" + Pad2(dt.minute) + ":" + Pad2(dt.second)
  }

  /** A numeric field read by one `%m` `%d` `%H` `%M` `%S` directive, and the index after it. */
  datatype Field = Field(value: nat, next: nat)

  /**
   * The directive patterns of `_strptime` accept one or two ASCII digits (`%d` also a space
   * and one non-zero digit). Since every separator of the format is a non-digit, reading two
   * digits when two are there and range-checking afterwards accepts exactly what those
   * patterns accept.
   */
  function ReadField(s: string, i: nat, spaced: bool): (r: Option<Field>)
    ensures r.Some? ==> i < r.value.next <= |s| && r.value.next <= i + 2 && r.value.value < 100
  {
    if i < |s| && IsDigit(s[i]) then
      if i + 1 < |s| && IsDigit(s[i + 1]) then Some(Field(10 * DigitValue(s[i]) + DigitValue(s[i + 1]), i + 2))
      else Some(Field(DigitValue(s[i]), i + 1))
    else if spaced && i + 1 < |s| && s[i] == ' ' && IsDigit(s[i + 1]) && s[i + 1] != '0' then
      Some(Field(DigitValue(s[i + 1]), i + 2))
    else None
  }

  /** A literal of the format; the pattern is compiled case-insensitively, so `T` also matches `t`. */
  predicate LiteralAt(s: string, i: nat, upper: char, lower: char) {
    i < |s| && (s[i] == upper || s[i] == lower)
  }

  /**
   * `datetime.strptime(s, '%Y-%m-%dT%H:%M:%SZ')`: `None` where it raises `ValueError`
   * (no match, unconverted data left over, or a value the `datetime` constructor refuses).
   */
  function ParseUtc(s: string): (r: Option<DateTime>)
    ensures r.Some? ==> Valid(r.value)
  {
    if |s| < 5 || !AllDigits(s[..4]) || s[4] != '-' then None
    else
      var year := DecimalValue(s[..4]);
      var month :- ReadField(s, 5, false);
      if !LiteralAt(s, month.next, '-', '-') then None
      else
        var day :- ReadField(s, month.next + 1, true);
        if !LiteralAt(s, day.next, 'T', 't') then None
        else
          var hour :- ReadField(s, day.next + 1, false);
          if !LiteralAt(s, hour.next, ':', ':') then None
          else
            var minute :- ReadField(s, hour.next + 1, false);
            if !LiteralAt(s, minute.next, ':', ':') then None
            else
              var second :- ReadField(s, minute.next + 1, false);
              if !LiteralAt(s, second.next, 'Z', 'z') || second.next + 1 != |s| then None
              else
                var dt := DateTime(year, month.value, day.value, hour.value, minute.value, second.value);
                if Valid(dt) then Some(dt) else None
  }

  lemma ReadPadded(s: string, i: nat, n: nat, spaced: bool)
    requires n < 100 && i + 2 < |s| && s[i..i + 2] == Pad2(n) && !IsDigit(s[i + 2])
    ensures ReadField(s, i, spaced) == Some(Field(n, i + 2))
  {
    assert s[i] == Pad2(n)[0] && s[i + 1] == Pad2(n)[1];
  }

  lemma YearDigits(s: string, n: nat)
    requires n < 10000 && 4 <= |s| && s[..4] == Pad4(n)
    ensures AllDigits(s[..4]) && DecimalValue(s[..4]) == n
  {
    var y := s[..4];
    assert y[..3][..2][..1][..0] == [];
    assert DecimalValue(y[..1]) == DigitValue(y[0]);
    assert y[..3][..2] == y[..2] && y[..2][..1] == y[..1];
    assert DecimalValue(y[..2]) == 10 * DigitValue(y[0]) + DigitValue(y[1]);
    assert y[..3][..2] == y[..2];
    assert DecimalValue(y[..3]) == 100 * DigitValue(y[0]) + 10 * DigitValue(y[1]) + DigitValue(y[2]);
  }

  /** Round trip: `strptime` reads back what `isoformat() + 'Z'` writes. */
  lemma {:induction false} ParseIsoFormat(dt: DateTime)
    requires Valid(dt)
    ensures ParseUtc(IsoFormat(dt) + "Z") == Some(dt)
  {
    var s := IsoFormat(dt) + "Z";
    assert |s| == 20;
    assert s[..4] == Pad4(dt.year);
    YearDigits(s, dt.year);
    assert s[4] == '-' && s[7] == '-' && s[10] == 'T' && s[13] == ':' && s[16] == ':' && s[19] == 'Z';
    ReadPadded(s, 5, dt.month, false);
    ReadPadded(s, 8, dt.day, true);
    ReadPadded(s, 11, dt.hour, false);
    ReadPadded(s, 14, dt.minute, false);
    ReadPadded(s, 17, dt.second, false);
  }

  /** Days in the months of year `y` before month `m` (`m == 13`: the whole year). */
  function DaysBeforeMonth(y: int, m: int): nat
    requires 1 <= m <= 13
    decreases m
  {
    if m == 1 then 0 else DaysBeforeMonth(y, m - 1) + DaysInMonth(y, m - 1)
  }

  function YearLength(y: int): nat {
    if IsLeapYear(y) then 366 else 365
  }

  /** The twelve months add up to the year. */
  lemma MonthsMakeYear(y: int)
    ensures DaysBeforeMonth(y, 13) == YearLength(y)
  {
  }

  /** Days in the years before year `y` of the proleptic Gregorian calendar. */
  function DaysBeforeYear(y: int): nat
    requires 1 <= y
    decreases y
  {
    if y == 1 then 0 else DaysBeforeYear(y - 1) + YearLength(y - 1)
  }

  /** The ordinal of the date, counted from 0001-01-01 (`date.toordinal() - 1`). */
  function DayNumber(dt: DateTime): nat
    requires ValidDate(dt.year, dt.month, dt.day)
  {
    DaysBeforeYear(dt.year) + DaysBeforeMonth(dt.year, dt.month) + dt.day - 1
  }

  function SecondOfDay(dt: DateTime): (n: nat)
    requires Valid(dt)
    ensures n < 86400
  {
    dt.hour * 3600 + dt.minute * 60 + dt.second
  }

  /** Seconds since 0001-01-01T00:00:00, which orders date-times on one time line. */
  function Instant(dt: DateTime): int
    requires Valid(dt)
  {
    DayNumber(dt) * 86400 + SecondOfDay(dt)
  }

  lemma {:induction false} MonthsGrow(y: int, m: int, m': int)
    requires 1 <= m < m' <= 13
    ensures DaysBeforeMonth(y, m) + DaysInMonth(y, m) <= DaysBeforeMonth(y, m')
    decreases m' - m
  {
    if m + 1 < m' {
      MonthsGrow(y, m, m' - 1);
    }
  }

  lemma {:induction false} YearsGrow(y: int, y': int)
    requires 1 <= y < y'
    ensures DaysBeforeYear(y) + YearLength(y) <= DaysBeforeYear(y')
    decreases y' - y
  {
    if y + 1 < y' {
      YearsGrow(y, y' - 1);
    }
  }

  /** A later date has a larger day number. */
  lemma {:induction false} DayNumberOrdersDates(a: DateTime, b: DateTime)
    requires ValidDate(a.year, a.month, a.day) && ValidDate(b.year, b.month, b.day)
    requires (a.year, a.month, a.day) != (b.year, b.month, b.day)
    requires a.year < b.year || (a.year == b.year && (a.month < b.month || (a.month == b.month && a.day < b.day)))
    ensures DayNumber(a) < DayNumber(b)
  {
    if a.year < b.year {
      MonthsGrow(a.year, a.month, 13);
      MonthsMakeYear(a.year);
      YearsGrow(a.year, b.year);
    } else if a.month < b.month {
      MonthsGrow(a.year, a.month, b.month);
    }
  }

  /** Two valid dates with the same day number are the same date. */
  lemma DayNumberInjective(a: DateTime, b: DateTime)
    requires ValidDate(a.year, a.month, a.day) && ValidDate(b.year, b.month, b.day)
    requires DayNumber(a) == DayNumber(b)
    ensures a.year == b.year && a.month == b.month && a.day == b.day
  {
    if (a.year, a.month, a.day) != (b.year, b.month, b.day) {
      if a.year < b.year || (a.year == b.year && (a.month < b.month || (a.month == b.month && a.day < b.day))) {
        DayNumberOrdersDates(a, b);
      } else {
        DayNumberOrdersDates(b, a);
      }
    }
  }

  /** A shift by `k` seconds that stays inside the day keeps the date. */
  lemma ShiftWithinDay(a: DateTime, b: DateTime, k: int)
    requires Valid(a) && Valid(b)
    requires Instant(b) == Instant(a) + k
    requires 0 <= SecondOfDay(a) + k < 86400
    ensures a.year == b.year && a.month == b.month && a.day == b.day
    ensures SecondOfDay(b) == SecondOfDay(a) + k
  {
    assert DayNumber(a) == DayNumber(b);
    DayNumberInjective(a, b);
  }
}
