/**
 * Calendar dates as the source handles them with `datetime.strptime`,
 * `strftime` and `datetime` arithmetic: the two parse formats it uses
 * ("%d.%m.%Y" and "%Y-%m-%d"), the "%Y-%m-%d" rendering, and Python's
 * proleptic Gregorian day ordinal (`date.toordinal`).
 */
module Dates {

  import opened Wrappers
  import opened Strings

  datatype Date = Date(year: int, month: int, day: int) {
    /** What `datetime(year, month, day)` accepts. */
    predicate Valid() {
      1 <= year <= 9999 && 1 <= month <= 12 && 1 <= day <= DaysInMonth(year, month)
    }
  }

  predicate IsLeap(y: int) {
    y % 4 == 0 && (y % 100 != 0 || y % 400 == 0)
  }

  function DaysInMonth(y: int, m: int): (n: int)
    requires 1 <= m <= 12
    ensures 28 <= n <= 31
  {
    if m == 2 then (if IsLeap(y) then 29 else 28)
    else if m == 4 || m == 6 || m == 9 || m == 11 then 30
    else 31
  }

  // ---------------------------------------------------------------------
  // Fixed-width numerals

  function DigitChar(n: int): (c: char)
    requires 0 <= n <= 9
    ensures IsDigit(c) && DigitValue(c) == n
  {
    ('0' as int + n) as char
  }

  /** Decimal value of a run of digits. */
  function Numeral(s: string): (n: int)
    requires forall k | 0 <= k < |s| :: IsDigit(s[k])
    ensures 0 <= n < Pow10(|s|)
  {
    if s == [] then 0 else Numeral(s[..|s| - 1]) * 10 + DigitValue(s[|s| - 1])
  }

  function Pow10(k: nat): (p: int)
    ensures 1 <= p
  {
    if k == 0 then 1 else 10 * Pow10(k - 1)
  }

  /** Zero-padded two-digit rendering (`%m`, `%d`). */
  function Pad2(n: int): (r: string)
    requires 0 <= n < 100
    ensures |r| == 2 && AllDigits(r) && Numeral(r) == n
  {
    var r := [DigitChar(n / 10), DigitChar(n % 10)];
    assert r[..1] == [DigitChar(n / 10)] && r[..1][..0] == [];
    assert Numeral(r[..1]) == n / 10;
    r
  }

  /** Zero-padded four-digit rendering (`%Y`). */
  function Pad4(n: int): (r: string)
    requires 0 <= n < 10000
    ensures |r| == 4 && AllDigits(r) && Numeral(r) == n
  {
    var hi, lo := Pad2(n / 100), Pad2(n % 100);
    NumeralPair(hi, lo);
    hi + lo
  }

  /** Two two-digit numerals side by side read as hundreds and units. */
  lemma NumeralPair(a: string, b: string)
    requires |a| == 2 && AllDigits(a) && |b| == 2 && AllDigits(b)
    ensures AllDigits(a + b) && Numeral(a + b) == Numeral(a) * 100 + Numeral(b)
  {
    var r := a + b;
    assert r[..3] == a + [b[0]] && r[..3][..2] == a;
    assert b[..1] == [b[0]] && b[..1][..0] == [];
    assert Numeral(b) == DigitValue(b[0]) * 10 + DigitValue(b[1]);
  }

  // ---------------------------------------------------------------------
  // strptime directives

  /**
   * `%d` accepts `3[01]|[12]\d|0[1-9]|[1-9]| [1-9]`: a day written with two
   * digits, with one digit, or as a space and one digit.
   */
  function DayField(f: string): (r: Option<int>)
    ensures r.Some? ==> 1 <= r.value <= 31
  {
    if |f| == 1 && '1' <= f[0] <= '9' then Some(DigitValue(f[0]))
    else if |f| == 2 && f[0] == ' ' && '1' <= f[1] <= '9' then Some(DigitValue(f[1]))
    else if |f| == 2 && AllDigits(f) && 1 <= Numeral(f) <= 31 then Some(Numeral(f))
    else None
  }

  /** `%m` accepts `1[0-2]|0[1-9]|[1-9]`. */
  function MonthField(f: string): (r: Option<int>)
    ensures r.Some? ==> 1 <= r.value <= 12
  {
    if |f| == 1 && '1' <= f[0] <= '9' then Some(DigitValue(f[0]))
    else if |f| == 2 && AllDigits(f) && 1 <= Numeral(f) <= 12 then Some(Numeral(f))
    else None
  }

  /** `%Y` accepts exactly four digits. */
  function YearField(f: string): (r: Option<int>)
    ensures r.Some? ==> 0 <= r.value <= 9999
  {
    if |f| == 4 && AllDigits(f) then Some(Numeral(f)) else None
  }

  /** `datetime(y, m, d)`: raises ValueError unless the three form a real date. */
  function MakeDate(y: int, m: int, d: int): (r: Option<Date>)
    ensures r.Some? <==> Date(y, m, d).Valid()
    ensures r.Some? ==> r.value == Date(y, m, d)
  {
    if Date(y, m, d).Valid() then Some(Date(y, m, d)) else None
  }

  /**
   * `datetime.strptime(s, "%d.%m.%Y")`; `None` stands for the ValueError it
   * raises.  Day and month contain no '.', so each ends at the next '.'.
   */
  function ParseDayMonthYear(s: string): (r: Option<Date>)
    ensures r.Some? ==> r.value.Valid()
  {
    match IndexOf(s, '.')
    case None => None
    case Some(i) =>
      var rest := s[i + 1..];
      match IndexOf(rest, '.')
      case None => None
      case Some(j) =>
        match (DayField(s[..i]), MonthField(rest[..j]), YearField(rest[j + 1..]))
        case (Some(d), Some(m), Some(y)) => MakeDate(y, m, d)
        case _ => None
  }

  /** `datetime.strptime(s, "%Y-%m-%d")`; `None` stands for ValueError. */
  function ParseIsoDate(s: string): (r: Option<Date>)
    ensures r.Some? ==> r.value.Valid()
  {
    if |s| < 5 || s[4] != '-' then None
    else
      var rest := s[5..];
      match IndexOf(rest, '-')
      case None => None
      case Some(j) =>
        match (YearField(s[..4]), MonthField(rest[..j]), DayField(rest[j + 1..]))
        case (Some(y), Some(m), Some(d)) => MakeDate(y, m, d)
        case _ => None
  }

  /** `strftime("%Y-%m-%d")`. */
  function IsoDate(d: Date): (r: string)
    requires d.Valid()
    ensures |r| == 10
  {
    Pad4(d.year) + "-" + Pad2(d.month) + "-" + Pad2(d.day)
  }

  /** `strftime("%d.%m.%Y")`, the form the source system sends end dates in. */
  function DayMonthYear(d: Date): (r: string)
    requires d.Valid()
    ensures |r| == 10
  {
    Pad2(d.day) + "." + Pad2(d.month) + "." + Pad4(d.year)
  }

  lemma DigitsHaveNo(s: string, c: char)
    requires AllDigits(s) && !IsDigit(c)
    ensures c !in s
  {
  }

  /** "%Y-%m-%d" parses what "%Y-%m-%d" renders: the date is preserved. */
  lemma IsoRoundTrip(d: Date)
    requires d.Valid()
    ensures ParseIsoDate(IsoDate(d)) == Some(d)
  {
    var y, m, dd := Pad4(d.year), Pad2(d.month), Pad2(d.day);
    var s := IsoDate(d);
    assert s == y + "-" + m + "-" + dd;
    assert s[..4] == y;
    assert s[4] == '-';
    var rest := s[5..];
    assert rest == m + "-" + dd;
    DigitsHaveNo(m, '-');
    assert rest[2] == '-' && rest[..2] == m;
    assert IndexOf(rest, '-') == Some(2);
    assert rest[3..] == dd;
  }

  /** "%d.%m.%Y" parses the zero-padded day-first form. */
  lemma DayMonthYearRoundTrip(d: Date)
    requires d.Valid()
    ensures ParseDayMonthYear(DayMonthYear(d)) == Some(d)
  {
    var dd, m, y := Pad2(d.day), Pad2(d.month), Pad4(d.year);
    var s := DayMonthYear(d);
    assert s == dd + "." + m + "." + y;
    DigitsHaveNo(dd, '.');
    assert s[2] == '.' && s[..2] == dd;
    assert IndexOf(s, '.') == Some(2);
    var rest := s[3..];
    assert rest == m + "." + y;
    DigitsHaveNo(m, '.');
    assert rest[2] == '.' && rest[..2] == m;
    assert IndexOf(rest, '.') == Some(2);
    assert rest[3..] == y;
  }

  // ---------------------------------------------------------------------
  // Day ordinals and instants

  /** Days before January 1 of year `y` (Python's `_days_before_year`). */
  function DaysBeforeYear(y: int): int
    requires 1 <= y
  {
    var p := y - 1;
    p * 365 + p / 4 - p / 100 + p / 400
  }

  /** Days before the first of month `m` in year `y` (`_days_before_month`). */
  function DaysBeforeMonth(y: int, m: int): int
    requires 1 <= m <= 12
  {
    var table := [0, 31, 59, 90, 120, 151, 181, 212, 243, 273, 304, 334];
    table[m - 1] + (if m > 2 && IsLeap(y) then 1 else 0)
  }

  /** `date(y, m, d).toordinal()`: 0001-01-01 is day 1. */
  function Ordinal(d: Date): (n: int)
    requires d.Valid()
    ensures 1 <= n
  {
    DaysBeforeYear(d.year) + DaysBeforeMonth(d.year, d.month) + d.day
  }

  /** Ordinal of `datetime.max`'s date, 9999-12-31. */
  const MaxOrdinal: int := 3_652_059

  const MicrosPerDay: int := 86_400_000_000

  /** A `datetime` as microseconds since 0001-01-01 00:00:00. */
  type Instant = t: int | 0 <= t < MaxOrdinal * MicrosPerDay

  /** The `datetime` at midnight of `d`, which is what `strptime` yields. */
  function Midnight(d: Date): int
    requires d.Valid()
  {
    (Ordinal(d) - 1) * MicrosPerDay
  }

  /** The ordinal counts days one by one, across month and year ends. */
  lemma OrdinalNextDay(d: Date)
    requires d.Valid()
    ensures d.day < DaysInMonth(d.year, d.month) ==>
              Ordinal(Date(d.year, d.month, d.day + 1)) == Ordinal(d) + 1
    ensures d.day == DaysInMonth(d.year, d.month) && d.month < 12 ==>
              Ordinal(Date(d.year, d.month + 1, 1)) == Ordinal(d) + 1
    ensures d.day == 31 && d.month == 12 && d.year < 9999 ==>
              Ordinal(Date(d.year + 1, 1, 1)) == Ordinal(d) + 1
  {
    if d.month == 12 && d.day == 31 && d.year < 9999 {
      DaysBeforeNextYear(d.year);
    }
  }

  /** A year contributes 366 days when it is a leap year and 365 otherwise. */
  lemma DaysBeforeNextYear(y: int)
    requires 1 <= y
    ensures DaysBeforeYear(y + 1) == DaysBeforeYear(y) + (if IsLeap(y) then 366 else 365)
  {
    YearPassesFour(y);
    YearPassesHundred(y);
    YearPassesFourHundred(y);
    if y % 400 == 0 {
      CenturyOfFourHundred(y);
    }
    if y % 100 == 0 {
      QuadOfHundred(y);
    }
  }

  /* Passing `y` adds one to the number of multiples of 4, 100 and 400 exactly when `y` is one. */

  lemma YearPassesFour(y: int)
    requires 1 <= y
    ensures y / 4 - (y - 1) / 4 == (if y % 4 == 0 then 1 else 0)
  {
    var q, r := (y - 1) / 4, (y - 1) % 4;
    if r == 3 {
      assert y == 4 * (q + 1);
    } else {
      assert y == 4 * q + (r + 1);
    }
  }

  lemma YearPassesHundred(y: int)
    requires 1 <= y
    ensures y / 100 - (y - 1) / 100 == (if y % 100 == 0 then 1 else 0)
  {
    var q, r := (y - 1) / 100, (y - 1) % 100;
    if r == 99 {
      assert y == 100 * (q + 1);
    } else {
      assert y == 100 * q + (r + 1);
    }
  }

  lemma YearPassesFourHundred(y: int)
    requires 1 <= y
    ensures y / 400 - (y - 1) / 400 == (if y % 400 == 0 then 1 else 0)
  {
    var q, r := (y - 1) / 400, (y - 1) % 400;
    if r == 399 {
      assert y == 400 * (q + 1);
    } else {
      assert y == 400 * q + (r + 1);
    }
  }

  lemma CenturyOfFourHundred(y: int)
    requires y % 400 == 0
    ensures y % 100 == 0
  {
    assert y == 100 * (4 * (y / 400));
  }

  lemma QuadOfHundred(y: int)
    requires y % 100 == 0
    ensures y % 4 == 0
  {
    assert y == 4 * (25 * (y / 100));
  }

  lemma MaxOrdinalIsLastDay()
    ensures Ordinal(Date(9999, 12, 31)) == MaxOrdinal
  {
  }
}
