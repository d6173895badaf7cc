/** The date-times the service methods take: timezone-aware `datetime`s,
    already converted to UTC and given by their parts. Python compares and
    subtracts aware datetimes by the instant they denote; `Instant` is that
    instant in seconds, counted on the proleptic Gregorian calendar that
    `date.toordinal()` uses. The service renders a date-time as a
    `YYYY-MM-DD` date, an `HH:MM:SS` time and the index of its 5-minute
    interval of the day. */
module Calendar {
  import opened Wire
  import opened Text

  datatype DateTime = DateTime(year: int, month: int, day: int, hour: int, minute: int, second: int)


  predicate IsLeap(y: int) {
    y % 4 == 0 && (y % 100 != 0 || y % 400 == 0)
  }

  function DaysInMonth(y: int, m: int): (n: int)
    requires 1 <= m <= 12
    ensures 28 <= n <= 31
    ensures m == 2 ==> (n == 29 <==> IsLeap(y))
  {
    if m == 2 then (if IsLeap(y) then 29 else 28)
    else if m == 4 || m == 6 || m == 9 || m == 11 then 30
    else 31
  }

  function DaysInYear(y: int): int {
    if IsLeap(y) then 366 else 365
  }

  /** A `datetime` Python can represent. */
  predicate Valid(t: DateTime) {
    1 <= t.year <= 9999 && 1 <= t.month <= 12 && 1 <= t.day <= DaysInMonth(t.year, t.month)
    && 0 <= t.hour < 24 && 0 <= t.minute < 60 && 0 <= t.second < 60
  }

  /** Days in the months of year `y` before month `m`. */
  function DaysBeforeMonth(y: int, m: int): nat
    requires 1 <= m <= 13
  {
    if m == 1 then 0 else DaysBeforeMonth(y, m - 1) + DaysInMonth(y, m - 1)
  }

  /** Days in the years before year `y`, from year 1. */
  function DaysBeforeYear(y: int): int
    requires y >= 1
  {
    var p := y - 1;
    365 * p + p / 4 - p / 100 + p / 400
  }

  /** `t.toordinal()`: 1 for 0001-01-01. */
  function Ordinal(t: DateTime): int
    requires Valid(t)
  {
    DaysBeforeYear(t.year) + DaysBeforeMonth(t.year, t.month) + t.day
  }

  function SecondOfDay(t: DateTime): int {
    t.hour * 3600 + t.minute * 60 + t.second
  }

  /** The instant `t` denotes, in seconds. */
  function Instant(t: DateTime): int
    requires Valid(t)
  {
    Ordinal(t) * 86400 + SecondOfDay(t)
  }

  /** `datetime.max` to the second, and the instants of `datetime.min`
      (0001-01-01 00:00:00) and `datetime.max`: Python raises an
      OverflowError for any date-time arithmetic whose result falls outside
      them. */
  const MaxDateTime := DateTime(9999, 12, 31, 23, 59, 59)
  const MinInstant := 86400
  const MaxInstant := 3652059 * 86400 + 86399

  /** The calendar order of date-times: by year, then month, day, hour,
      minute and second. */
  predicate Before(a: DateTime, b: DateTime) {
    if a.year != b.year then a.year < b.year
    else if a.month != b.month then a.month < b.month
    else if a.day != b.day then a.day < b.day
    else if a.hour != b.hour then a.hour < b.hour
    else if a.minute != b.minute then a.minute < b.minute
    else a.second < b.second
  }

  lemma YearLength(y: int)
    requires y >= 1
    ensures DaysBeforeYear(y + 1) == DaysBeforeYear(y) + DaysInYear(y)
  {
    var p := y - 1;
    var a := DivStep(p, 4);
    var b := DivStep(p, 100);
    var c := DivStep(p, 400);
    Divisors(y);
    assert a - b + c == if IsLeap(y) then 1 else 0;
    assert DaysBeforeYear(y + 1) == 365 * p + 365 + (p / 4 + a) - (p / 100 + b) + (p / 400 + c);
  }

  /** A multiple of 400 is one of 100, and a multiple of 100 one of 4. */
  lemma Divisors(y: int)
    ensures y % 400 == 0 ==> y % 100 == 0
    ensures y % 100 == 0 ==> y % 4 == 0
  {
    if y % 400 == 0 {
      MultipleMod(y, y / 400, 400, 100);
    }
    if y % 100 == 0 {
      MultipleMod(y, y / 100, 100, 4);
    }
  }

  /** A multiple of `m` is a multiple of every divisor `k` of `m`. */
  lemma MultipleMod(y: int, q: int, m: int, k: int)
    requires (m, k) in {(400, 100), (100, 4)} && y == m * q
    ensures y % k == 0
  {
    if m == 400 {
      assert y == 100 * (4 * q);
    } else {
      assert y == 4 * (25 * q);
    }
  }

  /** Division by `k` steps up by one exactly at the multiples of `k`. */
  lemma DivStep(p: int, k: int) returns (step: int)
    requires p >= 0 && k in {4, 100, 400}
    ensures (p + 1) / k == p / k + step
    ensures step == if (p + 1) % k == 0 then 1 else 0
  {
    var q, r := p / k, p % k;
    assert p == k * q + r && 0 <= r < k;
    if r + 1 == k {
      assert p + 1 == k * (q + 1);
      step := 1;
    } else {
      assert p + 1 == k * q + (r + 1);
      step := 0;
    }
  }

  lemma MonthsOfYear(y: int)
    ensures DaysBeforeMonth(y, 13) == DaysInYear(y)
  {
    assert DaysBeforeMonth(y, 2) == 31;
    assert DaysBeforeMonth(y, 3) == 31 + DaysInMonth(y, 2);
    assert DaysBeforeMonth(y, 4) == DaysBeforeMonth(y, 3) + 31;
    assert DaysBeforeMonth(y, 5) == DaysBeforeMonth(y, 4) + 30;
    assert DaysBeforeMonth(y, 6) == DaysBeforeMonth(y, 5) + 31;
    assert DaysBeforeMonth(y, 7) == DaysBeforeMonth(y, 6) + 30;
    assert DaysBeforeMonth(y, 8) == DaysBeforeMonth(y, 7) + 31;
    assert DaysBeforeMonth(y, 9) == DaysBeforeMonth(y, 8) + 31;
    assert DaysBeforeMonth(y, 10) == DaysBeforeMonth(y, 9) + 30;
    assert DaysBeforeMonth(y, 11) == DaysBeforeMonth(y, 10) + 31;
    assert DaysBeforeMonth(y, 12) == DaysBeforeMonth(y, 11) + 30;
  }

  /** Month `m` ends no later than month `n > m` begins. */
  lemma {:induction false} MonthsAscend(y: int, m: int, n: int)
    requires 1 <= m < n <= 13
    ensures DaysBeforeMonth(y, m) + DaysInMonth(y, m) <= DaysBeforeMonth(y, n)
    decreases n
  {
    if n > m + 1 {
      MonthsAscend(y, m, n - 1);
    }
  }

  /** Year `y` ends no later than year `z > y` begins. */
  lemma {:induction false} YearsAscend(y: int, z: int)
    requires 1 <= y < z
    ensures DaysBeforeYear(y) + DaysInYear(y) <= DaysBeforeYear(z)
    decreases z
  {
    YearLength(y);
    if z > y + 1 {
      YearsAscend(y, z - 1);
      YearLength(z - 1);
    }
  }

  /** The day of `t` lies within its year. */
  lemma OrdinalInYear(t: DateTime)
    requires Valid(t)
    ensures DaysBeforeYear(t.year) < Ordinal(t) <= DaysBeforeYear(t.year) + DaysInYear(t.year)
  {
    MonthsAscend(t.year, t.month, 13);
    MonthsOfYear(t.year);
  }

  /** An earlier calendar date has a smaller ordinal. */
  lemma EarlierDay(a: DateTime, b: DateTime)
    requires Valid(a) && Valid(b)
    requires (a.year, a.month, a.day) != (b.year, b.month, b.day)
    requires Before(a, b)
    ensures Ordinal(a) < Ordinal(b)
  {
    if a.year < b.year {
      OrdinalInYear(a);
      OrdinalInYear(b);
      YearsAscend(a.year, b.year);
    } else if a.month < b.month {
      MonthsAscend(a.year, a.month, b.month);
    }
  }

  /** The first day of `datetime.max`'s year and its last day. */
  lemma LastYear()
    ensures DaysBeforeYear(9999) == 3651694 && DaysInYear(9999) == 365
    ensures DaysBeforeMonth(9999, 12) == 334
  {
    MonthsOfYear(9999);
  }

  /** `datetime.max` is valid, and its instant is the upper bound. */
  lemma LatestDateTime()
    ensures Valid(MaxDateTime) && Instant(MaxDateTime) == MaxInstant
  {
    LastYear();
    assert Valid(MaxDateTime);
    assert Ordinal(MaxDateTime) == 3652059;
  }

  /** Every date-time Python can build lies between `datetime.min` and
      `datetime.max`. */
  lemma InstantRange(t: DateTime)
    requires Valid(t)
    ensures MinInstant <= Instant(t) <= MaxInstant
  {
    LastYear();
    OrdinalInYear(t);
    var p := t.year - 1;
    assert p / 100 <= p;
    if t.year < 9999 {
      YearsAscend(t.year, 9999);
    }
    var o := Ordinal(t);
    assert 1 <= o <= 3652059;
    assert 0 <= SecondOfDay(t) < 86400;
  }

  /** Comparing instants is comparing date-times in calendar order. */
  lemma InstantOrder(a: DateTime, b: DateTime)
    requires Valid(a) && Valid(b)
    ensures Instant(a) < Instant(b) <==> Before(a, b)
  {
    if (a.year, a.month, a.day) != (b.year, b.month, b.day) {
      if Before(a, b) {
        EarlierDay(a, b);
      } else {
        EarlierDay(b, a);
      }
    }
  }

  /** `'{0}-{1:02}-{2:02}'.format(t.year, t.month, t.day)`. */
  function FormatDate(t: DateTime): string
    requires Valid(t)
  {
    NatToString(t.year) + "-" + Pad2(t.month) + "-" + Pad2(t.day)
  }

  /** `'{0:02}:{1:02}:{2:02}'.format(t.hour, t.minute, t.second)`. */
  function FormatTime(t: DateTime): string
    requires Valid(t)
  {
    Pad2(t.hour) + ":" + Pad2(t.minute) + ":" + Pad2(t.second)
  }

  /** Three decimal numbers separated by `sep`. */
  function ParseTriple(s: string, sep: char): Option<(nat, nat, nat)> {
    var parts := Split(s, sep);
    if |parts| == 3 && AllDigits(parts[0]) && AllDigits(parts[1]) && AllDigits(parts[2]) then
      Some((ParseNat(parts[0]), ParseNat(parts[1]), ParseNat(parts[2])))
    else None
  }

  /** Three digit strings joined by a non-digit split back into themselves. */
  lemma SplitTriple(a: string, b: string, c: string, sep: char)
    requires AllDigits(a) && AllDigits(b) && AllDigits(c) && !IsDigit(sep)
    ensures Split(a + [sep] + b + [sep] + c, sep) == [a, b, c]
  {
    DigitsHaveNoSeparator(a, sep);
    DigitsHaveNoSeparator(b, sep);
    DigitsHaveNoSeparator(c, sep);
    var parts := [a, b, c];
    assert parts[1..] == [b, c] && [b, c][1..] == [c];
    assert Join([b, c], sep) == b + [sep] + c;
    assert Join(parts, sep) == a + [sep] + (b + [sep] + c);
    assert a + [sep] + (b + [sep] + c) == a + [sep] + b + [sep] + c;
    SplitJoin(parts, sep);
  }

  /** A rendered date reads back as the year, month and day, each month and
      day written with exactly two digits. */
  lemma FormatDateRoundTrip(t: DateTime)
    requires Valid(t)
    ensures ParseTriple(FormatDate(t), '-') == Some((t.year as nat, t.month as nat, t.day as nat))
    ensures |FormatDate(t)| == |NatToString(t.year)| + 6
  {
    ParseNatToString(t.year);
    SplitTriple(NatToString(t.year), Pad2(t.month), Pad2(t.day), '-');
  }

  /** A rendered time is eight characters and reads back as the hour,
      minute and second. */
  lemma FormatTimeRoundTrip(t: DateTime)
    requires Valid(t)
    ensures ParseTriple(FormatTime(t), ':') == Some((t.hour as nat, t.minute as nat, t.second as nat))
    ensures |FormatTime(t)| == 8
  {
    SplitTriple(Pad2(t.hour), Pad2(t.minute), Pad2(t.second), ':');
  }

  /** A four-digit year is written with four characters, so the dates the
      service accepts are ten characters long. */
  lemma FourDigitYear(t: DateTime)
    requires Valid(t) && 1000 <= t.year
    ensures |FormatDate(t)| == 10
  {
    FormatDateRoundTrip(t);
    var y := t.year;
    assert |NatToString(y / 1000)| == 1;
    assert |NatToString(y / 100)| == |NatToString(y / 1000)| + 1 by { assert (y / 100) / 10 == y / 1000; }
    assert |NatToString(y / 10)| == |NatToString(y / 100)| + 1 by { assert (y / 10) / 10 == y / 100; }
  }

  /** `t.hour * 12 + t.minute // 5`: the index of the 5-minute interval of
      the day that holds `t`. */
  function Interval(t: DateTime): (i: int)
    requires Valid(t)
    ensures 0 <= i <= 287
  {
    t.hour * 12 + t.minute / 5
  }

  /** Interval `i` covers the seconds `[300 i, 300 i + 300)` of the day, so
      the index names the 5-minute slot the time falls in. */
  lemma IntervalSlot(t: DateTime)
    requires Valid(t)
    ensures Interval(t) * 300 <= SecondOfDay(t) < Interval(t) * 300 + 300
  {
    var q := t.minute / 5;
    assert 5 * q <= t.minute < 5 * q + 5;
  }
}
