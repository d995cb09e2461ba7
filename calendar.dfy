/** Calendar dates as Python's `datetime` module reads, writes and compares
    them: `datetime.strptime(s, "%Y-%m-%d")` (and the date part of
    `"%Y-%m-%d %H:%M:%S"`), `strftime("%B %d, %Y")`, and `toordinal()`,
    whose difference is what `date - timedelta(days=k)` and date comparison
    amount to. */
module Calendar {
  import opened Wrappers
  import opened Strings

  datatype Date = Date(year: int, month: int, day: int)

  predicate IsLeap(y: int)
  {
    y % 4 == 0 && (y % 100 != 0 || y % 400 == 0)
  }

  function DaysInMonth(y: int, m: int): (n: int)
    requires 1 <= m <= 12
    ensures 28 <= n <= 31
  {
    if m == 2 then (if IsLeap(y) then 29 else 28)
    else if m == 4 || m == 6 || m == 9 || m == 11 then 30
    else 31
  }

  /** The dates `datetime.date` accepts: years 1 to 9999 and real days. */
  predicate ValidDate(dt: Date)
  {
    1 <= dt.year <= 9999 && 1 <= dt.month <= 12 && 1 <= dt.day <= DaysInMonth(dt.year, dt.month)
  }

  function DigitValue(c: char): int
  {
    c as int - '0' as int
  }

  // ---------------------------------------------------------------------
  // Parsing. CPython's strptime turns "%Y-%m-%d" into the regular
  // expression  (\d\d\d\d)-(1[0-2]|0[1-9]|[1-9])-(3[01]|[12]\d|0[1-9]|[1-9]| [1-9])
  // and raises ValueError unless it matches the whole string and the
  // numbers form a real date. One-digit months and days are accepted.
  // ---------------------------------------------------------------------

  /** The `%Y-` part: four digits and a dash, giving the year and the rest. */
  function YearField(s: string): Option<(int, string)>
  {
    if |s| >= 5 && IsDigit(s[0]) && IsDigit(s[1]) && IsDigit(s[2]) && IsDigit(s[3]) && s[4] == '-' then
      Some((1000 * DigitValue(s[0]) + 100 * DigitValue(s[1]) + 10 * DigitValue(s[2]) + DigitValue(s[3]), s[5..]))
    else None
  }

  /** The `%m-` part: the first alternative of 1[0-2]|0[1-9]|[1-9] that is
      followed by a dash. */
  function MonthField(t: string): Option<(int, string)>
  {
    if |t| >= 3 && t[0] == '1' && '0' <= t[1] <= '2' && t[2] == '-' then Some((10 + DigitValue(t[1]), t[3..]))
    else if |t| >= 3 && t[0] == '0' && '1' <= t[1] <= '9' && t[2] == '-' then Some((DigitValue(t[1]), t[3..]))
    else if |t| >= 2 && '1' <= t[0] <= '9' && t[1] == '-' then Some((DigitValue(t[0]), t[2..]))
    else None
  }

  /** A `%d` that must be the whole remaining text. */
  function DayFieldExact(r: string): Option<int>
  {
    if |r| == 2 && r[0] == '3' && (r[1] == '0' || r[1] == '1') then Some(30 + DigitValue(r[1]))
    else if |r| == 2 && (r[0] == '1' || r[0] == '2') && IsDigit(r[1]) then Some(10 * DigitValue(r[0]) + DigitValue(r[1]))
    else if |r| == 2 && r[0] == '0' && '1' <= r[1] <= '9' then Some(DigitValue(r[1]))
    else if |r| == 1 && '1' <= r[0] <= '9' then Some(DigitValue(r[0]))
    else if |r| == 2 && r[0] == ' ' && '1' <= r[1] <= '9' then Some(DigitValue(r[1]))
    else None
  }

  function CheckedDate(year: int, month: int, day: int): (r: Option<Date>)
    ensures r.Some? ==> ValidDate(r.value) && r.value == Date(year, month, day)
  {
    if ValidDate(Date(year, month, day)) then Some(Date(year, month, day)) else None
  }

  /** `datetime.strptime(s, "%Y-%m-%d").date()`, or None where it raises ValueError. */
  function ParseDate(s: string): (r: Option<Date>)
    ensures r.Some? ==> ValidDate(r.value)
  {
    match YearField(s)
    case None => None
    case Some((year, t)) =>
      match MonthField(t)
      case None => None
      case Some((month, rest)) =>
        match DayFieldExact(rest)
        case None => None
        case Some(day) => CheckedDate(year, month, day)
  }

  /** The characters `\s` matches, restricted to ASCII. */
  predicate IsSpace(c: char)
  {
    c == ' ' || c == '\t' || c == '\n' || c == '\r' || c == '\U{B}' || c == '\U{C}'
  }

  function DropSpaces(r: string): (t: string)
    ensures |t| <= |r|
  {
    if |r| > 0 && IsSpace(r[0]) then DropSpaces(r[1..]) else r
  }

  /** A `%d` followed by the run of white space that the blank in the format
      stands for; gives the day and the text after the white space. */
  function DayFieldThenSpace(r: string): Option<(int, string)>
  {
    if |r| >= 3 && r[0] == '3' && (r[1] == '0' || r[1] == '1') && IsSpace(r[2]) then Some((30 + DigitValue(r[1]), DropSpaces(r[2..])))
    else if |r| >= 3 && (r[0] == '1' || r[0] == '2') && IsDigit(r[1]) && IsSpace(r[2]) then Some((10 * DigitValue(r[0]) + DigitValue(r[1]), DropSpaces(r[2..])))
    else if |r| >= 3 && r[0] == '0' && '1' <= r[1] <= '9' && IsSpace(r[2]) then Some((DigitValue(r[1]), DropSpaces(r[2..])))
    else if |r| >= 2 && '1' <= r[0] <= '9' && IsSpace(r[1]) then Some((DigitValue(r[0]), DropSpaces(r[1..])))
    else if |r| >= 3 && r[0] == ' ' && '1' <= r[1] <= '9' && IsSpace(r[2]) then Some((DigitValue(r[1]), DropSpaces(r[2..])))
    else None
  }

  /** `%H:%M:%S` as the whole remaining text: H is 2[0-3]|[0-1]\d|\d,
      M is [0-5]\d|\d, S is 6[0-1]|[0-5]\d|\d; `datetime` then rejects a
      second of 60 or 61. */
  predicate TimeFields(t: string)
  {
    var afterHour :=
      if |t| >= 3 && t[0] == '2' && '0' <= t[1] <= '3' && t[2] == ':' then Some(t[3..])
      else if |t| >= 3 && '0' <= t[0] <= '1' && IsDigit(t[1]) && t[2] == ':' then Some(t[3..])
      else if |t| >= 2 && IsDigit(t[0]) && t[1] == ':' then Some(t[2..])
      else None;
    afterHour.Some? &&
    var u := afterHour.value;
    var afterMinute :=
      if |u| >= 3 && '0' <= u[0] <= '5' && IsDigit(u[1]) && u[2] == ':' then Some(u[3..])
      else if |u| >= 2 && IsDigit(u[0]) && u[1] == ':' then Some(u[2..])
      else None;
    afterMinute.Some? &&
    var sec := afterMinute.value;
    (|sec| == 2 && '0' <= sec[0] <= '5' && IsDigit(sec[1])) || (|sec| == 1 && IsDigit(sec[0]))
  }

  /** The date of `datetime.strptime(s, "%Y-%m-%d %H:%M:%S")`, or None where
      it raises ValueError. */
  function ParseDateTime(s: string): (r: Option<Date>)
    ensures r.Some? ==> ValidDate(r.value)
  {
    match YearField(s)
    case None => None
    case Some((year, t)) =>
      match MonthField(t)
      case None => None
      case Some((month, rest)) =>
        match DayFieldThenSpace(rest)
        case None => None
        case Some((day, time)) =>
          if TimeFields(time) then CheckedDate(year, month, day) else None
  }

  // ---------------------------------------------------------------------
  // Formatting.
  // ---------------------------------------------------------------------

  /** `%B` in the C locale. */
  function MonthName(m: int): string
    requires 1 <= m <= 12
  {
    if m == 1 then "January" else if m == 2 then "February" else if m == 3 then "March"
    else if m == 4 then "April" else if m == 5 then "May" else if m == 6 then "June"
    else if m == 7 then "July" else if m == 8 then "August" else if m == 9 then "September"
    else if m == 10 then "October" else if m == 11 then "November" else "December"
  }

  /** `dt.strftime("%B %d, %Y")`, e.g. "February 06, 2026". */
  function LongDate(dt: Date): string
    requires ValidDate(dt)
  {
    MonthName(dt.month) + " " + Digits(dt.day, 2) + ", " + Digits(dt.year, 4)
  }

  /** The canonical `YYYY-MM-DD` key of a date, `date.isoformat()`. */
  function IsoFormat(dt: Date): string
    requires ValidDate(dt)
  {
    Digits(dt.year, 4) + "-" + Digits(dt.month, 2) + "-" + Digits(dt.day, 2)
  }

  /** A key that strptime accepts and that is written the canonical way. */
  predicate IsCanonicalKey(s: string)
  {
    ParseDate(s).Some? && IsoFormat(ParseDate(s).value) == s
  }

  lemma MonthNameInjective(m1: int, m2: int)
    requires 1 <= m1 <= 12 && 1 <= m2 <= 12
    requires MonthName(m1) == MonthName(m2)
    ensures m1 == m2
  {
  }

  /** The long form identifies the date: month names differ, and the day and
      year are fixed-width numbers. */
  lemma LongDateInjective(a: Date, b: Date)
    requires ValidDate(a) && ValidDate(b)
    requires LongDate(a) == LongDate(b)
    ensures a == b
  {
    var s := LongDate(a);
    var na, nb := MonthName(a.month), MonthName(b.month);
    assert |s| == |na| + 9 == |nb| + 9;
    assert s[..|na|] == na;
    assert LongDate(b)[..|nb|] == nb;
    MonthNameInjective(a.month, b.month);
    var k := |na|;
    assert s[k + 1..k + 3] == Digits(a.day, 2);
    assert LongDate(b)[k + 1..k + 3] == Digits(b.day, 2);
    assert s[k + 5..] == Digits(a.year, 4);
    assert LongDate(b)[k + 5..] == Digits(b.year, 4);
    assert Pow10(2) == 100 && Pow10(4) == 10000;
    DigitsInjective(a.day, b.day, 2);
    DigitsInjective(a.year, b.year, 4);
  }

  lemma DigitsTwo(n: nat)
    requires n < 100
    ensures Digits(n, 2) == [DigitChar(n / 10), DigitChar(n % 10)]
  {
    var q := n / 10;
    assert q < 10 && q / 10 == 0 && q % 10 == q;
    assert Digits(q, 1) == [DigitChar(q)];
  }

  /** The four digits, each taken off by one more division by ten. */
  lemma DigitsFour(n: nat)
    requires n < 10000
    ensures Digits(n, 4) == [DigitChar(n / 10 / 10 / 10), DigitChar(n / 10 / 10 % 10), DigitChar(n / 10 % 10), DigitChar(n % 10)]
  {
    var q := n / 10 / 10;
    assert q < 100;
    DigitsTwo(q);
  }

  lemma FourDigitValue(n: nat)
    requires n < 10000
    ensures 1000 * (n / 10 / 10 / 10) + 100 * (n / 10 / 10 % 10) + 10 * (n / 10 % 10) + n % 10 == n
  {
    var q1 := n / 10;
    var q2 := q1 / 10;
    var q3 := q2 / 10;
    assert n == 10 * q1 + n % 10;
    assert q1 == 10 * q2 + q1 % 10;
    assert q2 == 10 * q3 + q2 % 10;
  }

  lemma YearFieldOfDigits(n: nat, rest: string)
    requires n < 10000
    ensures YearField(Digits(n, 4) + "-" + rest) == Some((n, rest))
  {
    DigitsFour(n);
    FourDigitValue(n);
    var s := Digits(n, 4) + "-" + rest;
    assert s[5..] == rest;
  }

  lemma MonthFieldOfDigits(m: int, rest: string)
    requires 1 <= m <= 12
    ensures MonthField(Digits(m, 2) + "-" + rest) == Some((m, rest))
  {
    DigitsTwo(m);
    var t := Digits(m, 2) + "-" + rest;
    assert t[3..] == rest;
  }

  lemma DayFieldOfDigits(d: int)
    requires 1 <= d <= 31
    ensures DayFieldExact(Digits(d, 2)) == Some(d)
  {
    DigitsTwo(d);
  }

  /** Every valid date has a canonical key, and strptime reads it back. */
  lemma ParseIsoFormat(dt: Date)
    requires ValidDate(dt)
    ensures ParseDate(IsoFormat(dt)) == Some(dt)
    ensures IsCanonicalKey(IsoFormat(dt))
  {
    var m, d := Digits(dt.month, 2), Digits(dt.day, 2);
    var s := IsoFormat(dt);
    assert s == Digits(dt.year, 4) + "-" + (m + "-" + d);
    YearFieldOfDigits(dt.year, m + "-" + d);
    MonthFieldOfDigits(dt.month, d);
    DayFieldOfDigits(dt.day);
  }

  /** strptime also accepts one-digit months and days, so two different keys
      can denote the same date. */
  lemma NonCanonicalKeysParse()
    ensures ParseDate("2026-2-6") == ParseDate("2026-02-06") == Some(Date(2026, 2, 6))
    ensures !IsCanonicalKey("2026-2-6")
  {
    var a, b := "2026-2-6", "2026-02-06";
    assert YearField(a) == Some((2026, "2-6"));
    assert MonthField("2-6") == Some((2, "6"));
    assert DayFieldExact("6") == Some(6);
    assert YearField(b) == Some((2026, "02-06"));
    assert MonthField("02-06") == Some((2, "06"));
    assert DayFieldExact("06") == Some(6);
    assert |IsoFormat(Date(2026, 2, 6))| == 10;
  }

  // ---------------------------------------------------------------------
  // Day numbers: `date.toordinal()`, with 0001-01-01 as day 1.
  // ---------------------------------------------------------------------

  function DaysBeforeYear(y: int): int
  {
    var z := y - 1;
    z * 365 + z / 4 - z / 100 + z / 400
  }

  function DaysBeforeMonth(y: int, m: int): (n: int)
    requires 1 <= m <= 12
    ensures n >= 0
  {
    if m == 1 then 0 else DaysBeforeMonth(y, m - 1) + DaysInMonth(y, m - 1)
  }

  function Ordinal(dt: Date): int
    requires ValidDate(dt)
  {
    DaysBeforeYear(dt.year) + DaysBeforeMonth(dt.year, dt.month) + dt.day
  }

  /** Python compares dates field by field: year, then month, then day. */
  predicate Before(a: Date, b: Date)
  {
    a.year < b.year || (a.year == b.year && (a.month < b.month || (a.month == b.month && a.day < b.day)))
  }

  lemma {:induction false} DaysBeforeMonthGrows(y: int, m1: int, m2: int)
    requires 1 <= m1 < m2 <= 12
    ensures DaysBeforeMonth(y, m1) + DaysInMonth(y, m1) <= DaysBeforeMonth(y, m2)
    decreases m2 - m1
  {
    if m1 + 1 < m2 {
      DaysBeforeMonthGrows(y, m1 + 1, m2);
    }
  }

  lemma {:induction false} DaysBeforeMonthBounded(y: int, m: int)
    requires 1 <= m <= 12
    ensures DaysBeforeMonth(y, m) + DaysInMonth(y, m) <= (if IsLeap(y) then 366 else 365)
    decreases 12 - m
  {
    if m < 12 {
      DaysBeforeMonthGrows(y, m, 12);
      DaysBeforeMonthBounded(y, 12);
    } else {
      assert DaysBeforeMonth(y, 12) == (if IsLeap(y) then 335 else 334) by {
        var i := 1;
        while i < 12
          invariant 1 <= i <= 12
          invariant DaysBeforeMonth(y, i) == (if i == 1 then 0 else if i == 2 then 31 else if IsLeap(y) then [0, 0, 0, 60, 91, 121, 152, 182, 213, 244, 274, 305, 335][i] else [0, 0, 0, 59, 90, 120, 151, 181, 212, 243, 273, 304, 334][i])
        {
          i := i + 1;
        }
      }
    }
  }

  lemma DivStep(z: int)
    requires z >= 0
    ensures (z + 1) / 4 == z / 4 + (if (z + 1) % 4 == 0 then 1 else 0)
    ensures (z + 1) / 100 == z / 100 + (if (z + 1) % 100 == 0 then 1 else 0)
    ensures (z + 1) / 400 == z / 400 + (if (z + 1) % 400 == 0 then 1 else 0)
  {
  }

  lemma ModDivides(y: int)
    ensures y % 400 == 0 ==> y % 100 == 0
    ensures y % 100 == 0 ==> y % 4 == 0
  {
    if y % 400 == 0 {
      assert y == 400 * (y / 400);
      assert y == 100 * (4 * (y / 400));
    }
    if y % 100 == 0 {
      assert y == 100 * (y / 100);
      assert y == 4 * (25 * (y / 100));
    }
  }

  lemma YearLength(y: int)
    requires y >= 1
    ensures DaysBeforeYear(y + 1) == DaysBeforeYear(y) + (if IsLeap(y) then 366 else 365)
  {
    var z := y - 1;
    DivStep(z);
    ModDivides(y);
    var leapDays := (if y % 4 == 0 then 1 else 0) - (if y % 100 == 0 then 1 else 0) + (if y % 400 == 0 then 1 else 0);
    assert DaysBeforeYear(y + 1) == DaysBeforeYear(y) + 365 + leapDays;
    assert leapDays == (if IsLeap(y) then 1 else 0);
  }

  lemma {:induction false} DaysBeforeYearGrows(y1: int, y2: int)
    requires 1 <= y1 < y2
    ensures DaysBeforeYear(y1) + (if IsLeap(y1) then 366 else 365) <= DaysBeforeYear(y2)
    decreases y2 - y1
  {
    YearLength(y1);
    if y1 + 1 < y2 {
      DaysBeforeYearGrows(y1 + 1, y2);
    }
  }

  /** Day numbers order valid dates exactly as Python's date comparison
      does, so `cutoff <= d` may be read as a comparison of day numbers. */
  lemma OrdinalMonotone(a: Date, b: Date)
    requires ValidDate(a) && ValidDate(b)
    requires Before(a, b)
    ensures Ordinal(a) < Ordinal(b)
  {
    DaysBeforeMonthBounded(a.year, a.month);
    if a.year < b.year {
      DaysBeforeYearGrows(a.year, b.year);
      assert DaysBeforeMonth(b.year, b.month) >= 0;
    } else if a.month < b.month {
      DaysBeforeMonthGrows(a.year, a.month, b.month);
    }
  }
}
