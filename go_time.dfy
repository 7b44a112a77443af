/**
 * The part of Go's `time` package that addTimeStampToDesc uses: time.UnixMilli
 * followed by Format("20060102150405") in a zone with a fixed offset from UTC.
 * Day numbers count days since 0001-01-01 in the proleptic Gregorian calendar.
 */
module GoTime {
  import opened Wrappers
  import opened GoText

  const SecondsPerDay: int := 86400
  const DaysPer400Years: int := 146097
  const DaysPer100Years: int := 36524
  const DaysPer4Years: int := 1461
  /** The day number of 1970-01-01. */
  const UnixEpochDay: int := 719162

  // ---------------------------------------------------------------- instants

  /** Go's integer division, which truncates toward zero. */
  function Quo(a: int, b: int): int
    requires b > 0
  {
    if a >= 0 then a / b else -((-a) / b)
  }

  /** Go's remainder, which takes the sign of the dividend. */
  function Rem(a: int, b: int): int
    requires b > 0
  {
    a - b * Quo(a, b)
  }

  /** time.UnixMilli(ms) is time.Unix(ms/1e3, (ms%1e3)*1e6) with Go's truncating
      operators; time.Unix then moves a negative nanosecond count into the seconds.
      The whole-second part of the instant is therefore the floor of ms/1000. */
  function UnixSeconds(ms: int): (sec: int)
    ensures sec * 1000 <= ms < sec * 1000 + 1000
  {
    var sec := Quo(ms, 1000);
    var nsec := Rem(ms, 1000) * 1000000;
    if nsec < 0 || nsec >= 1000000000 then
      var n := Quo(nsec, 1000000000);
      var sec' := sec + n;
      var nsec' := nsec - n * 1000000000;
      if nsec' < 0 then sec' - 1 else sec'
    else sec
  }

  // ---------------------------------------------------------------- the calendar

  predicate IsLeap(y: int) {
    y % 4 == 0 && (y % 100 != 0 || y % 400 == 0)
  }

  function YearLength(y: int): int {
    if IsLeap(y) then 366 else 365
  }

  function DaysIn(y: int, m: int): int
    requires 1 <= m <= 12
  {
    if m == 2 then (if IsLeap(y) then 29 else 28)
    else if m == 4 || m == 6 || m == 9 || m == 11 then 30
    else 31
  }

  /** Days of year `y` before the first of month `m` (m == 13 gives the whole year). */
  function DaysBeforeMonth(y: int, m: int): (r: int)
    requires 1 <= m <= 13
    ensures m == 1 ==> r == 0
    ensures m == 13 ==> r == YearLength(y)
  {
    var table := [0, 31, 59, 90, 120, 151, 181, 212, 243, 273, 304, 334, 365];
    table[m - 1] + (if IsLeap(y) && m > 2 then 1 else 0)
  }

  /** Month `m` takes up exactly its length within the year. */
  lemma MonthStep(y: int, m: int)
    requires 1 <= m <= 12
    ensures DaysBeforeMonth(y, m + 1) == DaysBeforeMonth(y, m) + DaysIn(y, m)
  {
  }

  lemma {:induction false} DaysBeforeMonthGrows(y: int, i: int, j: int)
    requires 1 <= i <= j <= 13
    ensures DaysBeforeMonth(y, i) <= DaysBeforeMonth(y, j)
    decreases j - i
  {
    if i < j {
      DaysBeforeMonthGrows(y, i, j - 1);
      MonthStep(y, j - 1);
    }
  }

  /** Day number of January 1st of year `y`, by counting the leap years before it. */
  function DaysBeforeYear(y: int): int {
    var p := y - 1;
    365 * p + p / 4 - p / 100 + p / 400
  }

  datatype Date = Date(year: int, month: int, day: int)

  predicate ValidDate(d: Date) {
    1 <= d.month <= 12 && 1 <= d.day <= DaysIn(d.year, d.month)
  }

  /** The reference definition: the day number of a calendar date. */
  function DayNumber(d: Date): int
    requires 1 <= d.month <= 12
  {
    DaysBeforeYear(d.year) + DaysBeforeMonth(d.year, d.month) + d.day - 1
  }

  lemma YearStep(y: int)
    ensures DaysBeforeYear(y + 1) == DaysBeforeYear(y) + YearLength(y)
  {
    QuotientStep(y - 1, 4);
    QuotientStep(y - 1, 100);
    QuotientStep(y - 1, 400);
  }

  /** Dividing the next number adds one to the quotient exactly at a multiple. */
  lemma QuotientStep(p: int, k: int)
    requires k == 4 || k == 100 || k == 400
    ensures (p + 1) / k == p / k + (if (p + 1) % k == 0 then 1 else 0)
  {
    var q, r := p / k, p % k;
    assert p == k * q + r && 0 <= r < k;
    if r == k - 1 {
      assert p + 1 == k * (q + 1);
    } else {
      assert p + 1 == k * q + (r + 1);
    }
  }

  /** Years never get shorter than 365 days, so later years start later. */
  lemma {:induction false} DaysBeforeYearGrows(a: int, b: int)
    requires a <= b
    ensures DaysBeforeYear(a) + 365 * (b - a) <= DaysBeforeYear(b)
    decreases b - a
  {
    if a < b {
      DaysBeforeYearGrows(a, b - 1);
      YearStep(b - 1);
    }
  }

  /** The cycle decomposition Go's time package uses: a year given by whole 400-, 100-,
      4- and 1-year cycles after year 1 starts after that many days, and is a leap year
      exactly when it closes a 4-year cycle other than a plain century. */
  lemma CycleYear(a: int, b: int, c: int, e: int)
    requires 0 <= b <= 3 && 0 <= c <= 24 && 0 <= e <= 3
    ensures DaysBeforeYear(400 * a + 100 * b + 4 * c + e + 1)
         == DaysPer400Years * a + DaysPer100Years * b + DaysPer4Years * c + 365 * e
    ensures IsLeap(400 * a + 100 * b + 4 * c + e + 1) <==> (e == 3 && (c != 24 || b == 3))
  {
    var p := 400 * a + 100 * b + 4 * c + e;
    CycleQuotients(a, b, c, e);
    var y := p + 1;
    CycleRemainders(a, b, c, e);
  }

  lemma CycleQuotients(a: int, b: int, c: int, e: int)
    requires 0 <= b <= 3 && 0 <= c <= 24 && 0 <= e <= 3
    ensures var p := 400 * a + 100 * b + 4 * c + e;
      p / 4 == 100 * a + 25 * b + c && p / 100 == 4 * a + b && p / 400 == a
  {
    var p := 400 * a + 100 * b + 4 * c + e;
    assert p == 4 * (100 * a + 25 * b + c) + e;
    assert p == 100 * (4 * a + b) + (4 * c + e);
    assert p == 400 * a + (100 * b + 4 * c + e);
  }

  lemma CycleRemainders(a: int, b: int, c: int, e: int)
    requires 0 <= b <= 3 && 0 <= c <= 24 && 0 <= e <= 3
    ensures var y := 400 * a + 100 * b + 4 * c + e + 1;
      && (y % 4 == 0 <==> e == 3)
      && (y % 100 == 0 <==> (e == 3 && c == 24))
      && (y % 400 == 0 <==> (e == 3 && c == 24 && b == 3))
  {
    var y := 400 * a + 100 * b + 4 * c + e + 1;
    assert y == 4 * (100 * a + 25 * b + c) + (e + 1);
    MultipleOf4(100 * a + 25 * b + c, e + 1);
    assert y == 100 * (4 * a + b) + (4 * c + e + 1);
    MultipleOf100(4 * a + b, 4 * c + e + 1);
    assert y == 400 * a + (100 * b + 4 * c + e + 1);
    MultipleOf400(a, 100 * b + 4 * c + e + 1);
  }

  lemma MultipleOf4(q: int, r: int)
    requires 1 <= r <= 4
    ensures (4 * q + r) % 4 == 0 <==> r == 4
  {
  }

  lemma MultipleOf100(q: int, r: int)
    requires 1 <= r <= 100
    ensures (100 * q + r) % 100 == 0 <==> r == 100
  {
  }

  lemma MultipleOf400(q: int, r: int)
    requires 1 <= r <= 400
    ensures (400 * q + r) % 400 == 0 <==> r == 400
  {
  }

  /** The month holding day `yday` (0-based) of year `y`. */
  function MonthOf(y: int, yday: int, m: int): (r: int)
    requires 1 <= m <= 12 && 0 <= yday < DaysBeforeMonth(y, m + 1)
    ensures 1 <= r <= m
    ensures DaysBeforeMonth(y, r) <= yday < DaysBeforeMonth(y, r + 1)
  {
    if m == 1 || DaysBeforeMonth(y, m) <= yday then m else MonthOf(y, yday, m - 1)
  }

  /** Calendar date of a day number, by Go's cycle decomposition. It is a real date,
      and it is the date whose day number was given. */
  function CivilFromDayNumber(n: int): (d: Date)
    ensures ValidDate(d) && DayNumber(d) == n
  {
    var a := n / DaysPer400Years;
    var r400 := n % DaysPer400Years;
    var b := if r400 / DaysPer100Years == 4 then 3 else r400 / DaysPer100Years;
    var r100 := r400 - DaysPer100Years * b;
    var c := r100 / DaysPer4Years;
    var r4 := r100 % DaysPer4Years;
    var e := if r4 / 365 == 4 then 3 else r4 / 365;
    var yday := r4 - 365 * e;
    var y := 400 * a + 100 * b + 4 * c + e + 1;
    CycleYear(a, b, c, e);
    var m := MonthOf(y, yday, 12);
    Date(y, m, yday - DaysBeforeMonth(y, m) + 1)
  }

  /** A real date lies within its year and its month. */
  lemma DateWithinYear(d: Date)
    requires ValidDate(d)
    ensures DaysBeforeYear(d.year) <= DayNumber(d) < DaysBeforeYear(d.year + 1)
    ensures DaysBeforeMonth(d.year, d.month) <= DayNumber(d) - DaysBeforeYear(d.year) < DaysBeforeMonth(d.year, d.month + 1)
  {
    MonthStep(d.year, d.month);
    DaysBeforeMonthGrows(d.year, d.month + 1, 13);
    YearStep(d.year);
  }

  /** A day number lies within one year only. */
  lemma YearUnique(y1: int, y2: int, n: int)
    requires DaysBeforeYear(y1) <= n < DaysBeforeYear(y1 + 1)
    requires DaysBeforeYear(y2) <= n < DaysBeforeYear(y2 + 1)
    ensures y1 == y2
  {
    if y1 < y2 {
      DaysBeforeYearGrows(y1 + 1, y2);
    } else if y2 < y1 {
      DaysBeforeYearGrows(y2 + 1, y1);
    }
  }

  /** A day of the year lies within one month only. */
  lemma MonthUnique(y: int, m1: int, m2: int, yday: int)
    requires 1 <= m1 <= 12 && 1 <= m2 <= 12
    requires DaysBeforeMonth(y, m1) <= yday < DaysBeforeMonth(y, m1 + 1)
    requires DaysBeforeMonth(y, m2) <= yday < DaysBeforeMonth(y, m2 + 1)
    ensures m1 == m2
  {
    if m1 < m2 {
      DaysBeforeMonthGrows(y, m1 + 1, m2);
    } else if m2 < m1 {
      DaysBeforeMonthGrows(y, m2 + 1, m1);
    }
  }

  /** Distinct real dates have distinct day numbers. */
  lemma DayNumberInjective(d1: Date, d2: Date)
    requires ValidDate(d1) && ValidDate(d2) && DayNumber(d1) == DayNumber(d2)
    ensures d1 == d2
  {
    DateWithinYear(d1);
    DateWithinYear(d2);
    YearUnique(d1.year, d2.year, DayNumber(d1));
    MonthUnique(d1.year, d1.month, d2.month, DayNumber(d1) - DaysBeforeYear(d1.year));
  }

  /** Every real date is recovered from its day number. */
  lemma CivilOfDayNumber(d: Date)
    requires ValidDate(d)
    ensures CivilFromDayNumber(DayNumber(d)) == d
  {
    DayNumberInjective(CivilFromDayNumber(DayNumber(d)), d);
  }

  // ---------------------------------------------------------------- local time

  datatype DateTime = DateTime(date: Date, hour: int, minute: int, second: int)

  predicate ValidDateTime(t: DateTime) {
    ValidDate(t.date) && 0 <= t.hour < 24 && 0 <= t.minute < 60 && 0 <= t.second < 60
  }

  /** Seconds since the Unix epoch that a wall-clock reading denotes in a zone
      `zoneOffset` seconds east of UTC. */
  function InstantOf(t: DateTime, zoneOffset: int): int
    requires ValidDateTime(t)
  {
    (DayNumber(t.date) - UnixEpochDay) * SecondsPerDay + t.hour * 3600 + t.minute * 60 + t.second - zoneOffset
  }

  /** Hour, minute and second of a second of the day, split off the way Go does:
      divide, then subtract what was taken. */
  function ClockOf(secs: int): (hms: (int, int, int))
    requires 0 <= secs < SecondsPerDay
    ensures 0 <= hms.0 < 24 && 0 <= hms.1 < 60 && 0 <= hms.2 < 60
    ensures hms.0 * 3600 + hms.1 * 60 + hms.2 == secs
  {
    var hour := secs / 3600;
    var rest := secs - hour * 3600;
    var minute := rest / 60;
    (hour, minute, rest - minute * 60)
  }

  lemma DayDivMod(x: int, q: int, r: int)
    requires x == q * SecondsPerDay + r && 0 <= r < SecondsPerDay
    ensures x / SecondsPerDay == q && x % SecondsPerDay == r
  {
  }

  /** The wall-clock reading of a local second count: a real date and time that denotes
      that second in a zone with no offset. */
  function ReadingOf(local: int): (t: DateTime)
    ensures ValidDateTime(t)
    ensures InstantOf(t, 0) == local
  {
    var days := local / SecondsPerDay;
    var hms := ClockOf(local % SecondsPerDay);
    var date := CivilFromDayNumber(days + UnixEpochDay);
    assert DayNumber(date) - UnixEpochDay == days;
    DateTime(date, hms.0, hms.1, hms.2)
  }

  /** The wall-clock reading of time.UnixMilli(ms) in a zone `zoneOffset` seconds east
      of UTC: a real date and time that denotes the instant's whole second. */
  function LocalDateTime(ms: int, zoneOffset: int): (t: DateTime)
    ensures ValidDateTime(t)
    ensures InstantOf(t, zoneOffset) == UnixSeconds(ms)
  {
    ReadingOf(UnixSeconds(ms) + zoneOffset)
  }

  /** Distinct real readings denote distinct seconds in any one zone. */
  lemma InstantOfInjective(t1: DateTime, t2: DateTime, zoneOffset: int)
    requires ValidDateTime(t1) && ValidDateTime(t2)
    requires InstantOf(t1, zoneOffset) == InstantOf(t2, zoneOffset)
    ensures t1 == t2
  {
    var q1, q2 := DayNumber(t1.date) - UnixEpochDay, DayNumber(t2.date) - UnixEpochDay;
    var r1 := t1.hour * 3600 + t1.minute * 60 + t1.second;
    var r2 := t2.hour * 3600 + t2.minute * 60 + t2.second;
    var x := InstantOf(t1, zoneOffset) + zoneOffset;
    DayDivMod(x, q1, r1);
    DayDivMod(x, q2, r2);
    DayNumberInjective(t1.date, t2.date);
    ClockOfReading(t1.hour, t1.minute, t1.second);
    ClockOfReading(t2.hour, t2.minute, t2.second);
  }

  /** Every wall-clock reading is recovered from any millisecond of the second it denotes. */
  lemma LocalDateTimeOfInstant(t: DateTime, zoneOffset: int, ms: int)
    requires ValidDateTime(t)
    requires InstantOf(t, zoneOffset) * 1000 <= ms < InstantOf(t, zoneOffset) * 1000 + 1000
    ensures LocalDateTime(ms, zoneOffset) == t
  {
    assert UnixSeconds(ms) + zoneOffset == InstantOf(t, 0);
    ReadingOfInstant(t);
  }

  /** A real reading is recovered from the local second it denotes. */
  lemma ReadingOfInstant(t: DateTime)
    requires ValidDateTime(t)
    ensures ReadingOf(InstantOf(t, 0)) == t
  {
    InstantOfInjective(ReadingOf(InstantOf(t, 0)), t, 0);
  }

  lemma ClockOfReading(h: int, m: int, s: int)
    requires 0 <= h < 24 && 0 <= m < 60 && 0 <= s < 60
    ensures ClockOf(h * 3600 + m * 60 + s) == (h, m, s)
  {
    var secs := h * 3600 + m * 60 + s;
    assert secs / 3600 == h;
    assert (secs - h * 3600) / 60 == m;
  }

  // ---------------------------------------------------------------- formatting

  /** Go's appendInt(b, x, width): a sign for negative values, then the digits
      left-padded with zeros to `width`. */
  function PaddedInt(x: int, width: nat): (s: string)
  {
    var digits := Decimal(if x < 0 then -x else x);
    var pad := if |digits| < width then seq(width - |digits|, _ => '0') else [];
    (if x < 0 then "-" else "") + pad + digits
  }

  /** Format("20060102150405"): year (width 4), month, day, hour, minute, second. */
  function Format(t: DateTime): string {
    PaddedInt(t.date.year, 4) + PaddedInt(t.date.month, 2) + PaddedInt(t.date.day, 2)
      + PaddedInt(t.hour, 2) + PaddedInt(t.minute, 2) + PaddedInt(t.second, 2)
  }

  /** The text addTimeStampToDesc appends for a timestamp in milliseconds. */
  function Stamp(ms: int, zoneOffset: int): string {
    Format(LocalDateTime(ms, zoneOffset))
  }

  /** A non-negative value below 10^width prints as exactly `width` digits that read back as it. */
  lemma PaddedIntDigits(x: int, width: nat)
    requires width >= 1 && 0 <= x < Pow10(width)
    ensures |PaddedInt(x, width)| == width && AllDigits(PaddedInt(x, width))
    ensures DigitsValue(PaddedInt(x, width)) == x
  {
    DecimalLength(x, width);
    var digits := Decimal(x);
    var pad: string := if |digits| < width then seq(width - |digits|, _ => '0') else [];
    assert PaddedInt(x, width) == pad + digits;
    DigitsValueLeadingZeros(pad, digits);
  }

  /** Reads a 14-digit YYYYMMDDhhmmss text back into a wall-clock reading. */
  function ReadStamp(s: string): Option<DateTime> {
    if |s| == 14 && AllDigits(s) then
      Some(DateTime(Date(DigitsValue(s[..4]), DigitsValue(s[4..6]), DigitsValue(s[6..8])),
                    DigitsValue(s[8..10]), DigitsValue(s[10..12]), DigitsValue(s[12..])))
    else None
  }

  /** Six digit fields of widths 4, 2, 2, 2, 2, 2 laid end to end, and where each one sits. */
  lemma FieldLayout(y: string, mo: string, d: string, h: string, mi: string, sec: string)
    requires |y| == 4 && |mo| == 2 && |d| == 2 && |h| == 2 && |mi| == 2 && |sec| == 2
    requires AllDigits(y) && AllDigits(mo) && AllDigits(d) && AllDigits(h) && AllDigits(mi) && AllDigits(sec)
    ensures var s := y + mo + d + h + mi + sec;
      |s| == 14 && AllDigits(s)
      && s[..4] == y && s[4..6] == mo && s[6..8] == d && s[8..10] == h && s[10..12] == mi && s[12..] == sec
  {
    var s := y + mo + d + h + mi + sec;
    assert forall i | 0 <= i < 14 :: s[i] in y || s[i] in mo || s[i] in d || s[i] in h || s[i] in mi || s[i] in sec;
  }

  /** For the years 0 to 9999 a reading prints as 14 digits that read back as it. */
  lemma FormatReadsBack(t: DateTime)
    requires ValidDateTime(t) && 0 <= t.date.year <= 9999
    ensures |Format(t)| == 14 && AllDigits(Format(t))
    ensures ReadStamp(Format(t)) == Some(t)
  {
    var y, mo, d := PaddedInt(t.date.year, 4), PaddedInt(t.date.month, 2), PaddedInt(t.date.day, 2);
    var h, mi, sec := PaddedInt(t.hour, 2), PaddedInt(t.minute, 2), PaddedInt(t.second, 2);
    assert Pow10(2) == 100 && Pow10(4) == 10000;
    PaddedIntDigits(t.date.year, 4);
    PaddedIntDigits(t.date.month, 2);
    PaddedIntDigits(t.date.day, 2);
    PaddedIntDigits(t.hour, 2);
    PaddedIntDigits(t.minute, 2);
    PaddedIntDigits(t.second, 2);
    FieldLayout(y, mo, d, h, mi, sec);
  }

  /** For the years 0 to 9999 the stamp is 14 digits, and reading it back gives the
      wall-clock reading it was printed from. */
  lemma StampReadsBack(ms: int, zoneOffset: int)
    requires 0 <= LocalDateTime(ms, zoneOffset).date.year <= 9999
    ensures |Stamp(ms, zoneOffset)| == 14 && AllDigits(Stamp(ms, zoneOffset))
    ensures ReadStamp(Stamp(ms, zoneOffset)) == Some(LocalDateTime(ms, zoneOffset))
  {
    FormatReadsBack(LocalDateTime(ms, zoneOffset));
  }

  /** From year 10000 on, Go prints more year digits and the stamp grows past 14 characters. */
  lemma StampWidensAfterYear9999(ms: int, zoneOffset: int)
    requires LocalDateTime(ms, zoneOffset).date.year >= 10000
    ensures |Stamp(ms, zoneOffset)| > 14
  {
    var t := LocalDateTime(ms, zoneOffset);
    DecimalLength(t.date.year, 4);
    assert |PaddedInt(t.date.year, 4)| >= 5;
  }

  /** Two-digit fields print with a leading zero where needed. */
  lemma TwoDigits(x: int)
    requires 0 <= x < 100
    ensures PaddedInt(x, 2) == [DigitChar(x / 10), DigitChar(x % 10)]
  {
    if x >= 10 {
      assert Decimal(x / 10) == [DigitChar(x / 10)];
    }
  }

  /** The reading 2023-11-14 22:13:20 prints as 20231114221320. */
  lemma FormatExample(t: DateTime)
    requires t == DateTime(Date(2023, 11, 14), 22, 13, 20)
    ensures Format(t) == "20231114221320"
  {
    assert Decimal(2023) == "2023";
    TwoDigits(t.date.month);
    TwoDigits(t.date.day);
    TwoDigits(t.hour);
    TwoDigits(t.minute);
    TwoDigits(t.second);
    assert PaddedInt(t.date.year, 4) == "2023";
    assert Format(t) == "2023" + "11" + "14" + "22" + "13" + "20";
  }

  /** 1700000000000 ms after the epoch is 2023-11-14 22:13:20 UTC. */
  lemma StampExample()
    ensures Stamp(1700000000000, 0) == "20231114221320"
  {
    var t := DateTime(Date(2023, 11, 14), 22, 13, 20);
    assert InstantOf(t, 0) == 1700000000;
    LocalDateTimeOfInstant(t, 0, 1700000000000);
    FormatExample(t);
  }
}
