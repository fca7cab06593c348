/** Civil dates as seconds since the epoch, and the ASN.1 times `asn1_time` of hlb-agent
    reads (section 4.1.2.5 of RFC 5280). */
module CivilTime {
  import opened Wrappers
  import opened Bytes

  // ---- The closed form of the source -------------------------------------------

  /** Days from 1970-01-01 to a civil date of the proleptic Gregorian calendar, without a
      loop or a table: years counted from March, so that a leap day ends one. */
  function DaysFromCivil(year: int, month: int, day: int): int {
    EraDays(if month <= 2 then year - 1 else year) + DayOfMarchYear(month, day) - 719_468
  }

  /** Days before the March-year `y`, by eras of 400 years. Divisions round toward negative
      infinity, as `div_euclid` does. */
  function EraDays(y: int): int {
    var era := y / 400;
    var yoe := y - era * 400;
    era * 146_097 + yoe * 365 + yoe / 4 - yoe / 100
  }

  function DayOfMarchYear(month: int, day: int): int {
    var mp := (month + 9) % 12;
    (153 * mp + 2) / 5 + day - 1
  }

  // ---- The calendar itself -----------------------------------------------------

  predicate Leap(year: int) {
    year % 4 == 0 && (year % 100 != 0 || year % 400 == 0)
  }

  function YearLength(year: int): int {
    if Leap(year) then 366 else 365
  }

  function MonthLength(leap: bool, month: int): int
    requires 1 <= month <= 12
  {
    if month == 2 then (if leap then 29 else 28)
    else if month in {4, 6, 9, 11} then 30
    else 31
  }

  /** Days from 1970-01-01 to the first day of `year`, one year at a time. */
  ghost function DaysBeforeYear(year: int): int
    decreases if year >= 1970 then year - 1970 else 1970 - year
  {
    if year == 1970 then 0
    else if year > 1970 then DaysBeforeYear(year - 1) + YearLength(year - 1)
    else DaysBeforeYear(year + 1) - YearLength(year)
  }

  /** Days of a year before the first day of `month`, one month at a time. */
  ghost function DaysBeforeMonth(leap: bool, month: int): int
    requires 1 <= month <= 12
  {
    if month == 1 then 0 else DaysBeforeMonth(leap, month - 1) + MonthLength(leap, month - 1)
  }

  ghost function NaiveDays(year: int, month: int, day: int): int
    requires 1 <= month <= 12
  {
    DaysBeforeYear(year) + DaysBeforeMonth(Leap(year), month) + day - 1
  }

  /** A March-year is as long as the January-year it ends in. */
  lemma EraDaysStep(y: int)
    ensures EraDays(y + 1) == EraDays(y) + YearLength(y + 1)
  {
    var era, yoe := y / 400, y % 400;
    if yoe == 399 {
      LastOfEra(y + 1, era + 1);
      assert EraDays(y + 1) == (era + 1) * 146_097 by { EraDaysAt(y + 1, era + 1, 0); }
    } else {
      LeapWithinEra(y + 1, era, yoe + 1);
      EraDaysAt(y + 1, era, yoe + 1);
      LeapDaysStep(yoe + 1);
    }
    EraDaysAt(y, era, yoe);
  }

  lemma EraDaysAt(y: int, era: int, yoe: int)
    requires y == 400 * era + yoe && 0 <= yoe < 400
    ensures EraDays(y) == era * 146_097 + yoe * 365 + yoe / 4 - yoe / 100
  {
    assert y / 400 == era;
  }

  lemma LeapDaysStep(k: nat)
    requires k > 0
    ensures k / 4 == (k - 1) / 4 + (if k % 4 == 0 then 1 else 0)
    ensures k / 100 == (k - 1) / 100 + (if k % 100 == 0 then 1 else 0)
    ensures k % 100 == 0 ==> k % 4 == 0
  {
    Remainder4(k, 25 * (k / 100), k % 100);
  }

  lemma LastOfEra(year: int, eras: int)
    requires year == 400 * eras
    ensures Leap(year)
  {
    Remainder4(year, 100 * eras, 0);
    assert year % 400 == 0;
  }

  lemma LeapWithinEra(year: int, era: int, k: int)
    requires year == era * 400 + k && 1 <= k <= 399
    ensures Leap(year) <==> k % 4 == 0 && k % 100 != 0
  {
    Remainder4(year, 100 * era, k);
    Remainder100(year, 4 * era, k);
    assert year % 400 == k;
  }

  lemma Remainder4(n: int, q: int, k: int)
    requires n == 4 * q + k
    ensures n % 4 == k % 4
  {
    assert n - k % 4 == 4 * (q + k / 4);
  }

  lemma Remainder100(n: int, q: int, k: int)
    requires n == 100 * q + k
    ensures n % 100 == k % 100
  {
    assert n - k % 100 == 100 * (q + k / 100);
  }

  lemma {:induction false} ClosedFormStartsYears(year: int)
    ensures EraDays(year - 1) + 306 - 719_468 == DaysBeforeYear(year)
    decreases if year >= 1970 then year - 1970 else 1970 - year
  {
    if year > 1970 {
      ClosedFormStartsYears(year - 1);
      EraDaysStep(year - 2);
    } else if year < 1970 {
      ClosedFormStartsYears(year + 1);
      EraDaysStep(year - 1);
    }
  }

  /** The month table of the closed form, against the months' lengths added up. */
  lemma MonthTable(leap: bool, month: int)
    requires 1 <= month <= 12
    ensures DaysBeforeMonth(leap, month) ==
            DayOfMarchYear(month, 1) - 306 + (if month <= 2 then 0 else if leap then 366 else 365)
  {
    if month > 1 { MonthTable(leap, month - 1); }
    MarchYear(month);
  }

  lemma MarchYear(month: int)
    requires 1 <= month <= 12
    ensures DayOfMarchYear(month, 1) == [306, 337, 0, 31, 61, 92, 122, 153, 184, 214, 245, 275][month - 1]
  {
    assert month > 2 ==> (month + 9) % 12 == month - 3;
    assert month <= 2 ==> (month + 9) % 12 == month + 9;
  }

  /** The closed form is the calendar, for every year before and after the epoch. The day
      is not bounded: past a month's end it counts on into the next. */
  lemma ClosedFormIsTheCalendar(year: int, month: int, day: int)
    requires 1 <= month <= 12
    ensures DaysFromCivil(year, month, day) == NaiveDays(year, month, day)
  {
    ClosedFormStartsYears(year);
    EraDaysStep(year - 1);
    MonthTable(Leap(year), month);
  }

  // ---- Dates and times ---------------------------------------------------------

  datatype DateTime = DateTime(year: int, month: int, day: int, hour: int, minute: int, second: int) {
    ghost predicate Valid() {
      && 1 <= month <= 12
      && 1 <= day <= MonthLength(Leap(year), month)
      && 0 <= hour < 24 && 0 <= minute < 60 && 0 <= second < 60
    }

    function Epoch(): int {
      DaysFromCivil(year, month, day) * 86_400 + hour * 3_600 + minute * 60 + second
    }

    /** Earlier on the calendar and the clock: the lexicographic order of the fields. */
    ghost predicate Before(other: DateTime) {
      || year < other.year
      || (year == other.year && (
          || month < other.month
          || (month == other.month && (
              || day < other.day
              || (day == other.day && SecondOfDay() < other.SecondOfDay())))))
    }

    function SecondOfDay(): int {
      hour * 3_600 + minute * 60 + second
    }
  }

  /** The seconds of a date are its naive days, and its clock. */
  lemma EpochIsNaive(d: DateTime)
    requires 1 <= d.month <= 12
    ensures d.Epoch() == NaiveDays(d.year, d.month, d.day) * 86_400 + d.SecondOfDay()
  {
    ClosedFormIsTheCalendar(d.year, d.month, d.day);
  }

  lemma {:induction false} YearsInOrder(a: int, b: int)
    requires a < b
    ensures DaysBeforeYear(a) + YearLength(a) <= DaysBeforeYear(b)
    decreases b - a
  {
    ClosedFormStartsYears(a);
    ClosedFormStartsYears(a + 1);
    EraDaysStep(a - 1);
    if a + 1 < b {
      YearsInOrder(a + 1, b);
    }
  }

  lemma {:induction false} MonthsInOrder(leap: bool, a: int, b: int)
    requires 1 <= a < b <= 12
    ensures DaysBeforeMonth(leap, a) + MonthLength(leap, a) <= DaysBeforeMonth(leap, b)
    decreases b - a
  {
    if a + 1 < b {
      MonthsInOrder(leap, a + 1, b);
    }
  }

  lemma WithinYear(d: DateTime)
    requires d.Valid()
    ensures 0 <= DaysBeforeMonth(Leap(d.year), d.month) + d.day - 1 < YearLength(d.year)
  {
    MonthTable(Leap(d.year), d.month);
    MonthTable(Leap(d.year), 12);
    if d.month < 12 { MonthsInOrder(Leap(d.year), d.month, 12); }
  }

  /** Later on the calendar is later in seconds, over all valid dates. */
  lemma EpochIsMonotone(a: DateTime, b: DateTime)
    requires a.Valid() && b.Valid() && a.Before(b)
    ensures a.Epoch() < b.Epoch()
  {
    EpochIsNaive(a);
    EpochIsNaive(b);
    var da, db := NaiveDays(a.year, a.month, a.day), NaiveDays(b.year, b.month, b.day);
    if a.year < b.year {
      YearsInOrder(a.year, b.year);
      WithinYear(a);
      WithinYear(b);
    } else if a.month < b.month {
      MonthsInOrder(Leap(a.year), a.month, b.month);
    }
    assert da < db || (da == db && a.SecondOfDay() < b.SecondOfDay());
    assert 0 <= a.SecondOfDay() < 86_400 && 0 <= b.SecondOfDay() < 86_400;
    assert da < db ==> da * 86_400 + 86_400 <= db * 86_400;
  }

  /** Two valid dates with the same seconds are the same date. */
  lemma EpochIsInjective(a: DateTime, b: DateTime)
    requires a.Valid() && b.Valid() && a.Epoch() == b.Epoch()
    ensures a == b
  {
    if a.Before(b) {
      EpochIsMonotone(a, b);
    } else if b.Before(a) {
      EpochIsMonotone(b, a);
    } else {
      assert a.SecondOfDay() == b.SecondOfDay();
    }
  }

  // ---- ASN.1 times -------------------------------------------------------------

  const UTC_TIME: Byte := 0x17
  const GENERALIZED_TIME: Byte := 0x18
  const ZULU: Byte := 0x5A

  /** A signed number as the standard library parses one: a sign is taken before the
      digits. Fields are at most four bytes, so no bound is ever met. */
  function ParseSigned(s: seq<Byte>): Option<int> {
    if s != [] && (s[0] == 0x2B || s[0] == 0x2D) then
      match Parse(s[1..], 10)
      case None => None
      case Some(n) => var value: int := n; Some(if s[0] == 0x2D then -value else value)
    else
      match Parse(s, 10)
      case None => None
      case Some(n) => Some(n)
  }

  /** Two digits name a year of 1950 to 2049. */
  function Century(yy: int): int {
    if yy >= 50 then 1900 + yy else 2000 + yy
  }

  /** A UTCTime or GeneralizedTime in seconds since the epoch. `None`: another tag, form or
      length, a field that is no number, or a month or day no calendar has. Bytes beyond
      ASCII stand in some field, whose number they spoil. */
  function Asn1Time(tag: Byte, text: seq<Byte>): Option<int> {
    if text == [] || text[|text| - 1] != ZULU then None
    else
      var digits := text[..|text| - 1];
      if tag == UTC_TIME && |digits| == 12 then
        match ParseSigned(digits[..2])
        case None => None
        case Some(yy) => AfterYear(Century(yy), digits[2..])
      else if tag == GENERALIZED_TIME && |digits| == 14 then
        match ParseSigned(digits[..4])
        case None => None
        case Some(year) => AfterYear(year, digits[4..])
      else None
  }

  function AfterYear(year: int, rest: seq<Byte>): Option<int>
    requires |rest| == 10
  {
    var month, day := ParseSigned(rest[0..2]), ParseSigned(rest[2..4]);
    var hour, minute, second := ParseSigned(rest[4..6]), ParseSigned(rest[6..8]), ParseSigned(rest[8..10]);
    if month.None? || day.None? || hour.None? || minute.None? || second.None? then None
    else if !(1 <= month.value <= 12) || !(1 <= day.value <= 31) then None
    else Some(DateTime(year, month.value, day.value, hour.value, minute.value, second.value).Epoch())
  }

  lemma ParsePrintedSigned(n: nat, width: nat)
    requires width > 0 && n < Power(10, width)
    ensures ParseSigned(Print(n, width, 10)) == Some(n)
  {
    ParsePrinted(n, width, 10);
    assert Print(n, width, 10)[0] in Print(n, width, 10);
  }

  /** Month to second, as both forms print them. */
  function PrintTail(d: DateTime): (s: seq<Byte>)
    requires d.month >= 0 && d.day >= 0 && d.hour >= 0 && d.minute >= 0 && d.second >= 0
    ensures |s| == 10
  {
    Print(d.month, 2, 10) + Print(d.day, 2, 10) + Print(d.hour, 2, 10) + Print(d.minute, 2, 10) + Print(d.second, 2, 10)
  }

  ghost predicate TwoDigits(d: DateTime) {
    && 0 <= d.month < 100 && 0 <= d.day < 100
    && 0 <= d.hour < 100 && 0 <= d.minute < 100 && 0 <= d.second < 100
  }

  lemma AfterYearReadsTheTail(year: int, d: DateTime)
    requires TwoDigits(d)
    ensures AfterYear(year, PrintTail(d)) ==
            if 1 <= d.month <= 12 && 1 <= d.day <= 31 then Some(d.(year := year).Epoch()) else None
  {
    var rest := PrintTail(d);
    assert Power(10, 2) == 100 by { assert Power(10, 1) == 10 * Power(10, 0); }
    assert rest[0..2] == Print(d.month, 2, 10);
    assert rest[2..4] == Print(d.day, 2, 10);
    assert rest[4..6] == Print(d.hour, 2, 10);
    assert rest[6..8] == Print(d.minute, 2, 10);
    assert rest[8..10] == Print(d.second, 2, 10);
    ParsePrintedSigned(d.month, 2);
    ParsePrintedSigned(d.day, 2);
    ParsePrintedSigned(d.hour, 2);
    ParsePrintedSigned(d.minute, 2);
    ParsePrintedSigned(d.second, 2);
  }

  /** What a GeneralizedTime of decimal fields reads as, for every field: the seconds the
      calendar counts. The month must exist, the day only be one some month has, and the
      clock is not bounded at all. */
  lemma GeneralizedTimeIsTheCalendar(d: DateTime)
    requires 0 <= d.year < 10_000 && TwoDigits(d)
    ensures Asn1Time(GENERALIZED_TIME, Print(d.year, 4, 10) + PrintTail(d) + [ZULU]) ==
            if 1 <= d.month <= 12 && 1 <= d.day <= 31
            then Some(NaiveDays(d.year, d.month, d.day) * 86_400 + d.SecondOfDay())
            else None
  {
    GeneralizedSplit(d.year, PrintTail(d));
    TailIsTheCalendar(d);
  }

  lemma TailIsTheCalendar(d: DateTime)
    requires 0 <= d.year < 10_000 && TwoDigits(d)
    ensures AfterYear(d.year, PrintTail(d)) ==
            if 1 <= d.month <= 12 && 1 <= d.day <= 31
            then Some(NaiveDays(d.year, d.month, d.day) * 86_400 + d.SecondOfDay())
            else None
  {
    AfterYearReadsTheTail(d.year, d);
    if 1 <= d.month <= 12 {
      EpochIsNaive(d);
    }
  }

  lemma GeneralizedSplit(year: int, rest: seq<Byte>)
    requires 0 <= year < 10_000 && |rest| == 10
    ensures Asn1Time(GENERALIZED_TIME, Print(year, 4, 10) + rest + [ZULU]) == AfterYear(year, rest)
  {
    var digits := Print(year, 4, 10) + rest;
    assert (digits + [ZULU])[..14] == digits;
    assert digits[..4] == Print(year, 4, 10) && digits[4..] == rest;
    assert Power(10, 1) == 10 * Power(10, 0);
    assert Power(10, 3) == 10 * Power(10, 2);
    ParsePrintedSigned(year, 4);
  }

  /** The two forms agree on 1950 to 2049, whatever follows the year. */
  lemma UtcTimeIsTheShortForm(yy: nat, rest: seq<Byte>)
    requires yy < 100 && |rest| == 10
    ensures Asn1Time(UTC_TIME, Print(yy, 2, 10) + rest + [ZULU])
         == Asn1Time(GENERALIZED_TIME, Print(Century(yy), 4, 10) + rest + [ZULU])
    ensures 1950 <= Century(yy) <= 2049
  {
    var short := Print(yy, 2, 10) + rest;
    assert (short + [ZULU])[..12] == short;
    assert short[..2] == Print(yy, 2, 10) && short[2..] == rest;
    assert Power(10, 1) == 10 * Power(10, 0);
    ParsePrintedSigned(yy, 2);
    GeneralizedSplit(Century(yy), rest);
  }

  /** The form section 4.1.2.5 of RFC 5280 has an authority write: UTCTime through 2049. */
  function PrintTime(d: DateTime): (t: (Byte, seq<Byte>))
    requires 1950 <= d.year < 10_000
    requires d.month >= 0 && d.day >= 0 && d.hour >= 0 && d.minute >= 0 && d.second >= 0
  {
    if d.year < 2050 then (UTC_TIME, Print(d.year % 100, 2, 10) + PrintTail(d) + [ZULU])
    else (GENERALIZED_TIME, Print(d.year, 4, 10) + PrintTail(d) + [ZULU])
  }

  /** Every date of four-digit years is read back as itself from a GeneralizedTime. */
  lemma GeneralizedRoundTrip(d: DateTime)
    requires d.Valid() && 0 <= d.year < 10_000
    ensures Asn1Time(GENERALIZED_TIME, Print(d.year, 4, 10) + PrintTail(d) + [ZULU]) == Some(d.Epoch())
  {
    assert d.day <= 31;
    GeneralizedSplit(d.year, PrintTail(d));
    AfterYearReadsTheTail(d.year, d);
  }

  lemma UtcRoundTrip(d: DateTime, yy: nat)
    requires d.Valid() && yy < 100 && Century(yy) == d.year
    ensures Asn1Time(UTC_TIME, Print(yy, 2, 10) + PrintTail(d) + [ZULU]) == Some(d.Epoch())
  {
    UtcTimeIsTheShortForm(yy, PrintTail(d));
    GeneralizedRoundTrip(d);
  }

  lemma CenturyOf(year: int)
    requires 1950 <= year < 2050
    ensures Century(year % 100) == year
  {
    assert year < 2000 ==> year % 100 == year - 1900;
    assert year >= 2000 ==> year % 100 == year - 2000;
  }

  /** Every date an authority may write is read back as itself. */
  lemma TimeRoundTrip(d: DateTime)
    requires d.Valid() && 1950 <= d.year < 10_000
    ensures Asn1Time(PrintTime(d).0, PrintTime(d).1) == Some(d.Epoch())
  {
    if d.year < 2050 {
      CenturyOf(d.year);
      UtcRoundTrip(d, d.year % 100);
    } else {
      GeneralizedRoundTrip(d);
    }
  }
}
