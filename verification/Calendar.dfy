/** `fmt_utc`: seconds since the Unix epoch to a UTC date and time, checked against the
    proleptic Gregorian calendar counted day by day. */
module Calendar {

  type I64 = x: int | -0x8000_0000_0000_0000 <= x < 0x8000_0000_0000_0000

  datatype Date = Date(year: int, month: int, day: int)
  datatype DateTime = DateTime(date: Date, hour: int, minute: int, second: int)

  // ---- the program's arithmetic -------------------------------------------------------

  /** `/` on machine integers, rounding toward zero. */
  function TruncDiv(a: int, b: int): int
    requires b > 0
  {
    if a >= 0 then a / b else -((-a) / b)
  }

  /** Day number to date. Every binding stays within 64 bits. */
  function CivilFromDays(days: int): Date
    requires -0x4_0000_0000_0000 <= days <= 0x4_0000_0000_0000
  {
    var z: I64 := days + 719_468;
    var era: I64 := TruncDiv(if z >= 0 then z else z - 146_096, 146_097);
    var doe: I64 := z - era * 146_097;
    CivilOfEra(era, doe)
  }

  /** The date of a day within a 400-year era. */
  function CivilOfEra(era: int, doe: int): Date
    requires -0x4_0000_0000_0000 <= era <= 0x4_0000_0000_0000 && 0 <= doe <= 146_096
  {
    var yoe: I64 := YearOfEra(doe);
    var y: I64 := yoe + era * 400;
    var doy: I64 := doe - (365 * yoe + yoe / 4 - yoe / 100);
    var mp: I64 := (5 * doy + 2) / 153;
    var d: I64 := doy - (153 * mp + 2) / 5 + 1;
    var month: I64 := if mp < 10 then mp + 3 else mp - 9;
    Date(if month <= 2 then y + 1 else y, month, d)
  }

  function YearOfEra(doe: int): int {
    (doe - doe / 1460 + doe / 36_524 - doe / 146_096) / 365
  }

  /** `fmt_utc` up to the formatting of its fields. */
  function FmtUtc(t: I64): DateTime {
    var days: I64 := t / 86_400;
    var sod: I64 := t % 86_400;
    DateTime(CivilFromDays(days), sod / 3600, (sod / 60) % 60, sod % 60)
  }

  // ---- the calendar ---------------------------------------------------------------------

  /** The leap rule of Appendix C of RFC 3339. */
  predicate Leap(year: int) {
    year % 4 == 0 && (year % 100 != 0 || year % 400 == 0)
  }

  function DaysInMonth(year: int, month: int): int
    requires 1 <= month <= 12
  {
    if month in {4, 6, 9, 11} then 30 else if month == 2 then if Leap(year) then 29 else 28 else 31
  }

  predicate ValidDate(x: Date) {
    1 <= x.month <= 12 && 1 <= x.day <= DaysInMonth(x.year, x.month)
  }

  predicate ValidTime(x: DateTime) {
    ValidDate(x.date) && 0 <= x.hour < 24 && 0 <= x.minute < 60 && 0 <= x.second < 60
  }

  function NextDate(x: Date): Date
    requires ValidDate(x)
  {
    if x.day < DaysInMonth(x.year, x.month) then x.(day := x.day + 1)
    else if x.month < 12 then Date(x.year, x.month + 1, 1)
    else Date(x.year + 1, 1, 1)
  }

  /** Days of `year` before the first of `month`. */
  function DaysBeforeMonth(year: int, month: int): int
    requires 1 <= month <= 13
    decreases month
  {
    if month == 1 then 0 else DaysBeforeMonth(year, month - 1) + DaysInMonth(year, month - 1)
  }

  /** Days from 1 January of year 1 to 1 January of `year`. */
  function DaysBeforeYear(year: int): int {
    var n := year - 1;
    365 * n + n / 4 - n / 100 + n / 400
  }

  /** Day number of a date; 1 January 1970 is 0. */
  function DayNumber(x: Date): int
    requires ValidDate(x)
  {
    DaysBeforeYear(x.year) + DaysBeforeMonth(x.year, x.month) + x.day - 1 - 719_162
  }

  lemma QuotientStep(n: int, k: int)
    requires k == 4 || k == 100 || k == 400
    ensures n / k - (n - 1) / k == if n % k == 0 then 1 else 0
  {
  }

  lemma Multiples(n: int)
    ensures n % 100 == 0 ==> n % 4 == 0
    ensures n % 400 == 0 ==> n % 100 == 0
  {
    Division(25 * (n / 100), 0, 4 * (n / 400), 0, 0, 0);
  }

  lemma YearLength(year: int)
    ensures DaysBeforeYear(year + 1) == DaysBeforeYear(year) + (if Leap(year) then 366 else 365)
  {
    QuotientStep(year, 4);
    QuotientStep(year, 100);
    QuotientStep(year, 400);
    Multiples(year);
  }

  lemma MonthTable(year: int)
    ensures DaysBeforeMonth(year, 1) == 0 && DaysBeforeMonth(year, 2) == 31
    ensures var m := 59 + (if Leap(year) then 1 else 0);
            && DaysBeforeMonth(year, 3) == m && DaysBeforeMonth(year, 4) == m + 31
            && DaysBeforeMonth(year, 5) == m + 61 && DaysBeforeMonth(year, 6) == m + 92
            && DaysBeforeMonth(year, 7) == m + 122 && DaysBeforeMonth(year, 8) == m + 153
            && DaysBeforeMonth(year, 9) == m + 184 && DaysBeforeMonth(year, 10) == m + 214
            && DaysBeforeMonth(year, 11) == m + 245 && DaysBeforeMonth(year, 12) == m + 275
            && DaysBeforeMonth(year, 13) == m + 306
  {
  }

  /** The day number counts days: each date is one more than the date before it. */
  lemma DayNumberNext(x: Date)
    requires ValidDate(x)
    ensures ValidDate(NextDate(x)) && DayNumber(NextDate(x)) == DayNumber(x) + 1
    ensures DayNumber(Date(1970, 1, 1)) == 0
  {
    hide Leap;
    MonthTable(x.year);
    YearLength(x.year);
  }

  // ---- within an era ---------------------------------------------------------------------

  /** Day `doe` of a 400-year era, March-based: century, four-year block, year and day. */
  datatype EraDay = EraDay(century: int, block: int, year: int, day: int)

  predicate ValidEraDay(e: EraDay) {
    && 0 <= e.century < 4 && 0 <= e.block < 25 && 0 <= e.year < 4 && 0 <= e.day <= 365
    && (e.day == 365 ==> e.year == 3 && (e.block == 24 ==> e.century == 3))
  }

  function DayOfEra(e: EraDay): int {
    36_524 * e.century + 1461 * e.block + 365 * e.year + e.day
  }

  function YearIndex(e: EraDay): int {
    100 * e.century + 4 * e.block + e.year
  }

  lemma SplitEraDay(doe: int) returns (e: EraDay)
    requires 0 <= doe <= 146_096
    ensures ValidEraDay(e) && DayOfEra(e) == doe
  {
    var c := if doe == 146_096 then 3 else doe / 36_524;
    var r := doe - 36_524 * c;
    var b := r / 1461;
    var k := r - 1461 * b;
    var j := if k == 1460 then 3 else k / 365;
    e := EraDay(c, b, j, k - 365 * j);
  }

  /** The corrections in the year formula cancel exactly. */
  lemma YearFormula(e: EraDay)
    requires ValidEraDay(e)
    ensures YearOfEra(DayOfEra(e)) == YearIndex(e)
    ensures YearIndex(e) / 4 == 25 * e.century + e.block && YearIndex(e) / 100 == e.century
    ensures DayOfEra(e) - (365 * YearIndex(e) + YearIndex(e) / 4 - YearIndex(e) / 100) == e.day
  {
    var doe := DayOfEra(e);
    var low := 24 * e.century + e.block + 365 * e.year + e.day;
    assert doe == 1460 * (25 * e.century + e.block) + low;
    var delta := if low >= 1460 then 1 else 0;
    assert doe / 1460 == 25 * e.century + e.block + delta;
    var last := if doe == 146_096 then 1 else 0;
    assert doe / 146_096 == last;
    assert doe / 36_524 == e.century + last;
    assert doe - doe / 1460 + doe / 36_524 - doe / 146_096 == 365 * YearIndex(e) + (e.day - delta);
    assert 0 <= e.day - delta < 365;
  }

  /** Days before the first of a March-based month. */
  function MarchOffset(mp: int): int {
    (153 * mp + 2) / 5
  }

  lemma MarchTable()
    ensures MarchOffset(0) == 0 && MarchOffset(1) == 31 && MarchOffset(2) == 61 && MarchOffset(3) == 92
    ensures MarchOffset(4) == 122 && MarchOffset(5) == 153 && MarchOffset(6) == 184 && MarchOffset(7) == 214
    ensures MarchOffset(8) == 245 && MarchOffset(9) == 275 && MarchOffset(10) == 306 && MarchOffset(11) == 337
    ensures MarchOffset(12) == 367
  {
  }

  lemma MonthFormula(doy: int)
    requires 0 <= doy <= 365
    ensures var mp := (5 * doy + 2) / 153; 0 <= mp <= 11 && MarchOffset(mp) <= doy < MarchOffset(mp + 1)
  {
  }

  /** Days to 1 March of a year, in closed form. */
  lemma FirstOfMarch(year: int)
    ensures DaysBeforeYear(year) + 59 + (if Leap(year) then 1 else 0) ==
            365 * year + year / 4 - year / 100 + year / 400 - 306
  {
    QuotientStep(year, 4);
    QuotientStep(year, 100);
    QuotientStep(year, 400);
    Multiples(year);
  }

  /** The date of day `e` of era `era`, assembled as the program does. */
  function AssembleDate(era: int, e: EraDay): Date {
    var mp := (5 * e.day + 2) / 153;
    var month := if mp < 10 then mp + 3 else mp - 9;
    var y := YearIndex(e) + era * 400;
    Date(if month <= 2 then y + 1 else y, month, e.day - MarchOffset(mp) + 1)
  }

  lemma LeapOfEra(era: int, e: EraDay)
    requires ValidEraDay(e)
    ensures var y := YearIndex(e) + era * 400;
            && y / 4 == 100 * era + 25 * e.century + e.block && y / 100 == 4 * era + e.century && y / 400 == era
            && (e.day == 365 ==> Leap(y + 1))
  {
    var q4, q100 := 100 * era + 25 * e.century + e.block, 4 * era + e.century;
    Division(q4, e.year, q100, 4 * e.block + e.year, era, YearIndex(e));
    if e.day == 365 {
      Division(q4 + 1, 0, q100, 4 * e.block + 4, era, 0);
      Division(q4 + 1, 0, q100 + 1, 0, era + 1, 0);
    }
  }

  /** Reading off quotients and remainders. */
  lemma Division(q4: int, r4: int, q100: int, r100: int, q400: int, r400: int)
    ensures 0 <= r4 < 4 ==> (4 * q4 + r4) / 4 == q4 && (4 * q4 + r4) % 4 == r4
    ensures 0 <= r100 < 100 ==> (100 * q100 + r100) / 100 == q100 && (100 * q100 + r100) % 100 == r100
    ensures 0 <= r400 < 400 ==> (400 * q400 + r400) / 400 == q400 && (400 * q400 + r400) % 400 == r400
  {
  }

  lemma FirstOfMarchInEra(era: int, e: EraDay)
    requires ValidEraDay(e)
    ensures var y := YearIndex(e) + era * 400;
            DaysBeforeYear(y) + 59 + (if Leap(y) then 1 else 0) == era * 146_097 + DayOfEra(e) - e.day - 306
  {
    hide Leap, DaysBeforeYear;
    LeapOfEra(era, e);
    FirstOfMarch(YearIndex(e) + era * 400);
  }

  lemma AssembledIsValid(era: int, e: EraDay)
    requires ValidEraDay(e)
    ensures ValidDate(AssembleDate(era, e))
  {
    hide Leap;
    LeapOfEra(era, e);
    MonthFormula(e.day);
    MarchTable();
  }

  lemma AssembledDayNumber(era: int, e: EraDay)
    requires ValidEraDay(e) && ValidDate(AssembleDate(era, e))
    ensures DayNumber(AssembleDate(era, e)) == era * 146_097 + DayOfEra(e) - 719_468
  {
    hide Leap, DaysBeforeYear, DaysBeforeMonth, MarchOffset, DayOfEra, YearIndex;
    var y := YearIndex(e) + era * 400;
    MonthFormula(e.day);
    MarchTable();
    FirstOfMarchInEra(era, e);
    YearLength(y);
    MonthTable(y);
    MonthTable(y + 1);
  }

  // ---- the results -----------------------------------------------------------------------

  /** Every day number gives a real date, and that date's day number is the one given. */
  lemma CivilIsDate(days: int)
    requires -0x4_0000_0000_0000 <= days <= 0x4_0000_0000_0000
    ensures ValidDate(CivilFromDays(days)) && DayNumber(CivilFromDays(days)) == days
  {
    hide DayNumber, ValidDate, CivilFromDays;
    var era := (days + 719_468) / 146_097;
    var e := SplitEraDay(days + 719_468 - era * 146_097);
    CivilIsAssembled(days, era, e);
    AssembledIsValid(era, e);
    AssembledDayNumber(era, e);
  }

  lemma CivilIsAssembled(days: int, era: int, e: EraDay)
    requires -0x4_0000_0000_0000 <= days <= 0x4_0000_0000_0000 && ValidEraDay(e)
    requires era == (days + 719_468) / 146_097 && DayOfEra(e) == days + 719_468 - era * 146_097
    ensures CivilFromDays(days) == AssembleDate(era, e)
  {
    hide TruncDiv, CivilOfEra, DayOfEra, AssembleDate;
    EraFloor(days + 719_468);
    OfEraIsAssembled(era, e);
  }

  lemma OfEraIsAssembled(era: int, e: EraDay)
    requires -0x4_0000_0000_0000 <= era <= 0x4_0000_0000_0000 && ValidEraDay(e) && 0 <= DayOfEra(e) <= 146_096
    ensures CivilOfEra(era, DayOfEra(e)) == AssembleDate(era, e)
  {
    hide YearOfEra, DayOfEra, YearIndex;
    YearFormula(e);
  }

  /** The era adjustment turns truncating division into flooring. */
  lemma EraFloor(z: int)
    ensures TruncDiv(if z >= 0 then z else z - 146_096, 146_097) == z / 146_097
  {
  }

  lemma {:induction false} YearOrder(a: int, b: int)
    requires a < b
    ensures DaysBeforeYear(a + 1) <= DaysBeforeYear(b)
    decreases b - a
  {
  }

  lemma DayWithinYear(x: Date)
    requires ValidDate(x)
    ensures DaysBeforeYear(x.year) <= DayNumber(x) + 719_162 < DaysBeforeYear(x.year + 1)
  {
    hide Leap;
    MonthTable(x.year);
    YearLength(x.year);
  }

  /** No two dates share a day number. */
  lemma DayNumberInjective(x: Date, y: Date)
    requires ValidDate(x) && ValidDate(y) && DayNumber(x) == DayNumber(y)
    ensures x == y
  {
    hide Leap, DaysBeforeYear;
    DayWithinYear(x);
    DayWithinYear(y);
    if x.year < y.year {
      YearOrder(x.year, y.year);
    } else if y.year < x.year {
      YearOrder(y.year, x.year);
    }
    MonthTable(x.year);
  }

  /** Converting a date to its day number and back gives the date. */
  lemma DateRoundTrip(x: Date)
    requires ValidDate(x) && -0x4_0000_0000_0000 <= DayNumber(x) <= 0x4_0000_0000_0000
    ensures CivilFromDays(DayNumber(x)) == x
  {
    hide DayNumber, ValidDate, CivilFromDays;
    CivilIsDate(DayNumber(x));
    DayNumberInjective(CivilFromDays(DayNumber(x)), x);
  }

  /** Consecutive day numbers are consecutive dates, from 1970-01-01 both ways. */
  lemma ConsecutiveDays(days: int)
    requires -0x4_0000_0000_0000 <= days < 0x4_0000_0000_0000
    ensures ValidDate(CivilFromDays(days)) && CivilFromDays(days + 1) == NextDate(CivilFromDays(days))
    ensures CivilFromDays(0) == Date(1970, 1, 1)
  {
    hide DayNumber, CivilFromDays, NextDate;
    CivilIsDate(days);
    DayNumberNext(CivilFromDays(days));
    DateRoundTrip(NextDate(CivilFromDays(days)));
    DayNumberNext(Date(1970, 1, 1));
    DateRoundTrip(Date(1970, 1, 1));
  }

  /** Seconds since the epoch of a date and time. */
  function Seconds(x: DateTime): int
    requires ValidTime(x)
  {
    86_400 * DayNumber(x.date) + 3600 * x.hour + 60 * x.minute + x.second
  }

  /** For every 64-bit count of seconds the fields are a real UTC date and time, and reading
      them back gives the same count. */
  lemma FmtUtcCorrect(t: I64)
    ensures ValidTime(FmtUtc(t)) && Seconds(FmtUtc(t)) == t
  {
    hide DayNumber, CivilFromDays, ValidDate;
    CivilIsDate(t / 86_400);
  }
}
