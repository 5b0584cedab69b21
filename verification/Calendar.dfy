/**
 The calendar behind the RTC driver, stated on day numbers counted from 1970-01-01,
 and what the driver makes of a day number.
 */
module Calendar {

  const EPOCH: nat := 1970
  const LAST_YEAR: nat := 2099  // RTC_Set refuses later years
  const MON_TABLE: seq<nat> := [31, 28, 31, 30, 31, 30, 31, 31, 30, 31, 30, 31]
  const TABLE_WEEK: seq<nat> := [0, 3, 3, 6, 1, 4, 6, 2, 5, 0, 3, 5]

  datatype Date = Date(year: nat, month: nat, day: nat)

  predicate IsLeap(year: nat) {
    year % 4 == 0 && (year % 100 != 0 || year % 400 == 0)
  }

  function YearLen(year: nat): (n: nat)
    ensures 365 <= n <= 366
  {
    if IsLeap(year) then 366 else 365
  }

  function MonthLen(year: nat, month: nat): (n: nat)
    requires 1 <= month <= 12
    ensures 28 <= n <= 31
  {
    MON_TABLE[month - 1] + if month == 2 && IsLeap(year) then 1 else 0
  }

  predicate ValidDate(d: Date) {
    EPOCH <= d.year && 1 <= d.month <= 12 && 1 <= d.day <= MonthLen(d.year, d.month)
  }

  /** Days from 1970-01-01 to 1 January of `year`. */
  function DaysBefore(year: nat): (n: nat)
    requires year >= EPOCH
  {
    if year == EPOCH then 0 else DaysBefore(year - 1) + YearLen(year - 1)
  }

  /** Days of `year` before its month `month`; month 13 stands for the end of the year. */
  function DaysBeforeMonth(year: nat, month: nat): (n: nat)
    requires 1 <= month <= 13
  {
    if month == 1 then 0 else DaysBeforeMonth(year, month - 1) + MonthLen(year, month - 1)
  }

  function DayNumber(d: Date): (n: nat)
    requires ValidDate(d)
  {
    DaysBefore(d.year) + DaysBeforeMonth(d.year, d.month) + d.day - 1
  }

  /** The month lengths added up: 28 or 29 days make February. */
  lemma FirstHalf(year: nat)
    ensures DaysBeforeMonth(year, 1) == 0 && DaysBeforeMonth(year, 2) == 31
    ensures var f := 31 + MonthLen(year, 2);
            && DaysBeforeMonth(year, 3) == f && DaysBeforeMonth(year, 4) == f + 31 && DaysBeforeMonth(year, 5) == f + 61
            && DaysBeforeMonth(year, 6) == f + 92 && DaysBeforeMonth(year, 7) == f + 122
  {
    assert DaysBeforeMonth(year, 2) == 31;
    assert DaysBeforeMonth(year, 4) == DaysBeforeMonth(year, 3) + 31;
    assert DaysBeforeMonth(year, 6) == DaysBeforeMonth(year, 5) + 31;
  }

  lemma SecondHalf(year: nat)
    ensures var h := DaysBeforeMonth(year, 7);
            && DaysBeforeMonth(year, 8) == h + 31 && DaysBeforeMonth(year, 9) == h + 62
            && DaysBeforeMonth(year, 10) == h + 92 && DaysBeforeMonth(year, 11) == h + 123
            && DaysBeforeMonth(year, 12) == h + 153 && DaysBeforeMonth(year, 13) == h + 184
  {
    assert DaysBeforeMonth(year, 8) == DaysBeforeMonth(year, 7) + 31;
    assert DaysBeforeMonth(year, 10) == DaysBeforeMonth(year, 9) + 30;
    assert DaysBeforeMonth(year, 12) == DaysBeforeMonth(year, 11) + 30;
  }

  lemma WholeYear(year: nat)
    ensures DaysBeforeMonth(year, 13) == YearLen(year)
    ensures DaysBeforeMonth(year, 12) == YearLen(year) - 31
  {
    FirstHalf(year);
    SecondHalf(year);
  }

  lemma {:induction false} MonthsGrow(year: nat, a: nat, b: nat)
    requires 1 <= a < b <= 13
    ensures DaysBeforeMonth(year, a) + MonthLen(year, a) <= DaysBeforeMonth(year, b)
  {
    if a + 1 < b { MonthsGrow(year, a, b - 1); }
  }

  lemma {:induction false} YearsGrow(a: nat, b: nat)
    requires EPOCH <= a < b
    ensures DaysBefore(a) + YearLen(a) <= DaysBefore(b)
  {
    if a + 1 < b { YearsGrow(a, b - 1); }
  }

  /** The days of a year are counted from 0. */
  lemma DayOfYear(d: Date)
    requires ValidDate(d)
    ensures DaysBeforeMonth(d.year, d.month) + d.day - 1 < YearLen(d.year)
    ensures DaysBeforeMonth(d.year, d.month) + d.day - 1 == 365 <==> IsLeap(d.year) && d.month == 12 && d.day == 31
  {
    WholeYear(d.year);
    if d.month < 12 {
      MonthsGrow(d.year, d.month, 12);
    }
  }

  /** A day number belongs to one date only. */
  lemma OneDate(a: Date, b: Date)
    requires ValidDate(a) && ValidDate(b) && DayNumber(a) == DayNumber(b)
    ensures a == b
  {
    DayOfYear(a);
    DayOfYear(b);
    if a.year < b.year { YearsGrow(a.year, b.year); }
    if b.year < a.year { YearsGrow(b.year, a.year); }
    if a.month < b.month { MonthsGrow(a.year, a.month, b.month); }
    if b.month < a.month { MonthsGrow(a.year, b.month, a.month); }
  }

  // ----- what the driver decodes -----

  /** RTC_Get's reading `d` of day number `n`: the right date, except that the last day of a leap
      year becomes day 1 of a thirteenth month of the next year. */
  ghost predicate Decodes(n: nat, d: Date) {
    if exists y: nat :: LastOfLeap(n, y) then
      d.month == 13 && d.day == 1 && d.year > EPOCH && LastOfLeap(n, d.year - 1)
    else ValidDate(d) && DayNumber(d) == n
  }

  predicate LastOfLeap(n: nat, year: nat) {
    year >= EPOCH && IsLeap(year) && n == DaysBefore(year) + 365
  }

  lemma LastOfLeapIs(n: nat, year: nat, d: Date)
    requires LastOfLeap(n, year) && ValidDate(d) && DayNumber(d) == n
    ensures d == Date(year, 12, 31)
  {
    WholeYear(year);
    OneDate(d, Date(year, 12, 31));
  }

  /** At most one date is decoded. */
  lemma DecodesOne(n: nat, a: Date, b: Date)
    requires Decodes(n, a) && Decodes(n, b)
    ensures a == b
  {
    if exists y: nat :: LastOfLeap(n, y) {
      if a.year < b.year { YearsGrow(a.year - 1, b.year - 1); }
      if b.year < a.year { YearsGrow(b.year - 1, a.year - 1); }
    } else {
      OneDate(a, b);
    }
  }

  /** Setting a date and decoding its day number gives the date back, unless it is 31 December of a
      leap year. */
  lemma RoundTrip(d: Date, read: Date)
    requires ValidDate(d) && Decodes(DayNumber(d), read)
    ensures read == d <==> !(IsLeap(d.year) && d.month == 12 && d.day == 31)
    ensures IsLeap(d.year) && d.month == 12 && d.day == 31 ==> read == Date(d.year + 1, 13, 1)
  {
    var n := DayNumber(d);
    DayOfYear(d);
    if IsLeap(d.year) && d.month == 12 && d.day == 31 {
      WholeYear(d.year);
      assert LastOfLeap(n, d.year);
      if read.year - 1 < d.year { YearsGrow(read.year - 1, d.year); }
      if d.year < read.year - 1 { YearsGrow(d.year, read.year - 1); }
    } else {
      if exists y: nat :: LastOfLeap(n, y) {
        var y: nat :| LastOfLeap(n, y);
        LastOfLeapIs(n, y, d);
        assert false;
      }
      OneDate(d, read);
    }
  }

  // ----- sizes and weekdays up to 2099 -----

  lemma {:induction false} ClosedForm(year: nat)
    requires EPOCH <= year <= LAST_YEAR + 1
    ensures DaysBefore(year) == 365 * (year - EPOCH) + (year - 1969) / 4
    ensures year <= LAST_YEAR ==> (IsLeap(year) <==> year % 4 == 0)
  {
    if year <= LAST_YEAR { LeapsTo2099(year); }
    if year > EPOCH {
      ClosedForm(year - 1);
      FourYears(year);
    }
  }

  lemma LeapsTo2099(year: nat)
    requires EPOCH <= year <= LAST_YEAR
    ensures IsLeap(year) <==> year % 4 == 0
  {
    if year % 100 == 0 { assert year == 2000; }
  }

  lemma FourYears(year: nat)
    requires year > EPOCH
    ensures (year - 1969) / 4 == (year - 1 - 1969) / 4 + if (year - 1) % 4 == 0 then 1 else 0
  {
  }

  const SECONDS_PER_DAY: nat := 86400

  function Seconds(d: Date, hour: nat, minute: nat, second: nat): nat
    requires ValidDate(d)
  {
    DayNumber(d) * SECONDS_PER_DAY + hour * 3600 + minute * 60 + second
  }

  /** The 32-bit counter holds every time RTC_Set accepts. */
  lemma SecondsFit(d: Date, hour: nat, minute: nat, second: nat)
    requires ValidDate(d) && d.year <= LAST_YEAR && hour < 24 && minute < 60 && second < 60
    ensures Seconds(d, hour, minute, second) < 0x1_0000_0000
  {
    DayOfYear(d);
    ClosedForm(d.year);
    ClosedForm(LAST_YEAR + 1);
    if d.year < LAST_YEAR + 1 { YearsGrow(d.year, LAST_YEAR + 1); }
    assert DayNumber(d) < 47482;
  }

  /** The counter splits into the day and the time of day it was made of. */
  lemma SecondsSplit(n: nat, hour: nat, minute: nat, second: nat)
    requires hour < 24 && minute < 60 && second < 60
    ensures var c := n * SECONDS_PER_DAY + hour * 3600 + minute * 60 + second;
            && c / SECONDS_PER_DAY == n
            && c % SECONDS_PER_DAY / 3600 == hour && c % SECONDS_PER_DAY % 3600 / 60 == minute
            && c % SECONDS_PER_DAY % 3600 % 60 == second
  {
    var t := hour * 3600 + minute * 60 + second;
    assert t / 3600 == hour && t % 3600 == minute * 60 + second;
    var c := n * SECONDS_PER_DAY + t;
    assert c / SECONDS_PER_DAY == n && c % SECONDS_PER_DAY == t;
  }

  /** RTC_Get_Week; `entry` is what it reads from its month table. */
  function WeekSum(year: nat, month: nat, day: nat, entry: nat): (t: nat) {
    var yearL := if year / 100 > 19 then year % 100 + 100 else year % 100;
    var t := (yearL + yearL / 4) % 7 + day + entry;
    if yearL % 4 == 0 && month < 3 then (if t == 0 then 0xFFFF else t - 1) else t
  }

  function GetWeek(year: nat, month: nat, day: nat, entry: nat): (w: nat)
    ensures w < 7
  {
    WeekSum(year, month, day, entry) % 7
  }

  lemma TableIsShift(year: nat, month: nat) returns (k: nat)
    requires 1 <= month <= 12
    ensures DaysBeforeMonth(year, month) == TABLE_WEEK[month - 1] + 7 * k + if IsLeap(year) && month > 2 then 1 else 0
  {
    FirstHalf(year);
    SecondHalf(year);
    k := [0, 4, 8, 12, 17, 21, 25, 30, 34, 39, 43, 47][month - 1];
  }

  /** The century correction makes `year % 100` the years since 1900. */
  lemma YearsSince1900(year: nat)
    requires EPOCH <= year <= LAST_YEAR
    ensures (if year / 100 > 19 then year % 100 + 100 else year % 100) == year - 1900
    ensures (year - 1969) / 4 == (year - 1900) / 4 - 17 - (if (year - 1900) % 4 == 0 then 1 else 0)
    ensures (year - 1900) % 4 == 0 <==> year % 4 == 0
  {
  }

  lemma Sevens(a: nat)
    ensures a == 7 * (a / 7) + a % 7
  {
  }

  /** The sum that RTC_Get_Week reduces, from the years `y` since 1900. */
  lemma WeekSumIs(d: Date, entry: nat)
    requires ValidDate(d) && d.year <= LAST_YEAR
    ensures var y := d.year - 1900;
            WeekSum(d.year, d.month, d.day, entry)
              == (y + y / 4) % 7 + d.day + entry - (if IsLeap(d.year) && d.month < 3 then 1 else 0)
  {
    ClosedForm(d.year);
    YearsSince1900(d.year);
  }

  /** The weekday formula agrees with counting days from Thursday, 1 January 1970 (0 is Sunday). */
  lemma WeekdayIsRight(d: Date)
    requires ValidDate(d) && d.year <= LAST_YEAR
    ensures GetWeek(d.year, d.month, d.day, TABLE_WEEK[d.month - 1]) == (DayNumber(d) + 4) % 7
  {
    var k := TableIsShift(d.year, d.month);
    ClosedForm(d.year);
    YearsSince1900(d.year);
    WeekSumIs(d, TABLE_WEEK[d.month - 1]);
    var y := d.year - 1900;
    Sevens(y + y / 4);
    SameRemainder(DayNumber(d) + 4, WeekSum(d.year, d.month, d.day, TABLE_WEEK[d.month - 1]),
                  52 * y - 3652 + k + (y + y / 4) / 7);
  }

  lemma SameRemainder(a: int, b: int, k: int)
    requires a == b + 7 * k
    ensures a % 7 == b % 7
  {
  }
}
