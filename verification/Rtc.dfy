/**
 The RTC driver: RTC_Set and RTC_Get as the driver performs them, with the day cache
 that RTC_Get keeps between calls.
 */
module Rtc {
  import opened Calendar

  class Clock {
    var counter: nat  // the hardware counter, in seconds
    var daycnt: nat   // the day the cached date was computed for
    var year: nat
    var month: nat
    var day: nat
    var hour: nat
    var minute: nat
    var second: nat
    var wday: nat
    var week: int

    /** The date has never been computed. */
    predicate Fresh()
      reads this
    {
      daycnt == 0 && year == 0 && month == 0 && day == 0
    }

    /** The cached date is what day `daycnt` decodes to. */
    ghost predicate Agrees()
      reads this
    {
      Decodes(daycnt, Date(year, month, day))
    }

    constructor (counter: nat)
      ensures Fresh() && this.counter == counter
    {
      this.counter := counter;
      daycnt, year, month, day, hour, minute, second, wday, week := 0, 0, 0, 0, 0, 0, 0, 0, 0;
    }

    /** RTC_Get. `stray` is what RTC_Get_Week reads outside its table when the month is none. */
    method Get(stray: nat) returns (timecount: nat)
      requires Fresh() || Agrees()
      modifies this
      ensures timecount == counter == old(counter)
      ensures old(Fresh()) && counter / SECONDS_PER_DAY == 0 ==> Fresh()
      ensures !(old(Fresh()) && counter / SECONDS_PER_DAY == 0) ==> Agrees() && daycnt == counter / SECONDS_PER_DAY
      ensures hour == counter % SECONDS_PER_DAY / 3600
      ensures minute == counter % SECONDS_PER_DAY % 3600 / 60 && second == counter % SECONDS_PER_DAY % 3600 % 60
      ensures wday == GetWeek(year, month, day, if 1 <= month <= 12 then TABLE_WEEK[month - 1] else stray)
      ensures week == wday - 1
    {
      timecount := counter;
      var temp := timecount / 86400;
      if daycnt != temp {
        DecodeDay(temp);
      }
      temp := timecount % 86400;
      hour, minute, second := temp / 3600, temp % 3600 / 60, temp % 3600 % 60;
      wday := GetWeek(year, month, day, if 1 <= month <= 12 then TABLE_WEEK[month - 1] else stray);
      week := wday - 1;
    }

    method DecodeDay(days: nat)
      modifies this`daycnt, this`year, this`month, this`day
      ensures Agrees() && daycnt == days
    {
      daycnt := days;
      var inYear, m, rest;
      year, inYear := SplitYear(days);
      m, rest := SplitMonth(year, inYear);
      month, day := m + 1, rest + 1;
      if inYear <= 364 {
        OrdinaryDay(days, year, m + 1, rest + 1);
      } else {
        LeapsApart(year - 1);
        LeapDay(days, year);
      }
    }

    /** RTC_Set; the result is 1 for a year outside 1970 to 2099. */
    method Set(syear: nat, smon: nat, sday: nat, hour: nat, min: nat, sec: nat) returns (r: nat)
      requires 1 <= smon <= 12 && 1 <= sday
      modifies this`counter
      ensures r == if EPOCH <= syear <= LAST_YEAR then 0 else 1
      ensures r == 0 ==> counter ==
                         (DaysBefore(syear) + DaysBeforeMonth(syear, smon) + sday - 1) * SECONDS_PER_DAY + hour * 3600 + min * 60 + sec
      ensures r == 1 ==> counter == old(counter)
    {
      if syear < 1970 || syear > 2099 {
        return 1;
      }
      var seccount := YearSeconds(syear);
      var months := MonthSeconds(syear, smon);
      seccount := seccount + months;
      seccount := seccount + (sday - 1) * 86400;
      counter := seccount + hour * 3600 + min * 60 + sec;
      return 0;
    }

    /** RTC_Set and then RTC_Get, in any state of the day cache. */
    method ReadBack(d: Date, h: nat, m: nat, s: nat, stray: nat)
      requires (Fresh() || Agrees()) && ValidDate(d) && d.year <= LAST_YEAR && h < 24 && m < 60 && s < 60
      modifies this
      ensures hour == h && minute == m && second == s
      ensures old(Fresh()) && d == Date(EPOCH, 1, 1) ==> Fresh()
      ensures !(old(Fresh()) && d == Date(EPOCH, 1, 1)) ==>
                && Agrees()
                && (Date(year, month, day) == d <==> !(IsLeap(d.year) && d.month == 12 && d.day == 31))
                && (Date(year, month, day) == d ==> wday == (DayNumber(d) + 4) % 7)
    {
      FirstDay(d);
      SecondsSplit(DayNumber(d), h, m, s);
      var _ := Set(d.year, d.month, d.day, h, m, s);
      ghost var first := Fresh() && DayNumber(d) == 0;
      var _ := Get(stray);
      if !first { SetThenGet(d, h, m, s, Date(year, month, day)); }
    }
  }

  method SplitYear(days: nat) returns (year: nat, rest: nat)
    ensures year >= EPOCH
    ensures (rest < YearLen(year) && rest <= 364 && days == DaysBefore(year) + rest)
            || (rest == 365 && year > EPOCH && LastOfLeap(days, year - 1))
  {
    year, rest := 1970, days;
    while rest >= 365
      invariant year >= EPOCH && days == DaysBefore(year) + rest
    {
      if IsLeap(year) {
        if rest >= 366 {
          rest := rest - 366;
        } else {
          year := year + 1;
          break;
        }
      } else {
        rest := rest - 365;
      }
      year := year + 1;
    }
  }

  /** The month is counted from 0 here; a full year ends in month 12 with nothing left. */
  method SplitMonth(year: nat, days: nat) returns (month: nat, rest: nat)
    requires days <= 365
    ensures month <= 12 && days == DaysBeforeMonth(year, month + 1) + rest
    ensures if days < YearLen(year) then month < 12 && rest < MonthLen(year, month + 1) else month == 12 && rest == 0
  {
    month, rest := 0, days;
    WholeYear(year);
    while rest >= 28
      invariant month <= 12 && days == DaysBeforeMonth(year, month + 1) + rest
      invariant month == 12 ==> rest == days - YearLen(year)
    {
      if IsLeap(year) && month == 1 {
        if rest >= 29 {
          rest := rest - 29;
        } else {
          break;
        }
      } else {
        if rest >= MON_TABLE[month] {
          rest := rest - MON_TABLE[month];
        } else {
          break;
        }
      }
      month := month + 1;
    }
    if month < 12 {
      MonthsGrow(year, month + 1, 13);
    }
  }

  method YearSeconds(syear: nat) returns (seccount: nat)
    requires EPOCH <= syear
    ensures seccount == DaysBefore(syear) * SECONDS_PER_DAY
  {
    seccount := 0;
    for t := 1970 to syear
      invariant seccount == DaysBefore(t) * SECONDS_PER_DAY
    {
      seccount := seccount + if IsLeap(t) then 31622400 else 31536000;
    }
  }

  method MonthSeconds(syear: nat, smon: nat) returns (seccount: nat)
    requires 1 <= smon <= 12
    ensures seccount == DaysBeforeMonth(syear, smon) * SECONDS_PER_DAY
  {
    seccount := 0;
    for t := 0 to smon - 1
      invariant seccount == DaysBeforeMonth(syear, t + 1) * SECONDS_PER_DAY
    {
      seccount := seccount + MON_TABLE[t] * 86400;
      if IsLeap(syear) && t == 1 {
        seccount := seccount + 86400;
      }
    }
  }

  lemma LeapDay(days: nat, year: nat)
    requires year > EPOCH && LastOfLeap(days, year - 1)
    ensures Decodes(days, Date(year, 13, 1))
  {
  }

  lemma OrdinaryDay(days: nat, year: nat, month: nat, day: nat)
    requires ValidDate(Date(year, month, day)) && days == DayNumber(Date(year, month, day)) <= DaysBefore(year) + 364
    ensures Decodes(days, Date(year, month, day))
  {
    forall y: nat ensures !LastOfLeap(days, y) {
      NotLastOfLeap(days, year, days - DaysBefore(year), y);
    }
  }

  lemma LeapsApart(year: nat)
    requires IsLeap(year)
    ensures !IsLeap(year + 1)
  {
    assert year % 4 == 0 && (year + 1) % 4 == 1;
  }

  lemma NotLastOfLeap(days: nat, year: nat, rest: nat, y: nat)
    requires year >= EPOCH && days == DaysBefore(year) + rest && rest <= 364
    ensures !LastOfLeap(days, y)
  {
    if EPOCH <= y < year { YearsGrow(y, year); }
    if year < y { YearsGrow(year, y); }
  }

  lemma FirstDay(d: Date)
    requires ValidDate(d)
    ensures DayNumber(d) == 0 <==> d == Date(EPOCH, 1, 1)
  {
    assert DayNumber(Date(EPOCH, 1, 1)) == 0;
    if DayNumber(d) == 0 { OneDate(d, Date(EPOCH, 1, 1)); }
  }

  /** A time set on a clock and read back, for any state of the day cache except the fresh one on
      the very first day: everything is as it was set, unless the date is 31 December of a leap year. */
  lemma SetThenGet(d: Date, hour: nat, minute: nat, second: nat, read: Date)
    requires ValidDate(d) && d.year <= LAST_YEAR && hour < 24 && minute < 60 && second < 60
    requires Decodes(Seconds(d, hour, minute, second) / SECONDS_PER_DAY, read)
    ensures var c := Seconds(d, hour, minute, second);
            && c < 0x1_0000_0000
            && (read == d <==> !(IsLeap(d.year) && d.month == 12 && d.day == 31))
            && c % SECONDS_PER_DAY / 3600 == hour && c % SECONDS_PER_DAY % 3600 / 60 == minute
            && c % SECONDS_PER_DAY % 3600 % 60 == second
            && (read == d ==> GetWeek(read.year, read.month, read.day, TABLE_WEEK[read.month - 1]) == (DayNumber(d) + 4) % 7)
  {
    SecondsFit(d, hour, minute, second);
    SecondsSplit(DayNumber(d), hour, minute, second);
    RoundTrip(d, read);
    WeekdayIsRight(d);
  }
}
