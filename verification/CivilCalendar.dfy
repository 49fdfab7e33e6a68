/** The proleptic Gregorian calendar behind std::chrono, as day numbers counted from the first
    of January of the year 0, and the UTC conversions of ruvia-http/src/field/http_date.h. */
module CivilCalendar {
  import opened Wrappers

  const EPOCH := 719528             // the day number of 1970-01-01
  const SECONDS_PER_DAY := 86400

  predicate Leap(year: int) {
    year % 4 == 0 && (year % 100 != 0 || year % 400 == 0)
  }

  function YearLength(year: int): int {
    if Leap(year) then 366 else 365
  }

  /** How many multiples of n there are in [0, year). */
  function Multiples(year: int, n: int): int
    requires n > 0
  {
    (year + (n - 1)) / n
  }

  /** Days before a year: one leap day for each leap year before it. */
  function DaysBeforeYear(year: int): int {
    365 * year + Multiples(year, 4) - Multiples(year, 100) + Multiples(year, 400)
  }

  lemma YearAddsItsDays(year: int)
    ensures DaysBeforeYear(year + 1) == DaysBeforeYear(year) + YearLength(year)
  {
    hide Multiples, YearLength;
    FourthYears(year);
    Centuries(year);
    FourCenturies(year);
    LeapInParts(year);
  }

  lemma FourthYears(year: int)
    ensures Multiples(year + 1, 4) == Multiples(year, 4) + (if year % 4 == 0 then 1 else 0)
  {
  }

  lemma Centuries(year: int)
    ensures Multiples(year + 1, 100) == Multiples(year, 100) + (if year % 100 == 0 then 1 else 0)
  {
  }

  lemma FourCenturies(year: int)
    ensures Multiples(year + 1, 400) == Multiples(year, 400) + (if year % 400 == 0 then 1 else 0)
  {
  }

  lemma LeapInParts(year: int)
    ensures YearLength(year) == 365 + (if year % 4 == 0 then 1 else 0) - (if year % 100 == 0 then 1 else 0)
                                    + (if year % 400 == 0 then 1 else 0)
  {
    MultipleOfHundred(year);
    MultipleOfFourHundred(year);
  }

  lemma MultipleOfHundred(year: int)
    ensures year % 100 == 0 ==> year % 4 == 0
  {
    if year % 100 == 0 {
      assert year == 4 * (25 * (year / 100));
    }
  }

  lemma MultipleOfFourHundred(year: int)
    ensures year % 400 == 0 ==> year % 100 == 0
  {
    if year % 400 == 0 {
      assert year == 100 * (4 * (year / 400));
    }
  }

  function MonthLength(year: int, month: int): int {
    if month == 2 then if Leap(year) then 29 else 28
    else if month == 4 || month == 6 || month == 9 || month == 11 then 30
    else 31
  }

  /** Days of the year before a month; month 13 is the end of the year. */
  function DaysBeforeMonth(year: int, month: int): int
    requires 1 <= month <= 13
    ensures month == 13 ==> DaysBeforeMonth(year, month) == YearLength(year)
    decreases month
  {
    if month == 1 then 0
    else if month == 13 then YearLength(year)
    else DaysBeforeMonth(year, month - 1) + MonthLength(year, month - 1)
  }

  lemma {:induction false} YearIsItsMonths(year: int)
    ensures DaysBeforeMonth(year, 12) + MonthLength(year, 12) == YearLength(year)
  {
    assert DaysBeforeMonth(year, 4) == DaysBeforeMonth(year, 3) + 31
           == DaysBeforeMonth(year, 2) + MonthLength(year, 2) + 31;
    assert DaysBeforeMonth(year, 7) == DaysBeforeMonth(year, 6) + 30 == DaysBeforeMonth(year, 5) + 61;
    assert DaysBeforeMonth(year, 5) == DaysBeforeMonth(year, 4) + 30;
    assert DaysBeforeMonth(year, 10) == DaysBeforeMonth(year, 9) + 30 == DaysBeforeMonth(year, 8) + 61;
    assert DaysBeforeMonth(year, 8) == DaysBeforeMonth(year, 7) + 31;
    assert DaysBeforeMonth(year, 12) == DaysBeforeMonth(year, 11) + 30 == DaysBeforeMonth(year, 10) + 61;
  }

  /** The days before a month by the formula of the standard library's calendar: from March on, months of 31, 30, 31,
      30 and 31 days follow each other. */
  lemma MonthOffset(year: int, month: int)
    requires 1 <= month <= 12
    ensures DaysBeforeMonth(year, month) ==
            if month <= 2 then 31 * (month - 1)
            else (if Leap(year) then 60 else 59) + (153 * (month - 3) + 2) / 5
  {
    if month > 3 {
      MonthOffset(year, month - 1);
    }
  }

  predicate ValidDate(year: int, month: int, day: int) {
    1 <= month <= 12 && 1 <= day <= MonthLength(year, month)
  }

  function DayNumber(year: int, month: int, day: int): int
    requires 1 <= month <= 12
  {
    DaysBeforeYear(year) + DaysBeforeMonth(year, month) + day - 1
  }

  // ----- and back

  lemma YearBounds(year: int)
    ensures 400 * DaysBeforeYear(year) <= 146097 * year + 1000
    ensures 400 * DaysBeforeYear(year) >= 146097 * year - 400
  {
  }

  /** The year of a day. */
  function YearOf(day: int): (year: int)
    ensures DaysBeforeYear(year) <= day < DaysBeforeYear(year + 1)
  {
    var guess := 400 * day / 146097;
    GuessIsClose(day, guess);
    if DaysBeforeYear(guess) > day then guess - 1
    else if DaysBeforeYear(guess + 1) <= day then guess + 1
    else guess
  }

  lemma GuessIsClose(day: int, guess: int)
    requires guess == 400 * day / 146097
    ensures DaysBeforeYear(guess - 1) <= day < DaysBeforeYear(guess + 2)
  {
    YearBounds(guess - 1);
    YearBounds(guess + 2);
  }

  lemma {:induction false} YearsGrow(a: int, b: int)
    requires a <= b
    ensures DaysBeforeYear(a) <= DaysBeforeYear(b) && (a < b ==> DaysBeforeYear(a + 1) <= DaysBeforeYear(b))
    decreases b - a
  {
    if a < b {
      YearAddsItsDays(a);
      YearsGrow(a + 1, b);
    }
  }

  lemma YearIsUnique(day: int, year: int)
    requires DaysBeforeYear(year) <= day < DaysBeforeYear(year + 1)
    ensures YearOf(day) == year
  {
    hide DaysBeforeYear;
    var found := YearOf(day);
    if found < year {
      YearsGrow(found + 1, year);
    } else if found > year {
      YearsGrow(year + 1, found);
    }
  }

  /** The month of a day of the year, searching from January. */
  function MonthFrom(year: int, offset: int, month: int): (r: int)
    requires 1 <= month <= 12 && DaysBeforeMonth(year, month) <= offset < YearLength(year)
    ensures month <= r <= 12
    ensures DaysBeforeMonth(year, r) <= offset < DaysBeforeMonth(year, r) + MonthLength(year, r)
    decreases 12 - month
  {
    YearIsItsMonths(year);
    if offset < DaysBeforeMonth(year, month) + MonthLength(year, month) then month
    else MonthFrom(year, offset, month + 1)
  }

  lemma {:induction false} MonthsGrow(year: int, a: int, b: int)
    requires 1 <= a < b <= 12
    ensures DaysBeforeMonth(year, a) + MonthLength(year, a) <= DaysBeforeMonth(year, b)
    decreases b - a
  {
    if a + 1 < b {
      MonthsGrow(year, a + 1, b);
    }
  }

  lemma MonthIsUnique(year: int, offset: int, month: int)
    requires 1 <= month <= 12 && 0 <= offset < YearLength(year)
    requires DaysBeforeMonth(year, month) <= offset < DaysBeforeMonth(year, month) + MonthLength(year, month)
    ensures MonthFrom(year, offset, 1) == month
  {
    var found := MonthFrom(year, offset, 1);
    if found < month {
      MonthsGrow(year, found, month);
    } else if found > month {
      MonthsGrow(year, month, found);
    }
  }

  datatype Date = Date(year: int, month: int, day: int)

  function DateOf(number: int): (date: Date)
    ensures ValidDate(date.year, date.month, date.day) && DayNumber(date.year, date.month, date.day) == number
    ensures date.year == YearOf(number)
  {
    var year := YearOf(number);
    YearAddsItsDays(year);
    var offset := number - DaysBeforeYear(year);
    var month := MonthFrom(year, offset, 1);
    Date(year, month, offset - DaysBeforeMonth(year, month) + 1)
  }

  /** Day numbers and valid dates correspond one to one. */
  lemma DateOfDayNumber(year: int, month: int, day: int)
    requires ValidDate(year, month, day)
    ensures DateOf(DayNumber(year, month, day)) == Date(year, month, day)
  {
    var offset := DaysBeforeMonth(year, month) + day - 1;
    YearIsItsMonths(year);
    if month < 12 {
      MonthsGrow(year, month, 12);
    }
    YearAddsItsDays(year);
    DaysAreCounted(year, month);
    YearIsUnique(DayNumber(year, month, day), year);
    MonthIsUnique(year, offset, month);
  }

  lemma {:induction false} DaysAreCounted(year: int, month: int)
    requires 1 <= month <= 12
    ensures DaysBeforeMonth(year, month) >= 0
    decreases month
  {
    if month > 1 {
      DaysAreCounted(year, month - 1);
    }
  }

  // ----- UTC times

  datatype Utc = Utc(year: int, month: int, day: int, weekday: int, hour: int, minute: int, second: int)

  // The first of January of the years 0 and 10000; see YearZero, YearTenThousand and FirstOfJanuary.
  const FIRST := (0 - 719528) * 86400
  const END := (3652425 - 719528) * 86400

  /** Days since 1970-01-01, a Thursday. */
  function Weekday(days: int): int {
    (days + 4) % 7
  }

  /** http_utc_tm: nothing outside the years 0 to 9999. */
  function UtcOf(time: int): Option<Utc> {
    if time < FIRST || time >= END then None
    else
      var days, clock := time / SECONDS_PER_DAY, time % SECONDS_PER_DAY;
      var date := DateOf(days + EPOCH);
      Some(Utc(date.year, date.month, date.day, Weekday(days), clock / 3600, clock / 60 % 60, clock % 60))
  }

  /** http_civil_to_time_t; a leap second counts into the next minute. */
  function TimeOf(year: int, month: int, day: int, hour: int, minute: int, second: int): Option<int> {
    if year < -32767 || year > 32767 || month < 1 || month > 12 || day < 1 || day > 31 || hour < 0 || hour > 23
       || minute < 0 || minute > 59 || second < 0 || second > 60 then None
    else if day > MonthLength(year, month) then None
    else Some((DayNumber(year, month, day) - EPOCH) * SECONDS_PER_DAY + hour * 3600 + minute * 60 + second)
  }

  /** The calendar fields of a time are valid, four-digit, and give the time back. */
  lemma TimeOfUtc(time: int)
    requires UtcOf(time).Some?
    ensures var u := UtcOf(time).value;
            && 0 <= u.year <= 9999 && 1 <= u.month <= 12 && 1 <= u.day <= 31 && 0 <= u.weekday < 7
            && 0 <= u.hour < 24 && 0 <= u.minute < 60 && 0 <= u.second < 60
            && TimeOf(u.year, u.month, u.day, u.hour, u.minute, u.second) == Some(time)
  {
    hide DaysBeforeYear, DaysBeforeMonth, MonthLength, DateOf, YearOf;
    var days, clock := time / SECONDS_PER_DAY, time % SECONDS_PER_DAY;
    var date := DateOf(days + EPOCH);
    Range(time, days, clock);
    YearInRange(days + EPOCH);
    ClockSplits(clock);
    MonthLengths(date.year, date.month);
  }

  lemma Range(time: int, days: int, clock: int)
    requires FIRST <= time < END && days == time / SECONDS_PER_DAY && clock == time % SECONDS_PER_DAY
    ensures 0 <= days + EPOCH < DaysBeforeYear(10000) && 0 <= clock < SECONDS_PER_DAY
    ensures time == days * SECONDS_PER_DAY + clock
  {
    hide DaysBeforeYear, DayNumber;
    YearZero();
    YearTenThousand();
  }

  lemma FirstOfJanuary(year: int)
    ensures DayNumber(year, 1, 1) == DaysBeforeYear(year)
  {
  }

  lemma YearTenThousand()
    ensures DaysBeforeYear(10000) == 3652425
  {
    assert 10003 / 4 == 2500 && 10099 / 100 == 100 && 10399 / 400 == 25;
  }

  lemma ClockSplits(clock: int)
    requires 0 <= clock < SECONDS_PER_DAY
    ensures 0 <= clock / 3600 < 24 && 0 <= clock / 60 % 60 < 60 && 0 <= clock % 60 < 60
    ensures clock / 3600 * 3600 + clock / 60 % 60 * 60 + clock % 60 == clock
  {
    var minutes := clock / 60;
    assert clock == minutes * 60 + clock % 60;
    assert minutes / 60 == clock / 3600 && minutes == minutes / 60 * 60 + minutes % 60;
  }

  lemma ClockJoins(hour: int, minute: int, second: int)
    requires 0 <= hour < 24 && 0 <= minute < 60 && 0 <= second < 60
    ensures var clock := hour * 3600 + minute * 60 + second;
            0 <= clock < SECONDS_PER_DAY && clock / 3600 == hour && clock / 60 % 60 == minute && clock % 60 == second
  {
    var clock := hour * 3600 + minute * 60 + second;
    assert clock / 60 == hour * 60 + minute;
  }

  lemma MonthLengths(year: int, month: int)
    ensures 28 <= MonthLength(year, month) <= 31
  {
  }

  lemma YearInRange(number: int)
    requires 0 <= number < DaysBeforeYear(10000)
    ensures 0 <= YearOf(number) <= 9999
  {
    hide DaysBeforeYear;
    YearZero();
    var year := YearOf(number);
    if year < 0 {
      YearsGrow(year + 1, 0);
    } else if year > 9999 {
      YearsGrow(10000, year);
    }
  }

  /** And the other way round: valid fields come back, except that a leap second reads as the next minute's first. */
  lemma UtcOfTime(year: int, month: int, day: int, hour: int, minute: int, second: int)
    requires 0 <= year <= 9999 && second < 60 && TimeOf(year, month, day, hour, minute, second).Some?
    ensures var u := UtcOf(TimeOf(year, month, day, hour, minute, second).value);
            u.Some? && u.value.(weekday := 0) == Utc(year, month, day, 0, hour, minute, second)
  {
    hide DaysBeforeYear, DaysBeforeMonth, MonthLength, DateOf, YearOf;
    var number, clock := DayNumber(year, month, day), hour * 3600 + minute * 60 + second;
    DateOfDayNumber(year, month, day);
    DayInRange(year, month, day);
    ClockJoins(hour, minute, second);
    DayJoins(number - EPOCH, clock);
    RangeJoins(number, clock);
  }

  lemma DayJoins(days: int, clock: int)
    requires 0 <= clock < 86400
    ensures (days * 86400 + clock) / 86400 == days && (days * 86400 + clock) % 86400 == clock
  {
  }

  lemma RangeJoins(number: int, clock: int)
    requires 0 <= number < DaysBeforeYear(10000) && 0 <= clock < SECONDS_PER_DAY
    ensures FIRST <= (number - EPOCH) * SECONDS_PER_DAY + clock < END
  {
    hide DaysBeforeYear, DayNumber;
    YearZero();
    YearTenThousand();
  }

  lemma DayInRange(year: int, month: int, day: int)
    requires 0 <= year <= 9999 && ValidDate(year, month, day)
    ensures 0 <= DayNumber(year, month, day) < DaysBeforeYear(10000)
  {
    hide DaysBeforeYear, MonthLength;
    DaysAreCounted(year, month);
    YearsGrow(0, year);
    YearAddsItsDays(year);
    YearsGrow(year + 1, 10000);
    YearIsItsMonths(year);
    MonthLengths(year, 12);
    if month < 12 {
      MonthsGrow(year, month, 12);
    }
    YearZero();
  }

  lemma YearZero()
    ensures DaysBeforeYear(0) == 0
  {
  }

  lemma WeekdayOf(time: int)
    ensures UtcOf(time).Some? <==> FIRST <= time < END
    ensures UtcOf(time).Some? ==> UtcOf(time).value.weekday == Weekday(time / SECONDS_PER_DAY)
  {
    hide DateOf, Weekday;
  }

  /** The first of January 1970 was a Thursday, and the weekdays follow each other. */
  lemma WeekdaysFollow(time: int)
    requires UtcOf(time).Some?
    ensures 0 <= time < SECONDS_PER_DAY ==> UtcOf(time).value.weekday == 4
    ensures UtcOf(time + SECONDS_PER_DAY).Some? ==>
              UtcOf(time + SECONDS_PER_DAY).value.weekday == (UtcOf(time).value.weekday + 1) % 7
  {
    hide UtcOf, Weekday;
    WeekdayOf(time);
    WeekdayOf(time + SECONDS_PER_DAY);
    NextDay(time);
    NextWeekday(time / SECONDS_PER_DAY);
  }

  lemma NextDay(time: int)
    ensures (time + SECONDS_PER_DAY) / SECONDS_PER_DAY == time / SECONDS_PER_DAY + 1
    ensures 0 <= time < SECONDS_PER_DAY ==> time / SECONDS_PER_DAY == 0
  {
    DayJoins(time / SECONDS_PER_DAY + 1, time % SECONDS_PER_DAY);
    assert time + SECONDS_PER_DAY == (time / SECONDS_PER_DAY + 1) * SECONDS_PER_DAY + time % SECONDS_PER_DAY;
  }

  lemma NextWeekday(days: int)
    ensures Weekday(days + 1) == (Weekday(days) + 1) % 7 && Weekday(0) == 4
  {
  }
}
