/** Reading what was written: the parser of SetCookieParser recovers every validated cookie that
    SetCookie writes. */
module CookieRoundTrip {
  import opened CivilCalendar
  import opened HttpDate
  import opened HttpText
  import opened SetCookie
  import opened SetCookieParser
  import opened Wrappers

  // ----- numbers

  lemma {:induction false} NumberOfDecimal(n: int)
    requires n >= 0
    ensures Number(Decimal(n)) == n && AllDigits(Decimal(n))
  {
    var s := Decimal(n);
    if n < 10 {
      assert s[..0] == "";
    } else {
      NumberOfDecimal(n / 10);
      assert s[..|s| - 1] == Decimal(n / 10);
    }
  }

  lemma MaxAgeIsRead(n: int)
    requires n > 0
    ensures MaxAgeSeconds(Decimal(n)) == Some(if n > AGE_LIMIT then AGE_LIMIT else n)
  {
    NumberOfDecimal(n);
    assert IsDigit(Decimal(n)[0]);
  }

  lemma OneMoreDigit(s: string, n: nat)
    requires n < |s|
    ensures Number(s[..n + 1]) == Number(s[..n]) * 10 + DigitValue(s[n]) && Number(s[..0]) == 0
  {
    assert s[..n + 1][..n] == s[..n];
  }

  lemma NumberOfTwo(n: int)
    requires 0 <= n < 100
    ensures Number(TwoDigits(n)) == n
  {
    var s := TwoDigits(n);
    OneMoreDigit(s, 0);
    OneMoreDigit(s, 1);
    assert s[..2] == s;
  }

  lemma NumberOfFour(n: int)
    requires 0 <= n < 10000
    ensures Number(FourDigits(n)) == n
  {
    var s := FourDigits(n);
    OneMoreDigit(s, 0);
    OneMoreDigit(s, 1);
    OneMoreDigit(s, 2);
    OneMoreDigit(s, 3);
    assert s[..4] == s;
    PlaceValues(n);
  }

  // ----- dates

  lemma DigitsOf(s: string, n: nat)
    requires n <= |s| && (forall k :: 0 <= k < n ==> IsDigit(s[k])) && (n < |s| ==> !IsDigit(s[n]))
    ensures Digits(s) == n
  {
    DigitsReach(s, n);
  }

  lemma ConsumeTwo(n: int, rest: string, minimum: nat)
    requires 0 <= n < 100 && minimum <= 2 && (rest == "" || !IsDigit(rest[0]))
    ensures Consume(TwoDigits(n) + rest, minimum, 2) == Some(Consumed(n, rest))
  {
    var s := TwoDigits(n) + rest;
    DigitsOf(s, 2);
    NumberOfTwo(n);
    assert s[..2] == TwoDigits(n) && s[2..] == rest;
  }

  lemma ConsumeFour(n: int)
    requires 0 <= n < 10000
    ensures Consume(FourDigits(n), 1, 2) == None && Consume(FourDigits(n), 2, 4) == Some(Consumed(n, ""))
  {
    var s := FourDigits(n);
    DigitsOf(s, 4);
    NumberOfFour(n);
    assert s[..4] == s && s[4..] == "";
  }

  lemma ConsumeLetters(s: string, minimum: nat, maximum: nat)
    requires s != "" && !IsDigit(s[0]) && minimum > 0
    ensures Consume(s, minimum, maximum) == None && ClockOf(s) == None
  {
    DigitsOf(s, 0);
  }

  function ClockText(hour: int, minute: int, second: int): string
    requires 0 <= hour < 100 && 0 <= minute < 100 && 0 <= second < 100
  {
    TwoDigits(hour) + (":" + (TwoDigits(minute) + (":" + (TwoDigits(second) + ""))))
  }

  lemma ClockIsRead(hour: int, minute: int, second: int)
    requires 0 <= hour < 100 && 0 <= minute < 100 && 0 <= second < 100
    ensures ClockOf(ClockText(hour, minute, second)) == Some(Clock(hour, minute, second))
  {
    hide TwoDigits, Consume;
    var third := TwoDigits(second) + "";
    var second' := TwoDigits(minute) + (":" + third);
    ConsumeTwo(hour, ":" + second', 1);
    ConsumeTwo(minute, ":" + third, 1);
    ConsumeTwo(second, "", 1);
    assert (":" + second')[1..] == second' && (":" + third)[1..] == third;
  }

  lemma Differ(a: string, b: string, k: nat)
    requires |a| != |b| || (k < |a| && ToLower(a[k]) != ToLower(b[k]))
    ensures !EqualsIgnoreCase(a, b)
  {
  }

  lemma DayIsNoMonth(day: nat, k: nat)
    requires day < 7 && k <= 12
    ensures MonthNamed(DAYS[day], k) == None
    decreases 12 - k
  {
    if k < 12 {
      assert DAYS[day][..3] == DAYS[day];
      LettersDiffer(day, k);
      Differ(DAYS[day], MONTHS[k], if ToLower(DAYS[day][0]) != ToLower(MONTHS[k][0]) then 0 else 1);
      DayIsNoMonth(day, k + 1);
    }
  }

  lemma LettersDiffer(day: nat, month: nat)
    requires day < 7 && month < 12
    ensures ToLower(DAYS[day][0]) != ToLower(MONTHS[month][0]) || ToLower(DAYS[day][1]) != ToLower(MONTHS[month][1])
  {
  }

  lemma MonthNameIsRead(month: nat, k: nat)
    requires k <= month < 12
    ensures MonthNamed(MONTHS[month], k) == Some(month + 1)
    decreases 12 - k
  {
    assert MONTHS[month][..3] == MONTHS[month];
    if k < month {
      MonthLettersDiffer(k, month);
      Differ(MONTHS[month], MONTHS[k],
             if ToLower(MONTHS[k][0]) != ToLower(MONTHS[month][0]) then 0
             else if ToLower(MONTHS[k][1]) != ToLower(MONTHS[month][1]) then 1 else 2);
      MonthNameIsRead(month, k + 1);
    }
  }

  lemma MonthLettersDiffer(i: nat, j: nat)
    requires i < j < 12
    ensures ToLower(MONTHS[i][0]) != ToLower(MONTHS[j][0]) || ToLower(MONTHS[i][1]) != ToLower(MONTHS[j][1])
         || ToLower(MONTHS[i][2]) != ToLower(MONTHS[j][2])
  {
  }

  predicate Token(s: string) {
    s != "" && forall k :: 0 <= k < |s| ==> !IsDelimiter(s[k])
  }

  lemma TakeToken(token: string, rest: string, f: Found)
    requires Token(token) && rest != "" && IsDelimiter(rest[0])
    ensures TakeAll(token + rest, f) == TakeAll(rest[1..], Take(f, token))
  {
    var s := token + rest;
    assert forall k :: 0 <= k < |token| ==> !IsDelimiter(s[k]);
    TakesToken(s, f, 0, |token|);
    assert s[0..] == s && s[0..|token|] == token && s[|token|..] == rest;
  }

  lemma TakeLast(token: string, f: Found)
    requires Token(token)
    ensures TakeAll(token, f) == Take(f, token)
  {
    TakesToken(token, f, 0, |token|);
    assert token[0..] == token && token[0..|token|] == token && token[|token|..] == "";
  }

  // ----- a written date, token by token

  lemma TokensOfDate(u: Utc)
    requires Writable(u)
    ensures Token(DAYS[u.weekday]) && Token(TwoDigits(u.day)) && Token(MONTHS[u.month - 1]) && Token(FourDigits(u.year))
    ensures Token(ClockText(u.hour, u.minute, u.second)) && Token("GMT")
  {
    WordIsToken(DAYS[u.weekday]);
    WordIsToken(MONTHS[u.month - 1]);
    WordIsToken("GMT");
    var c := ClockText(u.hour, u.minute, u.second);
    assert forall k :: 0 <= k < |c| ==> IsDigit(c[k]) || c[k] == ':';
  }

  lemma WordIsToken(s: string)
    requires |s| == 3 && IsAlnum(s[0]) && IsAlnum(s[1]) && IsAlnum(s[2])
    ensures Token(s)
  {
  }

  function FromClock(u: Utc): string
    requires Writable(u)
  {
    ClockText(u.hour, u.minute, u.second) + (" " + "GMT")
  }

  function FromDay(u: Utc): string
    requires Writable(u)
  {
    TwoDigits(u.day) + (" " + (MONTHS[u.month - 1] + (" " + (FourDigits(u.year) + (" " + FromClock(u))))))
  }

  lemma FixdateInTokens(u: Utc)
    requires Writable(u)
    ensures Fixdate(u) == DAYS[u.weekday] + ("," + (" " + FromDay(u)))
  {
    hide DatePart, ClockPart, TwoDigits, FourDigits, FromClock;
    DateInTokens(u);
    ClockInTokens(u);
  }

  lemma ClockInTokens(u: Utc)
    requires Writable(u)
    ensures ClockPart(u) == " " + FromClock(u)
  {
    hide TwoDigits;
  }

  lemma DateInTokens(u: Utc)
    requires Writable(u)
    ensures forall c: string ::
              DatePart(u) + c == DAYS[u.weekday] + ("," + (" " + (TwoDigits(u.day) + (" " + (MONTHS[u.month - 1]
                                 + (" " + (FourDigits(u.year) + c)))))))
  {
    hide TwoDigits, FourDigits;
    forall c: string
      ensures DatePart(u) + c == DAYS[u.weekday] + ("," + (" " + (TwoDigits(u.day) + (" " + (MONTHS[u.month - 1]
                                 + (" " + (FourDigits(u.year) + c)))))))
    {
      Reassociate(DAYS[u.weekday], TwoDigits(u.day), MONTHS[u.month - 1], FourDigits(u.year), c);
    }
  }

  lemma Reassociate(w: string, d: string, m: string, y: string, c: string)
    requires |w| == 3 && |d| == 2 && |m| == 3 && |y| == 4
    ensures (w + ", " + d + " " + m + " " + y) + c == w + ("," + (" " + (d + (" " + (m + (" " + (y + c)))))))
  {
  }

  /** The tokens of a written date are taken for its parts. */
  lemma DateIsTaken(u: Utc)
    requires Writable(u)
    ensures TakeAll(Fixdate(u), NOTHING)
         == Found(Some(Clock(u.hour, u.minute, u.second)), Some(u.day), Some(u.month), Some(u.year))
  {
    hide TakeAll, Take, Fixdate, ClockText, TwoDigits, FourDigits, FromDay, FromClock, Token;
    TokensOfDate(u);
    FixdateInTokens(u);
    DayIsSkipped(u);
    DayAndMonthAreTaken(u);
    YearAndClockAreTaken(u);
  }

  lemma SkipSpace(s: string, f: Found)
    ensures TakeAll(" " + s, f) == TakeAll(s, f)
  {
    assert (" " + s)[1..] == s;
  }

  lemma DayIsSkipped(u: Utc)
    requires Writable(u) && Token(DAYS[u.weekday])
    ensures TakeAll(DAYS[u.weekday] + ("," + (" " + FromDay(u))), NOTHING) == TakeAll(FromDay(u), NOTHING)
  {
    hide TakeAll, FromDay, Token;
    var rest := "," + (" " + FromDay(u));
    TakeToken(DAYS[u.weekday], rest, NOTHING);
    assert rest[1..] == " " + FromDay(u);
    SkipSpace(FromDay(u), NOTHING);
    ConsumeLetters(DAYS[u.weekday], 1, 2);
    ConsumeLetters(DAYS[u.weekday], 2, 4);
    DayIsNoMonth(u.weekday, 0);
  }

  lemma DayAndMonthAreTaken(u: Utc)
    requires Writable(u) && Token(TwoDigits(u.day)) && Token(MONTHS[u.month - 1])
    ensures TakeAll(FromDay(u), NOTHING)
         == TakeAll(FourDigits(u.year) + (" " + FromClock(u)), NOTHING.(day := Some(u.day), month := Some(u.month)))
  {
    hide TakeAll, FromClock, Token, TwoDigits, FourDigits, ClockOf, Consume;
    var afterMonth := FourDigits(u.year) + (" " + FromClock(u));
    var afterDay := MONTHS[u.month - 1] + (" " + afterMonth);
    TakeToken(TwoDigits(u.day), " " + afterDay, NOTHING);
    assert (" " + afterDay)[1..] == afterDay;
    DayIsNoClock(u.day);
    var f := NOTHING.(day := Some(u.day));
    TakeToken(MONTHS[u.month - 1], " " + afterMonth, f);
    assert (" " + afterMonth)[1..] == afterMonth;
    ConsumeLetters(MONTHS[u.month - 1], 1, 2);
    MonthNameIsRead(u.month - 1, 0);
  }

  lemma DayIsNoClock(day: int)
    requires 0 <= day < 100
    ensures ClockOf(TwoDigits(day)) == None && Consume(TwoDigits(day), 1, 2) == Some(Consumed(day, ""))
  {
    hide TwoDigits, Consume;
    ConsumeTwo(day, "", 1);
    assert TwoDigits(day) + "" == TwoDigits(day);
  }

  lemma YearAndClockAreTaken(u: Utc)
    requires Writable(u) && Token(FourDigits(u.year)) && Token(ClockText(u.hour, u.minute, u.second)) && Token("GMT")
    ensures TakeAll(FourDigits(u.year) + (" " + FromClock(u)), NOTHING.(day := Some(u.day), month := Some(u.month)))
         == Found(Some(Clock(u.hour, u.minute, u.second)), Some(u.day), Some(u.month), Some(u.year))
  {
    hide TakeAll, Token, FourDigits, ClockText, Consume;
    var f := NOTHING.(day := Some(u.day), month := Some(u.month));
    TakeToken(FourDigits(u.year), " " + FromClock(u), f);
    assert (" " + FromClock(u))[1..] == FromClock(u);
    ConsumeFour(u.year);
    var g := f.(year := Some(u.year));
    TakeToken(ClockText(u.hour, u.minute, u.second), " " + "GMT", g);
    assert (" " + "GMT")[1..] == "GMT";
    ClockIsRead(u.hour, u.minute, u.second);
    TakeLast("GMT", g.(clock := Some(Clock(u.hour, u.minute, u.second))));
  }

  /** Cookie dates from the year 1601 on are read back. */
  lemma CookieDateRoundTrip(time: int)
    requires YEAR_1601 <= time < END
    ensures UtcOf(time).Some? && Writable(UtcOf(time).value) && CookieDate(Fixdate(UtcOf(time).value)) == Some(time)
  {
    hide Fixdate, TakeAll, TimeOf, UtcOf;
    InRange(time);
    TimeOfUtc(time);
    YearIsLate(time);
    DateIsTaken(UtcOf(time).value);
  }

  // ----- two-digit years

  function FromDashedDay(u: Utc): string
    requires Writable(u)
  {
    TwoDigits(u.day) + ("-" + (MONTHS[u.month - 1] + ("-" + (TwoDigits(u.year % 100) + (" " + FromClock(u))))))
  }

  /** The original cookie date, as in "Sun, 06-Nov-94 08:49:37 GMT". */
  function NetscapeDate(u: Utc): string
    requires Writable(u)
  {
    DAYS[u.weekday] + ("," + (" " + FromDashedDay(u)))
  }

  lemma ConsumeShortYear(n: int)
    requires 0 <= n < 100
    ensures Consume(TwoDigits(n), 2, 4) == Some(Consumed(n, "")) && ClockOf(TwoDigits(n)) == None
    ensures Token(TwoDigits(n))
  {
    var s := TwoDigits(n);
    DigitsOf(s, 2);
    NumberOfTwo(n);
    assert s[..2] == s && s[2..] == "";
    DayIsNoClock(n);
  }

  lemma DashedDayIsSkipped(u: Utc)
    requires Writable(u) && Token(DAYS[u.weekday])
    ensures TakeAll(NetscapeDate(u), NOTHING) == TakeAll(FromDashedDay(u), NOTHING)
  {
    hide TakeAll, FromDashedDay, Token;
    var rest := "," + (" " + FromDashedDay(u));
    TakeToken(DAYS[u.weekday], rest, NOTHING);
    assert rest[1..] == " " + FromDashedDay(u);
    SkipSpace(FromDashedDay(u), NOTHING);
    ConsumeLetters(DAYS[u.weekday], 1, 2);
    ConsumeLetters(DAYS[u.weekday], 2, 4);
    DayIsNoMonth(u.weekday, 0);
  }

  lemma DashedDayAndMonthAreTaken(u: Utc)
    requires Writable(u) && Token(TwoDigits(u.day)) && Token(MONTHS[u.month - 1])
    ensures TakeAll(FromDashedDay(u), NOTHING)
         == TakeAll(TwoDigits(u.year % 100) + (" " + FromClock(u)),
                    NOTHING.(day := Some(u.day), month := Some(u.month)))
  {
    hide TakeAll, FromClock, Token, TwoDigits, ClockOf, Consume;
    var afterMonth := TwoDigits(u.year % 100) + (" " + FromClock(u));
    var afterDay := MONTHS[u.month - 1] + ("-" + afterMonth);
    TakeToken(TwoDigits(u.day), "-" + afterDay, NOTHING);
    assert ("-" + afterDay)[1..] == afterDay;
    DayIsNoClock(u.day);
    var f := NOTHING.(day := Some(u.day));
    TakeToken(MONTHS[u.month - 1], "-" + afterMonth, f);
    assert ("-" + afterMonth)[1..] == afterMonth;
    ConsumeLetters(MONTHS[u.month - 1], 1, 2);
    MonthNameIsRead(u.month - 1, 0);
  }

  lemma ShortYearAndClockAreTaken(u: Utc)
    requires Writable(u) && Token(ClockText(u.hour, u.minute, u.second)) && Token("GMT")
    ensures TakeAll(TwoDigits(u.year % 100) + (" " + FromClock(u)),
                    NOTHING.(day := Some(u.day), month := Some(u.month)))
         == Found(Some(Clock(u.hour, u.minute, u.second)), Some(u.day), Some(u.month), Some(u.year % 100))
  {
    hide TakeAll, Token, TwoDigits, ClockText, Consume, ClockOf;
    var f := NOTHING.(day := Some(u.day), month := Some(u.month));
    ConsumeShortYear(u.year % 100);
    TakeToken(TwoDigits(u.year % 100), " " + FromClock(u), f);
    assert (" " + FromClock(u))[1..] == FromClock(u);
    var g := f.(year := Some(u.year % 100));
    TakeToken(ClockText(u.hour, u.minute, u.second), " " + "GMT", g);
    assert (" " + "GMT")[1..] == "GMT";
    ClockIsRead(u.hour, u.minute, u.second);
    TakeLast("GMT", g.(clock := Some(Clock(u.hour, u.minute, u.second))));
  }

  /** The two-digit spelling of the years 1970 to 2069 is read back, a year below 70 as one of this century. */
  lemma ShortYearRoundTrip(time: int)
    requires UtcOf(time).Some? && 1970 <= UtcOf(time).value.year <= 2069
    ensures Writable(UtcOf(time).value) && CookieDate(NetscapeDate(UtcOf(time).value)) == Some(time)
  {
    hide TakeAll, TimeOf, UtcOf, NetscapeDate, FromDashedDay, FromClock, Token, TwoDigits, ClockText;
    var u := UtcOf(time).value;
    TimeOfUtc(time);
    TokensOfDate(u);
    DashedDayIsSkipped(u);
    DashedDayAndMonthAreTaken(u);
    ShortYearAndClockAreTaken(u);
    assert u.year == if u.year % 100 >= 70 then u.year % 100 + 1900 else u.year % 100 + 2000;
  }

  lemma WindowOfYear(year: int)
    requires 0 <= year <= 9999
    ensures 0 <= FullYear(year) <= 9999
    ensures year < 100 ==> 1970 <= FullYear(year) <= 2069 && FullYear(year) % 100 == year
    ensures year >= 100 ==> FullYear(year) == year
  {
  }

  /** A date is only ever read with its parts as they are: a time of that year, month and day, hour, minute and second,
      not before the year 1601, and no leap second. */
  lemma DateHasItsParts(f: Found)
    requires DateOfParts(f).Some? && f.month.Some? && 1 <= f.month.value <= 12
    requires f.clock.Some? && f.clock.value.hour >= 0 && f.clock.value.minute >= 0 && f.clock.value.second >= 0
    requires f.year.Some? && 0 <= f.year.value <= 9999
    ensures UtcOf(DateOfParts(f).value).Some?
    ensures var u := UtcOf(DateOfParts(f).value).value;
            && Some(u.month) == f.month && Some(u.day) == f.day && Some(Clock(u.hour, u.minute, u.second)) == f.clock
            && u.year >= 1601 && (if f.year.value < 100 then 1970 <= u.year <= 2069 && u.year % 100 == f.year.value
                                  else u.year == f.year.value)
  {
    hide UtcOf, TimeOf, FullYear;
    var year, c := FullYear(f.year.value), f.clock.value;
    WindowOfYear(f.year.value);
    UtcOfTime(year, f.month.value, f.day.value, c.hour, c.minute, c.second);
  }

  // ----- the order of the parts

  function FromAsctimeDay(u: Utc): string
    requires Writable(u)
  {
    DayField(u.day) + (" " + (ClockText(u.hour, u.minute, u.second) + (" " + FourDigits(u.year))))
  }

  lemma AsctimeInTokens(u: Utc)
    requires Writable(u)
    ensures Asctime(u) == DAYS[u.weekday] + (" " + (MONTHS[u.month - 1] + (" " + FromAsctimeDay(u))))
  {
    hide TwoDigits, FourDigits, DayField;
    assert |DAYS[u.weekday]| == 3 && |MONTHS[u.month - 1]| == 3;
    Regroup(AsctimeDate(u), DAYS[u.weekday], MONTHS[u.month - 1], DayField(u.day), AsctimeClock(u));
    RegroupClock(TwoDigits(u.hour), TwoDigits(u.minute), TwoDigits(u.second), FourDigits(u.year));
    assert DayField(u.day) + (" " + AsctimeClock(u)) == FromAsctimeDay(u);
  }

  lemma Regroup(front: string, w: string, m: string, d: string, c: string)
    requires front == w + " " + m + " " + d + " "
    ensures front + c == w + (" " + (m + (" " + (d + (" " + c)))))
  {
  }

  lemma RegroupClock(h: string, m: string, s: string, y: string)
    ensures h + ":" + m + ":" + s + " " + y == (h + (":" + (m + (":" + (s + ""))))) + (" " + y)
  {
  }

  lemma AsctimeMonthIsTaken(u: Utc)
    requires Writable(u) && Token(DAYS[u.weekday]) && Token(MONTHS[u.month - 1])
    ensures TakeAll(Asctime(u), NOTHING) == TakeAll(FromAsctimeDay(u), NOTHING.(month := Some(u.month)))
  {
    hide TakeAll, FromAsctimeDay, Token, Asctime;
    AsctimeInTokens(u);
    var afterMonth := FromAsctimeDay(u);
    var afterDay := MONTHS[u.month - 1] + (" " + afterMonth);
    TakeToken(DAYS[u.weekday], " " + afterDay, NOTHING);
    assert (" " + afterDay)[1..] == afterDay;
    ConsumeLetters(DAYS[u.weekday], 1, 2);
    ConsumeLetters(DAYS[u.weekday], 2, 4);
    DayIsNoMonth(u.weekday, 0);
    TakeToken(MONTHS[u.month - 1], " " + afterMonth, NOTHING);
    assert (" " + afterMonth)[1..] == afterMonth;
    ConsumeLetters(MONTHS[u.month - 1], 1, 2);
    MonthNameIsRead(u.month - 1, 0);
  }

  lemma OneDigit(day: int)
    requires 1 <= day < 10
    ensures Token([Digit(day)]) && Consume([Digit(day)], 1, 2) == Some(Consumed(day, ""))
    ensures ClockOf([Digit(day)]) == None
  {
    var s := [Digit(day)];
    assert IsDigit(s[0]) && DigitValue(s[0]) == day;
    DigitsOf(s, 1);
    assert s[..1] == s && s[1..] == "" && s[..0] == "" && Number(s) == day;
  }

  lemma AsctimeDayIsTaken(u: Utc, f: Found)
    requires Writable(u) && f.clock == None && f.day == None && Token(TwoDigits(u.day))
    ensures TakeAll(FromAsctimeDay(u), f)
         == TakeAll(ClockText(u.hour, u.minute, u.second) + (" " + FourDigits(u.year)), f.(day := Some(u.day)))
  {
    hide TakeAll, Token, TwoDigits, FourDigits, ClockText, ClockOf, Consume;
    var rest := ClockText(u.hour, u.minute, u.second) + (" " + FourDigits(u.year));
    assert (" " + rest)[1..] == rest;
    if u.day < 10 {
      OneDigit(u.day);
      assert FromAsctimeDay(u) == " " + ([Digit(u.day)] + (" " + rest));
      SkipSpace([Digit(u.day)] + (" " + rest), f);
      TakeToken([Digit(u.day)], " " + rest, f);
    } else {
      DayIsNoClock(u.day);
      TakeToken(TwoDigits(u.day), " " + rest, f);
    }
  }

  lemma AsctimeClockIsTaken(u: Utc, f: Found)
    requires Writable(u) && f.clock == None && f.day.Some? && f.month.Some? && f.year == None
    requires Token(FourDigits(u.year)) && Token(ClockText(u.hour, u.minute, u.second))
    ensures TakeAll(ClockText(u.hour, u.minute, u.second) + (" " + FourDigits(u.year)), f)
         == f.(clock := Some(Clock(u.hour, u.minute, u.second)), year := Some(u.year))
  {
    hide TakeAll, Token, FourDigits, ClockText, Consume, ClockOf;
    TakeToken(ClockText(u.hour, u.minute, u.second), " " + FourDigits(u.year), f);
    assert (" " + FourDigits(u.year))[1..] == FourDigits(u.year);
    ClockIsRead(u.hour, u.minute, u.second);
    ConsumeFour(u.year);
    TakeLast(FourDigits(u.year), f.(clock := Some(Clock(u.hour, u.minute, u.second))));
  }

  /** The parts may come in another order, and the day in one digit: the asctime spelling is read as well. */
  lemma AsctimeCookieRoundTrip(time: int)
    requires YEAR_1601 <= time < END
    ensures UtcOf(time).Some? && Writable(UtcOf(time).value) && CookieDate(Asctime(UtcOf(time).value)) == Some(time)
  {
    hide Asctime, TakeAll, TimeOf, UtcOf, TwoDigits, FourDigits, ClockText, Token, FromAsctimeDay;
    InRange(time);
    TimeOfUtc(time);
    YearIsLate(time);
    var u := UtcOf(time).value;
    TokensOfDate(u);
    AsctimeMonthIsTaken(u);
    AsctimeDayIsTaken(u, NOTHING.(month := Some(u.month)));
    AsctimeClockIsTaken(u, NOTHING.(month := Some(u.month), day := Some(u.day)));
  }

  lemma InRange(time: int)
    requires FIRST <= time < END
    ensures UtcOf(time).Some?
  {
  }

  lemma YearIsLate(time: int)
    requires YEAR_1601 <= time < END && UtcOf(time).Some?
    ensures UtcOf(time).value.year >= 1601
  {
    hide DaysBeforeYear;
    var number := time / SECONDS_PER_DAY + EPOCH;
    Year1601();
    if YearOf(number) < 1601 {
      YearsGrow(YearOf(number) + 1, 1601);
    }
  }

  lemma Year1601()
    ensures DaysBeforeYear(1601) == 584754
  {
    assert 1604 / 4 == 401 && 1700 / 100 == 17 && 2000 / 400 == 5;
  }

  // ----- attributes

  /** Printable, and no semicolon. */
  predicate Clean(s: string) {
    forall k :: 0 <= k < |s| ==> ' ' <= s[k] <= '~' && s[k] != ';'
  }

  lemma CleanHasNoControl(s: string)
    requires Clean(s)
    ensures !HasControl(s)
  {
  }

  lemma TrimSpace(s: string)
    requires s != "" && Tight(s)
    ensures Trim(" " + s) == s
  {
    assert (" " + s)[1..] == s;
    TrimIsTight(s);
  }

  /** " Name=argument" comes apart into its two sides. */
  lemma SplitNamed(name: string, argument: string)
    requires name != "" && Tight(name) && Tight(argument) && forall k :: 0 <= k < |name| ==> name[k] != '='
    ensures SplitAttribute(" " + (name + "=" + argument)) == Split(name, argument)
  {
    var s := " " + (name + "=" + argument);
    var n := 1 + |name|;
    assert s[n] == '=' && forall k :: 1 <= k < n ==> s[k] == name[k - 1];
    assert Find(s, '=', 0) == n;
    assert s[..n] == " " + name && s[n + 1..] == argument;
    TrimSpace(name);
    TrimIsTight(argument);
  }

  lemma SplitFlag(name: string)
    requires name != "" && Tight(name) && forall k :: 0 <= k < |name| ==> name[k] != '='
    ensures SplitAttribute(" " + name) == Split(name, "")
  {
    var s := " " + name;
    assert forall k :: 1 <= k < |s| ==> s[k] == name[k - 1];
    assert Find(s, '=', 0) == |s|;
    TrimSpace(name);
  }

  /** What the parser knows after the first n attributes. */
  function Read(name: string, value: string, o: Options, n: nat): View {
    View(PrefixText(o.prefix) + name, value,
         if n >= 1 && o.path != "" && o.path[0] == '/' then o.path else "",
         if n >= 2 then o.domain else "",
         if n >= 4 then ExpiresTime(o) else None,
         if n >= 3 && o.maxAge.Some? && o.maxAge.value > 0
         then Some(if o.maxAge.value > AGE_LIMIT then AGE_LIMIT else o.maxAge.value) else None,
         if n >= 7 then o.sameSite else None,
         n >= 6 && o.secure, n >= 5 && o.httpOnly, n >= 9 && o.partitioned)
  }

  /** The argument of an attribute. */
  function Argument(o: Options, n: nat): string {
    match n
    case 1 => o.path
    case 2 => o.domain
    case 3 => MaxAgeText(o)
    case 4 => ExpiresText(o)
    case 7 => SameSiteText(o.sameSite)
    case 8 => PriorityText(o.priority)
    case _ => ""
  }

  function Name(n: nat): string {
    match n
    case 1 => "Path"
    case 2 => "Domain"
    case 3 => "Max-Age"
    case 4 => "Expires"
    case 5 => "HttpOnly"
    case 6 => "Secure"
    case 7 => "SameSite"
    case 8 => "Priority"
    case _ => "Partitioned"
  }

  lemma NamesArePlain(n: nat)
    requires 1 <= n <= 9
    ensures Name(n) != "" && Tight(Name(n)) && Clean(Name(n)) && forall k :: 0 <= k < |Name(n)| ==> Name(n)[k] != '='
  {
  }

  predicate IsFlag(n: nat) {
    n == 5 || n == 6 || n == 9
  }

  lemma AttributeInParts(o: Options, n: nat)
    requires 1 <= n <= 9
    ensures Attribute(o, n) == if IsFlag(n) then Name(n) else Name(n) + "=" + Argument(o, n)
    ensures IsFlag(n) ==> Argument(o, n) == ""
  {
    if n == 1 {
      assert "Path" + "=" == "Path=";
    } else if n == 2 {
      assert "Domain" + "=" == "Domain=";
    } else if n == 3 {
      assert "Max-Age" + "=" == "Max-Age=";
    } else if n == 4 {
      assert "Expires" + "=" == "Expires=";
    } else if n == 7 {
      assert "SameSite" + "=" == "SameSite=";
    } else if n == 8 {
      assert "Priority" + "=" == "Priority=";
    }
  }

  lemma AttributeIsSplit(o: Options, n: nat)
    requires 1 <= n <= 9 && Tight(Argument(o, n))
    ensures SplitAttribute(" " + Attribute(o, n)) == Split(Name(n), Argument(o, n))
  {
    hide SplitAttribute, Name, Argument, Attribute;
    NamesArePlain(n);
    AttributeInParts(o, n);
    if IsFlag(n) {
      SplitFlag(Name(n));
    } else {
      SplitNamed(Name(n), Argument(o, n));
    }
  }

  lemma DecimalIsPlain(n: int)
    requires n >= 0
    ensures Clean(Decimal(n)) && Tight(Decimal(n))
  {
    NumberOfDecimal(n);
    assert IsDigit(Decimal(n)[0]) && IsDigit(Decimal(n)[|Decimal(n)| - 1]);
  }

  lemma FixdateIsPlain(u: Utc)
    requires Writable(u)
    ensures Clean(Fixdate(u)) && Tight(Fixdate(u))
  {
    hide DatePart, ClockPart;
    FixdateIsTight(u);
    TrimIsTight(Fixdate(u));
    DateIsClean(u);
    ClockIsClean(u);
  }

  lemma DateIsClean(u: Utc)
    requires Writable(u)
    ensures Clean(DatePart(u))
  {
    assert Clean(DAYS[u.weekday]) && Clean(MONTHS[u.month - 1]);
    assert Clean(TwoDigits(u.day)) && Clean(FourDigits(u.year));
  }

  lemma ClockIsClean(u: Utc)
    requires Writable(u)
    ensures Clean(ClockPart(u))
  {
    assert Clean(TwoDigits(u.hour)) && Clean(TwoDigits(u.minute)) && Clean(TwoDigits(u.second));
  }

  function Power(k: nat): int {
    if k == 0 then 1 else 10 * Power(k - 1)
  }

  lemma {:induction false} DecimalLength(n: int, k: nat)
    requires 0 <= n < Power(k) && k > 0
    ensures |Decimal(n)| <= k
  {
    if n >= 10 {
      assert Power(1) == 10 * Power(0);
      DecimalLength(n / 10, k - 1);
    }
  }

  lemma Int64IsShort(n: Int64)
    requires n >= 0
    ensures |Decimal(n)| <= 20
  {
    hide Decimal;
    TenToTheTwenty();
    DecimalLength(n, 20);
  }

  lemma TenToTheTwenty()
    ensures Power(20) == 1_0000_0000_0000_0000_0000
  {
    assert Power(4) == 1_0000;
    assert Power(8) == 1_0000_0000;
    assert Power(12) == 1_0000_0000_0000;
    assert Power(16) == 1_0000_0000_0000_0000;
  }

  /** The arguments of a validated cookie are printable, short, and have no whitespace at their ends. */
  lemma ArgumentIsPlain(name: string, value: string, o: Options, n: nat)
    requires ValidCookie(name, value, o) && Datable(o) && 1 <= n <= 9
    ensures Clean(Argument(o, n)) && Tight(Argument(o, n)) && |Argument(o, n)| <= MAX_ATTRIBUTE
  {
    hide ValidName, ValidValue, Decimal, Fixdate, ValidDomain;
    if n == 1 {
      TrimIsTight(o.path);
    } else if n == 2 {
      DomainIsClean(o.domain);
    } else if n == 3 {
      if o.maxAge.Some? && o.maxAge.value > 0 {
        DecimalIsPlain(o.maxAge.value);
        Int64IsShort(o.maxAge.value);
      }
    } else if n == 4 {
      if ExpiresTime(o).Some? {
        TextOfTime(o);
        FixdateIsPlain(UtcOf(ExpiresTime(o).value).value);
      }
    }
  }

  lemma DomainIsClean(domain: string)
    requires ValidDomain(domain)
    ensures Clean(domain) && Tight(domain) && |domain| <= 253
    ensures domain != "" ==> domain[0] != '.'
  {
    if domain != "" {
      DomainIsPlain(domain, 0, false);
    }
  }

  // ----- one attribute after another

  lemma DateIsRead(o: Options)
    requires Datable(o) && ExpiresTime(o).Some? && (o.expires.Some? ==> o.expires.value.Floor >= YEAR_1601)
    ensures CookieDate(ExpiresText(o)) == ExpiresTime(o)
  {
    hide CookieDate, Fixdate;
    TextOfTime(o);
    CookieDateRoundTrip(ExpiresTime(o).value);
  }

  /** Which of its branches the parser takes for the names that the writer writes. */
  lemma TextIsApplied(v: View, x: string)
    ensures Apply(v, Split("Path", x)) == v.(path := if x == "" || x[0] != '/' then "" else x)
    ensures x != "" && x[0] != '.' ==> Apply(v, Split("Domain", x)) == v.(domain := x)
    ensures MaxAgeSeconds(x).Some? ==> Apply(v, Split("Max-Age", x)) == v.(maxAge := MaxAgeSeconds(x))
    ensures CookieDate(x).Some? ==> Apply(v, Split("Expires", x)) == v.(expires := CookieDate(x))
  {
    hide CookieDate, MaxAgeSeconds;
    NamesDiffer();
  }

  lemma FlagIsApplied(v: View, x: string)
    ensures Apply(v, Split("HttpOnly", x)) == v.(httpOnly := true)
    ensures Apply(v, Split("Secure", x)) == v.(secure := true)
    ensures Apply(v, Split("SameSite", x)) == v.(sameSite := SameSiteOf(x))
    ensures Apply(v, Split("Priority", x)) == v
    ensures Apply(v, Split("Partitioned", x)) == v.(partitioned := true)
  {
    hide CookieDate, MaxAgeSeconds, SameSiteOf;
    NamesDiffer();
  }

  lemma SameSiteIsRead(s: SameSite)
    ensures SameSiteOf(SameSiteText(Some(s))) == Some(s)
  {
    Differ("None", "Strict", 0);
    Differ("Lax", "Strict", 0);
    Differ("None", "Lax", 0);
  }

  /** Reading the n-th attribute adds what it says. */
  lemma AttributeIsApplied(name: string, value: string, o: Options, n: nat)
    requires ValidCookie(name, value, o) && Datable(o) && 1 <= n <= 9 && Present(o, n)
    ensures Apply(Read(name, value, o, n - 1), Split(Name(n), Argument(o, n))) == Read(name, value, o, n)
  {
    hide ValidName, ValidValue, ValidPath, ValidDomain, CookieDate, MaxAgeSeconds, Decimal, ExpiresText, Apply,
         SameSiteOf;
    var v, x := Read(name, value, o, n - 1), Argument(o, n);
    TextIsApplied(v, x);
    FlagIsApplied(v, x);
    MaxAgeHasText(o);
    if n == 2 {
      DomainIsClean(o.domain);
    } else if n == 3 {
      MaxAgeIsRead(o.maxAge.value);
    } else if n == 4 {
      DatableHasText(o);
      DateIsRead(o);
    } else if n == 7 {
      SameSiteIsRead(o.sameSite.value);
    }
  }

  lemma NamesDiffer()
    ensures !EqualsIgnoreCase("Secure", "Domain") && !EqualsIgnoreCase("Max-Age", "Expires")
    ensures !EqualsIgnoreCase("HttpOnly", "SameSite") && !EqualsIgnoreCase("Priority", "SameSite")
    ensures !EqualsIgnoreCase("Priority", "HttpOnly")
  {
    Differ("Secure", "Domain", 0);
    Differ("Max-Age", "Expires", 0);
    Differ("HttpOnly", "SameSite", 0);
    Differ("Priority", "SameSite", 0);
    Differ("Priority", "HttpOnly", 0);
  }

  /** An attribute that is not written leaves nothing to read. */
  lemma AbsentIsDefault(name: string, value: string, o: Options, n: nat)
    requires ValidCookie(name, value, o) && Datable(o) && 1 <= n <= 9 && !Present(o, n)
    ensures Read(name, value, o, n) == Read(name, value, o, n - 1)
  {
    hide ValidName, ValidValue, ValidPath, ValidDomain, Decimal, ExpiresText;
    if n == 3 {
      MaxAgeHasText(o);
    } else if n == 4 {
      DatableHasText(o);
    }
  }

  /** The attributes of a list, one by one. */
  function ReadList(v: View, attributes: seq<string>): Option<View>
    decreases |attributes|
  {
    if attributes == [] then Some(v)
    else
      var next := ApplyPart(v, " " + attributes[0]);
      if next == None then None else ReadList(next.value, attributes[1..])
  }

  lemma {:induction false} ReadListAppends(v: View, a: seq<string>, b: seq<string>)
    requires ReadList(v, a).Some?
    ensures ReadList(v, a + b) == ReadList(ReadList(v, a).value, b)
    decreases |a|
  {
    hide ApplyPart;
    if a == [] {
      assert [] + b == b;
    } else {
      assert (a + b)[1..] == a[1..] + b;
      ReadListAppends(ApplyPart(v, " " + a[0]).value, a[1..], b);
    }
  }

  lemma {:induction false} AttributesAreRead(name: string, value: string, o: Options, n: nat)
    requires ValidCookie(name, value, o) && Datable(o) && n <= 9
    ensures ReadList(Read(name, value, o, 0), Attributes(o, n)) == Some(Read(name, value, o, n))
    decreases n
  {
    hide ValidCookie, Datable, Attribute, Present, Read, ApplyPart;
    if n > 0 {
      AttributesAreRead(name, value, o, n - 1);
      var more := If(Present(o, n), Attribute(o, n));
      ReadListAppends(Read(name, value, o, 0), Attributes(o, n - 1), more);
      OneIsRead(name, value, o, n);
    }
  }

  lemma OneIsRead(name: string, value: string, o: Options, n: nat)
    requires ValidCookie(name, value, o) && Datable(o) && 1 <= n <= 9
    ensures ReadList(Read(name, value, o, n - 1), If(Present(o, n), Attribute(o, n))) == Some(Read(name, value, o, n))
  {
    hide ValidCookie, Datable, Attribute, Present, Read, Apply, SplitAttribute, Name, Argument;
    if Present(o, n) {
      ArgumentIsPlain(name, value, o, n);
      AttributeIsSplit(o, n);
      NamesArePlain(n);
      CleanHasNoControl(Name(n));
      CleanHasNoControl(Argument(o, n));
      AttributeIsApplied(name, value, o, n);
      assert [Attribute(o, n)][1..] == [];
    } else {
      AbsentIsDefault(name, value, o, n);
    }
  }

  // ----- the whole field value

  predicate AllClean(attributes: seq<string>) {
    forall k :: 0 <= k < |attributes| ==> Clean(attributes[k])
  }

  lemma FindAfter(s: string, c: char, rest: string)
    requires (forall k :: 0 <= k < |s| ==> s[k] != c) && (rest == "" || rest[0] == c)
    ensures Find(s + rest, c, 0) == |s|
  {
    var i := Find(s + rest, c, 0);
    assert forall k :: 0 <= k < |s| ==> (s + rest)[k] == s[k];
    assert rest != "" ==> (s + rest)[|s|] == rest[0];
  }

  lemma FirstPartFirst(v: View, part: string, rest: string)
    requires part != "" && Clean(part) && (rest == "" || rest[0] == ';')
    ensures ApplyAll(v, part + rest) ==
            var next := ApplyPart(v, part);
            if next == None then None else if rest == "" then next else ApplyAll(next.value, rest[1..])
  {
    hide ApplyPart, Find;
    FindAfter(part, ';', rest);
    assert (part + rest)[..|part|] == part;
    assert rest != "" ==> (part + rest)[|part| + 1..] == rest[1..];
  }

  lemma {:induction false} ListIsRead(v: View, attributes: seq<string>)
    requires AllClean(attributes) && attributes != []
    ensures ApplyAll(v, Listed(attributes)[1..]) == ReadList(v, attributes)
    decreases |attributes|
  {
    hide ApplyPart, ApplyAll;
    var part, rest := " " + attributes[0], Listed(attributes[1..]);
    assert Listed(attributes)[1..] == part + rest;
    assert Clean(attributes[0]) && Clean(part);
    FirstPartFirst(v, part, rest);
    var next := ApplyPart(v, part);
    if attributes[1..] != [] && next.Some? {
      ListIsRead(next.value, attributes[1..]);
    }
  }

  lemma PairParses(name: string, value: string)
    requires Clean(name) && Tight(name) && name != "" && Clean(value) && Tight(value)
    requires (forall k :: 0 <= k < |name| ==> name[k] != '=') && |name| + |value| <= MAX_NAME_VALUE
    ensures PairOf(name + "=" + value) == Some(EMPTY.(name := name, value := value))
  {
    hide Find, Trim, Tight, Clean, HasControl;
    var pair := name + "=" + value;
    FindAfter(name, '=', "=" + value);
    assert pair == name + ("=" + value);
    assert pair[..|name|] == name && pair[|name| + 1..] == value;
    TrimIsTight(name);
    TrimIsTight(value);
    CleanHasNoControl(name);
    CleanHasNoControl(value);
  }

  lemma PairIsClean(name: string, value: string)
    requires Clean(name) && Clean(value)
    ensures Clean(name + "=" + value)
  {
  }

  lemma PairIsRead(name: string, value: string, o: Options)
    requires ValidCookie(name, value, o)
    ensures PairOf(Pair(name, value, o)) == Some(Read(name, value, o, 0)) && Clean(Pair(name, value, o))
  {
    hide ValidName, ValidValue, ValidPath, ValidDomain, PrefixMet, PrefixText, Read, PairOf, Clean, Tight;
    NameIsPlain(name, o);
    ValueIsPlain(value);
    PairParses(PrefixText(o.prefix) + name, value);
    PairIsClean(PrefixText(o.prefix) + name, value);
    NothingRead(name, value, o);
  }

  lemma NothingRead(name: string, value: string, o: Options)
    ensures Read(name, value, o, 0) == EMPTY.(name := PrefixText(o.prefix) + name, value := value)
  {
  }

  lemma NameIsPlain(name: string, o: Options)
    requires ValidName(name)
    ensures var wireName := PrefixText(o.prefix) + name;
            Clean(wireName) && Tight(wireName) && wireName != ""
            && forall k :: 0 <= k < |wireName| ==> wireName[k] != '='
  {
    assert forall k :: 0 <= k < |name| ==> IsTokenChar(name[k]) && name[k] != ' ' && name[k] != '\t';
  }

  lemma ValueIsPlain(value: string)
    requires ValidValue(value)
    ensures Clean(value) && Tight(value)
  {
    if |value| >= 2 && value[0] == '"' && value[|value| - 1] == '"' {
      var octets := value[1..|value| - 1];
      forall k | 0 < k < |value| - 1 ensures IsCookieOctet(value[k]) {
        assert value[k] == octets[k - 1];
      }
    } else {
      forall k | 0 <= k < |value| ensures IsCookieOctet(value[k]) {
      }
    }
  }

  lemma {:induction false} AttributesAreClean(name: string, value: string, o: Options, n: nat)
    requires ValidCookie(name, value, o) && Datable(o) && n <= 9
    ensures AllClean(Attributes(o, n))
    decreases n
  {
    hide ValidCookie, Datable, Attribute, Present, Name, Argument;
    if n > 0 {
      AttributesAreClean(name, value, o, n - 1);
      ArgumentIsPlain(name, value, o, n);
      NamesArePlain(n);
      AttributeInParts(o, n);
    }
  }

  /** What the user agent learns: the path only if it is absolute, and a lifetime of at most 400 days. */
  function Expected(name: string, value: string, o: Options): View {
    View(PrefixText(o.prefix) + name, value,
         if o.path == "" || o.path[0] != '/' then "" else o.path,
         o.domain,
         ExpiresTime(o),
         if o.maxAge == None || o.maxAge.value <= 0 then None
         else if o.maxAge.value > AGE_LIMIT then Some(AGE_LIMIT)
         else Some(o.maxAge.value),
         o.sameSite, o.secure, o.httpOnly, o.partitioned)
  }

  lemma AllIsRead(name: string, value: string, o: Options)
    ensures Read(name, value, o, 9) == Expected(name, value, o)
  {
  }

  /** Every validated cookie is recovered from what the writer writes. */
  lemma CookieIsRecovered(name: string, value: string, o: Options)
    requires ValidCookie(name, value, o) && Datable(o)
    ensures Parse(Wire(name, value, o)) == Some(Expected(name, value, o))
  {
    hide ValidCookie, Datable, Attributes, Read, PairOf, Pair, ApplyAll, ReadList;
    var pair, attributes := Pair(name, value, o), Attributes(o, 9);
    var text := Wire(name, value, o);
    AllIsRead(name, value, o);
    PairIsRead(name, value, o);
    AttributesAreClean(name, value, o, 9);
    AttributesAreRead(name, value, o, 9);
    FindAfter(pair, ';', Listed(attributes));
    assert text[..|pair|] == pair;
    if attributes == [] {
      EmptyList(Read(name, value, o, 0));
      assert text == pair;
    } else {
      assert text[|pair| + 1..] == Listed(attributes)[1..];
      ListIsRead(Read(name, value, o, 0), attributes);
    }
  }

  lemma EmptyList(v: View)
    ensures ReadList(v, []) == Some(v)
  {
  }

  /** The Path attribute survives iff it is empty or absolute. */
  lemma PathIsRecoveredIffAbsolute(name: string, value: string, o: Options)
    requires ValidCookie(name, value, o) && Datable(o)
    ensures Parse(Wire(name, value, o)).Some?
    ensures Parse(Wire(name, value, o)).value.path == o.path <==> o.path == "" || o.path[0] == '/'
  {
    hide ValidCookie, Datable, Wire, Parse;
    CookieIsRecovered(name, value, o);
  }

  const RELATIVE_PATH: Options := Options("a", "", None, None, None, None, None, false, false, false)

  /** The writer accepts a relative path and the parser does not return it. */
  lemma RelativePathIsLost()
    ensures ValidCookie("n", "", RELATIVE_PATH) && Datable(RELATIVE_PATH)
    ensures Parse(Wire("n", "", RELATIVE_PATH)).Some?
    ensures Parse(Wire("n", "", RELATIVE_PATH)).value.path != RELATIVE_PATH.path
  {
    hide Wire, Parse;
    RelativePathIsValid();
    PathIsRecoveredIffAbsolute("n", "", RELATIVE_PATH);
  }

  lemma RelativePathIsValid()
    ensures ValidCookie("n", "", RELATIVE_PATH) && Datable(RELATIVE_PATH)
  {
    assert Trim("a") == "a";
  }
}
