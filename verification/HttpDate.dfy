/** HTTP dates (ruvia-http/src/field/http_date.cpp): the IMF-fixdate writer and the three formats
    of section 5.6.7 of RFC 9110 on the reading side. */
module HttpDate {
  import opened CivilCalendar
  import opened HttpText
  import opened Wrappers

  const MONTHS: seq<string> := ["Jan", "Feb", "Mar", "Apr", "May", "Jun", "Jul", "Aug", "Sep", "Oct", "Nov", "Dec"]
  const DAYS: seq<string> := ["Sun", "Mon", "Tue", "Wed", "Thu", "Fri", "Sat"]
  const LONG_DAYS: seq<string> := ["Monday", "Tuesday", "Wednesday", "Thursday", "Friday", "Saturday", "Sunday"]

  // ----- writing

  predicate Writable(u: Utc) {
    && 0 <= u.year <= 9999 && 1 <= u.month <= 12 && 1 <= u.day <= 31 && 0 <= u.weekday < 7
    && 0 <= u.hour < 24 && 0 <= u.minute < 60 && 0 <= u.second < 60
  }

  function TwoDigits(n: int): (s: string)
    requires 0 <= n < 100
    ensures |s| == 2
  {
    [Digit(n / 10), Digit(n % 10)]
  }

  function FourDigits(n: int): (s: string)
    requires 0 <= n < 10000
    ensures |s| == 4
  {
    [Digit(n / 1000), Digit(n / 100 % 10), Digit(n / 10 % 10), Digit(n % 10)]
  }

  function DatePart(u: Utc): (s: string)
    requires Writable(u)
    ensures |s| == 16
  {
    DAYS[u.weekday] + ", " + TwoDigits(u.day) + " " + MONTHS[u.month - 1] + " " + FourDigits(u.year)
  }

  function ClockPart(u: Utc): (s: string)
    requires Writable(u)
    ensures |s| == 13
  {
    " " + TwoDigits(u.hour) + ":" + TwoDigits(u.minute) + ":" + TwoDigits(u.second) + " GMT"
  }

  /** IMF-fixdate, as in "Sun, 06 Nov 1994 08:49:37 GMT". */
  function Fixdate(u: Utc): (s: string)
    requires Writable(u)
    ensures |s| == 29
  {
    DatePart(u) + ClockPart(u)
  }

  method PutText(out: array<char>, i: nat, text: string) returns (next: nat)
    requires i + |text| <= out.Length
    modifies out
    ensures next == i + |text| && out[..next] == old(out[..i]) + text
  {
    next := i;
    while next < i + |text|
      invariant i <= next <= i + |text| && out[..next] == old(out[..i]) + text[..next - i]
    {
      out[next] := text[next - i];
      next := next + 1;
    }
  }

  method PutTwo(out: array<char>, i: nat, field: int) returns (next: nat)
    requires i + 2 <= out.Length && 0 <= field < 100
    modifies out
    ensures next == i + 2 && out[..next] == old(out[..i]) + TwoDigits(field)
  {
    out[i] := Digit(field / 10 % 10);
    out[i + 1] := Digit(field % 10);
    next := i + 2;
  }

  method PutDate(out: array<char>, u: Utc)
    requires out.Length == 29 && Writable(u)
    modifies out
    ensures out[..16] == DatePart(u)
  {
    hide TwoDigits, FourDigits;
    YearInHalves(u.year);
    var i := PutText(out, 0, DAYS[u.weekday]);
    i := PutText(out, i, ", ");
    i := PutTwo(out, i, u.day);
    i := PutText(out, i, " ");
    i := PutText(out, i, MONTHS[u.month - 1]);
    i := PutText(out, i, " ");
    i := PutTwo(out, i, u.year / 100);
    i := PutTwo(out, i, u.year % 100);
  }

  method PutClock(out: array<char>, u: Utc)
    requires out.Length == 29 && Writable(u)
    modifies out
    ensures out[..] == old(out[..16]) + ClockPart(u)
  {
    hide TwoDigits;
    var i := PutText(out, 16, " ");
    i := PutTwo(out, i, u.hour);
    i := PutText(out, i, ":");
    i := PutTwo(out, i, u.minute);
    i := PutText(out, i, ":");
    i := PutTwo(out, i, u.second);
    i := PutText(out, i, " GMT");
    assert out[..29] == out[..];
  }

  lemma YearInHalves(year: int)
    requires 0 <= year < 10000
    ensures FourDigits(year) == TwoDigits(year / 100) + TwoDigits(year % 100)
  {
    Places(year / 100 / 10, year / 100 % 10, year % 100 / 10, year % 100 % 10);
  }

  lemma Places(a: int, b: int, c: int, d: int)
    requires 0 <= a < 10 && 0 <= b < 10 && 0 <= c < 10 && 0 <= d < 10
    ensures var n := ((a * 10 + b) * 10 + c) * 10 + d;
            n / 1000 == a && n / 100 % 10 == b && n / 10 % 10 == c && n % 10 == d
  {
    var n := ((a * 10 + b) * 10 + c) * 10 + d;
    assert n / 10 == (a * 10 + b) * 10 + c;
    assert n / 100 == a * 10 + b;
  }

  /** format_http_date: the fields of the time at their fixed places, for all four-digit years. */
  method FormatHttpDate(value: int) returns (output: Option<string>)
    ensures output.Some? <==> FIRST <= value < END
    ensures output.Some? ==> Writable(UtcOf(value).value) && output.value == Fixdate(UtcOf(value).value)
  {
    hide DatePart, ClockPart;
    var utc := UtcOf(value);
    if utc == None {
      return None;
    }
    TimeOfUtc(value);
    var out := new char[29];
    PutDate(out, utc.value);
    PutClock(out, utc.value);
    output := Some(out[..]);
  }

  // ----- reading

  /** parse_fixed_digits, from the left. */
  function DigitsFrom(s: string, value: int): Option<int>
    decreases |s|
  {
    if s == "" then Some(value)
    else if IsDigit(s[0]) then DigitsFrom(s[1..], value * 10 + DigitValue(s[0]))
    else None
  }

  function FixedDigits(s: string): Option<int> {
    if s == "" then None else DigitsFrom(s, 0)
  }

  method ParseFixedDigits(value: string) returns (parsed: Option<int>)
    ensures parsed == FixedDigits(value)
  {
    if value == "" {
      return None;
    }
    var number, k := 0, 0;
    while k < |value|
      invariant k <= |value| && DigitsFrom(value[k..], number) == DigitsFrom(value, 0)
    {
      assert value[k..][1..] == value[k + 1..];
      if !IsDigit(value[k]) {
        return None;
      }
      number := number * 10 + DigitValue(value[k]);
      k := k + 1;
    }
    parsed := Some(number);
  }

  /** The place of a name in a list, from 1; 0 if it is not there. */
  function IndexFrom(names: seq<string>, name: string, k: nat): (i: nat)
    requires k <= |names|
    ensures i == 0 ==> forall j :: k <= j < |names| ==> names[j] != name
    ensures i > 0 ==> k < i <= |names| && names[i - 1] == name && forall j :: k <= j < i - 1 ==> names[j] != name
    decreases |names| - k
  {
    if k == |names| then 0
    else if names[k] == name then k + 1
    else IndexFrom(names, name, k + 1)
  }

  function Civil(year: Option<int>, month: int, day: Option<int>, hour: Option<int>, minute: Option<int>,
                 second: Option<int>): Option<int>
  {
    if month == 0 || day == None || year == None || hour == None || minute == None || second == None then None
    else TimeOf(year.value, month, day.value, hour.value, minute.value, second.value)
  }

  function ParseFixdate(s: string): Option<int> {
    if |s| != 29 || s[0..3] !in DAYS || s[3] != ',' || s[4] != ' ' || s[7] != ' ' || s[11] != ' ' || s[16] != ' '
       || s[19] != ':' || s[22] != ':' || s[25] != ' ' || s[26..29] != "GMT" then None
    else Civil(FixedDigits(s[12..16]), IndexFrom(MONTHS, s[8..11], 0), FixedDigits(s[5..7]), FixedDigits(s[17..19]),
               FixedDigits(s[20..22]), FixedDigits(s[23..25]))
  }

  function ParseAsctime(s: string): Option<int> {
    if |s| != 24 || s[3] != ' ' || s[7] != ' ' || s[10] != ' ' || s[13] != ':' || s[16] != ':' || s[19] != ' '
       || s[0..3] !in DAYS then None
    else Civil(FixedDigits(s[20..24]), IndexFrom(MONTHS, s[4..7], 0),
               FixedDigits(if s[8] == ' ' then s[9..10] else s[8..10]),
               FixedDigits(s[11..13]), FixedDigits(s[14..16]), FixedDigits(s[17..19]))
  }

  /** resolve_rfc850_year, and the comparison of the rest of the date when the year is exactly 50 ahead. */
  function ResolveYear(shortYear: int, current: int): int {
    var year := current - current % 100 + shortYear;
    if year > current + 50 then year - 100 else year
  }

  predicate Later(a: seq<int>, b: seq<int>)
    requires |a| == |b|
  {
    a != [] && (a[0] > b[0] || (a[0] == b[0] && Later(a[1..], b[1..])))
  }

  function Rfc850Year(shortYear: int, fields: seq<int>, now: Utc): int
    requires |fields| == 5
  {
    var year := ResolveYear(shortYear, now.year);
    if year == now.year + 50 && Later(fields, [now.month, now.day, now.hour, now.minute, now.second]) then year - 100
    else year
  }

  /** string_view::find(", ") */
  function CommaSpace(s: string, k: nat): (i: nat)
    requires k <= |s|
    ensures i <= |s|
    decreases |s| - k
  {
    if k + 1 >= |s| then |s| else if s[k] == ',' && s[k + 1] == ' ' then k else CommaSpace(s, k + 1)
  }

  /** What follows the weekday, as in "06-Nov-94 08:49:37 GMT". */
  function ParseRfc850Body(b: string, now: Option<Utc>): Option<int> {
    if |b| != 22 || b[2] != '-' || b[6] != '-' || b[9] != ' ' || b[12] != ':' || b[15] != ':' || b[18] != ' '
       || b[19..22] != "GMT" then None
    else
      var day, month, year := FixedDigits(b[0..2]), IndexFrom(MONTHS, b[3..6], 0), FixedDigits(b[7..9]);
      var hour, minute, second := FixedDigits(b[10..12]), FixedDigits(b[13..15]), FixedDigits(b[16..18]);
      if day == None || month == 0 || year == None || hour == None || minute == None || second == None || now == None
      then None
      else
        TimeOf(Rfc850Year(year.value, [month, day.value, hour.value, minute.value, second.value], now.value),
               month, day.value, hour.value, minute.value, second.value)
  }

  /** `now` is the current time, absent when the clock failed. */
  function ParseRfc850(s: string, now: Option<Utc>): Option<int> {
    var comma := CommaSpace(s, 0);
    if comma + 2 > |s| || s[..comma] !in LONG_DAYS then None else ParseRfc850Body(s[comma + 2..], now)
  }

  function ParseHttpDate(text: string, now: Option<Utc>): Option<int> {
    var s := Trim(text);
    if ParseFixdate(s).Some? then ParseFixdate(s)
    else if ParseRfc850(s, now).Some? then ParseRfc850(s, now)
    else ParseAsctime(s)
  }

  // ----- the round trip

  lemma TwoDigitsAreRead(n: int)
    requires 0 <= n < 100
    ensures FixedDigits(TwoDigits(n)) == Some(n)
  {
    var s := TwoDigits(n);
    assert s[1..] == [Digit(n % 10)] && s[1..][1..] == "";
    assert DigitsFrom(s[1..], n / 10) == DigitsFrom("", n / 10 * 10 + n % 10);
  }

  lemma FourDigitsAreRead(n: int)
    requires 0 <= n < 10000
    ensures FixedDigits(FourDigits(n)) == Some(n)
  {
    var s := FourDigits(n);
    var a, b, c, d := n / 1000, n / 100 % 10, n / 10 % 10, n % 10;
    assert s[1..][1..] == s[2..] && s[2..][1..] == s[3..] && s[3..][1..] == "";
    assert DigitsFrom(s, 0) == DigitsFrom(s[1..], a);
    assert DigitsFrom(s[1..], a) == DigitsFrom(s[2..], a * 10 + b);
    assert DigitsFrom(s[2..], a * 10 + b) == DigitsFrom(s[3..], (a * 10 + b) * 10 + c);
    assert DigitsFrom(s[3..], (a * 10 + b) * 10 + c) == DigitsFrom("", ((a * 10 + b) * 10 + c) * 10 + d);
    PlaceValues(n);
  }

  lemma PlaceValues(n: int)
    requires 0 <= n < 10000
    ensures ((n / 1000 * 10 + n / 100 % 10) * 10 + n / 10 % 10) * 10 + n % 10 == n
  {
    var h, t := n / 100, n / 10;
    assert h / 10 == n / 1000 && t / 10 == h;
  }

  lemma MonthIsRead(month: int)
    requires 1 <= month <= 12
    ensures IndexFrom(MONTHS, MONTHS[month - 1], 0) == month
  {
    var i := IndexFrom(MONTHS, MONTHS[month - 1], 0);
    assert MONTHS[month - 1] in MONTHS;
    if i > 0 && i < month {
      MonthsDiffer(i - 1, month - 1);
    }
  }

  lemma MonthsDiffer(i: nat, j: nat)
    requires i < j < 12
    ensures MONTHS[i] != MONTHS[j]
  {
  }

  lemma FieldsOfDate(u: Utc)
    requires Writable(u)
    ensures var d := DatePart(u);
            && d[0..3] == DAYS[u.weekday] && d[3] == ',' && d[4] == ' ' && d[5..7] == TwoDigits(u.day) && d[7] == ' '
            && d[8..11] == MONTHS[u.month - 1] && d[11] == ' ' && d[12..16] == FourDigits(u.year)
  {
    hide TwoDigits, FourDigits;
    FieldsApart(DAYS[u.weekday], TwoDigits(u.day), MONTHS[u.month - 1], FourDigits(u.year));
  }

  lemma FieldsApart(w: string, d: string, m: string, y: string)
    requires |w| == 3 && |d| == 2 && |m| == 3 && |y| == 4
    ensures var s := w + ", " + d + " " + m + " " + y;
            && s[0..3] == w && s[3] == ',' && s[4] == ' ' && s[5..7] == d && s[7] == ' '
            && s[8..11] == m && s[11] == ' ' && s[12..16] == y
  {
  }

  lemma FieldsOfClock(u: Utc)
    requires Writable(u)
    ensures var c := ClockPart(u);
            && c[0] == ' ' && c[1..3] == TwoDigits(u.hour) && c[3] == ':' && c[4..6] == TwoDigits(u.minute)
            && c[6] == ':' && c[7..9] == TwoDigits(u.second) && c[9] == ' ' && c[10..13] == "GMT"
  {
    hide TwoDigits;
    ClockApart(TwoDigits(u.hour), TwoDigits(u.minute), TwoDigits(u.second));
  }

  lemma ClockApart(h: string, m: string, s: string)
    requires |h| == 2 && |m| == 2 && |s| == 2
    ensures var c := " " + h + ":" + m + ":" + s + " GMT";
            && c[0] == ' ' && c[1..3] == h && c[3] == ':' && c[4..6] == m && c[6] == ':' && c[7..9] == s
            && c[9] == ' ' && c[10..13] == "GMT"
  {
  }

  /** Where the fields of a written date are. */
  lemma FieldsOfFixdate(u: Utc)
    requires Writable(u)
    ensures var s := Fixdate(u);
            && s[0..3] == DAYS[u.weekday] && s[3] == ',' && s[4] == ' ' && s[5..7] == TwoDigits(u.day) && s[7] == ' '
            && s[8..11] == MONTHS[u.month - 1] && s[11] == ' ' && s[12..16] == FourDigits(u.year)
    ensures var s := Fixdate(u);
            && s[16] == ' ' && s[17..19] == TwoDigits(u.hour) && s[19] == ':' && s[20..22] == TwoDigits(u.minute)
            && s[22] == ':' && s[23..25] == TwoDigits(u.second) && s[25] == ' ' && s[26..29] == "GMT"
  {
    hide DatePart, ClockPart, TwoDigits, FourDigits;
    FieldsOfDate(u);
    FieldsOfClock(u);
    var s, d, c := Fixdate(u), DatePart(u), ClockPart(u);
    assert s[0..3] == d[0..3] && s[5..7] == d[5..7] && s[8..11] == d[8..11] && s[12..16] == d[12..16];
    assert s[17..19] == c[1..3] && s[20..22] == c[4..6] && s[23..25] == c[7..9] && s[26..29] == c[10..13];
  }

  /** For every time in the years 0 to 9999, reading the written date gives the time back. */
  lemma DateRoundTrip(time: int, now: Option<Utc>)
    requires UtcOf(time).Some?
    ensures Writable(UtcOf(time).value) && ParseHttpDate(Fixdate(UtcOf(time).value), now) == Some(time)
  {
    TimeOfUtc(time);
    FixdateIsRead(time);
    FixdateIsTight(UtcOf(time).value);
  }

  lemma FixdateIsTight(u: Utc)
    requires Writable(u)
    ensures Trim(Fixdate(u)) == Fixdate(u)
  {
    hide DatePart, ClockPart, TwoDigits, FourDigits, Trim, Fixdate;
    FieldsOfFixdate(u);
    var s := Fixdate(u);
    assert s[0] == s[0..3][0] && s[28] == s[26..29][2];
    TrimIsTight(s);
  }

  lemma FixdateIsRead(time: int)
    requires UtcOf(time).Some? && Writable(UtcOf(time).value)
    ensures ParseFixdate(Fixdate(UtcOf(time).value)) == Some(time)
  {
    hide Fixdate, TwoDigits, FourDigits, UtcOf, TimeOf, FixedDigits, IndexFrom;
    var u := UtcOf(time).value;
    TimeOfUtc(time);
    FieldsOfFixdate(u);
    TwoDigitsAreRead(u.day);
    FourDigitsAreRead(u.year);
    MonthIsRead(u.month);
    TwoDigitsAreRead(u.hour);
    TwoDigitsAreRead(u.minute);
    TwoDigitsAreRead(u.second);
  }

  /** A two-digit year denotes a year with these last two digits, and never a date more than fifty years ahead. */
  lemma ShortYearIsNotFarAhead(shortYear: int, fields: seq<int>, now: Utc)
    requires 0 <= shortYear < 100 && |fields| == 5 && now.year >= 0
    ensures var year := Rfc850Year(shortYear, fields, now);
            && year % 100 == shortYear && year > now.year - 100
            && !Later([year] + fields, [now.year + 50, now.month, now.day, now.hour, now.minute, now.second])
  {
    var current, resolved := now.year - now.year % 100, ResolveYear(shortYear, now.year);
    LastTwoDigits(now.year / 100, shortYear);
    var reference := [now.month, now.day, now.hour, now.minute, now.second];
    var year := Rfc850Year(shortYear, fields, now);
    assert ([year] + fields)[1..] == fields && ([now.year + 50] + reference)[1..] == reference;
    assert [now.year + 50, now.month, now.day, now.hour, now.minute, now.second] == [now.year + 50] + reference;
  }

  lemma LastTwoDigits(century: int, shortYear: int)
    requires 0 <= shortYear < 100
    ensures (century * 100 + shortYear) % 100 == shortYear && (century * 100 + shortYear - 100) % 100 == shortYear
    ensures (century * 100 + shortYear - 200) % 100 == shortYear
  {
    assert (century * 100 + shortYear - 100) == (century - 1) * 100 + shortYear;
    assert (century * 100 + shortYear - 200) == (century - 2) * 100 + shortYear;
  }

  // ----- the two obsolete formats

  function DayField(day: int): (s: string)
    requires 1 <= day <= 31
    ensures |s| == 2
  {
    if day < 10 then [' ', Digit(day)] else TwoDigits(day)
  }

  function AsctimeDate(u: Utc): (s: string)
    requires Writable(u)
    ensures |s| == 11
  {
    DAYS[u.weekday] + " " + MONTHS[u.month - 1] + " " + DayField(u.day) + " "
  }

  function AsctimeClock(u: Utc): (s: string)
    requires Writable(u)
    ensures |s| == 13
  {
    TwoDigits(u.hour) + ":" + TwoDigits(u.minute) + ":" + TwoDigits(u.second) + " " + FourDigits(u.year)
  }

  /** asctime-date, as in "Sun Nov  6 08:49:37 1994". */
  function Asctime(u: Utc): (s: string)
    requires Writable(u)
    ensures |s| == 24
  {
    AsctimeDate(u) + AsctimeClock(u)
  }

  lemma FieldsOfAsctimeDate(u: Utc)
    requires Writable(u)
    ensures var d := AsctimeDate(u);
            && d[0..3] == DAYS[u.weekday] && d[3] == ' ' && d[4..7] == MONTHS[u.month - 1] && d[7] == ' '
            && d[8..10] == DayField(u.day) && d[10] == ' '
  {
    hide DayField;
    AsctimeDateApart(DAYS[u.weekday], MONTHS[u.month - 1], DayField(u.day));
  }

  lemma AsctimeDateApart(w: string, m: string, d: string)
    requires |w| == 3 && |m| == 3 && |d| == 2
    ensures var s := w + " " + m + " " + d + " ";
            && s[0..3] == w && s[3] == ' ' && s[4..7] == m && s[7] == ' ' && s[8..10] == d && s[10] == ' '
  {
  }

  lemma FieldsOfAsctimeClock(u: Utc)
    requires Writable(u)
    ensures var c := AsctimeClock(u);
            && c[0..2] == TwoDigits(u.hour) && c[2] == ':' && c[3..5] == TwoDigits(u.minute) && c[5] == ':'
            && c[6..8] == TwoDigits(u.second) && c[8] == ' ' && c[9..13] == FourDigits(u.year)
  {
    hide TwoDigits, FourDigits;
    AsctimeClockApart(TwoDigits(u.hour), TwoDigits(u.minute), TwoDigits(u.second), FourDigits(u.year));
  }

  lemma AsctimeClockApart(h: string, m: string, s: string, y: string)
    requires |h| == 2 && |m| == 2 && |s| == 2 && |y| == 4
    ensures var c := h + ":" + m + ":" + s + " " + y;
            && c[0..2] == h && c[2] == ':' && c[3..5] == m && c[5] == ':' && c[6..8] == s && c[8] == ' '
            && c[9..13] == y
  {
  }

  lemma FieldsOfAsctime(u: Utc)
    requires Writable(u)
    ensures var s := Asctime(u);
            && s[0..3] == DAYS[u.weekday] && s[3] == ' ' && s[4..7] == MONTHS[u.month - 1] && s[7] == ' '
            && s[8..10] == DayField(u.day) && s[10] == ' '
    ensures var s := Asctime(u);
            && s[11..13] == TwoDigits(u.hour) && s[13] == ':' && s[14..16] == TwoDigits(u.minute) && s[16] == ':'
            && s[17..19] == TwoDigits(u.second) && s[19] == ' ' && s[20..24] == FourDigits(u.year)
  {
    hide AsctimeDate, AsctimeClock, TwoDigits, FourDigits, DayField;
    FieldsOfAsctimeDate(u);
    FieldsOfAsctimeClock(u);
    var s, d, c := Asctime(u), AsctimeDate(u), AsctimeClock(u);
    assert s[0..3] == d[0..3] && s[4..7] == d[4..7] && s[8..10] == d[8..10];
    assert s[11..13] == c[0..2] && s[14..16] == c[3..5] && s[17..19] == c[6..8] && s[20..24] == c[9..13];
  }

  lemma DayFieldIsRead(s: string, day: int)
    requires 1 <= day <= 31 && |s| >= 10 && s[8..10] == DayField(day)
    ensures FixedDigits(if s[8] == ' ' then s[9..10] else s[8..10]) == Some(day)
  {
    assert s[8] == s[8..10][0] && s[9] == s[8..10][1];
    if day < 10 {
      assert s[9..10] == [Digit(day)] && [Digit(day)][1..] == "";
      assert DigitsFrom("", day) == Some(day);
    } else {
      TwoDigitsAreRead(day);
    }
  }

  lemma AsctimeIsRead(time: int)
    requires UtcOf(time).Some? && Writable(UtcOf(time).value)
    ensures ParseAsctime(Asctime(UtcOf(time).value)) == Some(time)
  {
    hide Asctime, TwoDigits, FourDigits, DayField, UtcOf, TimeOf, FixedDigits, IndexFrom;
    var u := UtcOf(time).value;
    TimeOfUtc(time);
    FieldsOfAsctime(u);
    DayFieldIsRead(Asctime(u), u.day);
    FourDigitsAreRead(u.year);
    MonthIsRead(u.month);
    TwoDigitsAreRead(u.hour);
    TwoDigitsAreRead(u.minute);
    TwoDigitsAreRead(u.second);
  }

  lemma AsctimeIsNothingElse(u: Utc, now: Option<Utc>)
    requires Writable(u)
    ensures ParseFixdate(Asctime(u)) == None && ParseRfc850(Asctime(u), now) == None && Trim(Asctime(u)) == Asctime(u)
  {
    hide AsctimeDate, AsctimeClock, TwoDigits, FourDigits, DayField, Trim, Asctime, FixedDigits, IndexFrom;
    FieldsOfAsctime(u);
    var s := Asctime(u);
    assert s[0] == s[0..3][0] && s[23] == s[20..24][3];
    LastDigit(u.year);
    TrimIsTight(s);
    if CommaSpace(s, 0) == 0 {
      assert s[..0] == "";
    }
  }

  lemma LastDigit(n: int)
    requires 0 <= n < 10000
    ensures FourDigits(n)[3] == Digit(n % 10)
  {
  }

  /** The asctime spelling of a time, with its day padded by a space, reads back as the time. */
  lemma AsctimeRoundTrip(time: int, now: Option<Utc>)
    requires UtcOf(time).Some?
    ensures Writable(UtcOf(time).value) && ParseHttpDate(Asctime(UtcOf(time).value), now) == Some(time)
  {
    hide ParseFixdate, ParseRfc850, ParseAsctime, Asctime, UtcOf;
    TimeOfUtc(time);
    AsctimeIsRead(time);
    AsctimeIsNothingElse(UtcOf(time).value, now);
  }

  function LongDay(weekday: int): (s: string)
    requires 0 <= weekday < 7
    ensures 6 <= |s| <= 9 && s in LONG_DAYS
  {
    LONG_DAYS[(weekday + 6) % 7]
  }

  function DashedDate(u: Utc): (s: string)
    requires Writable(u)
    ensures |s| == 9
  {
    TwoDigits(u.day) + "-" + MONTHS[u.month - 1] + "-" + TwoDigits(u.year % 100)
  }

  /** rfc850-date, as in "Sunday, 06-Nov-94 08:49:37 GMT". */
  function Rfc850(u: Utc): string
    requires Writable(u)
  {
    LongDay(u.weekday) + (", " + (DashedDate(u) + ClockPart(u)))
  }

  lemma {:induction false} CommaAt(s: string, k: nat, n: nat)
    requires k <= n && n + 1 < |s| && s[n] == ',' && s[n + 1] == ' ' && forall j :: k <= j < n ==> s[j] != ','
    ensures CommaSpace(s, k) == n
    decreases n - k
  {
    if k < n {
      CommaAt(s, k + 1, n);
    }
  }

  lemma LongDayHasNoComma(weekday: int)
    requires 0 <= weekday < 7
    ensures forall j :: 0 <= j < |LongDay(weekday)| ==> LongDay(weekday)[j] != ','
    ensures LongDay(weekday)[0] != ' ' && LongDay(weekday)[0] != '\t'
  {
    forall i | 0 <= i < 7
      ensures forall j :: 0 <= j < |LONG_DAYS[i]| ==> LONG_DAYS[i][j] != ','
      ensures |LONG_DAYS[i]| > 0 && LONG_DAYS[i][0] != ' ' && LONG_DAYS[i][0] != '\t'
    {
    }
  }

  lemma FieldsOfDashed(u: Utc)
    requires Writable(u)
    ensures var b := DashedDate(u) + ClockPart(u);
            && |b| == 22 && b[0..2] == TwoDigits(u.day) && b[2] == '-' && b[3..6] == MONTHS[u.month - 1] && b[6] == '-'
            && b[7..9] == TwoDigits(u.year % 100) && b[9] == ' ' && b[10..12] == TwoDigits(u.hour) && b[12] == ':'
            && b[13..15] == TwoDigits(u.minute) && b[15] == ':' && b[16..18] == TwoDigits(u.second) && b[18] == ' '
            && b[19..22] == "GMT"
  {
    hide ClockPart, TwoDigits, DashedDate;
    FieldsOfClock(u);
    DashedInParts(u);
    var b, d, c := DashedDate(u) + ClockPart(u), DashedDate(u), ClockPart(u);
    assert b[0..2] == d[0..2] && b[3..6] == d[3..6] && b[7..9] == d[7..9];
    assert b[10..12] == c[1..3] && b[13..15] == c[4..6] && b[16..18] == c[7..9] && b[19..22] == c[10..13];
  }

  lemma DashedInParts(u: Utc)
    requires Writable(u)
    ensures var d := DashedDate(u);
            && d[0..2] == TwoDigits(u.day) && d[2] == '-' && d[3..6] == MONTHS[u.month - 1] && d[6] == '-'
            && d[7..9] == TwoDigits(u.year % 100)
  {
    hide TwoDigits;
    var month := MONTHS[u.month - 1];
    assert |month| == 3;
    assert DashedDate(u) == TwoDigits(u.day) + ("-" + (month + ("-" + TwoDigits(u.year % 100))));
  }

  function Fields(u: Utc): (r: seq<int>)
    ensures |r| == 5
  {
    [u.month, u.day, u.hour, u.minute, u.second]
  }

  /** In the current century and at most fifty years ahead, or in the one before, when a century later would be more
      than fifty years ahead. */
  predicate ShortYearFits(u: Utc, now: Utc) {
    var limit := [now.year + 50] + Fields(now);
    if u.year / 100 == now.year / 100 then !Later([u.year] + Fields(u), limit)
    else u.year / 100 == now.year / 100 - 1 && Later([u.year + 100] + Fields(u), limit)
  }

  lemma LaterInYear(year: int, fields: seq<int>, limit: int, reference: seq<int>)
    requires |fields| == |reference|
    ensures Later([year] + fields, [limit] + reference) <==> year > limit || (year == limit && Later(fields, reference))
  {
    assert ([year] + fields)[1..] == fields && ([limit] + reference)[1..] == reference;
  }

  /** Exactly then the last two digits of a year are enough to tell it. */
  lemma ShortYearIsResolvedIff(u: Utc, now: Utc)
    requires 0 <= u.year && 0 <= now.year
    ensures Rfc850Year(u.year % 100, Fields(u), now) == u.year <==> ShortYearFits(u, now)
  {
    hide Later;
    LaterInYear(u.year, Fields(u), now.year + 50, Fields(now));
    LaterInYear(u.year + 100, Fields(u), now.year + 50, Fields(now));
    var a, b := now.year / 100, u.year / 100;
    assert now.year == a * 100 + now.year % 100 && u.year == b * 100 + u.year % 100;
  }

  /** A date of the next century is read as one of the last, however near it is. */
  lemma NextCenturyIsReadAsLast(fields: seq<int>, now: Utc)
    requires |fields| == 5 && now.year == 2099
    ensures Rfc850Year(2100 % 100, fields, now) == 2000
  {
  }

  /** Where the weekday ends. */
  lemma BodyOfRfc850(u: Utc)
    requires Writable(u)
    ensures var s, n := Rfc850(u), CommaSpace(Rfc850(u), 0);
            n + 2 <= |s| && s[..n] in LONG_DAYS && s[n + 2..] == DashedDate(u) + ClockPart(u)
  {
    hide ClockPart, DashedDate, LongDay, CommaSpace;
    var s, b, day := Rfc850(u), DashedDate(u) + ClockPart(u), LongDay(u.weekday);
    LongDayHasNoComma(u.weekday);
    assert s == day + (", " + b);
    assert s[..|day|] == day && s[|day| + 2..] == b && s[|day|] == ',' && s[|day| + 1] == ' ';
    CommaAt(s, 0, |day|);
  }

  lemma Rfc850IsRead(time: int, now: Utc)
    requires UtcOf(time).Some? && Writable(UtcOf(time).value) && now.year >= 0 && ShortYearFits(UtcOf(time).value, now)
    ensures ParseRfc850(Rfc850(UtcOf(time).value), Some(now)) == Some(time)
  {
    hide ClockPart, DashedDate, TwoDigits, UtcOf, TimeOf, FixedDigits, IndexFrom, CommaSpace, Rfc850Year, Rfc850,
         ShortYearFits;
    var u := UtcOf(time).value;
    TimeOfUtc(time);
    BodyOfRfc850(u);
    FieldsOfDashed(u);
    MonthIsRead(u.month);
    TwoDigitsAreRead(u.day);
    TwoDigitsAreRead(u.year % 100);
    TwoDigitsAreRead(u.hour);
    TwoDigitsAreRead(u.minute);
    TwoDigitsAreRead(u.second);
    ShortYearIsResolvedIff(u, now);
  }

  lemma Rfc850IsNothingElse(u: Utc)
    requires Writable(u)
    ensures ParseFixdate(Rfc850(u)) == None && Trim(Rfc850(u)) == Rfc850(u)
  {
    hide ClockPart, DashedDate, TwoDigits, LongDay, Trim;
    var s, b, day := Rfc850(u), DashedDate(u) + ClockPart(u), LongDay(u.weekday);
    LongDayHasNoComma(u.weekday);
    FieldsOfDashed(u);
    assert s[0] == day[0] && s[|s| - 1] == b[19..22][2];
    TrimIsTight(s);
  }

  /** The RFC 850 spelling of a time, with its two-digit year, reads back as the time when these two digits tell it. */
  lemma Rfc850RoundTrip(time: int, now: Utc)
    requires UtcOf(time).Some? && now.year >= 0 && ShortYearFits(UtcOf(time).value, now)
    ensures Writable(UtcOf(time).value) && ParseHttpDate(Rfc850(UtcOf(time).value), Some(now)) == Some(time)
  {
    hide ParseFixdate, ParseRfc850, ParseAsctime, Rfc850, UtcOf, ShortYearFits;
    TimeOfUtc(time);
    Rfc850IsRead(time, now);
    Rfc850IsNothingElse(UtcOf(time).value);
  }

  // ----- only such texts are read

  lemma {:induction false} DigitsGrow(s: string, value: int)
    requires DigitsFrom(s, value).Some? && value >= 0
    ensures DigitsFrom(s, value).value >= value && forall k :: 0 <= k < |s| ==> IsDigit(s[k])
    decreases |s|
  {
    if s != "" {
      DigitsGrow(s[1..], value * 10 + DigitValue(s[0]));
      assert forall k :: 0 < k < |s| ==> s[k] == s[1..][k - 1];
    }
  }

  lemma TwoDigitsAreExact(s: string)
    requires |s| == 2 && FixedDigits(s).Some?
    ensures 0 <= FixedDigits(s).value < 100 && s == TwoDigits(FixedDigits(s).value)
  {
    DigitsGrow(s, 0);
    var a, b := DigitValue(s[0]), DigitValue(s[1]);
    assert s[1..][1..] == "" && s[1..][0] == s[1];
    assert DigitsFrom(s, 0) == DigitsFrom(s[1..], a) == DigitsFrom("", a * 10 + b);
    assert (a * 10 + b) / 10 == a && (a * 10 + b) % 10 == b;
    assert s == [s[0], s[1]];
  }

  lemma FourDigitsAreExact(s: string)
    requires |s| == 4 && FixedDigits(s).Some?
    ensures 0 <= FixedDigits(s).value < 10000 && s == FourDigits(FixedDigits(s).value)
  {
    DigitsGrow(s, 0);
    var a, b, c, d := DigitValue(s[0]), DigitValue(s[1]), DigitValue(s[2]), DigitValue(s[3]);
    assert s[1..][1..] == s[2..] && s[2..][1..] == s[3..] && s[3..][1..] == "";
    assert DigitsFrom(s, 0) == DigitsFrom(s[1..], a);
    assert DigitsFrom(s[1..], a) == DigitsFrom(s[2..], a * 10 + b);
    assert DigitsFrom(s[2..], a * 10 + b) == DigitsFrom(s[3..], (a * 10 + b) * 10 + c);
    assert DigitsFrom(s[3..], (a * 10 + b) * 10 + c) == DigitsFrom("", ((a * 10 + b) * 10 + c) * 10 + d);
    Places(a, b, c, d);
    assert s == [s[0], s[1], s[2], s[3]];
  }

  lemma FieldsOfTime(year: int, month: int, day: int, hour: int, minute: int, second: int)
    requires TimeOf(year, month, day, hour, minute, second).Some? && 0 <= year <= 9999 && second < 60
    ensures var time := TimeOf(year, month, day, hour, minute, second).value;
            && UtcOf(time).Some? && Writable(UtcOf(time).value)
            && UtcOf(time).value == Utc(year, month, day, UtcOf(time).value.weekday, hour, minute, second)
  {
    UtcOfTime(year, month, day, hour, minute, second);
  }

  /** What is read as an IMF-fixdate is what would be written for that time, but for its weekday and a leap second. */
  lemma OnlyFixdatesAreRead(s: string)
    requires ParseFixdate(s).Some? && FixedDigits(s[23..25]) != Some(60)
    ensures UtcOf(ParseFixdate(s).value).Some? && Writable(UtcOf(ParseFixdate(s).value).value)
    ensures s[0..3] in DAYS && s[3..] == Fixdate(UtcOf(ParseFixdate(s).value).value)[3..]
  {
    hide TwoDigits, FourDigits, Fixdate, UtcOf, TimeOf, FixedDigits, IndexFrom;
    TwoDigitsAreExact(s[5..7]);
    FourDigitsAreExact(s[12..16]);
    TwoDigitsAreExact(s[17..19]);
    TwoDigitsAreExact(s[20..22]);
    TwoDigitsAreExact(s[23..25]);
    var day, year := FixedDigits(s[5..7]).value, FixedDigits(s[12..16]).value;
    var month := IndexFrom(MONTHS, s[8..11], 0);
    SecondsInRange(year, month, day, FixedDigits(s[17..19]).value, FixedDigits(s[20..22]).value,
                   FixedDigits(s[23..25]).value);
    FieldsOfTime(year, month, day, FixedDigits(s[17..19]).value, FixedDigits(s[20..22]).value,
                 FixedDigits(s[23..25]).value);
    FieldsOfFixdate(UtcOf(ParseFixdate(s).value).value);
    SameTail(s, Fixdate(UtcOf(ParseFixdate(s).value).value));
  }

  lemma SecondsInRange(year: int, month: int, day: int, hour: int, minute: int, second: int)
    requires TimeOf(year, month, day, hour, minute, second).Some? && second != 60
    ensures second < 60
  {
  }

  lemma SameTail(s: string, t: string)
    requires |s| == |t| == 29 && s[3] == t[3] && s[4] == t[4] && s[5..7] == t[5..7] && s[7] == t[7]
    requires s[8..11] == t[8..11] && s[11] == t[11] && s[12..16] == t[12..16] && s[16] == t[16]
    requires s[17..19] == t[17..19] && s[19] == t[19] && s[20..22] == t[20..22] && s[22] == t[22]
    requires s[23..25] == t[23..25] && s[25] == t[25] && s[26..29] == t[26..29]
    ensures s[3..] == t[3..]
  {
    assert s[3..] == [s[3], s[4]] + s[5..7] + [s[7]] + s[8..11] + [s[11]] + s[12..16] + [s[16]] + s[17..19] + [s[19]]
                     + s[20..22] + [s[22]] + s[23..25] + [s[25]] + s[26..29];
    assert t[3..] == [t[3], t[4]] + t[5..7] + [t[7]] + t[8..11] + [t[11]] + t[12..16] + [t[16]] + t[17..19] + [t[19]]
                     + t[20..22] + [t[22]] + t[23..25] + [t[25]] + t[26..29];
  }

  /** The same of an asctime-date, whose day may be padded with a zero. */
  lemma OnlyAsctimesAreRead(s: string)
    requires ParseAsctime(s).Some? && FixedDigits(s[17..19]) != Some(60)
    ensures UtcOf(ParseAsctime(s).value).Some? && Writable(UtcOf(ParseAsctime(s).value).value)
    ensures var u := UtcOf(ParseAsctime(s).value).value;
            && s[0..3] in DAYS && s[3..8] == Asctime(u)[3..8] && s[10..] == Asctime(u)[10..]
            && (s[8..10] == DayField(u.day) || s[8..10] == TwoDigits(u.day))
  {
    hide TwoDigits, FourDigits, Asctime, UtcOf, TimeOf, FixedDigits, IndexFrom, DayField;
    FourDigitsAreExact(s[20..24]);
    TwoDigitsAreExact(s[11..13]);
    TwoDigitsAreExact(s[14..16]);
    TwoDigitsAreExact(s[17..19]);
    var day := FixedDigits(if s[8] == ' ' then s[9..10] else s[8..10]).value;
    var year, month := FixedDigits(s[20..24]).value, IndexFrom(MONTHS, s[4..7], 0);
    SecondsInRange(year, month, day, FixedDigits(s[11..13]).value, FixedDigits(s[14..16]).value,
                   FixedDigits(s[17..19]).value);
    FieldsOfTime(year, month, day, FixedDigits(s[11..13]).value, FixedDigits(s[14..16]).value,
                 FixedDigits(s[17..19]).value);
    FieldsOfAsctime(UtcOf(ParseAsctime(s).value).value);
    DayFieldIsExact(s, day);
    SameAsctime(s, Asctime(UtcOf(ParseAsctime(s).value).value));
  }

  lemma DayFieldIsExact(s: string, day: int)
    requires |s| >= 10 && 1 <= day <= 31
    requires FixedDigits(if s[8] == ' ' then s[9..10] else s[8..10]) == Some(day)
    ensures s[8..10] == DayField(day) || s[8..10] == TwoDigits(day)
  {
    if s[8] == ' ' {
      var digit := s[9..10];
      DigitsGrow(digit, 0);
      assert digit[1..] == "" && DigitsFrom(digit, 0) == DigitsFrom("", DigitValue(digit[0]));
      assert s[8..10] == [' ', digit[0]];
    } else {
      TwoDigitsAreExact(s[8..10]);
    }
  }

  lemma SameAsctime(s: string, t: string)
    requires |s| == |t| == 24 && s[3] == t[3] && s[4..7] == t[4..7] && s[7] == t[7] && s[10] == t[10]
    requires s[11..13] == t[11..13] && s[13] == t[13] && s[14..16] == t[14..16] && s[16] == t[16]
    requires s[17..19] == t[17..19] && s[19] == t[19] && s[20..24] == t[20..24]
    ensures s[3..8] == t[3..8] && s[10..] == t[10..]
  {
    assert s[3..8] == [s[3]] + s[4..7] + [s[7]] && t[3..8] == [t[3]] + t[4..7] + [t[7]];
    assert s[10..] == [s[10]] + s[11..13] + [s[13]] + s[14..16] + [s[16]] + s[17..19] + [s[19]] + s[20..24];
    assert t[10..] == [t[10]] + t[11..13] + [t[13]] + t[14..16] + [t[16]] + t[17..19] + [t[19]] + t[20..24];
  }

  lemma OnlyBodiesAreRead(b: string, now: Utc)
    requires ParseRfc850Body(b, Some(now)).Some? && 100 <= now.year <= 9900 && FixedDigits(b[16..18]) != Some(60)
    ensures UtcOf(ParseRfc850Body(b, Some(now)).value).Some?
    ensures Writable(UtcOf(ParseRfc850Body(b, Some(now)).value).value)
    ensures var u := UtcOf(ParseRfc850Body(b, Some(now)).value).value; b == DashedDate(u) + ClockPart(u)
  {
    hide TwoDigits, ClockPart, DashedDate, UtcOf, TimeOf, FixedDigits, IndexFrom, Rfc850Year;
    TwoDigitsAreExact(b[0..2]);
    TwoDigitsAreExact(b[7..9]);
    TwoDigitsAreExact(b[10..12]);
    TwoDigitsAreExact(b[13..15]);
    TwoDigitsAreExact(b[16..18]);
    var day, month, short := FixedDigits(b[0..2]).value, IndexFrom(MONTHS, b[3..6], 0), FixedDigits(b[7..9]).value;
    var hour, minute := FixedDigits(b[10..12]).value, FixedDigits(b[13..15]).value;
    var second := FixedDigits(b[16..18]).value;
    var fields := [month, day, hour, minute, second];
    var year := Rfc850Year(short, fields, now);
    ShortYearIsNear(short, fields, now);
    SecondsInRange(year, month, day, hour, minute, second);
    FieldsOfTime(year, month, day, hour, minute, second);
    var u := UtcOf(ParseRfc850Body(b, Some(now)).value).value;
    FieldsOfDashed(u);
    SameBody(b, DashedDate(u) + ClockPart(u));
  }

  /** And of an rfc850-date: its body is that of the time read, with the last two digits of the year. */
  lemma OnlyRfc850AreRead(s: string, now: Utc)
    requires ParseRfc850(s, Some(now)).Some? && 100 <= now.year <= 9900
    requires FixedDigits(s[CommaSpace(s, 0) + 2..][16..18]) != Some(60)
    ensures UtcOf(ParseRfc850(s, Some(now)).value).Some? && Writable(UtcOf(ParseRfc850(s, Some(now)).value).value)
    ensures var u, n := UtcOf(ParseRfc850(s, Some(now)).value).value, CommaSpace(s, 0);
            s[..n] in LONG_DAYS && s[n..] == ", " + (DashedDate(u) + ClockPart(u))
  {
    hide DashedDate, ClockPart, UtcOf, FixedDigits, CommaSpace, ParseRfc850Body;
    var n := CommaSpace(s, 0);
    OnlyBodiesAreRead(s[n + 2..], now);
    CommaFound(s, 0);
    assert s[n..] == ", " + s[n + 2..];
  }

  lemma ShortYearIsNear(short: int, fields: seq<int>, now: Utc)
    requires 0 <= short < 100 && |fields| == 5 && 100 <= now.year <= 9900
    ensures 0 <= Rfc850Year(short, fields, now) <= 9999 && Rfc850Year(short, fields, now) % 100 == short
  {
    hide Later;
    LastTwoDigits(now.year / 100, short);
    assert now.year - now.year % 100 == now.year / 100 * 100;
  }

  lemma {:induction false} CommaFound(s: string, k: nat)
    requires k <= |s|
    ensures var i := CommaSpace(s, k); i + 2 <= |s| ==> s[i] == ',' && s[i + 1] == ' '
    decreases |s| - k
  {
    if k + 1 < |s| && !(s[k] == ',' && s[k + 1] == ' ') {
      CommaFound(s, k + 1);
    }
  }

  lemma FirstTen(s: string)
    requires |s| == 22
    ensures s[..10] == s[0..2] + [s[2]] + s[3..6] + [s[6]] + s[7..9] + [s[9]]
  {
  }

  lemma LastTwelve(s: string)
    requires |s| == 22
    ensures s[10..] == s[10..12] + [s[12]] + s[13..15] + [s[15]] + s[16..18] + [s[18]] + s[19..22]
  {
  }

  lemma SameBody(s: string, t: string)
    requires |s| == |t| == 22 && s[0..2] == t[0..2] && s[2] == t[2] && s[3..6] == t[3..6] && s[6] == t[6]
    requires s[7..9] == t[7..9] && s[9] == t[9] && s[10..12] == t[10..12] && s[12] == t[12]
    requires s[13..15] == t[13..15] && s[15] == t[15] && s[16..18] == t[16..18] && s[18] == t[18]
    requires s[19..22] == t[19..22]
    ensures s == t
  {
    FirstTen(s);
    FirstTen(t);
    LastTwelve(s);
    LastTwelve(t);
    assert s == s[..10] + s[10..] && t == t[..10] + t[10..];
  }

  /** Whitespace around a date makes no difference. */
  lemma BlanksAroundADate(front: string, text: string, back: string, now: Option<Utc>)
    requires Blank(front) && Blank(back)
    ensures ParseHttpDate(front + text + back, now) == ParseHttpDate(text, now)
  {
    hide ParseFixdate, ParseAsctime, ParseRfc850, Trim, Blank;
    BlanksDoNotMatter(front, text, back);
  }

  /** The example of section 5.6.7 of RFC 9110, written and read. */
  lemma ExampleOfTheStandard()
    ensures UtcOf(784111777).Some? && Writable(UtcOf(784111777).value)
    ensures Fixdate(UtcOf(784111777).value) == "Sun, 06 Nov 1994 08:49:37 GMT"
    ensures ParseFixdate("Sun, 06 Nov 1994 08:49:37 GMT") == Some(784111777)
  {
    hide UtcOf, TimeOf, Fixdate, ParseFixdate;
    ExampleTime();
    UtcOfTime(1994, 11, 6, 8, 49, 37);
    ExampleWeekday();
    ExampleText();
    FixdateIsRead(784111777);
  }

  lemma ExampleTime()
    ensures TimeOf(1994, 11, 6, 8, 49, 37) == Some(784111777)
  {
    hide DaysBeforeMonth, DaysBeforeYear;
    DaysBeforeExample();
  }

  lemma ExampleWeekday()
    ensures UtcOf(784111777).Some? && UtcOf(784111777).value.weekday == 0
  {
    hide UtcOf;
    WeekdayOf(784111777);
    assert 784111777 / SECONDS_PER_DAY == 9075;
  }

  lemma ExampleText()
    ensures Fixdate(Utc(1994, 11, 6, 0, 8, 49, 37)) == "Sun, 06 Nov 1994 08:49:37 GMT"
  {
    hide DatePart, ClockPart;
    ExampleDate();
    ExampleClock();
    assert "Sun, 06 Nov 1994" + " 08:49:37 GMT" == "Sun, 06 Nov 1994 08:49:37 GMT";
  }

  lemma ExampleDate()
    ensures DatePart(Utc(1994, 11, 6, 0, 8, 49, 37)) == "Sun, 06 Nov 1994"
  {
    hide TwoDigits, FourDigits;
    ExampleDigits();
    assert DAYS[0] == "Sun" && MONTHS[10] == "Nov";
    assert "Sun" + ", " + "06" + " " + "Nov" + " " + "1994" == "Sun, 06 Nov 1994";
  }

  lemma ExampleClock()
    ensures ClockPart(Utc(1994, 11, 6, 0, 8, 49, 37)) == " 08:49:37 GMT"
  {
    hide TwoDigits;
    ExampleDigits();
    assert " " + "08" + ":" + "49" + ":" + "37" + " GMT" == " 08:49:37 GMT";
  }

  lemma ExampleDigits()
    ensures TwoDigits(6) == "06" && TwoDigits(8) == "08" && TwoDigits(49) == "49" && TwoDigits(37) == "37"
    ensures FourDigits(1994) == "1994"
  {
  }

  lemma DaysBeforeExample()
    ensures DaysBeforeYear(1994) == 728294 && DaysBeforeMonth(1994, 11) == 304
  {
    MonthOffset(1994, 11);
    assert 1997 / 4 == 499 && 2093 / 100 == 20 && 2393 / 400 == 5;
  }
}
