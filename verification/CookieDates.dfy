/** What the cookie date algorithm (ruvia-http/src/cookie/http_set_cookie.cpp, section 5.1.1 of RFC 6265) makes of
    dates in spellings that no writer here uses. */
module CookieDates {
  import opened CivilCalendar
  import opened CookieRoundTrip
  import opened HttpDate
  import opened HttpText
  import opened SetCookie
  import opened SetCookieParser
  import opened Wrappers

  /** HTAB and every printable character that is no letter, no digit and no colon. */
  lemma WhatSeparates(c: char)
    ensures IsDelimiter(c) <==> c == '\t' || (' ' <= c <= '~' && !IsAlnum(c) && c != ':')
  {
  }

  // ----- the four parts in any order

  datatype Part = TheClock | TheDay | TheMonth | TheYear

  /** A part of a date and what separates it from what is before it. */
  datatype Placed = Placed(gap: string, part: Part)

  function Text(u: Utc, p: Part): string
    requires Writable(u)
  {
    match p
    case TheClock => ClockText(u.hour, u.minute, u.second)
    case TheDay => TwoDigits(u.day)
    case TheMonth => MONTHS[u.month - 1]
    case TheYear => FourDigits(u.year)
  }

  predicate Missing(f: Found, p: Part) {
    match p
    case TheClock => f.clock == None
    case TheDay => f.day == None
    case TheMonth => f.month == None
    case TheYear => f.year == None
  }

  function With(f: Found, u: Utc, p: Part): Found {
    match p
    case TheClock => f.(clock := Some(Clock(u.hour, u.minute, u.second)))
    case TheDay => f.(day := Some(u.day))
    case TheMonth => f.(month := Some(u.month))
    case TheYear => f.(year := Some(u.year))
  }

  function WithAll(f: Found, u: Utc, placed: seq<Placed>): Found
    decreases |placed|
  {
    if placed == [] then f else WithAll(With(f, u, placed[0].part), u, placed[1..])
  }

  function Spell(u: Utc, placed: seq<Placed>): string
    requires Writable(u)
    decreases |placed|
  {
    if placed == [] then "" else placed[0].gap + (Text(u, placed[0].part) + Spell(u, placed[1..]))
  }

  predicate Separators(gap: string) {
    forall k :: 0 <= k < |gap| ==> IsDelimiter(gap[k])
  }

  /** No part twice, and something between any two. */
  predicate WellPlaced(placed: seq<Placed>) {
    && (forall k :: 0 <= k < |placed| ==> Separators(placed[k].gap) && (k > 0 ==> placed[k].gap != ""))
    && (forall i, j :: 0 <= i < j < |placed| ==> placed[i].part != placed[j].part)
  }

  lemma {:induction false} DigitsAreNoMonth(s: string, k: nat)
    requires k <= 12 && s != "" && IsDigit(s[0])
    ensures MonthNamed(s, k) == None
    decreases 12 - k
  {
    if k < 12 && |s| >= 3 {
      Differ(s[..3], MONTHS[k], 0);
      DigitsAreNoMonth(s, k + 1);
    }
  }

  lemma PartIsTaken(u: Utc, p: Part, f: Found)
    requires Writable(u) && Missing(f, p)
    ensures Take(f, Text(u, p)) == With(f, u, p)
  {
    hide TwoDigits, FourDigits, ClockText, Consume, ClockOf, MonthNamed;
    match p
    case TheClock => ClockIsRead(u.hour, u.minute, u.second);
    case TheDay => DayIsNoClock(u.day);
    case TheMonth =>
      ConsumeLetters(MONTHS[u.month - 1], 1, 2);
      MonthNameIsRead(u.month - 1, 0);
    case TheYear => YearIsNothingElse(u.year);
  }

  lemma YearIsNothingElse(year: int)
    requires 0 <= year < 10000
    ensures ClockOf(FourDigits(year)) == None && Consume(FourDigits(year), 1, 2) == None
    ensures MonthNamed(FourDigits(year), 0) == None && Consume(FourDigits(year), 2, 4) == Some(Consumed(year, ""))
  {
    ConsumeFour(year);
    DigitsAreNoMonth(FourDigits(year), 0);
  }

  lemma TextIsToken(u: Utc, p: Part)
    requires Writable(u)
    ensures Token(Text(u, p))
  {
    hide Token, TwoDigits, FourDigits, ClockText;
    TokensOfDate(u);
  }

  lemma {:induction false} GapIsSkipped(gap: string, s: string, f: Found)
    requires Separators(gap)
    ensures TakeAll(gap + s, f) == TakeAll(s, f)
    decreases |gap|
  {
    hide Take;
    if gap == "" {
      assert gap + s == s;
    } else {
      assert (gap + s)[1..] == gap[1..] + s && IsDelimiter(gap[0]);
      GapIsSkipped(gap[1..], s, f);
    }
  }

  /** One part, with what is before it, and then the rest. */
  lemma OnePart(u: Utc, placed: seq<Placed>, f: Found)
    requires Writable(u) && WellPlaced(placed) && placed != [] && Missing(f, placed[0].part)
    ensures TakeAll(Spell(u, placed), f) == TakeAll(Spell(u, placed[1..]), With(f, u, placed[0].part))
  {
    hide TakeAll, Take, Text, Token, Missing, With, IsDelimiter;
    var token, rest := Text(u, placed[0].part), Spell(u, placed[1..]);
    GapIsSkipped(placed[0].gap, token + rest, f);
    TextIsToken(u, placed[0].part);
    PartIsTaken(u, placed[0].part, f);
    if |placed| == 1 {
      assert token + rest == token;
      TakeLast(token, f);
      NothingToTake(With(f, u, placed[0].part));
    } else {
      var next := placed[1];
      assert rest[0] == next.gap[0] && IsDelimiter(next.gap[0]);
      TakeToken(token, rest, f);
      AfterSeparator(rest, With(f, u, placed[0].part));
    }
  }

  lemma NothingToTake(f: Found)
    ensures TakeAll("", f) == f
  {
  }

  lemma AfterSeparator(s: string, f: Found)
    requires s != "" && IsDelimiter(s[0])
    ensures TakeAll(s, f) == TakeAll(s[1..], f)
  {
  }

  lemma {:induction false} PartsAreTaken(u: Utc, placed: seq<Placed>, f: Found)
    requires Writable(u) && WellPlaced(placed)
    requires forall k :: 0 <= k < |placed| ==> Missing(f, placed[k].part)
    ensures TakeAll(Spell(u, placed), f) == WithAll(f, u, placed)
    decreases |placed|
  {
    hide TakeAll, Text, Separators;
    if placed == [] {
      NothingToTake(f);
    } else {
      var g, rest := With(f, u, placed[0].part), placed[1..];
      OnePart(u, placed, f);
      forall k | 0 <= k < |rest| ensures Missing(g, rest[k].part) {
        assert rest[k] == placed[k + 1] && placed[0].part != placed[k + 1].part;
      }
      PartsAreTaken(u, rest, g);
    }
  }

  /** A date with a four-digit year is read whatever the order of its clock, day, month and year and whatever separates
      them. */
  lemma DateInAnyOrder(time: int, placed: seq<Placed>)
    requires YEAR_1601 <= time < END && WellPlaced(placed) && |placed| == 4
    ensures UtcOf(time).Some? && Writable(UtcOf(time).value)
    ensures CookieDate(Spell(UtcOf(time).value, placed)) == Some(time)
  {
    hide TakeAll, TimeOf, UtcOf, Spell;
    InRange(time);
    TimeOfUtc(time);
    YearIsLate(time);
    var u := UtcOf(time).value;
    PartsAreTaken(u, placed, NOTHING);
    FourAreAll(u, placed);
  }

  lemma FourAreAll(u: Utc, placed: seq<Placed>)
    requires WellPlaced(placed) && |placed| == 4
    ensures WithAll(NOTHING, u, placed)
            == Found(Some(Clock(u.hour, u.minute, u.second)), Some(u.day), Some(u.month), Some(u.year))
  {
    var a, b, c, d := placed[0], placed[1], placed[2], placed[3];
    assert placed[1..][0] == b && placed[1..][1..][0] == c && placed[1..][1..][1..][0] == d;
    assert placed[1..][1..][1..][1..] == [];
    var f := With(NOTHING, u, a.part);
    var g := With(f, u, b.part);
    var h := With(g, u, c.part);
    assert WithAll(NOTHING, u, placed) == WithAll(f, u, placed[1..]) == WithAll(g, u, placed[1..][1..])
        == WithAll(h, u, placed[1..][1..][1..]) == With(h, u, d.part);
  }

  // ----- what comes after, and how the parts may be spelled

  /** Two texts with a separator between them are taken one after the other. */
  lemma {:induction false} TakeAppends(s: string, d: char, t: string, f: Found)
    requires IsDelimiter(d)
    ensures TakeAll(s + [d] + t, f) == TakeAll(t, TakeAll(s, f))
    decreases |s|
  {
    hide Take, IsDelimiter;
    var whole := s + [d] + t;
    if s == "" {
      assert whole[1..] == t;
    } else if IsDelimiter(s[0]) {
      assert whole[1..] == s[1..] + [d] + t;
      TakeAppends(s[1..], d, t, f);
    } else {
      var end := RunEnd(s, false, 0);
      assert forall k :: 0 <= k < |s| ==> whole[k] == s[k];
      assert whole[|s|] == d;
      assert RunEnd(whole, false, 0) == end;
      assert whole[..end] == s[..end] && whole[end..] == s[end..] + [d] + t;
      TakeAppends(s[end..], d, t, Take(f, s[..end]));
    }
  }

  predicate IsComplete(f: Found) {
    f.clock.Some? && f.day.Some? && f.month.Some? && f.year.Some?
  }

  lemma {:induction false} NothingMoreIsTaken(s: string, f: Found)
    requires IsComplete(f)
    ensures TakeAll(s, f) == f
    decreases |s|
  {
    if s != "" {
      NothingMoreIsTaken(if IsDelimiter(s[0]) then s[1..] else s[RunEnd(s, false, 0)..], f);
    }
  }

  /** Once the four parts were found, whatever follows is ignored. */
  lemma TheRestIsIgnored(s: string, d: char, t: string)
    requires IsDelimiter(d) && IsComplete(TakeAll(s, NOTHING))
    ensures CookieDate(s + [d] + t) == CookieDate(s)
  {
    hide TakeAll, IsComplete;
    TakeAppends(s, d, t, NOTHING);
    NothingMoreIsTaken(t, TakeAll(s, NOTHING));
  }

  /** A token may go on after the clock or the day, though not with a digit. */
  lemma SuffixIsIgnored(hour: int, minute: int, second: int, rest: string)
    requires 0 <= hour < 100 && 0 <= minute < 100 && 0 <= second < 100 && rest != "" && !IsDigit(rest[0])
    ensures ClockOf(ClockText(hour, minute, second) + rest) == Some(Clock(hour, minute, second))
    ensures rest[0] != ':' ==> ClockOf(TwoDigits(hour) + rest) == None
    ensures Consume(TwoDigits(hour) + rest, 1, 2) == Some(Consumed(hour, rest))
  {
    hide TwoDigits, Consume;
    var third := TwoDigits(second) + rest;
    var second' := TwoDigits(minute) + (":" + third);
    ConsumeTwo(hour, ":" + second', 1);
    ConsumeTwo(minute, ":" + third, 1);
    ConsumeTwo(second, rest, 1);
    ConsumeTwo(hour, rest, 1);
    assert (":" + second')[1..] == second' && (":" + third)[1..] == third;
    assert ClockText(hour, minute, second) + rest == TwoDigits(hour) + (":" + second') by {
      ClockInParts(TwoDigits(hour), TwoDigits(minute), TwoDigits(second), rest);
    }
  }

  lemma ClockInParts(h: string, m: string, s: string, rest: string)
    ensures h + (":" + (m + (":" + (s + "")))) + rest == h + (":" + (m + (":" + (s + rest))))
  {
  }

  lemma {:induction false} MonthIsFound(s: string, k: nat)
    requires k <= 12
    ensures MonthNamed(s, k).Some? ==>
              k < MonthNamed(s, k).value <= 12 && |s| >= 3
              && EqualsIgnoreCase(s[..3], MONTHS[MonthNamed(s, k).value - 1])
    ensures MonthNamed(s, k).None? && |s| >= 3 ==> forall j :: k <= j < 12 ==> !EqualsIgnoreCase(s[..3], MONTHS[j])
    decreases 12 - k
  {
    hide EqualsIgnoreCase;
    if k < 12 && |s| >= 3 {
      MonthIsFound(s, k + 1);
    }
  }

  /** A month is told by its first three letters in any case, whatever follows them. */
  lemma MonthIsItsLetters(s: string, month: int)
    ensures MonthNamed(s, 0) == Some(month) <==>
            1 <= month <= 12 && |s| >= 3 && EqualsIgnoreCase(s[..3], MONTHS[month - 1])
  {
    MonthIsFound(s, 0);
    var found := MonthNamed(s, 0);
    if found.Some? && 1 <= month <= 12 && month != found.value && EqualsIgnoreCase(s[..3], MONTHS[month - 1]) {
      var i, j := if month < found.value then month - 1 else found.value - 1,
                  if month < found.value then found.value - 1 else month - 1;
      MonthLettersDiffer(i, j);
    }
  }
}
