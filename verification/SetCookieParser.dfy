/** The Set-Cookie parser (ruvia-http/src/cookie/http_set_cookie.cpp), after section 5.2 of
    RFC 6265: first what it computes, then the loops that compute it. */
module SetCookieParser {
  import opened CivilCalendar
  import opened HttpDate
  import opened HttpText
  import opened SetCookie
  import opened Wrappers

  datatype View = View(
    name: string, value: string, path: string, domain: string, expires: Option<int>, maxAge: Option<int>,
    sameSite: Option<SameSite>, secure: bool, httpOnly: bool, partitioned: bool)

  const AGE_LIMIT := 34560000
  const INT64_MIN := -0x8000_0000_0000_0000

  /** The first `c` at or after `from`, or the end. */
  function Find(s: string, c: char, from: nat): (i: nat)
    requires from <= |s|
    ensures from <= i <= |s| && (i < |s| ==> s[i] == c)
    ensures forall j :: from <= j < i ==> s[j] != c
    decreases |s| - from
  {
    if from == |s| || s[from] == c then from else Find(s, c, from + 1)
  }

  predicate RejectedControl(c: char) {
    c as int <= 0x08 || 0x0a <= c as int <= 0x1f || c as int == 0x7f
  }

  predicate HasControl(s: string) {
    exists k :: 0 <= k < |s| && RejectedControl(s[k])
  }

  // ----- Max-Age

  predicate AllDigits(s: string) {
    forall k :: 0 <= k < |s| ==> IsDigit(s[k])
  }

  /** The value of a string of digits. */
  function Number(s: string): int {
    if s == "" then 0 else Number(s[..|s| - 1]) * 10 + DigitValue(s[|s| - 1])
  }

  function MaxAgeSeconds(s: string): Option<int> {
    var negative := s != "" && s[0] == '-';
    var digits := if negative then s[1..] else s;
    if digits == "" || !AllDigits(digits) then None
    else
      var seconds := if negative then -Number(digits) else Number(digits);
      Some(if seconds < INT64_MIN then INT64_MIN else if seconds > AGE_LIMIT then AGE_LIMIT else seconds)
  }

  // ----- cookie dates, section 5.1.1

  predicate IsDelimiter(c: char) {
    c == '\t' || ' ' <= c <= '/' || ';' <= c <= '@' || '[' <= c <= '`' || '{' <= c <= '~'
  }

  /** How many digits a string starts with. */
  function Digits(s: string): (n: nat)
    ensures n <= |s| && (forall k :: 0 <= k < n ==> IsDigit(s[k])) && (n < |s| ==> !IsDigit(s[n]))
  {
    if s == "" || !IsDigit(s[0]) then 0 else 1 + Digits(s[1..])
  }

  datatype Consumed = Consumed(number: int, rest: string)

  function Consume(s: string, minimum: nat, maximum: nat): Option<Consumed> {
    var n := Digits(s);
    if n > maximum || n < minimum then None else Some(Consumed(Number(s[..n]), s[n..]))
  }

  datatype Clock = Clock(hour: int, minute: int, second: int)

  function ClockOf(s: string): Option<Clock> {
    var hour := Consume(s, 1, 2);
    if hour == None || hour.value.rest == "" || hour.value.rest[0] != ':' then None
    else
      var minute := Consume(hour.value.rest[1..], 1, 2);
      if minute == None || minute.value.rest == "" || minute.value.rest[0] != ':' then None
      else
        var second := Consume(minute.value.rest[1..], 1, 2);
        if second == None then None
        else Some(Clock(hour.value.number, minute.value.number, second.value.number))
  }

  /** The month whose name a string starts with, in any case, from the k-th on. */
  function MonthNamed(s: string, k: nat): Option<int>
    requires k <= 12
    decreases 12 - k
  {
    if k == 12 || |s| < 3 then None
    else if EqualsIgnoreCase(s[..3], MONTHS[k]) then Some(k + 1)
    else MonthNamed(s, k + 1)
  }

  datatype Found = Found(clock: Option<Clock>, day: Option<int>, month: Option<int>, year: Option<int>)

  /** Each token is taken for the first part that is missing and that it can be. */
  function Take(f: Found, token: string): Found {
    if f.clock == None && ClockOf(token).Some? then f.(clock := ClockOf(token))
    else if f.day == None && Consume(token, 1, 2).Some? then f.(day := Some(Consume(token, 1, 2).value.number))
    else if f.month == None && MonthNamed(token, 0).Some? then f.(month := MonthNamed(token, 0))
    else if f.year == None && Consume(token, 2, 4).Some? then f.(year := Some(Consume(token, 2, 4).value.number))
    else f
  }

  /** The end of the run of delimiters, or of other characters, that starts at `from`. */
  function RunEnd(s: string, delimiter: bool, from: nat): (i: nat)
    requires from <= |s|
    ensures from <= i <= |s| && (i < |s| ==> IsDelimiter(s[i]) != delimiter)
    ensures forall j :: from <= j < i ==> IsDelimiter(s[j]) == delimiter
    decreases |s| - from
  {
    if from == |s| || IsDelimiter(s[from]) != delimiter then from else RunEnd(s, delimiter, from + 1)
  }

  function TakeAll(s: string, f: Found): Found
    decreases |s|
  {
    if s == "" then f
    else if IsDelimiter(s[0]) then TakeAll(s[1..], f)
    else
      var end := RunEnd(s, false, 0);
      TakeAll(s[end..], Take(f, s[..end]))
  }

  function FullYear(year: int): int {
    if 70 <= year <= 99 then year + 1900 else if year <= 69 then year + 2000 else year
  }

  function DateOfParts(f: Found): Option<int> {
    if f.clock == None || f.day == None || f.month == None || f.year == None then None
    else
      var year, c := FullYear(f.year.value), f.clock.value;
      if year < 1601 || f.day.value < 1 || f.day.value > 31 || c.hour > 23 || c.minute > 59 || c.second > 59 then None
      else TimeOf(year, f.month.value, f.day.value, c.hour, c.minute, c.second)
  }

  const NOTHING := Found(None, None, None, None)

  function CookieDate(s: string): Option<int> {
    DateOfParts(TakeAll(s, NOTHING))
  }

  // ----- attributes

  datatype Split = Split(attribute: string, argument: string)

  function SplitAttribute(s: string): Split {
    var equals := Find(s, '=', 0);
    if equals == |s| then Split(Trim(s), "") else Split(Trim(s[..equals]), Trim(s[equals + 1..]))
  }

  function SameSiteOf(s: string): Option<SameSite> {
    if EqualsIgnoreCase(s, "Strict") then Some(Strict)
    else if EqualsIgnoreCase(s, "Lax") then Some(Lax)
    else if EqualsIgnoreCase(s, "None") then Some(NoSite)
    else None
  }

  /** One cookie-av of acceptable length. */
  function Apply(v: View, s: Split): View {
    var a, x := s.attribute, s.argument;
    if EqualsIgnoreCase(a, "Path") then v.(path := if x == "" || x[0] != '/' then "" else x)
    else if EqualsIgnoreCase(a, "Domain") then
      if x == "" then v else v.(domain := if x[0] == '.' then x[1..] else x)
    else if EqualsIgnoreCase(a, "Secure") then v.(secure := true)
    else if EqualsIgnoreCase(a, "Expires") then if CookieDate(x).Some? then v.(expires := CookieDate(x)) else v
    else if EqualsIgnoreCase(a, "Max-Age") then if MaxAgeSeconds(x).Some? then v.(maxAge := MaxAgeSeconds(x)) else v
    else if EqualsIgnoreCase(a, "SameSite") then v.(sameSite := SameSiteOf(x))
    else if EqualsIgnoreCase(a, "HttpOnly") then v.(httpOnly := true)
    else if EqualsIgnoreCase(a, "Partitioned") then v.(partitioned := true)
    else v
  }

  function ApplyPart(v: View, part: string): Option<View> {
    var s := SplitAttribute(part);
    if HasControl(s.attribute) || HasControl(s.argument) then None
    else if |s.argument| > MAX_ATTRIBUTE then Some(v)
    else Some(Apply(v, s))
  }

  /** The parts between semicolons, from the left; nothing follows a last semicolon. */
  function ApplyAll(v: View, rest: string): Option<View>
    decreases |rest|
  {
    if rest == "" then Some(v)
    else
      var end := Find(rest, ';', 0);
      var next := ApplyPart(v, rest[..end]);
      if next == None then None
      else if end == |rest| then next
      else ApplyAll(next.value, rest[end + 1..])
  }

  const EMPTY := View("", "", "", "", None, None, None, false, false, false)

  /** The cookie-pair, before the first semicolon. */
  function PairOf(pair: string): Option<View> {
    var equals := Find(pair, '=', 0);
    if equals == |pair| then None
    else
      var name, value := Trim(pair[..equals]), Trim(pair[equals + 1..]);
      if name == "" || |name| > MAX_NAME_VALUE || |value| > MAX_NAME_VALUE - |name|
         || HasControl(name) || HasControl(value)
      then None
      else Some(EMPTY.(name := name, value := value))
  }

  function Parse(text: string): Option<View> {
    var end := Find(text, ';', 0);
    var v := PairOf(text[..end]);
    if v == None || end == |text| then v else ApplyAll(v.value, text[end + 1..])
  }

  // ----- the loops

  /** consume_cookie_date_digits, with the number accumulated as the digits go by. */
  method ConsumeDigits(value: string, minimum: nat, maximum: nat) returns (r: Option<Consumed>)
    ensures r == Consume(value, minimum, maximum)
  {
    var digits, number := 0, 0;
    while digits < |value| && IsDigit(value[digits])
      invariant digits <= |value| && digits <= maximum && number == Number(value[..digits])
      invariant forall k :: 0 <= k < digits ==> IsDigit(value[k])
    {
      DigitsReach(value, digits + 1);
      if digits == maximum {
        return None;
      }
      assert value[..digits + 1][..digits] == value[..digits];
      number := number * 10 + DigitValue(value[digits]);
      digits := digits + 1;
    }
    assert Digits(value) == digits;
    if digits < minimum {
      return None;
    }
    r := Some(Consumed(number, value[digits..]));
  }

  lemma DigitsReach(value: string, n: nat)
    requires n <= |value| && forall k :: 0 <= k < n ==> IsDigit(value[k])
    ensures Digits(value) >= n
  {
  }

  /** parse_max_age_seconds, apart from the conversion of the digits themselves. */
  method ParseMaxAge(value: string) returns (r: Option<int>)
    ensures r == MaxAgeSeconds(value)
  {
    if value == "" {
      return None;
    }
    var negative := value[0] == '-';
    var k := if negative then 1 else 0;
    if k == |value| {
      return None;
    }
    var digits := value[k..];
    while k < |value|
      invariant (if negative then 1 else 0) <= k <= |value|
      invariant forall j :: (if negative then 1 else 0) <= j < k ==> IsDigit(value[j])
    {
      if !IsDigit(value[k]) {
        assert digits[if negative then k - 1 else k] == value[k];
        return None;
      }
      k := k + 1;
    }
    var seconds := if negative then -Number(digits) else Number(digits);
    if seconds < INT64_MIN {
      return Some(INT64_MIN);
    }
    r := Some(if seconds > AGE_LIMIT then AGE_LIMIT else seconds);
  }

  lemma {:induction false} SkipsDelimiters(s: string, f: Found, from: nat, to: nat)
    requires from <= to <= |s| && forall k :: from <= k < to ==> IsDelimiter(s[k])
    ensures TakeAll(s[from..], f) == TakeAll(s[to..], f)
    decreases |s| - from
  {
    if from < to {
      assert s[from..][1..] == s[from + 1..];
      SkipsDelimiters(s, f, from + 1, to);
    }
  }

  lemma TakesToken(s: string, f: Found, begin: nat, end: nat)
    requires begin < end <= |s| && (forall k :: begin <= k < end ==> !IsDelimiter(s[k]))
    requires end < |s| ==> IsDelimiter(s[end])
    ensures TakeAll(s[begin..], f) == TakeAll(s[end..], Take(f, s[begin..end]))
  {
    var rest := s[begin..];
    assert RunEnd(rest, false, 0) == end - begin;
    assert rest[..end - begin] == s[begin..end] && rest[end - begin..] == s[end..];
  }

  /** parse_cookie_date: one token after another. */
  method ParseCookieDate(value: string) returns (r: Option<int>)
    ensures r == CookieDate(value)
  {
    var found, cursor := NOTHING, 0;
    while cursor < |value|
      invariant cursor <= |value|
      invariant TakeAll(value[cursor..], found) == TakeAll(value, NOTHING)
      decreases |value| - cursor
    {
      ghost var start := cursor;
      while cursor < |value| && IsDelimiter(value[cursor])
        invariant start <= cursor <= |value| && forall k :: start <= k < cursor ==> IsDelimiter(value[k])
      {
        cursor := cursor + 1;
      }
      SkipsDelimiters(value, found, start, cursor);
      var begin := cursor;
      while cursor < |value| && !IsDelimiter(value[cursor])
        invariant begin <= cursor <= |value| && forall k :: begin <= k < cursor ==> !IsDelimiter(value[k])
      {
        cursor := cursor + 1;
      }
      if begin < cursor {
        TakesToken(value, found, begin, cursor);
        found := Take(found, value[begin..cursor]);
      }
    }
    assert value[cursor..] == "";
    r := DateOfParts(found);
  }

  /** The switch on the length of the attribute name changes nothing. */
  method ApplyBySize(v: View, s: Split) returns (r: View)
    ensures r == Apply(v, s)
  {
    var a, x := s.attribute, s.argument;
    r := v;
    if |a| == 4 {
      if EqualsIgnoreCase(a, "Path") {
        r := v.(path := if x == "" || x[0] != '/' then "" else x);
      }
    } else if |a| == 6 {
      if EqualsIgnoreCase(a, "Domain") {
        if x != "" {
          r := v.(domain := if x[0] == '.' then x[1..] else x);
        }
      } else if EqualsIgnoreCase(a, "Secure") {
        r := v.(secure := true);
      }
    } else if |a| == 7 {
      if EqualsIgnoreCase(a, "Expires") {
        var expires := ParseCookieDate(x);
        if expires.Some? {
          r := v.(expires := expires);
        }
      } else if EqualsIgnoreCase(a, "Max-Age") {
        var seconds := ParseMaxAge(x);
        if seconds.Some? {
          r := v.(maxAge := seconds);
        }
      }
    } else if |a| == 8 {
      if EqualsIgnoreCase(a, "SameSite") {
        r := v.(sameSite := SameSiteOf(x));
      } else if EqualsIgnoreCase(a, "HttpOnly") {
        r := v.(httpOnly := true);
      }
    } else if |a| == 11 {
      if EqualsIgnoreCase(a, "Partitioned") {
        r := v.(partitioned := true);
      }
    }
  }

  lemma FindFrom(s: string, c: char, from: nat)
    requires from <= |s|
    ensures Find(s[from..], c, 0) == Find(s, c, from) - from
  {
    var i, j := Find(s[from..], c, 0), Find(s, c, from);
    assert j < |s| ==> s[from..][j - from] == s[j];
    assert from + i < |s| ==> s[from..][i] == s[from + i];
    assert forall k :: from <= k < j ==> s[from..][k - from] == s[k];
  }

  lemma NextPart(v: View, text: string, offset: nat)
    requires offset < |text|
    ensures var end := Find(text, ';', offset);
            var next := ApplyPart(v, text[offset..end]);
            ApplyAll(v, text[offset..]) ==
              if next == None then None else if end == |text| then next else ApplyAll(next.value, text[end + 1..])
  {
    hide ApplyPart;
    var end := Find(text, ';', offset);
    FindFrom(text, ';', offset);
    assert text[offset..][..end - offset] == text[offset..end];
    if end < |text| {
      assert text[offset..][end - offset + 1..] == text[end + 1..];
    }
  }

  /** parse_set_cookie */
  method ParseSetCookie(text: string) returns (r: Option<View>)
    ensures r == Parse(text)
  {
    hide Apply, ApplyPart, ApplyAll, PairOf;
    var first := Find(text, ';', 0);
    r := PairOf(text[..first]);
    if r == None {
      return;
    }
    var v, offset := r.value, if first == |text| then |text| else first + 1;
    NothingLeft(r.value);
    assert first == |text| ==> text[offset..] == "";
    while offset < |text|
      invariant 0 <= offset <= |text|
      invariant Parse(text) == ApplyAll(v, text[offset..])
      decreases |text| - offset
    {
      var end := Find(text, ';', offset);
      NextPart(v, text, offset);
      var next := ApplyOne(v, text[offset..end]);
      if next == None {
        return None;
      }
      v := next.value;
      if end == |text| {
        return Some(v);
      }
      offset := end + 1;
    }
    NothingLeft(v);
    assert text[offset..] == "";
    r := Some(v);
  }

  lemma NothingLeft(v: View)
    ensures ApplyAll(v, "") == Some(v)
  {
  }

  method ApplyOne(v: View, part: string) returns (r: Option<View>)
    ensures r == ApplyPart(v, part)
  {
    var s := SplitAttribute(part);
    if HasControl(s.attribute) || HasControl(s.argument) {
      return None;
    }
    var next := v;
    if |s.argument| <= MAX_ATTRIBUTE {
      next := ApplyBySize(v, s);
    }
    r := Some(next);
  }
}
