/** Text helpers of the HTTP field grammar (ruvia-http/include/ruvia/http/http_field_syntax.h,
    ruvia-http/include/ruvia/http/http_ascii.h). */
module HttpText {

  /** Optional whitespace: SP or HTAB. */
  predicate IsOws(c: char) {
    c == ' ' || c == '\t'
  }

  function TrimFront(s: string): string {
    if s != "" && IsOws(s[0]) then TrimFront(s[1..]) else s
  }

  function TrimBack(s: string): string {
    if s != "" && IsOws(s[|s| - 1]) then TrimBack(s[..|s| - 1]) else s
  }

  function Trim(s: string): string {
    TrimBack(TrimFront(s))
  }

  /** No whitespace at either end. */
  predicate Tight(s: string) {
    s == "" || (!IsOws(s[0]) && !IsOws(s[|s| - 1]))
  }

  lemma {:induction false} TrimIsTight(s: string)
    ensures Tight(Trim(s)) && (Tight(s) <==> Trim(s) == s)
  {
    FrontIsTight(s);
    BackIsTight(TrimFront(s));
  }

  lemma {:induction false} FrontIsTight(s: string)
    ensures TrimFront(s) == "" || !IsOws(TrimFront(s)[0])
    ensures |TrimFront(s)| <= |s| && (s != "" && IsOws(s[0]) ==> |TrimFront(s)| < |s|)
    ensures s != "" && !IsOws(s[|s| - 1]) ==> TrimFront(s) != "" && !IsOws(TrimFront(s)[|TrimFront(s)| - 1])
  {
    if s != "" && IsOws(s[0]) {
      FrontIsTight(s[1..]);
    }
  }

  lemma {:induction false} BackIsTight(s: string)
    requires s == "" || !IsOws(s[0])
    ensures Tight(TrimBack(s))
    ensures |TrimBack(s)| <= |s| && (s != "" && IsOws(s[|s| - 1]) ==> |TrimBack(s)| < |s|)
  {
    if s != "" && IsOws(s[|s| - 1]) {
      BackIsTight(s[..|s| - 1]);
    }
  }

  predicate Blank(s: string) {
    forall k :: 0 <= k < |s| ==> IsOws(s[k])
  }

  lemma {:induction false} FrontIsTrimmed(front: string, rest: string)
    requires Blank(front) && (rest == "" || !IsOws(rest[0]))
    ensures TrimFront(front + rest) == rest
    decreases |front|
  {
    if front == "" {
      assert front + rest == rest;
    } else {
      assert (front + rest)[1..] == front[1..] + rest;
      FrontIsTrimmed(front[1..], rest);
    }
  }

  lemma {:induction false} BackIsTrimmed(rest: string, back: string)
    requires Blank(back) && (rest == "" || !IsOws(rest[|rest| - 1]))
    ensures TrimBack(rest + back) == rest
    decreases |back|
  {
    if back == "" {
      assert rest + back == rest;
    } else {
      assert (rest + back)[..|rest + back| - 1] == rest + back[..|back| - 1];
      BackIsTrimmed(rest, back[..|back| - 1]);
    }
  }

  /** Trimming takes the whitespace at both ends and nothing else. */
  lemma TrimStrips(front: string, s: string, back: string)
    requires Blank(front) && Blank(back) && Tight(s)
    ensures Trim(front + s + back) == s
  {
    if s == "" {
      FrontIsTrimmed(front + back, "");
      assert front + s + back == front + back + "";
    } else {
      FrontIsTrimmed(front, s + back);
      BackIsTrimmed(s, back);
      assert front + s + back == front + (s + back);
    }
  }

  lemma {:induction false} FrontApart(s: string) returns (front: string)
    ensures Blank(front) && s == front + TrimFront(s)
  {
    if s != "" && IsOws(s[0]) {
      front := FrontApart(s[1..]);
      front := [s[0]] + front;
    } else {
      front := "";
    }
  }

  lemma {:induction false} BackApart(s: string) returns (back: string)
    ensures Blank(back) && s == TrimBack(s) + back
  {
    if s != "" && IsOws(s[|s| - 1]) {
      back := BackApart(s[..|s| - 1]);
      assert s == TrimBack(s) + (back + [s[|s| - 1]]);
      back := back + [s[|s| - 1]];
    } else {
      back := "";
    }
  }

  /** More whitespace around a text makes no difference. */
  lemma BlanksDoNotMatter(front: string, s: string, back: string)
    requires Blank(front) && Blank(back)
    ensures Trim(front + s + back) == Trim(s)
  {
    hide TrimFront, TrimBack, Blank;
    var a := FrontApart(s);
    var b := BackApart(TrimFront(s));
    TrimIsTight(s);
    assert front + s + back == (front + a) + Trim(s) + (b + back);
    assert Blank(front + a) && Blank(b + back) by {
      BlankConcat(front, a);
      BlankConcat(b, back);
    }
    TrimStrips(front + a, Trim(s), b + back);
  }

  lemma BlankConcat(a: string, b: string)
    requires Blank(a) && Blank(b)
    ensures Blank(a + b)
  {
  }

  /** http_trim_ows */
  method TrimOws(text: string) returns (value: string)
    ensures value == Trim(text)
  {
    value := text;
    while value != "" && IsOws(value[0])
      invariant TrimFront(value) == TrimFront(text)
      decreases |value|
    {
      value := value[1..];
    }
    while value != "" && IsOws(value[|value| - 1])
      invariant TrimBack(value) == Trim(text)
      decreases |value|
    {
      value := value[..|value| - 1];
    }
  }

  function ToLower(c: char): char {
    if 'A' <= c <= 'Z' then ((c as int) + 32) as char else c
  }

  predicate EqualsIgnoreCase(a: string, b: string) {
    |a| == |b| && forall k :: 0 <= k < |a| ==> ToLower(a[k]) == ToLower(b[k])
  }

  function Capital(c: char): char {
    if 'a' <= c <= 'z' then ((c as int) - 32) as char else c
  }

  /** Texts are equal without regard to case iff they are the same in capitals. */
  lemma SameInCapitals(a: string, b: string)
    ensures EqualsIgnoreCase(a, b) <==> |a| == |b| && forall k :: 0 <= k < |a| ==> Capital(a[k]) == Capital(b[k])
  {
  }

  predicate IsDigit(c: char) {
    '0' <= c <= '9'
  }

  function Digit(d: int): (c: char)
    requires 0 <= d < 10
    ensures IsDigit(c) && DigitValue(c) == d
  {
    (d + '0' as int) as char
  }

  function DigitValue(c: char): int {
    c as int - '0' as int
  }
}
