/** What the Set-Cookie parser makes of field values that nobody here wrote, and what the writer's checks are for. */
module CookieMeaning {
  import opened CookieRoundTrip
  import opened HttpDate
  import opened HttpText
  import opened SetCookie
  import opened SetCookieParser
  import opened Wrappers

  predicate Free(s: string, c: char) {
    forall k :: 0 <= k < |s| ==> s[k] != c
  }

  // ----- one more attribute

  lemma {:induction false} AllAppends(v: View, rest: string, part: string)
    requires Free(part, ';')
    ensures ApplyAll(v, rest + (";" + part)) ==
            var w := ApplyAll(v, rest);
            if w == None || part == "" then w else ApplyPart(w.value, part)
    decreases |rest|
  {
    hide ApplyPart;
    var whole := rest + (";" + part);
    var end := Find(rest, ';', 0);
    FirstSemicolon(rest, ";" + part);
    assert whole[..end] == rest[..end];
    assert (";" + part)[1..] == part;
    if rest == "" {
      EmptyPart(v);
      LastPart(v, part);
      assert whole[1..] == part;
    } else {
      var next := ApplyPart(v, rest[..end]);
      if next.Some? {
        if end == |rest| {
          assert whole[end + 1..] == part;
          LastPart(next.value, part);
        } else {
          assert whole[end + 1..] == rest[end + 1..] + (";" + part);
          AllAppends(next.value, rest[end + 1..], part);
        }
      }
    }
  }

  lemma FirstSemicolon(s: string, t: string)
    requires t != "" && t[0] == ';'
    ensures Find(s + t, ';', 0) == Find(s, ';', 0)
  {
    var i, j := Find(s + t, ';', 0), Find(s, ';', 0);
    assert (s + t)[|s|] == ';';
    assert forall k :: 0 <= k < |s| ==> (s + t)[k] == s[k];
  }

  lemma EmptyPart(v: View)
    ensures ApplyPart(v, "") == Some(v)
  {
  }

  lemma LastPart(v: View, part: string)
    requires Free(part, ';')
    ensures ApplyAll(v, part) == if part == "" then Some(v) else ApplyPart(v, part)
  {
    assert Find(part, ';', 0) == |part|;
    assert part[..|part|] == part;
  }

  /** What an attribute at the end of a field value does depends only on what was read before it. */
  lemma AttributeAppended(text: string, part: string)
    requires Free(part, ';')
    ensures Parse(text + (";" + part)) ==
            var v := Parse(text);
            if v == None || part == "" then v else ApplyPart(v.value, part)
  {
    hide PairOf, ApplyPart, ApplyAll, Find;
    var end := Find(text, ';', 0);
    var whole := text + (";" + part);
    FirstSemicolon(text, ";" + part);
    assert whole[..end] == text[..end];
    var v := PairOf(text[..end]);
    if v.Some? {
      if end == |text| {
        assert whole[end + 1..] == part;
        LastPart(v.value, part);
      } else {
        assert whole[end + 1..] == text[end + 1..] + (";" + part);
        AllAppends(v.value, text[end + 1..], part);
      }
    }
  }

  lemma SplitAtEquals(left: string, right: string)
    requires Free(left, '=')
    ensures SplitAttribute(left + ("=" + right)) == Split(Trim(left), Trim(right))
  {
    FindAfter(left, '=', "=" + right);
    var s := left + ("=" + right);
    assert s[..|left|] == left && s[|left| + 1..] == right;
  }

  // ----- what each attribute means

  /** An attribute of that name, in any case and with any whitespace, whose argument is x. */
  predicate Says(left: string, right: string, name: string, x: string) {
    && Free(left, '=') && Free(left, ';') && Free(right, ';')
    && EqualsIgnoreCase(Trim(left), name) && Trim(right) == x
    && Harmless(Trim(left)) && Harmless(x) && |x| <= 1024
  }

  /** HTAB is the only control character that is let through. */
  predicate Harmless(s: string) {
    forall k :: 0 <= k < |s| ==> s[k] == '\t' || (s[k] >= ' ' && s[k] != 127 as char)
  }

  lemma HarmlessIsUnrejected(s: string)
    ensures Harmless(s) <==> !HasControl(s)
  {
    if Harmless(s) {
      forall k | 0 <= k < |s| ensures !RejectedControl(s[k]) {
      }
    } else {
      var k :| 0 <= k < |s| && !(s[k] == '\t' || (s[k] >= ' ' && s[k] != 127 as char));
      assert RejectedControl(s[k]);
    }
  }

  /** The field value with one more attribute. */
  function Plus(text: string, left: string, right: string): string {
    text + (";" + (left + ("=" + right)))
  }

  lemma SaidIsApplied(text: string, left: string, right: string, name: string, x: string)
    requires Parse(text).Some? && Says(left, right, name, x)
    ensures Parse(Plus(text, left, right)) == Some(Apply(Parse(text).value, Split(Trim(left), x)))
    ensures EqualsIgnoreCase(Trim(left), name)
  {
    hide Parse, Apply, SplitAttribute, HasControl, Trim, Harmless;
    AttributeAppended(text, left + ("=" + right));
    SplitAtEquals(left, right);
    HarmlessIsUnrejected(Trim(left));
    HarmlessIsUnrejected(x);
  }

  /** A text has at most one of the names. */
  lemma OneName(a: string, m: string, n: string)
    requires EqualsIgnoreCase(a, m) && !EqualsIgnoreCase(m, n)
    ensures !EqualsIgnoreCase(a, n)
  {
    if |m| == |n| {
      var k :| 0 <= k < |m| && ToLower(m[k]) != ToLower(n[k]);
      assert ToLower(a[k]) == ToLower(m[k]);
    }
  }

  /** An absolute path counts; anything else takes back whatever path was given before. */
  lemma PathIsRead(text: string, left: string, right: string, x: string)
    requires Parse(text).Some? && Says(left, right, "Path", x)
    ensures var v := Parse(text).value;
            Parse(Plus(text, left, right)) == Some(v.(path := if "/" <= x then x else ""))
  {
    hide Parse, Says;
    SaidIsApplied(text, left, right, "Path", x);
  }

  /** A leading dot is dropped, and a Domain without argument ignored. */
  lemma DomainIsRead(text: string, left: string, right: string, x: string)
    requires Parse(text).Some? && Says(left, right, "Domain", x)
    ensures var v, r := Parse(text).value, Parse(Plus(text, left, right));
            && (x == "" ==> r == Some(v))
            && (x != "" && x[0] != '.' ==> r == Some(v.(domain := x)))
            && (forall d: string :: x == "." + d ==> r == Some(v.(domain := d)))
  {
    hide Parse, Says;
    SaidIsApplied(text, left, right, "Domain", x);
    forall d: string | x == "." + d ensures x != "" && x[0] == '.' && x[1..] == d {
    }
  }

  /** The last date that can be read counts. */
  lemma ExpiresIsRead(text: string, left: string, right: string, x: string)
    requires Parse(text).Some? && Says(left, right, "Expires", x)
    ensures var v, r := Parse(text).value, Parse(Plus(text, left, right));
            && (CookieDate(x) == None ==> r == Some(v))
            && (forall time :: CookieDate(x) == Some(time) ==> r == Some(v.(expires := Some(time))))
  {
    hide Parse, Says, CookieDate;
    SaidIsApplied(text, left, right, "Expires", x);
  }

  /** The digits of the argument, and its sign. */
  predicate Numeral(x: string, negative: bool, digits: string) {
    digits != "" && AllDigits(digits) && x == if negative then "-" + digits else digits
  }

  /** The last number of seconds that can be read counts: at most 400 days, at least what 64 bits can hold. */
  lemma MaxAgeMeaning(text: string, left: string, right: string, x: string)
    requires Parse(text).Some? && Says(left, right, "Max-Age", x)
    ensures var v, r := Parse(text).value, Parse(Plus(text, left, right));
            && ((forall negative, digits :: !Numeral(x, negative, digits)) ==> r == Some(v))
            && (forall digits :: Numeral(x, false, digits) ==>
                  r == Some(v.(maxAge := Some(if Number(digits) > 34560000 then 34560000 else Number(digits)))))
            && (forall digits :: Numeral(x, true, digits) ==>
                  r == Some(v.(maxAge := Some(if Number(digits) > 0x8000_0000_0000_0000 then -0x8000_0000_0000_0000
                                              else -Number(digits)))))
  {
    hide Parse, Says, Number;
    SaidIsApplied(text, left, right, "Max-Age", x);
    OneName(Trim(left), "Max-Age", "Expires") by { NamesDiffer(); }
    forall digits | Numeral(x, false, digits)
      ensures MaxAgeSeconds(x) == Some(if Number(digits) > 34560000 then 34560000 else Number(digits))
    {
      PlainNumeral(x);
    }
    forall digits | Numeral(x, true, digits)
      ensures MaxAgeSeconds(x) == Some(if Number(digits) > 0x8000_0000_0000_0000 then -0x8000_0000_0000_0000
                                       else -Number(digits))
    {
      SignedNumeral(x, digits);
    }
    if MaxAgeSeconds(x).Some? {
      ReadIsNumeral(x);
    }
  }

  lemma {:induction false} NumberIsNatural(s: string)
    requires AllDigits(s)
    ensures Number(s) >= 0
  {
    if s != "" {
      NumberIsNatural(s[..|s| - 1]);
    }
  }

  lemma PlainNumeral(x: string)
    requires x != "" && AllDigits(x)
    ensures MaxAgeSeconds(x) == Some(if Number(x) > 34560000 then 34560000 else Number(x))
  {
    hide Number;
    NumberIsNatural(x);
    assert IsDigit(x[0]);
  }

  lemma SignedNumeral(x: string, digits: string)
    requires digits != "" && AllDigits(digits) && x == "-" + digits
    ensures MaxAgeSeconds(x) == Some(if Number(digits) > 0x8000_0000_0000_0000 then -0x8000_0000_0000_0000
                                     else -Number(digits))
  {
    hide Number;
    NumberIsNatural(digits);
    assert x[0] == '-' && x[1..] == digits;
  }

  lemma ReadIsNumeral(x: string)
    requires MaxAgeSeconds(x).Some?
    ensures exists negative, digits :: Numeral(x, negative, digits)
  {
    hide Number;
    if x[0] == '-' {
      assert x == "-" + x[1..];
      assert Numeral(x, true, x[1..]);
    } else {
      assert Numeral(x, false, x);
    }
  }

  /** One of the three policies in any case; anything else takes back whatever policy was given before. */
  lemma SameSiteMeaning(text: string, left: string, right: string, x: string)
    requires Parse(text).Some? && Says(left, right, "SameSite", x)
    ensures var v, r := Parse(text).value, Parse(Plus(text, left, right));
            && (EqualsIgnoreCase(x, "Strict") ==> r == Some(v.(sameSite := Some(Strict))))
            && (EqualsIgnoreCase(x, "Lax") ==> r == Some(v.(sameSite := Some(Lax))))
            && (EqualsIgnoreCase(x, "None") ==> r == Some(v.(sameSite := Some(NoSite))))
            && (!EqualsIgnoreCase(x, "Strict") && !EqualsIgnoreCase(x, "Lax") && !EqualsIgnoreCase(x, "None") ==>
                  r == Some(v.(sameSite := None)))
  {
    hide Parse, Says;
    SaidIsApplied(text, left, right, "SameSite", x);
  }

  /** The flags count whatever their argument. */
  lemma FlagsAreRead(text: string, left: string, right: string, x: string)
    requires Parse(text).Some?
    ensures var v, r := Parse(text).value, Parse(Plus(text, left, right));
            && (Says(left, right, "Secure", x) ==> r == Some(v.(secure := true)))
            && (Says(left, right, "HttpOnly", x) ==> r == Some(v.(httpOnly := true)))
            && (Says(left, right, "Partitioned", x) ==> r == Some(v.(partitioned := true)))
  {
    hide Parse, Says;
    if Says(left, right, "Secure", x) {
      SaidIsApplied(text, left, right, "Secure", x);
      OneName(Trim(left), "Secure", "Domain") by { NamesDiffer(); }
    }
    if Says(left, right, "HttpOnly", x) {
      SaidIsApplied(text, left, right, "HttpOnly", x);
      OneName(Trim(left), "HttpOnly", "SameSite") by { NamesDiffer(); }
    }
    if Says(left, right, "Partitioned", x) {
      SaidIsApplied(text, left, right, "Partitioned", x);
    }
  }

  const NAMES: seq<string> :=
    ["Path", "Domain", "Secure", "Expires", "Max-Age", "SameSite", "HttpOnly", "Partitioned"]

  /** An unknown attribute, or one with an argument of more than 1024 characters, is ignored; a control character
      in either of its sides makes the whole cookie ignored. */
  lemma WhatIsIgnored(text: string, left: string, right: string)
    requires Parse(text).Some? && Free(left, '=') && Free(left, ';') && Free(right, ';')
    ensures var v, r := Parse(text).value, Parse(Plus(text, left, right));
            var harmless := Harmless(Trim(left)) && Harmless(Trim(right));
            && (!harmless ==> r == None)
            && (harmless && |Trim(right)| > 1024 ==> r == Some(v))
            && (harmless && (forall k :: 0 <= k < |NAMES| ==> !EqualsIgnoreCase(Trim(left), NAMES[k])) ==> r == Some(v))
  {
    hide Parse, SplitAttribute, HasControl, Trim, Harmless, EqualsIgnoreCase;
    AttributeAppended(text, left + ("=" + right));
    SplitAtEquals(left, right);
    HarmlessIsUnrejected(Trim(left));
    HarmlessIsUnrejected(Trim(right));
    if forall k :: 0 <= k < |NAMES| ==> !EqualsIgnoreCase(Trim(left), NAMES[k]) {
      assert !EqualsIgnoreCase(Trim(left), NAMES[0]) && !EqualsIgnoreCase(Trim(left), NAMES[1]);
      assert !EqualsIgnoreCase(Trim(left), NAMES[2]) && !EqualsIgnoreCase(Trim(left), NAMES[3]);
      assert !EqualsIgnoreCase(Trim(left), NAMES[4]) && !EqualsIgnoreCase(Trim(left), NAMES[5]);
      assert !EqualsIgnoreCase(Trim(left), NAMES[6]) && !EqualsIgnoreCase(Trim(left), NAMES[7]);
    }
  }

  // ----- the pair

  /** A pair is accepted iff it has an equals sign, a name, at most 4096 characters beside whitespace and no control
      character. */
  lemma PairIsAcceptedIff(left: string, right: string)
    requires Free(left, '=') && Free(left, ';') && Free(right, ';')
    ensures Parse(left) == None
    ensures var name, value := Trim(left), Trim(right);
            Parse(left + ("=" + right)) ==
              if name != "" && |name| + |value| <= 4096 && Harmless(name) && Harmless(value)
              then Some(EMPTY.(name := name, value := value)) else None
  {
    hide Trim, HasControl, Harmless;
    var pair := left + ("=" + right);
    FindAfter(left, '=', "=" + right);
    assert pair[..|left|] == left && pair[|left| + 1..] == right;
    HarmlessIsUnrejected(Trim(left));
    HarmlessIsUnrejected(Trim(right));
    assert Find(left, ';', 0) == |left| && left[..|left|] == left && Find(left, '=', 0) == |left|;
    assert Find(pair, ';', 0) == |pair| && pair[..|pair|] == pair;
  }

  // ----- what the writer's checks are for

  predicate StartsLike(s: string, prefix: string) {
    |s| >= |prefix| && EqualsIgnoreCase(s[..|prefix|], prefix)
  }

  /** What a user agent asks of a cookie before it stores it (section 5.7 of RFC 6265bis): the promises of the two
      name prefixes in any case, and Secure with SameSite=None and with Partitioned. */
  predicate Storable(v: View) {
    && (StartsLike(v.name, "__Secure-") ==> v.secure)
    && (StartsLike(v.name, "__Host-") ==> v.secure && v.path == "/" && v.domain == "")
    && (v.sameSite == Some(NoSite) ==> v.secure)
    && (v.partitioned ==> v.secure)
  }

  /** Every cookie that the writer lets through can be stored, by what is read back from the wire. */
  lemma WrittenIsStorable(name: string, value: string, o: Options)
    requires ValidCookie(name, value, o) && Datable(o)
    ensures Parse(Wire(name, value, o)).Some? && Storable(Parse(Wire(name, value, o)).value)
  {
    hide ValidName, ValidValue, ValidPath, ValidDomain, Wire, Parse, EqualsIgnoreCase, Datable;
    CookieIsRecovered(name, value, o);
    WireName(name, o);
  }

  /** A typed prefix is the prefix of the wire name, and without one the name's own is. */
  lemma WireName(name: string, o: Options)
    ensures var s := PrefixText(o.prefix) + name;
            && (StartsLike(s, "__Host-") <==> if o.prefix.Some? then o.prefix == Some(HostPrefix)
                                              else NamePrefix(name) == Some(HostPrefix))
            && (StartsLike(s, "__Secure-") <==> if o.prefix.Some? then o.prefix == Some(SecurePrefix)
                                                else NamePrefix(name) == Some(SecurePrefix))
  {
    var s := PrefixText(o.prefix) + name;
    match o.prefix
    case None =>
      assert s == name;
    case Some(HostPrefix) =>
      assert s[..7] == "__Host-";
      assert s[2] == 'H';
    case Some(SecurePrefix) =>
      assert s[..9] == "__Secure-";
      assert s[2] == 'S';
  }

  /** A lifetime is never negative and never written as zero: zero is written as a date in the past. */
  lemma LifetimeIsWritten(name: string, value: string, o: Options)
    requires ValidCookie(name, value, o) && Datable(o)
    ensures Parse(Wire(name, value, o)).Some?
    ensures var v := Parse(Wire(name, value, o)).value;
            && (v.maxAge.Some? <==> o.maxAge.Some? && o.maxAge.value != 0) && (v.maxAge.Some? ==> v.maxAge.value > 0)
            && (o.maxAge == Some(0) ==> v.expires == Some(0))
            && (o.maxAge != Some(0) && o.expires.Some? ==> v.expires == Some(o.expires.value.Floor))
            && (o.maxAge != Some(0) && o.expires.None? ==> v.expires == None)
  {
    hide ValidName, ValidValue, ValidPath, ValidDomain, Wire, Parse, Datable;
    CookieIsRecovered(name, value, o);
  }

  /** A value may be put in quotes, and only as a whole. */
  lemma QuotesSurround(value: string)
    requires Free(value, '"')
    ensures ValidValue("\"" + value + "\"") <==> ValidValue(value)
    ensures value != "" ==> !ValidValue("\"" + value) && !ValidValue(value + "\"")
  {
    var quoted, first, last := "\"" + value + "\"", "\"" + value, value + "\"";
    assert quoted[1..|quoted| - 1] == value;
    if value != "" {
      assert value[0] != '"' && value[|value| - 1] != '"';
      assert first[|first| - 1] == value[|value| - 1] && !IsCookieOctet(first[0]);
      assert last[0] == value[0] && !IsCookieOctet(last[|last| - 1]);
    }
  }

  // ----- domains

  /** 1 to 63 letters, digits and hyphens, with a letter or digit at both ends (section 2.1 of RFC 1123). */
  predicate Label(s: string) {
    && 0 < |s| <= 63 && IsAlnum(s[0]) && IsAlnum(s[|s| - 1])
    && forall k :: 0 <= k < |s| ==> IsAlnum(s[k]) || s[k] == '-'
  }

  function Dotted(labels: seq<string>): string
    decreases |labels|
  {
    if labels == [] then ""
    else if |labels| == 1 then labels[0]
    else labels[0] + ("." + Dotted(labels[1..]))
  }

  /** The label that is under way: what is there of it, and what is still to come. */
  predicate GoesOn(length: nat, alnum: bool, s: string) {
    && length + |s| <= 63 && length + |s| > 0
    && (length == 0 ==> IsAlnum(s[0])) && (if s == "" then alnum else IsAlnum(s[|s| - 1]))
    && forall k :: 0 <= k < |s| ==> IsAlnum(s[k]) || s[k] == '-'
  }

  lemma {:induction false} LabelIsScanned(s: string, rest: string, length: nat, alnum: bool)
    requires Free(s, '.') && (rest == "" || rest[0] == '.') && length <= 63
    ensures DomainFrom(s + rest, length, alnum) <==>
            GoesOn(length, alnum, s) && (rest == "" || DomainFrom(rest[1..], 0, false))
    decreases |s|
  {
    if s == "" {
      assert s + rest == rest;
    } else {
      assert (s + rest)[1..] == s[1..] + rest && (s + rest)[0] == s[0];
      if length < 63 {
        LabelIsScanned(s[1..], rest, length + 1, IsAlnum(s[0]));
        LabelStep(s, length, alnum);
      }
    }
  }

  lemma LabelStep(s: string, length: nat, alnum: bool)
    requires s != "" && length < 63 && Free(s, '.')
    ensures GoesOn(length, alnum, s) <==>
            && (IsAlnum(s[0]) || s[0] == '-') && (length == 0 ==> IsAlnum(s[0]))
            && GoesOn(length + 1, IsAlnum(s[0]), s[1..])
  {
    var tail := s[1..];
    assert forall k :: 0 <= k < |tail| ==> tail[k] == s[k + 1];
    if (IsAlnum(s[0]) || s[0] == '-') && (length == 0 ==> IsAlnum(s[0])) && GoesOn(length + 1, IsAlnum(s[0]), tail) {
      forall k | 0 <= k < |s| ensures IsAlnum(s[k]) || s[k] == '-' {
        assert k > 0 ==> s[k] == tail[k - 1];
      }
    }
  }

  /** A domain is accepted iff it is no longer than 253 characters and its dots separate labels. */
  lemma DomainIsValidIff(labels: seq<string>)
    requires labels != [] && forall k :: 0 <= k < |labels| ==> Free(labels[k], '.')
    ensures Dotted(labels) != "" ==>
              (ValidDomain(Dotted(labels)) <==>
                |Dotted(labels)| <= 253 && forall k :: 0 <= k < |labels| ==> Label(labels[k]))
  {
    hide DomainFrom, Dotted, Label;
    LabelsAreScanned(labels);
  }

  lemma {:induction false} LabelsAreScanned(labels: seq<string>)
    requires labels != [] && forall k :: 0 <= k < |labels| ==> Free(labels[k], '.')
    ensures DomainFrom(Dotted(labels), 0, false) <==> forall k :: 0 <= k < |labels| ==> Label(labels[k])
    decreases |labels|
  {
    hide DomainFrom, Label, GoesOn;
    var first, rest := labels[0], labels[1..];
    FreshLabel(first);
    if |labels| == 1 {
      LabelIsScanned(first, "", 0, false);
      assert first + "" == first;
    } else {
      var tail := "." + Dotted(rest);
      LabelIsScanned(first, tail, 0, false);
      assert tail[1..] == Dotted(rest);
      LabelsAreScanned(rest);
      assert forall k :: 0 < k < |labels| ==> labels[k] == rest[k - 1];
      assert forall k :: 0 <= k < |rest| ==> rest[k] == labels[k + 1];
    }
  }

  lemma FreshLabel(s: string)
    ensures GoesOn(0, false, s) <==> Label(s)
  {
  }
}
