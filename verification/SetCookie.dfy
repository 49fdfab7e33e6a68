/** The Set-Cookie writer (ruvia-http/src/cookie/cookies.cpp, ruvia-http/src/cookie/cookie_validation.h):
    what is refused, how large the field value is, and what is written. */
module SetCookie {
  import opened CivilCalendar
  import opened HttpDate
  import opened HttpText
  import opened Wrappers

  const MAX_NAME_VALUE := 4096
  const MAX_ATTRIBUTE := 1024

  datatype SameSite = Strict | Lax | NoSite
  datatype Priority = Low | Medium | High
  datatype Prefix = SecurePrefix | HostPrefix

  type Int64 = n: int | -0x8000_0000_0000_0000 <= n < 0x8000_0000_0000_0000

  /** `expires` counts seconds, not necessarily whole ones; `maxAge` whole ones. */
  datatype Options = Options(
    path: string, domain: string, sameSite: Option<SameSite>, priority: Option<Priority>,
    expires: Option<real>, maxAge: Option<Int64>, prefix: Option<Prefix>,
    httpOnly: bool, secure: bool, partitioned: bool)

  // ----- what is refused

  /** A token of section 5.6.2 of RFC 9110. */
  predicate IsTokenChar(c: char) {
    IsDigit(c) || 'A' <= c <= 'Z' || 'a' <= c <= 'z' || c in "!#$%&'*+-.^_`|~"
  }

  predicate ValidName(name: string) {
    name != "" && forall k :: 0 <= k < |name| ==> IsTokenChar(name[k])
  }

  predicate IsCookieOctet(c: char) {
    '!' <= c <= '~' && c != '"' && c != ',' && c != ';' && c != '\\'
  }

  /** What one pair of quotes may surround. */
  function Unquoted(value: string): string {
    if |value| >= 2 && value[0] == '"' && value[|value| - 1] == '"' then value[1..|value| - 1] else value
  }

  predicate AllOctets(s: string) {
    forall k :: 0 <= k < |s| ==> IsCookieOctet(s[k])
  }

  /** is_valid_cookie_value */
  predicate ValidValue(value: string) {
    AllOctets(Unquoted(value))
  }

  predicate ValidPath(path: string) {
    && (forall k :: 0 <= k < |path| ==> ' ' <= path[k] <= '~' && path[k] != ';')
    && |path| <= MAX_ATTRIBUTE && Trim(path) == path
  }

  predicate IsAlnum(c: char) {
    IsDigit(c) || 'A' <= c <= 'Z' || 'a' <= c <= 'z'
  }

  /** is_valid_dns_domain_name from one character on: the length of the label so far, and whether its last is alnum. */
  predicate DomainFrom(name: string, length: nat, alnum: bool)
    decreases |name|
  {
    if name == "" then length != 0 && alnum
    else if name[0] == '.' then length != 0 && alnum && DomainFrom(name[1..], 0, false)
    else
      && (IsAlnum(name[0]) || name[0] == '-') && length != 63 && (length == 0 ==> IsAlnum(name[0]))
      && DomainFrom(name[1..], length + 1, IsAlnum(name[0]))
  }

  predicate ValidDomain(domain: string) {
    domain == "" || (|domain| <= 253 && DomainFrom(domain, 0, false))
  }

  lemma {:induction false} DomainIsPlain(name: string, length: nat, alnum: bool)
    requires DomainFrom(name, length, alnum)
    ensures forall k :: 0 <= k < |name| ==> IsAlnum(name[k]) || name[k] == '-' || name[k] == '.'
    ensures length == 0 && name != "" ==> IsAlnum(name[0])
    decreases |name|
  {
    if name != "" {
      DomainIsPlain(name[1..], if name[0] == '.' then 0 else length + 1, name[0] != '.' && IsAlnum(name[0]));
      forall k | 0 <= k < |name| ensures IsAlnum(name[k]) || name[k] == '-' || name[k] == '.' {
        assert k > 0 ==> name[k] == name[1..][k - 1];
      }
    }
  }

  function PrefixText(prefix: Option<Prefix>): string {
    match prefix
    case None => ""
    case Some(SecurePrefix) => "__Secure-"
    case Some(HostPrefix) => "__Host-"
  }

  /** cookie_name_prefix: user agents recognize the prefixes in any case. */
  function NamePrefix(name: string): Option<Prefix> {
    if |name| >= 7 && EqualsIgnoreCase(name[..7], "__Host-") then Some(HostPrefix)
    else if |name| >= 9 && EqualsIgnoreCase(name[..9], "__Secure-") then Some(SecurePrefix)
    else None
  }

  predicate PrefixMet(prefix: Prefix, o: Options) {
    match prefix
    case SecurePrefix => o.secure
    case HostPrefix => o.secure && o.path == "/" && o.domain == ""
  }

  const YEAR_1601 := -11644473600

  /** validate_cookie */
  predicate ValidCookie(name: string, value: string, o: Options) {
    && ValidName(name) && ValidValue(value)
    && |PrefixText(o.prefix)| + |name| + |value| <= MAX_NAME_VALUE
    && ValidPath(o.path) && ValidDomain(o.domain)
    && (o.maxAge.Some? ==> o.maxAge.value >= 0)
    && (o.expires.Some? ==> o.expires.value.Floor >= YEAR_1601)
    && (o.sameSite == Some(NoSite) ==> o.secure)
    && (o.partitioned ==> o.secure)
    && var prefix := if o.prefix.Some? then o.prefix else NamePrefix(name);
       prefix.Some? ==> PrefixMet(prefix.value, o)
  }

  // ----- what is written

  /** The time of the Expires attribute: the past for a lifetime of zero. */
  function ExpiresTime(o: Options): Option<int> {
    if o.maxAge == Some(0) then Some(0)
    else if o.expires.Some? then Some(o.expires.value.Floor)
    else None
  }

  function Decimal(n: int): (s: string)
    requires n >= 0
    ensures s != ""
  {
    if n < 10 then [Digit(n)] else Decimal(n / 10) + [Digit(n % 10)]
  }

  function SameSiteText(s: Option<SameSite>): string {
    match s
    case None => ""
    case Some(Strict) => "Strict"
    case Some(Lax) => "Lax"
    case Some(NoSite) => "None"
  }

  function PriorityText(p: Option<Priority>): string {
    match p
    case None => ""
    case Some(Low) => "Low"
    case Some(Medium) => "Medium"
    case Some(High) => "High"
  }

  function If(condition: bool, attribute: string): seq<string> {
    if condition then [attribute] else []
  }

  /** The date to be written has a four-digit year. */
  predicate Datable(o: Options) {
    ExpiresTime(o).Some? ==> FIRST <= ExpiresTime(o).value < END
  }

  lemma DatableHasText(o: Options)
    ensures Datable(o) && ExpiresTime(o).Some? <==> ExpiresText(o) != ""
  {
    if Datable(o) && ExpiresTime(o).Some? {
      TimeOfUtc(ExpiresTime(o).value);
    }
  }

  function MaxAgeText(o: Options): string {
    if o.maxAge.Some? && o.maxAge.value > 0 then Decimal(o.maxAge.value) else ""
  }

  function ExpiresText(o: Options): string {
    var time := ExpiresTime(o);
    if time.Some? && UtcOf(time.value).Some? && Writable(UtcOf(time.value).value) then Fixdate(UtcOf(time.value).value)
    else ""
  }

  /** The attributes, in the order of writing; the first `n` of the nine. */
  function Attributes(o: Options, n: nat): seq<string>
    decreases n
  {
    if n == 0 then []
    else Attributes(o, n - 1) + If(Present(o, n), Attribute(o, n))
  }

  predicate Present(o: Options, n: nat) {
    match n
    case 1 => o.path != ""
    case 2 => o.domain != ""
    case 3 => MaxAgeText(o) != ""
    case 4 => ExpiresText(o) != ""
    case 5 => o.httpOnly
    case 6 => o.secure
    case 7 => o.sameSite.Some?
    case 8 => o.priority.Some?
    case 9 => o.partitioned
    case _ => false
  }

  function Attribute(o: Options, n: nat): string {
    match n
    case 1 => "Path=" + o.path
    case 2 => "Domain=" + o.domain
    case 3 => "Max-Age=" + MaxAgeText(o)
    case 4 => "Expires=" + ExpiresText(o)
    case 5 => "HttpOnly"
    case 6 => "Secure"
    case 7 => "SameSite=" + SameSiteText(o.sameSite)
    case 8 => "Priority=" + PriorityText(o.priority)
    case 9 => "Partitioned"
    case _ => ""
  }

  function Listed(attributes: seq<string>): string {
    if attributes == [] then "" else "; " + attributes[0] + Listed(attributes[1..])
  }

  function Pair(name: string, value: string, o: Options): string {
    PrefixText(o.prefix) + name + "=" + value
  }

  function Wire(name: string, value: string, o: Options): string {
    Pair(name, value, o) + Listed(Attributes(o, 9))
  }

  lemma {:induction false} ListedAppends(a: seq<string>, b: seq<string>)
    ensures Listed(a + b) == Listed(a) + Listed(b)
    decreases |a|
  {
    if a == [] {
      assert [] + b == b;
    } else {
      ListedAppends(a[1..], b);
      assert (a + b)[1..] == a[1..] + b;
      assert "; " + a[0] + (Listed(a[1..]) + Listed(b)) == ("; " + a[0] + Listed(a[1..])) + Listed(b);
    }
  }

  lemma ListedOne(attribute: string)
    ensures Listed([attribute]) == "; " + attribute
  {
    assert [attribute][1..] == [];
  }

  /** http_unsigned_decimal_size */
  method DecimalSize(value: int) returns (size: nat)
    requires value >= 0
    ensures size == |Decimal(value)|
  {
    size := 1;
    var rest := value;
    while rest >= 10
      invariant rest >= 0 && size + |Decimal(rest)| == |Decimal(value)| + 1
    {
      rest := rest / 10;
      size := size + 1;
    }
  }

  /** The size of one attribute on the wire. */
  function Cost(condition: bool, size: nat): nat {
    if condition then 2 + size else 0
  }

  lemma AttributeCosts(o: Options, n: nat)
    requires n > 0
    ensures |Listed(Attributes(o, n))| == |Listed(Attributes(o, n - 1))| + Cost(Present(o, n), |Attribute(o, n)|)
  {
    ListedAppends(Attributes(o, n - 1), If(Present(o, n), Attribute(o, n)));
    ListedOne(Attribute(o, n));
  }

  lemma {:induction false} ListedGrows(o: Options, n: nat, m: nat)
    requires n <= m
    ensures |Listed(Attributes(o, n))| <= |Listed(Attributes(o, m))|
    decreases m
  {
    hide Listed, Present, Attribute;
    if n < m {
      ListedGrows(o, n, m - 1);
      AttributeCosts(o, m);
    }
  }

  // ----- the plan

  /** The n-th attribute is appended if it is to be written. */
  method PutAttribute(out: array<char>, i: nat, condition: bool, attribute: string,
                      ghost head: string, ghost o: Options, ghost n: nat) returns (next: nat)
    requires 0 < n <= 9 && condition == Present(o, n) && attribute == Attribute(o, n)
    requires i <= out.Length && out[..i] == head + Listed(Attributes(o, n - 1))
    requires |head| + |Listed(Attributes(o, 9))| <= out.Length
    modifies out
    ensures next <= out.Length && out[..next] == head + Listed(Attributes(o, n))
  {
    hide Listed, Present, Attribute;
    ListedGrows(o, n, 9);
    ListedAppends(Attributes(o, n - 1), If(condition, attribute));
    ListedOne(attribute);
    ListedNone();
    next := i;
    if condition {
      next := PutText(out, next, "; ");
      next := PutText(out, next, attribute);
      ghost var before := Listed(Attributes(o, n - 1));
      assert (head + before) + "; " + attribute == head + (before + ("; " + attribute));
    }
  }

  lemma ListedNone()
    ensures Listed([]) == ""
  {
  }

  /** set_cookie_plan: the texts that will be written, and their exact size. */
  class SetCookiePlan {
    const name: string
    const value: string
    const options: Options
    const prefixText: string
    const maxAgeText: string
    const expiresText: string
    const sameSiteText: string
    const priorityText: string
    const size: nat

    predicate Valid() {
      && prefixText == PrefixText(options.prefix) && maxAgeText == MaxAgeText(options)
      && expiresText == ExpiresText(options) && sameSiteText == SameSiteText(options.sameSite)
      && priorityText == PriorityText(options.priority) && size == |Wire(name, value, options)|
    }

    constructor (name: string, value: string, options: Options, maxAgeText: string, expiresText: string, size: nat)
      requires maxAgeText == MaxAgeText(options) && expiresText == ExpiresText(options)
      requires size == |Wire(name, value, options)|
      ensures Valid() && this.name == name && this.value == value && this.options == options
    {
      this.name, this.value, this.options := name, value, options;
      prefixText, sameSiteText := PrefixText(options.prefix), SameSiteText(options.sameSite);
      priorityText, this.maxAgeText, this.expiresText := PriorityText(options.priority), maxAgeText, expiresText;
      this.size := size;
    }

    /** The plan of a header; none for a name, value, path or domain the checks refuse, or for an
        insecure SameSite=None or prefixed cookie. */
    static method Build(name: string, value: string, o: Options) returns (plan: SetCookiePlan?)
      ensures plan != null <==> ValidCookie(name, value, o) && Datable(o)
      ensures plan != null ==> plan.Valid() && plan.name == name && plan.value == value && plan.options == o
    {
      hide Wire, ExpiresText, MaxAgeText, ValidName, ValidValue, ValidPath, ValidDomain;
      var expiresText := "";
      var time := ExpiresTime(o);
      DatableHasText(o);
      if time.Some? {
        var date := FormatHttpDate(time.value);
        if date == None {
          return null;
        }
        expiresText := date.value;
        TextOfTime(o);
      }
      if o.maxAge.Some? && o.maxAge.value < 0 {
        return null;
      }
      MaxAgeHasText(o);
      var size, maxAgeText := Measure(name, value, o, expiresText);
      if !ValidCookie(name, value, o) {
        return null;
      }
      plan := new SetCookiePlan(name, value, o, maxAgeText, expiresText, size);
    }

    /** The accumulation of the size, piece by piece. */
    static method Measure(name: string, value: string, o: Options, expiresText: string)
      returns (size: nat, maxAgeText: string)
      requires expiresText == ExpiresText(o)
      ensures size == |Wire(name, value, o)| && maxAgeText == MaxAgeText(o)
    {
      hide Attributes, Listed, ExpiresText, MaxAgeText;
      WireSize(name, value, o);
      maxAgeText := MaxAgeText(o);
      MaxAgeHasText(o);
      size := |PrefixText(o.prefix)| + |name| + 1 + |value|;
      size := size + Cost(o.path != "", 5 + |o.path|);
      size := size + Cost(o.domain != "", 7 + |o.domain|);
      if o.maxAge.Some? && o.maxAge.value > 0 {
        var digits := DecimalSize(o.maxAge.value);
        size := size + 2 + 8 + digits;
      }
      size := size + Cost(expiresText != "", 8 + |expiresText|);
      size := size + Cost(o.httpOnly, 8);
      size := size + Cost(o.secure, 6);
      size := size + Cost(o.sameSite.Some?, 9 + |SameSiteText(o.sameSite)|);
      size := size + Cost(o.priority.Some?, 9 + |PriorityText(o.priority)|);
      size := size + Cost(o.partitioned, 11);
    }

    /** write_fields: exactly `size` characters. */
    method Write(out: array<char>)
      requires Valid() && out.Length == size
      modifies out
      ensures out[..] == Wire(name, value, options)
    {
      hide Listed, Attributes;
      ListedNone();
      NoAttributes(options);
      ghost var head := Pair(name, value, options);
      var i := PutText(out, 0, prefixText);
      i := PutText(out, i, name);
      i := PutText(out, i, "=");
      i := PutText(out, i, value);
      assert out[..i] == head + Listed(Attributes(options, 0));
      i := PutTextual(out, i, head);
      i := PutFlags(out, i, head);
      assert out[..i] == Wire(name, value, options) && i == out.Length && out[..i] == out[..];
    }

    method PutTextual(out: array<char>, start: nat, ghost head: string) returns (i: nat)
      requires Valid() && start <= out.Length && out[..start] == head + Listed(Attributes(options, 0))
      requires |head| + |Listed(Attributes(options, 9))| <= out.Length
      modifies out
      ensures i <= out.Length && out[..i] == head + Listed(Attributes(options, 4))
    {
      hide Listed, Attributes, ExpiresText, MaxAgeText, Wire;
      ghost var o := options;
      i := PutAttribute(out, start, options.path != "", "Path=" + options.path, head, o, 1);
      i := PutAttribute(out, i, options.domain != "", "Domain=" + options.domain, head, o, 2);
      i := PutAttribute(out, i, maxAgeText != "", "Max-Age=" + maxAgeText, head, o, 3);
      i := PutAttribute(out, i, expiresText != "", "Expires=" + expiresText, head, o, 4);
    }

    method PutFlags(out: array<char>, start: nat, ghost head: string) returns (i: nat)
      requires Valid() && start <= out.Length && out[..start] == head + Listed(Attributes(options, 4))
      requires |head| + |Listed(Attributes(options, 9))| <= out.Length
      modifies out
      ensures i <= out.Length && out[..i] == head + Listed(Attributes(options, 9))
    {
      hide Listed, Attributes, ExpiresText, MaxAgeText, Wire;
      ghost var o := options;
      i := PutAttribute(out, start, options.httpOnly, "HttpOnly", head, o, 5);
      i := PutAttribute(out, i, options.secure, "Secure", head, o, 6);
      i := PutAttribute(out, i, options.sameSite.Some?, "SameSite=" + sameSiteText, head, o, 7);
      i := PutAttribute(out, i, options.priority.Some?, "Priority=" + priorityText, head, o, 8);
      i := PutAttribute(out, i, options.partitioned, "Partitioned", head, o, 9);
    }
  }

  lemma NoAttributes(o: Options)
    ensures Attributes(o, 0) == []
  {
  }

  lemma WireSize(name: string, value: string, o: Options)
    ensures |Wire(name, value, o)| == |PrefixText(o.prefix)| + |name| + 1 + |value|
              + Cost(o.path != "", 5 + |o.path|) + Cost(o.domain != "", 7 + |o.domain|)
              + Cost(MaxAgeText(o) != "", 8 + |MaxAgeText(o)|) + Cost(ExpiresText(o) != "", 8 + |ExpiresText(o)|)
              + Cost(o.httpOnly, 8) + Cost(o.secure, 6) + Cost(o.sameSite.Some?, 9 + |SameSiteText(o.sameSite)|)
              + Cost(o.priority.Some?, 9 + |PriorityText(o.priority)|) + Cost(o.partitioned, 11)
  {
    hide Attributes, Listed, ExpiresText, MaxAgeText;
    NoAttributes(o);
    ListedNone();
    AttributeCosts(o, 1);
    AttributeCosts(o, 2);
    AttributeCosts(o, 3);
    AttributeCosts(o, 4);
    AttributeCosts(o, 5);
    AttributeCosts(o, 6);
    AttributeCosts(o, 7);
    AttributeCosts(o, 8);
    AttributeCosts(o, 9);
  }

  lemma TextOfTime(o: Options)
    requires ExpiresTime(o).Some? && Datable(o)
    ensures var time := ExpiresTime(o).value;
            UtcOf(time).Some? && Writable(UtcOf(time).value) && ExpiresText(o) == Fixdate(UtcOf(time).value)
  {
    TimeOfUtc(ExpiresTime(o).value);
  }

  lemma MaxAgeHasText(o: Options)
    ensures MaxAgeText(o) != "" <==> o.maxAge.Some? && o.maxAge.value > 0
    ensures o.maxAge.Some? && o.maxAge.value > 0 ==> MaxAgeText(o) == Decimal(o.maxAge.value)
  {
  }
}
