/** What the Capsule Protocol means (section 3.2 of RFC 9297): a whole-input parse, a
    byte-at-a-time machine, and their agreement. */
module CapsuleProtocol {
  import opened QuicVarint
  import opened Sequences
  import opened Wrappers

  const DATAGRAM: nat := 0

  /** Which capsules a reader keeps (ruvia-http/include/ruvia/http/http_datagram.h). */
  datatype Retention = All | Datagrams | UdpPayloads
  datatype Status = NeedMoreData | End | Truncated | Limit

  datatype Config = Config(max: nat, retention: Retention)

  datatype Capsule = Capsule(ctype: nat, value: seq<Byte>)

  /** A delivery, cut into single octets: where its fragments begin and end is lost. */
  datatype Item = Octet(ctype: nat, octet: Byte) | Close(ctype: nat)

  function Octets(ctype: nat, s: seq<Byte>): (r: seq<Item>)
    ensures |r| == |s|
  {
    seq(|s|, k requires 0 <= k < |s| => Octet(ctype, s[k]))
  }

  lemma OctetsConcat(ctype: nat, a: seq<Byte>, b: seq<Byte>)
    ensures Octets(ctype, a + b) == Octets(ctype, a) + Octets(ctype, b)
  {
  }

  function Whole(c: Capsule): seq<Item> {
    Octets(c.ctype, c.value) + [Close(c.ctype)]
  }

  function WholeAll(capsules: seq<Capsule>): seq<Item> {
    if capsules == [] then [] else Whole(capsules[0]) + WholeAll(capsules[1..])
  }

  // ----- the whole-input parse

  datatype Header = NoHeader | Header(ctype: nat, length: nat, size: nat)

  /** Type and length, at the front of the input. */
  function ParseHeader(s: seq<Byte>): Header {
    match Decode(s)
    case Incomplete => NoHeader
    case Varint(ctype, n) =>
      if n > |s| then NoHeader
      else
        match Decode(s[n..])
        case Incomplete => NoHeader
        case Varint(length, m) => Header(ctype, length, n + m)
  }

  predicate Kept(c: Config, ctype: nat) {
    c.retention == All || ctype == DATAGRAM
  }

  /** What becomes of a capsule given as much of its value as there is. */
  datatype Verdict = Drop | Keep | TooLong | Undecided

  function Judge(c: Config, ctype: nat, length: nat, value: seq<Byte>): Verdict
    requires |value| <= length
  {
    if !Kept(c, ctype) then Drop
    else if c.retention == UdpPayloads && length != 0 then
      match Decode(value)
      case Varint(context, _) => if context != 0 then Drop else if length > c.max then TooLong else Keep
      case Incomplete =>
        if |value| < length then Undecided
        else if length > c.max then TooLong
        else Keep
    else if length > c.max then TooLong
    else Keep
  }

  /** The complete capsules kept, what was delivered of an incomplete one, the status. */
  datatype Parsed = Parsed(capsules: seq<Capsule>, partial: seq<Item>, status: Status)

  function Items(p: Parsed): seq<Item> {
    WholeAll(p.capsules) + p.partial
  }

  function Parse(c: Config, input: seq<Byte>): Parsed
    decreases |input|
  {
    if input == [] then Parsed([], [], End)
    else
      match ParseHeader(input)
      case NoHeader => Parsed([], [], Truncated)
      case Header(ctype, length, size) =>
        HeaderSize(input);
        var body := input[size..];
        if |body| < length then
          match Judge(c, ctype, length, body)
          case TooLong => Parsed([], [], Limit)
          case Keep => Parsed([], Octets(ctype, body), Truncated)
          case _ => Parsed([], [], Truncated)
        else
          var rest := Parse(c, body[length..]);
          match Judge(c, ctype, length, body[..length])
          case TooLong => Parsed([], [], Limit)
          case Keep => rest.(capsules := [Capsule(ctype, body[..length])] + rest.capsules)
          case _ => rest
  }

  lemma HeaderSize(s: seq<Byte>)
    requires ParseHeader(s).Header?
    ensures 0 < ParseHeader(s).size <= |s| && ParseHeader(s).size <= 16
  {
    var n := Decode(s).size;
    DecodeIsStable(s, []);
    DecodeIsStable(s[n..], []);
  }

  // ----- the machine

  datatype Mode =
    | InHeader(bytes: seq<Byte>)
    | Skipping(remaining: nat)
    | InContext(ctype: nat, bytes: seq<Byte>, remaining: nat)
    | Delivering(ctype: nat, remaining: nat)
    | Halted

  const START := InHeader([])

  /** Done with a capsule, or remaining octets to go. */
  function Onward(mode: Mode, remaining: nat): Mode {
    if remaining == 0 then START else mode
  }

  function Closing(ctype: nat, remaining: nat): seq<Item> {
    if remaining == 0 then [Close(ctype)] else []
  }

  function AfterHeader(c: Config, ctype: nat, length: nat): (Mode, seq<Item>) {
    if !Kept(c, ctype) then (Onward(Skipping(length), length), [])
    else if c.retention == UdpPayloads && length != 0 then (InContext(ctype, [], length), [])
    else if length > c.max then (Halted, [])
    else (Onward(Delivering(ctype, length), length), Closing(ctype, length))
  }

  function ContextByte(c: Config, ctype: nat, bytes: seq<Byte>, remaining: nat): (Mode, seq<Item>) {
    match Decode(bytes)
    case Incomplete =>
      if remaining != 0 then (InContext(ctype, bytes, remaining), [])
      else if |bytes| > c.max then (Halted, [])
      else (START, Octets(ctype, bytes) + [Close(ctype)])
    case Varint(context, _) =>
      if context != 0 then (Onward(Skipping(remaining), remaining), [])
      else if |bytes| + remaining > c.max then (Halted, [])
      else (Onward(Delivering(ctype, remaining), remaining), Octets(ctype, bytes) + Closing(ctype, remaining))
  }

  function StepByte(c: Config, mode: Mode, b: Byte): (Mode, seq<Item>) {
    match mode
    case InHeader(bytes) =>
      (match ParseHeader(bytes + [b])
       case NoHeader => (InHeader(bytes + [b]), [])
       case Header(ctype, length, _) => AfterHeader(c, ctype, length))
    case Skipping(remaining) => (Onward(Skipping(Less(remaining)), Less(remaining)), [])
    case InContext(ctype, bytes, remaining) => ContextByte(c, ctype, bytes + [b], Less(remaining))
    case Delivering(ctype, remaining) =>
      (Onward(Delivering(ctype, Less(remaining)), Less(remaining)), [Octet(ctype, b)] + Closing(ctype, Less(remaining)))
    case Halted => (Halted, [])
  }

  function Feed(c: Config, mode: Mode, input: seq<Byte>): (Mode, seq<Item>)
    decreases |input|
  {
    if input == [] then (mode, [])
    else
      var first := StepByte(c, mode, input[0]);
      var rest := Feed(c, first.0, input[1..]);
      (rest.0, first.1 + rest.1)
  }

  /** The status once the input is known to be over. */
  function Final(mode: Mode): Status {
    if mode == Halted then Limit else if mode == START then End else Truncated
  }

  // ----- cutting the input anywhere

  lemma {:induction false} FeedConcat(c: Config, mode: Mode, a: seq<Byte>, b: seq<Byte>)
    ensures Feed(c, mode, a + b).0 == Feed(c, Feed(c, mode, a).0, b).0
    ensures Feed(c, mode, a + b).1 == Feed(c, mode, a).1 + Feed(c, Feed(c, mode, a).0, b).1
    decreases |a|
  {
    hide StepByte;
    if a == [] {
      assert a + b == b;
    } else {
      assert (a + b)[1..] == a[1..] + b;
      FeedConcat(c, StepByte(c, mode, a[0]).0, a[1..], b);
    }
  }

  lemma Nothing(items: seq<Item>)
    ensures items + [] == items == [] + items
  {
  }

  lemma {:induction false} HaltedStays(c: Config, input: seq<Byte>)
    ensures Feed(c, Halted, input) == (Halted, [])
  {
    if input != [] {
      HaltedStays(c, input[1..]);
      Nothing([]);
    }
  }

  lemma {:induction false} SkipChunk(c: Config, remaining: nat, s: seq<Byte>)
    requires 0 < |s| <= remaining
    ensures Feed(c, Skipping(remaining), s) == (Onward(Skipping(remaining - |s|), remaining - |s|), [])
    decreases |s|
  {
    Nothing([]);
    if |s| > 1 {
      SkipChunk(c, remaining - 1, s[1..]);
    } else {
      assert s[1..] == [];
    }
  }

  lemma {:induction false} DeliverChunk(c: Config, ctype: nat, remaining: nat, s: seq<Byte>)
    requires 0 < |s| <= remaining
    ensures var left := remaining - |s|;
      Feed(c, Delivering(ctype, remaining), s)
          == (Onward(Delivering(ctype, left), left), Octets(ctype, s) + Closing(ctype, left))
    decreases |s|
  {
    if |s| > 1 {
      DeliverChunk(c, ctype, remaining - 1, s[1..]);
      assert s == [s[0]] + s[1..];
      var left := remaining - |s|;
      assert Octets(ctype, s) + Closing(ctype, left)
          == [Octet(ctype, s[0])] + (Octets(ctype, s[1..]) + Closing(ctype, left));
      Nothing([Octet(ctype, s[0])]);
    } else {
      assert s[1..] == [];
      Nothing([Octet(ctype, s[0])] + Closing(ctype, remaining - 1));
      assert Octets(ctype, s) == [Octet(ctype, s[0])];
    }
  }

  // ----- the machine against the parse

  lemma HeaderStable(s: seq<Byte>, rest: seq<Byte>)
    requires ParseHeader(s).Header?
    ensures ParseHeader(s + rest) == ParseHeader(s)
  {
    DecodeIsStable(s, rest);
    var n := Decode(s).size;
    assert (s + rest)[n..] == s[n..] + rest;
    DecodeIsStable(s[n..], rest);
  }

  lemma HeaderGrows(s: seq<Byte>, k: nat)
    requires k <= |s|
    ensures ParseHeader(s[..k]).Header? ==> ParseHeader(s) == ParseHeader(s[..k]) && ParseHeader(s).size <= k
  {
    if ParseHeader(s[..k]).Header? {
      assert s == s[..k] + s[k..];
      HeaderStable(s[..k], s[k..]);
      HeaderSize(s[..k]);
    }
  }

  lemma PrefixInParts(s: seq<Byte>, size: nat, n: nat)
    requires n <= size <= |s|
    ensures s[..size][..n] == s[..n] && s[..size][n..] == s[n..][..size - n]
  {
  }

  /** A header is complete exactly at its last octet. */
  lemma HeaderMinimal(s: seq<Byte>)
    requires ParseHeader(s).Header?
    ensures ParseHeader(s).size <= |s|
    ensures ParseHeader(s[..ParseHeader(s).size]) == ParseHeader(s)
    ensures forall k :: 0 <= k < ParseHeader(s).size ==> ParseHeader(s[..k]) == NoHeader
  {
    HeaderSize(s);
    var n, size := Decode(s).size, ParseHeader(s).size;
    DecodeIsStable(s, []);
    DecodeIsStable(s[n..], []);
    PrefixInParts(s, size, n);
    var m := Decode(s[n..]).size;
    assert s[..size][n..][..m] == s[n..][..m];
    forall k | 0 <= k < size ensures ParseHeader(s[..k]) == NoHeader { HeaderGrows(s, k); }
  }

  lemma {:induction false} HeaderPrefix(c: Config, s: seq<Byte>, k: nat)
    requires k <= |s| && forall j :: 0 <= j <= k ==> ParseHeader(s[..j]) == NoHeader
    ensures Feed(c, START, s[..k]) == (InHeader(s[..k]), [])
    decreases k
  {
    if k > 0 {
      HeaderPrefix(c, s, k - 1);
      assert s[..k] == s[..k - 1] + [s[k - 1]];
      FeedConcat(c, START, s[..k - 1], [s[k - 1]]);
      assert ParseHeader(s[..k]) == NoHeader;
      FeedOne(c, InHeader(s[..k - 1]), s[k - 1]);
    }
  }

  lemma FeedOne(c: Config, mode: Mode, b: Byte)
    ensures Feed(c, mode, [b]) == StepByte(c, mode, b)
  {
    Nothing(StepByte(c, mode, b).1);
    assert [b][1..] == [];
  }

  lemma HeaderRun(c: Config, s: seq<Byte>)
    requires ParseHeader(s).Header?
    ensures ParseHeader(s).size <= |s|
    ensures Feed(c, START, s[..ParseHeader(s).size]) == AfterHeader(c, ParseHeader(s).ctype, ParseHeader(s).length)
  {
    HeaderSize(s);
    HeaderMinimal(s);
    var size := ParseHeader(s).size;
    HeaderPrefix(c, s, size - 1);
    assert s[..size] == s[..size - 1] + [s[size - 1]];
    FeedConcat(c, START, s[..size - 1], [s[size - 1]]);
    FeedOne(c, InHeader(s[..size - 1]), s[size - 1]);
    Nothing(AfterHeader(c, ParseHeader(s).ctype, ParseHeader(s).length).1);
  }

  lemma NoHeaderRun(c: Config, s: seq<Byte>)
    requires ParseHeader(s) == NoHeader
    ensures Feed(c, START, s) == (InHeader(s), [])
  {
    forall k | 0 <= k <= |s| ensures ParseHeader(s[..k]) == NoHeader { HeaderGrows(s, k); }
    HeaderPrefix(c, s, |s|);
    assert s[..|s|] == s;
  }

  /** The value of a UDP datagram, as far as it goes, byte by byte from its Context ID. */
  lemma ContextRun(c: Config, ctype: nat, length: nat, value: seq<Byte>)
    requires Kept(c, ctype) && c.retention == UdpPayloads && 0 < |value| <= length
    ensures var left := length - |value|;
      Feed(c, InContext(ctype, [], length), value)
      == match Judge(c, ctype, length, value)
         case Drop => (Onward(Skipping(left), left), [])
         case TooLong => (Halted, [])
         case Undecided => (InContext(ctype, value, left), [])
         case Keep => (Onward(Delivering(ctype, left), left), Octets(ctype, value) + Closing(ctype, left))
  {
    hide StepByte, Feed, Octets, Decode;
    var n := Needed(value);
    DecodeMinimal(value);
    ContextRead(c, ctype, length, value);
    Nothing(ContextByte(c, ctype, value[..n], length - n).1);
    if n == |value| {
      assert value[..n] == value;
    } else {
      assert value == value[..n] + value[n..];
      FeedConcat(c, InContext(ctype, [], length), value[..n], value[n..]);
      AfterContext(c, ctype, length, value, n);
    }
  }

  /** How much of the value decides, or all of it. */
  function Needed(value: seq<Byte>): nat {
    if Decode(value).Varint? then Decode(value).size else |value|
  }

  lemma ContextRead(c: Config, ctype: nat, length: nat, value: seq<Byte>)
    requires 0 < |value| <= length
    ensures 0 < Needed(value) <= |value|
    ensures Feed(c, InContext(ctype, [], length), value[..Needed(value)])
            == ContextByte(c, ctype, value[..Needed(value)], length - Needed(value))
  {
    hide Judge, ContextByte;
    DecodeMinimal(value);
    var n := Needed(value);
    ContextPrefix(c, ctype, length, value, n - 1);
    assert value[..n] == value[..n - 1] + [value[n - 1]];
    FeedConcat(c, InContext(ctype, [], length), value[..n - 1], [value[n - 1]]);
    FeedOne(c, InContext(ctype, value[..n - 1], length - (n - 1)), value[n - 1]);
    Nothing(ContextByte(c, ctype, value[..n], length - n).1);
  }

  lemma DecodeMinimal(s: seq<Byte>)
    requires s != []
    ensures Decode(s).Varint? ==> 0 < Decode(s).size <= |s| && Decode(s[..Decode(s).size]) == Decode(s)
    ensures forall k :: 0 <= k < (if Decode(s).Varint? then Decode(s).size else |s|) ==> Decode(s[..k]) == Incomplete
  {
    if Decode(s).Varint? { assert s[..Decode(s).size][..Decode(s).size] == s[..Decode(s).size]; }
  }

  lemma {:induction false} ContextPrefix(c: Config, ctype: nat, length: nat, value: seq<Byte>, k: nat)
    requires k < |value| <= length && forall j :: 0 <= j <= k ==> Decode(value[..j]) == Incomplete
    ensures Feed(c, InContext(ctype, [], length), value[..k]) == (InContext(ctype, value[..k], length - k), [])
    decreases k
  {
    if k > 0 {
      ContextPrefix(c, ctype, length, value, k - 1);
      assert value[..k] == value[..k - 1] + [value[k - 1]];
      FeedConcat(c, InContext(ctype, [], length), value[..k - 1], [value[k - 1]]);
      FeedOne(c, InContext(ctype, value[..k - 1], length - (k - 1)), value[k - 1]);
      assert Decode(value[..k]) == Incomplete;
    }
  }

  /** After the Context ID was read, the rest of the value goes the way it decided. */
  lemma AfterContext(c: Config, ctype: nat, length: nat, value: seq<Byte>, n: nat)
    requires Kept(c, ctype) && c.retention == UdpPayloads && 0 < |value| <= length
    requires Decode(value).Varint? && n == Decode(value).size < |value| && Decode(value[..n]) == Decode(value)
    ensures var decided, left := ContextByte(c, ctype, value[..n], length - n), length - |value|;
      && Feed(c, decided.0, value[n..]).0
         == (match Judge(c, ctype, length, value)
             case Drop => Onward(Skipping(left), left)
             case Keep => Onward(Delivering(ctype, left), left)
             case _ => Halted)
      && decided.1 + Feed(c, decided.0, value[n..]).1
         == (if Judge(c, ctype, length, value).Keep? then Octets(ctype, value) + Closing(ctype, left) else [])
  {
    var rest, left := value[n..], length - |value|;
    Nothing([]);
    if Decode(value).value != 0 {
      SkipChunk(c, length - n, rest);
    } else if length > c.max {
      HaltedStays(c, rest);
    } else {
      DeliverChunk(c, ctype, length - n, rest);
      assert value == value[..n] + rest;
      OctetsConcat(ctype, value[..n], rest);
      Nothing(Octets(ctype, value[..n]));
      assert Octets(ctype, value[..n]) + (Octets(ctype, rest) + Closing(ctype, left))
          == Octets(ctype, value) + Closing(ctype, left);
    }
  }

  /** One capsule's value, as far as it goes, after its header. */
  lemma ValueRun(c: Config, ctype: nat, length: nat, value: seq<Byte>)
    requires |value| <= length
    ensures var start, left := AfterHeader(c, ctype, length), length - |value|;
      && Judge(c, ctype, length, value).Drop? ==>
           Feed(c, start.0, value) == (Onward(Skipping(left), left), []) && start.1 == []
    ensures var start := AfterHeader(c, ctype, length);
      Judge(c, ctype, length, value).TooLong? ==> Feed(c, start.0, value) == (Halted, []) && start.1 == []
    ensures var start, left := AfterHeader(c, ctype, length), length - |value|;
      Judge(c, ctype, length, value).Keep? ==>
        && Feed(c, start.0, value).0 == Onward(Delivering(ctype, left), left)
        && start.1 + Feed(c, start.0, value).1 == Octets(ctype, value) + Closing(ctype, left)
    ensures var start, left := AfterHeader(c, ctype, length), length - |value|;
      Judge(c, ctype, length, value).Undecided? ==>
          Feed(c, start.0, value) == (InContext(ctype, value, left), []) && start.1 == []
  {
    Nothing([]);
    if !Kept(c, ctype) {
      if value != [] { SkipChunk(c, length, value); }
    } else if c.retention == UdpPayloads && length != 0 {
      if value != [] {
        ContextRun(c, ctype, length, value);
        Nothing(Octets(ctype, value) + Closing(ctype, length - |value|));
      }
    } else if length > c.max {
      HaltedStays(c, value);
    } else if value != [] {
      DeliverChunk(c, ctype, length, value);
      Nothing(Octets(ctype, value) + Closing(ctype, length - |value|));
    } else {
      assert Octets(ctype, value) == [];
      Nothing(Closing(ctype, length));
    }
  }

  /** The machine delivers what the whole-input parse says, and ends with its status. */
  lemma {:induction false} MachineIsParse(c: Config, input: seq<Byte>)
    ensures Feed(c, START, input).1 == Items(Parse(c, input))
    ensures Final(Feed(c, START, input).0) == Parse(c, input).status
    decreases |input|
  {
    hide StepByte, AfterHeader, Judge, ParseHeader;
    Nothing([]);
    if input != [] {
      match ParseHeader(input)
      case NoHeader => NoHeaderRun(c, input);
      case Header(ctype, length, size) =>
        HeaderSize(input);
        HeaderRun(c, input);
        var body := input[size..];
        assert input == input[..size] + body;
        FeedConcat(c, START, input[..size], body);
        if |body| < length {
          IncompleteCapsule(c, ctype, length, body);
        } else {
          MachineIsParse(c, body[length..]);
          CompleteCapsule(c, ctype, length, body);
          if Judge(c, ctype, length, body[..length]).Keep? {
            Reassociate(Whole(Capsule(ctype, body[..length])), WholeAll(Parse(c, body[length..]).capsules),
                Parse(c, body[length..]).partial);
          }
        }
    }
  }

  lemma IncompleteCapsule(c: Config, ctype: nat, length: nat, body: seq<Byte>)
    requires |body| < length
    ensures var start := AfterHeader(c, ctype, length);
      && Final(Feed(c, start.0, body).0) == (if Judge(c, ctype, length, body).TooLong? then Limit else Truncated)
      && start.1 + Feed(c, start.0, body).1 == (if Judge(c, ctype, length, body).Keep? then Octets(ctype, body) else [])
  {
    ValueRun(c, ctype, length, body);
    Nothing([]);
    Nothing(Octets(ctype, body));
  }

  lemma CompleteCapsule(c: Config, ctype: nat, length: nat, body: seq<Byte>)
    requires length <= |body|
    ensures var start, rest := AfterHeader(c, ctype, length), Feed(c, START, body[length..]);
      && Feed(c, start.0, body).0 == (if Judge(c, ctype, length, body[..length]).TooLong? then Halted else rest.0)
      && start.1 + Feed(c, start.0, body).1
         == match Judge(c, ctype, length, body[..length])
            case TooLong => []
            case Keep => Whole(Capsule(ctype, body[..length])) + rest.1
            case _ => rest.1
  {
    var start, value, rest := AfterHeader(c, ctype, length), body[..length], body[length..];
    assert body == value + rest;
    ValueRun(c, ctype, length, value);
    FeedConcat(c, start.0, value, rest);
    if Judge(c, ctype, length, value).TooLong? {
      HaltedStays(c, rest);
      Nothing([]);
    } else if Judge(c, ctype, length, value).Keep? {
      assert start.1 + Feed(c, start.0, value).1 == Whole(Capsule(ctype, value));
      Reassociate(start.1, Feed(c, start.0, value).1, Feed(c, START, rest).1);
    } else {
      Nothing(Feed(c, START, rest).1);
    }
  }

  lemma Reassociate(a: seq<Item>, b: seq<Item>, c: seq<Item>)
    ensures a + (b + c) == (a + b) + c
  {
  }

  function FeedPieces(c: Config, mode: Mode, pieces: seq<seq<Byte>>): (Mode, seq<Item>)
    decreases |pieces|
  {
    if pieces == [] then (mode, [])
    else
      var first := Feed(c, mode, pieces[0]);
      var rest := FeedPieces(c, first.0, pieces[1..]);
      (rest.0, first.1 + rest.1)
  }

  /** However the input is cut, the deliveries and the status are those of the parse of
      the whole. */
  lemma {:induction false} PiecesDoNotMatter(c: Config, mode: Mode, pieces: seq<seq<Byte>>)
    ensures FeedPieces(c, mode, pieces) == Feed(c, mode, Concat(pieces))
    decreases |pieces|
  {
    if pieces != [] {
      PiecesDoNotMatter(c, Feed(c, mode, pieces[0]).0, pieces[1..]);
      FeedConcat(c, mode, pieces[0], Concat(pieces[1..]));
    }
  }

  // ----- encoding

  function EncodeHeader(ctype: nat, length: nat): seq<Byte>
    requires ctype <= MAX && length <= MAX
  {
    Encode(ctype) + Encode(length)
  }

  /** An encoded header is parsed back, whatever follows it. */
  lemma EncodedHeader(ctype: nat, length: nat, after: seq<Byte>)
    requires ctype <= MAX && length <= MAX
    ensures ParseHeader(EncodeHeader(ctype, length) + after) == Header(ctype, length, |EncodeHeader(ctype, length)|)
  {
    hide Encode, Decode;
    var input := EncodeHeader(ctype, length) + after;
    RoundTrip(ctype, Encode(length) + after);
    RoundTrip(length, after);
    assert input == Encode(ctype) + (Encode(length) + after);
    assert input[|Encode(ctype)|..] == Encode(length) + after;
  }

  /** An encoded capsule within the limits is parsed back, whatever follows it. */
  lemma CapsuleRoundTrip(c: Config, ctype: nat, payload: seq<Byte>, rest: seq<Byte>)
    requires ctype <= MAX && |payload| <= MAX
    requires Judge(c, ctype, |payload|, payload).Keep?
    ensures var tail := Parse(c, rest);
      Parse(c, EncodeHeader(ctype, |payload|) + payload + rest)
          == tail.(capsules := [Capsule(ctype, payload)] + tail.capsules)
  {
    hide Judge, ParseHeader, EncodeHeader;
    var header := EncodeHeader(ctype, |payload|);
    var input := header + payload + rest;
    EncodedHeader(ctype, |payload|, payload + rest);
    assert input == header + (payload + rest);
    HeaderSize(input);
    assert input[|header|..] == payload + rest;
    assert (payload + rest)[..|payload|] == payload && (payload + rest)[|payload|..] == rest;
  }

  /** A CONNECT-UDP payload: a DATAGRAM capsule whose value starts with Context ID 0. */
  lemma UdpPayloadIsKept(c: Config, payload: seq<Byte>)
    requires 1 + |payload| <= c.max
    ensures Judge(c, DATAGRAM, 1 + |payload|, [0] + payload).Keep?
    ensures Decode([0] + payload) == Varint(0, 1)
  {
    assert ([0] + payload)[..1] == [0];
  }

  /** On the wire the type comes first. */
  lemma TypeComesFirst(ctype: Byte, length: Byte, after: seq<Byte>)
    requires ctype < 64 && length < 64
    ensures ParseHeader([ctype, length] + after) == Header(ctype, length, 2)
    ensures EncodeHeader(ctype, length) == [ctype, length]
  {
    var s := [ctype, length] + after;
    assert s[..1] == [ctype] && s[1..] == [length] + after && s[1..][..1] == [length];
    OneByte(ctype);
    OneByte(length);
  }

  lemma OneByte(value: Byte)
    requires value < 64
    ensures Encode(value) == [value] && Value([value]) == value
  {
    assert Digits(value, 1) == [value];
  }

  // ----- what a stream of capsules delivers

  /** What the retention promises (ruvia-http/include/ruvia/http/http_datagram.h): everything, the DATAGRAM capsules,
      or of these the ones with Context ID 0 and those too short to hold a Context ID. */
  predicate Wanted(retention: Retention, capsule: Capsule) {
    match retention
    case All => true
    case Datagrams => capsule.ctype == 0
    case UdpPayloads =>
      capsule.ctype == 0 &&
      match Decode(capsule.value)
      case Incomplete => true
      case Varint(context, _) => context == 0
  }

  function Select(retention: Retention, capsules: seq<Capsule>): seq<Capsule> {
    if capsules == [] then []
    else (if Wanted(retention, capsules[0]) then [capsules[0]] else []) + Select(retention, capsules[1..])
  }

  predicate Sendable(capsule: Capsule) {
    capsule.ctype <= MAX && |capsule.value| <= MAX
  }

  function Spell(capsule: Capsule): seq<Byte>
    requires Sendable(capsule)
  {
    EncodeHeader(capsule.ctype, |capsule.value|) + capsule.value
  }

  function SpellAll(capsules: seq<Capsule>): seq<Byte>
    requires forall k :: 0 <= k < |capsules| ==> Sendable(capsules[k])
  {
    if capsules == [] then [] else Spell(capsules[0]) + SpellAll(capsules[1..])
  }

  predicate WithinLimit(c: Config, capsules: seq<Capsule>) {
    forall k :: 0 <= k < |capsules| ==>
      Sendable(capsules[k]) && (Wanted(c.retention, capsules[k]) ==> |capsules[k].value| <= c.max)
  }

  lemma VerdictOnWhole(c: Config, capsule: Capsule)
    ensures Judge(c, capsule.ctype, |capsule.value|, capsule.value) ==
            if !Wanted(c.retention, capsule) then Drop else if |capsule.value| > c.max then TooLong else Keep
  {
    if capsule.value == [] {
      assert Decode(capsule.value).Incomplete?;
    }
  }

  /** The parse of one whole capsule and what follows it. */
  lemma OneCapsule(c: Config, capsule: Capsule, rest: seq<Byte>)
    requires Sendable(capsule)
    ensures var tail := Parse(c, rest);
            Parse(c, Spell(capsule) + rest) ==
            if !Wanted(c.retention, capsule) then tail
            else if |capsule.value| > c.max then Parsed([], [], Limit)
            else tail.(capsules := [capsule] + tail.capsules)
  {
    hide Judge, ParseHeader, EncodeHeader, Wanted;
    var header, value := EncodeHeader(capsule.ctype, |capsule.value|), capsule.value;
    var input := Spell(capsule) + rest;
    EncodedHeader(capsule.ctype, |value|, value + rest);
    assert input == header + (value + rest);
    HeaderSize(input);
    VerdictOnWhole(c, capsule);
    assert input[|header|..] == value + rest;
    assert (value + rest)[..|value|] == value && (value + rest)[|value|..] == rest;
  }

  /** A stream of capsules delivers exactly those the retention promises, whole, in order and with their types, and
      what follows is parsed as if alone; a capsule that is not wanted may be of any length. */
  lemma {:induction false} WantedAreDelivered(c: Config, capsules: seq<Capsule>, rest: seq<Byte>)
    requires WithinLimit(c, capsules)
    ensures var tail := Parse(c, rest);
            Parse(c, SpellAll(capsules) + rest) == tail.(capsules := Select(c.retention, capsules) + tail.capsules)
    decreases |capsules|
  {
    hide Parse, Wanted, Spell;
    if capsules == [] {
      assert SpellAll(capsules) + rest == rest;
      assert [] + Parse(c, rest).capsules == Parse(c, rest).capsules;
    } else {
      WantedAreDelivered(c, capsules[1..], rest);
      OneCapsule(c, capsules[0], SpellAll(capsules[1..]) + rest);
      SpelledApart(Spell(capsules[0]), SpellAll(capsules[1..]), rest);
      var first := if Wanted(c.retention, capsules[0]) then [capsules[0]] else [];
      SelectedApart(first, Select(c.retention, capsules[1..]), Parse(c, rest).capsules);
    }
  }

  lemma SpelledApart(a: seq<Byte>, b: seq<Byte>, c: seq<Byte>)
    ensures (a + b) + c == a + (b + c)
  {
  }

  lemma SelectedApart(a: seq<Capsule>, b: seq<Capsule>, c: seq<Capsule>)
    ensures (a + b) + c == a + (b + c) && [] + b == b
  {
  }

  /** The same of the machine, octet by octet: with nothing after the stream it ends at its end. */
  lemma MachineDelivers(c: Config, capsules: seq<Capsule>)
    requires WithinLimit(c, capsules)
    ensures Feed(c, START, SpellAll(capsules)).1 == WholeAll(Select(c.retention, capsules))
    ensures Final(Feed(c, START, SpellAll(capsules)).0) == End
  {
    hide Feed, Final, Select;
    WantedAreDelivered(c, capsules, []);
    assert SpellAll(capsules) + [] == SpellAll(capsules);
    assert Select(c.retention, capsules) + [] == Select(c.retention, capsules);
    MachineIsParse(c, SpellAll(capsules));
    Nothing(WholeAll(Select(c.retention, capsules)));
  }

  /** A wanted capsule over the limit ends the stream: what came before it is delivered, and nothing of it. */
  lemma TooLongIsRefused(c: Config, before: seq<Capsule>, capsule: Capsule, rest: seq<Byte>)
    requires WithinLimit(c, before) && Sendable(capsule)
    requires Wanted(c.retention, capsule) && |capsule.value| > c.max
    ensures Parse(c, SpellAll(before) + (Spell(capsule) + rest)) == Parsed(Select(c.retention, before), [], Limit)
  {
    hide Parse, Wanted, Spell;
    WantedAreDelivered(c, before, Spell(capsule) + rest);
    OneCapsule(c, capsule, rest);
    assert Select(c.retention, before) + [] == Select(c.retention, before);
  }

  /** A capsule cut short anywhere is reported as such, whatever the retention, unless it is over the limit. */
  lemma CutIsTruncated(c: Config, before: seq<Capsule>, capsule: Capsule, k: nat)
    requires WithinLimit(c, before + [capsule]) && |capsule.value| <= c.max
    requires Sendable(capsule) && 0 < k < |Spell(capsule)|
    ensures WithinLimit(c, before)
    ensures var p := Parse(c, SpellAll(before) + Spell(capsule)[..k]);
            var n := |EncodeHeader(capsule.ctype, |capsule.value|)|;
            && p.status == Truncated && p.capsules == Select(c.retention, before)
            && (c.retention == All && k >= n ==> p.partial == Octets(capsule.ctype, Spell(capsule)[..k][n..]))
  {
    hide Parse, Wanted, EncodeHeader, Select;
    assert forall j :: 0 <= j < |before| ==> before[j] == (before + [capsule])[j];
    WantedAreDelivered(c, before, Spell(capsule)[..k]);
    CutAlone(c, capsule, k);
    assert Select(c.retention, before) + [] == Select(c.retention, before);
  }

  lemma CutAlone(c: Config, capsule: Capsule, k: nat)
    requires Sendable(capsule) && 0 < k < |Spell(capsule)| && |capsule.value| <= c.max
    ensures var p, n := Parse(c, Spell(capsule)[..k]), |EncodeHeader(capsule.ctype, |capsule.value|)|;
            && p.status == Truncated && p.capsules == []
            && (c.retention == All && k >= n ==> p.partial == Octets(capsule.ctype, Spell(capsule)[..k][n..]))
  {
    hide ParseHeader, EncodeHeader;
    var header, value, cut := EncodeHeader(capsule.ctype, |capsule.value|), capsule.value, Spell(capsule)[..k];
    EncodedHeader(capsule.ctype, |value|, value);
    if k < |header| {
      HeaderMinimal(Spell(capsule));
    } else {
      assert cut == header + value[..k - |header|];
      EncodedHeader(capsule.ctype, |value|, value[..k - |header|]);
      assert cut[|header|..] == value[..k - |header|];
      NeverTooLong(c, capsule.ctype, |value|, value[..k - |header|]);
    }
  }

  lemma NeverTooLong(c: Config, ctype: nat, length: nat, value: seq<Byte>)
    requires |value| <= length <= c.max
    ensures !Judge(c, ctype, length, value).TooLong?
    ensures c.retention == All ==> Judge(c, ctype, length, value).Keep?
  {
  }
}
