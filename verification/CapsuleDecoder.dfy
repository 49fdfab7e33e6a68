/** The resumable capsule decoder (ruvia-http/src/http_datagram.cpp): two small fixed
    buffers and a handful of counters, shown to be the machine of CapsuleProtocol. */
module CapsuleDecoder {
  import opened QuicVarint
  import opened Sequences
  import opened Wrappers
  import opened CapsuleProtocol

  datatype PayloadMode = Deliver | Skip | ContextId

  /** One callback: a fragment of a kept capsule. */
  datatype Event = Event(ctype: nat, part: seq<Byte>, last: bool)

  function Cut(e: Event): seq<Item> {
    Octets(e.ctype, e.part) + if e.last then [Close(e.ctype)] else []
  }

  function Flatten(events: seq<Event>): seq<Item> {
    if events == [] then [] else Flatten(events[..|events| - 1]) + Cut(events[|events| - 1])
  }

  lemma FlattenGrows(events: seq<Event>, e: Event)
    ensures Flatten(events + [e]) == Flatten(events) + Cut(e)
  {
    assert (events + [e])[..|events|] == events;
  }

  lemma FlattenOne(e: Event)
    ensures Flatten([e]) == Cut(e)
  {
    FlattenGrows([], e);
    assert [] + [e] == [e];
  }

  lemma SixteenSuffice(s: seq<Byte>)
    ensures |s| >= 16 ==> ParseHeader(s).Header?
  {
  }

  /** One more octet either completes the type or leaves the header as short as it was. */
  lemma TypeStep(bytes: seq<Byte>)
    requires bytes != [] && Decode(bytes[..|bytes| - 1]) == Incomplete
    ensures Decode(bytes).Incomplete? ==> |bytes| < 8 && ParseHeader(bytes) == NoHeader
    ensures Decode(bytes).Varint? ==> Decode(bytes).size <= |bytes|
  {
    hide Value;
    if Decode(bytes).Varint? {
      DecodeIsStable(bytes, []);
    }
  }

  /** A complete type is not changed by the octets that follow it. */
  lemma TypeStays(bytes: seq<Byte>)
    requires bytes != [] && Decode(bytes[..|bytes| - 1]).Varint?
    ensures Decode(bytes) == Decode(bytes[..|bytes| - 1]) && Decode(bytes).size <= |bytes|
  {
    hide Value, Decode;
    DecodeIsStable(bytes[..|bytes| - 1], [bytes[|bytes| - 1]]);
    assert bytes[..|bytes| - 1] + [bytes[|bytes| - 1]] == bytes;
  }

  class Decoder {
    const max: nat
    const header: array<Byte>
    const contextId: array<Byte>
    var headerSize: nat
    var typeSize: nat
    var contextIdSize: nat
    var ctype: nat
    var remaining: nat
    var mode: PayloadMode
    var payload: bool
    var status: Status

    ghost predicate Valid()
      reads this, header, contextId
    {
      && header.Length == 16 && contextId.Length == 8 && header != contextId
      && (status != Limit && !payload ==> HeaderOk())
      && (status != Limit && payload ==>
            remaining > 0 && headerSize == 0 && typeSize == 0
            && (mode == ContextId ==> contextIdSize < 8 && Decode(contextId[..contextIdSize]) == Incomplete))
    }

    ghost predicate HeaderOk()
      reads this, header
    {
      && headerSize < 16 == header.Length && ParseHeader(header[..headerSize]) == NoHeader
      && Decode(header[..headerSize]) == if typeSize == 0 then Incomplete else Varint(ctype, typeSize)
    }

    /** The state of the machine. */
    ghost function View(): Mode
      requires Valid()
      reads this, header, contextId
    {
      if status == Limit then Halted
      else if !payload then InHeader(header[..headerSize])
      else match mode
           case Skip => Skipping(remaining)
           case ContextId => InContext(ctype, contextId[..contextIdSize], remaining)
           case Deliver => Delivering(ctype, remaining)
    }

    constructor (max: nat)
      ensures Valid() && View() == START && status == NeedMoreData && this.max == max
      ensures fresh(header) && fresh(contextId)
    {
      this.max := max;
      header := new Byte[16](_ => 0);
      contextId := new Byte[8](_ => 0);
      headerSize, typeSize, contextIdSize, ctype, remaining := 0, 0, 0, 0, 0;
      mode, payload, status := Deliver, false, NeedMoreData;
      new;
      assert header[..0] == [];
    }

    /** One octet of a header. */
    method HeaderByte(b: Byte, retention: Retention) returns (events: seq<Event>)
      requires Valid() && status == NeedMoreData && !payload
      modifies this, header
      ensures Valid() && (status == NeedMoreData || status == Limit)
      ensures (View(), Flatten(events)) == StepByte(Config(max, retention), old(View()), b)
      ensures |events| <= 1 && (events != [] ==> events[0].last && status == NeedMoreData && !payload)
    {
      hide Decode, Value, AfterHeader;
      events := [];
      ghost var bytes := header[..headerSize] + [b];
      SixteenSuffice(bytes);
      header[headerSize] := b;
      headerSize := headerSize + 1;
      assert header[..headerSize] == bytes && bytes[..|bytes| - 1] == old(header[..headerSize]);
      if typeSize == 0 {
        TypeStep(bytes);
        var t := DecodeVarint(header[..headerSize]);
        if t == Incomplete {
          return;
        }
        ctype, typeSize := t.value, t.size;
      } else {
        TypeStays(bytes);
      }
      var length := DecodeVarint(header[typeSize..headerSize]);
      assert bytes[typeSize..] == header[typeSize..headerSize];
      if length == Incomplete {
        return;
      }
      events := BeginValue(length.value, retention);
    }

    /** The header is complete. */
    method BeginValue(length: nat, retention: Retention) returns (events: seq<Event>)
      requires status == NeedMoreData && header.Length == 16 && contextId.Length == 8 && header != contextId && !payload
      modifies this
      ensures Valid() && (status == NeedMoreData || status == Limit)
      ensures (View(), Flatten(events)) == AfterHeader(Config(max, retention), old(ctype), length)
      ensures |events| <= 1 && (events != [] ==> events[0].last && status == NeedMoreData && !payload)
    {
      events := [];
      remaining := length;
      headerSize := 0;
      typeSize := 0;
      assert header[..0] == [] && contextId[..0] == [];
      var kept := retention == All || ctype == DATAGRAM;
      if !kept {
        mode := Skip;
      } else if retention == UdpPayloads && remaining != 0 {
        mode := ContextId;
        contextIdSize := 0;
      } else if remaining > max {
        status := Limit;
        return;
      } else {
        mode := Deliver;
      }
      payload := remaining != 0;
      if !payload && kept {
        events := [Event(ctype, [], true)];
        FlattenOne(events[0]);
        assert Cut(events[0]) == [Close(ctype)];
      }
    }

    /** A run of a dropped capsule's octets. */
    method SkipRun(s: seq<Byte>, ghost retention: Retention)
      requires Valid() && status == NeedMoreData && payload && mode == Skip && 0 < |s| <= remaining
      modifies this
      ensures Valid() && status == NeedMoreData
      ensures (View(), []) == Feed(Config(max, retention), old(View()), s)
    {
      SkipChunk(Config(max, retention), remaining, s);
      remaining := remaining - |s|;
      payload := remaining != 0;
      assert header[..0] == [];
    }

    /** A run of a kept capsule's octets: one fragment. */
    method DeliverRun(s: seq<Byte>, ghost retention: Retention) returns (events: seq<Event>)
      requires Valid() && status == NeedMoreData && payload && mode == Deliver && 0 < |s| <= remaining
      modifies this
      ensures Valid() && status == NeedMoreData && |events| == 1 && events[0].last == !payload
      ensures (View(), Flatten(events)) == Feed(Config(max, retention), old(View()), s)
    {
      DeliverChunk(Config(max, retention), ctype, remaining, s);
      remaining := remaining - |s|;
      payload := remaining != 0;
      events := [Event(ctype, s, !payload)];
      FlattenOne(events[0]);
      assert header[..0] == [];
    }

    /** One octet of a Context ID. */
    method ContextIdByte(b: Byte, ghost retention: Retention) returns (events: seq<Event>)
      requires Valid() && status == NeedMoreData && payload && mode == ContextId
      modifies this, contextId
      ensures Valid() && (status == NeedMoreData || status == Limit)
      ensures (View(), Flatten(events)) == StepByte(Config(max, retention), old(View()), b)
      ensures |events| <= 1 && (events != [] ==> events[0].last == !payload && status == NeedMoreData)
    {
      events := [];
      ghost var bytes := contextId[..contextIdSize] + [b];
      contextId[contextIdSize] := b;
      contextIdSize := contextIdSize + 1;
      assert contextId[..contextIdSize] == bytes && header[..0] == [];
      remaining := remaining - 1;
      var context := DecodeVarint(contextId[..contextIdSize]);
      if context == Incomplete && remaining != 0 {
        return;
      }
      payload := remaining != 0;
      if context.Varint? && context.value != 0 {
        mode := Skip;
        return;
      }
      if contextIdSize + remaining > max {
        status := Limit;
        return;
      }
      mode := Deliver;
      events := [Event(ctype, contextId[..contextIdSize], !payload)];
      FlattenOne(events[0]);
    }

    /** What feed_impl does with the next octets: one, or a run of one mode. */
    method FeedSome(input: seq<Byte>, retention: Retention) returns (count: nat, events: seq<Event>)
      requires Valid() && status == NeedMoreData && input != []
      modifies this, header, contextId
      ensures Valid() && (status == NeedMoreData || status == Limit)
      ensures 0 < count <= |input|
      ensures (View(), Flatten(events)) == CapsuleProtocol.Feed(Config(max, retention), old(View()), input[..count])
      ensures |events| <= 1 && (events != [] && status == NeedMoreData ==> events[0].last == !payload)
      ensures status == Limit ==> events == []
    {
      ghost var c := Config(max, retention);
      count := 1;
      events := [];
      assert input[..1] == [input[0]];
      FeedOne(c, View(), input[0]);
      if !payload {
        events := HeaderByte(input[0], retention);
      } else if mode == Skip {
        count := if |input| < remaining then |input| else remaining;
        SkipRun(input[..count], retention);
      } else if mode == ContextId {
        events := ContextIdByte(input[0], retention);
      } else {
        count := if |input| < remaining then |input| else remaining;
        events := DeliverRun(input[..count], retention);
      }
    }

    /** feed_impl. With `one` it stops after the first capsule it completes; the rest of
        the input stays with the caller. */
    method FeedImpl(input: seq<Byte>, fin: bool, one: bool, retention: Retention)
        returns (consumed: nat, complete: bool, events: seq<Event>)
      requires Valid()
      modifies this, header, contextId
      ensures Valid() && consumed <= |input|
      ensures old(status) != NeedMoreData ==> unchanged(this) && events == [] && consumed == 0 && !complete
      ensures old(status) == NeedMoreData ==>
        && (View(), Flatten(events)) == CapsuleProtocol.Feed(Config(max, retention), old(View()), input[..consumed])
        && status == (if View() == Halted then Limit
                      else if fin && consumed == |input| then Final(View())
                      else NeedMoreData)
        && (consumed < |input| ==> status == Limit || (one && complete))
        && (consumed == 0 ==> input == [])
      ensures one ==> (complete <==> events != [] && events[|events| - 1].last)
      ensures one ==> forall k :: 0 <= k < |events| - 1 ==> !events[k].last
    {
      hide CapsuleProtocol.Feed, Flatten, Final, View;
      consumed, complete, events := 0, false, [];
      if status != NeedMoreData {
        return;
      }
      FeedNothing(Config(max, retention), View(), input);
      ghost var c, start := Config(max, retention), View();
      while consumed < |input| && status == NeedMoreData && !(one && complete)
        invariant Valid() && (status == NeedMoreData || status == Limit) && consumed <= |input|
        invariant (View(), Flatten(events)) == CapsuleProtocol.Feed(c, start, input[..consumed])
        invariant one ==> (complete <==> events != [] && events[|events| - 1].last)
        invariant one ==> forall k :: 0 <= k < |events| - 1 ==> !events[k].last
        invariant consumed == 0 ==> status == NeedMoreData && !complete
        decreases |input| - consumed
      {
        var count, more := FeedSome(input[consumed..], retention);
        FeedMore(c, start, input, consumed, count, events, more);
        events := events + more;
        consumed := consumed + count;
        if more != [] && more[0].last {
          complete := true;
        }
      }
      NotHalted();
      if status == NeedMoreData && fin && consumed == |input| {
        FinalStatus();
        label ended:
        status := if payload || headerSize != 0 then Truncated else End;
        StatusOnly@ended();
      }
    }

    lemma NotHalted()
      requires Valid()
      ensures View() == Halted <==> status == Limit
    {
    }

    /** Ending the input does not change where the machine stands. */
    twostate lemma StatusOnly()
      requires old(Valid()) && Valid() && old(status) != Limit && status != Limit
      requires unchanged(this`headerSize, this`typeSize, this`contextIdSize, this`ctype, this`remaining, this`mode,
                 this`payload)
      requires unchanged(header) && unchanged(contextId)
      ensures View() == old(View())
    {
    }

    lemma FinalStatus()
      requires Valid() && status != Limit
      ensures Final(View()) == if payload || headerSize != 0 then Truncated else End
    {
    }

    /** feed. */
    method FeedInput(input: seq<Byte>, fin: bool, retention: Retention) returns (events: seq<Event>)
      requires Valid() && status == NeedMoreData
      modifies this, header, contextId
      ensures Valid()
      ensures (View(), Flatten(events)) == CapsuleProtocol.Feed(Config(max, retention), old(View()), input)
      ensures status == if View() == Halted then Limit else if fin then Final(View()) else NeedMoreData
    {
      var consumed, complete;
      consumed, complete, events := FeedImpl(input, fin, false, retention);
      NotHalted();
      FeedRest(Config(max, retention), old(View()), input, consumed);
    }

    /** A pull-based caller: feed_one until nothing is left or the decoder has ended. */
    method PullAll(input: seq<Byte>, fin: bool, retention: Retention) returns (events: seq<Event>)
      requires Valid() && status == NeedMoreData
      modifies this, header, contextId
      ensures Valid()
      ensures (View(), Flatten(events)) == CapsuleProtocol.Feed(Config(max, retention), old(View()), input)
      ensures status == if View() == Halted then Limit else if fin then Final(View()) else NeedMoreData
    {
      hide CapsuleProtocol.Feed, Flatten, Final, View;
      ghost var c, start := Config(max, retention), View();
      var at, complete;
      at, complete, events := FeedImpl(input, fin, true, retention);
      while at < |input| && status == NeedMoreData
        invariant Valid() && at <= |input|
        invariant (View(), Flatten(events)) == CapsuleProtocol.Feed(c, start, input[..at])
        invariant status ==
                  if View() == Halted then Limit else if fin && at == |input| then Final(View()) else NeedMoreData
        decreases |input| - at
      {
        var consumed, more;
        consumed, complete, more := FeedImpl(input[at..], fin, true, retention);
        FeedMore(c, start, input, at, consumed, events, more);
        events := events + more;
        at := at + consumed;
      }
      NotHalted();
      FeedRest(c, start, input, at);
    }
  }

  lemma FeedNothing(c: Config, mode: Mode, input: seq<Byte>)
    ensures (mode, Flatten([])) == CapsuleProtocol.Feed(c, mode, input[..0])
  {
  }

  lemma FeedMore(c: Config, start: Mode, input: seq<Byte>, at: nat, count: nat, events: seq<Event>, more: seq<Event>)
    requires at + count <= |input| && CapsuleProtocol.Feed(c, start, input[..at]).1 == Flatten(events)
    requires CapsuleProtocol.Feed(c, CapsuleProtocol.Feed(c, start, input[..at]).0, input[at..][..count]).1
             == Flatten(more)
    ensures var mid := CapsuleProtocol.Feed(c, start, input[..at]).0;
      CapsuleProtocol.Feed(c, start, input[..at + count])
      == (CapsuleProtocol.Feed(c, mid, input[at..][..count]).0, Flatten(events + more))
  {
    hide CapsuleProtocol.Feed, Flatten;
    FeedConcat(c, start, input[..at], input[at..][..count]);
    assert input[..at + count] == input[..at] + input[at..][..count];
    FlattenConcat(events, more);
  }

  /** What is left after the machine halted adds nothing. */
  lemma FeedRest(c: Config, start: Mode, input: seq<Byte>, at: nat)
    requires at <= |input| && (at < |input| ==> CapsuleProtocol.Feed(c, start, input[..at]).0 == Halted)
    ensures CapsuleProtocol.Feed(c, start, input) == CapsuleProtocol.Feed(c, start, input[..at])
  {
    FeedConcat(c, start, input[..at], input[at..]);
    assert input == input[..at] + input[at..];
    if at < |input| {
      HaltedStays(c, input[at..]);
      Nothing(CapsuleProtocol.Feed(c, start, input[..at]).1);
    } else {
      assert input[..at] == input;
    }
  }

  lemma {:induction false} FlattenConcat(a: seq<Event>, b: seq<Event>)
    ensures Flatten(a + b) == Flatten(a) + Flatten(b)
    decreases |b|
  {
    hide Cut;
    if b == [] {
      assert a + b == a;
    } else {
      var last := b[|b| - 1];
      FlattenConcat(a, b[..|b| - 1]);
      assert a + b == (a + b[..|b| - 1]) + [last];
      FlattenGrows(a + b[..|b| - 1], last);
      assert Flatten(a + b) == (Flatten(a) + Flatten(b[..|b| - 1])) + Cut(last);
    }
  }

  /** A stream that arrives in pieces, the last one marked as final: the deliveries and
      the status are those of the parse of the whole input. */
  method DecodeStream(max: nat, pieces: seq<seq<Byte>>, retention: Retention)
    returns (events: seq<Event>, status: Status)
    ensures var parsed := Parse(Config(max, retention), Concat(pieces));
      Flatten(events) == Items(parsed) && status == parsed.status
  {
    hide CapsuleProtocol.Feed, Flatten, Items, Concat, FeedPieces;
    ghost var c := Config(max, retention);
    var d := new Decoder(max);
    events := [];
    var k := 0;
    StreamStart(c, pieces);
    while k < |pieces| && d.status == NeedMoreData
      invariant k <= |pieces| && d.Valid() && d.max == max && fresh(d) && fresh(d.header) && fresh(d.contextId)
      invariant (d.View(), Flatten(events)) == FeedPieces(c, START, pieces[..k])
      invariant d.status ==
                if d.View() == Halted then Limit else if 0 < k == |pieces| then Final(d.View()) else NeedMoreData
    {
      var more := d.FeedInput(pieces[k], k + 1 == |pieces|, retention);
      PieceAfter(c, pieces[..k], pieces[k]);
      assert pieces[..k + 1] == pieces[..k] + [pieces[k]];
      FlattenConcat(events, more);
      events := events + more;
      k := k + 1;
    }
    if pieces == [] {
      events := d.FeedInput([], true, retention);
    }
    PiecesDoNotMatter(c, START, pieces);
    HaltedPieces(c, pieces, k);
    MachineIsParse(c, Concat(pieces));
    status := d.status;
  }

  lemma StreamStart(c: Config, pieces: seq<seq<Byte>>)
    ensures FeedPieces(c, START, pieces[..0]) == (START, Flatten([])) == CapsuleProtocol.Feed(c, START, [])
  {
  }

  lemma PieceAfter(c: Config, pieces: seq<seq<Byte>>, last: seq<Byte>)
    ensures var before := FeedPieces(c, START, pieces); var step := CapsuleProtocol.Feed(c, before.0, last);
      FeedPieces(c, START, pieces + [last]) == (step.0, before.1 + step.1)
  {
    PiecesDoNotMatter(c, START, pieces);
    PiecesDoNotMatter(c, START, pieces + [last]);
    JoinGrows(pieces, last);
    FeedConcat(c, START, Concat(pieces), last);
  }

  lemma {:induction false} JoinGrows(pieces: seq<seq<Byte>>, last: seq<Byte>)
    ensures Concat(pieces + [last]) == Concat(pieces) + last
  {
    if pieces == [] {
      assert [last][1..] == [];
      assert [] + [last] == [last];
    } else {
      assert (pieces + [last])[1..] == pieces[1..] + [last];
      JoinGrows(pieces[1..], last);
    }
  }

  lemma {:induction false} HaltedPieces(c: Config, pieces: seq<seq<Byte>>, k: nat)
    requires k <= |pieces| && (k == |pieces| || FeedPieces(c, START, pieces[..k]).0 == Halted)
    ensures FeedPieces(c, START, pieces) == FeedPieces(c, START, pieces[..k])
    decreases |pieces| - k
  {
    if k < |pieces| {
      PieceAfter(c, pieces[..k], pieces[k]);
      assert pieces[..k + 1] == pieces[..k] + [pieces[k]];
      HaltedStays(c, pieces[k]);
      Nothing(FeedPieces(c, START, pieces[..k]).1);
      HaltedPieces(c, pieces, k + 1);
    } else {
      assert pieces[..k] == pieces;
    }
  }

  // ----- writing capsules

  datatype Plan = Planned(prefix: seq<Byte>) | PayloadTooLarge

  /** encode_http_capsule_header. */
  method EncodeCapsuleHeader(output: array<Byte>, ctype: nat, length: nat) returns (r: EncodeResult)
    modifies output
    ensures r == (if ctype > MAX || length > MAX then OutOfRange
                  else if output.Length < Size(ctype) + Size(length) then OutputTooSmall
                  else Encoded(Size(ctype) + Size(length)))
    ensures r.Encoded? ==> output[..r.size] == EncodeHeader(ctype, length) && output[r.size..] == old(output[r.size..])
  {
    if ctype > MAX || length > MAX {
      return OutOfRange;
    }
    if output.Length < Size(ctype) + Size(length) {
      return OutputTooSmall;
    }
    var first := EncodeVarint(output, 0, ctype);
    assert output[..Size(ctype)] == Encode(ctype);
    var second := EncodeVarint(output, Size(ctype), length);
    assert output[..Size(ctype) + Size(length)] == Encode(ctype) + Encode(length);
    r := Encoded(Size(ctype) + Size(length));
  }

  /** plan_datagram_capsule: what to send before the borrowed payload. */
  method PlanDatagramCapsule(payload: seq<Byte>, contextPrefix: seq<Byte>) returns (r: Plan)
    requires |contextPrefix| <= 8
    ensures r == if |contextPrefix| + |payload| > MAX then PayloadTooLarge
                 else Planned(EncodeHeader(DATAGRAM, |contextPrefix| + |payload|) + contextPrefix)
  {
    if |payload| > MAX - |contextPrefix| {
      return PayloadTooLarge;
    }
    var buffer := new Byte[24](_ => 0);
    var header := EncodeCapsuleHeader(buffer, DATAGRAM, |contextPrefix| + |payload|);
    ghost var encoded := EncodeHeader(DATAGRAM, |contextPrefix| + |payload|);
    for k := 0 to |contextPrefix|
      invariant buffer[..header.size + k] == encoded + contextPrefix[..k]
    {
      buffer[header.size + k] := contextPrefix[k];
      assert buffer[..header.size + k + 1] == encoded + contextPrefix[..k] + [contextPrefix[k]];
    }
    r := Planned(buffer[..header.size + |contextPrefix|]);
  }

  /** Sent before its payload, a plan is parsed back by every receiver that keeps it. */
  lemma PlanParsesBack(c: Config, payload: seq<Byte>, contextPrefix: seq<Byte>, rest: seq<Byte>)
    requires |contextPrefix| + |payload| <= MAX
    requires Judge(c, DATAGRAM, |contextPrefix + payload|, contextPrefix + payload).Keep?
    ensures var sent := EncodeHeader(DATAGRAM, |contextPrefix| + |payload|) + contextPrefix + payload;
      Parse(c, sent + rest)
      == Parse(c, rest).(capsules := [Capsule(DATAGRAM, contextPrefix + payload)] + Parse(c, rest).capsules)
  {
    hide Judge, Parse, EncodeHeader;
    CapsuleRoundTrip(c, DATAGRAM, contextPrefix + payload, rest);
    Regroup(EncodeHeader(DATAGRAM, |contextPrefix| + |payload|), contextPrefix, payload, rest);
  }

  lemma Regroup(a: seq<Byte>, b: seq<Byte>, c: seq<Byte>, d: seq<Byte>)
    ensures a + b + c + d == a + (b + c) + d
  {
  }
}
