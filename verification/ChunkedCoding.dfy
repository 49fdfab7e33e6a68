/** The chunked transfer coding (section 7.1 of RFC 9112) with the decoder's limits: what
    a whole message means, what one decode call may do with the bytes it has, and that
    the two agree whatever comes later. The syntax of a size line and of a trailer block
    is a parameter. */
module ChunkedCoding {
  import opened Wrappers

  const CR: Byte := 13
  const LF: Byte := 10
  const MAX_HEADER: nat := 65536                      // max_http_header_bytes
  const SIZE_MAX: nat := 0xffff_ffff_ffff_ffff

  datatype Error = InvalidFraming | BodyLimitExceeded | FramingLimitExceeded

  /** A parsed size line: the size, and the bytes beyond its shortest spelling. */
  datatype Line = NoLine | Line(size: nat, overhead: nat)

  datatype Config = Config(
    limited: bool, limit: nat,                        // the body limit, if any
    sizeLine: seq<Byte> -> Line,
    trailersValid: seq<Byte> -> bool)

  datatype Phase = SizeLine | Body | Delimiter | Trailers | Done | Failed(error: Error)

  datatype Progress = Progress(phase: Phase, remaining: nat, decoded: nat, overhead: nat)

  const START := Progress(SizeLine, 0, 0, 0)

  /** How a message ends: not yet, with its trailers and what follows, or rejected. */
  datatype Ending = Incomplete | Complete(trailers: seq<Byte>, rest: seq<Byte>) | Failure(error: Error)
  datatype Outcome = Outcome(body: seq<Byte>, ending: Ending)

  function Prepend(body: seq<Byte>, o: Outcome): Outcome {
    o.(body := body + o.body)
  }

  function Capped(s: seq<Byte>): (r: seq<Byte>)
    ensures |r| <= |s| && r == s[..|r|] && (|r| < MAX_HEADER ==> r == s) && |r| <= MAX_HEADER
  {
    if |s| <= MAX_HEADER then s else s[..MAX_HEADER]
  }

  /** The first LF at or after `from`, or the length. */
  function FindLf(s: seq<Byte>, from: nat): (r: nat)
    requires from <= |s|
    ensures from <= r <= |s| && (r < |s| ==> s[r] == LF)
    ensures forall k :: from <= k < r ==> s[k] != LF
    decreases |s| - from
  {
    if from == |s| || s[from] == LF then from else FindLf(s, from + 1)
  }

  /** protocol_byte_limit::addition_exceeds. */
  predicate Exceeds(c: Config, current: nat, added: nat) {
    current + added > SIZE_MAX || (c.limited && current + added > c.limit)
  }

  // ----- one size line, one trailer section

  datatype LineRead = LineNeeded | LineBad(error: Error) | LineRead(size: nat, progress: Progress)

  function ReadLine(c: Config, d: Progress, s: seq<Byte>): (r: LineRead)
    ensures r.LineRead? ==> 0 < r.size <= |s|
  {
    var line := Capped(s);
    var lf := FindLf(line, 0);
    if lf == |line| then (if |line| >= MAX_HEADER then LineBad(FramingLimitExceeded) else LineNeeded)
    else if lf == 0 || line[lf - 1] != CR then LineBad(InvalidFraming)
    else
      match c.sizeLine(line[..lf - 1])
      case NoLine => LineBad(InvalidFraming)
      case Line(size, overhead) =>
        if MAX_HEADER - d.overhead < overhead then LineBad(FramingLimitExceeded)
        else if size == 0 then LineRead(lf + 1, Progress(Trailers, 0, d.decoded, d.overhead + overhead))
        else if Exceeds(c, d.decoded, size) then LineBad(BodyLimitExceeded)
        else LineRead(lf + 1, Progress(Body, size, d.decoded + size, d.overhead + overhead))
  }

  datatype Scan = NoEnd | BareLf | EndAt(end: nat)

  /** From `from` on: the first LF without a CR, or the first empty line. */
  function ScanTrailers(s: seq<Byte>, from: nat): (r: Scan)
    requires from <= |s|
    ensures r.EndAt? ==> r.end + 4 <= |s|
    decreases |s| - from
  {
    var lf := FindLf(s, from);
    if lf == |s| then NoEnd
    else if lf == 0 || s[lf - 1] != CR then BareLf
    else if lf >= 3 && s[lf - 2] == LF then EndAt(lf - 3)
    else ScanTrailers(s, lf + 1)
  }

  datatype TrailersRead = TrailersNeeded | TrailersBad(error: Error) | TrailersRead(size: nat, trailers: seq<Byte>)

  function ReadTrailersFrom(c: Config, s: seq<Byte>, from: nat): (r: TrailersRead)
    requires from <= |Capped(s)|
    ensures r.TrailersRead? ==> r.size <= |s|
  {
    var block := Capped(s);
    if |block| >= 2 && block[0] == CR && block[1] == LF then TrailersRead(2, [])
    else
      match ScanTrailers(block, from)
      case BareLf => TrailersBad(InvalidFraming)
      case NoEnd => if |block| >= MAX_HEADER then TrailersBad(FramingLimitExceeded) else TrailersNeeded
      case EndAt(end) =>
        if c.trailersValid(block[..end]) then TrailersRead(end + 4, block[..end]) else TrailersBad(InvalidFraming)
  }

  function ReadTrailers(c: Config, s: seq<Byte>): (r: TrailersRead)
    ensures r.TrailersRead? ==> r.size <= |s|
  {
    ReadTrailersFrom(c, s, 0)
  }

  // ----- the whole message

  function Rank(p: Phase): nat {
    if p == SizeLine || p == Delimiter then 1 else if p == Body then 2 else 0
  }

  function Min(a: nat, b: nat): nat {
    if a < b then a else b
  }

  function Parse(c: Config, d: Progress, s: seq<Byte>): Outcome
    decreases |s|, Rank(d.phase)
  {
    match d.phase
    case SizeLine =>
      (match ReadLine(c, d, s)
       case LineNeeded => Outcome([], Incomplete)
       case LineBad(e) => Outcome([], Failure(e))
       case LineRead(n, d') => Parse(c, d', s[n..]))
    case Body =>
      var n := Min(d.remaining, |s|);
      if n < d.remaining then Outcome(s, Incomplete)
      else Prepend(s[..n], Parse(c, d.(phase := Delimiter, remaining := 0), s[n..]))
    case Delimiter =>
      if |s| < 2 then Outcome([], Incomplete)
      else if s[0] == CR && s[1] == LF then Parse(c, d.(phase := SizeLine), s[2..])
      else Outcome([], Failure(InvalidFraming))
    case Trailers =>
      (match ReadTrailers(c, s)
       case TrailersNeeded => Outcome([], Incomplete)
       case TrailersBad(e) => Outcome([], Failure(e))
       case TrailersRead(n, t) => Outcome([], Complete(t, s[n..])))
    case Done => Outcome([], Complete([], s))
    case Failed(e) => Outcome([], Failure(e))
  }

  // ----- one call

  datatype Result = NeedMore | BodyChunk(bytes: seq<Byte>) | Completed(trailers: seq<Byte>) | Rejected(error: Error)
  datatype Call = Call(result: Result, consumed: nat, progress: Progress)

  function Skip(n: nat, r: Call): Call {
    r.(consumed := n + r.consumed)
  }

  function Reject(d: Progress, e: Error): Call {
    Call(Rejected(e), 0, d.(phase := Failed(e)))
  }

  /** What decode does with the bytes at hand, rescanning them from the start. */
  function Decode(c: Config, d: Progress, s: seq<Byte>, quota: nat): Call
    decreases |s|, Rank(d.phase)
  {
    match d.phase
    case SizeLine =>
      (match ReadLine(c, d, s)
       case LineNeeded => Call(NeedMore, 0, d)
       case LineBad(e) => Reject(d, e)
       case LineRead(n, d') => Skip(n, Decode(c, d', s[n..], quota)))
    case Body =>
      var n := Min(Min(d.remaining, |s|), quota);
      if n == 0 then Call(NeedMore, 0, d)
      else
        var d' := d.(remaining := d.remaining - n);
        if d'.remaining > 0 then Call(BodyChunk(s[..n]), n, d')
        else if |s| - n < 2 then Call(BodyChunk(s[..n]), n, d'.(phase := Delimiter))
        else if s[n] == CR && s[n + 1] == LF then Call(BodyChunk(s[..n]), n + 2, d'.(phase := SizeLine))
        else Call(Rejected(InvalidFraming), n, d'.(phase := Failed(InvalidFraming)))
    case Delimiter =>
      if |s| < 2 then Call(NeedMore, 0, d)
      else if s[0] == CR && s[1] == LF then Skip(2, Decode(c, d.(phase := SizeLine), s[2..], quota))
      else Reject(d, InvalidFraming)
    case Trailers =>
      (match ReadTrailers(c, s)
       case TrailersNeeded => Call(NeedMore, 0, d)
       case TrailersBad(e) => Reject(d, e)
       case TrailersRead(n, t) => Call(Completed(t), n, d.(phase := Done)))
    case Done => Call(Completed([]), 0, d)
    case Failed(e) => Call(Rejected(e), 0, d)
  }

  // ----- a decision taken stands whatever follows

  lemma {:induction false} FindLfPrefix(s: seq<Byte>, f: seq<Byte>, from: nat)
    requires from <= |s|
    ensures FindLf(s, from) < |s| ==> FindLf(s + f, from) == FindLf(s, from)
    decreases |s| - from
  {
    if from < |s| && s[from] != LF { FindLfPrefix(s, f, from + 1); }
  }

  lemma CappedPrefix(s: seq<Byte>, f: seq<Byte>)
    ensures Capped(s + f) == Capped(s) + Capped(s + f)[|Capped(s)|..]
    ensures |Capped(s)| >= MAX_HEADER ==> Capped(s + f) == Capped(s)
  {
  }

  lemma LineStands(c: Config, d: Progress, s: seq<Byte>, f: seq<Byte>)
    ensures ReadLine(c, d, s) != LineNeeded ==> ReadLine(c, d, s + f) == ReadLine(c, d, s)
  {
    var a, b := Capped(s), Capped(s + f);
    CappedPrefix(s, f);
    FindLfPrefix(a, b[|a|..], 0);
    assert 0 < FindLf(a, 0) < |a| ==> a[..FindLf(a, 0) - 1] == b[..FindLf(a, 0) - 1];
  }

  lemma {:induction false} ScanStands(s: seq<Byte>, f: seq<Byte>, from: nat)
    requires from <= |s|
    ensures ScanTrailers(s, from) != NoEnd ==> ScanTrailers(s + f, from) == ScanTrailers(s, from)
    decreases |s| - from
  {
    FindLfPrefix(s, f, from);
    var lf := FindLf(s, from);
    if lf < |s| && !(lf == 0 || s[lf - 1] != CR) && !(lf >= 3 && s[lf - 2] == LF) {
      ScanStands(s, f, lf + 1);
    }
  }

  lemma TrailersStand(c: Config, s: seq<Byte>, f: seq<Byte>)
    ensures ReadTrailers(c, s) != TrailersNeeded ==> ReadTrailers(c, s + f) == ReadTrailers(c, s)
  {
    var a, b := Capped(s), Capped(s + f);
    CappedPrefix(s, f);
    ScanStands(a, b[|a|..], 0);
    if ScanTrailers(a, 0).EndAt? { assert a[..ScanTrailers(a, 0).end] == b[..ScanTrailers(a, 0).end]; }
  }

  // ----- one call against the whole message

  /** Whatever arrives later, the call is a step of the parse of the whole: what it
      leaves parses to the rest, a body fragment is the next part of the body, and an
      end is the end. */
  ghost predicate Agrees(c: Config, d: Progress, s: seq<Byte>, r: Call, f: seq<Byte>) {
    && r.consumed <= |s|
    && (r.progress.phase.Failed? <==> r.result.Rejected?)
    && match r.result
       case NeedMore => Parse(c, d, s + f) == Parse(c, r.progress, s[r.consumed..] + f)
       case BodyChunk(b) => Parse(c, d, s + f) == Prepend(b, Parse(c, r.progress, s[r.consumed..] + f))
       case Completed(t) => Parse(c, d, s + f) == Outcome([], Complete(t, s[r.consumed..] + f))
       case Rejected(e) => Parse(c, d, s + f).ending == Failure(e) && r.progress.phase == Failed(e)
  }

  lemma {:induction false} CallAgrees(c: Config, d: Progress, s: seq<Byte>, quota: nat, f: seq<Byte>)
    ensures Agrees(c, d, s, Decode(c, d, s, quota), f)
    decreases |s|, Rank(d.phase)
  {
    hide ReadLine, ReadTrailers;
    assert s[0..] == s;
    match d.phase
    case SizeLine => LineAgrees(c, d, s, quota, f);
    case Body => BodyAgrees(c, d, s, quota, f);
    case Delimiter =>
      if |s| >= 2 && s[0] == CR && s[1] == LF {
        CallAgrees(c, d.(phase := SizeLine), s[2..], quota, f);
        SliceAppend(s, f, 2);
        SliceTwice(s, 2, Decode(c, d.(phase := SizeLine), s[2..], quota).consumed);
      }
    case Trailers =>
      TrailersStand(c, s, f);
      match ReadTrailers(c, s) {
        case TrailersRead(n, t) => SliceAppend(s, f, n);
        case _ =>
      }
    case Done =>
    case Failed(e) =>
  }

  lemma LineAgrees(c: Config, d: Progress, s: seq<Byte>, quota: nat, f: seq<Byte>)
    requires d.phase == SizeLine
    ensures Agrees(c, d, s, Decode(c, d, s, quota), f)
    decreases |s|, 1, 0
  {
    hide ReadLine, ReadTrailers;
    LineStands(c, d, s, f);
    assert s[0..] == s;
    match ReadLine(c, d, s) {
      case LineRead(n, d') =>
        CallAgrees(c, d', s[n..], quota, f);
        SliceAppend(s, f, n);
        SliceTwice(s, n, Decode(c, d', s[n..], quota).consumed);
      case _ =>
    }
  }

  lemma BodyAgrees(c: Config, d: Progress, s: seq<Byte>, quota: nat, f: seq<Byte>)
    requires d.phase == Body
    ensures Agrees(c, d, s, Decode(c, d, s, quota), f)
  {
    hide ReadLine, ReadTrailers, Parse;
    var n := Min(Min(d.remaining, |s|), quota);
    var r := Decode(c, d, s, quota);
    assert s[0..] == s;
    if n > 0 {
      var d' := d.(remaining := d.remaining - n);
      SplitBody(c, d, s + f, n);
      SliceAppend(s, f, n);
      if d'.remaining == 0 && |s| - n >= 2 {
        assert (s[n..] + f)[0] == s[n] && (s[n..] + f)[1] == s[n + 1];
        assert (s[n..] + f)[2..] == s[n + 2..] + f;
        ParseDelimiter(c, d'.(phase := Delimiter), s[n..] + f);
      }
    }
  }

  lemma SliceAppend(s: seq<Byte>, f: seq<Byte>, n: nat)
    requires n <= |s|
    ensures (s + f)[..n] == s[..n] && (s + f)[n..] == s[n..] + f
  {
  }

  lemma SliceTwice(s: seq<Byte>, n: nat, k: nat)
    requires n + k <= |s|
    ensures s[n..][k..] == s[n + k..]
  {
  }

  lemma ParseDelimiter(c: Config, d: Progress, s: seq<Byte>)
    requires d.phase == Delimiter && |s| >= 2
    ensures Parse(c, d, s) == if s[0] == CR && s[1] == LF then Parse(c, d.(phase := SizeLine), s[2..])
                              else Outcome([], Failure(InvalidFraming))
  {
  }

  /** Reading part of a chunk's data first changes nothing. */
  lemma SplitBody(c: Config, d: Progress, s: seq<Byte>, n: nat)
    requires d.phase == Body && n <= d.remaining && n <= |s|
    ensures var d' := d.(remaining := d.remaining - n);
      Parse(c, d, s) == Prepend(s[..n], Parse(c, if d'.remaining == 0 then d'.(phase := Delimiter) else d', s[n..]))
  {
    hide ReadLine, ReadTrailers;
    var k := Min(d.remaining, |s|);
    assert s[..n] + s[n..] == s;
    if k == d.remaining && n < d.remaining {
      assert s[..n] + s[n..][..k - n] == s[..k];
      assert s[n..][k - n..] == s[k..];
      var tail := Parse(c, d.(phase := Delimiter, remaining := 0), s[k..]);
      assert s[..n] + (s[n..][..k - n] + tail.body) == s[..k] + tail.body;
    }
  }

  /** A call that needs more bytes is right: with no more the message is incomplete. */
  lemma {:induction false} NeedIsReal(c: Config, d: Progress, s: seq<Byte>, quota: nat)
    requires quota > 0 && (d.phase == Body ==> d.remaining > 0) && Decode(c, d, s, quota).result == NeedMore
    ensures Parse(c, d, s) == Outcome([], Incomplete)
    decreases |s|, Rank(d.phase)
  {
    hide ReadTrailers;
    match d.phase
    case SizeLine =>
      match ReadLine(c, d, s) {
        case LineRead(n, d') => NeedIsReal(c, d', s[n..], quota);
        case _ =>
      }
    case Delimiter => if |s| >= 2 { NeedIsReal(c, d.(phase := SizeLine), s[2..], quota); }
    case _ =>
  }

  /** A body fragment stops only for the quota, the end of the chunk or the end of the bytes at hand, and the end of
      its chunk is read along with it if it is there. */
  lemma {:induction false} CallIsGreedy(c: Config, d: Progress, s: seq<Byte>, quota: nat)
    ensures var r := Decode(c, d, s, quota);
            r.result.BodyChunk? ==>
              && (|r.result.bytes| == quota || r.progress.remaining == 0 || r.consumed == |s|)
              && (r.progress.phase == Delimiter ==> |s| - r.consumed < 2)
    decreases |s|, Rank(d.phase)
  {
    hide ReadTrailers;
    match d.phase
    case SizeLine =>
      match ReadLine(c, d, s) {
        case LineRead(n, d') => CallIsGreedy(c, d', s[n..], quota);
        case _ =>
      }
    case Delimiter =>
      if |s| >= 2 && s[0] == CR && s[1] == LF {
        CallIsGreedy(c, d.(phase := SizeLine), s[2..], quota);
      }
    case _ =>
  }

  // ----- the limits

  /** The data of every announced chunk fits the body limit, the rest of the size lines
      their shared budget. */
  predicate Budgeted(c: Config, d: Progress) {
    && d.remaining <= d.decoded <= SIZE_MAX && (c.limited ==> d.decoded <= c.limit)
    && d.overhead <= MAX_HEADER
    && (d.phase == Body ==> d.remaining > 0)
    && (d.phase != Body && !d.phase.Failed? ==> d.remaining == 0)
  }

  lemma {:induction false} CallKeepsBudget(c: Config, d: Progress, s: seq<Byte>, quota: nat)
    requires Budgeted(c, d)
    ensures Budgeted(c, Decode(c, d, s, quota).progress)
    ensures var r := Decode(c, d, s, quota);
      r.result.BodyChunk? ==> 0 < |r.result.bytes| <= quota && r.consumed > 0
    decreases |s|, Rank(d.phase)
  {
    hide ReadTrailers, FindLf;
    match d.phase
    case SizeLine =>
      match ReadLine(c, d, s) {
        case LineRead(n, d') => CallKeepsBudget(c, d', s[n..], quota);
        case _ =>
      }
    case Delimiter =>
      if |s| >= 2 && s[0] == CR && s[1] == LF {
        CallKeepsBudget(c, d.(phase := SizeLine), s[2..], quota);
      }
    case _ =>
  }

  /** The body of a message never exceeds the limit. */
  lemma {:induction false} BodyWithinLimit(c: Config, d: Progress, s: seq<Byte>)
    requires Budgeted(c, d) && !d.phase.Failed?
    ensures d.decoded - d.remaining + |Parse(c, d, s).body| <= (if c.limited then c.limit else SIZE_MAX)
    decreases |s|, Rank(d.phase)
  {
    hide ReadTrailers, FindLf;
    match d.phase
    case SizeLine =>
      match ReadLine(c, d, s) {
        case LineRead(n, d') => BodyWithinLimit(c, d', s[n..]);
        case _ =>
      }
    case Body =>
      var n := Min(d.remaining, |s|);
      if n == d.remaining { BodyWithinLimit(c, d.(phase := Delimiter, remaining := 0), s[n..]); }
    case Delimiter => if |s| >= 2 && s[0] == CR && s[1] == LF { BodyWithinLimit(c, d.(phase := SizeLine), s[2..]); }
    case _ =>
  }

  // ----- resuming a search

  /** Every LF up to `at` ends a CRLF, and none of them an empty line. */
  predicate Clean(s: seq<Byte>, from: nat, at: nat)
    requires at <= |s|
  {
    forall k :: from <= k < at && s[k] == LF ==> k > 0 && s[k - 1] == CR && !(k >= 3 && s[k - 2] == LF)
  }

  /** What an earlier call has looked at and left need not be searched again. */
  predicate Scanned(d: Progress, s: seq<Byte>, lineOffset: nat, trailerOffset: nat) {
    && (d.phase == SizeLine ==> lineOffset <= |Capped(s)| && forall k :: 0 <= k < lineOffset ==> s[k] != LF)
    && (d.phase != SizeLine ==> lineOffset == 0)
    && (d.phase == Trailers ==> trailerOffset <= |Capped(s)| && Clean(s, 0, trailerOffset))
  }

  /** ... however many bytes have been added since. */
  lemma ScannedGrows(d: Progress, s: seq<Byte>, f: seq<Byte>, lineOffset: nat, trailerOffset: nat)
    requires Scanned(d, s, lineOffset, trailerOffset)
    ensures Scanned(d, s + f, lineOffset, trailerOffset)
  {
  }

  lemma {:induction false} ResumeLine(s: seq<Byte>, from: nat, at: nat)
    requires from <= at <= |s| && forall k :: from <= k < at ==> s[k] != LF
    ensures FindLf(s, from) == FindLf(s, at)
    decreases at - from
  {
    if from < at { ResumeLine(s, from + 1, at); }
  }

  lemma {:induction false} ResumeTrailers(s: seq<Byte>, from: nat, at: nat)
    requires from <= at <= |s| && Clean(s, from, at)
    ensures ScanTrailers(s, from) == ScanTrailers(s, at)
    decreases at - from
  {
    hide FindLf;
    var lf := FindLf(s, from);
    if lf < at {
      ResumeTrailers(s, lf + 1, at);
    } else {
      ResumeLine(s, from, at);
    }
  }

  lemma {:induction false} NoEndIsClean(s: seq<Byte>, from: nat)
    requires from <= |s| && ScanTrailers(s, from) == NoEnd
    ensures Clean(s, from, |s|)
    decreases |s| - from
  {
    hide FindLf;
    var lf := FindLf(s, from);
    if lf < |s| { NoEndIsClean(s, lf + 1); }
  }

  // ----- one call, state by state

  lemma SkipTwice(a: nat, b: nat, r: Call)
    ensures Skip(a, Skip(b, r)) == Skip(a + b, r)
  {
  }

  lemma DecodeByState(c: Config, d: Progress, s: seq<Byte>, quota: nat)
    ensures d.phase == SizeLine && ReadLine(c, d, s).LineRead? ==>
      Decode(c, d, s, quota) == Skip(ReadLine(c, d, s).size,
          Decode(c, ReadLine(c, d, s).progress, s[ReadLine(c, d, s).size..], quota))
    ensures d.phase == SizeLine && ReadLine(c, d, s).LineNeeded? ==> Decode(c, d, s, quota) == Call(NeedMore, 0, d)
    ensures d.phase == SizeLine && ReadLine(c, d, s).LineBad? ==>
            Decode(c, d, s, quota) == Reject(d, ReadLine(c, d, s).error)
    ensures d.phase == Delimiter ==>
      Decode(c, d, s, quota) == (if |s| < 2 then Call(NeedMore, 0, d)
                                 else if s[0] == CR && s[1] == LF
                                   then Skip(2, Decode(c, d.(phase := SizeLine), s[2..], quota))
                                 else Reject(d, InvalidFraming))
    ensures d.phase == Trailers ==>
      Decode(c, d, s, quota) == match ReadTrailers(c, s)
                                case TrailersNeeded => Call(NeedMore, 0, d)
                                case TrailersBad(e) => Reject(d, e)
                                case TrailersRead(n, t) => Call(Completed(t), n, d.(phase := Done))
    ensures d.phase == Done ==> Decode(c, d, s, quota) == Call(Completed([]), 0, d)
    ensures d.phase.Failed? ==> Decode(c, d, s, quota) == Call(Rejected(d.phase.error), 0, d)
  {
    hide ReadLine, ReadTrailers;
  }

  // ----- messages as the grammar of section 7.1 writes them

  datatype Chunk = Chunk(line: seq<Byte>, data: seq<Byte>)

  const CRLF: seq<Byte> := [CR, LF]

  /** The chunks, then whatever ends the message. */
  function Wire(chunks: seq<Chunk>, tail: seq<Byte>): seq<Byte> {
    if chunks == [] then tail
    else chunks[0].line + CRLF + (chunks[0].data + CRLF + Wire(chunks[1..], tail))
  }

  function Data(chunks: seq<Chunk>): seq<Byte> {
    if chunks == [] then [] else chunks[0].data + Data(chunks[1..])
  }

  function Overhead(c: Config, chunks: seq<Chunk>): nat {
    if chunks == [] then 0 else Extra(c, chunks[0].line) + Overhead(c, chunks[1..])
  }

  function Extra(c: Config, line: seq<Byte>): nat {
    match c.sizeLine(line)
    case NoLine => 0
    case Line(_, overhead) => overhead
  }

  /** A size line for that many bytes, short enough to be searched. */
  predicate LineFor(c: Config, line: seq<Byte>, size: nat) {
    && |line| + 2 <= MAX_HEADER && LF !in line && c.sizeLine(line) == Line(size, Extra(c, line))
  }

  predicate WellFormed(c: Config, chunks: seq<Chunk>) {
    forall k :: 0 <= k < |chunks| ==> chunks[k].data != [] && LineFor(c, chunks[k].line, |chunks[k].data|)
  }

  lemma {:induction false} FindLfAfter(line: seq<Byte>, rest: seq<Byte>, from: nat)
    requires LF !in line && from <= |line|
    ensures FindLf(line + CRLF + rest, from) == |line| + 1
    decreases |line| - from
  {
    var s := line + CRLF + rest;
    if from < |line| {
      assert s[from] == line[from];
      FindLfAfter(line, rest, from + 1);
    } else {
      assert s[from] == CR && s[from + 1] == LF;
    }
  }

  lemma ReadWholeLine(c: Config, d: Progress, line: seq<Byte>, size: nat, rest: seq<Byte>)
    requires LineFor(c, line, size) && d.overhead + Extra(c, line) <= MAX_HEADER
    requires size > 0 ==> !Exceeds(c, d.decoded, size)
    ensures ReadLine(c, d, line + CRLF + rest)
            == LineRead(|line| + 2, Progress(if size == 0 then Trailers else Body, size,
                                             d.decoded + size, d.overhead + Extra(c, line)))
  {
    var s := line + CRLF + rest;
    var capped := Capped(s);
    assert capped == line + CRLF + capped[|line| + 2..];
    FindLfAfter(line, capped[|line| + 2..], 0);
    assert capped[..|line|] == line;
  }

  /** A whole message: its chunks, the line of the last one, and the trailer section up to and
      with the empty line, whose fields are `trailers`. */
  datatype Message = Message(chunks: seq<Chunk>, last: seq<Byte>, section: seq<Byte>, trailers: seq<Byte>)

  function Bytes(m: Message, rest: seq<Byte>): seq<Byte> {
    Wire(m.chunks, m.last + CRLF + (m.section + rest))
  }

  /** No field, or valid fields in which every LF ends a CRLF and the first empty line is the end. */
  predicate TrailerSection(c: Config, section: seq<Byte>, trailers: seq<Byte>) {
    || (section == CRLF && trailers == [])
    || (section == trailers + CRLF + CRLF && |section| <= MAX_HEADER && !(CRLF <= section)
        && c.trailersValid(trailers) && Clean(section, 0, |section| - 1))
  }

  /** The message follows the grammar and keeps to the limits, as far as they are not used up. */
  predicate Acceptable(c: Config, d: Progress, m: Message) {
    && WellFormed(c, m.chunks) && LineFor(c, m.last, 0) && TrailerSection(c, m.section, m.trailers)
    && d.overhead + Overhead(c, m.chunks) + Extra(c, m.last) <= MAX_HEADER
    && !Exceeds(c, d.decoded, |Data(m.chunks)|)
  }

  /** Every well-formed message within the limits is accepted: its body is its chunks'
      data, its trailers are reported, and what follows it is left alone. */
  lemma {:induction false} WellFormedIsAccepted(c: Config, d: Progress, m: Message, rest: seq<Byte>)
    requires d.phase == SizeLine && d.remaining == 0 && Acceptable(c, d, m)
    ensures Parse(c, d, Bytes(m, rest)) == Outcome(Data(m.chunks), Complete(m.trailers, rest))
    decreases |m.chunks|
  {
    hide Parse, LineFor, TrailerSection;
    if m.chunks == [] {
      LastChunk(c, d, m, rest);
    } else {
      var chunk, m' := m.chunks[0], m.(chunks := m.chunks[1..]);
      OneChunk(c, d, chunk, Bytes(m', rest));
      var d' := Progress(SizeLine, 0, d.decoded + |chunk.data|, d.overhead + Extra(c, chunk.line));
      WellFormedIsAccepted(c, d', m', rest);
    }
  }

  lemma LastChunk(c: Config, d: Progress, m: Message, rest: seq<Byte>)
    requires d.phase == SizeLine && LineFor(c, m.last, 0) && d.overhead + Extra(c, m.last) <= MAX_HEADER
    requires TrailerSection(c, m.section, m.trailers)
    ensures Parse(c, d, m.last + CRLF + (m.section + rest)) == Outcome([], Complete(m.trailers, rest))
  {
    hide ReadLine, ReadTrailers, LineFor, TrailerSection;
    ReadWholeLine(c, d, m.last, 0, m.section + rest);
    assert (m.last + CRLF + (m.section + rest))[|m.last| + 2..] == m.section + rest;
    ReadWholeSection(c, m.section, m.trailers, rest);
    assert (m.section + rest)[|m.section|..] == rest;
  }

  lemma ReadWholeSection(c: Config, section: seq<Byte>, trailers: seq<Byte>, rest: seq<Byte>)
    requires TrailerSection(c, section, trailers)
    ensures ReadTrailers(c, section + rest) == TrailersRead(|section|, trailers)
  {
    var s := section + rest;
    if section != CRLF {
      var block, last := Capped(s), |section| - 1;
      assert block == section + block[|section|..];
      ResumeTrailers(section, 0, last);
      assert section[last] == LF && section[last - 1] == CR && section[last - 2] == LF;
      ScanStands(section, block[|section|..], 0);
      assert block[..|trailers|] == trailers;
      assert block[0] == section[0] && block[1] == section[1];
      assert CRLF <= section <==> section[0] == CR && section[1] == LF;
    }
  }

  // ----- ... and nothing else is accepted

  lemma LineIsThere(c: Config, d: Progress, s: seq<Byte>)
    requires ReadLine(c, d, s).LineRead? && d.phase == SizeLine && d.remaining == 0
    ensures var n, d' := ReadLine(c, d, s).size, ReadLine(c, d, s).progress;
      && n >= 2 && s == s[..n - 2] + CRLF + s[n..] && LineFor(c, s[..n - 2], d'.remaining)
      && d'.overhead == d.overhead + Extra(c, s[..n - 2]) <= MAX_HEADER && d'.decoded == d.decoded + d'.remaining
      && d'.phase == (if d'.remaining == 0 then Trailers else Body)
      && (d'.remaining > 0 ==> !Exceeds(c, d.decoded, d'.remaining))
  {
    var line := Capped(s);
    var lf := FindLf(line, 0);
    assert line[..lf - 1] == s[..lf - 1] && s[lf - 1] == CR && s[lf] == LF;
    assert s == s[..lf - 1] + CRLF + s[lf + 1..];
  }

  lemma {:induction false} EndIsThere(s: seq<Byte>, from: nat)
    requires from <= |s| && Clean(s, 0, from) && ScanTrailers(s, from).EndAt?
    ensures var end := ScanTrailers(s, from).end;
      end + 4 <= |s| && Clean(s, 0, end + 3) && s[end..end + 4] == CRLF + CRLF
    decreases |s| - from
  {
    hide FindLf;
    var lf := FindLf(s, from);
    CleanToLf(s, from, lf);
    if lf >= 3 && s[lf - 2] == LF {
      FourAt(s, lf - 3);
    } else {
      EndIsThere(s, lf + 1);
    }
  }

  lemma CleanToLf(s: seq<Byte>, from: nat, lf: nat)
    requires from <= lf < |s| && Clean(s, 0, from) && forall k :: from <= k < lf ==> s[k] != LF
    ensures Clean(s, 0, lf)
    ensures lf > 0 && s[lf - 1] == CR && !(lf >= 3 && s[lf - 2] == LF) ==> Clean(s, 0, lf + 1)
  {
  }

  lemma FourAt(s: seq<Byte>, end: nat)
    requires end + 3 < |s| && Clean(s, 0, end + 3) && s[end + 1] == LF && s[end + 2] == CR && s[end + 3] == LF
    ensures s[end..end + 4] == CRLF + CRLF
  {
    assert s[end] == CR;
  }

  lemma SectionIsThere(c: Config, s: seq<Byte>)
    requires ReadTrailers(c, s).TrailersRead?
    ensures var n := ReadTrailers(c, s).size; n <= |s| && TrailerSection(c, s[..n], ReadTrailers(c, s).trailers)
  {
    hide ScanTrailers, FindLf, Clean;
    var block := Capped(s);
    if |block| >= 2 && block[0] == CR && block[1] == LF {
      assert s[..2] == CRLF;
    } else {
      NothingToClean(block);
      EndIsThere(block, 0);
      SectionFrom(c, block, ScanTrailers(block, 0).end);
      assert s[..ReadTrailers(c, s).size] == block[..ScanTrailers(block, 0).end + 4];
    }
  }

  lemma NothingToClean(s: seq<Byte>)
    ensures Clean(s, 0, 0)
  {
  }

  lemma SectionFrom(c: Config, block: seq<Byte>, end: nat)
    requires end + 4 <= |block| <= MAX_HEADER && Clean(block, 0, end + 3) && block[end..end + 4] == CRLF + CRLF
    requires c.trailersValid(block[..end]) && !(block[0] == CR && block[1] == LF)
    ensures TrailerSection(c, block[..end + 4], block[..end])
  {
    var section := block[..end + 4];
    assert section == block[..end] + block[end..end + 4];
    assert block[..end] + (CRLF + CRLF) == block[..end] + CRLF + CRLF;
    assert section[0] == block[0] && section[1] == block[1];
  }

  /** What was accepted is a well-formed message within the limits. */
  lemma {:induction false} AcceptedIsWellFormed(c: Config, d: Progress, s: seq<Byte>) returns (m: Message)
    requires d.phase == SizeLine && Budgeted(c, d) && Parse(c, d, s).ending.Complete?
    ensures Acceptable(c, d, m) && s == Bytes(m, Parse(c, d, s).ending.rest)
    ensures Parse(c, d, s).body == Data(m.chunks) && Parse(c, d, s).ending.trailers == m.trailers
    decreases |s|
  {
    hide Parse, ReadLine, ReadTrailers, LineFor, TrailerSection, Acceptable, Bytes, Data, Exceeds;
    CompleteLine(c, d, s);
    LineIsThere(c, d, s);
    var n, d' := ReadLine(c, d, s).size, ReadLine(c, d, s).progress;
    var line, rest := s[..n - 2], s[n..];
    if d'.phase == Trailers {
      CompleteSection(c, d', rest);
      SectionIsThere(c, rest);
      var k := ReadTrailers(c, rest).size;
      m := Message([], line, rest[..k], ReadTrailers(c, rest).trailers);
      LastAlone(c, d, m, rest[k..]);
      assert rest == rest[..k] + rest[k..];
    } else {
      ChunkIsThere(c, d', rest);
      var size := d'.remaining;
      StillBudgeted(c, d, d');
      var m' := AcceptedIsWellFormed(c, d'.(phase := SizeLine, remaining := 0), rest[size + 2..]);
      m := m'.(chunks := [Chunk(line, rest[..size])] + m'.chunks);
      ChunkInFront(c, d, Chunk(line, rest[..size]), m', Parse(c, d, s).ending.rest);
    }
  }

  lemma CompleteLine(c: Config, d: Progress, s: seq<Byte>)
    requires d.phase == SizeLine && Parse(c, d, s).ending.Complete?
    ensures ReadLine(c, d, s).LineRead?
    ensures Parse(c, d, s) == Parse(c, ReadLine(c, d, s).progress, s[ReadLine(c, d, s).size..])
  {
    hide ReadLine, ReadTrailers;
  }

  lemma CompleteSection(c: Config, d: Progress, s: seq<Byte>)
    requires d.phase == Trailers && Parse(c, d, s).ending.Complete?
    ensures var r := ReadTrailers(c, s);
      r.TrailersRead? && Parse(c, d, s) == Outcome([], Complete(r.trailers, s[r.size..]))
  {
    hide ReadLine, ReadTrailers;
  }

  lemma StillBudgeted(c: Config, d: Progress, d': Progress)
    requires Budgeted(c, d) && d'.phase == Body && d'.decoded == d.decoded + d'.remaining && d'.overhead <= MAX_HEADER
    requires !Exceeds(c, d.decoded, d'.remaining)
    ensures Budgeted(c, d'.(phase := SizeLine, remaining := 0))
  {
  }

  lemma LastAlone(c: Config, d: Progress, m: Message, rest: seq<Byte>)
    requires Budgeted(c, d) && m.chunks == [] && LineFor(c, m.last, 0) && TrailerSection(c, m.section, m.trailers)
    requires d.overhead + Extra(c, m.last) <= MAX_HEADER
    ensures Acceptable(c, d, m) && Bytes(m, rest) == m.last + CRLF + (m.section + rest) && Data(m.chunks) == []
  {
    hide LineFor, TrailerSection;
  }

  lemma ChunkInFront(c: Config, d: Progress, chunk: Chunk, m: Message, rest: seq<Byte>)
    requires chunk.data != [] && LineFor(c, chunk.line, |chunk.data|) && d.phase == SizeLine
    requires Acceptable(c, Progress(SizeLine, 0, d.decoded + |chunk.data|, d.overhead + Extra(c, chunk.line)), m)
    ensures var whole := m.(chunks := [chunk] + m.chunks);
      && Acceptable(c, d, whole) && Data(whole.chunks) == chunk.data + Data(m.chunks)
      && Bytes(whole, rest) == chunk.line + CRLF + (chunk.data + CRLF + Bytes(m, rest))
  {
    hide LineFor, TrailerSection;
    assert ([chunk] + m.chunks)[1..] == m.chunks;
  }

  lemma ChunkIsThere(c: Config, d: Progress, s: seq<Byte>)
    requires d.phase == Body && d.remaining > 0 && Parse(c, d, s).ending.Complete?
    ensures d.remaining + 2 <= |s| && s == s[..d.remaining] + CRLF + s[d.remaining + 2..]
    ensures Parse(c, d, s) == Prepend(s[..d.remaining],
                                      Parse(c, d.(phase := SizeLine, remaining := 0), s[d.remaining + 2..]))
  {
    hide ReadLine, ReadTrailers;
    var n := d.remaining;
    var rest := s[n..];
    ParseDelimiter(c, d.(phase := Delimiter, remaining := 0), rest);
    assert rest == CRLF + rest[2..] && rest[2..] == s[n + 2..];
  }

  /** The decoder accepts exactly the messages of the grammar that keep to the limits. */
  lemma AcceptedIffWellFormed(c: Config, s: seq<Byte>)
    ensures Parse(c, START, s).ending.Complete?
            <==> exists m, rest :: Acceptable(c, START, m) && s == Bytes(m, rest)
  {
    hide Parse, Acceptable, Bytes;
    if Parse(c, START, s).ending.Complete? {
      var m := AcceptedIsWellFormed(c, START, s);
    }
    forall m, rest | Acceptable(c, START, m) && s == Bytes(m, rest) ensures Parse(c, START, s).ending.Complete? {
      WellFormedIsAccepted(c, START, m, rest);
    }
  }

  lemma OneChunk(c: Config, d: Progress, chunk: Chunk, tail: seq<Byte>)
    requires d.phase == SizeLine && chunk.data != [] && LineFor(c, chunk.line, |chunk.data|)
    requires d.overhead + Extra(c, chunk.line) <= MAX_HEADER && !Exceeds(c, d.decoded, |chunk.data|)
    ensures Parse(c, d, chunk.line + CRLF + (chunk.data + CRLF + tail))
            == var d' := Progress(SizeLine, 0, d.decoded + |chunk.data|, d.overhead + Extra(c, chunk.line));
               Prepend(chunk.data, Parse(c, d', tail))
  {
    hide Parse, LineFor;
    var data, line := chunk.data, chunk.line;
    ParseWholeLine(c, d, line, |data|, data + CRLF + tail);
    ParseChunk(c, Progress(Body, |data|, d.decoded + |data|, d.overhead + Extra(c, line)), data, tail);
  }

  lemma ParseWholeLine(c: Config, d: Progress, line: seq<Byte>, size: nat, rest: seq<Byte>)
    requires d.phase == SizeLine && LineFor(c, line, size) && d.overhead + Extra(c, line) <= MAX_HEADER
    requires size > 0 && !Exceeds(c, d.decoded, size)
    ensures Parse(c, d, line + CRLF + rest)
            == Parse(c, Progress(Body, size, d.decoded + size, d.overhead + Extra(c, line)), rest)
  {
    hide ReadLine, ReadTrailers, LineFor;
    ReadWholeLine(c, d, line, size, rest);
    assert (line + CRLF + rest)[|line| + 2..] == rest;
  }

  lemma ParseChunk(c: Config, d: Progress, data: seq<Byte>, tail: seq<Byte>)
    requires d.phase == Body && d.remaining == |data| > 0
    ensures Parse(c, d, data + CRLF + tail) == Prepend(data, Parse(c, d.(phase := SizeLine, remaining := 0), tail))
  {
    hide ReadLine, ReadTrailers;
    var s := data + CRLF + tail;
    assert s[..|data|] == data && s[|data|..] == CRLF + tail;
    ParseDelimiter(c, d.(phase := Delimiter, remaining := 0), CRLF + tail);
    assert (CRLF + tail)[2..] == tail;
  }

  // ----- why a message is rejected

  predicate FirstLf(s: seq<Byte>, k: nat) {
    k < |s| && s[k] == LF && LF !in s[..k]
  }

  predicate Lineless(s: seq<Byte>) {
    |s| >= MAX_HEADER && LF !in s[..MAX_HEADER]
  }

  /** What is wrong with the size line that s begins with: it is too long, its LF is bare, it is no size line, its extra
      bytes are over the budget, or its chunk is over the body limit. */
  ghost predicate LineFault(c: Config, d: Progress, s: seq<Byte>, e: Error) {
    || (e == FramingLimitExceeded && Lineless(s))
    || exists k: nat :: FirstLf(s, k) && k < MAX_HEADER &&
         if k == 0 || s[k - 1] != CR then e == InvalidFraming
         else
           match c.sizeLine(s[..k - 1])
           case NoLine => e == InvalidFraming
           case Line(size, overhead) =>
             if d.overhead + overhead > MAX_HEADER then e == FramingLimitExceeded
             else size > 0 && Exceeds(c, d.decoded, size) && e == BodyLimitExceeded
  }

  lemma FirstLfIsFound(s: seq<Byte>, k: nat)
    requires FirstLf(s, k)
    ensures FindLf(s, 0) == k
  {
    forall j | 0 <= j < k ensures s[j] != LF {
      assert s[..k][j] == s[j];
    }
  }

  lemma FoundIsFirst(s: seq<Byte>)
    ensures FindLf(s, 0) < |s| ==> FirstLf(s, FindLf(s, 0))
    ensures FindLf(s, 0) == |s| ==> LF !in s
  {
  }

  lemma FirstInCapped(s: seq<Byte>, k: nat)
    requires k < MAX_HEADER
    ensures FirstLf(s, k) <==> FirstLf(Capped(s), k)
  {
    if k < |s| {
      assert Capped(s)[..k] == s[..k] && Capped(s)[k] == s[k];
    }
  }

  lemma LineIsBadIff(c: Config, d: Progress, s: seq<Byte>, e: Error)
    requires d.overhead <= MAX_HEADER
    ensures ReadLine(c, d, s) == LineBad(e) <==> LineFault(c, d, s, e)
  {
    hide FindLf, FirstLf, Exceeds;
    var line := Capped(s);
    var lf := FindLf(line, 0);
    FoundIsFirst(line);
    if lf < |line| {
      FirstInCapped(s, lf);
      assert lf > 0 ==> line[..lf - 1] == s[..lf - 1] && line[lf - 1] == s[lf - 1];
      HasLf(s, lf);
    }
    forall k: nat | FirstLf(s, k) && k < MAX_HEADER ensures lf == k && k < |line| {
      FirstInCapped(s, k);
      FirstIsThere(line, k);
      FirstLfIsFound(line, k);
    }
  }

  lemma HasLf(s: seq<Byte>, k: nat)
    requires FirstLf(s, k) && k < MAX_HEADER
    ensures !Lineless(s)
  {
    if |s| >= MAX_HEADER {
      assert s[..MAX_HEADER][k] == LF;
    }
  }

  lemma FirstIsThere(s: seq<Byte>, k: nat)
    requires FirstLf(s, k)
    ensures k < |s|
  {
  }

  /** What is wrong with the trailer section that s begins with: a bare LF, invalid fields, or no end within the
      limit. */
  ghost predicate SectionFault(c: Config, s: seq<Byte>, e: Error) {
    && !(CRLF <= s)
    && var block := Capped(s);
       || (e == FramingLimitExceeded && |s| >= MAX_HEADER && Clean(block, 0, |block|))
       || (e == InvalidFraming && exists k: nat :: BareAt(block, k))
       || (e == InvalidFraming && exists end: nat :: EndsAt(block, end) && !c.trailersValid(block[..end]))
  }

  predicate BareAt(s: seq<Byte>, k: nat) {
    k < |s| && s[k] == LF && (k == 0 || s[k - 1] != CR) && Clean(s, 0, k)
  }

  predicate EndsAt(s: seq<Byte>, end: nat) {
    end + 4 <= |s| && s[end..end + 4] == CRLF + CRLF && Clean(s, 0, end + 3)
  }

  lemma {:induction false} ScanMeans(s: seq<Byte>, from: nat)
    requires from <= |s| && Clean(s, 0, from)
    ensures match ScanTrailers(s, from)
            case NoEnd => Clean(s, 0, |s|)
            case BareLf => exists k: nat :: BareAt(s, k)
            case EndAt(end) => EndsAt(s, end)
    decreases |s| - from
  {
    hide FindLf, Clean;
    var lf := FindLf(s, from);
    if lf == |s| {
      CleanToEnd(s, from);
    } else {
      CleanToLf(s, from, lf);
      if lf == 0 || s[lf - 1] != CR {
        assert BareAt(s, lf);
      } else if lf >= 3 && s[lf - 2] == LF {
        FourAt(s, lf - 3);
      } else {
        ScanMeans(s, lf + 1);
      }
    }
  }

  lemma CleanToEnd(s: seq<Byte>, from: nat)
    requires from <= |s| && Clean(s, 0, from) && forall k :: from <= k < |s| ==> s[k] != LF
    ensures Clean(s, 0, |s|)
  {
  }

  lemma ScanOfBare(s: seq<Byte>, k: nat)
    requires BareAt(s, k)
    ensures ScanTrailers(s, 0) == BareLf
  {
    ResumeTrailers(s, 0, k);
    assert FindLf(s, k) == k;
  }

  lemma ScanOfEnd(s: seq<Byte>, end: nat)
    requires EndsAt(s, end)
    ensures ScanTrailers(s, 0) == EndAt(end)
  {
    assert s[end + 1] == s[end..end + 4][1] && s[end + 2] == s[end..end + 4][2] && s[end + 3] == s[end..end + 4][3];
    ResumeTrailers(s, 0, end + 3);
    assert FindLf(s, end + 3) == end + 3;
  }

  lemma ScanOfClean(s: seq<Byte>)
    requires Clean(s, 0, |s|)
    ensures ScanTrailers(s, 0) == NoEnd
  {
    ResumeTrailers(s, 0, |s|);
  }

  lemma SectionIsBadIff(c: Config, s: seq<Byte>, e: Error)
    ensures ReadTrailers(c, s) == TrailersBad(e) <==> SectionFault(c, s, e)
  {
    hide ScanTrailers, Clean, BareAt, EndsAt;
    var block := Capped(s);
    StartsAlike(s);
    NothingToClean(block);
    ScanMeans(block, 0);
    if Clean(block, 0, |block|) { ScanOfClean(block); }
    forall k: nat | BareAt(block, k) ensures ScanTrailers(block, 0) == BareLf { ScanOfBare(block, k); }
    forall end: nat | EndsAt(block, end) ensures ScanTrailers(block, 0) == EndAt(end) { ScanOfEnd(block, end); }
  }

  lemma StartsAlike(s: seq<Byte>)
    ensures CRLF <= s <==> |Capped(s)| >= 2 && Capped(s)[0] == CR && Capped(s)[1] == LF
  {
    if |s| >= 2 && s[0] == CR && s[1] == LF {
      assert s[..2] == CRLF;
    }
  }

  /** A chunk whose data is there but is not followed by CRLF. */
  predicate DelimiterFault(c: Config, d: Progress, s: seq<Byte>, chunk: Chunk, rest: seq<Byte>) {
    && s == chunk.line + CRLF + (chunk.data + rest)
    && chunk.data != [] && LineFor(c, chunk.line, |chunk.data|) && d.overhead + Extra(c, chunk.line) <= MAX_HEADER
    && !Exceeds(c, d.decoded, |chunk.data|) && |rest| >= 2 && !(CRLF <= rest)
  }

  /** A last chunk that is in order, with a trailer section that is not. */
  ghost predicate TrailerFault(c: Config, d: Progress, s: seq<Byte>, last: seq<Byte>, block: seq<Byte>, e: Error) {
    && s == last + CRLF + block && LineFor(c, last, 0) && d.overhead + Extra(c, last) <= MAX_HEADER
    && SectionFault(c, block, e)
  }

  /** What is wrong where the next chunk should begin. */
  ghost predicate Fault(c: Config, d: Progress, s: seq<Byte>, e: Error) {
    || LineFault(c, d, s, e)
    || (e == InvalidFraming && exists chunk, rest :: DelimiterFault(c, d, s, chunk, rest))
    || exists last, block :: TrailerFault(c, d, s, last, block, e)
  }

  predicate Within(c: Config, d: Progress, chunks: seq<Chunk>) {
    && WellFormed(c, chunks) && d.overhead + Overhead(c, chunks) <= MAX_HEADER
    && !Exceeds(c, d.decoded, |Data(chunks)|)
  }

  function After(c: Config, d: Progress, chunks: seq<Chunk>): Progress {
    Progress(SizeLine, 0, d.decoded + |Data(chunks)|, d.overhead + Overhead(c, chunks))
  }

  /** A message is rejected with an error exactly if, after some chunks that are in order, it has that fault. */
  lemma RejectedIff(c: Config, s: seq<Byte>, e: Error)
    ensures Parse(c, START, s).ending == Failure(e)
            <==> exists chunks, tail ::
                   s == Wire(chunks, tail) && Within(c, START, chunks) && Fault(c, After(c, START, chunks), tail, e)
  {
    hide Parse, Fault, Within, After, Wire;
    NothingExceeds(c);
    if Parse(c, START, s).ending == Failure(e) {
      var chunks, tail := RejectedHasFault(c, START, s, e);
    }
    forall chunks, tail
      | s == Wire(chunks, tail) && Within(c, START, chunks) && Fault(c, After(c, START, chunks), tail, e)
      ensures Parse(c, START, s).ending == Failure(e)
    {
      FaultAfterChunks(c, START, chunks, tail, e);
    }
  }

  lemma NothingExceeds(c: Config)
    ensures Budgeted(c, START) && START.overhead == 0
  {
  }

  lemma FaultAfterChunks(c: Config, d: Progress, chunks: seq<Chunk>, tail: seq<Byte>, e: Error)
    requires d.phase == SizeLine && d.remaining == 0 && Within(c, d, chunks) && Fault(c, After(c, d, chunks), tail, e)
    ensures Parse(c, d, Wire(chunks, tail)).ending == Failure(e)
    decreases |chunks|
  {
    hide Parse, Fault, LineFor;
    if chunks == [] {
      assert After(c, d, []) == d;
      FaultIsRejected(c, d, tail, e);
    } else {
      var chunk, rest := chunks[0], chunks[1..];
      var d' := Progress(SizeLine, 0, d.decoded + |chunk.data|, d.overhead + Extra(c, chunk.line));
      OneChunk(c, d, chunk, Wire(rest, tail));
      assert After(c, d', rest) == After(c, d, chunks);
      FaultAfterChunks(c, d', rest, tail, e);
    }
  }

  lemma FaultIsRejected(c: Config, d: Progress, s: seq<Byte>, e: Error)
    requires d.phase == SizeLine && d.overhead <= MAX_HEADER && Fault(c, d, s, e)
    ensures Parse(c, d, s).ending == Failure(e)
  {
    hide Parse, LineFault, DelimiterFault, TrailerFault;
    LineIsBadIff(c, d, s, e);
    if LineFault(c, d, s, e) {
      BadLineIsRejected(c, d, s, e);
    } else if e == InvalidFraming && exists chunk, rest :: DelimiterFault(c, d, s, chunk, rest) {
      var chunk, rest :| DelimiterFault(c, d, s, chunk, rest);
      BadDelimiterIsRejected(c, d, s, chunk, rest);
    } else {
      var last, block :| TrailerFault(c, d, s, last, block, e);
      BadSectionIsRejected(c, d, s, last, block, e);
    }
  }

  lemma BadLineIsRejected(c: Config, d: Progress, s: seq<Byte>, e: Error)
    requires d.phase == SizeLine && ReadLine(c, d, s) == LineBad(e)
    ensures Parse(c, d, s).ending == Failure(e)
  {
    hide ReadLine, ReadTrailers;
  }

  lemma BadDelimiterIsRejected(c: Config, d: Progress, s: seq<Byte>, chunk: Chunk, rest: seq<Byte>)
    requires d.phase == SizeLine && DelimiterFault(c, d, s, chunk, rest)
    ensures Parse(c, d, s).ending == Failure(InvalidFraming)
  {
    hide Parse, LineFor, Exceeds;
    ParseWholeLine(c, d, chunk.line, |chunk.data|, chunk.data + rest);
    var d' := Progress(Body, |chunk.data|, d.decoded + |chunk.data|, d.overhead + Extra(c, chunk.line));
    BodyWithoutEnd(c, d', chunk.data, rest);
  }

  lemma BodyWithoutEnd(c: Config, d: Progress, data: seq<Byte>, rest: seq<Byte>)
    requires d.phase == Body && d.remaining == |data| > 0 && |rest| >= 2 && !(CRLF <= rest)
    ensures Parse(c, d, data + rest).ending == Failure(InvalidFraming)
  {
    hide ReadLine, ReadTrailers;
    var s := data + rest;
    assert s[..|data|] == data && s[|data|..] == rest;
    ParseDelimiter(c, d.(phase := Delimiter, remaining := 0), rest);
    StartsWithCrlf(rest);
  }

  lemma StartsWithCrlf(s: seq<Byte>)
    requires |s| >= 2
    ensures CRLF <= s <==> s[0] == CR && s[1] == LF
  {
    assert s[0] == CR && s[1] == LF ==> s[..2] == CRLF;
  }

  lemma BadSectionIsRejected(c: Config, d: Progress, s: seq<Byte>, last: seq<Byte>, block: seq<Byte>, e: Error)
    requires d.phase == SizeLine && TrailerFault(c, d, s, last, block, e)
    ensures Parse(c, d, s).ending == Failure(e)
  {
    hide ReadLine, ReadTrailers, LineFor, SectionFault;
    ReadWholeLine(c, d, last, 0, block);
    assert s[|last| + 2..] == block;
    SectionIsBadIff(c, block, e);
  }

  lemma {:induction false} RejectedHasFault(c: Config, d: Progress, s: seq<Byte>, e: Error)
    returns (chunks: seq<Chunk>, tail: seq<Byte>)
    requires d.phase == SizeLine && d.remaining == 0 && Budgeted(c, d) && Parse(c, d, s).ending == Failure(e)
    ensures s == Wire(chunks, tail) && Within(c, d, chunks) && Fault(c, After(c, d, chunks), tail, e)
    decreases |s|
  {
    hide Parse, ReadLine, ReadTrailers, LineFor, Fault, Exceeds;
    chunks, tail := [], s;
    AfterNothing(c, d);
    RejectedLine(c, d, s, e);
    LineIsBadIff(c, d, s, e);
    if ReadLine(c, d, s).LineRead? {
      LineIsThere(c, d, s);
      var n, d' := ReadLine(c, d, s).size, ReadLine(c, d, s).progress;
      var line, rest := s[..n - 2], s[n..];
      if d'.phase == Trailers {
        RejectedSection(c, d', rest, e);
        SectionIsBadIff(c, rest, e);
        assert TrailerFault(c, d, s, line, rest, e);
        FaultOfTrailers(c, d, s, line, rest, e);
      } else {
        var size := d'.remaining;
        RejectedChunk(c, d', rest, e);
        var chunk := Chunk(line, rest[..size]);
        if CRLF <= rest[size..] {
          StillBudgeted(c, d, d');
          var more;
          more, tail := RejectedHasFault(c, d'.(phase := SizeLine, remaining := 0), rest[size + 2..], e);
          chunks := [chunk] + more;
          assert chunks[1..] == more && rest == rest[..size] + CRLF + rest[size + 2..];
          FaultBehindChunk(c, d, chunk, more, tail, e);
        } else {
          assert rest == rest[..size] + rest[size..];
          assert DelimiterFault(c, d, s, chunk, rest[size..]);
          FaultOfDelimiter(c, d, s, chunk, rest[size..]);
        }
      }
    } else {
      FaultOfLine(c, d, s, e);
    }
  }

  lemma AfterNothing(c: Config, d: Progress)
    requires d.phase == SizeLine && d.remaining == 0 && Budgeted(c, d)
    ensures After(c, d, []) == d && Within(c, d, []) && d.overhead <= MAX_HEADER
  {
  }

  lemma FaultOfLine(c: Config, d: Progress, s: seq<Byte>, e: Error)
    requires LineFault(c, d, s, e)
    ensures Fault(c, d, s, e)
  {
  }

  lemma FaultOfDelimiter(c: Config, d: Progress, s: seq<Byte>, chunk: Chunk, rest: seq<Byte>)
    requires DelimiterFault(c, d, s, chunk, rest)
    ensures Fault(c, d, s, InvalidFraming)
  {
    hide DelimiterFault;
  }

  lemma FaultOfTrailers(c: Config, d: Progress, s: seq<Byte>, last: seq<Byte>, block: seq<Byte>, e: Error)
    requires TrailerFault(c, d, s, last, block, e)
    ensures Fault(c, d, s, e)
  {
    hide TrailerFault;
  }

  lemma FaultBehindChunk(c: Config, d: Progress, chunk: Chunk, more: seq<Chunk>, tail: seq<Byte>, e: Error)
    requires chunk.data != [] && LineFor(c, chunk.line, |chunk.data|) && d.overhead + Extra(c, chunk.line) <= MAX_HEADER
    requires var d' := Progress(SizeLine, 0, d.decoded + |chunk.data|, d.overhead + Extra(c, chunk.line));
      Within(c, d', more) && Fault(c, After(c, d', more), tail, e)
    ensures Within(c, d, [chunk] + more) && Fault(c, After(c, d, [chunk] + more), tail, e)
  {
    hide LineFor, Fault;
    assert ([chunk] + more)[1..] == more;
  }

  lemma RejectedLine(c: Config, d: Progress, s: seq<Byte>, e: Error)
    requires d.phase == SizeLine && Parse(c, d, s).ending == Failure(e)
    ensures ReadLine(c, d, s) == LineBad(e) || ReadLine(c, d, s).LineRead?
    ensures ReadLine(c, d, s).LineRead? ==>
              Parse(c, ReadLine(c, d, s).progress, s[ReadLine(c, d, s).size..]).ending == Failure(e)
  {
    hide ReadLine, ReadTrailers;
  }

  lemma RejectedSection(c: Config, d: Progress, s: seq<Byte>, e: Error)
    requires d.phase == Trailers && Parse(c, d, s).ending == Failure(e)
    ensures ReadTrailers(c, s) == TrailersBad(e)
  {
    hide ReadTrailers;
  }

  lemma RejectedChunk(c: Config, d: Progress, s: seq<Byte>, e: Error)
    requires d.phase == Body && d.remaining > 0 && Parse(c, d, s).ending == Failure(e)
    ensures d.remaining + 2 <= |s|
    ensures if CRLF <= s[d.remaining..] then
              Parse(c, d.(phase := SizeLine, remaining := 0), s[d.remaining + 2..]).ending == Failure(e)
            else e == InvalidFraming
  {
    hide ReadLine, ReadTrailers;
    var n := d.remaining;
    if n <= |s| {
      var rest := s[n..];
      ParseDelimiter(c, d.(phase := Delimiter, remaining := 0), rest);
      if |rest| >= 2 {
        StartsWithCrlf(rest);
        assert rest[2..] == s[n + 2..];
      }
    }
  }
}
