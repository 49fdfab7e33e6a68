/** The resumable decoder of chunked bodies
    (ruvia-http/src/http1/http1_chunked_body_decoder.cpp), which remembers how far it has
    searched, and a connection that feeds it. */
module Http1ChunkedBodyDecoder {
  import opened ChunkedCoding
  import opened Sequences
  import opened Wrappers

  class Decoder {
    const config: Config
    var phase: Phase
    var lineSearchOffset: nat
    var trailerSearchOffset: nat
    var remaining: nat
    var decoded: nat
    var overhead: nat

    function View(): Progress
      reads this
    {
      Progress(phase, remaining, decoded, overhead)
    }

    predicate Valid()
      reads this
    {
      Budgeted(config, View()) && (phase != SizeLine ==> lineSearchOffset == 0)
    }

    /** The caller kept the bytes an earlier call left, and may have added more. */
    predicate Resumes(available: seq<Byte>)
      reads this
    {
      Scanned(View(), available, lineSearchOffset, trailerSearchOffset)
    }

    constructor (config: Config)
      ensures Valid() && View() == START && Resumes([]) && this.config == config
    {
      this.config := config;
      phase, lineSearchOffset, trailerSearchOffset, remaining, decoded, overhead := SizeLine, 0, 0, 0, 0, 0;
    }

    /** The size_line state: the next size line, or a reason to return. */
    method ReadSizeLine(line: seq<Byte>, ghost rest: seq<Byte>) returns (result: Result, consumed: nat)
      requires Valid() && phase == SizeLine && line == Capped(rest) && Resumes(rest)
      modifies this
      ensures Valid() && consumed <= |rest| && Resumes(rest[consumed..])
      ensures match ReadLine(config, old(View()), rest)
              case LineNeeded => result == NeedMore && consumed == 0 && View() == old(View())
              case LineBad(e) => result == Rejected(e) && consumed == 0 && phase == Failed(e)
              case LineRead(n, d) => result == BodyChunk([]) && consumed == n && View() == d
    {
      consumed := 0;
      ResumeLine(line, 0, lineSearchOffset);
      var lf := FindLf(line, lineSearchOffset);
      if lf == |line| {
        if |line| >= MAX_HEADER {
          result := Fail(FramingLimitExceeded);
          return;
        }
        lineSearchOffset := |line|;
        return NeedMore, 0;
      }
      if lf == 0 || line[lf - 1] != CR {
        result := Fail(InvalidFraming);
        return;
      }
      lineSearchOffset := 0;
      result, consumed := AcceptLine(config.sizeLine(line[..lf - 1]), lf + 1);
    }

    /** A terminated size line, charged to the framing budget and to the body limit. */
    method AcceptLine(line: Line, size: nat) returns (result: Result, consumed: nat)
      requires Valid() && phase == SizeLine && lineSearchOffset == 0
      modifies this
      ensures Valid() && lineSearchOffset == 0 && (phase == Trailers ==> trailerSearchOffset == 0)
      ensures var d := old(View());
        if line == NoLine then result == Rejected(InvalidFraming) && consumed == 0 && phase == Failed(InvalidFraming)
        else if MAX_HEADER - d.overhead < line.overhead then
          result == Rejected(FramingLimitExceeded) && consumed == 0 && phase == Failed(FramingLimitExceeded)
        else if line.size == 0 then
          result == BodyChunk([]) && consumed == size
              && View() == Progress(Trailers, 0, d.decoded, d.overhead + line.overhead)
        else if Exceeds(config, d.decoded, line.size) then
          result == Rejected(BodyLimitExceeded) && consumed == 0 && phase == Failed(BodyLimitExceeded)
        else
          result == BodyChunk([]) && consumed == size
          && View() == Progress(Body, line.size, d.decoded + line.size, d.overhead + line.overhead)
    {
      consumed := 0;
      if line == NoLine {
        result := Fail(InvalidFraming);
        return;
      }
      if MAX_HEADER - overhead < line.overhead {
        result := Fail(FramingLimitExceeded);
        return;
      }
      overhead := overhead + line.overhead;
      if line.size == 0 {
        phase := Trailers;
        trailerSearchOffset := 0;
      } else {
        if Exceeds(config, decoded, line.size) {
          result := Fail(BodyLimitExceeded);
          return;
        }
        decoded := decoded + line.size;
        remaining := line.size;
        phase := Body;
      }
      consumed := size;
      result := BodyChunk([]);
    }

    method Fail(error: Error) returns (result: Result)
      requires Valid()
      modifies this`phase, this`lineSearchOffset
      ensures Valid() && result == Rejected(error) && phase == Failed(error)
    {
      phase := Failed(error);
      lineSearchOffset := 0;
      result := Rejected(error);
    }

    /** The body state: the next fragment, and the delimiter if it is there already. */
    method ReadBody(rest: seq<Byte>, quota: nat) returns (result: Result, consumed: nat)
      requires Valid() && phase == Body && quota > 0
      modifies this
      ensures Valid() && consumed <= |rest| && Resumes(rest[consumed..])
      ensures (result, consumed)
              == (Decode(config, old(View()), rest, quota).result, Decode(config, old(View()), rest, quota).consumed)
      ensures StateIs(Decode(config, old(View()), rest, quota).progress)
    {
      var n := Min(Min(remaining, |rest|), quota);
      if n == 0 {
        return NeedMore, 0;
      }
      remaining := remaining - n;
      consumed := n;
      result := BodyChunk(rest[..n]);
      if remaining == 0 {
        phase := Delimiter;
        if |rest| - n >= 2 {
          if rest[n] == CR && rest[n + 1] == LF {
            consumed := n + 2;
            phase := SizeLine;
          } else {
            result := Fail(InvalidFraming);
          }
        }
      }
    }

    /** The state agrees with d; a rejected message's counters no longer matter. */
    predicate StateIs(d: Progress)
      reads this
    {
      View() == d || (phase.Failed? && d.phase == phase)
    }

    /** The trailers state. */
    method ReadTrailerSection(block: seq<Byte>, ghost rest: seq<Byte>) returns (result: Result, consumed: nat)
      requires Valid() && phase == Trailers && block == Capped(rest) && Resumes(rest)
      modifies this
      ensures Valid() && consumed <= |rest| && Resumes(rest[consumed..])
      ensures match ReadTrailers(config, rest)
              case TrailersNeeded => result == NeedMore && consumed == 0 && View() == old(View())
              case TrailersBad(e) => result == Rejected(e) && consumed == 0 && phase == Failed(e)
              case TrailersRead(n, t) =>
                result == Completed(t) && consumed == n && View() == old(View()).(phase := Done)
    {
      consumed := 0;
      if |block| >= 2 && block[0] == CR && block[1] == LF {
        phase := Done;
        return Completed([]), 2;
      }
      ResumeTrailers(block, 0, trailerSearchOffset);
      var scan := ScanTrailers(block, trailerSearchOffset);
      match scan {
        case BareLf => result := Fail(InvalidFraming);
        case NoEnd =>
          if |block| >= MAX_HEADER {
            result := Fail(FramingLimitExceeded);
          } else {
            NoEndIsClean(block, 0);
            trailerSearchOffset := |block|;
            result := NeedMore;
          }
        case EndAt(end) =>
          if config.trailersValid(block[..end]) {
            phase := Done;
            consumed := end + 4;
            result := Completed(block[..end]);
          } else {
            result := Fail(InvalidFraming);
          }
      }
    }

    /** The delimiter state, and consume_delimiter. */
    method ReadDelimiter(rest: seq<Byte>) returns (result: Result, consumed: nat)
      requires Valid() && phase == Delimiter
      modifies this`phase, this`lineSearchOffset
      ensures Valid() && consumed <= |rest| && Resumes(rest[consumed..])
      ensures if |rest| < 2 then result == NeedMore && consumed == 0 && View() == old(View())
              else if rest[0] == CR && rest[1] == LF then
                result == BodyChunk([]) && consumed == 2 && View() == old(View()).(phase := SizeLine)
              else result == Rejected(InvalidFraming) && consumed == 0 && phase == Failed(InvalidFraming)
    {
      consumed := 0;
      if |rest| < 2 {
        return NeedMore, 0;
      }
      if rest[0] == CR && rest[1] == LF {
        phase := SizeLine;
        return BodyChunk([]), 2;
      }
      result := Fail(InvalidFraming);
    }

    /** decode: resuming where earlier calls stopped searching gives what searching the
        bytes at hand from the start gives. */
    method DecodeAvailable(available: seq<Byte>, quota: nat) returns (result: Result, consumed: nat)
      requires Valid() && quota > 0 && Resumes(available)
      modifies this
      ensures Valid() && consumed <= |available| && Resumes(available[consumed..])
      ensures (result, consumed) == (Decode(config, old(View()), available, quota).result,
                                     Decode(config, old(View()), available, quota).consumed)
      ensures StateIs(Decode(config, old(View()), available, quota).progress)
    {
      hide Decode, ReadLine, ReadTrailers, Scanned, Budgeted;
      ghost var d0 := View();
      var cursor := 0;
      assert available[0..] == available;
      while true
        invariant cursor <= |available| && Valid() && Resumes(available[cursor..])
        invariant Decode(config, d0, available, quota)
                  == Skip(cursor, Decode(config, View(), available[cursor..], quota))
        decreases |available| - cursor, Rank(phase)
      {
        ghost var rest, before := available[cursor..], View();
        DecodeByState(config, before, rest, quota);
        var n;
        match phase {
          case SizeLine =>
            result, n := ReadSizeLine(Capped(available[cursor..]), rest);
            if result != BodyChunk([]) {
              return result, cursor;
            }
            assert rest[n..] == available[cursor + n..];
            SkipTwice(cursor, n, Decode(config, View(), rest[n..], quota));
            cursor := cursor + n;
          case Body =>
            result, n := ReadBody(available[cursor..], quota);
            assert rest[n..] == available[cursor + n..];
            return result, cursor + n;
          case Delimiter =>
            result, n := ReadDelimiter(available[cursor..]);
            if result != BodyChunk([]) {
              return result, cursor;
            }
            assert rest[2..] == available[cursor + 2..];
            SkipTwice(cursor, 2, Decode(config, View(), rest[2..], quota));
            cursor := cursor + 2;
          case Trailers =>
            result, n := ReadTrailerSection(Capped(available[cursor..]), rest);
            assert rest[n..] == available[cursor + n..];
            return result, cursor + n;
          case Done => return Completed([]), cursor;
          case Failed(e) => return Rejected(e), cursor;
        }
      }
    }
  }

  /** A message that arrives in any pieces, read with any body quotas: it completes with
      the body, trailers and remaining bytes that the whole parses to, is rejected with
      the same error, or is incomplete as the whole is. */
  method DecodeMessage(config: Config, pieces: seq<seq<Byte>>, quota: nat -> nat)
    returns (body: seq<Byte>, ending: Ending)
    requires forall k :: quota(k) > 0
    ensures var whole := Parse(config, START, Concat(pieces));
      ending == whole.ending && (!ending.Failure? ==> body == whole.body)
  {
    hide Decode, Parse, Scanned, Budgeted;
    ghost var whole := Parse(config, START, Concat(pieces));
    var d := new Decoder(config);
    body, ending := [], Incomplete;
    var buffer: seq<Byte> := [];
    var next, calls := 0, 0;
    assert pieces[0..] == pieces && buffer + Concat(pieces) == Concat(pieces) && body + whole.body == whole.body;
    while true
      invariant next <= |pieces| && d.Valid() && d.config == config && d.Resumes(buffer) && fresh(d)
      invariant whole == Prepend(body, Parse(config, d.View(), buffer + Concat(pieces[next..])))
      decreases |pieces| - next, |buffer|
    {
      ghost var p, rest := d.View(), Concat(pieces[next..]);
      CallAgrees(config, p, buffer, quota(calls), rest);
      CallKeepsBudget(config, p, buffer, quota(calls));
      var result, consumed := d.DecodeAvailable(buffer, quota(calls));
      calls := calls + 1;
      match result {
        case NeedMore =>
          if next == |pieces| {
            IncompleteMeansIncomplete(config, p, buffer, quota(calls - 1));
            assert pieces[next..] == [] && buffer + rest == buffer && body + [] == body;
            return;
          }
          ghost var left := buffer[consumed..];
          ScannedGrows(d.View(), left, pieces[next], d.lineSearchOffset, d.trailerSearchOffset);
          buffer := buffer[consumed..] + pieces[next];
          assert pieces[next..] == [pieces[next]] + pieces[next + 1..];
          assert left + rest == buffer + Concat(pieces[next + 1..]);
          next := next + 1;
        case BodyChunk(bytes) =>
          assert body + (bytes + Parse(config, d.View(), buffer[consumed..] + rest).body)
              == (body + bytes) + Parse(config, d.View(), buffer[consumed..] + rest).body;
          body := body + bytes;
          buffer := buffer[consumed..];
        case Completed(trailers) =>
          ending := Complete(trailers, buffer[consumed..] + Concat(pieces[next..]));
          assert body + [] == body;
          return;
        case Rejected(error) =>
          ending := Failure(error);
          return;
      }
    }
  }

  lemma IncompleteMeansIncomplete(c: Config, d: Progress, s: seq<Byte>, quota: nat)
    requires Budgeted(c, d) && quota > 0 && Decode(c, d, s, quota).result == NeedMore
    ensures Parse(c, d, s) == Outcome([], Incomplete)
  {
    NeedIsReal(c, d, s, quota);
  }
}
