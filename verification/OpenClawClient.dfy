/** The two SSE parsers of the agent daemon, and the streaming execution built on the second. */
module OpenClawClient {
  import opened Wrappers
  import opened TextLines
  import opened ToolCalls
  import opened StreamModel
  import opened OpenClawInterceptor

  /**
   The plain parser. However the stream is cut into reads, the result is a single pass over the
   newline-terminated lines of the whole stream. It throws exactly when a read fails, here after the given pieces.
   */
  method ParseSseStream(decode: Decoder, pieces: seq<string>, readFails: bool) returns (run: Outcome<Parse>)
    ensures run == if readFails then Threw else Returned(Reading(decode, CompleteLines(Flatten(pieces))))
  {
    var buffer, content, sessionId := "", "", None;
    var n := 0;
    ghost var rest := CompleteLines(Flatten(pieces));
    ghost var whole := PlainLines(decode, NOTHING_READ, rest);
    assert pieces[0..] == pieces && buffer + Flatten(pieces) == Flatten(pieces);
    while n < |pieces|
      invariant 0 <= n <= |pieces|
      invariant rest == CompleteLines(buffer + Flatten(pieces[n..]))
      invariant n == |pieces| ==> rest == []
      invariant PlainLines(decode, Parse(content, sessionId), rest) == whole
    {
      ghost var before := Parse(content, sessionId);
      assert [pieces[n]] + pieces[n + 1..] == pieces[n..];
      var lines;
      lines, buffer := TakePiece(buffer, pieces[n], pieces[n + 1..]);
      content, sessionId := ParseLines(decode, lines, content, sessionId);
      n := n + 1;
      rest := CompleteLines(buffer + Flatten(pieces[n..]));
      PlainLinesConcat(decode, before, lines, rest);
      assert n == |pieces| ==> buffer + Flatten(pieces[n..]) == buffer;
    }
    if readFails {
      return Threw;
    }
    ReadingMeaning(decode, CompleteLines(Flatten(pieces)));
    return Returned(Parse(content, sessionId));
  }

  /** Adds one read to the buffer and takes out the lines it completes; the rest stays buffered. */
  method TakePiece(buffer: string, piece: string, ghost later: seq<string>) returns (lines: seq<string>, rest: string)
    ensures CompleteLines(rest) == []
    ensures CompleteLines(buffer + Flatten([piece] + later)) == lines + CompleteLines(rest + Flatten(later))
    ensures NoNewlines(lines) && Join(lines + [rest]) == buffer + piece
  {
    var parts := Split(buffer + piece);
    lines, rest := parts[..|parts| - 1], parts[|parts| - 1];
    assert lines + [rest] == parts;
    SplitIsDecomposition(buffer + piece);
    TailIsUnfinished(buffer + piece);
    LinesOfNextPiece(buffer, [piece] + later);
    assert ([piece] + later)[1..] == later;
  }

  /** Takes in the lines that one read has completed. */
  method ParseLines(decode: Decoder, lines: seq<string>, content0: string, sessionId0: Option<string>)
    returns (content: string, sessionId: Option<string>)
    ensures Parse(content, sessionId) == PlainLines(decode, Parse(content0, sessionId0), lines)
    ensures content == content0 + Flatten(Contents(decode, lines))
    ensures sessionId == if sessionId0.Some? then sessionId0 else FirstId(decode, lines)
  {
    content, sessionId := content0, sessionId0;
    var i := 0;
    while i < |lines|
      invariant 0 <= i <= |lines|
      invariant PlainLines(decode, Parse(content, sessionId), lines[i..]) == PlainLines(decode, Parse(content0, sessionId0), lines)
    {
      ghost var before := Parse(content, sessionId);
      assert lines[i..][1..] == lines[i + 1..];
      var data := DataPayload(lines[i]);
      if data.Some? && data.value != "[DONE]" {
        var parsed := decode(data.value);
        if parsed.Some? && parsed.value.Chunk? {
          if Truthy(parsed.value.id) && sessionId.None? {
            sessionId := parsed.value.id;
          }
          if parsed.value.delta.Some? && Truthy(parsed.value.delta.value.content) {
            content := content + parsed.value.delta.value.content.value;
          }
        }
      }
      assert before.content + "" == before.content;
      assert Parse(content, sessionId) == PlainLine(decode, before, lines[i]);
      i := i + 1;
    }
    ContentMeaning(decode, Parse(content0, sessionId0), lines);
    SessionMeaning(decode, Parse(content0, sessionId0), lines);
  }

  class Client {
    const interceptor: Interceptor
    var lastSessionId: Option<string>

    constructor (enabled: bool, decode: Decoder)
      ensures fresh(interceptor) && interceptor.Valid() && interceptor.State() == Interception([], [])
      ensures interceptor.enabled == enabled && interceptor.decode == decode
      ensures lastSessionId == None
    {
      interceptor := new Interceptor(enabled, decode);
      lastSessionId := None;
    }

    /**
     The intercepting parser. It throws exactly when a complete line of the stream is poisonous, or a read fails
     after the given pieces; otherwise it agrees with the plain parser. Either way the interceptor has been fed what
     the processed lines carry, and only the end of the stream flushes it.
     */
    method ParseSseStreamWithInterceptor(pieces: seq<string>, readFails: bool) returns (run: Outcome<Parse>)
      requires interceptor.Valid()
      modifies interceptor
      ensures interceptor.Valid()
      ensures var decode, lines := interceptor.decode, CompleteLines(Flatten(pieces));
        var fed := LinesFeed(decode, interceptor.enabled, Processed(decode, interceptor.enabled, lines));
        && (run.Threw? <==> readFails || AnyPoisonous(decode, interceptor.enabled, lines))
        && (run.Returned? ==> run.result == Reading(decode, lines))
        && interceptor.State() == Run(old(interceptor.State()), if run.Threw? then fed else fed + [Flush])
    {
      ghost var start := interceptor.State();
      var parse, crashed := ReadStream(pieces);
      if crashed || readFails {
        return Threw;
      }
      ghost var lines := CompleteLines(Flatten(pieces));
      ReadingMeaning(interceptor.decode, lines);
      RunConcat(start, LinesFeed(interceptor.decode, interceptor.enabled,
                                 Processed(interceptor.decode, interceptor.enabled, lines)), [Flush]);
      RunOfFlush(interceptor.State());
      interceptor.FlushAll();
      return Returned(parse);
    }

    /** The read loop, up to the end of the stream or the first line that throws. */
    method ReadStream(pieces: seq<string>) returns (parse: Parse, crashed: bool)
      requires interceptor.Valid()
      modifies interceptor
      ensures interceptor.Valid()
      ensures var decode, enabled, lines := interceptor.decode, interceptor.enabled, CompleteLines(Flatten(pieces));
        && (crashed <==> AnyPoisonous(decode, enabled, lines))
        && (!crashed ==> parse == PlainLines(decode, NOTHING_READ, lines))
        && interceptor.State() == Driven(decode, enabled, old(interceptor.State()), lines)
    {
      ghost var start, all := interceptor.State(), CompleteLines(Flatten(pieces));
      ghost var rest := all;
      var buffer := "";
      parse, crashed := NOTHING_READ, false;
      var n := 0;
      assert pieces[0..] == pieces && buffer + Flatten(pieces) == Flatten(pieces);
      while n < |pieces|
        invariant 0 <= n <= |pieces|
        invariant interceptor.Valid()
        invariant rest == CompleteLines(buffer + Flatten(pieces[n..]))
        invariant n == |pieces| ==> rest == []
        invariant SameFrom(interceptor.decode, interceptor.enabled, start, NOTHING_READ, all, interceptor.State(), parse, rest)
      {
        assert [pieces[n]] + pieces[n + 1..] == pieces[n..];
        buffer, parse, crashed := ReadPiece(buffer, pieces[n], parse, pieces[n + 1..], start, all);
        if crashed {
          return;
        }
        n := n + 1;
        rest := CompleteLines(buffer + Flatten(pieces[n..]));
        assert n == |pieces| ==> buffer + Flatten(pieces[n..]) == buffer;
      }
      NothingLeft(interceptor.decode, interceptor.enabled, start, NOTHING_READ, all, interceptor.State(), parse);
    }

    /** One turn of the read loop. */
    method ReadPiece(buffer: string, piece: string, parse: Parse, ghost later: seq<string>,
                     ghost start: Interception, ghost all: seq<string>)
      returns (rest: string, next: Parse, crashed: bool)
      requires interceptor.Valid() && DistinctIndices(start.slots)
      requires SameFrom(interceptor.decode, interceptor.enabled, start, NOTHING_READ, all, interceptor.State(), parse,
                        CompleteLines(buffer + Flatten([piece] + later)))
      modifies interceptor
      ensures interceptor.Valid()
      ensures CompleteLines(rest) == []
      ensures crashed ==>
        && AnyPoisonous(interceptor.decode, interceptor.enabled, all)
        && interceptor.State() == Driven(interceptor.decode, interceptor.enabled, start, all)
      ensures !crashed ==>
        SameFrom(interceptor.decode, interceptor.enabled, start, NOTHING_READ, all, interceptor.State(), next,
                 CompleteLines(rest + Flatten(later)))
    {
      ghost var st := interceptor.State();
      var lines;
      lines, rest := TakePiece(buffer, piece, later);
      SameAfter(interceptor.decode, interceptor.enabled, st, parse, lines, CompleteLines(rest + Flatten(later)));
      next, crashed := ProcessLines(lines, parse);
    }

    /** Handles the lines one read has completed, stopping where the interceptor throws. */
    method ProcessLines(lines: seq<string>, parse: Parse) returns (next: Parse, crashed: bool)
      requires interceptor.Valid()
      modifies interceptor
      ensures interceptor.Valid()
      ensures crashed <==> AnyPoisonous(interceptor.decode, interceptor.enabled, lines)
      ensures !crashed ==> next == PlainLines(interceptor.decode, parse, lines)
      ensures interceptor.State()
           == Driven(interceptor.decode, interceptor.enabled, old(interceptor.State()), lines)
    {
      var decode, enabled := interceptor.decode, interceptor.enabled;
      ghost var start := interceptor.State();
      next := parse;
      var i := 0;
      while i < |lines|
        invariant 0 <= i <= |lines|
        invariant interceptor.Valid()
        invariant SameFrom(decode, enabled, start, parse, lines, interceptor.State(), next, lines[i..])
      {
        assert lines[i..][0] == lines[i] && lines[i..][1..] == lines[i + 1..];
        SameNext(decode, enabled, start, parse, lines, interceptor.State(), next, lines[i..]);
        var crash;
        next, crash := ProcessLine(lines[i], next);
        if crash {
          return next, true;
        }
        i := i + 1;
      }
      assert lines[i..] == [];
      NothingLeft(decode, enabled, start, parse, lines, interceptor.State(), next);
      return next, false;
    }

    /** Handles one line: content first, then the session id from a second look at the payload. */
    method ProcessLine(line: string, parse: Parse) returns (next: Parse, crashed: bool)
      requires interceptor.Valid()
      modifies interceptor
      ensures interceptor.Valid()
      ensures crashed <==> Poisonous(interceptor.decode, interceptor.enabled, line)
      ensures !crashed ==> next == PlainLine(interceptor.decode, parse, line)
      ensures !crashed ==>
        && next.content == parse.content + LineContent(interceptor.decode, line)
        && next.sessionId == if parse.sessionId.Some? then parse.sessionId else LineId(interceptor.decode, line)
      ensures interceptor.State() == Run(old(interceptor.State()), LineFeeds(interceptor.decode, interceptor.enabled, line))
    {
      LineMeaning(interceptor.decode, parse, line);
      var data := DataPayload(line);
      if data.None? {
        return parse, false;
      }
      var delta := interceptor.ProcessChunk(data.value);
      if delta.Threw? {
        return parse, true;
      }
      next := parse;
      if Truthy(delta.result) {
        next := next.(content := next.content + delta.result.value);
      }
      if next.sessionId.None? && data.value != "[DONE]" {
        var parsed := interceptor.decode(data.value);
        if parsed.Some? && Truthy(parsed.value.id) {
          next := next.(sessionId := parsed.value.id);
        }
      }
      return next, false;
    }

    /**
     Resets the interceptor, sends the request, runs the stream and remembers the session for cleanup. An answer
     that is missing, refused or without a body throws, as does a timeout that aborts a read.
     */
    method ExecuteTaskStreaming(answered: bool, pieces: seq<string>, readFails: bool) returns (output: Outcome<string>)
      requires interceptor.Valid()
      modifies this, interceptor
      ensures interceptor.Valid()
      ensures var lines := CompleteLines(Flatten(pieces));
        var crashes := !answered || readFails || AnyPoisonous(interceptor.decode, interceptor.enabled, lines);
        var parse := Reading(interceptor.decode, lines);
        var fed := LinesFeed(interceptor.decode, interceptor.enabled,
                             Processed(interceptor.decode, interceptor.enabled, lines));
        && (output.Threw? <==> crashes || parse.content == "")
        && (output.Returned? ==> output.result == parse.content)
        && lastSessionId == (if crashes then None else parse.sessionId)
        && (crashes ==>
              interceptor.State() == Run(Interception([], old(interceptor.emitted)), if answered then fed else []))
        && (!crashes ==>
              interceptor.accumulators == []
              && multiset(interceptor.emitted) == multiset(old(interceptor.emitted))
                 + multiset(Calls(LinesFeed(interceptor.decode, interceptor.enabled, lines))))
    {
      lastSessionId := None;
      interceptor.Reset();
      if !answered {
        return Threw;
      }
      var run := ParseSseStreamWithInterceptor(pieces, readFails);
      if run.Threw? {
        return Threw;
      }
      ghost var lines := CompleteLines(Flatten(pieces));
      ProcessedAll(interceptor.decode, interceptor.enabled, lines);
      Reassembly(old(interceptor.emitted), LinesFeed(interceptor.decode, interceptor.enabled, lines));
      FirstIdIsTruthy(interceptor.decode, lines);
      if Truthy(run.result.sessionId) {
        lastSessionId := run.result.sessionId;
      }
      if run.result.content == "" {
        return Threw;
      }
      return Returned(run.result.content);
    }
  }

  lemma {:induction false} FirstIdIsTruthy(decode: Decoder, lines: seq<string>)
    ensures FirstId(decode, lines).None? || Truthy(FirstId(decode, lines))
  {
    if lines == [] {
    } else {
      FirstIdIsTruthy(decode, lines[1..]);
    }
  }

  /** Having come as far as `st` and `parse`, the lines that remain lead where all the lines lead. */
  ghost predicate SameFrom(decode: Decoder, enabled: bool, start: Interception, from: Parse, all: seq<string>,
                           st: Interception, parse: Parse, rest: seq<string>)
    requires DistinctIndices(start.slots) && DistinctIndices(st.slots)
  {
    && (AnyPoisonous(decode, enabled, rest) <==> AnyPoisonous(decode, enabled, all))
    && PlainLines(decode, parse, rest) == PlainLines(decode, from, all)
    && Driven(decode, enabled, st, rest) == Driven(decode, enabled, start, all)
  }

  lemma SameNext(decode: Decoder, enabled: bool, start: Interception, from: Parse, all: seq<string>,
                 st: Interception, parse: Parse, rest: seq<string>)
    requires DistinctIndices(start.slots) && DistinctIndices(st.slots) && rest != []
    requires SameFrom(decode, enabled, start, from, all, st, parse, rest)
    ensures var after := Run(st, LineFeeds(decode, enabled, rest[0]));
      if Poisonous(decode, enabled, rest[0]) then
        AnyPoisonous(decode, enabled, all) && after == Driven(decode, enabled, start, all)
      else
        SameFrom(decode, enabled, start, from, all, after, PlainLine(decode, parse, rest[0]), rest[1..])
  {
    DrivenByFirst(decode, enabled, st, rest);
  }

  lemma NothingLeft(decode: Decoder, enabled: bool, start: Interception, from: Parse, all: seq<string>,
                    st: Interception, parse: Parse)
    requires DistinctIndices(start.slots) && DistinctIndices(st.slots)
    requires SameFrom(decode, enabled, start, from, all, st, parse, [])
    ensures !AnyPoisonous(decode, enabled, all)
    ensures parse == PlainLines(decode, from, all)
    ensures st == Driven(decode, enabled, start, all)
  {
  }

  lemma SameAfter(decode: Decoder, enabled: bool, st: Interception, parse: Parse, lines: seq<string>, rest: seq<string>)
    requires DistinctIndices(st.slots)
    ensures AnyPoisonous(decode, enabled, lines) ==>
      && AnyPoisonous(decode, enabled, lines + rest)
      && Driven(decode, enabled, st, lines + rest) == Driven(decode, enabled, st, lines)
    ensures !AnyPoisonous(decode, enabled, lines) ==>
      SameFrom(decode, enabled, st, parse, lines + rest,
               Driven(decode, enabled, st, lines), PlainLines(decode, parse, lines), rest)
  {
    PoisonOfConcat(decode, enabled, lines, rest);
    PlainLinesConcat(decode, parse, lines, rest);
    DrivenByConcat(decode, enabled, st, lines, rest);
  }

  lemma RunOfFlush(st: Interception)
    requires DistinctIndices(st.slots)
    ensures Run(st, [Flush]) == Step(st, Flush)
  {
    assert Run(st, [Flush]) == Run(Step(st, Flush), []);
  }

  lemma NullLine()
    ensures DataPayload("data: null") == Some("null")
  {
    var line := "data: null";
    assert TrimEnd(line) == line && TrimStart(line) == line;
    assert line[6..] == "null";
  }

  lemma OneNullLine(decode: Decoder, enabled: bool, line: string)
    requires '\n' !in line && DataPayload(line) == Some("null") && decode("null") == Some(NullChunk)
    ensures CompleteLines(line + "\n") == [line]
    ensures AnyPoisonous(decode, enabled, [line])
    ensures PlainLines(decode, NOTHING_READ, [line]) == NOTHING_READ
  {
    SplitInvertsJoin([line, ""]);
    assert Join([line, ""]) == line + "\n" + "" == line + "\n";
    assert [line][1..] == [];
  }

  /** A payload of JSON null: the plain parser passes over it, the intercepting one throws. */
  lemma NullPayloadExample(decode: Decoder, enabled: bool)
    requires decode("null") == Some(NullChunk)
    ensures var lines := CompleteLines("data: null" + "\n");
      && lines == ["data: null"]
      && AnyPoisonous(decode, enabled, lines)
      && PlainLines(decode, NOTHING_READ, lines) == NOTHING_READ
  {
    NullLine();
    OneNullLine(decode, enabled, "data: null");
  }
}
