/**
 What the two SSE parsers make of a line, and of all the lines of a stream. JSON decoding is a
 parameter: a function from payload text to the decoded chunk, None when the text is not JSON.
 */
module StreamModel {
  import opened Wrappers
  import opened TextLines
  import opened ToolCalls

  /**
   The `tool_calls` property of a delta: absent (or falsy), a value that cannot be iterated, or a
   list whose entries are fragments, with None for a JSON null entry.
   */
  datatype ToolCallList = Absent | NotIterable | Listed(entries: seq<Option<ToolCallDelta>>)

  datatype Delta = Delta(content: Option<string>, toolCalls: ToolCallList)

  /** A decoded payload: JSON null, or a value whose `id` and first choice's `delta` can be read. */
  datatype Chunk = NullChunk | Chunk(id: Option<string>, delta: Option<Delta>)

  type Decoder = string -> Option<Chunk>

  /** What a parser accumulates. */
  datatype Parse = Parse(content: string, sessionId: Option<string>)

  const NOTHING_READ := Parse("", None)

  predicate Truthy(text: Option<string>) { text.Some? && text.value != "" }

  /** The first non-empty id wins. */
  function Session(current: Option<string>, id: Option<string>): Option<string> {
    if current.None? && Truthy(id) then id else current
  }

  function ContentOf(chunk: Chunk): string
    requires chunk.Chunk?
  {
    if chunk.delta.Some? then chunk.delta.value.content.GetOr("") else ""
  }

  /** The effect of one line on the plain parser. */
  function PlainLine(decode: Decoder, p: Parse, line: string): Parse {
    var data := DataPayload(line);
    if data.None? || data.value == "[DONE]" || decode(data.value).None? || decode(data.value).value.NullChunk? then p
    else
      var chunk := decode(data.value).value;
      Parse(p.content + ContentOf(chunk), Session(p.sessionId, chunk.id))
  }

  function PlainLines(decode: Decoder, p: Parse, lines: seq<string>): Parse
    decreases |lines|
  {
    if lines == [] then p
    else PlainLines(decode, PlainLine(decode, p, lines[0]), lines[1..])
  }

  /** The content a line contributes: that of its payload's delta, if there is one. */
  function LineContent(decode: Decoder, line: string): string {
    match DataPayload(line)
    case None => ""
    case Some(payload) =>
      if payload == "[DONE]" then ""
      else
        match decode(payload)
        case Some(Chunk(_, Some(Delta(Some(text), _)))) => text
        case _ => ""
  }

  /** The id a line carries, if it is not empty. */
  function LineId(decode: Decoder, line: string): Option<string> {
    match DataPayload(line)
    case None => None
    case Some(payload) =>
      if payload == "[DONE]" then None
      else
        match decode(payload)
        case Some(Chunk(Some(id), _)) => if id != "" then Some(id) else None
        case _ => None
  }

  function Contents(decode: Decoder, lines: seq<string>): seq<string> {
    seq(|lines|, i requires 0 <= i < |lines| => LineContent(decode, lines[i]))
  }

  function FirstId(decode: Decoder, lines: seq<string>): Option<string> {
    if lines == [] then None
    else if LineId(decode, lines[0]).Some? then LineId(decode, lines[0])
    else FirstId(decode, lines[1..])
  }

  /** What a stream says: all contents in order, and the first id. */
  function Reading(decode: Decoder, lines: seq<string>): Parse {
    Parse(Flatten(Contents(decode, lines)), FirstId(decode, lines))
  }

  /** A line with content contributes exactly that, whatever its id and its tool calls. */
  lemma ContentOfLine(decode: Decoder, line: string, payload: string, id: Option<string>, text: string,
                      toolCalls: ToolCallList)
    requires Trim(line) == "data: " + payload && payload != "[DONE]"
    requires decode(payload) == Some(Chunk(id, Some(Delta(Some(text), toolCalls))))
    ensures LineContent(decode, line) == text
  {
    PayloadIff(line, payload);
  }

  /** A line carries an id exactly if its payload does, and not an empty one. */
  lemma IdOfLine(decode: Decoder, line: string, payload: string, id: string, delta: Option<Delta>)
    requires Trim(line) == "data: " + payload && payload != "[DONE]"
    requires decode(payload) == Some(Chunk(Some(id), delta))
    ensures LineId(decode, line) == if id == "" then None else Some(id)
  {
    PayloadIff(line, payload);
  }

  /** In every other case a line contributes nothing: whatever it contributes comes from such a payload. */
  lemma ContentComesFrom(decode: Decoder, line: string)
    returns (payload: string, id: Option<string>, toolCalls: ToolCallList)
    requires LineContent(decode, line) != ""
    ensures Trim(line) == "data: " + payload && payload != "[DONE]"
    ensures decode(payload) == Some(Chunk(id, Some(Delta(Some(LineContent(decode, line)), toolCalls))))
  {
    payload := DataPayload(line).value;
    PayloadIff(line, payload);
    id, toolCalls := decode(payload).value.id, decode(payload).value.delta.value.toolCalls;
  }

  lemma IdComesFrom(decode: Decoder, line: string) returns (payload: string, delta: Option<Delta>)
    requires LineId(decode, line).Some?
    ensures Trim(line) == "data: " + payload && payload != "[DONE]"
    ensures decode(payload) == Some(Chunk(LineId(decode, line), delta)) && LineId(decode, line) != Some("")
  {
    payload := DataPayload(line).value;
    PayloadIff(line, payload);
    delta := decode(payload).value.delta;
  }

  lemma LineMeaning(decode: Decoder, p: Parse, line: string)
    ensures PlainLine(decode, p, line)
         == Parse(p.content + LineContent(decode, line),
                  if p.sessionId.Some? then p.sessionId else LineId(decode, line))
  {
    assert p.content + "" == p.content;
  }

  lemma FirstLine(decode: Decoder, p: Parse, lines: seq<string>)
    requires lines != []
    ensures PlainLines(decode, p, lines)
         == PlainLines(decode, Parse(p.content + LineContent(decode, lines[0]),
                                     if p.sessionId.Some? then p.sessionId else LineId(decode, lines[0])), lines[1..])
  {
    LineMeaning(decode, p, lines[0]);
  }

  /** The content of a stream is the contents of its lines in order. */
  lemma {:induction false} ContentMeaning(decode: Decoder, p: Parse, lines: seq<string>)
    ensures PlainLines(decode, p, lines).content == p.content + Flatten(Contents(decode, lines))
    decreases |lines|
  {
    if lines == [] {
      assert p.content + "" == p.content;
    } else {
      FirstLine(decode, p, lines);
      ContentMeaning(decode, Parse(p.content + LineContent(decode, lines[0]),
                                   if p.sessionId.Some? then p.sessionId else LineId(decode, lines[0])), lines[1..]);
      FirstContent(decode, lines);
      Regroup(p.content, LineContent(decode, lines[0]), Flatten(Contents(decode, lines[1..])));
    }
  }

  lemma Regroup(a: string, b: string, c: string)
    ensures a + b + c == a + (b + c)
  {
  }

  lemma FirstContent(decode: Decoder, lines: seq<string>)
    requires lines != []
    ensures Flatten(Contents(decode, lines)) == LineContent(decode, lines[0]) + Flatten(Contents(decode, lines[1..]))
  {
    assert Contents(decode, lines)[1..] == Contents(decode, lines[1..]);
  }

  /** The session id is the first non-empty id of the stream. */
  lemma {:induction false} SessionMeaning(decode: Decoder, p: Parse, lines: seq<string>)
    ensures PlainLines(decode, p, lines).sessionId == if p.sessionId.Some? then p.sessionId else FirstId(decode, lines)
    decreases |lines|
  {
    if lines == [] {
    } else {
      FirstLine(decode, p, lines);
      SessionMeaning(decode, Parse(p.content + LineContent(decode, lines[0]),
                                   if p.sessionId.Some? then p.sessionId else LineId(decode, lines[0])), lines[1..]);
    }
  }

  lemma ReadingMeaning(decode: Decoder, lines: seq<string>)
    ensures PlainLines(decode, NOTHING_READ, lines) == Reading(decode, lines)
  {
    ContentMeaning(decode, NOTHING_READ, lines);
    SessionMeaning(decode, NOTHING_READ, lines);
  }

  // ---------------------------------------------------------------------------
  // The intercepting parser
  // ---------------------------------------------------------------------------

  /** The fragments before the first null entry; reading a property of that entry throws. */
  function Readable(entries: seq<Option<ToolCallDelta>>): seq<Input> {
    if entries == [] || entries[0].None? then []
    else [Fragment(entries[0].value)] + Readable(entries[1..])
  }

  /** Processing a payload throws on JSON null and, when enabled, on tool calls it cannot walk through. */
  predicate Throws(enabled: bool, chunk: Chunk) {
    || chunk.NullChunk?
    || (enabled && chunk.delta.Some? &&
        (chunk.delta.value.toolCalls.NotIterable?
         || (chunk.delta.value.toolCalls.Listed? && None in chunk.delta.value.toolCalls.entries)))
  }

  /** What a payload feeds to the interceptor. */
  function Fed(decode: Decoder, enabled: bool, data: string): seq<Input> {
    if data == "[DONE]" then [Flush]
    else if decode(data).None? || decode(data).value.NullChunk? then []
    else
      var delta := decode(data).value.delta;
      if enabled && delta.Some? && delta.value.toolCalls.Listed? then Readable(delta.value.toolCalls.entries)
      else []
  }

  function LineFeeds(decode: Decoder, enabled: bool, line: string): seq<Input> {
    var data := DataPayload(line);
    if data.None? then [] else Fed(decode, enabled, data.value)
  }

  /** The intercepting parser throws on this line. */
  predicate Poisonous(decode: Decoder, enabled: bool, line: string) {
    var data := DataPayload(line);
    data.Some? && data.value != "[DONE]" && decode(data.value).Some? && Throws(enabled, decode(data.value).value)
  }

  /** The lines up to and including the first one the intercepting parser throws on. */
  function Processed(decode: Decoder, enabled: bool, lines: seq<string>): seq<string> {
    if lines == [] then []
    else if Poisonous(decode, enabled, lines[0]) then [lines[0]]
    else [lines[0]] + Processed(decode, enabled, lines[1..])
  }

  /** All that the lines feed to the interceptor. */
  function LinesFeed(decode: Decoder, enabled: bool, lines: seq<string>): seq<Input> {
    if lines == [] then []
    else LineFeeds(decode, enabled, lines[0]) + LinesFeed(decode, enabled, lines[1..])
  }

  /** The intercepting parser throws on one of the lines. */
  predicate AnyPoisonous(decode: Decoder, enabled: bool, lines: seq<string>) {
    lines != [] && (Poisonous(decode, enabled, lines[0]) || AnyPoisonous(decode, enabled, lines[1..]))
  }

  /** Where the processed lines take the interceptor. */
  ghost function Driven(decode: Decoder, enabled: bool, st: Interception, lines: seq<string>): (next: Interception)
    requires DistinctIndices(st.slots)
    ensures DistinctIndices(next.slots)
  {
    Run(st, LinesFeed(decode, enabled, Processed(decode, enabled, lines)))
  }

  // ---------------------------------------------------------------------------
  // Lemmas
  // ---------------------------------------------------------------------------

  lemma {:induction false} PlainLinesConcat(decode: Decoder, p: Parse, a: seq<string>, b: seq<string>)
    ensures PlainLines(decode, p, a + b) == PlainLines(decode, PlainLines(decode, p, a), b)
    decreases |a|
  {
    if a == [] {
      assert a + b == b;
    } else {
      assert (a + b)[1..] == a[1..] + b;
      PlainLinesConcat(decode, PlainLine(decode, p, a[0]), a[1..], b);
    }
  }

  /** One line further: a poisonous line is the last to have an effect. */
  lemma DrivenByFirst(decode: Decoder, enabled: bool, st: Interception, lines: seq<string>)
    requires DistinctIndices(st.slots) && lines != []
    ensures var after := Run(st, LineFeeds(decode, enabled, lines[0]));
      Driven(decode, enabled, st, lines)
        == if Poisonous(decode, enabled, lines[0]) then after else Driven(decode, enabled, after, lines[1..])
  {
    var first := LineFeeds(decode, enabled, lines[0]);
    if Poisonous(decode, enabled, lines[0]) {
      assert Processed(decode, enabled, lines) == [lines[0]];
      assert LinesFeed(decode, enabled, []) == [];
      assert LinesFeed(decode, enabled, [lines[0]]) == first + [] == first;
    } else {
      var rest := Processed(decode, enabled, lines[1..]);
      assert ([lines[0]] + rest)[1..] == rest;
      RunConcat(st, first, LinesFeed(decode, enabled, rest));
    }
  }

  lemma {:induction false} DrivenByConcat(decode: Decoder, enabled: bool, st: Interception, a: seq<string>, b: seq<string>)
    requires DistinctIndices(st.slots)
    ensures var after := Driven(decode, enabled, st, a);
      Driven(decode, enabled, st, a + b)
        == if AnyPoisonous(decode, enabled, a) then after else Driven(decode, enabled, after, b)
    decreases |a|
  {
    if a == [] {
      assert a + b == b;
    } else {
      assert (a + b)[1..] == a[1..] + b;
      DrivenByFirst(decode, enabled, st, a);
      DrivenByFirst(decode, enabled, st, a + b);
      DrivenByConcat(decode, enabled, Run(st, LineFeeds(decode, enabled, a[0])), a[1..], b);
    }
  }

  lemma {:induction false} AnyPoisonousMeans(decode: Decoder, enabled: bool, lines: seq<string>)
    ensures AnyPoisonous(decode, enabled, lines) <==> exists i :: 0 <= i < |lines| && Poisonous(decode, enabled, lines[i])
  {
    if lines == [] {
    } else {
      AnyPoisonousMeans(decode, enabled, lines[1..]);
      if i :| 0 < i < |lines| && Poisonous(decode, enabled, lines[i]) {
        assert lines[1..][i - 1] == lines[i];
      }
    }
  }

  lemma {:induction false} PoisonOfConcat(decode: Decoder, enabled: bool, a: seq<string>, b: seq<string>)
    ensures AnyPoisonous(decode, enabled, a + b) <==> AnyPoisonous(decode, enabled, a) || AnyPoisonous(decode, enabled, b)
  {
    if a == [] {
      assert a + b == b;
    } else {
      assert (a + b)[1..] == a[1..] + b;
      PoisonOfConcat(decode, enabled, a[1..], b);
    }
  }

  lemma {:induction false} ProcessedAll(decode: Decoder, enabled: bool, lines: seq<string>)
    requires !AnyPoisonous(decode, enabled, lines)
    ensures Processed(decode, enabled, lines) == lines
  {
    if lines == [] {
    } else {
      ProcessedAll(decode, enabled, lines[1..]);
    }
  }

  // ---------------------------------------------------------------------------
  // What a payload means to the interceptor, in terms of what it decodes to
  // ---------------------------------------------------------------------------

  /** The end marker flushes the interceptor. */
  lemma EndMarkerFlushes(decode: Decoder, enabled: bool, line: string)
    requires Trim(line) == "data: [DONE]"
    ensures LineFeeds(decode, enabled, line) == [Flush] && !Poisonous(decode, enabled, line)
  {
    PayloadIff(line, "[DONE]");
  }

  /** Tool calls are fed one by one up to the first null entry, which throws; when interception is off nothing is fed. */
  lemma ToolCallsAreFed(decode: Decoder, enabled: bool, line: string, payload: string, id: Option<string>,
                        content: Option<string>, entries: seq<Option<ToolCallDelta>>)
    requires Trim(line) == "data: " + payload && payload != "[DONE]"
    requires decode(payload) == Some(Chunk(id, Some(Delta(content, Listed(entries)))))
    ensures Poisonous(decode, enabled, line) <==> enabled && exists i :: 0 <= i < |entries| && entries[i] == None
    ensures var fed := LineFeeds(decode, enabled, line);
      && |fed| <= |entries|
      && (!enabled ==> fed == [])
      && (enabled ==> |fed| == |entries| || entries[|fed|] == None)
      && forall i :: 0 <= i < |fed| ==> entries[i].Some? && fed[i] == Fragment(entries[i].value)
  {
    PayloadIff(line, payload);
    ReadableMeaning(entries);
  }

  lemma {:induction false} ReadableMeaning(entries: seq<Option<ToolCallDelta>>)
    ensures var fed := Readable(entries);
      && |fed| <= |entries|
      && (|fed| == |entries| || entries[|fed|] == None)
      && forall i :: 0 <= i < |fed| ==> entries[i].Some? && fed[i] == Fragment(entries[i].value)
  {
    if entries == [] {
    } else {
      ReadableMeaning(entries[1..]);
    }
  }

  /** A payload of JSON null always throws, a tool-call list that cannot be walked only when interception is on. */
  lemma UnreadablePayloads(decode: Decoder, enabled: bool, line: string, payload: string, id: Option<string>,
                           content: Option<string>)
    requires Trim(line) == "data: " + payload && payload != "[DONE]"
    ensures decode(payload) == Some(NullChunk) ==> Poisonous(decode, enabled, line)
    ensures decode(payload) == Some(Chunk(id, Some(Delta(content, NotIterable)))) ==>
      (Poisonous(decode, enabled, line) <==> enabled)
    ensures decode(payload) in {None, Some(Chunk(id, None)), Some(Chunk(id, Some(Delta(content, Absent))))} ==>
      !Poisonous(decode, enabled, line) && LineFeeds(decode, enabled, line) == []
  {
    PayloadIff(line, payload);
  }
}
