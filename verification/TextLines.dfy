/** Cutting a character stream into newline-terminated lines, and lines into SSE data payloads. */
module TextLines {
  import opened Wrappers

  /** The parts of `s` between newlines, as String.split("\n") returns them: never an empty list. */
  function Split(s: string): (parts: seq<string>)
    ensures |parts| >= 1
  {
    if s == [] then [""]
    else
      var rest := Split(s[1..]);
      if s[0] == '\n' then [""] + rest else Grow(s[0], rest)
  }

  /** The same parts with one more character at the start of the first. */
  function Grow(c: char, parts: seq<string>): (grown: seq<string>)
    requires |parts| >= 1
    ensures |grown| == |parts|
  {
    [[c] + parts[0]] + parts[1..]
  }

  /** The parts written one after the other with a newline between neighbours. */
  function Join(parts: seq<string>): string
    requires |parts| >= 1
  {
    if |parts| == 1 then parts[0] else parts[0] + "\n" + Join(parts[1..])
  }

  ghost predicate NoNewlines(parts: seq<string>) {
    forall i :: 0 <= i < |parts| ==> '\n' !in parts[i]
  }

  /** The lines that a newline has closed. */
  function CompleteLines(s: string): seq<string> {
    var parts := Split(s);
    parts[..|parts| - 1]
  }

  /** What follows the last newline: the line still being received. */
  function Tail(s: string): string {
    var parts := Split(s);
    parts[|parts| - 1]
  }

  /** All reads put together in order of arrival. */
  function Flatten(pieces: seq<string>): string {
    if pieces == [] then "" else pieces[0] + Flatten(pieces[1..])
  }

  /** Splitting loses nothing and leaves no newline inside a part. */
  lemma {:induction false} SplitIsDecomposition(s: string)
    ensures NoNewlines(Split(s)) && Join(Split(s)) == s
  {
    if s == [] {
    } else {
      SplitIsDecomposition(s[1..]);
      var rest := Split(s[1..]);
      if s[0] == '\n' {
        assert ([""] + rest)[1..] == rest;
        assert s == [s[0]] + s[1..];
      } else {
        JoinOfGrown(s[0], rest);
        assert s == [s[0]] + Join(rest);
      }
    }
  }

  lemma JoinOfGrown(c: char, parts: seq<string>)
    requires |parts| >= 1
    ensures Join(Grow(c, parts)) == [c] + Join(parts)
  {
    var grown := Grow(c, parts);
    if |parts| > 1 {
      assert grown[1..] == parts[1..];
      PrependedToConcat(c, parts[0], "\n");
      PrependedToConcat(c, parts[0] + "\n", Join(parts[1..]));
    }
  }

  lemma PrependedToConcat(c: char, s: string, t: string)
    ensures ([c] + s) + t == [c] + (s + t)
  {
  }

  /** There is only one such decomposition, so Split is the inverse of Join. */
  lemma {:induction false} SplitInvertsJoin(parts: seq<string>)
    requires |parts| >= 1 && NoNewlines(parts)
    ensures Split(Join(parts)) == parts
    decreases |parts|, |parts[0]|
  {
    var s := Join(parts);
    if parts[0] == "" {
      if |parts| > 1 {
        SplitInvertsJoin(parts[1..]);
        assert s[1..] == Join(parts[1..]);
        assert parts == [""] + parts[1..];
      }
    } else {
      var shorter := [parts[0][1..]] + parts[1..];
      assert shorter[1..] == parts[1..];
      SplitInvertsJoin(shorter);
      assert parts[0] == [parts[0][0]] + parts[0][1..];
      assert s[1..] == Join(shorter);
      assert s[0] == parts[0][0] && s[0] in parts[0];
      assert parts == [parts[0]] + parts[1..];
    }
  }

  /** Split one character further in front. */
  lemma SplitPrepend(c: char, s: string)
    ensures c == '\n' ==> Split([c] + s) == [""] + Split(s)
    ensures c != '\n' ==> Split([c] + s) == Grow(c, Split(s))
  {
    assert ([c] + s)[1..] == s;
  }

  lemma GrowKeepsTail(c: char, parts: seq<string>, more: seq<string>)
    requires |parts| > 1
    ensures Grow(c, parts[..|parts| - 1] + more) == Grow(c, parts)[..|parts| - 1] + more
    ensures Grow(c, parts)[|parts| - 1] == parts[|parts| - 1]
  {
    var firsts := parts[..|parts| - 1];
    assert (firsts + more)[1..] == firsts[1..] + more;
    assert Grow(c, parts)[..|parts| - 1] == [[c] + parts[0]] + firsts[1..];
  }

  lemma FrontOfPrepend(x: string, parts: seq<string>, more: seq<string>)
    requires |parts| >= 1
    ensures [x] + (parts[..|parts| - 1] + more) == ([x] + parts)[..|parts|] + more
    ensures ([x] + parts)[|parts|] == parts[|parts| - 1]
  {
  }

  /** The buffering step with a newline in front. */
  lemma SplitConcatNewline(s: string, b: string)
    requires Split(s + b) == CompleteLines(s) + Split(Tail(s) + b)
    ensures Split("\n" + s + b) == CompleteLines("\n" + s) + Split(Tail("\n" + s) + b)
  {
    assert "\n" + s + b == ['\n'] + (s + b);
    SplitPrepend('\n', s + b);
    SplitPrepend('\n', s);
    FrontOfPrepend("", Split(s), Split(Tail(s) + b));
  }

  /** The buffering step with any other character in front. */
  lemma SplitConcatGrow(c: char, s: string, b: string)
    requires c != '\n'
    requires Split(s + b) == CompleteLines(s) + Split(Tail(s) + b)
    ensures Split([c] + s + b) == CompleteLines([c] + s) + Split(Tail([c] + s) + b)
  {
    assert [c] + s + b == [c] + (s + b);
    SplitPrepend(c, s + b);
    SplitPrepend(c, s);
    if |Split(s)| > 1 {
      GrowKeepsTail(c, Split(s), Split(Tail(s) + b));
    } else {
      assert Tail([c] + s) + b == [c] + (Tail(s) + b);
      SplitPrepend(c, Tail(s) + b);
    }
  }

  /** Buffering step: splitting `a + b` splits `a`, then splits its unfinished line followed by `b`. */
  lemma {:induction false} SplitConcat(a: string, b: string)
    ensures Split(a + b) == CompleteLines(a) + Split(Tail(a) + b)
  {
    if a == [] {
      assert a + b == b;
      assert CompleteLines(a) == [] && Tail(a) == "";
      assert "" + b == b;
    } else {
      SplitConcat(a[1..], b);
      if a[0] == '\n' { SplitConcatNewline(a[1..], b); } else { SplitConcatGrow(a[0], a[1..], b); }
      assert [a[0]] + a[1..] == a;
    }
  }

  /** Reading on: the lines closed so far, then those the unfinished line and the new read close. */
  lemma LinesOfConcat(a: string, b: string)
    ensures CompleteLines(a + b) == CompleteLines(a) + CompleteLines(Tail(a) + b)
    ensures Tail(a + b) == Tail(Tail(a) + b)
  {
    SplitConcat(a, b);
  }

  /** An unfinished line holds no complete line. */
  lemma TailIsUnfinished(s: string)
    ensures CompleteLines(Tail(s)) == []
  {
    LinesOfConcat(s, "");
    assert s + "" == s && Tail(s) + "" == Tail(s);
  }

  /** A last line without its newline is never seen: what it says makes no difference to the lines. */
  lemma UnterminatedLineIsIgnored(s: string, unfinished: string)
    requires '\n' !in unfinished
    ensures CompleteLines(s + unfinished) == CompleteLines(s)
  {
    LinesOfConcat(s, unfinished);
    SplitIsDecomposition(s);
    SplitInvertsJoin([Tail(s) + unfinished]);
  }

  /** What is still to be read as lines, before and after taking one more piece into the buffer. */
  lemma LinesOfNextPiece(buffer: string, pieces: seq<string>)
    requires pieces != []
    ensures CompleteLines(buffer + Flatten(pieces))
         == CompleteLines(buffer + pieces[0]) + CompleteLines(Tail(buffer + pieces[0]) + Flatten(pieces[1..]))
  {
    assert buffer + Flatten(pieces) == buffer + pieces[0] + Flatten(pieces[1..]);
    LinesOfConcat(buffer + pieces[0], Flatten(pieces[1..]));
  }

  // The white space and line terminators that String.trim removes.
  predicate IsSpace(c: char) {
    || c in " \t\n\r"
    || c as int in {0x0B, 0x0C, 0xA0, 0x1680, 0x2028, 0x2029, 0x202F, 0x205F, 0x3000, 0xFEFF}
    || 0x2000 <= c as int <= 0x200A
  }

  /** Of the ASCII characters, the blank and the controls from tab to carriage return count as white space. */
  lemma SpaceIff(c: char)
    requires c as int < 0x80
    ensures IsSpace(c) <==> c as int == 32 || 9 <= c as int <= 13
  {
  }

  function TrimStart(s: string): string {
    if s != [] && IsSpace(s[0]) then TrimStart(s[1..]) else s
  }

  function TrimEnd(s: string): string {
    if s != [] && IsSpace(s[|s| - 1]) then TrimEnd(s[..|s| - 1]) else s
  }

  function Trim(s: string): string {
    TrimStart(TrimEnd(s))
  }

  /** The payload of an SSE `data: ` line; comments, empty lines and other fields carry none. */
  function DataPayload(line: string): Option<string> {
    var trimmed := Trim(line);
    if trimmed == "" || trimmed[0] == ':' then None
    else if "data: " <= trimmed then Some(trimmed[6..])
    else None
  }

  ghost predicate AllSpace(s: string) {
    forall i :: 0 <= i < |s| ==> IsSpace(s[i])
  }

  /** Trimming takes white space off both ends, all of it, and nothing else. */
  lemma TrimIsCore(s: string)
    ensures exists left: string, right: string :: AllSpace(left) && AllSpace(right) && s == left + Trim(s) + right
    ensures Trim(s) != "" ==> !IsSpace(Trim(s)[0]) && !IsSpace(Trim(s)[|Trim(s)| - 1])
  {
    var right := TrimmedEnd(s);
    var left := TrimmedStart(TrimEnd(s));
    assert s == left + Trim(s) + right;
  }

  lemma {:induction false} TrimmedEnd(s: string) returns (right: string)
    ensures AllSpace(right) && s == TrimEnd(s) + right
    ensures TrimEnd(s) != "" ==> !IsSpace(TrimEnd(s)[|TrimEnd(s)| - 1])
  {
    right := "";
    if s != [] && IsSpace(s[|s| - 1]) {
      right := TrimmedEnd(s[..|s| - 1]);
      right := right + [s[|s| - 1]];
    }
  }

  lemma {:induction false} TrimmedStart(s: string) returns (left: string)
    ensures AllSpace(left) && s == left + TrimStart(s)
    ensures TrimStart(s) != "" ==> !IsSpace(TrimStart(s)[0]) && TrimStart(s)[|TrimStart(s)| - 1] == s[|s| - 1]
  {
    left := "";
    if s != [] && IsSpace(s[0]) {
      left := TrimmedStart(s[1..]);
      left := [s[0]] + left;
    }
  }

  /** A line carries a payload exactly when it is, but for white space around it, the field name and the payload. */
  lemma PayloadIff(line: string, payload: string)
    ensures DataPayload(line) == Some(payload) <==> Trim(line) == "data: " + payload
  {
    var trimmed := Trim(line);
    if "data: " <= trimmed {
      assert trimmed == "data: " + trimmed[6..];
    }
    if trimmed == "data: " + payload {
      assert trimmed[0] == 'd' && trimmed[6..] == payload;
    }
  }

  /** CRLF streams read like LF streams: a carriage return before the newline changes no payload. */
  lemma CarriageReturnIsIgnored(line: string)
    ensures DataPayload(line + "\r") == DataPayload(line)
  {
    assert (line + "\r")[..|line + "\r"| - 1] == line;
  }
}
