/**
 The event stream parser of sections 9.2.5 and 9.2.6 of the WHATWG HTML
 Standard, once as an incremental state machine over single characters and once
 as an interpretation of the whole stream's lines.
 */
module EventSource {
  import opened Sse

  datatype Message = Message(kind: string, data: string, lastEventId: string)

  /** line: the unfinished line; afterCR: a line feed now belongs to the line already ended. */
  datatype Parser = Parser(line: string, afterCR: bool, kind: string, data: string, lastEventId: string,
                           retry: string, messages: seq<Message>)

  const FRESH := Parser("", false, "", "", "", "", [])

  function IndexOf(s: string, ch: char): (i: nat)
    ensures i <= |s| && ch !in s[..i] && (i < |s| ==> s[i] == ch)
  {
    if s == "" || s[0] == ch then 0 else 1 + IndexOf(s[1..], ch)
  }

  function DropSpace(value: string): string {
    if value != "" && value[0] == ' ' then value[1..] else value
  }

  predicate Digits(s: string) {
    s != "" && forall i :: 0 <= i < |s| ==> '0' <= s[i] <= '9'
  }

  function ProcessField(p: Parser, field: string, value: string): Parser {
    if field == "event" then p.(kind := value)
    else if field == "data" then p.(data := p.data + value + "\n")
    else if field == "id" then (if '\0' in value then p else p.(lastEventId := value))
    else if field == "retry" then (if Digits(value) then p.(retry := value) else p)
    else p
  }

  function Dispatch(p: Parser): Parser {
    if p.data == "" then p.(kind := "")
    else
      var data := if p.data[|p.data| - 1] == '\n' then p.data[..|p.data| - 1] else p.data;
      var kind := if p.kind == "" then "message" else p.kind;
      p.(kind := "", data := "", messages := p.messages + [Message(kind, data, p.lastEventId)])
  }

  function ProcessLine(p: Parser, line: string): Parser {
    if line == "" then Dispatch(p)
    else if line[0] == ':' then p
    else
      var colon := IndexOf(line, ':');
      if colon < |line| then ProcessField(p, line[..colon], DropSpace(line[colon + 1..]))
      else ProcessField(p, line, "")
  }

  function Step(p: Parser, ch: char): Parser {
    if ch == '\n' && p.afterCR then p.(afterCR := false)
    else if ch == '\n' || ch == '\r' then ProcessLine(p, p.line).(line := "", afterCR := ch == '\r')
    else p.(line := p.line + [ch], afterCR := false)
  }

  function Feed(p: Parser, input: string): Parser
    decreases |input|
  {
    if input == "" then p else Feed(Step(p, input[0]), input[1..])
  }

  /** The remaining rules of section 9.2.6: ids without NUL, retry times of digits, unknown fields, the default type. */
  lemma FieldRules(p: Parser, field: string, value: string)
    ensures ProcessField(p, "id", value) == if '\0' in value then p else p.(lastEventId := value)
    ensures ProcessField(p, "retry", value) == if Digits(value) then p.(retry := value) else p
    ensures field !in ["event", "data", "id", "retry"] ==> ProcessField(p, field, value) == p
    ensures p.data != "" ==>
      |Dispatch(p).messages| == |p.messages| + 1 &&
      Dispatch(p).messages[|p.messages|].kind == (if p.kind == "" then "message" else p.kind) &&
      Dispatch(p).messages[|p.messages|].lastEventId == p.lastEventId == Dispatch(p).lastEventId
    ensures p.data == "" ==> Dispatch(p).messages == p.messages && Dispatch(p).kind == ""
  {
    assert |"event"| == 5 && |"data"| == 4 && |"id"| == 2 && |"retry"| == 5;
    assert "event"[0] != "retry"[0];
  }

  // ----- Chunking -----

  lemma {:induction false} FeedConcat(p: Parser, left: string, right: string)
    ensures Feed(p, left + right) == Feed(Feed(p, left), right)
    decreases |left|
  {
    if left == "" {
      assert left + right == right;
    } else {
      assert (left + right)[1..] == left[1..] + right;
      FeedConcat(Step(p, left[0]), left[1..], right);
    }
  }

  function Flatten(chunks: seq<string>): string {
    if chunks == [] then "" else chunks[0] + Flatten(chunks[1..])
  }

  function FeedChunks(p: Parser, chunks: seq<string>): Parser
    decreases |chunks|
  {
    if chunks == [] then p else FeedChunks(Feed(p, chunks[0]), chunks[1..])
  }

  /** However the stream is cut into chunks, the parser ends in the same state. */
  lemma {:induction false} ChunkingIrrelevant(p: Parser, chunks: seq<string>)
    ensures FeedChunks(p, chunks) == Feed(p, Flatten(chunks))
    decreases |chunks|
  {
    if chunks != [] {
      FeedConcat(p, chunks[0], Flatten(chunks[1..]));
      ChunkingIrrelevant(Feed(p, chunks[0]), chunks[1..]);
    }
  }

  // ----- The state machine computes the meaning of the stream's lines -----

  function FirstBreak(s: string): (i: nat)
    ensures i <= |s| && Unbroken(s[..i]) && (i < |s| ==> s[i] == '\n' || s[i] == '\r')
  {
    if s == "" || s[0] == '\n' || s[0] == '\r' then 0 else 1 + FirstBreak(s[1..])
  }

  /** The ended lines of a stream and the rest; a line ends with CR LF, LF or CR. */
  function LinesOf(s: string): (seq<string>, string)
    decreases |s|
  {
    var k := FirstBreak(s);
    if k == |s| then ([], s)
    else
      var next := if s[k] == '\r' && k + 1 < |s| && s[k + 1] == '\n' then k + 2 else k + 1;
      var (lines, rest) := LinesOf(s[next..]);
      ([s[..k]] + lines, rest)
  }

  function ProcessLines(p: Parser, lines: seq<string>): Parser
    decreases |lines|
  {
    if lines == [] then p else ProcessLines(ProcessLine(p, lines[0]), lines[1..])
  }

  lemma {:induction false} FeedUnbroken(p: Parser, text: string)
    requires Unbroken(text)
    ensures Feed(p, text) == if text == "" then p else p.(line := p.line + text, afterCR := false)
    decreases |text|
  {
    if text != "" {
      FeedUnbroken(Step(p, text[0]), text[1..]);
      assert p.line + [text[0]] + text[1..] == p.line + text;
    }
  }

  /** Neither the unfinished line nor the last terminator matters to what an ended line means. */
  lemma ProcessLineFrame(p: Parser, line: string, pending: string, afterCR: bool)
    ensures ProcessLine(p.(line := pending, afterCR := afterCR), line)
         == ProcessLine(p, line).(line := pending, afterCR := afterCR)
  {
    if line == "" {
      DispatchFrame(p, pending, afterCR);
    } else if line[0] != ':' {
      var colon := IndexOf(line, ':');
      if colon < |line| {
        ProcessFieldFrame(p, line[..colon], DropSpace(line[colon + 1..]), pending, afterCR);
      } else {
        ProcessFieldFrame(p, line, "", pending, afterCR);
      }
    }
  }

  lemma DispatchFrame(p: Parser, pending: string, afterCR: bool)
    ensures Dispatch(p.(line := pending, afterCR := afterCR)) == Dispatch(p).(line := pending, afterCR := afterCR)
  {
  }

  lemma ProcessFieldFrame(p: Parser, field: string, value: string, pending: string, afterCR: bool)
    ensures ProcessField(p.(line := pending, afterCR := afterCR), field, value)
         == ProcessField(p, field, value).(line := pending, afterCR := afterCR)
  {
  }

  /** A whole line, with any of the three terminators. */
  lemma FeedLine(p: Parser, text: string, terminator: string)
    requires terminator == "\n" || terminator == "\r" || terminator == "\r\n"
    requires p.line == "" && Unbroken(text) && (p.afterCR && text == "" ==> terminator[0] != '\n')
    ensures Feed(p, text + terminator)
         == ProcessLine(p, text).(line := "", afterCR := terminator == "\r")
  {
    FeedConcat(p, text, terminator);
    FeedUnbroken(p, text);
    var q := Feed(p, text);
    assert q.line == text;
    ProcessLineFrame(p, text, text, q.afterCR);
    assert q == p.(line := text, afterCR := q.afterCR);
    var r := Step(q, terminator[0]);
    assert terminator[1..] == "" || terminator[1..] == "\n";
    assert Feed(q, terminator) == Feed(r, terminator[1..]);
    assert Feed(r, "\n") == Step(r, '\n') by {
      assert "\n"[1..] == "";
    }
  }

  /** The state machine delivers exactly what the stream's ended lines mean, and keeps the rest. */
  lemma {:induction false} FeedMeansLines(p: Parser, s: string)
    requires p.line == "" && (p.afterCR ==> s == "" || s[0] != '\n')
    ensures var (lines, rest) := LinesOf(s);
      && Feed(p, s).line == rest
      && Feed(p, s).(line := "", afterCR := false) == ProcessLines(p.(afterCR := false), lines)
    decreases |s|
  {
    var k := FirstBreak(s);
    if k == |s| {
      assert s[..k] == s;
      FeedUnbroken(p, s);
    } else {
      var next := if s[k] == '\r' && k + 1 < |s| && s[k + 1] == '\n' then k + 2 else k + 1;
      var text, terminator, rest := s[..k], s[k..next], s[next..];
      assert s == (text + terminator) + rest;
      FeedConcat(p, text + terminator, rest);
      FeedLine(p, text, terminator);
      ProcessLineFrame(p, text, "", false);
      FeedMeansLines(Feed(p, text + terminator), rest);
      assert ([text] + LinesOf(rest).0)[1..] == LinesOf(rest).0;
    }
  }

  // ----- What the parser can ever deliver -----

  predicate CleanMessage(m: Message) {
    m.kind != "" && Unbroken(m.kind) && '\r' !in m.data
  }

  ghost predicate CleanParser(p: Parser) {
    && Unbroken(p.line) && Unbroken(p.kind) && '\r' !in p.data
    && forall i :: 0 <= i < |p.messages| ==> CleanMessage(p.messages[i])
  }

  lemma ProcessFieldClean(p: Parser, field: string, value: string)
    requires CleanParser(p) && Unbroken(value)
    ensures CleanParser(ProcessField(p, field, value))
  {
    assert '\r' !in p.data + value + "\n";
  }

  lemma DispatchClean(p: Parser)
    requires CleanParser(p)
    ensures CleanParser(Dispatch(p))
  {
  }

  lemma ProcessLineClean(p: Parser, line: string)
    requires CleanParser(p) && Unbroken(line)
    ensures CleanParser(ProcessLine(p, line)) && p.messages <= ProcessLine(p, line).messages
  {
    if line == "" {
      DispatchClean(p);
    } else if line[0] != ':' {
      var colon := IndexOf(line, ':');
      if colon < |line| {
        SuffixUnbroken(line, colon + 1);
        SuffixUnbroken(line[colon + 1..], if colon + 1 < |line| then 1 else 0);
        ProcessFieldClean(p, line[..colon], DropSpace(line[colon + 1..]));
      } else {
        ProcessFieldClean(p, line, "");
      }
    }
  }

  lemma SuffixUnbroken(s: string, i: nat)
    requires i <= |s| && Unbroken(s)
    ensures Unbroken(s[i..])
  {
  }

  lemma {:induction false} FeedClean(p: Parser, input: string)
    requires CleanParser(p)
    ensures CleanParser(Feed(p, input)) && p.messages <= Feed(p, input).messages
    decreases |input|
  {
    if input != "" {
      ProcessLineClean(p, p.line);
      FeedClean(Step(p, input[0]), input[1..]);
    }
  }
}
