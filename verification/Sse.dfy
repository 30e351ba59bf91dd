/** The server-sent event printer.  Bytes are modelled as characters. */
module Sse {
  datatype Event = Event(name: string, data: string)

  predicate Unbroken(s: string) {
    '\n' !in s && '\r' !in s
  }

  /** strings.Split(s, "\n") */
  function Split(s: string): (lines: seq<string>)
    ensures lines != [] && forall i :: 0 <= i < |lines| ==> '\n' !in lines[i]
  {
    if s == "" then [""]
    else
      var rest := Split(s[1..]);
      if s[0] == '\n' then [""] + rest else [[s[0]] + rest[0]] + rest[1..]
  }

  /** Every line with its terminator. */
  function Unlines(lines: seq<string>): string {
    if lines == [] then "" else lines[0] + "\n" + Unlines(lines[1..])
  }

  /** Splitting loses nothing: the lines are the text, with a terminator after the last one. */
  lemma {:induction false} SplitKeepsText(s: string)
    ensures Unlines(Split(s)) == s + "\n"
    ensures '\r' !in s ==> forall i :: 0 <= i < |Split(s)| ==> '\r' !in Split(s)[i]
  {
    if s != "" {
      var rest := Split(s[1..]);
      SplitKeepsText(s[1..]);
      if s[0] == '\n' {
        assert Split(s)[1..] == rest;
        assert Unlines(Split(s)) == "" + "\n" + (s[1..] + "\n");
      } else {
        assert Split(s)[1..] == rest[1..];
        assert Unlines(Split(s)) == [s[0]] + Unlines(rest);
      }
      assert s == [s[0]] + s[1..];
      assert forall i :: 0 < i < |Split(s)| ==> Split(s)[i] == Split(s)[1..][i - 1];
    }
  }

  function DataLines(lines: seq<string>): string {
    if lines == [] then "" else "data: " + lines[0] + "\n" + DataLines(lines[1..])
  }

  lemma {:induction false} DataLinesAppend(lines: seq<string>, line: string)
    ensures DataLines(lines + [line]) == DataLines(lines) + "data: " + line + "\n"
  {
    if lines == [] {
      assert (lines + [line])[1..] == [];
    } else {
      assert (lines + [line])[1..] == lines[1..] + [line];
      DataLinesAppend(lines[1..], line);
    }
  }

  function FrameOf(e: Event): string {
    "event: " + e.name + "\n" + DataLines(Split(e.data)) + "\n"
  }

  /** Event.Frame, with its string builder. */
  method Frame(e: Event) returns (b: string)
    ensures b == FrameOf(e)
  {
    b := "";
    b := b + "event: ";
    b := b + e.name;
    b := b + "\n";
    var lines := Split(e.data);
    for i := 0 to |lines|
      invariant b == "event: " + e.name + "\n" + DataLines(lines[..i])
    {
      b := b + "data: ";
      b := b + lines[i];
      b := b + "\n";
      DataLinesAppend(lines[..i], lines[i]);
      assert lines[..i] + [lines[i]] == lines[..i + 1];
    }
    assert lines[..|lines|] == lines;
    b := b + "\n";
  }

  lemma {:induction false} SplitOne(line: string)
    requires '\n' !in line
    ensures Split(line) == [line]
  {
    if line != "" {
      SplitOne(line[1..]);
      assert [line[0]] + line[1..] == line;
    }
  }

  lemma {:induction false} SplitFirst(line: string, rest: string)
    requires '\n' !in line
    ensures Split(line + "\n" + rest) == [line] + Split(rest)
  {
    var s := line + "\n" + rest;
    if line == "" {
      assert s[1..] == rest;
    } else {
      assert s[1..] == line[1..] + "\n" + rest;
      SplitFirst(line[1..], rest);
      assert [line[0]] + line[1..] == line;
    }
  }

  lemma DataLinesFirst(line: string, lines: seq<string>)
    ensures DataLines([line] + lines) == "data: " + line + "\n" + DataLines(lines)
  {
    assert ([line] + lines)[1..] == lines;
  }

  /** The frame of data without a line break. */
  lemma FrameOneLine(name: string, line: string)
    requires '\n' !in line
    ensures FrameOf(Event(name, line)) == "event: " + name + "\n" + "data: " + line + "\n" + "\n"
  {
    SplitOne(line);
    DataLinesFirst(line, []);
    assert [line] + [] == [line];
    assert DataLines([line]) == "data: " + line + "\n";
    var header, data := "event: " + name + "\n", "data: " + line + "\n";
    assert header + data + "\n" == header + "data: " + line + "\n" + "\n";
  }

  /** What a frame says of its data, after the line with the name. */
  function Body(e: Event): string {
    DataLines(Split(e.data)) + "\n"
  }

  /** One more line of data is one more line of the frame. */
  lemma FrameMoreLines(name: string, line: string, rest: string)
    requires '\n' !in line
    ensures FrameOf(Event(name, rest)) == "event: " + name + "\n" + Body(Event(name, rest))
    ensures Body(Event(name, line + "\n" + rest)) == "data: " + line + "\n" + Body(Event(name, rest))
  {
    SplitFirst(line, rest);
    DataLinesFirst(line, Split(rest));
    Join("event: " + name + "\n", DataLines(Split(rest)), "\n");
    Join("data: " + line + "\n", DataLines(Split(rest)), "\n");
  }

  lemma Join(a: string, b: string, c: string)
    ensures a + b + c == a + (b + c)
  {
  }

  // ----- The shape of a frame -----

  predicate Clean(e: Event) {
    e.name != "" && Unbroken(e.name) && '\r' !in e.data
  }

  ghost predicate NoBlankLine(s: string) {
    forall i :: 0 <= i < |s| - 1 ==> s[i] != '\n' || s[i + 1] != '\n'
  }

  lemma NoBlankLineConcat(s: string, t: string)
    requires NoBlankLine(s) && NoBlankLine(t) && (t == "" || t[0] != '\n')
    ensures NoBlankLine(s + t)
  {
    forall i | 0 <= i < |s + t| - 1
      ensures (s + t)[i] != '\n' || (s + t)[i + 1] != '\n'
    {
      if i >= |s| {
        assert t[i - |s|] != '\n' || t[i - |s| + 1] != '\n';
      }
    }
  }

  lemma {:induction false} DataLinesNoBlankLine(lines: seq<string>)
    requires forall i :: 0 <= i < |lines| ==> '\n' !in lines[i]
    ensures NoBlankLine(DataLines(lines)) && (lines != [] ==> DataLines(lines)[0] == 'd')
  {
    if lines != [] {
      DataLinesNoBlankLine(lines[1..]);
      assert "data: "[0] == 'd';
      assert NoBlankLine("data: " + lines[0] + "\n");
      NoBlankLineConcat("data: " + lines[0] + "\n", DataLines(lines[1..]));
    }
  }

  /** A frame contains a blank line only at its end, whatever its data. */
  lemma BlankLineOnlyAtEnd(e: Event)
    requires '\n' !in e.name
    ensures var frame := FrameOf(e);
      |frame| >= 2 && NoBlankLine(frame[..|frame| - 1]) && frame[|frame| - 2] == frame[|frame| - 1] == '\n'
  {
    var header, body := "event: " + e.name + "\n", DataLines(Split(e.data));
    DataLinesNoBlankLine(Split(e.data));
    NoBlankLineConcat(header, body);
    assert FrameOf(e)[..|FrameOf(e)| - 1] == header + body;
    DataLinesEnd(Split(e.data));
  }

  lemma {:induction false} DataLinesEnd(lines: seq<string>)
    requires lines != []
    ensures DataLines(lines) != "" && DataLines(lines)[|DataLines(lines)| - 1] == '\n'
  {
    if |lines| > 1 {
      DataLinesEnd(lines[1..]);
    }
  }
}
