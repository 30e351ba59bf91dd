/**
 The text of GET /metrics, the load tester's reader of it, and the reader in the
 dashboard's script.
 */
module MetricsText {
  import opened Prelude
  import opened Sse
  import opened Metrics

  // ----- Printing -----

  function Digits(n: nat): (s: string)
    ensures s != "" && forall i :: 0 <= i < |s| ==> '0' <= s[i] <= '9'
  {
    var last := [('0' as int + n % 10) as char];
    if n < 10 then last else Digits(n / 10) + last
  }

  /** %d */
  function Decimal(n: int): string {
    if n < 0 then "-" + Digits(-n) else Digits(n)
  }

  function Line(name: string, value: int): string {
    name + " " + Decimal(value)
  }

  const NAMES: seq<string> := ["checks_total", "checks_in_flight", "checks_failures", "uptime_seconds"]

  function LinesFor(names: seq<string>, values: seq<int>): (lines: seq<string>)
    requires |names| == |values|
    ensures |lines| == |names|
  {
    if names == [] then [] else [Line(names[0], values[0])] + LinesFor(names[1..], values[1..])
  }

  /** The page for the four values, which the handler reads one after the other. */
  function Page(values: seq<int>): string
    requires |values| == 4
  {
    Unlines(LinesFor(NAMES, values))
  }

  /**
   The handler's four writes.  It loads one counter after the other, and checks
   may start and finish in between: `first` and `second` are the updates after
   the first and after the second load.
   */
  method Serve(m: Recorder, first: seq<Update>, second: seq<Update>, uptimeSeconds: int) returns (body: string)
    modifies m
    ensures var before := old(m.View()); var between := Updated(before, first); var after := Updated(between, second);
      && m.View() == after && body == Page([before.total, between.inFlight, after.failed, uptimeSeconds])
      && Reads(body, "checks_total", before.total) && Reads(body, "checks_in_flight", between.inFlight)
      && Reads(body, "checks_failures", after.failed) && Reads(body, "uptime_seconds", uptimeSeconds)
  {
    var total := m.checksTotal;
    body := Line("checks_total", total) + "\n";
    m.LetOthers(first);
    var inFlight := m.checksInFlight;
    body := body + (Line("checks_in_flight", inFlight) + "\n");
    m.LetOthers(second);
    body := body + (Line("checks_failures", m.checksFailed) + "\n");
    body := body + (Line("uptime_seconds", uptimeSeconds) + "\n");
    PageOfFour("checks_total", "checks_in_flight", "checks_failures", "uptime_seconds",
               total, inFlight, m.checksFailed, uptimeSeconds);
    PageReadsAll([total, inFlight, m.checksFailed, uptimeSeconds]);
  }

  /** The load tester's reader finds the 64-bit value under the name, and the dashboard's script its digits. */
  ghost predicate Reads(body: string, name: string, value: int) {
    && (-0x8000_0000_0000_0000 <= value <= 0x7FFF_FFFF_FFFF_FFFF ==> ReadLines(Split(body), name) == Ok(value))
    && name in ScriptLines(Split(body)) && ScriptLines(Split(body))[name] == Decimal(value)
  }

  lemma PageReadsAll(values: seq<int>)
    requires |values| == 4
    ensures Reads(Page(values), "checks_total", values[0]) && Reads(Page(values), "checks_in_flight", values[1])
    ensures Reads(Page(values), "checks_failures", values[2]) && Reads(Page(values), "uptime_seconds", values[3])
  {
    PageRoundTrip(values, 0);
    PageRoundTrip(values, 1);
    PageRoundTrip(values, 2);
    PageRoundTrip(values, 3);
    var body := Page(values);
    assert Reads(body, NAMES[0], values[0]) && Reads(body, NAMES[1], values[1]);
    assert Reads(body, NAMES[2], values[2]) && Reads(body, NAMES[3], values[3]);
  }

  lemma PageOfFour(a: string, b: string, c: string, d: string, w: int, x: int, y: int, z: int)
    ensures Unlines(LinesFor([a, b, c, d], [w, x, y, z])) ==
      (Line(a, w) + "\n") + (Line(b, x) + "\n") + (Line(c, y) + "\n") + (Line(d, z) + "\n")
  {
    PageOfTwo(c, d, y, z);
    PageStep(b, x, [c, d], [y, z]);
    PageStep(a, w, [b, c, d], [x, y, z]);
    assert [a] + [b, c, d] == [a, b, c, d] && [b] + [c, d] == [b, c, d];
    assert [w] + [x, y, z] == [w, x, y, z] && [x] + [y, z] == [x, y, z];
    Associate(Line(a, w) + "\n", Line(b, x) + "\n", Line(c, y) + "\n", Line(d, z) + "\n");
  }

  lemma PageOfTwo(c: string, d: string, y: int, z: int)
    ensures Unlines(LinesFor([c, d], [y, z])) == (Line(c, y) + "\n") + (Line(d, z) + "\n")
  {
    PageStep(c, y, [d], [z]);
    PageStep(d, z, [], []);
    assert [c] + [d] == [c, d] && [y] + [z] == [y, z];
    assert [d] + [] == [d] && [z] + [] == [z];
    assert Line(d, z) + "\n" + "" == Line(d, z) + "\n";
  }

  lemma Associate(a: string, b: string, c: string, d: string)
    ensures a + (b + (c + d)) == a + b + c + d
  {
  }

  lemma PageStep(name: string, value: int, names: seq<string>, values: seq<int>)
    requires |names| == |values|
    ensures Unlines(LinesFor([name] + names, [value] + values)) == Line(name, value) + "\n" + Unlines(LinesFor(names, values))
  {
    assert ([name] + names)[1..] == names && ([value] + values)[1..] == values;
    var lines := [Line(name, value)] + LinesFor(names, values);
    assert lines[1..] == LinesFor(names, values);
  }

  // ----- Reading -----

  /** unicode.IsSpace */
  predicate IsSpace(ch: char) {
    || ch == ' ' || '\t' <= ch <= '\r' || ch == '\U{85}' || ch == '\U{A0}'
    || ch == '\U{1680}' || '\U{2000}' <= ch <= '\U{200A}' || ch == '\U{2028}' || ch == '\U{2029}'
    || ch == '\U{202F}' || ch == '\U{205F}' || ch == '\U{3000}'
  }

  function WordEnd(s: string): (k: nat)
    ensures k <= |s|
    ensures forall i :: 0 <= i < k ==> !IsSpace(s[i])
    ensures k < |s| ==> IsSpace(s[k])
  {
    if s == "" || IsSpace(s[0]) then 0 else 1 + WordEnd(s[1..])
  }

  /** strings.Fields */
  function Fields(s: string): seq<string>
    decreases |s|
  {
    if s == "" then []
    else if IsSpace(s[0]) then Fields(s[1..])
    else [s[..WordEnd(s)]] + Fields(s[WordEnd(s)..])
  }

  const INT64_MIN: int := -0x8000_0000_0000_0000
  const INT64_MAX: int := 0x7FFF_FFFF_FFFF_FFFF

  function DigitsValue(s: string): Option<nat> {
    if s == "" then Some(0)
    else
      var last := s[|s| - 1];
      var rest := DigitsValue(s[..|s| - 1]);
      if '0' <= last <= '9' && rest.Some? then Some(10 * rest.value + (last as int - '0' as int)) else None
  }

  function Signed(negative: bool, digits: string): Result<int> {
    if digits == "" || DigitsValue(digits).None? then Err("invalid syntax")
    else
      var magnitude: int := DigitsValue(digits).value;
      var n := if negative then -magnitude else magnitude;
      if INT64_MIN <= n <= INT64_MAX then Ok(n) else Err("value out of range")
  }

  /** strconv.ParseInt(s, 10, 64) */
  function ParseInt(s: string): Result<int> {
    if s != "" && s[0] == '-' then Signed(true, s[1..])
    else if s != "" && s[0] == '+' then Signed(false, s[1..])
    else Signed(false, s)
  }

  predicate Names(line: string, name: string) {
    |Fields(line)| == 2 && Fields(line)[0] == name
  }

  function ReadLines(lines: seq<string>, name: string): Result<int> {
    if lines == [] then Err("not found in /metrics")
    else if Names(lines[0], name) then ParseInt(Fields(lines[0])[1])
    else ReadLines(lines[1..], name)
  }

  /** The first line of exactly two fields of which the first is the name decides; without one there is an error. */
  ghost predicate FirstMatch(lines: seq<string>, name: string, r: Result<int>) {
    && (forall k :: 0 <= k < |lines| && |Fields(lines[k])| == 2 && Fields(lines[k])[0] == name &&
          (forall j :: 0 <= j < k ==> !(|Fields(lines[j])| == 2 && Fields(lines[j])[0] == name))
          ==> r == ParseInt(Fields(lines[k])[1]))
    && ((forall j :: 0 <= j < |lines| ==> !(|Fields(lines[j])| == 2 && Fields(lines[j])[0] == name)) ==> r.Err?)
  }

  lemma {:induction false} ReadsFirstMatch(lines: seq<string>, name: string)
    ensures FirstMatch(lines, name, ReadLines(lines, name))
  {
    if lines != [] && !Names(lines[0], name) {
      ReadsFirstMatch(lines[1..], name);
      var rest := lines[1..];
      assert forall j :: 0 < j < |lines| ==> lines[j] == rest[j - 1];
      assert forall j :: 0 <= j < |rest| ==> rest[j] == lines[j + 1];
    }
  }

  /** readMetric, from the response on: the first line of two fields that starts with the name. */
  method ReadMetric(response: Result<(int, string)>, name: string) returns (r: Result<int>)
    ensures response.Err? ==> r == Err(response.error)
    ensures response.Ok? && response.value.0 != 200 ==> r.Err?
    ensures response.Ok? && response.value.0 == 200 ==> r == ReadLines(Split(response.value.1), name)
    ensures response.Ok? && response.value.0 == 200 ==> FirstMatch(Split(response.value.1), name, r)
  {
    if response.Err? {
      return Err(response.error);
    }
    var (status, body) := response.value;
    if status != 200 {
      return Err("GET /metrics: status " + Decimal(status));
    }
    var lines := Split(body);
    ReadsFirstMatch(lines, name);
    for i := 0 to |lines|
      invariant ReadLines(lines, name) == ReadLines(lines[i..], name)
    {
      var fields := Fields(lines[i]);
      if |fields| == 2 && fields[0] == name {
        return ParseInt(fields[1]);
      }
    }
    return Err("not found in /metrics");
  }

  /** The script's reader: everything after the first space of a line, by what is before it. */
  function ScriptLines(lines: seq<string>): map<string, string> {
    if lines == [] then map[]
    else
      var i := FirstSpace(lines[0]);
      (if i < |lines[0]| then map[lines[0][..i] := lines[0][i + 1..]] else map[]) + ScriptLines(lines[1..])
  }

  function FirstSpace(s: string): (i: nat)
    ensures i <= |s| && (i < |s| ==> s[i] == ' ')
  {
    if s == "" || s[0] == ' ' then 0 else 1 + FirstSpace(s[1..])
  }

  // ----- Round trips -----

  lemma {:induction false} DigitsRoundTrip(n: nat)
    ensures DigitsValue(Digits(n)) == Some(n)
  {
    var last := [('0' as int + n % 10) as char];
    if n < 10 {
      assert last[..0] == "";
    } else {
      DigitsRoundTrip(n / 10);
      assert (Digits(n / 10) + last)[..|Digits(n / 10)|] == Digits(n / 10);
    }
  }

  /** %d prints no leading zero, and a sign only for negative numbers. */
  lemma {:induction false} DigitsPlain(n: nat)
    ensures |Digits(n)| > 1 ==> Digits(n)[0] != '0'
    ensures n > 0 ==> Digits(n)[0] != '0'
  {
    if n >= 10 {
      DigitsPlain(n / 10);
    }
  }

  lemma ParseDecimal(n: int)
    ensures ParseInt(Decimal(n)) == Signed(n < 0, if n < 0 then Digits(-n) else Digits(n))
  {
    if n < 0 {
      var s := "-" + Digits(-n);
      assert s[0] == '-' && s[1..] == Digits(-n);
    } else {
      assert '0' <= Digits(n)[0] <= '9';
    }
  }

  lemma {:induction false} ValueNeedsDigits(s: string)
    requires DigitsValue(s).Some?
    ensures forall i :: 0 <= i < |s| ==> '0' <= s[i] <= '9'
  {
    if s != "" {
      ValueNeedsDigits(s[..|s| - 1]);
      assert forall i :: 0 <= i < |s| - 1 ==> s[i] == s[..|s| - 1][i];
    }
  }

  /** ParseInt accepts an optional sign followed by digits, at least one, and nothing else. */
  lemma ParseIntSyntax(s: string)
    requires ParseInt(s).Ok?
    ensures var digits := if s != "" && (s[0] == '-' || s[0] == '+') then s[1..] else s;
      digits != "" && forall i :: 0 <= i < |digits| ==> '0' <= digits[i] <= '9'
  {
    ValueNeedsDigits(if s != "" && (s[0] == '-' || s[0] == '+') then s[1..] else s);
  }

  /** ParseInt undoes %d exactly on the 64-bit integers. */
  lemma ParseIntIff(n: int)
    ensures ParseInt(Decimal(n)) == Ok(n) <==> INT64_MIN <= n <= INT64_MAX
  {
    ParseDecimal(n);
    DigitsRoundTrip(if n < 0 then -n else n);
  }

  lemma {:induction false} SplitUnlines(lines: seq<string>)
    requires forall i :: 0 <= i < |lines| ==> '\n' !in lines[i]
    ensures Split(Unlines(lines)) == lines + [""]
  {
    if lines != [] {
      SplitUnlines(lines[1..]);
      SplitFirst(lines[0], Unlines(lines[1..]));
      assert lines == [lines[0]] + lines[1..];
    }
  }

  predicate Word(s: string) {
    s != "" && forall i :: 0 <= i < |s| ==> !IsSpace(s[i])
  }

  lemma {:induction false} WordEndIs(s: string, k: nat)
    requires k <= |s| && (forall i :: 0 <= i < k ==> !IsSpace(s[i])) && (k < |s| ==> IsSpace(s[k]))
    ensures WordEnd(s) == k
  {
    if k > 0 {
      WordEndIs(s[1..], k - 1);
    }
  }

  lemma FieldsOfWord(s: string)
    requires Word(s)
    ensures Fields(s) == [s]
  {
    WordEndIs(s, |s|);
    assert s[..|s|] == s && s[|s|..] == "";
  }

  lemma FieldsOfLine(name: string, value: string)
    requires Word(name) && Word(value)
    ensures Fields(name + " " + value) == [name, value]
  {
    var line := name + " " + value;
    WordEndIs(line, |name|);
    assert line[..|name|] == name && line[|name|..] == " " + value && (" " + value)[1..] == value;
    FieldsOfWord(value);
  }

  lemma DecimalIsWord(n: int)
    ensures Word(Decimal(n)) && '\n' !in Decimal(n)
  {
    var s := Decimal(n);
    forall i | 0 <= i < |s|
      ensures !IsSpace(s[i]) && s[i] != '\n'
    {
      if n < 0 && i > 0 {
        assert s[i] == Digits(-n)[i - 1];
      }
    }
  }

  lemma LineReads(name: string, value: int)
    requires Word(name) && '\n' !in name
    ensures Fields(Line(name, value)) == [name, Decimal(value)] && '\n' !in Line(name, value)
    ensures ScriptLines([Line(name, value)]) == map[name := Decimal(value)]
  {
    DecimalIsWord(value);
    FieldsOfLine(name, Decimal(value));
    var line := Line(name, value);
    FirstSpaceIs(line, |name|);
    assert line[..|name|] == name && line[|name| + 1..] == Decimal(value);
    var single: seq<string> := [line];
    assert single[1..] == [];
  }

  lemma {:induction false} FirstSpaceIs(s: string, k: nat)
    requires k < |s| && s[k] == ' ' && forall i :: 0 <= i < k ==> s[i] != ' '
    ensures FirstSpace(s) == k
  {
    if k > 0 {
      FirstSpaceIs(s[1..], k - 1);
    }
  }

  ghost predicate GoodNames(names: seq<string>) {
    && (forall i :: 0 <= i < |names| ==> Word(names[i]) && '\n' !in names[i])
    && (forall i, j :: 0 <= i < j < |names| ==> names[i] != names[j])
  }

  lemma {:induction false} LinesAreLines(names: seq<string>, values: seq<int>)
    requires |names| == |values| && GoodNames(names)
    ensures forall i :: 0 <= i < |names| ==> '\n' !in LinesFor(names, values)[i]
  {
    if names != [] {
      LineReads(names[0], values[0]);
      LinesAreLines(names[1..], values[1..]);
    }
  }

  /** The page's lines, one step at a time. */
  lemma FirstLine(names: seq<string>, values: seq<int>)
    requires |names| == |values| && GoodNames(names) && names != []
    ensures GoodNames(names[1..])
    ensures var lines := LinesFor(names, values) + [""];
      lines[0] == Line(names[0], values[0]) && lines[1..] == LinesFor(names[1..], values[1..]) + [""]
    ensures Fields(Line(names[0], values[0])) == [names[0], Decimal(values[0])]
    ensures ScriptLines([Line(names[0], values[0])]) == map[names[0] := Decimal(values[0])]
  {
    LineReads(names[0], values[0]);
  }

  lemma {:induction false} PageReads(names: seq<string>, values: seq<int>, k: nat)
    requires |names| == |values| && GoodNames(names) && k < |names|
    ensures ReadLines(LinesFor(names, values) + [""], names[k]) == ParseInt(Decimal(values[k]))
  {
    FirstLine(names, values);
    if k > 0 {
      assert names[0] != names[k];
      PageReads(names[1..], values[1..], k - 1);
    }
  }

  /** The script's map has an entry for every name, and no other. */
  ghost predicate Shows(m: map<string, string>, names: seq<string>, values: seq<int>)
    requires |names| == |values|
  {
    && (forall i :: 0 <= i < |names| ==> names[i] in m && m[names[i]] == Decimal(values[i]))
    && (forall key :: key in m ==> key in names)
  }

  lemma {:induction false} PageScript(names: seq<string>, values: seq<int>)
    requires |names| == |values| && GoodNames(names)
    ensures Shows(ScriptLines(LinesFor(names, values) + [""]), names, values)
  {
    var lines := LinesFor(names, values) + [""];
    if names == [] {
      assert lines[0] == "" && lines[1..] == [];
    } else {
      FirstLine(names, values);
      ScriptFirst(lines);
      PageScript(names[1..], values[1..]);
      ShowsFirst(ScriptLines(lines[1..]), names, values);
    }
  }

  lemma ShowsFirst(rest: map<string, string>, names: seq<string>, values: seq<int>)
    requires |names| == |values| && GoodNames(names) && names != [] && Shows(rest, names[1..], values[1..])
    ensures Shows(map[names[0] := Decimal(values[0])] + rest, names, values)
  {
    var m := map[names[0] := Decimal(values[0])] + rest;
    assert names[0] !in rest;
    forall i | 0 <= i < |names|
      ensures names[i] in m && m[names[i]] == Decimal(values[i])
    {
      if i > 0 {
        assert names[1..][i - 1] == names[i] && values[1..][i - 1] == values[i];
      }
    }
  }

  lemma ScriptFirst(lines: seq<string>)
    requires lines != []
    ensures ScriptLines(lines) == ScriptLines([lines[0]]) + ScriptLines(lines[1..])
  {
    var single: seq<string> := [lines[0]];
    assert single[1..] == [];
    assert ScriptLines(single) == ScriptLines(single) + map[];
  }

  lemma TotalIsWord()
    ensures Word("checks_total") && '\n' !in "checks_total" && |"checks_total"| == 12
  {
  }

  lemma InFlightIsWord()
    ensures Word("checks_in_flight") && '\n' !in "checks_in_flight" && |"checks_in_flight"| == 16
  {
  }

  lemma FailuresIsWord()
    ensures Word("checks_failures") && '\n' !in "checks_failures" && |"checks_failures"| == 15
  {
  }

  lemma UptimeIsWord()
    ensures Word("uptime_seconds") && '\n' !in "uptime_seconds" && |"uptime_seconds"| == 14
  {
  }

  lemma FourAreGood(a: string, b: string, c: string, d: string)
    requires Word(a) && Word(b) && Word(c) && Word(d) && |a| < |d| < |c| < |b|
    requires '\n' !in a && '\n' !in b && '\n' !in c && '\n' !in d
    ensures GoodNames([a, b, c, d])
  {
  }

  lemma NamesAreGood()
    ensures GoodNames(NAMES)
  {
    TotalIsWord();
    InFlightIsWord();
    FailuresIsWord();
    UptimeIsWord();
    FourAreGood("checks_total", "checks_in_flight", "checks_failures", "uptime_seconds");
  }

  /**
   The metrics round trip: for any four 64-bit values both readers get back, from
   the page, exactly what was printed under each name.
   */
  lemma PageRoundTrip(values: seq<int>, k: nat)
    requires |values| == 4 && k < 4
    ensures ReadLines(Split(Page(values)), NAMES[k]) == Ok(values[k]) <==> INT64_MIN <= values[k] <= INT64_MAX
    ensures Shows(ScriptLines(Split(Page(values))), NAMES, values)
  {
    NamesAreGood();
    LinesAreLines(NAMES, values);
    SplitUnlines(LinesFor(NAMES, values));
    ParseIntIff(values[k]);
    PageReads(NAMES, values, k);
    PageScript(NAMES, values);
  }
}
