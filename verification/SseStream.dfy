/**
 The printer and the parser together: what a browser's EventSource makes of the
 bytes that the server writes to GET /events.
 */
module SseStream {
  import opened Prelude
  import opened Sse
  import opened EventSource

  /** What the writer loop writes: a frame or the heartbeat comment. */
  datatype Item = Published(e: Event) | Ping

  const PING := ": ping\n\n"

  function Bytes(item: Item): string {
    match item
    case Published(e) => FrameOf(e)
    case Ping => PING
  }

  function Wire(items: seq<Item>): string {
    if items == [] then "" else Bytes(items[0]) + Wire(items[1..])
  }

  function MessageOf(e: Event): Message {
    Message(e.name, e.data, "")
  }

  function Carries(item: Item): seq<Message> {
    match item
    case Published(e) => [MessageOf(e)]
    case Ping => []
  }

  function Messages(items: seq<Item>): seq<Message> {
    if items == [] then [] else Carries(items[0]) + Messages(items[1..])
  }

  ghost predicate AllClean(items: seq<Item>) {
    forall i :: 0 <= i < |items| && items[i].Published? ==> Clean(items[i].e)
  }

  /** Between two items: nothing buffered, no id ever seen. */
  predicate Ready(p: Parser) {
    p.line == "" && !p.afterCR && p.kind == "" && p.data == "" && p.lastEventId == ""
  }

  // ----- One frame -----

  lemma {:induction false} IndexOfFirst(before: string, ch: char, after: string)
    requires ch !in before
    ensures IndexOf(before + [ch] + after, ch) == |before|
  {
    var s := before + [ch] + after;
    if before != "" {
      assert s[1..] == before[1..] + [ch] + after;
      assert s[0] == before[0];
      IndexOfFirst(before[1..], ch, after);
    }
  }

  lemma ProcessNamedField(p: Parser, field: string, value: string)
    requires field == "event" || field == "data"
    ensures ProcessLine(p, field + ": " + value) == ProcessField(p, field, value)
  {
    var line := field + ": " + value;
    assert line == field + [':'] + (" " + value);
    IndexOfFirst(field, ':', " " + value);
    assert line[..|field|] == field && line[|field| + 1..] == " " + value;
    assert (" " + value)[1..] == value;
  }

  lemma {:induction false} FeedDataLines(p: Parser, lines: seq<string>)
    requires p.line == "" && !p.afterCR
    requires forall i :: 0 <= i < |lines| ==> Unbroken(lines[i])
    ensures Feed(p, DataLines(lines)) == p.(data := p.data + Unlines(lines))
    decreases |lines|
  {
    if lines == [] {
      assert p.data + "" == p.data;
    } else {
      FeedDataLine(p, lines[0]);
      DataLinesParts(lines);
      FeedConcat(p, "data" + ": " + lines[0] + "\n", DataLines(lines[1..]));
      FeedDataLines(p.(data := p.data + lines[0] + "\n"), lines[1..]);
      Regroup(p.data, lines[0] + "\n", Unlines(lines[1..]));
      Regroup(p.data, lines[0], "\n");
    }
  }

  lemma FeedDataLine(p: Parser, line: string)
    requires p.line == "" && !p.afterCR && Unbroken(line)
    ensures Feed(p, "data" + ": " + line + "\n") == p.(data := p.data + line + "\n")
  {
    FeedLine(p, "data" + ": " + line, "\n");
    ProcessNamedField(p, "data", line);
  }

  lemma DataLinesParts(lines: seq<string>)
    requires lines != []
    ensures DataLines(lines) == ("data" + ": " + lines[0] + "\n") + DataLines(lines[1..])
  {
    assert "data: " == "data" + ": ";
  }

  /** Everything of a frame but its last byte leaves the event in the buffers. */
  lemma FeedFrameBody(p: Parser, e: Event)
    requires Ready(p) && Clean(e)
    ensures var frame := FrameOf(e);
      frame != "" && Feed(p, frame[..|frame| - 1]) == p.(kind := e.name, data := e.data + "\n")
  {
    var text, body := "event" + ": " + e.name, DataLines(Split(e.data));
    FrameParts(e);
    FeedConcat(p, text + "\n", body);
    FeedLine(p, text, "\n");
    ProcessNamedField(p, "event", e.name);
    SplitKeepsText(e.data);
    FeedDataLines(p.(kind := e.name), Split(e.data));
    assert "" + (e.data + "\n") == e.data + "\n";
  }

  lemma FrameParts(e: Event)
    ensures var frame := FrameOf(e);
      frame != "" && frame[..|frame| - 1] == ("event" + ": " + e.name + "\n") + DataLines(Split(e.data))
  {
    assert "event: " == "event" + ": ";
  }

  lemma FeedFrame(p: Parser, e: Event)
    requires Ready(p) && Clean(e)
    ensures Feed(p, FrameOf(e)) == p.(messages := p.messages + [MessageOf(e)])
  {
    var frame := FrameOf(e);
    FeedFrameBody(p, e);
    assert frame == frame[..|frame| - 1] + "\n";
    FeedConcat(p, frame[..|frame| - 1], "\n");
    var q := p.(kind := e.name, data := e.data + "\n");
    FeedLine(q, "", "\n");
    assert "" + "\n" == "\n";
    assert q.data[..|q.data| - 1] == e.data;
  }

  lemma FeedPing(p: Parser)
    requires Ready(p)
    ensures Feed(p, PING[..|PING| - 1]) == p && Feed(p, PING) == p
  {
    PingParts();
    FeedComment(p, ": ping");
    FeedConcat(p, ": ping" + "\n", "\n");
    FeedBlank(p);
  }

  lemma FeedComment(p: Parser, text: string)
    requires Ready(p) && Unbroken(text) && text != "" && text[0] == ':'
    ensures Feed(p, text + "\n") == p
  {
    FeedLine(p, text, "\n");
  }

  /** A blank line with nothing in the data buffer delivers nothing. */
  lemma FeedBlank(p: Parser)
    requires Ready(p)
    ensures Feed(p, "\n") == p
  {
    FeedLine(p, "", "\n");
    assert "" + "\n" == "\n";
  }

  lemma PingParts()
    ensures PING[..|PING| - 1] == ": ping" + "\n" && PING == (": ping" + "\n") + "\n"
  {
  }

  lemma FeedItem(p: Parser, item: Item)
    requires Ready(p) && (item.Published? ==> Clean(item.e))
    ensures Bytes(item) != ""
    ensures Feed(p, Bytes(item)) == p.(messages := p.messages + Carries(item))
    ensures Feed(p, Bytes(item)[..|Bytes(item)| - 1]).messages == p.messages
  {
    match item
    case Published(e) =>
      FeedFrame(p, e);
      FeedFrameBody(p, e);
    case Ping =>
      FeedPing(p);
      assert p.messages + [] == p.messages;
  }

  // ----- The whole stream -----

  lemma MessagesSplit(items: seq<Item>, k: nat)
    requires 0 < k <= |items|
    ensures Messages(items[..k]) == Carries(items[0]) + Messages(items[1..][..k - 1])
  {
    assert items[..k][1..] == items[1..][..k - 1];
  }

  function Deliver(p: Parser, messages: seq<Message>): Parser {
    p.(messages := p.messages + messages)
  }

  lemma DeliverTwice(p: Parser, first: seq<Message>, second: seq<Message>)
    ensures Deliver(Deliver(p, first), second) == Deliver(p, first + second) && Deliver(p, []) == p
  {
    assert p.messages + first + second == p.messages + (first + second);
    assert p.messages + [] == p.messages;
  }

  lemma {:induction false} FeedWire(p: Parser, items: seq<Item>)
    requires Ready(p) && AllClean(items)
    ensures Feed(p, Wire(items)) == Deliver(p, Messages(items))
    decreases |items|
  {
    if items == [] {
      DeliverTwice(p, [], []);
    } else {
      hide Feed, Bytes, Carries;
      var first := Carries(items[0]);
      FeedConcat(p, Bytes(items[0]), Wire(items[1..]));
      FeedItem(p, items[0]);
      FeedWire(Deliver(p, first), items[1..]);
      DeliverTwice(p, first, Messages(items[1..]));
      MessagesSplit(items, |items|);
      assert items[..|items|] == items && items[1..][..|items| - 1] == items[1..];
    }
  }

  /** The stream round trip, for any cutting of the stream into chunks. */
  lemma StreamRoundTrip(items: seq<Item>, chunks: seq<string>)
    requires AllClean(items) && Flatten(chunks) == Wire(items)
    ensures FeedChunks(FRESH, chunks).messages == Messages(items)
  {
    ChunkingIrrelevant(FRESH, chunks);
    FeedWire(FRESH, items);
    assert [] + Messages(items) == Messages(items);
  }

  /** The round trip of a single event holds exactly for clean events. */
  lemma RoundTripIff(e: Event)
    ensures Feed(FRESH, FrameOf(e)).messages == [MessageOf(e)] <==> Clean(e)
  {
    if Clean(e) {
      FeedFrame(FRESH, e);
    } else {
      FeedClean(FRESH, FrameOf(e));
      var delivered := Feed(FRESH, FrameOf(e)).messages;
      if |delivered| == 1 {
        assert CleanMessage(delivered[0]);
        assert !CleanMessage(MessageOf(e));
      }
    }
  }

  // ----- Truncation -----

  lemma Truncated(p: Parser, input: string, n: nat)
    requires CleanParser(p) && n <= |input|
    ensures Feed(p, input[..n]).messages <= Feed(p, input).messages
  {
    assert input == input[..n] + input[n..];
    FeedConcat(p, input[..n], input[n..]);
    FeedClean(p, input[..n]);
    FeedClean(Feed(p, input[..n]), input[n..]);
  }

  /** A proper prefix of an item delivers nothing. */
  lemma ProperPrefixSilent(p: Parser, item: Item, n: nat)
    requires Ready(p) && CleanParser(p) && (item.Published? ==> Clean(item.e)) && n < |Bytes(item)|
    ensures Feed(p, Bytes(item)[..n]).messages == p.messages
  {
    FeedItem(p, item);
    var most := Bytes(item)[..|Bytes(item)| - 1];
    assert most[..n] == Bytes(item)[..n];
    Truncated(p, most, n);
    FeedClean(p, most[..n]);
  }

  /** The items that a prefix of n bytes contains to their end. */
  function Whole(items: seq<Item>, n: nat): (k: nat)
    ensures k <= |items|
  {
    if items == [] || n < |Bytes(items[0])| then 0 else 1 + Whole(items[1..], n - |Bytes(items[0])|)
  }

  lemma WirePrefix(first: string, rest: string, n: nat)
    requires |first| <= n <= |first + rest|
    ensures (first + rest)[..n] == first + rest[..n - |first|]
  {
  }

  lemma WirePrefixShort(first: string, rest: string, n: nat)
    requires n <= |first|
    ensures (first + rest)[..n] == first[..n]
  {
  }

  lemma FeedItemThen(p: Parser, item: Item, more: string)
    requires Ready(p) && CleanParser(p) && (item.Published? ==> Clean(item.e))
    ensures Feed(p, Bytes(item) + more) == Feed(Deliver(p, Carries(item)), more)
    ensures CleanParser(Deliver(p, Carries(item)))
  {
    FeedConcat(p, Bytes(item), more);
    FeedItem(p, item);
    FeedClean(p, Bytes(item));
  }

  lemma {:induction false} FeedPrefix(p: Parser, items: seq<Item>, n: nat)
    requires Ready(p) && CleanParser(p) && AllClean(items) && n <= |Wire(items)|
    ensures Feed(p, Wire(items)[..n]).messages == Deliver(p, Messages(items[..Whole(items, n)])).messages
    decreases |items|
  {
    if items == [] || n < |Bytes(items[0])| {
      assert items[..0] == [];
      DeliverTwice(p, [], []);
      if items != [] {
        WirePrefixShort(Bytes(items[0]), Wire(items[1..]), n);
        ProperPrefixSilent(p, items[0], n);
      }
    } else {
      hide Feed, Bytes, Carries, CleanParser;
      var rest, m := items[1..], n - |Bytes(items[0])|;
      WirePrefix(Bytes(items[0]), Wire(rest), n);
      FeedItemThen(p, items[0], Wire(rest)[..m]);
      FeedPrefix(Deliver(p, Carries(items[0])), rest, m);
      DeliverTwice(p, Carries(items[0]), Messages(rest[..Whole(rest, m)]));
      MessagesSplit(items, 1 + Whole(rest, m));
    }
  }

  /** Truncation safety: of every prefix of a stream exactly the events whose blank line arrived are delivered. */
  lemma TruncationSafe(items: seq<Item>, n: nat)
    requires AllClean(items) && n <= |Wire(items)|
    ensures Feed(FRESH, Wire(items)[..n]).messages == Messages(items[..Whole(items, n)])
    ensures Messages(items[..Whole(items, n)]) <= Messages(items)
  {
    FeedPrefix(FRESH, items, n);
    assert [] + Messages(items[..Whole(items, n)]) == Messages(items[..Whole(items, n)]);
    FeedWire(FRESH, items);
    assert [] + Messages(items) == Messages(items);
    Truncated(FRESH, Wire(items), n);
  }

  /** No frame is a proper prefix of another, and different events have different frames. */
  lemma FramesPrefixFree(e1: Event, e2: Event)
    requires Clean(e1) && Clean(e2) && FrameOf(e1) <= FrameOf(e2)
    ensures e1 == e2
  {
    var n := |FrameOf(e1)|;
    assert FrameOf(e2)[..n] == FrameOf(e1);
    FeedFrame(FRESH, e1);
    FeedFrame(FRESH, e2);
    assert (FRESH.messages + [MessageOf(e1)])[0] == MessageOf(e1);
    assert (FRESH.messages + [MessageOf(e2)])[0] == MessageOf(e2);
    if n < |FrameOf(e2)| {
      ProperPrefixSilent(FRESH, Published(e2), n);
      assert false;
    } else {
      assert FrameOf(e1) == FrameOf(e2);
    }
  }
}
