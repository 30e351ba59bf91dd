/**
 The hub and its clients as the objects that the server mutates, and the writer
 loop of GET /events.  Every method is proved against the step system of Hub.
 */
module HubObjects {
  import opened Prelude
  import opened Sse
  import opened EventSource
  import opened SseStream
  import H = Hub

  function Frames(events: seq<Event>): seq<string> {
    seq(|events|, i requires 0 <= i < |events| => FrameOf(events[i]))
  }

  /** A buffered channel of frames; `abs` is its history in terms of events. */
  class Client {
    const cap: nat
    var buf: seq<string>
    ghost var abs: H.Channel

    ghost predicate Valid()
      reads this
    {
      abs.cap == cap && buf == Frames(abs.buf) && H.Conserved(abs)
    }

    constructor (cap: nat)
      ensures Valid() && abs == H.Open(cap) && this.cap == cap
    {
      this.cap := cap;
      buf := [];
      abs := H.Open(cap);
    }

    /** The select with a default case: send if there is room, else drop. */
    method Offer(frame: string, ghost e: Event)
      requires Valid() && frame == FrameOf(e)
      modifies this
      ensures Valid() && abs == H.Offered(old(abs), e)
      ensures buf == if |old(buf)| < cap then old(buf) + [frame] else old(buf)
    {
      H.OfferedConserved(abs, e);
      if |buf| < cap {
        buf := buf + [frame];
      }
      abs := H.Offered(abs, e);
    }

    /** None: nothing is buffered, so a receive would block. */
    method Receive() returns (frame: Option<string>)
      requires Valid()
      modifies this
      ensures Valid()
      ensures frame.None? <==> old(abs).buf == []
      ensures frame.None? ==> abs == old(abs)
      ensures frame.Some? ==> frame.value == FrameOf(old(abs).buf[0]) && abs == H.Taken(old(abs))
    {
      if buf == [] {
        frame := None;
      } else {
        frame := Some(buf[0]);
        buf := buf[1..];
        H.TakenConserved(abs);
        abs := H.Taken(abs);
      }
    }
  }

  class Hub {
    var clients: set<Client>

    constructor ()
      ensures clients == {}
    {
      clients := {};
    }

    method Subscribe(ch: Client)
      modifies this
      ensures clients == old(clients) + {ch}
    {
      clients := clients + {ch};
    }

    method Unsubscribe(ch: Client)
      modifies this
      ensures clients == old(clients) - {ch}
    {
      clients := clients - {ch};
    }

    /** Visits the clients in an arbitrary order, as Go's map iteration does. */
    method Publish(ev: Event)
      requires forall ch :: ch in clients ==> ch.Valid()
      modifies clients
      ensures forall ch :: ch in clients ==> ch.Valid() && ch.abs == H.Offered(old(ch.abs), ev)
    {
      var frame := Frame(ev);
      var todo := clients;
      while todo != {}
        invariant todo <= clients
        invariant forall ch :: ch in clients ==> ch.Valid()
        invariant forall ch :: ch in clients - todo ==> ch.abs == H.Offered(old(ch.abs), ev)
        invariant forall ch :: ch in todo ==> ch.abs == old(ch.abs)
      {
        var ch :| ch in todo;
        ch.Offer(frame, ev);
        todo := todo - {ch};
      }
    }
  }

  // ----- One browser tab: the writer loop of GET /events -----

  /**
   What happens next around the loop: the request context ends, the heartbeat or
   the channel is ready and chosen (with the number of bytes written if the write
   fails), or another goroutine publishes.
   */
  datatype Pick = Gone | Beat(failed: Option<nat>) | FrameReady(failed: Option<nat>) | Elsewhere(e: Event)

  datatype Session = Session(ch: H.Channel, items: seq<Item>, wire: string, open: bool)

  const START := Session(H.Open(32), [], "", true)

  function Write(s: Session, item: Item, failed: Option<nat>): Session {
    var bytes := Bytes(item);
    match failed
    case None => s.(items := s.items + [item], wire := s.wire + bytes)
    case Some(n) =>
      s.(items := s.items + [item], wire := s.wire + (if n < |bytes| then bytes[..n] else bytes), open := false)
  }

  function Serve1(s: Session, pick: Pick): Session {
    if !s.open then s
    else match pick
      case Gone => s.(open := false)
      case Beat(failed) => Write(s, Ping, failed)
      case FrameReady(failed) =>
        if s.ch.buf == [] then s else Write(s.(ch := H.Taken(s.ch)), Published(s.ch.buf[0]), failed)
      case Elsewhere(e) => s.(ch := H.Offered(s.ch, e))
  }

  function Serve(picks: seq<Pick>): Session {
    if picks == [] then START else Serve1(Serve(picks[..|picks| - 1]), picks[|picks| - 1])
  }

  function OfferAll(ch: H.Channel, events: seq<Event>): H.Channel {
    if events == [] then ch
    else H.Offered(OfferAll(ch, events[..|events| - 1]), events[|events| - 1])
  }

  /** The events published while the loop is running. */
  function PublishedDuring(picks: seq<Pick>): seq<Event> {
    if picks == [] then []
    else
      var init, pick := picks[..|picks| - 1], picks[|picks| - 1];
      PublishedDuring(init) + (if pick.Elsewhere? && Serve(init).open then [pick.e] else [])
  }

  /** One turn of the loop. */
  method Turn(hub: Hub, ch: Client, pick: Pick, ghost s: Session) returns (out: string, open: bool)
    requires ch in hub.clients && (forall c :: c in hub.clients ==> c.Valid())
    requires s.open && s.ch == ch.abs
    modifies hub.clients
    ensures forall c :: c in hub.clients ==> c.Valid()
    ensures ch.abs == Serve1(s, pick).ch && s.wire + out == Serve1(s, pick).wire && open == Serve1(s, pick).open
    ensures forall c :: c in hub.clients - {ch} ==>
      c.abs == if pick.Elsewhere? then H.Offered(old(c.abs), pick.e) else old(c.abs)
  {
    out, open := "", true;
    assert s.wire + "" == s.wire;
    match pick {
      case Gone =>
        open := false;
      case Beat(failed) =>
        out := if failed.Some? && failed.value < |PING| then PING[..failed.value] else PING;
        open := failed.None?;
      case FrameReady(failed) =>
        var received := ch.Receive();
        if received.Some? {
          var frame := received.value;
          out := if failed.Some? && failed.value < |frame| then frame[..failed.value] else frame;
          open := failed.None?;
        }
      case Elsewhere(e) =>
        hub.Publish(e);
    }
  }

  /** The loop itself; it unsubscribes its channel whenever it returns. */
  method HandleEvents(hub: Hub, picks: seq<Pick>) returns (wire: string, ch: Client)
    requires forall c :: c in hub.clients ==> c.Valid()
    modifies hub, hub.clients
    ensures fresh(ch) && ch.Valid() && ch.abs == Serve(picks).ch && wire == Serve(picks).wire
    ensures hub.clients == if Serve(picks).open then old(hub.clients) + {ch} else old(hub.clients)
    ensures forall c :: c in hub.clients ==> c.Valid()
    ensures forall c :: c in old(hub.clients) ==> c.abs == OfferAll(old(c.abs), PublishedDuring(picks))
  {
    wire := "";
    ch := new Client(32);
    hub.Subscribe(ch);
    var i, open := 0, true;
    while i < |picks| && open
      invariant i <= |picks|
      invariant fresh(ch) && hub.clients == old(hub.clients) + {ch}
      invariant forall c :: c in hub.clients ==> c.Valid()
      invariant forall c :: c in old(hub.clients) ==> c.abs == OfferAll(old(c.abs), PublishedDuring(picks[..i]))
      invariant ch.abs == Serve(picks[..i]).ch && wire == Serve(picks[..i]).wire && open == Serve(picks[..i]).open
    {
      ServeStep(picks, i);
      var out;
      out, open := Turn(hub, ch, picks[i], Serve(picks[..i]));
      wire := wire + out;
      i := i + 1;
    }
    assert picks[..|picks|] == picks;
    if !open {
      ClosedStays(picks, i);
      hub.Unsubscribe(ch);
    }
  }

  lemma ServeStep(picks: seq<Pick>, i: nat)
    requires i < |picks| && Serve(picks[..i]).open
    ensures Serve(picks[..i + 1]) == Serve1(Serve(picks[..i]), picks[i])
    ensures forall ch ::
      OfferAll(ch, PublishedDuring(picks[..i + 1]))
      == (if picks[i].Elsewhere? then H.Offered(OfferAll(ch, PublishedDuring(picks[..i])), picks[i].e)
          else OfferAll(ch, PublishedDuring(picks[..i])))
  {
    assert picks[..i + 1][..i] == picks[..i];
    var published := PublishedDuring(picks[..i]);
    assert published + [] == published;
    if picks[i].Elsewhere? {
      assert (published + [picks[i].e])[..|published|] == published;
    }
  }

  lemma {:induction false} ClosedStays(picks: seq<Pick>, i: nat)
    requires i <= |picks| && !Serve(picks[..i]).open
    ensures Serve(picks) == Serve(picks[..i]) && PublishedDuring(picks) == PublishedDuring(picks[..i])
  {
    if i == |picks| {
      assert picks[..i] == picks;
    } else {
      var init := picks[..|picks| - 1];
      assert init[..i] == picks[..i];
      ClosedStays(init, i);
    }
  }

  // ----- What the tab gets -----

  function EventsIn(items: seq<Item>): seq<Event> {
    if items == [] then []
    else
      var last := items[|items| - 1];
      EventsIn(items[..|items| - 1]) + (if last.Published? then [last.e] else [])
  }

  ghost predicate Faithful(s: Session, published: seq<Event>) {
    && H.Conserved(s.ch) && H.All(s.ch.log) == published
    && EventsIn(s.items) == s.ch.received
    && s.wire <= Wire(s.items) && (s.open ==> s.wire == Wire(s.items))
  }

  lemma {:induction false} WireAppend(items: seq<Item>, item: Item)
    ensures Wire(items + [item]) == Wire(items) + Bytes(item)
  {
    var all := items + [item];
    if items == [] {
      assert all[0] == item && all[1..] == [];
      Regroup("", Bytes(item), "");
    } else {
      assert all[0] == items[0] && all[1..] == items[1..] + [item];
      WireAppend(items[1..], item);
      Regroup(Bytes(items[0]), Wire(items[1..]), Bytes(item));
    }
  }

  lemma WriteFaithful(s: Session, item: Item, failed: Option<nat>)
    requires s.wire == Wire(s.items)
    ensures var s' := Write(s, item, failed);
      && s'.wire <= Wire(s'.items) && (s'.open ==> s'.wire == Wire(s'.items))
      && EventsIn(s'.items) == EventsIn(s.items) + (if item.Published? then [item.e] else [])
  {
    WireAppend(s.items, item);
    assert (s.items + [item])[..|s.items|] == s.items;
  }

  lemma {:induction false} ServeFaithful(picks: seq<Pick>)
    ensures Faithful(Serve(picks), PublishedDuring(picks))
  {
    if picks != [] {
      var init, pick := picks[..|picks| - 1], picks[|picks| - 1];
      var s, published := Serve(init), PublishedDuring(init);
      ServeFaithful(init);
      assert published + [] == published;
      if s.open {
        match pick {
          case Beat(failed) =>
            WriteFaithful(s, Ping, failed);
            assert EventsIn(s.items) + [] == EventsIn(s.items);
          case FrameReady(failed) =>
            if s.ch.buf != [] {
              H.TakenConserved(s.ch);
              WriteFaithful(s.(ch := H.Taken(s.ch)), Published(s.ch.buf[0]), failed);
            }
          case Elsewhere(e) =>
            H.OfferedConserved(s.ch, e);
          case Gone =>
        }
      }
    }
  }

  function MessagesOf(events: seq<Event>): seq<Message> {
    seq(|events|, i requires 0 <= i < |events| => MessageOf(events[i]))
  }

  lemma {:induction false} MessagesAppend(items: seq<Item>, item: Item)
    ensures Messages(items + [item]) == Messages(items) + Carries(item)
  {
    if items == [] {
      assert [] + [item] == [item] && [item][1..] == [];
      assert Carries(item) + [] == [] + Carries(item);
    } else {
      var all := items + [item];
      assert all[0] == items[0] && all[1..] == items[1..] + [item];
      MessagesAppend(items[1..], item);
      Regroup(Carries(items[0]), Messages(items[1..]), Carries(item));
    }
  }

  lemma {:induction false} MessagesAreOfEvents(items: seq<Item>)
    ensures Messages(items) == MessagesOf(EventsIn(items))
  {
    if items != [] {
      var init, last := items[..|items| - 1], items[|items| - 1];
      assert init + [last] == items;
      MessagesAppend(init, last);
      MessagesAreOfEvents(init);
    }
  }

  lemma {:induction false} EventsInClean(items: seq<Item>)
    requires forall e :: e in EventsIn(items) ==> Clean(e)
    ensures AllClean(items)
  {
    if items != [] {
      var init, last := items[..|items| - 1], items[|items| - 1];
      assert forall e :: e in EventsIn(init) ==> e in EventsIn(items);
      EventsInClean(init);
      if last.Published? {
        assert EventsIn(items)[|EventsIn(items)| - 1] == last.e;
      }
      assert forall i :: 0 <= i < |init| ==> items[i] == init[i];
    }
  }

  lemma {:induction false} KeptAreOffered(log: seq<H.Offer>, e: Event)
    requires e in H.Kept(log)
    ensures e in H.All(log)
  {
    var init, last := log[..|log| - 1], log[|log| - 1];
    if !(last.kept && e == last.e) {
      KeptAreOffered(init, e);
    }
  }

  /** What the loop has taken from its channel is clean if everything published was. */
  lemma ItemsClean(picks: seq<Pick>)
    requires forall e :: e in PublishedDuring(picks) ==> Clean(e)
    ensures AllClean(Serve(picks).items)
  {
    var s := Serve(picks);
    ServeFaithful(picks);
    forall e | e in EventsIn(s.items)
      ensures Clean(e)
    {
      assert e in s.ch.received + s.ch.buf;
      KeptAreOffered(s.ch.log, e);
    }
    EventsInClean(s.items);
  }

  /** What an EventSource makes of any prefix of what was written. */
  lemma PrefixReads(items: seq<Item>, text: string)
    requires AllClean(items) && text <= Wire(items)
    ensures Feed(FRESH, text).messages <= MessagesOf(EventsIn(items))
    ensures text == Wire(items) ==> Feed(FRESH, text).messages == MessagesOf(EventsIn(items))
  {
    MessagesAreOfEvents(items);
    TruncationSafe(items, |text|);
    assert Wire(items)[..|text|] == text;
    FeedWire(FRESH, items);
    assert [] + Messages(items) == Messages(items);
  }

  /**
   End to end: whatever the loop does, and however much of what it wrote arrives,
   an EventSource reads the first so many of the events kept for the tab, an
   in-order subsequence of those published while it was connected; if all of it
   arrives and the connection is open, it reads all that the loop has taken from
   its channel.
   */
  lemma TabSeesSubsequence(picks: seq<Pick>, chunks: seq<string>)
    requires forall e :: e in PublishedDuring(picks) ==> Clean(e)
    requires Flatten(chunks) <= Serve(picks).wire
    ensures var s, seen := Serve(picks), FeedChunks(FRESH, chunks).messages;
      && seen <= MessagesOf(s.ch.received)
      && (s.open && Flatten(chunks) == s.wire ==> seen == MessagesOf(s.ch.received))
      && s.ch.received + s.ch.buf == H.Kept(s.ch.log)
      && H.Subsequence(H.Kept(s.ch.log), PublishedDuring(picks))
      && |s.ch.buf| <= 32
  {
    var s := Serve(picks);
    ItemsClean(picks);
    ServeFaithful(picks);
    CapKept(picks);
    H.KeptInOrder(s.ch.log);
    ChunkingIrrelevant(FRESH, chunks);
    PrefixReads(s.items, Flatten(chunks));
  }

  lemma {:induction false} CapKept(picks: seq<Pick>)
    ensures Serve(picks).ch.cap == 32
  {
    if picks != [] {
      CapKept(picks[..|picks| - 1]);
    }
  }

  // ----- Progress: what the loop does write -----

  function Last(picks: seq<Pick>): Pick
    requires picks != []
  {
    picks[|picks| - 1]
  }

  function Before(picks: seq<Pick>): Session
    requires picks != []
  {
    Serve(picks[..|picks| - 1])
  }

  /** The loop finds a frame in its channel, and takes it. */
  predicate TakesFrame(picks: seq<Pick>) {
    picks != [] && Before(picks).open && Last(picks).FrameReady? && Before(picks).ch.buf != []
  }

  predicate Beats(picks: seq<Pick>) {
    picks != [] && Before(picks).open && Last(picks).Beat?
  }

  /** The client has gone, or a write has failed. */
  predicate Ends(picks: seq<Pick>) {
    picks != [] &&
    (Last(picks).Gone? || ((Last(picks).Beat? || TakesFrame(picks)) && Last(picks).failed.Some?))
  }

  /** How many prefixes, each seen as ending with its last pick, satisfy p. */
  function Times(picks: seq<Pick>, p: seq<Pick> -> bool): nat {
    if picks == [] then 0 else Times(picks[..|picks| - 1], p) + (if p(picks) then 1 else 0)
  }

  function PingsIn(items: seq<Item>): nat {
    if items == [] then 0 else PingsIn(items[..|items| - 1]) + (if items[|items| - 1] == Ping then 1 else 0)
  }

  lemma {:induction false} PingsAppend(items: seq<Item>, item: Item)
    ensures PingsIn(items + [item]) == PingsIn(items) + (if item == Ping then 1 else 0)
  {
    assert (items + [item])[..|items|] == items;
  }

  /** The loop takes a frame from its channel every time it finds one ready. */
  lemma {:induction false} FramesTaken(picks: seq<Pick>)
    ensures |Serve(picks).ch.received| == Times(picks, TakesFrame)
  {
    if picks != [] {
      FramesTaken(picks[..|picks| - 1]);
    }
  }

  /** It writes one ping for every heartbeat. */
  lemma {:induction false} PingsWritten(picks: seq<Pick>)
    ensures PingsIn(Serve(picks).items) == Times(picks, Beats)
  {
    if picks != [] {
      var s := Before(picks);
      PingsWritten(picks[..|picks| - 1]);
      PingsAppend(s.items, Ping);
      if s.ch.buf != [] {
        PingsAppend(s.items, Published(s.ch.buf[0]));
      }
    }
  }

  lemma OpenNext(picks: seq<Pick>)
    requires picks != []
    ensures Serve(picks).open <==> Before(picks).open && !Ends(picks)
  {
  }

  /** It goes on exactly until the client has gone or a write has failed. */
  lemma {:induction false} OpenUntilEnd(picks: seq<Pick>)
    ensures Serve(picks).open <==> forall k :: 0 < k <= |picks| ==> !Ends(picks[..k])
  {
    if picks != [] {
      var init := picks[..|picks| - 1];
      OpenNext(picks);
      OpenUntilEnd(init);
      hide Ends, Serve;
      assert forall k :: 0 < k <= |init| ==> init[..k] == picks[..k];
      assert picks[..|picks|] == picks;
    }
  }

  /** Frames taken from the channel are written whole, in order, as long as the connection stays open. */
  lemma OpenWireIsWhole(picks: seq<Pick>)
    requires Serve(picks).open
    ensures Serve(picks).wire == Wire(Serve(picks).items) && EventsIn(Serve(picks).items) == Serve(picks).ch.received
  {
    ServeFaithful(picks);
  }

  function ElsewhereIn(picks: seq<Pick>): seq<Event> {
    if picks == [] then []
    else ElsewhereIn(picks[..|picks| - 1]) + (if Last(picks).Elsewhere? then [Last(picks).e] else [])
  }

  /** While the connection is open, everything published elsewhere is offered to the tab. */
  lemma {:induction false} OpenSeesAll(picks: seq<Pick>)
    requires Serve(picks).open
    ensures PublishedDuring(picks) == ElsewhereIn(picks)
  {
    if picks != [] {
      OpenSeesAll(picks[..|picks| - 1]);
    }
  }

  /** The tab's channel has room whenever something is published. */
  ghost predicate HasRoom(picks: seq<Pick>) {
    forall k :: 0 < k <= |picks| && Last(picks[..k]).Elsewhere? ==> |Before(picks[..k]).ch.buf| < 32
  }

  lemma {:induction false} RoomKeepsAll(picks: seq<Pick>)
    requires HasRoom(picks)
    ensures H.Kept(Serve(picks).ch.log) == PublishedDuring(picks)
  {
    if picks != [] {
      var init := picks[..|picks| - 1];
      assert forall k :: 0 < k <= |init| ==> init[..k] == picks[..k];
      assert picks[..|picks|] == picks;
      RoomKeepsAll(init);
      CapKept(init);
      var log, published := Serve(init).ch.log, PublishedDuring(init);
      assert published + [] == published;
      if Serve(init).open && Last(picks).Elsewhere? {
        assert (log + [H.Offer(Last(picks).e, true)])[..|log|] == log;
      }
    }
  }

  lemma {:induction false} DrainStep(picks: seq<Pick>)
    requires picks != [] && Last(picks) == FrameReady(None) && Before(picks).open
    ensures var s, s' := Before(picks), Serve(picks);
      && s'.open && s'.ch.log == s.ch.log
      && (s.ch.buf == [] ==> s' == s)
      && (s.ch.buf != [] ==> s'.ch.received == s.ch.received + [s.ch.buf[0]] && s'.ch.buf == s.ch.buf[1..])
  {
  }

  /** n turns at which the loop finds its channel ready and the write succeeds. */
  function ReadyTurns(n: nat): seq<Pick> {
    if n == 0 then [] else ReadyTurns(n - 1) + [FrameReady(None)]
  }

  lemma TurnsEnd(picks: seq<Pick>, n: nat)
    requires 0 < n
    ensures var all := picks + ReadyTurns(n);
      all != [] && Last(all) == FrameReady(None) && all[..|all| - 1] == picks + ReadyTurns(n - 1)
  {
  }

  lemma {:induction false} Drains(picks: seq<Pick>, n: nat)
    requires Serve(picks).open
    ensures var s, s' := Serve(picks), Serve(picks + ReadyTurns(n));
      && s'.open && s'.ch.log == s.ch.log
      && |s'.ch.buf| == if n <= |s.ch.buf| then |s.ch.buf| - n else 0
    decreases n
  {
    hide Serve;
    if n == 0 {
      assert picks + ReadyTurns(n) == picks;
    } else {
      TurnsEnd(picks, n);
      Drains(picks, n - 1);
      DrainStep(picks + ReadyTurns(n));
    }
  }

  /**
   Progress: on a connection that stays open, once the loop has been given as many
   turns as frames are buffered, and all that was written has arrived, the tab has
   read every event kept for it; and that is everything published while it was
   connected, if its channel always had room.
   */
  lemma TabReadsEverything(picks: seq<Pick>, n: nat, chunks: seq<string>)
    requires forall e :: e in ElsewhereIn(picks) ==> Clean(e)
    requires Serve(picks).open && |Serve(picks).ch.buf| <= n
    requires Flatten(chunks) == Serve(picks + ReadyTurns(n)).wire
    ensures FeedChunks(FRESH, chunks).messages == MessagesOf(H.Kept(Serve(picks).ch.log))
    ensures HasRoom(picks) ==> FeedChunks(FRESH, chunks).messages == MessagesOf(ElsewhereIn(picks))
  {
    var all := picks + ReadyTurns(n);
    Drains(picks, n);
    OpenSeesAll(picks);
    OpenSeesAll(all);
    NothingMorePublished(picks, n);
    TabSeesSubsequence(all, chunks);
    var ch := Serve(all).ch;
    assert ch.received + ch.buf == ch.received;
    if HasRoom(picks) {
      RoomKeepsAll(picks);
    }
  }

  lemma {:induction false} NothingMorePublished(picks: seq<Pick>, n: nat)
    ensures ElsewhereIn(picks + ReadyTurns(n)) == ElsewhereIn(picks)
    decreases n
  {
    if n == 0 {
      assert picks + ReadyTurns(n) == picks;
    } else {
      TurnsEnd(picks, n);
      NothingMorePublished(picks, n - 1);
      assert ElsewhereIn(picks) + [] == ElsewhereIn(picks);
    }
  }
}
