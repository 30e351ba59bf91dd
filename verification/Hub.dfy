/**
 The broadcast hub as a step system over bounded queues.  A full queue drops the
 frame; the log of a queue records every event offered to it and whether it was
 kept, so that nothing can be lost silently or reordered.
 */
module Hub {
  import opened Prelude
  import opened Counting
  import opened Sse

  datatype Offer = Offer(e: Event, kept: bool)

  /** A subscriber's channel: what it buffers, and what its owner has received so far. */
  datatype Channel = Channel(cap: nat, buf: seq<Event>, received: seq<Event>, log: seq<Offer>)

  function Open(cap: nat): Channel {
    Channel(cap, [], [], [])
  }

  /** A non-blocking send. */
  function Offered(ch: Channel, e: Event): Channel {
    if |ch.buf| < ch.cap then ch.(buf := ch.buf + [e], log := ch.log + [Offer(e, true)])
    else ch.(log := ch.log + [Offer(e, false)])
  }

  function Taken(ch: Channel): Channel
    requires ch.buf != []
  {
    ch.(buf := ch.buf[1..], received := ch.received + [ch.buf[0]])
  }

  function Kept(log: seq<Offer>): seq<Event> {
    if log == [] then []
    else
      var last := log[|log| - 1];
      Kept(log[..|log| - 1]) + (if last.kept then [last.e] else [])
  }

  function All(log: seq<Offer>): seq<Event> {
    if log == [] then [] else All(log[..|log| - 1]) + [log[|log| - 1].e]
  }

  predicate WasDropped(o: Offer) {
    !o.kept
  }

  function Dropped(log: seq<Offer>): nat {
    Count(log, WasDropped)
  }

  /** sub can be had from s by leaving elements out. */
  predicate Subsequence<T(==)>(sub: seq<T>, s: seq<T>) {
    if sub == [] then true
    else if s == [] then false
    else (sub[|sub| - 1] == s[|s| - 1] && Subsequence(sub[..|sub| - 1], s[..|s| - 1])) || Subsequence(sub, s[..|s| - 1])
  }

  lemma {:induction false} KeptInOrder(log: seq<Offer>)
    ensures Subsequence(Kept(log), All(log))
  {
    if log != [] {
      var init, last := log[..|log| - 1], log[|log| - 1];
      KeptInOrder(init);
      assert All(log)[..|All(log)| - 1] == All(init);
      if last.kept {
        assert Kept(log)[..|Kept(log)| - 1] == Kept(init);
      } else {
        assert Kept(log) == Kept(init);
      }
    }
  }

  lemma {:induction false} KeptAndDropped(log: seq<Offer>)
    ensures |All(log)| == |log|
    ensures |Kept(log)| + Dropped(log) == |log|
    ensures Dropped(log) == 0 ==> Kept(log) == All(log)
  {
    if log != [] {
      var init, last := log[..|log| - 1], log[|log| - 1];
      KeptAndDropped(init);
      CountAppend(init, last, WasDropped);
      assert init + [last] == log;
    }
  }

  /** Everything kept is either received, in order, or still buffered, in order; the buffer respects its capacity. */
  ghost predicate Conserved(ch: Channel) {
    ch.received + ch.buf == Kept(ch.log) && |ch.buf| <= ch.cap
  }

  lemma OfferedConserved(ch: Channel, e: Event)
    requires Conserved(ch)
    ensures Conserved(Offered(ch, e))
    ensures All(Offered(ch, e).log) == All(ch.log) + [e]
    ensures Dropped(Offered(ch, e).log) == Dropped(ch.log) + One(|ch.buf| >= ch.cap)
  {
    var log := Offered(ch, e).log;
    assert log[..|log| - 1] == ch.log;
    CountAppend(ch.log, log[|log| - 1], WasDropped);
    assert ch.received + (ch.buf + [e]) == (ch.received + ch.buf) + [e];
  }

  lemma TakenConserved(ch: Channel)
    requires Conserved(ch) && ch.buf != []
    ensures Conserved(Taken(ch)) && Taken(ch).log == ch.log
  {
    assert ch.received + [ch.buf[0]] + ch.buf[1..] == ch.received + ch.buf;
  }

  // ----- Runs of the hub -----

  datatype State = State(channels: map<nat, Channel>, clients: set<nat>)

  datatype Action = Make(id: nat, cap: nat) | Subscribe(id: nat) | Unsubscribe(id: nat) | Publish(e: Event) | Receive(id: nat)

  /** The channels of the source are buffered ones. */
  predicate Enabled(s: State, a: Action) {
    match a
    case Make(id, cap) => id !in s.channels && 0 < cap
    case Subscribe(id) => id in s.channels
    case Unsubscribe(_) => true
    case Publish(_) => s.clients <= s.channels.Keys
    case Receive(id) => id in s.channels && s.channels[id].buf != []
  }

  function Next(s: State, a: Action): State
    requires Enabled(s, a)
  {
    match a
    case Make(id, cap) => s.(channels := s.channels[id := Open(cap)])
    case Subscribe(id) => s.(clients := s.clients + {id})
    case Unsubscribe(id) => s.(clients := s.clients - {id})
    case Publish(e) =>
      s.(channels := map id | id in s.channels ::
           if id in s.clients then Offered(s.channels[id], e) else s.channels[id])
    case Receive(id) => s.(channels := s.channels[id := Taken(s.channels[id])])
  }

  ghost predicate Run(s: State, actions: seq<Action>, s': State)
    decreases |actions|
  {
    if actions == [] then s' == s
    else Enabled(s, actions[0]) && Run(Next(s, actions[0]), actions[1..], s')
  }

  /** What is published while the client is subscribed. */
  function PublishedTo(actions: seq<Action>, id: nat, subscribed: bool): seq<Event> {
    if actions == [] then []
    else match actions[0]
      case Subscribe(x) => PublishedTo(actions[1..], id, subscribed || x == id)
      case Unsubscribe(x) => PublishedTo(actions[1..], id, subscribed && x != id)
      case Publish(e) => (if subscribed then [e] else []) + PublishedTo(actions[1..], id, subscribed)
      case _ => PublishedTo(actions[1..], id, subscribed)
  }

  /** The client has a free place whenever something is published to it. */
  ghost predicate KeepsUp(s: State, actions: seq<Action>, s': State, id: nat)
    requires Run(s, actions, s')
    decreases |actions|
  {
    actions == [] ||
    ((actions[0].Publish? && id in s.clients ==> |s.channels[id].buf| < s.channels[id].cap) &&
     KeepsUp(Next(s, actions[0]), actions[1..], s', id))
  }

  lemma {:induction false} ConservedRun(s: State, actions: seq<Action>, s': State, id: nat)
    requires Run(s, actions, s') && id in s.channels && Conserved(s.channels[id])
    ensures id in s'.channels && Conserved(s'.channels[id])
    ensures All(s'.channels[id].log) == All(s.channels[id].log) + PublishedTo(actions, id, id in s.clients)
    ensures KeepsUp(s, actions, s', id) ==> Dropped(s'.channels[id].log) == Dropped(s.channels[id].log)
    decreases |actions|
  {
    if actions == [] {
      assert All(s.channels[id].log) + [] == All(s.channels[id].log);
    } else {
      var s1, before := Next(s, actions[0]), All(s.channels[id].log);
      match actions[0] {
        case Publish(e) =>
          if id in s.clients {
            OfferedConserved(s.channels[id], e);
            Regroup(before, [e], PublishedTo(actions[1..], id, true));
          } else {
            Regroup(before, [], PublishedTo(actions[1..], id, false));
          }
        case Receive(x) =>
          if x == id {
            TakenConserved(s.channels[id]);
          }
        case _ =>
      }
      ConservedRun(s1, actions[1..], s', id);
    }
  }

  /**
   Hub conservation: from the moment its channel is made, a client has received
   and buffered, in order, a subsequence of what was published while it was
   subscribed; the rest was dropped, and nothing was if it kept up.
   */
  lemma HubConservation(s: State, cap: nat, actions: seq<Action>, s': State, id: nat)
    requires Enabled(s, Make(id, cap)) && id !in s.clients && Run(Next(s, Make(id, cap)), actions, s')
    ensures id in s'.channels
    ensures var ch, published := s'.channels[id], PublishedTo(actions, id, false);
      && Subsequence(ch.received + ch.buf, published)
      && |ch.received| + |ch.buf| + Dropped(ch.log) == |published|
      && |ch.buf| <= ch.cap
      && (KeepsUp(Next(s, Make(id, cap)), actions, s', id) ==> ch.received + ch.buf == published)
  {
    ConservedRun(Next(s, Make(id, cap)), actions, s', id);
    var log, published := s'.channels[id].log, PublishedTo(actions, id, false);
    assert [] + published == published;
    KeptInOrder(log);
    KeptAndDropped(log);
  }

  // ----- Publish visits the clients in any order -----

  /** Offering to the clients one after the other, in the given order. */
  function OfferInOrder(channels: map<nat, Channel>, order: seq<nat>, e: Event): map<nat, Channel> {
    if order == [] then channels
    else if order[0] in channels then
      OfferInOrder(channels[order[0] := Offered(channels[order[0]], e)], order[1..], e)
    else OfferInOrder(channels, order[1..], e)
  }

  ghost predicate Distinct(order: seq<nat>) {
    forall i, j :: 0 <= i < j < |order| ==> order[i] != order[j]
  }

  lemma {:induction false} OrderIrrelevant(channels: map<nat, Channel>, order: seq<nat>, e: Event)
    requires Distinct(order)
    ensures OfferInOrder(channels, order, e) ==
      map id | id in channels :: if id in order then Offered(channels[id], e) else channels[id]
    decreases |order|
  {
    if order != [] {
      assert order[0] !in order[1..];
      var next := if order[0] in channels then channels[order[0] := Offered(channels[order[0]], e)] else channels;
      OrderIrrelevant(next, order[1..], e);
      assert forall id :: id in order <==> id == order[0] || id in order[1..];
    }
  }

  /** Whatever order the map iteration takes, Publish has the same effect. */
  lemma PublishOrderIrrelevant(s: State, order: seq<nat>, e: Event)
    requires Enabled(s, Publish(e)) && Distinct(order) && (forall id :: id in order <==> id in s.clients)
    ensures Next(s, Publish(e)).channels == OfferInOrder(s.channels, order, e)
  {
    OrderIrrelevant(s.channels, order, e);
  }
}
