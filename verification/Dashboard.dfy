/**
 From the engine to a browser tab: what the ticks publish is rendered, broadcast
 together with what the web handlers publish, and streamed to the tab.
 */
module Dashboard {
  import opened Prelude
  import opened Check
  import opened Sse
  import opened EventSource
  import opened HubObjects
  import H = Hub
  import E = Engine
  import C = EngineCalls

  /** Where a broadcast comes from: a call of the engine, or an event of a web handler. */
  datatype Origin = ByEngine(call: E.Call) | ByHandler(e: Event)

  /** A template may fail to render a call, and nothing is published then. */
  type Rendering = E.Call -> Option<Event>

  function EventOf(render: Rendering, origin: Origin): seq<Event> {
    match origin
    case ByHandler(e) => [e]
    case ByEngine(call) => if render(call).Some? then [render(call).value] else []
  }

  function Rendered(render: Rendering, origins: seq<Origin>): seq<Event> {
    if origins == [] then []
    else Rendered(render, origins[..|origins| - 1]) + EventOf(render, origins[|origins| - 1])
  }

  predicate IsPublication(call: E.Call) {
    call.PublishedCheck? || call.PublishedStats?
  }

  /** The publications among the engine's calls. */
  function Publications(log: seq<E.Call>): seq<E.Call> {
    if log == [] then []
    else
      var last := log[|log| - 1];
      Publications(log[..|log| - 1]) + (if IsPublication(last) then [last] else [])
  }

  function EngineIn(origins: seq<Origin>): seq<E.Call> {
    if origins == [] then []
    else
      var last := origins[|origins| - 1];
      EngineIn(origins[..|origins| - 1]) + (if last.ByEngine? then [last.call] else [])
  }

  function ChecksIn(calls: seq<E.Call>): seq<CheckResult> {
    if calls == [] then []
    else
      var last := calls[|calls| - 1];
      ChecksIn(calls[..|calls| - 1]) + (if last.PublishedCheck? then [last.r] else [])
  }

  // ----- Subsequences -----

  lemma SubsequenceSnoc<T>(sub: seq<T>, s: seq<T>, x: T)
    requires H.Subsequence(sub, s)
    ensures H.Subsequence(sub, s + [x]) && H.Subsequence(sub + [x], s + [x])
  {
    assert (s + [x])[..|s|] == s && (sub + [x])[..|sub|] == sub;
  }

  lemma {:induction false} PrefixSubsequence<T>(sub: seq<T>, k: nat, s: seq<T>)
    requires k <= |sub| && H.Subsequence(sub, s)
    ensures H.Subsequence(sub[..k], s)
    decreases |s|
  {
    if k == |sub| {
      assert sub[..k] == sub;
    } else if k > 0 {
      var init := s[..|s| - 1];
      assert init + [s[|s| - 1]] == s;
      if H.Subsequence(sub, init) {
        PrefixSubsequence(sub, k, init);
      } else {
        assert sub[..|sub| - 1][..k] == sub[..k];
        PrefixSubsequence(sub[..|sub| - 1], k, init);
      }
      SubsequenceSnoc(sub[..k], init, s[|s| - 1]);
    }
  }

  lemma RenderedSnoc(render: Rendering, origins: seq<Origin>, last: Origin)
    ensures Rendered(render, origins + [last]) == Rendered(render, origins) + EventOf(render, last)
  {
    assert (origins + [last])[..|origins|] == origins;
  }

  /** A subsequence of s with at most one more element ends with that element, or does without it. */
  lemma SubsequenceLast<T>(sub: seq<T>, s: seq<T>, last: seq<T>)
    requires |last| <= 1 && sub != [] && H.Subsequence(sub, s + last)
    ensures H.Subsequence(sub, s) || (last == [sub[|sub| - 1]] && H.Subsequence(sub[..|sub| - 1], s))
  {
    if last == [] {
      assert s + last == s;
    } else {
      assert (s + last)[..|s|] == s;
    }
  }

  /** The two ways in which something is read of the rendered origins: with the last of them, or without it. */
  lemma SplitRendered(render: Rendering, events: seq<Event>, origins: seq<Origin>)
    requires events != [] && H.Subsequence(events, Rendered(render, origins))
    ensures origins != []
    ensures var init, last := origins[..|origins| - 1], origins[|origins| - 1];
      || H.Subsequence(events, Rendered(render, init))
      || (EventOf(render, last) == [events[|events| - 1]] &&
          H.Subsequence(events[..|events| - 1], Rendered(render, init)))
  {
    SubsequenceLast(events, Rendered(render, origins[..|origins| - 1]), EventOf(render, origins[|origins| - 1]));
  }

  lemma InitAndLast<T>(s: seq<T>)
    requires s != []
    ensures s[..|s| - 1] + [s[|s| - 1]] == s
  {
  }

  lemma JoinLast(render: Rendering, before: seq<Event>, e: Event, head: seq<Origin>, init: seq<Origin>, last: Origin)
    requires EventOf(render, last) == [e] && H.Subsequence(head, init) && Rendered(render, head) == before
    ensures H.Subsequence(head + [last], init + [last]) && Rendered(render, head + [last]) == before + [e]
  {
    hide *;
    SubsequenceSnoc(head, init, last);
    RenderedSnoc(render, head, last);
  }

  /** What is read of the rendered origins is the rendering of some of them, in order. */
  lemma {:induction false} Unrender(render: Rendering, events: seq<Event>, origins: seq<Origin>) returns (seen: seq<Origin>)
    requires H.Subsequence(events, Rendered(render, origins))
    ensures H.Subsequence(seen, origins) && Rendered(render, seen) == events
    decreases |origins|
  {
    if events == [] {
      seen := [];
    } else {
      SplitRendered(render, events, origins);
      hide *;
      var init, last := origins[..|origins| - 1], origins[|origins| - 1];
      InitAndLast(origins);
      if H.Subsequence(events, Rendered(render, init)) {
        seen := Unrender(render, events, init);
        SubsequenceSnoc(seen, init, last);
      } else {
        var before, e := events[..|events| - 1], events[|events| - 1];
        InitAndLast(events);
        var head := Unrender(render, before, init);
        JoinLast(render, before, e, head, init, last);
        seen := head + [last];
      }
    }
  }

  lemma {:induction false} EngineInOrder(seen: seq<Origin>, origins: seq<Origin>)
    requires H.Subsequence(seen, origins)
    ensures H.Subsequence(EngineIn(seen), EngineIn(origins))
    decreases |origins|
  {
    if seen != [] {
      var init, last := origins[..|origins| - 1], origins[|origins| - 1];
      var head := seen[..|seen| - 1];
      assert EngineIn(init) + [] == EngineIn(init) && EngineIn(head) + [] == EngineIn(head);
      if H.Subsequence(seen, init) {
        EngineInOrder(seen, init);
        if last.ByEngine? {
          SubsequenceSnoc(EngineIn(seen), EngineIn(init), last.call);
        }
      } else {
        EngineInOrder(head, init);
        if last.ByEngine? {
          SubsequenceSnoc(EngineIn(head), EngineIn(init), last.call);
        }
      }
    }
  }

  lemma {:induction false} ChecksInOrder(seen: seq<E.Call>, calls: seq<E.Call>)
    requires H.Subsequence(seen, calls)
    ensures H.Subsequence(ChecksIn(seen), ChecksIn(calls))
    decreases |calls|
  {
    if seen != [] {
      var init, last := calls[..|calls| - 1], calls[|calls| - 1];
      var head := seen[..|seen| - 1];
      assert ChecksIn(init) + [] == ChecksIn(init) && ChecksIn(head) + [] == ChecksIn(head);
      if H.Subsequence(seen, init) {
        ChecksInOrder(seen, init);
        if last.PublishedCheck? {
          SubsequenceSnoc(ChecksIn(seen), ChecksIn(init), last.r);
        }
      } else {
        ChecksInOrder(head, init);
        if last.PublishedCheck? {
          SubsequenceSnoc(ChecksIn(head), ChecksIn(init), last.r);
        }
      }
    }
  }

  /** The published checks are the same, whether one looks at the publications or at the whole log. */
  lemma {:induction false} ChecksOfPublications(log: seq<E.Call>)
    ensures ChecksIn(Publications(log)) == C.PublishedIn(log)
  {
    if log != [] {
      var init, last := log[..|log| - 1], log[|log| - 1];
      var before := Publications(init);
      ChecksOfPublications(init);
      C.FiltersConcat(init, [last]);
      assert init + [last] == log && [last][1..] == [];
      assert (before + [last])[..|before|] == before && before + [] == before;
    }
  }

  // ----- The theorem -----

  /**
   A tab is connected while the engine makes the calls of `log` and the handlers
   publish events of their own, interleaved in any way.  However its stream is cut
   and whatever is dropped, the tab reads the renderings of some of these, in
   order: of the engine's publications a subsequence in the order of the log, and
   among them of the check results one in the order in which they were published.
   */
  lemma TabReadsTheLog(log: seq<E.Call>, render: Rendering, origins: seq<Origin>, picks: seq<Pick>, chunks: seq<string>)
    returns (seen: seq<Origin>)
    requires EngineIn(origins) == Publications(log)
    requires PublishedDuring(picks) == Rendered(render, origins)
    requires forall e :: e in Rendered(render, origins) ==> Clean(e)
    requires Flatten(chunks) <= Serve(picks).wire
    ensures FeedChunks(FRESH, chunks).messages == MessagesOf(Rendered(render, seen))
    ensures H.Subsequence(seen, origins)
    ensures H.Subsequence(EngineIn(seen), Publications(log))
    ensures H.Subsequence(ChecksIn(EngineIn(seen)), C.PublishedIn(log))
  {
    TabSeesSubsequence(picks, chunks);
    var s, messages := Serve(picks), FeedChunks(FRESH, chunks).messages;
    var kept := H.Kept(s.ch.log);
    var events := s.ch.received[..|messages|];
    assert messages == MessagesOf(events);
    assert kept[..|messages|] == events;
    PrefixSubsequence(kept, |messages|, Rendered(render, origins));
    seen := Unrender(render, events, origins);
    EngineInOrder(seen, origins);
    ChecksInOrder(EngineIn(seen), Publications(log));
    ChecksOfPublications(log);
  }

  /** Of the results of one tick a tab reads some, in target order. */
  lemma TabReadsTick(env: E.Env, v: E.View, round: E.Round, render: Rendering, origins: seq<Origin>,
                     picks: seq<Pick>, chunks: seq<string>) returns (seen: seq<Origin>)
    requires env.up(v.ops) && env.publishing
    requires EngineIn(origins) == Publications([E.Listed(true)] + C.Recording(env, v, round) + C.Reporting(env, v, round))
    requires PublishedDuring(picks) == Rendered(render, origins)
    requires forall e :: e in Rendered(render, origins) ==> Clean(e)
    requires Flatten(chunks) <= Serve(picks).wire
    ensures FeedChunks(FRESH, chunks).messages == MessagesOf(Rendered(render, seen))
    ensures H.Subsequence(seen, origins)
    ensures H.Subsequence(ChecksIn(EngineIn(seen)), E.TickResults(env, v, round))
  {
    var calls := [E.Listed(true)] + C.Recording(env, v, round) + C.Reporting(env, v, round);
    seen := TabReadsTheLog(calls, render, origins, picks, chunks);
    C.TickPublishes(env, v, round);
  }

  // ----- What a tab that keeps up reads -----

  /** If the handlers publish nothing and every template renders, every publication is broadcast once, in order. */
  lemma {:induction false} EngineOnly(render: Rendering, origins: seq<Origin>)
    requires forall i :: 0 <= i < |origins| ==> origins[i].ByEngine? && render(origins[i].call).Some?
    ensures |Rendered(render, origins)| == |EngineIn(origins)| == |origins|
    ensures forall i :: 0 <= i < |origins| ==>
      EngineIn(origins)[i] == origins[i].call && Rendered(render, origins)[i] == render(origins[i].call).value
  {
    if origins != [] {
      EngineOnly(render, origins[..|origins| - 1]);
    }
  }

  /** A handler's event is broadcast as it is, and no template decides about it. */
  lemma {:induction false} HandlersBroadcast(render: Rendering, origins: seq<Origin>, e: Event)
    requires ByHandler(e) in origins
    ensures e in Rendered(render, origins)
  {
    var init, last := origins[..|origins| - 1], origins[|origins| - 1];
    if last != ByHandler(e) {
      HandlersBroadcast(render, init, e);
    } else {
      assert Rendered(render, origins)[|Rendered(render, origins)| - 1] == e;
    }
  }

  /** Every publication in the log is one of its publications, and nothing else is. */
  lemma {:induction false} PublicationsComplete(log: seq<E.Call>, call: E.Call)
    ensures call in Publications(log) <==> call in log && (call.PublishedCheck? || call.PublishedStats?)
  {
    if log != [] {
      PublicationsComplete(log[..|log| - 1], call);
    }
  }

  /**
   A tab whose channel always has room, on a connection that stays open until the
   loop has caught up, reads every broadcast, in order.
   */
  lemma TabReadsAll(log: seq<E.Call>, render: Rendering, origins: seq<Origin>, picks: seq<Pick>, n: nat, chunks: seq<string>)
    requires EngineIn(origins) == Publications(log) && ElsewhereIn(picks) == Rendered(render, origins)
    requires forall e :: e in Rendered(render, origins) ==> Clean(e)
    requires HasRoom(picks) && Serve(picks).open && |Serve(picks).ch.buf| <= n
    requires Flatten(chunks) == Serve(picks + ReadyTurns(n)).wire
    ensures FeedChunks(FRESH, chunks).messages == MessagesOf(Rendered(render, origins))
  {
    TabReadsEverything(picks, n, chunks);
  }
}
