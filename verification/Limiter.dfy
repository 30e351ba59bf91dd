/**
 The per-key manager: a family of token buckets that all have the same rate and
 are created on first use.  The main result is that a run of the manager, seen
 through one key, is a run of a single bucket from the time that key was first
 looked up.
 */
module Limiter {
  import opened Prelude
  import opened Counting
  import TB = TokenBucket

  /** made records every bucket ever created. */
  datatype State = State(ratePerSecond: int, buckets: map<string, TB.State>, made: multiset<string>)

  datatype Action = Lookup(key: string) | On(key: string, act: TB.Action) | CloseAll

  datatype Event = At(time: nat, act: Action)

  function New(ratePerSecond: int): State {
    State(ratePerSecond, map[], multiset{})
  }

  ghost predicate Valid(m: State) {
    && (forall key :: key in m.buckets ==> TB.Valid(m.buckets[key]))
    && (forall key :: m.made[key] == One(key in m.buckets))
  }

  predicate Enabled(m: State, now: nat, a: Action) {
    match a
    case Lookup(key) => key in m.buckets || TB.New(m.ratePerSecond, now).Some?
    case On(key, act) => key in m.buckets && TB.Enabled(m.buckets[key], now, act)
    case CloseAll => true
  }

  function Next(m: State, now: nat, a: Action): State
    requires Valid(m) && Enabled(m, now, a)
  {
    match a
    case Lookup(key) =>
      if key in m.buckets then m
      else m.(buckets := m.buckets[key := TB.New(m.ratePerSecond, now).value], made := m.made[key := m.made[key] + 1])
    case On(key, act) => m.(buckets := m.buckets[key := TB.Next(m.buckets[key], now, act)])
    case CloseAll => m.(buckets := map key | key in m.buckets :: TB.Next(m.buckets[key], now, TB.Close))
  }

  /** Every step keeps the manager valid; in particular no key ever gets a second bucket. */
  lemma ValidNext(m: State, now: nat, a: Action)
    requires Valid(m) && Enabled(m, now, a)
    ensures Valid(Next(m, now, a))
  {
    var m' := Next(m, now, a);
    forall key | key in m'.buckets
      ensures TB.Valid(m'.buckets[key])
    {
      if key in m.buckets {
        assert TB.Valid(m.buckets[key]);
      }
    }
    forall key
      ensures m'.made[key] == One(key in m'.buckets)
    {
      assert m.made[key] == One(key in m.buckets);
    }
  }

  ghost predicate Allowed(m: State, from: nat, events: seq<Event>)
    decreases |events|
  {
    Valid(m) &&
    (events == [] ||
     (from <= events[0].time && Enabled(m, events[0].time, events[0].act) &&
      Allowed(Next(m, events[0].time, events[0].act), events[0].time, events[1..])))
  }

  ghost function After(m: State, from: nat, events: seq<Event>): (m': State)
    requires Allowed(m, from, events)
    ensures Valid(m') && m'.ratePerSecond == m.ratePerSecond
    ensures m.buckets.Keys <= m'.buckets.Keys
    decreases |events|
  {
    if events == [] then m
    else After(Next(m, events[0].time, events[0].act), events[0].time, events[1..])
  }

  /** The events that reach the bucket of `key`, once it exists. */
  function Project(events: seq<Event>, key: string): seq<TB.Event> {
    if events == [] then []
    else
      var rest := Project(events[1..], key);
      match events[0].act
      case Lookup(_) => rest
      case On(k, act) => if k == key then [TB.At(events[0].time, act)] + rest else rest
      case CloseAll => [TB.At(events[0].time, TB.Close)] + rest
  }

  /** The events after the first lookup of `key`, and the time of that lookup. */
  function SinceLookup(events: seq<Event>, key: string): Option<(nat, seq<Event>)> {
    if events == [] then None
    else if events[0].act == Lookup(key) then Some((events[0].time, events[1..]))
    else SinceLookup(events[1..], key)
  }

  /** A bucket that exists goes through exactly the projected run, whatever happens to other keys. */
  lemma {:induction false} ProjectExisting(m: State, from: nat, events: seq<Event>, key: string)
    requires Allowed(m, from, events) && key in m.buckets
    ensures 0 < m.buckets[key].period && TB.Allowed(m.buckets[key], from, Project(events, key))
    ensures After(m, from, events).buckets[key] == TB.After(m.buckets[key], from, Project(events, key))
    decreases |events|
  {
    assert TB.Valid(m.buckets[key]);
    if events != [] {
      var e := events[0];
      var m1 := Next(m, e.time, e.act);
      ProjectExisting(m1, e.time, events[1..], key);
      var rest := Project(events[1..], key);
      if m1.buckets[key] == m.buckets[key] && Project(events, key) == rest {
        StartEarlier(m.buckets[key], from, e.time, rest);
      } else {
        assert Project(events, key)[1..] == rest;
      }
    }
  }

  lemma StartEarlier(b: TB.State, from: nat, later: nat, events: seq<TB.Event>)
    requires 0 < b.period && from <= later && TB.Allowed(b, later, events)
    ensures TB.Allowed(b, from, events) && TB.After(b, from, events) == TB.After(b, later, events)
  {
  }

  /**
   Manager simulation: a key that gets its bucket during a run has, at the end,
   exactly the bucket that NewBucket made at its first lookup, after the
   projected events.
   */
  lemma {:induction false} ProjectCreated(m: State, from: nat, events: seq<Event>, key: string)
    requires Allowed(m, from, events) && key !in m.buckets && key in After(m, from, events).buckets
    ensures var since := SinceLookup(events, key);
      && since.Some? && from <= since.value.0 && TB.New(m.ratePerSecond, since.value.0).Some?
      && var b := TB.New(m.ratePerSecond, since.value.0).value;
      && TB.Allowed(b, since.value.0, Project(since.value.1, key))
      && After(m, from, events).buckets[key] == TB.After(b, since.value.0, Project(since.value.1, key))
    decreases |events|
  {
    var e := events[0];
    var m1 := Next(m, e.time, e.act);
    if e.act == Lookup(key) {
      ProjectExisting(m1, e.time, events[1..], key);
    } else {
      ProjectCreated(m1, e.time, events[1..], key);
    }
  }

  /** Steps on other keys never change what a key can be granted. */
  lemma KeysAreIsolated(m1: State, m2: State, from: nat, events1: seq<Event>, events2: seq<Event>, key: string)
    requires Allowed(m1, from, events1) && Allowed(m2, from, events2)
    requires key in m1.buckets && key in m2.buckets && m1.buckets[key] == m2.buckets[key]
    requires Project(events1, key) == Project(events2, key)
    ensures After(m1, from, events1).buckets[key] == After(m2, from, events2).buckets[key]
  {
    ProjectExisting(m1, from, events1, key);
    ProjectExisting(m2, from, events2, key);
  }

  lemma {:induction false} AfterConcat(m: State, from: nat, left: seq<Event>, mid: nat, right: seq<Event>)
    requires Allowed(m, from, left) && from <= mid && Until(left, mid) && Allowed(After(m, from, left), mid, right)
    ensures Allowed(m, from, left + right)
    ensures After(m, from, left + right) == After(After(m, from, left), mid, right)
    decreases |left|
  {
    if left == [] {
      assert left + right == right;
      RunEarlier(m, from, mid, right);
    } else {
      var e := left[0];
      assert (left + right)[0] == e && (left + right)[1..] == left[1..] + right;
      assert Until(left[1..], mid) by {
        assert forall i :: 0 <= i < |left[1..]| ==> left[1..][i] == left[i + 1];
      }
      assert e.time <= mid;
      AfterConcat(Next(m, e.time, e.act), e.time, left[1..], mid, right);
    }
  }

  lemma RunEarlier(m: State, from: nat, later: nat, events: seq<Event>)
    requires from <= later && Allowed(m, later, events)
    ensures Allowed(m, from, events) && After(m, from, events) == After(m, later, events)
  {
  }

  // ----- The window bound, per key -----

  function Granted(m: State, key: string): nat {
    if key in m.buckets then m.buckets[key].granted else 0
  }

  /** What the key's bucket holds or is about to receive, 0 if it has none yet. */
  function Carried(m: State, key: string, now: nat): nat {
    if key in m.buckets then TB.Backlog(m.buckets[key]) + TB.Overdue(m.buckets[key], now) else 0
  }

  function Period(ratePerSecond: int): nat {
    TB.SECOND / TB.ClampedRate(ratePerSecond)
  }

  ghost predicate SameRate(m: State) {
    forall key :: key in m.buckets ==> m.buckets[key].period == Period(m.ratePerSecond)
  }

  ghost predicate Until(events: seq<Event>, horizon: nat) {
    forall i :: 0 <= i < |events| ==> events[i].time <= horizon
  }

  lemma {:induction false} ProjectUntil(events: seq<Event>, key: string, horizon: nat)
    requires Until(events, horizon)
    ensures TB.Until(Project(events, key), horizon)
    ensures SinceLookup(events, key).Some? ==>
      SinceLookup(events, key).value.0 <= horizon && Until(SinceLookup(events, key).value.1, horizon)
  {
    if events != [] {
      assert events[0].time <= horizon;
      assert forall i :: 0 <= i < |events[1..]| ==> events[1..][i] == events[i + 1];
      ProjectUntil(events[1..], key, horizon);
    }
  }

  /** In every window every key is granted at most what it carries in plus the ticks of the window. */
  lemma WindowBound(m: State, from: nat, events: seq<Event>, key: string, horizon: nat)
    requires Allowed(m, from, events) && SameRate(m) && from <= horizon && Until(events, horizon)
    requires m.ratePerSecond <= TB.SECOND
    ensures 0 < Period(m.ratePerSecond)
    ensures Granted(After(m, from, events), key) - Granted(m, key)
         <= Carried(m, key, from) + TB.CeilDiv(horizon - from, Period(m.ratePerSecond))
    ensures key in m.buckets ==> Carried(m, key, from) <= m.buckets[key].rate + 2 + TB.Overdue(m.buckets[key], from)
  {
    var period := TB.New(m.ratePerSecond, 0).value.period;
    if key in m.buckets {
      ExistingWithinWindow(m, from, events, key, horizon);
    } else if key in After(m, from, events).buckets {
      CreatedWithinWindow(m, from, events, key, horizon, period);
    }
  }

  lemma ExistingWithinWindow(m: State, from: nat, events: seq<Event>, key: string, horizon: nat)
    requires Allowed(m, from, events) && from <= horizon && Until(events, horizon) && key in m.buckets
    ensures TB.Valid(m.buckets[key])
    ensures After(m, from, events).buckets[key].granted - m.buckets[key].granted
         <= Carried(m, key, from) + TB.CeilDiv(horizon - from, m.buckets[key].period)
    ensures Carried(m, key, from) <= m.buckets[key].rate + 2 + TB.Overdue(m.buckets[key], from)
  {
    assert TB.Valid(m.buckets[key]);
    ProjectUntil(events, key, horizon);
    ProjectExisting(m, from, events, key);
    TB.WindowBound(m.buckets[key], from, Project(events, key), horizon);
  }

  lemma CreatedWithinWindow(m: State, from: nat, events: seq<Event>, key: string, horizon: nat, period: nat)
    requires Allowed(m, from, events) && from <= horizon && Until(events, horizon)
    requires key !in m.buckets && key in After(m, from, events).buckets
    requires m.ratePerSecond <= TB.SECOND && period == TB.New(m.ratePerSecond, 0).value.period
    ensures After(m, from, events).buckets[key].granted <= TB.CeilDiv(horizon - from, period)
  {
    ProjectCreated(m, from, events, key);
    ProjectUntil(events, key, horizon);
    var (made, rest) := SinceLookup(events, key).value;
    ProjectUntil(rest, key, horizon);
    TB.GrantsSinceCreation(m.ratePerSecond, made, Project(rest, key), horizon);
    TB.DivMonotone(horizon - made, horizon - from, period);
    FloorBelowCeil(horizon - from, period);
  }

  lemma FloorBelowCeil(n: nat, d: nat)
    requires 0 < d
    ensures n / d <= TB.CeilDiv(n, d)
  {
    if n > 0 {
      TB.DivBounds(n, d);
      TB.DivBounds(n - 1, d);
      TB.MulCancel(n / d, (n - 1) / d + 1, d);
    } else {
      TB.DivUnique(0, d, 0);
    }
  }

  lemma SameRateNext(m: State, now: nat, a: Action)
    requires Valid(m) && Enabled(m, now, a) && SameRate(m)
    ensures SameRate(Next(m, now, a))
  {
  }

  lemma {:induction false} SameRateAfter(m: State, from: nat, events: seq<Event>)
    requires Allowed(m, from, events) && SameRate(m)
    ensures SameRate(After(m, from, events))
    decreases |events|
  {
    if events != [] {
      SameRateNext(m, events[0].time, events[0].act);
      SameRateAfter(Next(m, events[0].time, events[0].act), events[0].time, events[1..]);
    }
  }

  /** Close reaches every bucket there is, and none of them is ever open again. */
  lemma CloseAllIsFinal(m: State, from: nat, closed: State, events: seq<Event>, key: string, contextDone: bool)
    requires Valid(m) && key in m.buckets && closed == Next(m, from, CloseAll) && Allowed(closed, from, events)
    ensures TB.BucketClosed in TB.ReadyOutcomes(After(closed, from, events).buckets[key], contextDone)
  {
    ProjectExisting(closed, from, events, key);
    TB.ClosedForGood(closed.buckets[key], from, Project(events, key), contextDone);
  }

  predicate Closes(e: Event, key: string) {
    e.act == CloseAll || e.act == On(key, TB.Close)
  }

  predicate IsClosed(m: State, key: string) {
    key in m.buckets && m.buckets[key].closed
  }

  ghost predicate AllOpen(m: State) {
    forall key :: key in m.buckets ==> !m.buckets[key].closed
  }

  /** Nothing but Close closes a bucket, and new ones are open. */
  lemma AllOpenNext(m: State, now: nat, a: Action)
    requires Valid(m) && Enabled(m, now, a) && AllOpen(m) && a != CloseAll && !(a.On? && a.act == TB.Close)
    ensures AllOpen(Next(m, now, a))
  {
  }

  lemma ClosedNext(m: State, e: Event, key: string)
    requires Valid(m) && Enabled(m, e.time, e.act) && !Closes(e, key)
    ensures IsClosed(Next(m, e.time, e.act), key) <==> IsClosed(m, key)
  {
  }

  /** Without a Close, a key's bucket is as open or closed as it was; one that is created is open. */
  lemma {:induction false} ClosedKept(m: State, from: nat, events: seq<Event>, key: string)
    requires Allowed(m, from, events) && forall i :: 0 <= i < |events| ==> !Closes(events[i], key)
    ensures IsClosed(After(m, from, events), key) <==> IsClosed(m, key)
    decreases |events|
  {
    if events != [] {
      ClosedNext(m, events[0], key);
      ClosedKept(Next(m, events[0].time, events[0].act), events[0].time, events[1..], key);
    }
  }

  /**
   A key first used after Close gets a bucket that is open, and stays open until
   somebody closes the manager again: Close covers exactly the keys known to it.
   */
  lemma ClosedIffKnown(m: State, now: nat, closed: State, events: seq<Event>, key: string)
    requires Valid(m) && closed == Next(m, now, CloseAll) && Allowed(closed, now, events)
    requires forall i :: 0 <= i < |events| ==> !Closes(events[i], key)
    requires key in After(closed, now, events).buckets
    ensures var b := After(closed, now, events).buckets[key];
      && (b.closed <==> key in m.buckets)
      && (TB.BucketClosed in TB.ReadyOutcomes(b, false) <==> key in m.buckets)
  {
    ClosedKept(closed, now, events, key);
    CloseAllCloses(m, now, key);
  }

  lemma CloseAllNext(m: State, now: nat)
    requires Valid(m)
    ensures var m' := Next(m, now, CloseAll);
      && Valid(m') && m'.ratePerSecond == m.ratePerSecond && m'.buckets.Keys == m.buckets.Keys
      && forall key :: key in m.buckets ==> m'.buckets[key] == m.buckets[key].(closed := true)
  {
    ValidNext(m, now, CloseAll);
  }

  lemma CloseAllCloses(m: State, now: nat, key: string)
    requires Valid(m)
    ensures IsClosed(Next(m, now, CloseAll), key) <==> key in m.buckets
  {
  }

  /** Such a key exists: after Close of a new manager any key can still be looked up, and gets an open bucket. */
  lemma OpenAfterClose(ratePerSecond: int, now: nat, later: nat, key: string) returns (events: seq<Event>)
    requires ratePerSecond <= TB.SECOND && now <= later
    ensures Valid(New(ratePerSecond))
    ensures var closed := Next(New(ratePerSecond), now, CloseAll);
      && events == [At(later, Lookup(key))] && Allowed(closed, now, events)
      && key in After(closed, now, events).buckets && !IsClosed(After(closed, now, events), key)
  {
    var closed := Next(New(ratePerSecond), now, CloseAll);
    events := [At(later, Lookup(key))];
    ValidNext(New(ratePerSecond), now, CloseAll);
    ValidNext(closed, later, Lookup(key));
    assert events[1..] == [];
  }
}
