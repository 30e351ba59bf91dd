/**
 What "at most ratePerSecond tokens every second" amounts to, once the period
 has been rounded down to whole nanoseconds and a full bucket may be drained at
 once: the exact maximum of every window, and exactly when it keeps the promise.
 Both bounds of TokenBucket, since creation and for any window, are reached.
 */
module RatePromise {
  import opened Counting
  import opened TokenBucket

  /** The rounded period makes the ticker at most twice as fast, and exact up to 31622 ticks a second. */
  lemma TicksPerSecond(rate: nat)
    requires 1 <= rate <= SECOND
    ensures var period := SECOND / rate;
      0 < period && rate <= SECOND / period < 2 * rate && (rate * rate <= SECOND ==> SECOND / period == rate)
  {
    var period := SECOND / rate;
    DivBounds(SECOND, rate);
    MulCancel(1, period, rate);
    DivBounds(SECOND, period);
    MulCancel(rate, SECOND / period, period);
    MulMonotone(1, period, rate);
    assert rate * period == period * rate;
    assert period * (2 * rate - 1) == period * rate + (rate * period - period);
    if SECOND / period >= 2 * rate {
      MulMonotone(2 * rate, SECOND / period, period);
    }
    if rate * rate <= SECOND {
      MulCancel(rate, period, rate);
      DivUnique(SECOND, period, rate);
    }
  }

  // ----- Runs that reach the bounds -----

  /** n ticks, each taken as soon as it is in the bucket. */
  function DrainRun(start: nat, period: nat, n: nat): seq<Event>
    decreases n
  {
    if n == 0 then []
    else
      var t := start + period;
      [At(t, Fire), At(t, Pick), At(t, Deposit), At(t, Take)] + DrainRun(t, period, n - 1)
  }

  /** n ticks that nobody takes. */
  function FillRun(start: nat, period: nat, n: nat): seq<Event>
    decreases n
  {
    if n == 0 then []
    else
      var t := start + period;
      [At(t, Fire), At(t, Pick), At(t, Deposit)] + FillRun(t, period, n - 1)
  }

  function TakeRun(time: nat, n: nat): seq<Event>
    decreases n
  {
    if n == 0 then [] else [At(time, Take)] + TakeRun(time, n - 1)
  }

  ghost predicate Fresh(b: State, now: nat) {
    Valid(b) && b.next == now + b.period && !b.pending && !b.inHand && !b.stopped
  }

  lemma NextDueOnTime(next: nat, period: nat)
    requires 0 < period
    ensures NextDue(next, next, period) == next + period
  {
    DivUnique(0, period, 0);
  }

  lemma Prepend(b: State, from: nat, e: Event, rest: seq<Event>, events: seq<Event>)
    requires 0 < b.period && from <= e.time && Enabled(b, e.time, e.act)
    requires Allowed(Next(b, e.time, e.act), e.time, rest)
    requires events == [e] + rest
    ensures Allowed(b, from, events)
    ensures After(b, from, events) == After(Next(b, e.time, e.act), e.time, rest)
  {
    assert events[1..] == rest;
  }

  /** A tick that fires on time, is picked up and becomes a token, before `rest`. */
  lemma HandleTick(b: State, start: nat, rest: seq<Event>, events: seq<Event>)
    requires Fresh(b, start) && b.tokens < b.rate
    requires var t := start + b.period; events == [At(t, Fire), At(t, Pick), At(t, Deposit)] + rest
    requires Allowed(b.(next := b.next + b.period, tokens := b.tokens + 1, fired := b.fired + 1), start + b.period, rest)
    ensures var b' := b.(next := b.next + b.period, tokens := b.tokens + 1, fired := b.fired + 1);
      Allowed(b, start, events) && After(b, start, events) == After(b', start + b.period, rest)
  {
    var t := start + b.period;
    NextDueOnTime(t, b.period);
    var b1 := Next(b, t, Fire);
    var b2 := Next(b1, t, Pick);
    assert events[1..][1..][1..] == rest;
    Prepend(b2, t, At(t, Deposit), rest, events[1..][1..]);
    Prepend(b1, t, At(t, Pick), events[1..][1..], events[1..]);
    Prepend(b, start, At(t, Fire), events[1..], events);
  }

  lemma {:induction false} DrainRunGrants(b: State, start: nat, n: nat)
    requires Fresh(b, start) && b.tokens == 0
    ensures var run := DrainRun(start, b.period, n);
      Allowed(b, start, run) && Until(run, start + n * b.period) && After(b, start, run).granted == b.granted + n
    decreases n
  {
    if n > 0 {
      var t := start + b.period;
      var ready := b.(next := b.next + b.period, tokens := 1, fired := b.fired + 1);
      var rest := DrainRun(t, b.period, n - 1);
      DrainRunGrants(Next(ready, t, Take), t, n - 1);
      MulMonotone(1, n, b.period);
      assert (n - 1) * b.period == n * b.period - b.period;
      Prepend(ready, t, At(t, Take), rest, [At(t, Take)] + rest);
      HandleTick(b, start, [At(t, Take)] + rest, DrainRun(start, b.period, n));
    }
  }

  lemma {:induction false} FillRunBanks(b: State, start: nat, n: nat)
    requires Fresh(b, start) && b.tokens + n <= b.rate
    ensures var run := FillRun(start, b.period, n);
      Allowed(b, start, run) && Until(run, start + n * b.period) &&
      After(b, start, run) ==
        b.(next := b.next + n * b.period, tokens := b.tokens + n, fired := b.fired + n)
    decreases n
  {
    if n > 0 {
      var t := start + b.period;
      var b' := b.(next := b.next + b.period, tokens := b.tokens + 1, fired := b.fired + 1);
      FillRunBanks(b', t, n - 1);
      MulMonotone(1, n, b.period);
      assert (n - 1) * b.period == n * b.period - b.period;
      HandleTick(b, start, FillRun(t, b.period, n - 1), FillRun(start, b.period, n));
    }
  }

  lemma {:induction false} TakeRunGrants(b: State, time: nat, n: nat)
    requires 0 < b.period && n <= b.tokens
    ensures var run := TakeRun(time, n);
      Allowed(b, time, run) && Until(run, time) &&
      After(b, time, run) == b.(tokens := b.tokens - n, granted := b.granted + n)
    decreases n
  {
    if n > 0 {
      var run := TakeRun(time, n);
      assert run[1..] == TakeRun(time, n - 1);
      TakeRunGrants(Next(b, time, Take), time, n - 1);
    }
  }

  // ----- From creation: exactly when the promise is kept -----

  /** No run of a new bucket grants more than rate * k tokens in its first k seconds. */
  ghost predicate PromiseKept(rate: nat, k: nat)
    requires 1 <= rate <= SECOND
  {
    forall events: seq<Event> ::
      Allowed(New(rate, 0).value, 0, events) && Until(events, k * SECOND)
      ==> After(New(rate, 0).value, 0, events).granted <= rate * k
  }

  /** The promise over the first k seconds holds exactly when the rounding error has not added up to a period. */
  lemma PromiseKeptIff(rate: nat, k: nat)
    requires 1 <= rate <= SECOND
    ensures 0 < SECOND / rate
    ensures PromiseKept(rate, k) <==> k * (SECOND % rate) < SECOND / rate
  {
    var b := New(rate, 0).value;
    var horizon := k * SECOND;
    var most := horizon / b.period;
    DivBounds(horizon, b.period);
    assert SECOND == b.period * rate + SECOND % rate;
    assert horizon == b.period * (rate * k) + k * (SECOND % rate) by {
      assert k * (b.period * rate + SECOND % rate) == k * (b.period * rate) + k * (SECOND % rate);
      assert k * (b.period * rate) == b.period * (rate * k);
    }
    if k * (SECOND % rate) < b.period {
      DivUnique(horizon, b.period, rate * k);
      forall events: seq<Event> | Allowed(b, 0, events) && Until(events, horizon)
        ensures After(b, 0, events).granted <= rate * k
      {
        GrantsSinceCreation(rate, 0, events, horizon);
      }
    } else {
      assert b.period * (rate * k) + b.period == b.period * (rate * k + 1);
      MulCancel(rate * k + 1, most, b.period);
      DrainRunGrants(b, 0, most);
      assert most * b.period == b.period * most;
      assert After(b, 0, DrainRun(0, b.period, most)).granted > rate * k;
    }
  }

  /** In particular it holds over the first second for every rate up to 31622. */
  lemma PromiseKeptFirstSecond(rate: nat)
    requires 1 <= rate && rate * rate <= SECOND
    ensures rate <= SECOND && PromiseKept(rate, 1)
  {
    MulMonotone(1, rate, rate);
    TicksPerSecond(rate);
    DivBounds(SECOND, rate);
    MulCancel(rate, SECOND / rate, rate);
    PromiseKeptIff(rate, 1);
  }

  /** And it holds for ever exactly if the rate divides a second. */
  lemma PromiseKeptForEver(rate: nat)
    requires 1 <= rate <= SECOND
    ensures (forall k: nat :: PromiseKept(rate, k)) <==> SECOND % rate == 0
  {
    if SECOND % rate == 0 {
      forall k: nat
        ensures PromiseKept(rate, k)
      {
        PromiseKeptIff(rate, k);
      }
    } else {
      var k := SECOND / rate;
      PromiseKeptIff(rate, k);
      MulMonotone(1, SECOND % rate, k);
      assert !PromiseKept(rate, k);
    }
  }

  // ----- In an arbitrary window: the exact maximum -----

  /** What a window that opens in state b can grant. */
  function MostGrants(b: State, from: nat, horizon: nat): nat
    requires 0 < b.period
  {
    Backlog(b) + FiresLeft(b, from, horizon)
  }

  lemma SlotsNext(first: nat, horizon: nat, period: nat)
    requires 0 < period && first <= horizon
    ensures Slots(first, horizon, period) == 1 + Slots(first + period, horizon, period)
  {
    SlotsFromStart(first, horizon, period);
  }

  /** A tick that fires as soon as it can uses up one of those left. */
  lemma FireUsesOne(b: State, from: nat, horizon: nat)
    requires 0 < b.period && !b.stopped && from <= horizon && 0 < FiresLeft(b, from, horizon)
    ensures var t := if from < b.next then b.next else from;
      t <= horizon && Enabled(b, t, Fire) &&
      FiresLeft(b, from, horizon) == 1 + FiresLeft(Next(b, t, Fire), t, horizon)
  {
    if from < b.next {
      NextDueOnTime(b.next, b.period);
      SlotsNext(b.next, horizon, b.period);
    }
  }

  /** A tick in hand or a token in the bucket comes before a pending tick, and that before the next one. */
  function Eager(b: State, from: nat): Event {
    if 0 < b.tokens then At(from, Take)
    else if b.inHand then At(from, Deposit)
    else if b.pending then At(from, Pick)
    else At(if from < b.next then b.next else from, Fire)
  }

  /** A run that takes every token as early as it can. */
  lemma {:induction false} BestRun(b: State, from: nat, horizon: nat) returns (events: seq<Event>)
    requires Valid(b) && from <= horizon
    ensures Allowed(b, from, events) && Until(events, horizon)
    ensures After(b, from, events).granted == b.granted + MostGrants(b, from, horizon)
    decreases FiresLeft(b, from, horizon), One(b.pending), One(b.inHand), b.tokens
  {
    if MostGrants(b, from, horizon) == 0 {
      events := [];
    } else {
      var e := Eager(b, from);
      if e.act == Fire {
        FireUsesOne(b, from, horizon);
      }
      var rest := BestRun(Next(b, e.time, e.act), e.time, horizon);
      events := [e] + rest;
      Prepend(b, from, e, rest, events);
    }
  }

  /** No run grants more in the window than MostGrants, and some run grants as much. */
  lemma WindowMaximum(b: State, from: nat, horizon: nat) returns (best: seq<Event>)
    requires Valid(b) && from <= horizon
    ensures forall events :: Allowed(b, from, events) && Until(events, horizon) ==>
      After(b, from, events).granted - b.granted <= MostGrants(b, from, horizon)
    ensures Allowed(b, from, best) && Until(best, horizon)
    ensures After(b, from, best).granted - b.granted == MostGrants(b, from, horizon)
  {
    best := BestRun(b, from, horizon);
    forall events | Allowed(b, from, events) && Until(events, horizon)
      ensures After(b, from, events).granted - b.granted <= MostGrants(b, from, horizon)
    {
      RunCreatesNoBudget(b, from, events, horizon);
    }
  }

  /** No run from b grants more than its rate allows in the next k seconds. */
  ghost predicate WindowKept(b: State, from: nat, k: nat)
    requires 0 < b.period
  {
    forall events :: Allowed(b, from, events) && Until(events, from + k * SECOND) ==>
      After(b, from, events).granted - b.granted <= b.rate * k
  }

  /** The next k seconds keep the promise exactly when the maximum of that window does. */
  lemma WindowKeptIff(b: State, from: nat, k: nat)
    requires Valid(b)
    ensures WindowKept(b, from, k) <==> MostGrants(b, from, from + k * SECOND) <= b.rate * k
  {
    var best := WindowMaximum(b, from, from + k * SECOND);
    assert After(b, from, best).granted - b.granted == MostGrants(b, from, from + k * SECOND);
  }

  // ----- Windows that break the promise, and the worst of them -----

  /**
   For every rate there is a run that grants nothing at first and then
   rate + 1 tokens between `open` and the nanosecond after it.
   */
  lemma BankedBurst(rate: nat)
    requires 1 <= rate <= SECOND
    ensures New(rate, 0).Some?
    ensures var b := New(rate, 0).value;
      var quiet := FillRun(0, b.period, rate);
      var open := (rate + 1) * b.period - 1;
      var burst := TakeRun(open, rate) + DrainRun(open + 1 - b.period, b.period, 1);
      && Allowed(b, 0, quiet) && After(b, 0, quiet).granted == 0 && Until(quiet, open)
      && Allowed(After(b, 0, quiet), open, burst) && Until(burst, open + 1)
      && After(After(b, 0, quiet), open, burst).granted == rate + 1
  {
    var b := New(rate, 0).value;
    FillRunBanks(b, 0, rate);
    var full := After(b, 0, FillRun(0, b.period, rate));
    var open := (rate + 1) * b.period - 1;
    assert (rate + 1) * b.period == rate * b.period + b.period;
    TakeRunGrants(full, open, rate);
    var taken := After(full, open, TakeRun(open, rate));
    var tick := DrainRun(open + 1 - b.period, b.period, 1);
    DrainRunGrants(taken, open + 1 - b.period, 1);
    LaterStart(taken, open + 1 - b.period, open, tick);
    AfterConcat(full, open, TakeRun(open, rate), tick, open);
  }

  /** So for no rate does every sliding second keep the promise. */
  lemma NoRateKeepsEverySecond(rate: nat) returns (quiet: seq<Event>, open: nat)
    requires 1 <= rate <= SECOND
    ensures New(rate, 0).Some? && Allowed(New(rate, 0).value, 0, quiet) && Until(quiet, open)
    ensures !WindowKept(After(New(rate, 0).value, 0, quiet), open, 1)
  {
    var b := New(rate, 0).value;
    quiet, open := FillRun(0, b.period, rate), (rate + 1) * b.period - 1;
    BankedBurst(rate);
    var burst := TakeRun(open, rate) + DrainRun(open + 1 - b.period, b.period, 1);
    FillRunBanks(b, 0, rate);
    SecondExceeded(After(b, 0, quiet), open, burst);
  }

  lemma SecondExceeded(b: State, open: nat, burst: seq<Event>)
    requires 0 < b.period && Allowed(b, open, burst) && Until(burst, open + 1)
    requires After(b, open, burst).granted > b.granted + b.rate
    ensures !WindowKept(b, open, 1)
  {
    assert Until(burst, open + 1 * SECOND);
  }

  /** A run that begins with an event at or after `later` is also a run from `later`. */
  lemma LaterStart(b: State, from: nat, later: nat, events: seq<Event>)
    requires 0 < b.period && Allowed(b, from, events)
    requires events != [] ==> later <= events[0].time
    ensures Allowed(b, later, events) && After(b, later, events) == After(b, from, events)
  {
  }

  /** Fills the bucket, then leaves one tick in hand and one pending. */
  function CrowdRun(period: nat, rate: nat): seq<Event> {
    var t := (rate + 1) * period;
    FillRun(0, period, rate) + [At(t, Fire), At(t, Pick), At(t + period, Fire)]
  }

  /** Two ticks on time, the first of which the loop picks up. */
  lemma Crowd(b: State, from: nat)
    requires Valid(b) && from <= b.next && !b.pending && !b.inHand && !b.stopped
    ensures var t := b.next;
      var run := [At(t, Fire), At(t, Pick), At(t + b.period, Fire)];
      && Allowed(b, from, run)
      && After(b, from, run) == b.(next := t + b.period + b.period, inHand := true, pending := true, fired := b.fired + 2)
  {
    var t := b.next;
    NextDueOnTime(t, b.period);
    NextDueOnTime(t + b.period, b.period);
    var b1 := Next(b, t, Fire);
    var b2 := Next(b1, t, Pick);
    Prepend(b2, t, At(t + b.period, Fire), [], [At(t + b.period, Fire)]);
    Prepend(b1, t, At(t, Pick), [At(t + b.period, Fire)], [At(t, Pick), At(t + b.period, Fire)]);
    Prepend(b, from, At(t, Fire), [At(t, Pick), At(t + b.period, Fire)],
            [At(t, Fire), At(t, Pick), At(t + b.period, Fire)]);
  }

  lemma CrowdRunBanks(rate: nat)
    requires 1 <= rate <= SECOND
    ensures New(rate, 0).Some?
    ensures var b := New(rate, 0).value;
      var run := CrowdRun(b.period, rate);
      && Allowed(b, 0, run) && Until(run, (rate + 2) * b.period)
      && After(b, 0, run) ==
           b.(next := (rate + 3) * b.period, tokens := rate, inHand := true, pending := true, fired := rate + 2)
  {
    CrowdFrom(New(rate, 0).value);
  }

  lemma Multiples(n: nat, p: nat)
    ensures (n + 1) * p == n * p + p && (n + 2) * p == n * p + p + p && (n + 3) * p == n * p + p + p + p
  {
  }

  lemma CrowdFrom(b: State)
    requires Fresh(b, 0) && b.tokens == b.fired == 0
    ensures var run := CrowdRun(b.period, b.rate);
      && Allowed(b, 0, run) && Until(run, (b.rate + 2) * b.period)
      && After(b, 0, run) ==
           b.(next := (b.rate + 3) * b.period, tokens := b.rate, inHand := true, pending := true, fired := b.rate + 2)
  {
    Multiples(b.rate, b.period);
    FillRunBanks(b, 0, b.rate);
    CrowdAfter(b, b.rate * b.period, FillRun(0, b.period, b.rate));
  }

  lemma CrowdAfter(b: State, filled: nat, fill: seq<Event>)
    requires Valid(b) && !b.pending && !b.inHand && !b.stopped && Allowed(b, 0, fill) && Until(fill, filled)
    requires After(b, 0, fill) == b.(next := filled + b.period, tokens := b.rate, fired := b.rate)
    ensures var t := filled + b.period;
      var run := fill + [At(t, Fire), At(t, Pick), At(t + b.period, Fire)];
      && Allowed(b, 0, run) && Until(run, t + b.period)
      && After(b, 0, run) ==
           b.(next := t + b.period + b.period, tokens := b.rate, inHand := true, pending := true, fired := b.rate + 2)
  {
    var full, t := After(b, 0, fill), filled + b.period;
    Crowd(full, filled);
    AfterConcat(b, 0, fill, [At(t, Fire), At(t, Pick), At(t + b.period, Fire)], filled);
  }

  /** What a crowded bucket can grant in a window that opens just before its next tick, or the one after that. */
  lemma CrowdGrants(b: State, late: bool, from: nat, length: nat)
    requires Valid(b) && b.inHand && b.pending && !b.stopped && b.tokens == b.rate && 0 < b.next
    requires from == b.next - 1 + (if late then b.period else 0)
    ensures Overdue(b, from) == One(late)
    ensures MostGrants(b, from, from + length) == b.rate + 2 + One(late) + CeilDiv(length, b.period)
  {
    if late {
      DivUnique(b.period - 1, b.period, 0);
      assert NextDue(b.next, from, b.period) == from + 1;
    }
    assert Slots(from + 1, from + length, b.period) == CeilDiv(length, b.period);
  }

  lemma CrowdBursts(b: State, late: bool, length: nat) returns (from: nat, burst: seq<Event>)
    requires Valid(b) && b.inHand && b.pending && !b.stopped && b.tokens == b.rate && 0 < b.next
    ensures b.next - 1 <= from && Overdue(b, from) == One(late)
    ensures Allowed(b, from, burst) && Until(burst, from + length)
    ensures After(b, from, burst).granted == b.granted + b.rate + 2 + One(late) + CeilDiv(length, b.period)
  {
    from := b.next - 1 + (if late then b.period else 0);
    CrowdGrants(b, late, from, length);
    burst := BestRun(b, from, from + length);
  }

  /**
   The window bound of TokenBucket cannot be improved: for every rate and every
   length of the window, with or without an overdue tick at its opening, a new
   bucket gets to a state in which some run grants exactly as much.
   */
  lemma WindowBoundReached(rate: nat, late: bool, length: nat) returns (from: nat, burst: seq<Event>)
    requires 1 <= rate <= SECOND
    ensures New(rate, 0).Some?
    ensures var b := New(rate, 0).value;
      var quiet := CrowdRun(b.period, rate);
      && Allowed(b, 0, quiet) && Until(quiet, from) && After(b, 0, quiet).granted == 0
      && Overdue(After(b, 0, quiet), from) == One(late)
      && Allowed(After(b, 0, quiet), from, burst) && Until(burst, from + length)
      && After(After(b, 0, quiet), from, burst).granted == rate + 2 + One(late) + CeilDiv(length, b.period)
  {
    var b := New(rate, 0).value;
    CrowdRunBanks(rate);
    Multiples(rate, b.period);
    from, burst := CrowdBursts(After(b, 0, CrowdRun(b.period, rate)), late, length);
    assert Until(CrowdRun(b.period, rate), from);
    hide *;
  }
}
