/**
 The single-key token bucket as a timed step system: a ticker, a refill
 goroutine, a bounded channel of tokens and the callers that take from it.
 Times are in nanoseconds.  Every event carries the time at which it happens;
 which of several possible events happens next is left open, as Go's scheduler
 and `select` leave it open.
 */
module TokenBucket {
  import opened Prelude
  import opened Counting

  const SECOND: nat := 1_000_000_000

  /**
   next: when the ticker is due to fire; pending: a tick is in the ticker's
   one-place channel; inHand: the refill goroutine has received a tick and has
   not yet offered it to the token channel; stopped: the refill goroutine has
   returned and stopped its ticker.  fired and granted count ticks and tokens
   over the bucket's whole life.
   */
  datatype State = State(rate: nat, period: nat, next: nat, pending: bool, inHand: bool,
                         tokens: nat, closed: bool, stopped: bool, fired: nat, granted: nat)

  datatype Action = Fire | Pick | Deposit | Exit | Take | Close

  datatype Event = At(time: nat, act: Action)

  function ClampedRate(ratePerSecond: int): nat {
    if ratePerSecond < 1 then 1 else ratePerSecond
  }

  /** None is the panic of time.NewTicker on a period that integer division made zero. */
  function New(ratePerSecond: int, now: nat): (b: Option<State>)
    ensures b.Some? <==> ratePerSecond <= SECOND
    ensures b.Some? ==> Valid(b.value) && b.value.tokens == b.value.granted == b.value.fired == 0
    ensures b.Some? && ratePerSecond < 1 ==> b.value.rate == 1 && b.value.period == 1_000_000_000
    ensures b.Some? && 1 <= ratePerSecond ==> b.value.rate == ratePerSecond
  {
    var rate := ClampedRate(ratePerSecond);
    var period := SECOND / rate;
    if period == 0 then None
    else Some(State(rate, period, now + period, false, false, 0, false, false, 0, 0))
  }

  ghost predicate Valid(b: State) {
    0 < b.rate && 0 < b.period && b.period == SECOND / b.rate && b.tokens <= b.rate
  }

  predicate Enabled(b: State, now: nat, a: Action) {
    match a
    case Fire => !b.stopped && b.next <= now
    case Pick => !b.stopped && b.pending && !b.inHand
    case Deposit => b.inHand
    case Exit => !b.stopped && b.closed && !b.inHand
    case Take => 0 < b.tokens
    case Close => true
  }

  /** A late tick is followed by the next tick of the original schedule, never by a burst. */
  function NextDue(next: nat, now: nat, period: nat): (due: nat)
    requires next <= now && 0 < period
    ensures now < due <= now + period && next + period <= due
  {
    DivBounds(now - next, period);
    next + period * (1 + (now - next) / period)
  }

  /** However late a tick is, the next one is due on the original schedule. */
  lemma DueOnSchedule(next: nat, now: nat, period: nat)
    requires next <= now && 0 < period
    ensures (NextDue(next, now, period) - next) % period == 0
  {
    var k := 1 + (now - next) / period;
    DivUnique(period * k, period, k);
  }

  function Next(b: State, now: nat, a: Action): State
    requires 0 < b.period && Enabled(b, now, a)
  {
    match a
    case Fire => b.(next := NextDue(b.next, now, b.period), pending := true, fired := b.fired + 1)
    case Pick => b.(pending := false, inHand := true)
    case Deposit => b.(inHand := false, tokens := if b.tokens < b.rate then b.tokens + 1 else b.tokens)
    case Exit => b.(stopped := true)
    case Take => b.(tokens := b.tokens - 1, granted := b.granted + 1)
    case Close => b.(closed := true)
  }

  ghost predicate Allowed(b: State, from: nat, events: seq<Event>)
    requires 0 < b.period
    decreases |events|
  {
    events == [] ||
    (from <= events[0].time && Enabled(b, events[0].time, events[0].act) &&
     Allowed(Next(b, events[0].time, events[0].act), events[0].time, events[1..]))
  }

  ghost function After(b: State, from: nat, events: seq<Event>): (b': State)
    requires 0 < b.period && Allowed(b, from, events)
    ensures 0 < b'.period
    decreases |events|
  {
    if events == [] then b
    else After(Next(b, events[0].time, events[0].act), events[0].time, events[1..])
  }

  ghost predicate Until(events: seq<Event>, horizon: nat) {
    forall i :: 0 <= i < |events| ==> events[i].time <= horizon
  }

  lemma {:induction false} AfterConcat(b: State, from: nat, left: seq<Event>, right: seq<Event>, mid: nat)
    requires 0 < b.period && Allowed(b, from, left) && from <= mid && Until(left, mid)
    requires Allowed(After(b, from, left), mid, right)
    ensures Allowed(b, from, left + right)
    ensures After(b, from, left + right) == After(After(b, from, left), mid, right)
    decreases |left|
  {
    if left == [] {
      assert left + right == right;
    } else {
      var e := left[0];
      assert (left + right)[0] == e && (left + right)[1..] == left[1..] + right;
      AfterConcat(Next(b, e.time, e.act), e.time, left[1..], right, mid);
    }
  }

  // ----- Division by the period -----

  lemma DivBounds(n: nat, d: nat)
    requires 0 < d
    ensures d * (n / d) <= n < d * (n / d) + d
  {
  }

  lemma MulMonotone(m: nat, n: nat, d: nat)
    requires m <= n
    ensures d * m <= d * n
  {
    assert d * n == d * m + d * (n - m);
  }

  lemma MulCancel(m: nat, n: nat, d: nat)
    requires 0 < d && d * m < d * n + d
    ensures m <= n
  {
    if n + 1 <= m {
      MulMonotone(n + 1, m, d);
    }
  }

  /** n / d is the only q with d * q <= n < d * (q + 1). */
  lemma DivUnique(n: nat, d: nat, q: nat)
    requires 0 < d && d * q <= n < d * q + d
    ensures n / d == q
  {
    DivBounds(n, d);
    MulCancel(n / d, q, d);
    MulCancel(q, n / d, d);
  }

  lemma DivMonotone(m: nat, n: nat, d: nat)
    requires 0 < d && m <= n
    ensures m / d <= n / d
  {
    DivBounds(m, d);
    DivBounds(n, d);
    MulCancel(m / d, n / d, d);
  }

  function CeilDiv(n: nat, d: nat): nat
    requires 0 < d
  {
    if n == 0 then 0 else 1 + (n - 1) / d
  }

  // ----- How many tokens the bucket can still hand out -----

  /** The multiples of the period from `first` on that are not after the horizon. */
  function Slots(first: nat, horizon: nat, period: nat): nat
    requires 0 < period
  {
    if horizon < first then 0 else 1 + (horizon - first) / period
  }

  lemma SlotsLater(x: nat, y: nat, horizon: nat, period: nat)
    requires 0 < period && x <= y
    ensures Slots(y, horizon, period) <= Slots(x, horizon, period)
    ensures x + period <= y && x <= horizon ==> Slots(y, horizon, period) + 1 <= Slots(x, horizon, period)
  {
    if y <= horizon {
      DivMonotone(horizon - y, horizon - x, period);
      if x + period <= y {
        DivMonotone(horizon - y, horizon - (x + period), period);
        DivBounds(horizon - x, period);
        assert (horizon - (x + period)) / period == (horizon - x) / period - 1 by {
          DivUnique(horizon - (x + period), period, (horizon - x) / period - 1);
        }
      }
    }
  }

  /** How often the ticker can still fire up to the horizon. */
  function FiresLeft(b: State, now: nat, horizon: nat): nat
    requires 0 < b.period
  {
    if b.stopped then 0
    else if now < b.next then Slots(b.next, horizon, b.period)
    else 1 + Slots(NextDue(b.next, now, b.period), horizon, b.period)
  }

  /** The tokens in the bucket and on their way to it; a pending tick is lost once refill has returned. */
  function Backlog(b: State): nat {
    b.tokens + One(b.inHand) + One(b.pending && !b.stopped)
  }

  function Budget(b: State, now: nat, horizon: nat): nat
    requires 0 < b.period
  {
    b.granted + Backlog(b) + FiresLeft(b, now, horizon)
  }

  lemma WaitingCreatesNoBudget(b: State, now: nat, later: nat, horizon: nat)
    requires 0 < b.period && now <= later <= horizon
    ensures Budget(b, later, horizon) <= Budget(b, now, horizon)
  {
    if !b.stopped && b.next <= later {
      var due := NextDue(b.next, later, b.period);
      if now < b.next {
        SlotsLater(b.next, due, horizon, b.period);
      } else {
        DivMonotone(now - b.next, later - b.next, b.period);
        assert b.period * ((now - b.next) / b.period) <= b.period * ((later - b.next) / b.period);
        SlotsLater(NextDue(b.next, now, b.period), due, horizon, b.period);
      }
    }
  }

  lemma StepCreatesNoBudget(b: State, now: nat, a: Action, horizon: nat)
    requires 0 < b.period && Enabled(b, now, a)
    ensures Budget(Next(b, now, a), now, horizon) <= Budget(b, now, horizon)
  {
  }

  lemma {:induction false} RunCreatesNoBudget(b: State, from: nat, events: seq<Event>, horizon: nat)
    requires 0 < b.period && Allowed(b, from, events) && from <= horizon && Until(events, horizon)
    ensures After(b, from, events).granted + Backlog(After(b, from, events)) <= Budget(b, from, horizon)
    decreases |events|
  {
    if events != [] {
      var e := events[0];
      WaitingCreatesNoBudget(b, from, e.time, horizon);
      StepCreatesNoBudget(b, e.time, e.act, horizon);
      RunCreatesNoBudget(Next(b, e.time, e.act), e.time, events[1..], horizon);
    }
  }

  /** A tick that was due before the window opened and has not fired yet. */
  function Overdue(b: State, now: nat): nat {
    One(!b.stopped && b.next <= now)
  }

  /**
   The sliding-window bound: in every run and every window (from, horizon] the
   tokens granted are at most those buffered when it opens, the ticks on their
   way to the buffer, and the ticks that fall into the window.
   */
  lemma WindowBound(b: State, from: nat, events: seq<Event>, horizon: nat)
    requires Valid(b) && Allowed(b, from, events) && from <= horizon && Until(events, horizon)
    ensures After(b, from, events).granted - b.granted
         <= Backlog(b) + Overdue(b, from) + CeilDiv(horizon - from, b.period)
    ensures Backlog(b) <= b.tokens + One(b.pending) + One(b.inHand)
    ensures After(b, from, events).granted - b.granted
         <= b.rate + 2 + Overdue(b, from) + CeilDiv(horizon - from, b.period)
  {
    RunCreatesNoBudget(b, from, events, horizon);
    var first := if from < b.next then b.next else NextDue(b.next, from, b.period);
    SlotsLater(from + 1, first, horizon, b.period);
  }

  /** Every grant is paid for by a tick: the same bound with the ticks actually fired. */
  lemma {:induction false} GrantsNeedTicks(b: State, from: nat, events: seq<Event>)
    requires 0 < b.period && Allowed(b, from, events)
    ensures var b' := After(b, from, events);
      b'.granted - b.granted + Backlog(b') <= Backlog(b) + (b'.fired - b.fired)
    decreases |events|
  {
    if events != [] {
      GrantsNeedTicks(Next(b, events[0].time, events[0].act), events[0].time, events[1..]);
    }
  }

  /** A bucket starts empty: within d nanoseconds of its creation it grants at most d / period tokens. */
  lemma GrantsSinceCreation(ratePerSecond: int, now: nat, events: seq<Event>, horizon: nat)
    requires New(ratePerSecond, now).Some? && Allowed(New(ratePerSecond, now).value, now, events)
    requires now <= horizon && Until(events, horizon)
    ensures var b := New(ratePerSecond, now).value;
      After(b, now, events).granted <= (horizon - now) / b.period
  {
    var b := New(ratePerSecond, now).value;
    RunCreatesNoBudget(b, now, events, horizon);
    SlotsFromStart(now, horizon, b.period);
  }

  lemma SlotsFromStart(start: nat, horizon: nat, period: nat)
    requires 0 < period && start <= horizon
    ensures Slots(start + period, horizon, period) == (horizon - start) / period
  {
    if horizon < start + period {
      DivUnique(horizon - start, period, 0);
    } else {
      var q := (horizon - (start + period)) / period;
      DivBounds(horizon - (start + period), period);
      assert period * (q + 1) == period * q + period;
      DivUnique(horizon - start, period, q + 1);
    }
  }

  // ----- A bucket nobody takes from -----

  function DepositsIn(events: seq<Event>): nat {
    if events == [] then 0 else One(events[0].act == Deposit) + DepositsIn(events[1..])
  }

  /** Every tick offered becomes a token until the bucket is full, and a full bucket stays full. */
  lemma {:induction false} TokensBanked(b: State, from: nat, events: seq<Event>)
    requires Valid(b) && Allowed(b, from, events) && forall i :: 0 <= i < |events| ==> events[i].act != Take
    ensures var most := b.tokens + DepositsIn(events);
      After(b, from, events).tokens == if most < b.rate then most else b.rate
    decreases |events|
  {
    if events != [] {
      assert events[0].act != Take;
      TokensBanked(Next(b, events[0].time, events[0].act), events[0].time, events[1..]);
    }
  }

  // ----- Closing -----

  datatype WaitOutcome = Token | ContextError | BucketClosed

  /** The cases of Wait's select that are ready; any of them may be chosen, and Wait blocks on none. */
  function ReadyOutcomes(b: State, contextDone: bool): set<WaitOutcome> {
    (if 0 < b.tokens then {Token} else {}) +
    (if contextDone then {ContextError} else {}) +
    (if b.closed then {BucketClosed} else {})
  }

  /** Once closed, in every later state every Wait has a return to take, and Close changes nothing. */
  lemma {:induction false} ClosedForGood(b: State, from: nat, events: seq<Event>, contextDone: bool)
    requires 0 < b.period && b.closed && Allowed(b, from, events)
    ensures var b' := After(b, from, events);
      BucketClosed in ReadyOutcomes(b', contextDone) && Next(b', from, Close) == b'
    decreases |events|
  {
    if events != [] {
      ClosedForGood(Next(b, events[0].time, events[0].act), events[0].time, events[1..], contextDone);
    }
  }

  /** Once the refill goroutine has returned, only the tokens in the buffer can still be granted. */
  lemma {:induction false} NoRefillAfterExit(b: State, from: nat, events: seq<Event>)
    requires Valid(b) && b.stopped && !b.inHand && Allowed(b, from, events)
    ensures var b' := After(b, from, events);
      b'.stopped && b'.granted + b'.tokens == b.granted + b.tokens && b'.granted - b.granted <= b.rate
    decreases |events|
  {
    if events != [] {
      NoRefillAfterExit(Next(b, events[0].time, events[0].act), events[0].time, events[1..]);
    }
  }

  /** The refill goroutine returns only with no tick in hand, so the lemma above applies from then on. */
  lemma {:induction false} ExitLeavesNothingInHand(b: State, from: nat, events: seq<Event>)
    requires 0 < b.period && (b.stopped ==> !b.inHand) && Allowed(b, from, events)
    ensures After(b, from, events).stopped ==> !After(b, from, events).inHand
    decreases |events|
  {
    if events != [] {
      ExitLeavesNothingInHand(Next(b, events[0].time, events[0].act), events[0].time, events[1..]);
    }
  }

  /** The refill goroutine returns only after Close. */
  lemma {:induction false} StopsOnlyClosed(b: State, from: nat, events: seq<Event>)
    requires 0 < b.period && (b.stopped ==> b.closed) && Allowed(b, from, events)
    ensures After(b, from, events).stopped ==> After(b, from, events).closed
    decreases |events|
  {
    if events != [] {
      StopsOnlyClosed(Next(b, events[0].time, events[0].act), events[0].time, events[1..]);
    }
  }
}
