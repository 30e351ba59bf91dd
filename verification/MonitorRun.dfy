/**
 Run over concurrent Checks: tick after tick, each around a concurrent run of
 Check, with one limiter whose tickers and goroutines never stop in between.
 */
module MonitorRun {
  import opened Counting
  import opened Metrics
  import opened Pool
  import opened PoolSafety
  import opened PoolLimits
  import opened Monitor
  import S = Store
  import TB = TokenBucket
  import L = Limiter
  import E = Engine
  import PoolProgress

  /**
   One tick: the time since the one before it, what happens to the limiter up to
   the end of the listing, and the run of Check that follows if that succeeds.
   */
  datatype Pass = Pass(wait: nat, idle: seq<L.Event>, actions: seq<Action>, last: State)

  /** Where a pass leaves the limiter, and when. */
  datatype Rest = Rest(at: nat, lim: L.State)

  function ConfigFor(env: E.Env, c: Config, v: E.View): Config {
    c.(targets := E.ToCheck(env, v), metered := env.metered, resolve := env.resolve)
  }

  /** From view v, with the limiter at rest, the pass can happen. */
  ghost predicate Happens(env: E.Env, c: Config, v: E.View, rest: Rest, pass: Pass) {
    var start := E.List(env, v);
    && rest.at <= start.now
    && L.Allowed(rest.lim, rest.at, pass.idle) && L.Until(pass.idle, start.now)
    && (env.up(v.ops) ==>
          && Pool.Run(ConfigFor(env, c, v), CheckStart(env, c, v, rest, pass), pass.actions, pass.last)
          && Returned(pass.last) && !pass.last.cancelled)
  }

  ghost function CheckStart(env: E.Env, c: Config, v: E.View, rest: Rest, pass: Pass): State
    requires L.Allowed(rest.lim, rest.at, pass.idle)
  {
    var start := E.List(env, v);
    Init(ConfigFor(env, c, v), start.now, start.counters, L.After(rest.lim, rest.at, pass.idle))
  }

  ghost function RestAfter(env: E.Env, c: Config, v: E.View, rest: Rest, pass: Pass): Rest
    requires Happens(env, c, v, rest, pass)
  {
    if env.up(v.ops) then Rest(pass.last.now, pass.last.lim)
    else Rest(E.List(env, v).now, L.After(rest.lim, rest.at, pass.idle))
  }

  /** The tick's effect on the engine, with the results and counters of the concurrent Check. */
  ghost function TickOf(env: E.Env, v: E.View, pass: Pass): E.View
  {
    if env.up(v.ops) && Filled(pass.last) then TickAround(env, v, pass.last) else E.List(env, v)
  }

  function Waited(v: E.View, pass: Pass): E.View {
    v.(now := v.now + pass.wait)
  }

  ghost predicate Passes(env: E.Env, c: Config, v: E.View, rest: Rest, passes: seq<Pass>)
    decreases |passes|
  {
    |passes| == 0 ||
    (var w, pass := Waited(v, passes[0]), passes[0];
     Happens(env, c, w, rest, pass) &&
     Passes(env, c, TickOf(env, w, pass), RestAfter(env, c, w, rest, pass), passes[1..]))
  }

  ghost function RunOf(env: E.Env, v: E.View, passes: seq<Pass>): E.View
    decreases |passes|
  {
    if |passes| == 0 then v else RunOf(env, TickOf(env, Waited(v, passes[0]), passes[0]), passes[1..])
  }

  lemma PassRefines(env: E.Env, c: Config, v: E.View, rest: Rest, pass: Pass) returns (round: E.Round)
    requires Happens(env, c, v, rest, pass)
    ensures E.Tick(env, v, round) == TickOf(env, v, pass) && round.wait == pass.wait
  {
    if env.up(v.ops) {
      var lim := L.After(rest.lim, rest.at, pass.idle);
      round := TickRefines(env, ConfigFor(env, c, v), v, lim, pass.actions, pass.last, pass.wait);
    } else {
      round := RoundOf([], 0, pass.wait);
    }
  }

  /** Ticks around concurrent Checks, one after the other, are a run of the engine. */
  lemma {:induction false} RunRefines(env: E.Env, c: Config, v: E.View, rest: Rest, passes: seq<Pass>)
    returns (rounds: seq<E.Round>)
    requires Passes(env, c, v, rest, passes)
    ensures |rounds| == |passes| && E.Run(env, v, rounds) == RunOf(env, v, passes)
    decreases |passes|
  {
    if |passes| == 0 {
      rounds := [];
    } else {
      var w := Waited(v, passes[0]);
      var v1 := TickOf(env, w, passes[0]);
      var later := RunRefines(env, c, v1, RestAfter(env, c, w, rest, passes[0]), passes[1..]);
      rounds := FirstRefines(env, c, v, rest, passes[0], v1, later);
    }
  }

  lemma FirstRefines(env: E.Env, c: Config, v: E.View, rest: Rest, pass: Pass, v1: E.View, later: seq<E.Round>)
    returns (rounds: seq<E.Round>)
    requires Happens(env, c, Waited(v, pass), rest, pass) && v1 == TickOf(env, Waited(v, pass), pass)
    ensures |rounds| == 1 + |later| && E.Run(env, v, rounds) == E.Run(env, v1, later)
  {
    var round := PassRefines(env, c, Waited(v, pass), rest, pass);
    rounds := [round] + later;
    E.RunFirst(env, v, round, v1, later);
  }

  /** So what /metrics says after any number of concurrent Checks is accounted for by the table. */
  lemma MetricsMatchAfterRun(env: E.Env, c: Config, v: E.View, rest: Rest, passes: seq<Pass>)
    requires Passes(env, c, v, rest, passes) && env.metered
    requires v.log == [] && v.checks == v.removed == [] && v.counters == Counters(0, 0, 0)
    ensures E.Accounted(RunOf(env, v, passes))
  {
    var rounds := RunRefines(env, c, v, rest, passes);
    E.MetricsMatchTable(env, v, rounds);
  }

  // ----- The rate per domain over the whole run -----

  /** The calls of client.Do for a domain in all ticks. */
  ghost function CallsIn(env: E.Env, v: E.View, passes: seq<Pass>, domain: string): nat
    decreases |passes|
  {
    if |passes| == 0 then 0
    else
      var w := Waited(v, passes[0]);
      (if env.up(w.ops) then passes[0].last.calls[domain] else 0) +
      CallsIn(env, TickOf(env, w, passes[0]), passes[1..], domain)
  }

  ghost function RestOf(env: E.Env, c: Config, v: E.View, rest: Rest, passes: seq<Pass>): Rest
    requires Passes(env, c, v, rest, passes)
    decreases |passes|
  {
    if |passes| == 0 then rest
    else
      var w := Waited(v, passes[0]);
      RestOf(env, c, TickOf(env, w, passes[0]), RestAfter(env, c, w, rest, passes[0]), passes[1..])
  }

  /** What happens to the limiter in one pass. */
  ghost function EventsIn(env: E.Env, c: Config, v: E.View, rest: Rest, pass: Pass): seq<L.Event>
    requires Happens(env, c, v, rest, pass)
  {
    pass.idle + (if env.up(v.ops)
                 then LimiterRun(ConfigFor(env, c, v), CheckStart(env, c, v, rest, pass), pass.actions, pass.last)
                 else [])
  }

  /** For the limiter, a pass is a run of the manager that pays for every call. */
  lemma PassLimited(env: E.Env, c: Config, v: E.View, rest: Rest, pass: Pass, domain: string)
    requires Happens(env, c, v, rest, pass) && c.limited
    ensures var events, rest' := EventsIn(env, c, v, rest, pass), RestAfter(env, c, v, rest, pass);
      && rest.at <= rest'.at && L.Allowed(rest.lim, rest.at, events) && L.Until(events, rest'.at)
      && L.After(rest.lim, rest.at, events) == rest'.lim
      && (if env.up(v.ops) then pass.last.calls[domain] else 0) <= L.Granted(rest'.lim, domain) - L.Granted(rest.lim, domain)
  {
    GrantedGrows(rest.lim, rest.at, pass.idle, domain);
    if env.up(v.ops) {
      CheckLimited(ConfigFor(env, c, v), CheckStart(env, c, v, rest, pass), pass.actions, pass.last, domain);
      L.AfterConcat(rest.lim, rest.at, pass.idle, E.List(env, v).now,
                    LimiterRun(ConfigFor(env, c, v), CheckStart(env, c, v, rest, pass), pass.actions, pass.last));
    } else {
      assert pass.idle + [] == pass.idle;
    }
  }

  lemma {:induction false} GrantedGrows(m: L.State, from: nat, events: seq<L.Event>, key: string)
    requires L.Allowed(m, from, events)
    ensures L.Granted(m, key) <= L.Granted(L.After(m, from, events), key)
    decreases |events|
  {
    if events != [] {
      LimiterOnlyGrants(m, events[0].time, events[0].act, key);
      GrantedGrows(L.Next(m, events[0].time, events[0].act), events[0].time, events[1..], key);
    }
  }

  lemma CheckLimited(c: Config, init: State, actions: seq<Action>, s: State, domain: string)
    requires Shape(c, init) && Pool.Run(c, init, actions, s) && c.limited
    requires init.calls[domain] == 0 && forall i :: 0 <= i < |init.pcs| ==> init.pcs[i].AwaitSlot?
    ensures init.now <= s.now && L.Allowed(init.lim, init.now, LimiterRun(c, init, actions, s))
    ensures L.After(init.lim, init.now, LimiterRun(c, init, actions, s)) == s.lim
    ensures L.Until(LimiterRun(c, init, actions, s), s.now)
    ensures s.calls[domain] <= L.Granted(s.lim, domain) - L.Granted(init.lim, domain)
  {
    LimiterRunAllowed(c, init, actions, s);
    UnpaidRun(c, init, actions, s, domain);
    CountBounds(init.pcs, AdmittedTo(domain));
  }

  /** The limiter's whole history in a run of the engine. */
  lemma {:induction false} RunLimited(env: E.Env, c: Config, v: E.View, rest: Rest, passes: seq<Pass>, domain: string)
    returns (events: seq<L.Event>)
    requires L.Valid(rest.lim) && Passes(env, c, v, rest, passes) && c.limited
    ensures var end := RestOf(env, c, v, rest, passes);
      && rest.at <= end.at && L.Allowed(rest.lim, rest.at, events) && L.Until(events, end.at)
      && L.After(rest.lim, rest.at, events) == end.lim
      && CallsIn(env, v, passes, domain) <= L.Granted(end.lim, domain) - L.Granted(rest.lim, domain)
    decreases |passes|
  {
    if |passes| == 0 {
      events := [];
    } else {
      var w, pass := Waited(v, passes[0]), passes[0];
      var first, mid := EventsIn(env, c, w, rest, pass), RestAfter(env, c, w, rest, pass);
      PassLimited(env, c, w, rest, pass, domain);
      var later := RunLimited(env, c, TickOf(env, w, pass), mid, passes[1..], domain);
      L.AfterConcat(rest.lim, rest.at, first, mid.at, later);
      events := first + later;
    }
  }

  /**
   The promise of the limiter over any number of ticks: the requests to one domain
   are at most what its bucket carried in at the start, nothing if it is new, and
   one per period elapsed.
   */
  lemma RequestsPerDomainOverRun(env: E.Env, c: Config, v: E.View, rest: Rest, passes: seq<Pass>, domain: string)
    requires L.Valid(rest.lim) && Passes(env, c, v, rest, passes) && c.limited
    requires L.SameRate(rest.lim) && rest.lim.ratePerSecond <= TB.SECOND
    ensures var end, period := RestOf(env, c, v, rest, passes), L.Period(rest.lim.ratePerSecond);
      && 0 < period && rest.at <= end.at
      && CallsIn(env, v, passes, domain)
           <= L.Carried(rest.lim, domain, rest.at) + TB.CeilDiv(end.at - rest.at, period)
  {
    hide *;
    var events := RunLimited(env, c, v, rest, passes, domain);
    L.WindowBound(rest.lim, rest.at, events, domain, RestOf(env, c, v, rest, passes).at);
  }

  /** The calls counted are those of the goroutines that entered client.Do for a URL of the domain. */
  ghost function Entered(env: E.Env, c: Config, v: E.View, passes: seq<Pass>, domain: string): nat
    decreases |passes|
  {
    if |passes| == 0 then 0
    else
      var w := Waited(v, passes[0]);
      (if env.up(w.ops) then EntriesFor(ConfigFor(env, c, w), passes[0].actions, domain) else 0) +
      Entered(env, c, TickOf(env, w, passes[0]), passes[1..], domain)
  }

  lemma {:induction false} CallsAreEntries(env: E.Env, c: Config, v: E.View, rest: Rest, passes: seq<Pass>, domain: string)
    requires Passes(env, c, v, rest, passes)
    ensures CallsIn(env, v, passes, domain) == Entered(env, c, v, passes, domain)
    decreases |passes|
  {
    if |passes| > 0 {
      var w, pass := Waited(v, passes[0]), passes[0];
      if env.up(w.ops) {
        CallsCounted(ConfigFor(env, c, w), CheckStart(env, c, w, rest, pass), pass.actions, pass.last, domain);
      }
      CallsAreEntries(env, c, TickOf(env, w, pass), RestAfter(env, c, w, rest, pass), passes[1..], domain);
    }
  }

  /** From every state of the engine some tick around a concurrent Check can happen. */
  lemma SomePassHappens(env: E.Env, c: Config, v: E.View, rest: Rest) returns (pass: Pass)
    requires L.Valid(rest.lim) && rest.at <= E.List(env, v).now
    requires c.limited ==> rest.lim.ratePerSecond <= TB.SECOND
    ensures Happens(env, c, v, rest, pass)
  {
    var start := E.List(env, v);
    var init := Init(ConfigFor(env, c, v), start.now, start.counters, rest.lim);
    InitInv(ConfigFor(env, c, v), start.now, start.counters, rest.lim);
    var actions, last := PoolProgress.Completes(ConfigFor(env, c, v), init, start.counters);
    pass := Pass(0, [], actions, last);
  }
}
