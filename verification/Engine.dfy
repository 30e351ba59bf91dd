/**
 tick and Run: list the targets, check them, publish and record every result, and
 publish fresh statistics.  The database may fail in any pattern, and before each
 of the engine's calls the web handlers may have created and deleted any targets;
 every call the engine makes is logged.
 */
module Engine {
  import opened Prelude
  import opened Counting
  import opened Check
  import opened Metrics
  import opened Store
  import M = Makespan

  const DB_OP_TIMEOUT: nat := 5_000_000_000

  /** landed: the row is in the table; ok: the engine was told so. */
  datatype Call =
    | Listed(listed: bool)
    | PublishedCheck(r: CheckResult)
    | Recorded(r: CheckResult, landed: bool, ok: bool)
    | Queried(targetId: string, answered: bool)
    | PublishedStats(stats: Stats)

  /** What POST /targets and DELETE /targets/{id} do to the database. */
  datatype Change = Create(url: string, id: string, at: nat) | Delete(id: string)

  /**
   outcome(k) and took(k): what becomes of the k-th database call, and how long it
   takes; others(k): what the handlers have changed since the call before it.
   */
  datatype Env = Env(publishing: bool, metered: bool, outcome: nat -> Outcome, took: nat -> nat,
                     others: nat -> seq<Change>, resolve: string -> Result<string>)
  {
    predicate up(k: nat) { outcome(k).Answered? }
  }

  /** removed: the rows that deleted targets have taken with them. */
  datatype View = View(now: nat, ops: nat, log: seq<Call>, targets: seq<TargetRow>, checks: seq<CheckRow>,
                       removed: seq<CheckRow>, counters: Counters)

  // ----- The meaning of a tick -----

  /** tick's context never ends, so every check is answered with a slot. */
  type Served = a: Answer | a.Slot? witness Slot(0, Limited(""))

  /** A target and what the environment answers to its check. */
  datatype Probe = Probe(target: Target, answer: Served)

  function Results(env: Env, probes: seq<Probe>): (rs: seq<CheckResult>)
    ensures |rs| == |probes|
  {
    seq(|probes|, i requires 0 <= i < |probes| => CheckOne(env.resolve, probes[i].target, probes[i].answer))
  }

  predicate ResultFailed(r: CheckResult) {
    r.Failed()
  }

  function Apply(v: View, change: Change): View {
    match change
    case Create(url, id, at) => v.(targets := Created(v.targets, url, id, at))
    case Delete(id) =>
      v.(targets := Deleted(v.targets, id), checks := Others(v.checks, id), removed := v.removed + RowsOf(v.checks, id))
  }

  function ApplyAll(v: View, changes: seq<Change>): (v': View)
    ensures v'.now == v.now && v'.ops == v.ops && v'.log == v.log && v'.counters == v.counters
    decreases |changes|
  {
    if changes == [] then v else ApplyAll(Apply(v, changes[0]), changes[1..])
  }

  /** The state that the engine's next call meets. */
  function Meanwhile(env: Env, v: View): (v': View)
    ensures v'.now == v.now && v'.ops == v.ops && v'.log == v.log && v'.counters == v.counters
  {
    ApplyAll(v, env.others(v.ops))
  }

  function Operate(env: Env, v: View, calls: seq<Call>): View {
    v.(now := v.now + env.took(v.ops), ops := v.ops + 1, log := v.log + calls)
  }

  /** An insert needs to reach the database, and the foreign key needs the target. */
  predicate Lands(env: Env, v: View, r: CheckResult) {
    !env.outcome(v.ops).Unreached? && HasId(Meanwhile(env, v).targets, r.target.id)
  }

  function RecordBlock(env: Env, v: View, r: CheckResult): seq<Call> {
    var landed := Lands(env, v, r);
    (if env.publishing then [PublishedCheck(r)] else []) + [Recorded(r, landed, landed && env.up(v.ops))]
  }

  function RecordOne(env: Env, v: View, r: CheckResult): View {
    var met := Meanwhile(env, v);
    Operate(env, met, RecordBlock(env, v, r))
      .(checks := if Lands(env, v, r) then met.checks + [RowOf(r)] else met.checks)
  }

  function RecordAll(env: Env, v: View, results: seq<CheckResult>): View
    decreases |results|
  {
    if results == [] then v else RecordAll(env, RecordOne(env, v, results[0]), results[1..])
  }

  function QueryBlock(env: Env, v: View, targetId: string): seq<Call> {
    [Queried(targetId, env.up(v.ops))] +
    (if env.up(v.ops) then [PublishedStats(StatsOf(Meanwhile(env, v).checks, targetId, v.now))] else [])
  }

  function QueryOne(env: Env, v: View, targetId: string): View {
    Operate(env, Meanwhile(env, v), QueryBlock(env, v, targetId))
  }

  function QueryAll(env: Env, v: View, targets: seq<Target>): View
    decreases |targets|
  {
    if targets == [] then v else QueryAll(env, QueryOne(env, v, targets[0].id), targets[1..])
  }

  /** What Check does to the clock and the counters; `span` is how long it takes. */
  function CheckAll(env: Env, v: View, results: seq<CheckResult>, span: nat): View {
    v.(now := v.now + span,
       counters := if !env.metered then v.counters else
         Counters(v.counters.total + |results|, v.counters.inFlight, v.counters.failed + Count(results, ResultFailed)))
  }

  function Listing(rows: seq<TargetRow>): (targets: seq<Target>)
    ensures |targets| == |rows|
  {
    seq(|rows|, i requires 0 <= i < |rows| => rows[i].target)
  }

  /** The environment's answers to one tick's checks, by position, the time Check took, and the time since the last tick. */
  datatype Round = Round(answers: nat -> Served, span: nat, wait: nat)

  function Probes(targets: seq<Target>, round: Round): (probes: seq<Probe>)
    ensures |probes| == |targets|
  {
    seq(|targets|, i requires 0 <= i < |targets| => Probe(targets[i], round.answers(i)))
  }

  /** The state after the listing, and what is listed. */
  function List(env: Env, v: View): View {
    Operate(env, Meanwhile(env, v), [Listed(env.up(v.ops))])
  }

  function ToCheck(env: Env, v: View): seq<Target> {
    Listing(Meanwhile(env, v).targets)
  }

  function TickResults(env: Env, v: View, round: Round): (rs: seq<CheckResult>)
    ensures |rs| == |ToCheck(env, v)|
  {
    Results(env, Probes(ToCheck(env, v), round))
  }

  /** After Check, and after the last result has been recorded. */
  function AfterCheck(env: Env, v: View, round: Round): View {
    CheckAll(env, List(env, v), TickResults(env, v, round), round.span)
  }

  function AfterRecording(env: Env, v: View, round: Round): View {
    RecordAll(env, AfterCheck(env, v, round), TickResults(env, v, round))
  }

  function Tick(env: Env, v: View, round: Round): View {
    if !env.up(v.ops) then List(env, v)
    else if env.publishing then QueryAll(env, AfterRecording(env, v, round), ToCheck(env, v))
    else AfterRecording(env, v, round)
  }

  /** Run: a tick at once, and one more each time the ticker wins the select. */
  function Run(env: Env, v: View, rounds: seq<Round>): View
    decreases |rounds|
  {
    if |rounds| == 0 then v
    else Run(env, Tick(env, v.(now := v.now + rounds[0].wait), rounds[0]), rounds[1..])
  }

  lemma RunFirst(env: Env, v: View, first: Round, v1: View, rest: seq<Round>)
    requires v1 == Tick(env, v.(now := v.now + first.wait), first)
    ensures Run(env, v, [first] + rest) == Run(env, v1, rest)
  {
    hide Tick;
    assert ([first] + rest)[1..] == rest;
  }

  // ----- Conservation -----

  predicate IsLost(call: Call) {
    call.Recorded? && !call.landed
  }

  /** The row is in the table although the call reported an error. */
  predicate IsUnacknowledged(call: Call) {
    call.Recorded? && call.landed && !call.ok
  }

  /** What the engine logs as a failed insert. */
  predicate IsError(call: Call) {
    call.Recorded? && !call.ok
  }

  predicate OfFailure(call: Call) {
    call.Recorded? && RowFailed(RowOf(call.r))
  }

  predicate IsLostFailure(call: Call) {
    IsLost(call) && OfFailure(call)
  }

  predicate IsUnacknowledgedFailure(call: Call) {
    IsUnacknowledged(call) && OfFailure(call)
  }

  predicate IsErrorFailure(call: Call) {
    IsError(call) && OfFailure(call)
  }

  /** Every Recorded call that is told of success has landed. */
  ghost predicate Honest(log: seq<Call>) {
    forall call :: call in log && call.Recorded? && call.ok ==> call.landed
  }

  lemma ErrorsSplit(log: seq<Call>)
    requires Honest(log)
    ensures Count(log, IsError) == Count(log, IsLost) + Count(log, IsUnacknowledged)
    ensures Count(log, IsErrorFailure) == Count(log, IsLostFailure) + Count(log, IsUnacknowledgedFailure)
  {
    forall i | 0 <= i < |log|
      ensures One(IsLost(log[i])) + One(IsUnacknowledged(log[i])) == One(IsError(log[i]))
      ensures One(IsLostFailure(log[i])) + One(IsUnacknowledgedFailure(log[i])) == One(IsErrorFailure(log[i]))
    {
      assert log[i] in log;
    }
    CountSplit(log, IsLost, IsUnacknowledged, IsError);
    CountSplit(log, IsLostFailure, IsUnacknowledgedFailure, IsErrorFailure);
  }

  /** Checks counted by /metrics beyond those in the table, deleted with their target, or never inserted. */
  function Surplus(v: View): int {
    v.counters.total - |v.checks| - |v.removed| - Count(v.log, IsLost)
  }

  function SurplusFailures(v: View): int {
    v.counters.failed - Count(v.checks, RowFailed) - Count(v.removed, RowFailed) - Count(v.log, IsLostFailure)
  }

  lemma ApplyBalance(v: View, change: Change)
    ensures Surplus(Apply(v, change)) == Surplus(v) && SurplusFailures(Apply(v, change)) == SurplusFailures(v)
  {
    match change
    case Create(_, _, _) =>
    case Delete(id) =>
      CascadeSplits(v.checks, id);
      CountConcat(v.removed, RowsOf(v.checks, id), RowFailed);
  }

  lemma {:induction false} ApplyAllBalance(v: View, changes: seq<Change>)
    ensures Surplus(ApplyAll(v, changes)) == Surplus(v) && SurplusFailures(ApplyAll(v, changes)) == SurplusFailures(v)
    decreases |changes|
  {
    if changes != [] {
      ApplyBalance(v, changes[0]);
      ApplyAllBalance(Apply(v, changes[0]), changes[1..]);
    }
  }

  /** Calls none of which is a lost insert leave the balance alone. */
  lemma NothingLost(env: Env, v: View, calls: seq<Call>)
    requires forall i :: 0 <= i < |calls| ==> !calls[i].Recorded?
    ensures Surplus(Operate(env, v, calls)) == Surplus(v)
    ensures SurplusFailures(Operate(env, v, calls)) == SurplusFailures(v)
  {
    CountConcat(v.log, calls, IsLost);
    CountConcat(v.log, calls, IsLostFailure);
    CountBounds(calls, IsLost);
    CountBounds(calls, IsLostFailure);
  }

  lemma BlockLosses(env: Env, v: View, r: CheckResult)
    ensures var block, lost := RecordBlock(env, v, r), !Lands(env, v, r);
      && Count(v.log + block, IsLost) == Count(v.log, IsLost) + One(lost)
      && Count(v.log + block, IsLostFailure) == Count(v.log, IsLostFailure) + One(lost && RowFailed(RowOf(r)))
  {
    var published := if env.publishing then [PublishedCheck(r)] else [];
    var recorded := [Recorded(r, Lands(env, v, r), Lands(env, v, r) && env.up(v.ops))];
    CountConcat(v.log, published + recorded, IsLost);
    CountConcat(v.log, published + recorded, IsLostFailure);
    CountConcat(published, recorded, IsLost);
    CountConcat(published, recorded, IsLostFailure);
    CountBounds(published, IsLost);
    CountBounds(published, IsLostFailure);
    CountSingle(recorded[0], IsLost);
    CountSingle(recorded[0], IsLostFailure);
  }

  /** Storing or losing one result takes one from the surplus, and one from the failures if it failed. */
  lemma RecordOneBalance(env: Env, v: View, r: CheckResult)
    ensures var v' := RecordOne(env, v, r);
      && Surplus(v') == Surplus(v) - 1
      && SurplusFailures(v') == SurplusFailures(v) - One(RowFailed(RowOf(r)))
      && v'.counters == v.counters
  {
    var met := Meanwhile(env, v);
    ApplyAllBalance(v, env.others(v.ops));
    BlockLosses(env, v, r);
    CountConcat(met.checks, [RowOf(r)], RowFailed);
    CountSingle(RowOf(r), RowFailed);
  }

  lemma {:induction false} RecordAllBalance(env: Env, v: View, results: seq<CheckResult>)
    requires forall i :: 0 <= i < |results| ==> RowFailed(RowOf(results[i])) == results[i].Failed()
    ensures var v' := RecordAll(env, v, results);
      && Surplus(v') == Surplus(v) - |results|
      && SurplusFailures(v') == SurplusFailures(v) - Count(results, ResultFailed)
      && v'.counters == v.counters
    decreases |results|
  {
    if results != [] {
      RecordOneBalance(env, v, results[0]);
      RecordAllBalance(env, RecordOne(env, v, results[0]), results[1..]);
    }
  }

  lemma {:induction false} QueryAllBalance(env: Env, v: View, targets: seq<Target>)
    ensures var v' := QueryAll(env, v, targets);
      Surplus(v') == Surplus(v) && SurplusFailures(v') == SurplusFailures(v) && v'.counters == v.counters
    decreases |targets|
  {
    if targets != [] {
      ApplyAllBalance(v, env.others(v.ops));
      NothingLost(env, Meanwhile(env, v), QueryBlock(env, v, targets[0].id));
      QueryAllBalance(env, QueryOne(env, v, targets[0].id), targets[1..]);
    }
  }

  lemma ListBalance(env: Env, v: View)
    ensures Surplus(List(env, v)) == Surplus(v) && SurplusFailures(List(env, v)) == SurplusFailures(v)
  {
    ApplyAllBalance(v, env.others(v.ops));
    NothingLost(env, Meanwhile(env, v), [Listed(env.up(v.ops))]);
  }

  lemma ResultsAgree(env: Env, probes: seq<Probe>)
    ensures forall i :: 0 <= i < |probes| ==> RowFailed(RowOf(Results(env, probes)[i])) == Results(env, probes)[i].Failed()
  {
    forall i | 0 <= i < |probes|
      ensures RowFailed(RowOf(Results(env, probes)[i])) == Results(env, probes)[i].Failed()
    {
      OneMeaningOfDown(env.resolve, probes[i].target, probes[i].answer);
    }
  }

  /** A tick, with any pattern of database errors and deletions, neither creates nor loses a check unaccounted for. */
  lemma TickConserves(env: Env, v: View, round: Round)
    ensures var v' := Tick(env, v, round);
      && v'.counters.inFlight == v.counters.inFlight
      && (env.metered ==> Surplus(v') == Surplus(v) && SurplusFailures(v') == SurplusFailures(v))
      && (!env.metered ==> v'.counters == v.counters)
  {
    ListBalance(env, v);
    if env.up(v.ops) {
      var results := TickResults(env, v, round);
      ResultsAgree(env, Probes(ToCheck(env, v), round));
      RecordAllBalance(env, AfterCheck(env, v, round), results);
      QueryAllBalance(env, AfterRecording(env, v, round), ToCheck(env, v));
    }
  }

  lemma {:induction false} RunConserves(env: Env, v: View, rounds: seq<Round>)
    ensures var v' := Run(env, v, rounds);
      && v'.counters.inFlight == v.counters.inFlight
      && (env.metered ==> Surplus(v') == Surplus(v) && SurplusFailures(v') == SurplusFailures(v))
      && (!env.metered ==> v'.counters == v.counters)
    decreases |rounds|
  {
    hide Tick;
    if |rounds| > 0 {
      var waited := v.(now := v.now + rounds[0].wait);
      var v1 := Tick(env, waited, rounds[0]);
      assert Surplus(waited) == Surplus(v) && SurplusFailures(waited) == SurplusFailures(v);
      TickConserves(env, waited, rounds[0]);
      RunConserves(env, v1, rounds[1..]);
      assert Run(env, v, rounds) == Run(env, v1, rounds[1..]);
    }
  }

  /** What the engine knows of an insert is never too optimistic. */
  lemma {:induction false} RunHonest(env: Env, v: View, rounds: seq<Round>)
    requires Honest(v.log)
    ensures Honest(Run(env, v, rounds).log)
    decreases |rounds|
  {
    if |rounds| > 0 {
      var waited := v.(now := v.now + rounds[0].wait);
      TickHonest(env, waited, rounds[0]);
      RunHonest(env, Tick(env, waited, rounds[0]), rounds[1..]);
    }
  }

  lemma TickHonest(env: Env, v: View, round: Round)
    requires Honest(v.log)
    ensures Honest(Tick(env, v, round).log)
  {
    if env.up(v.ops) {
      RecordAllHonest(env, AfterCheck(env, v, round), TickResults(env, v, round));
      QueryAllHonest(env, AfterRecording(env, v, round), ToCheck(env, v));
    }
  }

  lemma {:induction false} RecordAllHonest(env: Env, v: View, results: seq<CheckResult>)
    requires Honest(v.log)
    ensures Honest(RecordAll(env, v, results).log)
    decreases |results|
  {
    if results != [] {
      RecordAllHonest(env, RecordOne(env, v, results[0]), results[1..]);
    }
  }

  lemma {:induction false} QueryAllHonest(env: Env, v: View, targets: seq<Target>)
    requires Honest(v.log)
    ensures Honest(QueryAll(env, v, targets).log)
    decreases |targets|
  {
    if targets != [] {
      QueryAllHonest(env, QueryOne(env, v, targets[0].id), targets[1..]);
    }
  }

  /**
   From a fresh start /metrics and the checks table differ by exactly the rows
   that deleted targets took with them and the inserts that did not happen; in
   terms of the errors the engine logs, by the rows deleted and the errors, less
   those errors whose insert took effect all the same.
   */
  lemma MetricsMatchTable(env: Env, v: View, rounds: seq<Round>)
    requires v.log == [] && v.checks == v.removed == [] && v.counters == Counters(0, 0, 0) && env.metered
    ensures Accounted(Run(env, v, rounds))
  {
    RunConserves(env, v, rounds);
    RunHonest(env, v, rounds);
    AccountedFor(Run(env, v, rounds));
  }

  ghost predicate Accounted(v: View) {
    && v.counters.inFlight == 0
    && v.counters.total == |v.checks| + |v.removed| + Count(v.log, IsLost)
    && v.counters.failed == Count(v.checks, RowFailed) + Count(v.removed, RowFailed) + Count(v.log, IsLostFailure)
    && v.counters.total + Count(v.log, IsUnacknowledged) == |v.checks| + |v.removed| + Count(v.log, IsError)
    && v.counters.failed + Count(v.log, IsUnacknowledgedFailure)
         == Count(v.checks, RowFailed) + Count(v.removed, RowFailed) + Count(v.log, IsErrorFailure)
    && (v.counters.total == |v.checks| <==> v.removed == [] && Count(v.log, IsLost) == 0)
    && (v.counters.total == |v.checks| ==> v.counters.failed == Count(v.checks, RowFailed))
  }

  lemma AccountedFor(v: View)
    requires Surplus(v) == SurplusFailures(v) == v.counters.inFlight == 0 && Honest(v.log)
    ensures Accounted(v)
  {
    ErrorsSplit(v.log);
    CountImplies(v.log, IsLostFailure, IsLost);
  }

  // ----- How long a tick takes -----

  lemma {:induction false} RecordAllTime(env: Env, v: View, results: seq<CheckResult>)
    requires forall k: nat :: env.took(k) <= DB_OP_TIMEOUT
    ensures v.now <= RecordAll(env, v, results).now <= v.now + |results| * DB_OP_TIMEOUT
    decreases |results|
  {
    if results != [] {
      RecordAllTime(env, RecordOne(env, v, results[0]), results[1..]);
    }
  }

  lemma {:induction false} QueryAllTime(env: Env, v: View, targets: seq<Target>)
    requires forall k: nat :: env.took(k) <= DB_OP_TIMEOUT
    ensures v.now <= QueryAll(env, v, targets).now <= v.now + |targets| * DB_OP_TIMEOUT
    decreases |targets|
  {
    if targets != [] {
      QueryAllTime(env, QueryOne(env, v, targets[0].id), targets[1..]);
    }
  }

  /** With every database call cut off at its timeout and Check within its makespan, so is the tick. */
  lemma TickTime(env: Env, v: View, round: Round, slots: nat, timeout: nat)
    requires (forall k: nat :: env.took(k) <= DB_OP_TIMEOUT)
    requires 0 < slots && round.span <= M.Rounds(|ToCheck(env, v)|, slots) * timeout
    ensures v.now <= Tick(env, v, round).now
    ensures Tick(env, v, round).now - v.now
         <= (1 + 2 * |ToCheck(env, v)|) * 5_000_000_000 + M.Rounds(|ToCheck(env, v)|, slots) * timeout
  {
    if env.up(v.ops) {
      RecordAllTime(env, AfterCheck(env, v, round), TickResults(env, v, round));
      QueryAllTime(env, AfterRecording(env, v, round), ToCheck(env, v));
    }
  }

  // ----- The clock, and the number of ticks -----

  /** The time that n database calls take, the from-th being the first. */
  function Elapsed(env: Env, from: nat, n: nat): nat
    decreases n
  {
    if n == 0 then 0 else env.took(from) + Elapsed(env, from + 1, n - 1)
  }

  lemma {:induction false} ElapsedConcat(env: Env, from: nat, m: nat, n: nat)
    ensures Elapsed(env, from, m + n) == Elapsed(env, from, m) + Elapsed(env, from + m, n)
    decreases m
  {
    if m > 0 {
      ElapsedConcat(env, from + 1, m - 1, n);
    }
  }

  lemma {:induction false} RecordAllClock(env: Env, v: View, results: seq<CheckResult>)
    ensures var v' := RecordAll(env, v, results);
      v'.ops == v.ops + |results| && v'.now == v.now + Elapsed(env, v.ops, |results|)
    decreases |results|
  {
    if results != [] {
      RecordAllClock(env, RecordOne(env, v, results[0]), results[1..]);
    }
  }

  lemma {:induction false} QueryAllClock(env: Env, v: View, targets: seq<Target>)
    ensures var v' := QueryAll(env, v, targets);
      v'.ops == v.ops + |targets| && v'.now == v.now + Elapsed(env, v.ops, |targets|)
    decreases |targets|
  {
    if targets != [] {
      QueryAllClock(env, QueryOne(env, v, targets[0].id), targets[1..]);
    }
  }

  /** How many database calls a tick makes. */
  function CallsOf(env: Env, v: View): nat {
    var n := |Meanwhile(env, v).targets|;
    1 + (if !env.up(v.ops) then 0 else if env.publishing then n + n else n)
  }

  /** The first part of a tick whose listing succeeds, up to the last insert. */
  lemma RecordingClock(env: Env, v: View, round: Round)
    requires env.up(v.ops)
    ensures var mid, n := AfterRecording(env, v, round), |ToCheck(env, v)|;
      mid.ops == v.ops + (1 + n) && mid.now == v.now + Elapsed(env, v.ops, 1 + n) + round.span
  {
    RecordAllClock(env, AfterCheck(env, v, round), TickResults(env, v, round));
    ElapsedConcat(env, v.ops, 1, |ToCheck(env, v)|);
  }

  lemma QueryingClock(env: Env, ops: nat, start: nat, mid: View, targets: seq<Target>)
    requires mid.ops == ops + (1 + |targets|) && mid.now == start + Elapsed(env, ops, 1 + |targets|)
    ensures var v' := QueryAll(env, mid, targets);
      v'.ops == ops + (1 + (|targets| + |targets|)) && v'.now == start + Elapsed(env, ops, 1 + (|targets| + |targets|))
  {
    QueryAllClock(env, mid, targets);
    ElapsedConcat(env, ops, 1 + |targets|, |targets|);
  }

  /** A tick lasts exactly as long as its database calls and its Check. */
  lemma TickClock(env: Env, v: View, round: Round)
    ensures var v' := Tick(env, v, round);
      && v'.ops == v.ops + CallsOf(env, v)
      && v'.now == v.now + Elapsed(env, v.ops, CallsOf(env, v)) + (if env.up(v.ops) then round.span else 0)
  {
    if env.up(v.ops) {
      RecordingClock(env, v, round);
      QueryingClock(env, v.ops, v.now + round.span, AfterRecording(env, v, round), ToCheck(env, v));
      hide AfterRecording, Elapsed, QueryAll;
      assert |ToCheck(env, v)| == |Meanwhile(env, v).targets|;
      assert Tick(env, v, round) == if env.publishing then QueryAll(env, AfterRecording(env, v, round), ToCheck(env, v))
                                    else AfterRecording(env, v, round);
    } else {
      assert Elapsed(env, v.ops, 1) == env.took(v.ops) + Elapsed(env, v.ops + 1, 0);
    }
  }

  predicate IsListing(call: Call) {
    call.Listed?
  }

  lemma {:induction false} RecordAllListings(env: Env, v: View, results: seq<CheckResult>)
    ensures Count(RecordAll(env, v, results).log, IsListing) == Count(v.log, IsListing)
    decreases |results|
  {
    if results != [] {
      CountConcat(v.log, RecordBlock(env, v, results[0]), IsListing);
      CountBounds(RecordBlock(env, v, results[0]), IsListing);
      RecordAllListings(env, RecordOne(env, v, results[0]), results[1..]);
    }
  }

  lemma {:induction false} QueryAllListings(env: Env, v: View, targets: seq<Target>)
    ensures Count(QueryAll(env, v, targets).log, IsListing) == Count(v.log, IsListing)
    decreases |targets|
  {
    if targets != [] {
      CountConcat(v.log, QueryBlock(env, v, targets[0].id), IsListing);
      CountBounds(QueryBlock(env, v, targets[0].id), IsListing);
      QueryAllListings(env, QueryOne(env, v, targets[0].id), targets[1..]);
    }
  }

  lemma TickListsOnce(env: Env, v: View, round: Round)
    ensures Count(Tick(env, v, round).log, IsListing) == Count(v.log, IsListing) + 1
  {
    CountAppend(v.log, Listed(env.up(v.ops)), IsListing);
    if env.up(v.ops) {
      RecordAllListings(env, AfterCheck(env, v, round), TickResults(env, v, round));
      QueryAllListings(env, AfterRecording(env, v, round), ToCheck(env, v));
    }
  }

  /** Every round is one tick. */
  lemma {:induction false} RunTicks(env: Env, v: View, rounds: seq<Round>)
    ensures Count(Run(env, v, rounds).log, IsListing) == Count(v.log, IsListing) + |rounds|
    decreases |rounds|
  {
    hide Tick;
    if |rounds| > 0 {
      var waited := v.(now := v.now + rounds[0].wait);
      TickListsOnce(env, waited, rounds[0]);
      RunTicks(env, Tick(env, waited, rounds[0]), rounds[1..]);
    }
  }

  function Waits(rounds: seq<Round>): nat {
    if |rounds| == 0 then 0 else rounds[0].wait + Waits(rounds[1..])
  }

  /** A run begins its next tick only after the one before it: time passes for every wait and every database call. */
  lemma {:induction false} RunClock(env: Env, v: View, rounds: seq<Round>)
    ensures var v' := Run(env, v, rounds);
      v.ops <= v'.ops && v.now + Waits(rounds) + Elapsed(env, v.ops, v'.ops - v.ops) <= v'.now
    decreases |rounds|
  {
    hide Tick;
    if |rounds| > 0 {
      var waited := v.(now := v.now + rounds[0].wait);
      var v1 := Tick(env, waited, rounds[0]);
      TickClock(env, waited, rounds[0]);
      RunClock(env, v1, rounds[1..]);
      ElapsedConcat(env, v.ops, v1.ops - v.ops, Run(env, v1, rounds[1..]).ops - v1.ops);
    }
  }
}
