/**
 Which calls a tick makes, in which order, and what the table, the log and the
 published statistics then say of each other.
 */
module EngineCalls {
  import opened Prelude
  import opened Counting
  import opened Check
  import opened Metrics
  import opened Store
  import opened Engine
  import opened EngineTable

  // ----- Order of the calls -----

  function RecordedIn(calls: seq<Call>): seq<CheckResult> {
    if calls == [] then [] else (if calls[0].Recorded? then [calls[0].r] else []) + RecordedIn(calls[1..])
  }

  function PublishedIn(calls: seq<Call>): seq<CheckResult> {
    if calls == [] then [] else (if calls[0].PublishedCheck? then [calls[0].r] else []) + PublishedIn(calls[1..])
  }

  function QueriedIn(calls: seq<Call>): seq<string> {
    if calls == [] then [] else (if calls[0].Queried? then [calls[0].targetId] else []) + QueriedIn(calls[1..])
  }

  /** The inserts among the calls. */
  function InsertsIn(calls: seq<Call>): seq<Call> {
    if calls == [] then [] else (if calls[0].Recorded? then [calls[0]] else []) + InsertsIn(calls[1..])
  }

  /** The rows that were inserted. */
  function StoredIn(calls: seq<Call>): seq<CheckRow> {
    if calls == [] then []
    else (if calls[0].Recorded? && calls[0].landed then [RowOf(calls[0].r)] else []) + StoredIn(calls[1..])
  }

  lemma {:induction false} FiltersConcat(a: seq<Call>, b: seq<Call>)
    ensures RecordedIn(a + b) == RecordedIn(a) + RecordedIn(b)
    ensures PublishedIn(a + b) == PublishedIn(a) + PublishedIn(b)
    ensures QueriedIn(a + b) == QueriedIn(a) + QueriedIn(b)
    ensures StoredIn(a + b) == StoredIn(a) + StoredIn(b)
    ensures InsertsIn(a + b) == InsertsIn(a) + InsertsIn(b)
  {
    if a == [] {
      assert a + b == b;
    } else {
      var all := a + b;
      assert all[0] == a[0] && all[1..] == a[1..] + b;
      FiltersConcat(a[1..], b);
      Regroup(if a[0].Recorded? then [a[0].r] else [], RecordedIn(a[1..]), RecordedIn(b));
      Regroup(if a[0].PublishedCheck? then [a[0].r] else [], PublishedIn(a[1..]), PublishedIn(b));
      Regroup(if a[0].Queried? then [a[0].targetId] else [], QueriedIn(a[1..]), QueriedIn(b));
      Regroup(if a[0].Recorded? then [a[0]] else [], InsertsIn(a[1..]), InsertsIn(b));
      Regroup(if a[0].Recorded? && a[0].landed then [RowOf(a[0].r)] else [], StoredIn(a[1..]), StoredIn(b));
    }
  }

  function Ids(targets: seq<Target>): seq<string> {
    if targets == [] then [] else [targets[0].id] + Ids(targets[1..])
  }

  /** The calls that recording all results makes. */
  function RecordCalls(env: Env, v: View, results: seq<CheckResult>): seq<Call>
    decreases |results|
  {
    if results == [] then []
    else RecordBlock(env, v, results[0]) + RecordCalls(env, RecordOne(env, v, results[0]), results[1..])
  }

  lemma {:induction false} RecordAllLogs(env: Env, v: View, results: seq<CheckResult>)
    ensures var v' := RecordAll(env, v, results);
      v'.log == v.log + RecordCalls(env, v, results) && v'.ops == v.ops + |results|
    decreases |results|
  {
    if results == [] {
      assert v.log + [] == v.log;
    } else {
      var v1 := RecordOne(env, v, results[0]);
      RecordAllLogs(env, v1, results[1..]);
      Regroup(v.log, RecordBlock(env, v, results[0]), RecordCalls(env, v1, results[1..]));
    }
  }

  lemma BlockFilters(env: Env, v: View, r: CheckResult)
    ensures var block, landed := RecordBlock(env, v, r), Lands(env, v, r);
      && RecordedIn(block) == [r] && PublishedIn(block) == (if env.publishing then [r] else [])
      && QueriedIn(block) == [] && StoredIn(block) == (if landed then [RowOf(r)] else [])
      && InsertsIn(block) == [Recorded(r, landed, landed && env.up(v.ops))]
  {
    var published := if env.publishing then [PublishedCheck(r)] else [];
    var recorded := [Recorded(r, Lands(env, v, r), Lands(env, v, r) && env.up(v.ops))];
    assert recorded[1..] == [] && (env.publishing ==> published[1..] == []);
    FiltersConcat(published, recorded);
  }

  lemma {:induction false} RecordCallsComplete(env: Env, v: View, results: seq<CheckResult>)
    ensures var calls := RecordCalls(env, v, results);
      && RecordedIn(calls) == results
      && PublishedIn(calls) == (if env.publishing then results else [])
      && QueriedIn(calls) == []
    decreases |results|
  {
    if results != [] {
      var v1 := RecordOne(env, v, results[0]);
      RecordCallsComplete(env, v1, results[1..]);
      BlockFilters(env, v, results[0]);
      FiltersConcat(RecordBlock(env, v, results[0]), RecordCalls(env, v1, results[1..]));
      assert [results[0]] + results[1..] == results;
    }
  }

  /** A result is recorded directly after it was published. */
  ghost predicate PublishedFirst(calls: seq<Call>) {
    forall i :: 0 <= i < |calls| && calls[i].Recorded? ==> 0 < i && calls[i - 1] == PublishedCheck(calls[i].r)
  }

  lemma {:induction false} RecordCallsInOrder(env: Env, v: View, results: seq<CheckResult>)
    ensures env.publishing ==> PublishedFirst(RecordCalls(env, v, results))
    decreases |results|
  {
    if results != [] {
      RecordCallsInOrder(env, RecordOne(env, v, results[0]), results[1..]);
    }
  }

  /** The calls that publishing the statistics makes. */
  function QueryCalls(env: Env, v: View, targets: seq<Target>): seq<Call>
    decreases |targets|
  {
    if targets == [] then []
    else QueryBlock(env, v, targets[0].id) + QueryCalls(env, QueryOne(env, v, targets[0].id), targets[1..])
  }

  lemma {:induction false} QueryAllLogs(env: Env, v: View, targets: seq<Target>)
    ensures var v' := QueryAll(env, v, targets);
      v'.log == v.log + QueryCalls(env, v, targets) && v'.ops == v.ops + |targets|
    decreases |targets|
  {
    if targets == [] {
      assert v.log + [] == v.log;
    } else {
      var v1 := QueryOne(env, v, targets[0].id);
      QueryAllLogs(env, v1, targets[1..]);
      Regroup(v.log, QueryBlock(env, v, targets[0].id), QueryCalls(env, v1, targets[1..]));
    }
  }

  /** Every query is made, in order. */
  lemma {:induction false} QueryCallsComplete(env: Env, v: View, targets: seq<Target>)
    ensures var calls := QueryCalls(env, v, targets);
      QueriedIn(calls) == Ids(targets) && RecordedIn(calls) == [] && PublishedIn(calls) == []
    decreases |targets|
  {
    if targets != [] {
      var v1 := QueryOne(env, v, targets[0].id);
      QueryCallsComplete(env, v1, targets[1..]);
      FiltersConcat(QueryBlock(env, v, targets[0].id), QueryCalls(env, v1, targets[1..]));
      QueryFilters(targets[0].id, env.up(v.ops), StatsOf(Meanwhile(env, v).checks, targets[0].id, v.now));
    }
  }

  lemma QueryFilters(targetId: string, answered: bool, stats: Stats)
    ensures var calls := [Queried(targetId, answered)] + (if answered then [PublishedStats(stats)] else []);
      QueriedIn(calls) == [targetId] && RecordedIn(calls) == [] && PublishedIn(calls) == []
  {
    var queried, published := [Queried(targetId, answered)], [PublishedStats(stats)];
    assert queried[1..] == [] && published[1..] == [];
    FiltersConcat(queried, if answered then published else []);
  }

  // ----- The rows of one target -----

  lemma RecordOneRows(env: Env, v: View, r: CheckResult, id: string)
    requires Delete(id) !in env.others(v.ops)
    ensures RowsOf(RecordOne(env, v, r).checks, id) == RowsOf(v.checks, id) + RowsOf(StoredIn(RecordBlock(env, v, r)), id)
    ensures HasId(v.targets, id) ==> HasId(RecordOne(env, v, r).targets, id)
  {
    ApplyAllRows(v, env.others(v.ops), id);
    BlockFilters(env, v, r);
    RowsOfConcat(Meanwhile(env, v).checks, [RowOf(r)], id);
    assert RowsOf(v.checks, id) + [] == RowsOf(v.checks, id);
  }

  /** Recording adds to a target that is not deleted meanwhile exactly the rows the log says, in order. */
  lemma {:induction false} RecordAllRows(env: Env, v: View, results: seq<CheckResult>, id: string)
    requires !DeletedIn(env, v.ops, v.ops + |results|, id)
    ensures RowsOf(RecordAll(env, v, results).checks, id)
         == RowsOf(v.checks, id) + RowsOf(StoredIn(RecordCalls(env, v, results)), id)
    decreases |results|
  {
    if results == [] {
      assert RowsOf(v.checks, id) + [] == RowsOf(v.checks, id);
    } else {
      var v1, block := RecordOne(env, v, results[0]), RecordBlock(env, v, results[0]);
      var rest := RecordCalls(env, v1, results[1..]);
      RecordOneRows(env, v, results[0], id);
      RecordAllRows(env, v1, results[1..], id);
      FiltersConcat(block, rest);
      RowsOfConcat(StoredIn(block), StoredIn(rest), id);
      Regroup(RowsOf(v.checks, id), RowsOf(StoredIn(block), id), RowsOf(StoredIn(rest), id));
    }
  }

  lemma {:induction false} QueryAllRows(env: Env, v: View, targets: seq<Target>, id: string)
    requires !DeletedIn(env, v.ops, v.ops + |targets|, id)
    ensures RowsOf(QueryAll(env, v, targets).checks, id) == RowsOf(v.checks, id)
    decreases |targets|
  {
    if targets != [] {
      ApplyAllRows(v, env.others(v.ops), id);
      QueryAllRows(env, QueryOne(env, v, targets[0].id), targets[1..], id);
    }
  }

  // ----- What is published about a target -----

  /** What the table says about a target; nothing, if somebody has deleted it before the to-th call. */
  ghost function Current(env: Env, from: nat, to: nat, checks: seq<CheckRow>, id: string, now: nat): Stats {
    StatsOf(if DeletedIn(env, from, to, id) then [] else checks, id, now)
  }

  /** The second loop of a tick: its first database call, and its first and last moment. */
  datatype Loop = Loop(ops: nat, start: nat, end: nat)

  /** The statistics are those of some moment of the loop. */
  ghost predicate IsCurrent(env: Env, loop: Loop, to: nat, checks: seq<CheckRow>, id: string, stats: Stats) {
    exists now: nat {:trigger Current(env, loop.ops, to, checks, id, now)} ::
      loop.start <= now <= loop.end && stats == Current(env, loop.ops, to, checks, id, now)
  }

  /**
   The calls are one query per target, in order, the first of them being the
   ops-th database call; each that is answered is followed by the publication of
   what the table, as it was before the loop, says at some moment of the loop.
   */
  ghost predicate Reported(env: Env, loop: Loop, ops: nat, targets: seq<Target>, calls: seq<Call>, checks: seq<CheckRow>)
    decreases |targets|
  {
    if targets == [] then calls == []
    else
      && calls != [] && calls[0] == Queried(targets[0].id, env.up(ops))
      && if env.up(ops) then
           && |calls| > 1 && calls[1].PublishedStats?
           && IsCurrent(env, loop, ops + 1, checks, targets[0].id, calls[1].stats)
           && Reported(env, loop, ops + 1, targets[1..], calls[2..], checks)
         else Reported(env, loop, ops + 1, targets[1..], calls[1..], checks)
  }

  /** Nothing but deletions has happened to the table since the loop began. */
  ghost predicate OnlyDeleted(env: Env, loop: Loop, v: View, checks: seq<CheckRow>) {
    loop.ops <= v.ops && loop.start <= v.now &&
    forall id :: RowsOf(v.checks, id) == if DeletedIn(env, loop.ops, v.ops, id) then [] else RowsOf(checks, id)
  }

  lemma DeletedByThen(env: Env, from: nat, k: nat, id: string)
    requires from <= k
    ensures DeletedIn(env, from, k + 1, id) <==> DeletedIn(env, from, k, id) || Delete(id) in env.others(k)
  {
  }

  lemma DeletedByNow(env: Env, loop: Loop, v: View, checks: seq<CheckRow>, id: string)
    requires OnlyDeleted(env, loop, v, checks)
    ensures RowsOf(Meanwhile(env, v).checks, id) == if DeletedIn(env, loop.ops, v.ops + 1, id) then [] else RowsOf(checks, id)
  {
    hide DeletedIn;
    ApplyAllRows(v, env.others(v.ops), id);
    DeletedByThen(env, loop.ops, v.ops, id);
  }

  lemma OnlyDeletedNext(env: Env, loop: Loop, v: View, checks: seq<CheckRow>, targetId: string)
    requires OnlyDeleted(env, loop, v, checks)
    ensures OnlyDeleted(env, loop, QueryOne(env, v, targetId), checks)
  {
    hide DeletedIn;
    forall id
      ensures RowsOf(Meanwhile(env, v).checks, id) == if DeletedIn(env, loop.ops, v.ops + 1, id) then [] else RowsOf(checks, id)
    {
      DeletedByNow(env, loop, v, checks, id);
    }
  }

  lemma QueryIsCurrent(env: Env, loop: Loop, v: View, checks: seq<CheckRow>, id: string)
    requires OnlyDeleted(env, loop, v, checks)
    ensures StatsOf(Meanwhile(env, v).checks, id, v.now) == Current(env, loop.ops, v.ops + 1, checks, id, v.now)
  {
    DeletedByNow(env, loop, v, checks, id);
    StatsOfOwnRows(Meanwhile(env, v).checks, if DeletedIn(env, loop.ops, v.ops + 1, id) then [] else checks, id, v.now);
  }

  lemma {:induction false} QueryAllReports(env: Env, loop: Loop, v: View, targets: seq<Target>, checks: seq<CheckRow>)
    requires OnlyDeleted(env, loop, v, checks) && QueryAll(env, v, targets).now <= loop.end
    ensures v.now <= loop.end && Reported(env, loop, v.ops, targets, QueryCalls(env, v, targets), checks)
    decreases |targets|
  {
    hide StatsOf, DeletedIn, Meanwhile;
    if targets != [] {
      var v1, id := QueryOne(env, v, targets[0].id), targets[0].id;
      OnlyDeletedNext(env, loop, v, checks, id);
      QueryAllReports(env, loop, v1, targets[1..], checks);
      QueryIsCurrent(env, loop, v, checks, id);
      ReportedFirst(env, loop, v, targets, checks);
    }
  }

  lemma ReportedFirst(env: Env, loop: Loop, v: View, targets: seq<Target>, checks: seq<CheckRow>)
    requires targets != [] && loop.start <= v.now <= loop.end
    requires StatsOf(Meanwhile(env, v).checks, targets[0].id, v.now)
          == Current(env, loop.ops, v.ops + 1, checks, targets[0].id, v.now)
    requires var v1 := QueryOne(env, v, targets[0].id);
      Reported(env, loop, v.ops + 1, targets[1..], QueryCalls(env, v1, targets[1..]), checks)
    ensures Reported(env, loop, v.ops, targets, QueryCalls(env, v, targets), checks)
  {
    var calls, block := QueryCalls(env, v, targets), QueryBlock(env, v, targets[0].id);
    var rest := QueryCalls(env, QueryOne(env, v, targets[0].id), targets[1..]);
    assert calls == block + rest && calls[|block|..] == rest;
  }

  // ----- The laws of a tick -----

  /** The calls of its first loop, and of its second. */
  function Recording(env: Env, v: View, round: Round): seq<Call> {
    RecordCalls(env, AfterCheck(env, v, round), TickResults(env, v, round))
  }

  function Reporting(env: Env, v: View, round: Round): seq<Call> {
    if env.publishing then QueryCalls(env, AfterRecording(env, v, round), ToCheck(env, v)) else []
  }

  lemma TickLogs(env: Env, v: View, round: Round)
    requires env.up(v.ops)
    ensures var mid, v' := AfterRecording(env, v, round), Tick(env, v, round);
      && v'.log == v.log + [Listed(true)] + Recording(env, v, round) + Reporting(env, v, round)
      && mid.ops == v.ops + 1 + |ToCheck(env, v)|
      && v'.ops == mid.ops + (if env.publishing then |ToCheck(env, v)| else 0)
  {
    var mid := AfterRecording(env, v, round);
    RecordAllLogs(env, AfterCheck(env, v, round), TickResults(env, v, round));
    QueryAllLogs(env, mid, ToCheck(env, v));
    assert mid.log + [] == mid.log;
  }

  lemma TickOps(env: Env, v: View, round: Round)
    ensures v.ops < Tick(env, v, round).ops
  {
    if env.up(v.ops) {
      TickLogs(env, v, round);
    }
  }

  /** When and where the second loop of a tick runs. */
  function SecondLoop(env: Env, v: View, round: Round): Loop {
    var mid := AfterRecording(env, v, round);
    Loop(mid.ops, mid.now, Tick(env, v, round).now)
  }

  /**
   The calls of a tick whose listing succeeded, whatever else fails: every result
   is published and recorded once, in target order; only then every target is
   queried once, in order; and every answered query is followed by the
   publication of what the table after the last insert says of the target at that
   time, or of an empty table if the target has been deleted since.
   */
  lemma TickCalls(env: Env, v: View, round: Round)
    requires env.up(v.ops)
    ensures var v', mid, results := Tick(env, v, round), AfterRecording(env, v, round), TickResults(env, v, round);
      var recording, reporting := Recording(env, v, round), Reporting(env, v, round);
      && v'.log == v.log + [Listed(true)] + recording + reporting
      && RecordedIn(recording) == results
      && PublishedIn(recording) == (if env.publishing then results else [])
      && (env.publishing ==> PublishedFirst(recording))
      && RecordedIn(reporting) == PublishedIn(reporting) == [] && QueriedIn(recording) == []
      && QueriedIn(reporting) == (if env.publishing then Ids(ToCheck(env, v)) else [])
      && Reported(env, SecondLoop(env, v, round), mid.ops, if env.publishing then ToCheck(env, v) else [], reporting, mid.checks)
  {
    TickLogs(env, v, round);
    RecordCallsComplete(env, AfterCheck(env, v, round), TickResults(env, v, round));
    RecordCallsInOrder(env, AfterCheck(env, v, round), TickResults(env, v, round));
    if env.publishing {
      QueryCallsComplete(env, AfterRecording(env, v, round), ToCheck(env, v));
      TickReports(env, v, round);
    }
  }

  /** The checks a tick publishes are its results, in order. */
  lemma TickPublishes(env: Env, v: View, round: Round)
    requires env.up(v.ops) && env.publishing
    ensures PublishedIn([Listed(true)] + Recording(env, v, round) + Reporting(env, v, round)) == TickResults(env, v, round)
  {
    TickCalls(env, v, round);
    hide *;
    FiltersOfTick(Recording(env, v, round), Reporting(env, v, round));
  }

  /** What a tick has added to the log. */
  function News(env: Env, v: View, round: Round): seq<Call> {
    var log := Tick(env, v, round).log;
    if |v.log| <= |log| then log[|v.log|..] else []
  }

  lemma NewsAre(env: Env, v: View, round: Round)
    requires env.up(v.ops)
    ensures Tick(env, v, round).log == v.log + News(env, v, round)
    ensures News(env, v, round) == [Listed(true)] + Recording(env, v, round) + Reporting(env, v, round)
  {
    TickLogs(env, v, round);
    hide Tick, Recording, Reporting, AfterRecording;
    Suffix(v.log, [Listed(true)], Recording(env, v, round), Reporting(env, v, round));
  }

  lemma Suffix(log: seq<Call>, a: seq<Call>, b: seq<Call>, c: seq<Call>)
    ensures log + a + b + c == log + (a + b + c) && (log + a + b + c)[|log|..] == a + b + c
  {
  }

  lemma FiltersOfTick(recording: seq<Call>, reporting: seq<Call>)
    requires RecordedIn(reporting) == PublishedIn(reporting) == [] && QueriedIn(recording) == []
    ensures var calls := [Listed(true)] + recording + reporting;
      && RecordedIn(calls) == RecordedIn(recording) && PublishedIn(calls) == PublishedIn(recording)
      && QueriedIn(calls) == QueriedIn(reporting)
  {
    FiltersConcat([Listed(true)] + recording, reporting);
    FiltersConcat([Listed(true)], recording);
    assert [Listed(true)][1..] == [];
  }

  lemma NewsFilters(env: Env, v: View, round: Round)
    requires env.up(v.ops)
    ensures RecordedIn(News(env, v, round)) == TickResults(env, v, round)
    ensures PublishedIn(News(env, v, round)) == if env.publishing then TickResults(env, v, round) else []
    ensures QueriedIn(News(env, v, round)) == if env.publishing then Ids(ToCheck(env, v)) else []
  {
    NewsAre(env, v, round);
    TickCalls(env, v, round);
    hide *;
    FiltersOfTick(Recording(env, v, round), Reporting(env, v, round));
  }

  lemma {:induction false} IdsAt(targets: seq<Target>, i: nat)
    requires i < |targets|
    ensures |Ids(targets)| == |targets| && Ids(targets)[i] == targets[i].id
  {
    IdsLength(targets);
    if i > 0 {
      IdsAt(targets[1..], i - 1);
    }
  }

  lemma {:induction false} IdsLength(targets: seq<Target>)
    ensures |Ids(targets)| == |targets|
  {
    if targets != [] {
      IdsLength(targets[1..]);
    }
  }

  lemma ResultsAre(env: Env, v: View, round: Round)
    ensures var rows, results, targets := Meanwhile(env, v).targets, TickResults(env, v, round), ToCheck(env, v);
      && |results| == |rows| == |targets|
      && forall i :: 0 <= i < |rows| ==>
           && results[i].target == rows[i].target == targets[i]
           && results[i] == CheckOne(env.resolve, rows[i].target, round.answers(i))
  {
  }

  /**
   A tick whose listing succeeds checks, records and, if it publishes, publishes
   and queries the rows of the table as the listing met it, one by one and in
   their order; the i-th result is the environment's i-th answer.
   */
  lemma TickChecksTable(env: Env, v: View, round: Round)
    requires env.up(v.ops)
    ensures var rows, news := Meanwhile(env, v).targets, News(env, v, round);
      && Tick(env, v, round).log == v.log + news
      && |RecordedIn(news)| == |rows|
      && (forall i :: 0 <= i < |rows| ==>
            && RecordedIn(news)[i].target == rows[i].target
            && RecordedIn(news)[i] == CheckOne(env.resolve, rows[i].target, round.answers(i)))
      && PublishedIn(news) == (if env.publishing then RecordedIn(news) else [])
      && |QueriedIn(news)| == (if env.publishing then |rows| else 0)
      && (env.publishing ==> forall i :: 0 <= i < |rows| ==> QueriedIn(news)[i] == rows[i].target.id)
  {
    NewsAre(env, v, round);
    NewsFilters(env, v, round);
    ResultsAre(env, v, round);
    hide *;
    var targets := ToCheck(env, v);
    IdsLength(targets);
    forall i | 0 <= i < |targets|
      ensures Ids(targets)[i] == targets[i].id
    {
      IdsAt(targets, i);
    }
  }

  function RecordsOf(target: Target): Call -> bool {
    (call: Call) => call.Recorded? && call.r.target == target
  }

  function ResultsOf(target: Target): CheckResult -> bool {
    (r: CheckResult) => r.target == target
  }

  lemma {:induction false} CountRecorded(calls: seq<Call>, target: Target)
    ensures Count(calls, RecordsOf(target)) == Count(RecordedIn(calls), ResultsOf(target))
  {
    if calls != [] {
      CountRecorded(calls[1..], target);
      if calls[0].Recorded? {
        assert ([calls[0].r] + RecordedIn(calls[1..]))[1..] == RecordedIn(calls[1..]);
      } else {
        assert [] + RecordedIn(calls[1..]) == RecordedIn(calls[1..]);
      }
    }
  }

  /** Every target that the listing finds is checked and recorded exactly once. */
  lemma EveryTargetOnce(env: Env, v: View, round: Round, i: nat)
    requires env.up(v.ops) && WellKept(Meanwhile(env, v).targets) && i < |Meanwhile(env, v).targets|
    ensures Count(News(env, v, round), RecordsOf(Meanwhile(env, v).targets[i].target)) == 1
  {
    var rows, news := Meanwhile(env, v).targets, News(env, v, round);
    TickChecksTable(env, v, round);
    CountRecorded(news, rows[i].target);
    OnlyOne(rows, RecordedIn(news), i);
  }

  lemma {:induction false} OnlyOne(rows: seq<TargetRow>, results: seq<CheckResult>, i: nat)
    requires WellKept(rows) && |results| == |rows| && i < |rows|
    requires forall j :: 0 <= j < |rows| ==> results[j].target == rows[j].target
    ensures Count(results, ResultsOf(rows[i].target)) == 1
  {
    forall j | 0 <= j < |rows|
      ensures ResultsOf(rows[i].target)(results[j]) <==> j == i
    {
      assert results[j].target == rows[j].target;
      if j < i {
        assert rows[j].target.id != rows[i].target.id;
      } else if i < j {
        assert rows[i].target.id != rows[j].target.id;
      }
    }
    CountOnce(results, ResultsOf(rows[i].target), i);
  }

  /** A tick whose listing fails makes no other call and counts nothing. */
  lemma FailedListing(env: Env, v: View, round: Round)
    requires !env.up(v.ops)
    ensures var v' := Tick(env, v, round);
      && v'.log == v.log + [Listed(false)] && v'.counters == v.counters
      && v'.ops == v.ops + 1 && v'.now == v.now + env.took(v.ops)
  {
  }

  lemma TickReports(env: Env, v: View, round: Round)
    requires env.up(v.ops) && env.publishing
    ensures var mid := AfterRecording(env, v, round);
      Reported(env, SecondLoop(env, v, round), mid.ops, ToCheck(env, v), Reporting(env, v, round), mid.checks)
  {
    var mid := AfterRecording(env, v, round);
    QueryAllReports(env, SecondLoop(env, v, round), mid, ToCheck(env, v), mid.checks);
  }

  /**
   A target that nobody deletes during the tick has, after the inserts and at the
   end, its old rows followed by those the log says were inserted, in order.
   */
  lemma TickRows(env: Env, v: View, round: Round, id: string)
    requires !DeletedIn(env, v.ops, Tick(env, v, round).ops, id)
    ensures var rows := RowsOf(v.checks, id) + RowsOf(StoredIn(Recording(env, v, round)), id);
      if env.up(v.ops) then RowsOf(AfterRecording(env, v, round).checks, id) == rows == RowsOf(Tick(env, v, round).checks, id)
      else RowsOf(Tick(env, v, round).checks, id) == RowsOf(v.checks, id)
  {
    TickOps(env, v, round);
    ApplyAllRows(v, env.others(v.ops), id);
    if env.up(v.ops) {
      TickLogs(env, v, round);
      RecordAllRows(env, AfterCheck(env, v, round), TickResults(env, v, round), id);
      if env.publishing {
        QueryAllRows(env, AfterRecording(env, v, round), ToCheck(env, v), id);
      }
    }
  }

  /** If nobody deletes anything, the whole table is the old one followed by those rows, in order. */
  lemma TickTable(env: Env, v: View, round: Round)
    requires NoDeletion(env, v.ops, Tick(env, v, round).ops)
    ensures Tick(env, v, round).checks == v.checks + (if env.up(v.ops) then StoredIn(Recording(env, v, round)) else [])
    ensures Tick(env, v, round).removed == v.removed
  {
    TickOps(env, v, round);
    ApplyAllTable(v, env.others(v.ops));
    if env.up(v.ops) {
      TickLogs(env, v, round);
      RecordAllTable(env, AfterCheck(env, v, round), TickResults(env, v, round));
      if env.publishing {
        QueryAllTable(env, AfterRecording(env, v, round), ToCheck(env, v));
      }
    } else {
      assert v.checks + [] == v.checks;
    }
  }

  ghost predicate NoDeletion(env: Env, from: nat, to: nat) {
    forall k: nat, id :: from <= k < to ==> Delete(id) !in env.others(k)
  }

  lemma {:induction false} ApplyAllTable(v: View, changes: seq<Change>)
    requires forall id :: Delete(id) !in changes
    ensures ApplyAll(v, changes).checks == v.checks && ApplyAll(v, changes).removed == v.removed
    decreases |changes|
  {
    if changes != [] {
      assert changes[0] in changes;
      ApplyAllTable(Apply(v, changes[0]), changes[1..]);
    }
  }

  lemma {:induction false} RecordAllTable(env: Env, v: View, results: seq<CheckResult>)
    requires NoDeletion(env, v.ops, v.ops + |results|)
    ensures RecordAll(env, v, results).checks == v.checks + StoredIn(RecordCalls(env, v, results))
    ensures RecordAll(env, v, results).removed == v.removed
    decreases |results|
  {
    if results == [] {
      assert v.checks + [] == v.checks;
    } else {
      var v1, block := RecordOne(env, v, results[0]), RecordBlock(env, v, results[0]);
      var rest := RecordCalls(env, v1, results[1..]);
      ApplyAllTable(v, env.others(v.ops));
      BlockFilters(env, v, results[0]);
      RecordAllTable(env, v1, results[1..]);
      FiltersConcat(block, rest);
      Regroup(v.checks, StoredIn(block), StoredIn(rest));
    }
  }

  lemma {:induction false} QueryAllTable(env: Env, v: View, targets: seq<Target>)
    requires NoDeletion(env, v.ops, v.ops + |targets|)
    ensures QueryAll(env, v, targets).checks == v.checks && QueryAll(env, v, targets).removed == v.removed
    decreases |targets|
  {
    if targets != [] {
      ApplyAllTable(v, env.others(v.ops));
      QueryAllTable(env, QueryOne(env, v, targets[0].id), targets[1..]);
    }
  }

  // ----- When a result is lost -----

  /**
   The insert of r, made as the k-th database call: it lands only if that very
   call takes effect; the engine is told so exactly if it lands and is answered;
   and it does not land only if the call has no effect or somebody has deleted
   the target by then.
   */
  ghost predicate InsertExplained(env: Env, from: nat, k: nat, r: CheckResult, call: Call) {
    && call.Recorded? && call.r == r
    && (call.landed ==> !env.outcome(k).Unreached?)
    && (call.ok <==> call.landed && env.up(k))
    && (!call.landed ==> env.outcome(k).Unreached? || DeletedIn(env, from, k + 1, r.target.id))
  }

  /** Every target of the results exists, or somebody has deleted it. */
  ghost predicate AllPresent(env: Env, v: View, from: nat, results: seq<CheckResult>) {
    forall r :: r in results ==> HasId(v.targets, r.target.id) || DeletedIn(env, from, v.ops, r.target.id)
  }

  lemma PresentNext(env: Env, v: View, from: nat, id: string)
    requires from <= v.ops && (HasId(v.targets, id) || DeletedIn(env, from, v.ops, id))
    ensures HasId(Meanwhile(env, v).targets, id) || DeletedIn(env, from, v.ops + 1, id)
  {
    hide DeletedIn;
    ApplyAllRows(v, env.others(v.ops), id);
    DeletedByThen(env, from, v.ops, id);
  }

  lemma AllPresentNext(env: Env, v: View, from: nat, results: seq<CheckResult>)
    requires results != [] && from <= v.ops && AllPresent(env, v, from, results)
    ensures AllPresent(env, RecordOne(env, v, results[0]), from, results[1..])
  {
    hide DeletedIn;
    forall r | r in results
      ensures HasId(Meanwhile(env, v).targets, r.target.id) || DeletedIn(env, from, v.ops + 1, r.target.id)
    {
      PresentNext(env, v, from, r.target.id);
    }
  }

  function Insert(env: Env, v: View, r: CheckResult): Call {
    Recorded(r, Lands(env, v, r), Lands(env, v, r) && env.up(v.ops))
  }

  lemma InsertExplainedBy(env: Env, v: View, from: nat, results: seq<CheckResult>)
    requires results != [] && from <= v.ops && AllPresent(env, v, from, results)
    ensures InsertExplained(env, from, v.ops, results[0], Insert(env, v, results[0]))
  {
    hide DeletedIn;
    PresentNext(env, v, from, results[0].target.id);
  }

  lemma InsertsFirst(env: Env, v: View, results: seq<CheckResult>)
    requires results != []
    ensures InsertsIn(RecordCalls(env, v, results))
         == [Insert(env, v, results[0])] + InsertsIn(RecordCalls(env, RecordOne(env, v, results[0]), results[1..]))
  {
    BlockFilters(env, v, results[0]);
    FiltersConcat(RecordBlock(env, v, results[0]), RecordCalls(env, RecordOne(env, v, results[0]), results[1..]));
  }

  ghost predicate AllExplained(env: Env, from: nat, ops: nat, results: seq<CheckResult>, inserts: seq<Call>) {
    |inserts| == |results| &&
    forall i :: 0 <= i < |results| ==> InsertExplained(env, from, ops + i, results[i], inserts[i])
  }

  lemma AllExplainedCons(env: Env, from: nat, ops: nat, results: seq<CheckResult>, call: Call, later: seq<Call>)
    requires results != [] && InsertExplained(env, from, ops, results[0], call)
    requires AllExplained(env, from, ops + 1, results[1..], later)
    ensures AllExplained(env, from, ops, results, [call] + later)
  {
    hide InsertExplained;
    forall i | 0 <= i < |results|
      ensures InsertExplained(env, from, ops + i, results[i], ([call] + later)[i])
    {
      assert i > 0 ==> InsertExplained(env, from, ops + 1 + (i - 1), results[1..][i - 1], later[i - 1]);
    }
  }

  lemma {:induction false} InsertsExplained(env: Env, v: View, results: seq<CheckResult>, from: nat)
    requires from <= v.ops && AllPresent(env, v, from, results)
    ensures AllExplained(env, from, v.ops, results, InsertsIn(RecordCalls(env, v, results)))
    decreases |results|
  {
    hide *;
    if results == [] {
      NoInserts(env, v, from);
    } else {
      var v1 := RecordOne(env, v, results[0]);
      RecordOneOps(env, v, results[0]);
      AllPresentNext(env, v, from, results);
      InsertsExplained(env, v1, results[1..], from);
      InsertExplainedBy(env, v, from, results);
      InsertsFirst(env, v, results);
      AllExplainedCons(env, from, v.ops, results, Insert(env, v, results[0]), InsertsIn(RecordCalls(env, v1, results[1..])));
    }
  }

  lemma NoInserts(env: Env, v: View, from: nat)
    ensures AllExplained(env, from, v.ops, [], InsertsIn(RecordCalls(env, v, [])))
  {
  }

  lemma RecordOneOps(env: Env, v: View, r: CheckResult)
    ensures RecordOne(env, v, r).ops == v.ops + 1
  {
  }

  /**
   The i-th result of a tick is lost only if its own insert has no effect or its
   target is deleted between the listing and that insert; the engine hears of
   success exactly if it is stored and answered.
   */
  lemma TickLosses(env: Env, v: View, round: Round)
    requires env.up(v.ops)
    ensures AllExplained(env, v.ops + 1, v.ops + 1, TickResults(env, v, round), InsertsIn(Recording(env, v, round)))
  {
    hide AllExplained;
    ListedArePresent(env, v, round);
    InsertsExplained(env, AfterCheck(env, v, round), TickResults(env, v, round), v.ops + 1);
  }

  lemma ListedArePresent(env: Env, v: View, round: Round)
    ensures AllPresent(env, AfterCheck(env, v, round), v.ops + 1, TickResults(env, v, round))
  {
    var results, rows := TickResults(env, v, round), Meanwhile(env, v).targets;
    forall r | r in results
      ensures HasId(rows, r.target.id)
    {
      var i :| 0 <= i < |results| && results[i] == r;
      assert rows[i].target == r.target;
    }
  }

  /** The database always answers, and nobody deletes a target. */
  ghost predicate Calm(env: Env) {
    (forall k: nat :: env.up(k)) && (forall k: nat, id :: Delete(id) !in env.others(k))
  }

  lemma {:induction false} QueryAllLosesNothing(env: Env, v: View, targets: seq<Target>)
    ensures forall call :: call in QueryCalls(env, v, targets) ==> !IsLost(call)
    decreases |targets|
  {
    if targets != [] {
      QueryAllLosesNothing(env, QueryOne(env, v, targets[0].id), targets[1..]);
    }
  }

  lemma {:induction false} InsertsHave(calls: seq<Call>, call: Call)
    requires call in calls && call.Recorded?
    ensures call in InsertsIn(calls)
  {
    if call != calls[0] {
      InsertsHave(calls[1..], call);
    }
  }

  lemma CalmDeletesNothing(env: Env, from: nat, to: nat, id: string)
    requires Calm(env)
    ensures !DeletedIn(env, from, to, id)
  {
  }

  lemma CalmLosesNothing(env: Env, from: nat, ops: nat, results: seq<CheckResult>, calls: seq<Call>, call: Call)
    requires Calm(env) && AllExplained(env, from, ops, results, InsertsIn(calls)) && call in calls
    ensures !IsLost(call)
  {
    if call.Recorded? {
      InsertsHave(calls, call);
      var i: nat :| i < |InsertsIn(calls)| && InsertsIn(calls)[i] == call;
      assert InsertExplained(env, from, ops + i, results[i], call);
      assert env.up(ops + i);
      CalmDeletesNothing(env, from, ops + i + 1, results[i].target.id);
    }
  }

  lemma RecordingLosesNothing(env: Env, v: View, round: Round)
    requires Calm(env) && env.up(v.ops)
    ensures forall call :: call in Recording(env, v, round) ==> !IsLost(call)
  {
    hide *;
    TickLosses(env, v, round);
    forall call | call in Recording(env, v, round)
      ensures !IsLost(call)
    {
      CalmLosesNothing(env, v.ops + 1, v.ops + 1, TickResults(env, v, round), Recording(env, v, round), call);
    }
  }

  lemma AppendNothingLost(log: seq<Call>, a: seq<Call>, b: seq<Call>)
    requires (forall call :: call in a ==> !IsLost(call)) && (forall call :: call in b ==> !IsLost(call))
    ensures Count(log + [Listed(true)] + a + b, IsLost) == Count(log, IsLost)
  {
    CountConcat(log + [Listed(true)] + a, b, IsLost);
    CountConcat(log + [Listed(true)], a, IsLost);
    CountConcat(log, [Listed(true)], IsLost);
    CountSingle(Listed(true), IsLost);
    CountBounds(a, IsLost);
    CountBounds(b, IsLost);
  }

  /** The lost inserts and the removed rows so far. */
  function Losses(v: View): (nat, seq<CheckRow>) {
    (Count(v.log, IsLost), v.removed)
  }

  ghost predicate LosesNothing(env: Env, v: View, round: Round) {
    Losses(Tick(env, v, round)) == Losses(v)
  }

  lemma TickLosesNothing(env: Env, v: View, round: Round)
    requires Calm(env)
    ensures LosesNothing(env, v, round)
  {
    TickLogs(env, v, round);
    TickTable(env, v, round);
    RecordingLosesNothing(env, v, round);
    QueryAllLosesNothing(env, AfterRecording(env, v, round), ToCheck(env, v));
    AppendNothingLost(v.log, Recording(env, v, round), Reporting(env, v, round));
  }

  lemma {:induction false} RunLosesNothing(env: Env, v: View, rounds: seq<Round>, end: View)
    requires end == Run(env, v, rounds) && forall w, round :: LosesNothing(env, w, round)
    ensures Losses(end) == Losses(v)
    decreases |rounds|
  {
    if |rounds| > 0 {
      var waited := v.(now := v.now + rounds[0].wait);
      assert LosesNothing(env, waited, rounds[0]);
      RunLosesNothing(env, Tick(env, waited, rounds[0]), rounds[1..], end);
    }
  }

  /** Then, from a fresh start and after any number of ticks, /metrics and the table agree. */
  lemma CalmRunMatches(env: Env, v: View, rounds: seq<Round>)
    requires v.log == [] && v.checks == v.removed == [] && v.counters == Counters(0, 0, 0) && env.metered && Calm(env)
    ensures var v' := Run(env, v, rounds);
      v'.counters == Counters(|v'.checks|, 0, Count(v'.checks, RowFailed))
  {
    forall w, round
      ensures LosesNothing(env, w, round)
    {
      TickLosesNothing(env, w, round);
    }
    MetricsMatchTable(env, v, rounds);
    RunLosesNothing(env, v, rounds, Run(env, v, rounds));
  }
}
