/** tick and Run as the loops the program runs, over a database and a recorder that they mutate. */
module EngineObjects {
  import opened Prelude
  import opened Counting
  import opened Check
  import opened Metrics
  import S = Store
  import E = Engine

  /** What Run's select finds ready: the end of its context, or the ticker, with what the tick will meet. */
  datatype Choice = Stop | Ticker(round: E.Round)

  class Engine {
    const env: E.Env
    const db: S.Database
    const metrics: Recorder
    var now: nat
    var ops: nat
    var log: seq<E.Call>
    ghost var removed: seq<S.CheckRow>

    ghost function View(): E.View
      reads this, db, metrics
    {
      E.View(now, ops, log, db.targets, db.checks, removed, metrics.View())
    }

    ghost predicate Valid()
      reads this, db
    {
      db.Valid()
    }

    constructor (env: E.Env, db: S.Database, metrics: Recorder, now: nat)
      requires db.Valid()
      ensures Valid() && this.env == env && this.db == db && this.metrics == metrics
      ensures View() == E.View(now, 0, [], db.targets, db.checks, [], metrics.View())
    {
      this.env, this.db, this.metrics := env, db, metrics;
      this.now, ops, log, removed := now, 0, [], [];
    }

    /** One database call's worth of time, and what it means for the log. */
    method Spend(calls: seq<E.Call>)
      modifies `now, `ops, `log
      ensures now == old(now) + env.took(old(ops)) && ops == old(ops) + 1 && log == old(log) + calls
    {
      now := now + env.took(ops);
      ops := ops + 1;
      log := log + calls;
    }

    /** What the web handlers do to the database before the engine's next call. */
    method LetOthers()
      requires Valid()
      modifies db, `removed
      ensures Valid() && View() == E.Meanwhile(env, old(View()))
    {
      var changes := env.others(ops);
      assert changes[0..] == changes;
      for i := 0 to |changes|
        invariant Valid()
        invariant E.ApplyAll(View(), changes[i..]) == E.ApplyAll(old(View()), changes)
      {
        assert changes[i..][0] == changes[i] && changes[i..][1..] == changes[i + 1..];
        Apply(changes[i]);
      }
      assert changes[|changes|..] == [];
    }

    method Apply(change: E.Change)
      requires Valid()
      modifies db, `removed
      ensures Valid() && View() == E.Apply(old(View()), change)
    {
      match change {
        case Create(url, id, at) =>
          var _ := db.CreateTarget(url, id, at, S.Answered);
        case Delete(id) =>
          removed := removed + S.RowsOf(db.checks, id);
          var _ := db.DeleteTarget(id, S.Answered);
      }
    }

    /** Check, in the interleaving that takes the targets one by one; PoolOutcome.Confluence covers the others. */
    method CheckTargets(targets: seq<Target>, round: E.Round) returns (results: seq<CheckResult>)
      modifies `now, metrics
      ensures results == E.Results(env, E.Probes(targets, round))
      ensures now == old(now) + round.span && metrics.View() == E.CheckAll(env, old(View()), results, round.span).counters
    {
      results := [];
      ghost var before := metrics.View();
      for i := 0 to |targets|
        invariant now == old(now)
        invariant |results| == i && forall j :: 0 <= j < i ==> results[j] == CheckOne(env.resolve, targets[j], round.answers(j))
        invariant metrics.View() == if !env.metered then before else
          Counters(before.total + i, before.inFlight, before.failed + Count(results, E.ResultFailed))
      {
        var res := CheckTarget(targets[i], round.answers(i));
        CountConcat(results, [res], E.ResultFailed);
        CountSingle(res, E.ResultFailed);
        results := results + [res];
      }
      now := now + round.span;
    }

    /** One goroutine of Check between taking its slot and giving it back. */
    method CheckTarget(target: Target, answer: E.Served) returns (res: CheckResult)
      modifies metrics
      ensures res == CheckOne(env.resolve, target, answer)
      ensures metrics.View() == if env.metered then old(metrics.View()).Launch().Finish(res.Failed()) else old(metrics.View())
    {
      if env.metered {
        metrics.CheckStarted();
      }
      res := CheckOne(env.resolve, target, answer);
      if env.metered {
        metrics.CheckFinished(res.Failed());
      }
    }

    /** The insert may find that the target has been deleted since it was listed. */
    method Record(r: CheckResult)
      requires Valid()
      modifies `now, `ops, `log, `removed, db
      ensures Valid() && View() == E.RecordOne(env, old(View()), r)
    {
      var published := if env.publishing then [E.PublishedCheck(r)] else [];
      LetOthers();
      var landed := !env.outcome(ops).Unreached? && S.HasId(db.targets, r.target.id);
      var ok := db.RecordCheck(S.RowOf(r), env.outcome(ops));
      Spend(published + [E.Recorded(r, landed, ok)]);
    }

    method Report(target: Target)
      requires Valid()
      modifies `now, `ops, `log, `removed, db
      ensures Valid() && View() == E.QueryOne(env, old(View()), target.id)
    {
      LetOthers();
      var stats := db.RecentStats(target.id, now, env.up(ops));
      Spend([E.Queried(target.id, stats.Ok?)] + (if stats.Ok? then [E.PublishedStats(stats.value)] else []));
    }

    /** tick's first loop. */
    method RecordResults(results: seq<CheckResult>)
      requires Valid()
      modifies `now, `ops, `log, `removed, db
      ensures Valid() && View() == E.RecordAll(env, old(View()), results)
    {
      for i := 0 to |results|
        invariant Valid()
        invariant E.RecordAll(env, View(), results[i..]) == E.RecordAll(env, old(View()), results)
      {
        assert results[i..][0] == results[i] && results[i..][1..] == results[i + 1..];
        Record(results[i]);
      }
      assert results[|results|..] == [];
    }

    /** tick's second loop. */
    method ReportTargets(targets: seq<Target>)
      requires Valid()
      modifies `now, `ops, `log, `removed, db
      ensures Valid() && View() == E.QueryAll(env, old(View()), targets)
    {
      for i := 0 to |targets|
        invariant Valid()
        invariant E.QueryAll(env, View(), targets[i..]) == E.QueryAll(env, old(View()), targets)
      {
        assert targets[i..][0] == targets[i] && targets[i..][1..] == targets[i + 1..];
        Report(targets[i]);
      }
      assert targets[|targets|..] == [];
    }

    method List() returns (listed: Result<seq<Target>>)
      requires Valid()
      modifies `now, `ops, `log, `removed, db
      ensures Valid() && listed.Ok? == env.up(old(ops))
      ensures listed.Ok? ==> listed.value == E.ToCheck(env, old(View()))
      ensures View() == E.List(env, old(View()))
    {
      LetOthers();
      listed := db.ListTargets(env.up(ops));
      Spend([E.Listed(listed.Ok?)]);
    }

    method CheckAndRecord(targets: seq<Target>, round: E.Round)
      requires Valid()
      modifies `now, `ops, `log, `removed, db, metrics
      ensures Valid()
      ensures var results := E.Results(env, E.Probes(targets, round));
        View() == E.RecordAll(env, E.CheckAll(env, old(View()), results, round.span), results)
    {
      var results := CheckTargets(targets, round);
      assert View() == E.CheckAll(env, old(View()), results, round.span);
      RecordResults(results);
    }

    method Tick(round: E.Round)
      requires Valid()
      modifies `now, `ops, `log, `removed, db, metrics
      ensures Valid() && View() == E.Tick(env, old(View()), round)
    {
      var listed := List();
      if listed.Ok? {
        CheckAndRecord(listed.value, round);
        if env.publishing {
          ReportTargets(listed.value);
        }
      }
    }

    /** The ticks that Run makes: one at once, then one per ticker choice up to the first Stop. */
    static function Rounds(choices: seq<Choice>): seq<E.Round> {
      if |choices| == 0 || choices[0].Stop? then [] else [choices[0].round] + Rounds(choices[1..])
    }

    method WaitAndTick(round: E.Round)
      requires Valid()
      modifies `now, `ops, `log, `removed, db, metrics
      ensures Valid() && View() == E.Tick(env, old(View()).(now := old(now) + round.wait), round)
    {
      now := now + round.wait;
      Tick(round);
    }

    /** The ticker's case of the select. */
    method TakeChoice(choices: seq<Choice>)
      requires Valid() && |choices| > 0 && choices[0].Ticker?
      modifies `now, `ops, `log, `removed, db, metrics
      ensures Valid() && E.Run(env, View(), Rounds(choices[1..])) == E.Run(env, old(View()), Rounds(choices))
    {
      RunStep(env, View(), choices);
      WaitAndTick(choices[0].round);
    }

    /** The select loop after the first tick. */
    method Loop(choices: seq<Choice>)
      requires Valid()
      modifies `now, `ops, `log, `removed, db, metrics
      ensures Valid() && View() == E.Run(env, old(View()), Rounds(choices))
    {
      assert choices[0..] == choices;
      var i := 0;
      while i < |choices| && choices[i].Ticker?
        invariant i <= |choices| && Valid()
        invariant E.Run(env, View(), Rounds(choices[i..])) == E.Run(env, old(View()), Rounds(choices))
      {
        assert choices[i..][0] == choices[i] && choices[i..][1..] == choices[i + 1..];
        TakeChoice(choices[i..]);
        i := i + 1;
      }
    }

    /** Ticks follow each other without overlap, and no check is in flight when Run returns. */
    method Run(first: E.Round, choices: seq<Choice>)
      requires Valid() && first.wait == 0
      modifies `now, `ops, `log, `removed, db, metrics
      ensures Valid()
      ensures View() == E.Run(env, old(View()), [first] + Rounds(choices))
      ensures metrics.checksInFlight == old(metrics.checksInFlight)
      ensures forall k :: 0 <= k < |choices| && choices[k].Stop? ==>
        View() == E.Run(env, old(View()), [first] + Rounds(choices[..k]))
    {
      ghost var start := View();
      forall k | 0 <= k < |choices| && choices[k].Stop?
        ensures Rounds(choices) == Rounds(choices[..k])
      {
        NothingAfterStop(choices, k);
      }
      Tick(first);
      E.RunFirst(env, start, first, View(), Rounds(choices));
      Loop(choices);
      E.RunConserves(env, start, [first] + Rounds(choices));
    }
  }

  lemma RunStep(env: E.Env, v: E.View, choices: seq<Choice>)
    requires |choices| > 0 && choices[0].Ticker?
    ensures E.Run(env, v, Engine.Rounds(choices)) ==
      E.Run(env, E.Tick(env, v.(now := v.now + choices[0].round.wait), choices[0].round), Engine.Rounds(choices[1..]))
  {
    var rounds := Engine.Rounds(choices);
    assert rounds[1..] == Engine.Rounds(choices[1..]);
  }

  /** Once the end of the context is chosen, nothing that might have come later matters. */
  lemma {:induction false} NothingAfterStop(choices: seq<Choice>, k: nat)
    requires k < |choices| && choices[k].Stop?
    ensures Engine.Rounds(choices) == Engine.Rounds(choices[..k])
  {
    if k > 0 && choices[0].Ticker? {
      NothingAfterStop(choices[1..], k - 1);
      assert choices[..k][1..] == choices[1..][..k - 1];
    }
  }

  /** And until then every choice of the ticker is a tick. */
  lemma {:induction false} EveryTickerTicks(choices: seq<Choice>)
    requires forall i :: 0 <= i < |choices| ==> choices[i].Ticker?
    ensures |Engine.Rounds(choices)| == |choices|
    ensures forall i :: 0 <= i < |choices| ==> Engine.Rounds(choices)[i] == choices[i].round
  {
    if |choices| > 0 {
      EveryTickerTicks(choices[1..]);
    }
  }
}
