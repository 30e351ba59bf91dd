/**
 The pool under the engine: what the engine's ticks assume about Check, in one
 call after the other, is what every concurrent run of Check does, and the time
 they assume it to take is the time it takes.
 */
module Monitor {
  import opened Prelude
  import opened Counting
  import opened Check
  import opened Metrics
  import opened Pool
  import opened PoolSafety
  import opened PoolLimits
  import PoolOutcome
  import PoolTime
  import L = Limiter
  import M = Makespan
  import E = Engine

  // ----- Check refines the engine's view of it -----

  function AnswerAt(answers: seq<Answer>, i: nat): E.Served {
    if i < |answers| && answers[i].Slot? then answers[i] else Slot(0, Limited(""))
  }

  function RoundOf(answers: seq<Answer>, span: nat, wait: nat): E.Round {
    E.Round((i: nat) => AnswerAt(answers, i), span, wait)
  }

  /** The results slice when Check has returned. */
  ghost predicate Filled(s: State) {
    forall i :: 0 <= i < |s.results| ==> s.results[i].Some?
  }

  ghost function ResultsOf(s: State): seq<CheckResult>
    requires Filled(s)
  {
    seq(|s.results|, i requires 0 <= i < |s.results| => s.results[i].value)
  }

  /**
   Every concurrent, uncancelled run of Check that returns has, for some answers
   of the environment, the results, the counters and the clock of the engine's
   CheckAll.
   */
  lemma CheckRefines(env: E.Env, c: Config, v: E.View, lim: L.State, actions: seq<Action>, s: State, wait: nat)
    returns (round: E.Round)
    requires L.Valid(lim) && c.metered == env.metered && c.resolve == env.resolve
    requires Pool.Run(c, Init(c, v.now, v.counters, lim), actions, s) && Returned(s) && !s.cancelled
    ensures Filled(s) && ResultsOf(s) == E.Results(env, E.Probes(c.targets, round))
    ensures v.now <= s.now && round.span == s.now - v.now && round.wait == wait
    ensures E.CheckAll(env, v, ResultsOf(s), round.span) == v.(now := s.now, counters := s.metrics)
  {
    var init := Init(c, v.now, v.counters, lim);
    var answers := PoolOutcome.EveryRunIsSequential(c, v.now, v.counters, lim, actions, s);
    LimiterRunAllowed(c, init, actions, s);
    round := RoundOf(answers, s.now - v.now, wait);
    AfterReturn(c, s, v.now, v.counters, lim);
    AllRunRun(c, init, actions, s);
    AllAnswered(c, init, answers, actions, s);
    ResultsRefine(env, c, answers, s, round);
    CountersRefine(s);
  }

  lemma AllAnswered(c: Config, init: State, answers: seq<Answer>, actions: seq<Action>, s: State)
    requires |init.pcs| == |answers| == |c.targets| && (forall i :: 0 <= i < |init.pcs| ==> init.pcs[i].AwaitSlot?)
    requires Pool.Run(c, init, actions, s) && PoolOutcome.AllFollow(answers, actions)
    requires |s.pcs| == |c.targets| && forall i :: 0 <= i < |s.pcs| ==> Ran(s.pcs[i])
    ensures forall i :: 0 <= i < |answers| ==> answers[i].Slot?
  {
    forall i | 0 <= i < |answers|
      ensures answers[i].Slot?
    {
      PoolOutcome.BegunIsSlot(c, answers, init, actions, s, i);
      assert Ran(s.pcs[i]);
    }
  }

  lemma ResultsRefine(env: E.Env, c: Config, answers: seq<Answer>, s: State, round: E.Round)
    requires |answers| == |c.targets| && (forall i :: 0 <= i < |answers| ==> answers[i].Slot?) && c.resolve == env.resolve
    requires s.results == PoolOutcome.Sequential(c, answers) && round == RoundOf(answers, round.span, round.wait)
    ensures Filled(s) && ResultsOf(s) == E.Results(env, E.Probes(c.targets, round))
  {
  }

  lemma CountersRefine(s: State)
    requires |s.pcs| == |s.results| && Filled(s)
    requires forall i :: 0 <= i < |s.pcs| ==> Ran(s.pcs[i]) && s.results[i] == Some(s.pcs[i].res)
    ensures Count(s.pcs, Ran) == |s.results|
    ensures Count(s.pcs, RanAndFailed) == Count(ResultsOf(s), E.ResultFailed)
  {
    var results := ResultsOf(s);
    CountBounds(s.pcs, Ran);
    CountTransfer(s.pcs, RanAndFailed, results, E.ResultFailed);
    CountTransfer(results, E.ResultFailed, s.pcs, RanAndFailed);
  }

  // ----- How long Check takes -----

  lemma {:induction false} PromptSnoc(c: Config, s: State, actions: seq<Action>, last: Action, s': State) returns (mid: State)
    requires PoolTime.PromptRun(c, s, actions + [last], s')
    ensures PoolTime.PromptRun(c, s, actions, mid) && Enabled(c, mid, last) && s' == Next(c, mid, last)
    decreases |actions|
  {
    if actions == [] {
      mid := s;
      assert (actions + [last])[0] == last && (actions + [last])[1..] == [];
    } else {
      assert (actions + [last])[0] == actions[0] && (actions + [last])[1..] == actions[1..] + [last];
      mid := PromptSnoc(c, Next(c, s, actions[0]), actions[1..], last, s');
    }
  }

  /** A prompt run up to the moment at which wg.Wait returns: at once without targets, else with the last wg.Done. */
  ghost predicate PromptCheck(c: Config, init: State, actions: seq<Action>, s: State) {
    && PoolTime.PromptRun(c, init, actions, s) && Returned(s)
    && (actions == [] || (actions[|actions| - 1].Go? && actions[|actions| - 1].step == Finish))
  }

  /** Check returns no later than ceil(n / slots) timeouts after its start. */
  lemma SpanBounded(c: Config, from: nat, metrics: Counters, lim: L.State, actions: seq<Action>, s: State)
    requires L.Valid(lim) && PromptCheck(c, Init(c, from, metrics, lim), actions, s)
    ensures from <= s.now <= from + M.Rounds(|c.targets|, Slots(c)) * c.timeout
  {
    if actions != [] {
      var init, before, last := Init(c, from, metrics, lim), actions[..|actions| - 1], actions[|actions| - 1];
      assert actions == before + [last];
      var mid := PromptSnoc(c, init, before, last, s);
      PoolTime.ClockedFromInit(c, from, metrics, lim, before, mid);
      if from + M.Rounds(|c.targets|, Slots(c)) * c.timeout < mid.now {
        PoolTime.CheckReturnsInTime(c, from, metrics, lim, before, mid);
      }
    }
  }

  // ----- Ticks around concurrent Checks -----

  /** A tick whose results, counters and clock are those of a concurrent Check that ended in s. */
  ghost function TickAround(env: E.Env, v: E.View, s: State): E.View
    requires Filled(s)
  {
    var checked := E.List(env, v).(now := s.now, counters := s.metrics);
    var recorded := E.RecordAll(env, checked, ResultsOf(s));
    if env.publishing then E.QueryAll(env, recorded, E.ToCheck(env, v)) else recorded
  }

  /** The pool is built for this tick's targets and shares the engine's recorder and resolver. */
  ghost predicate Serves(env: E.Env, c: Config, v: E.View) {
    c.targets == E.ToCheck(env, v) && c.metered == env.metered && c.resolve == env.resolve
  }

  lemma TickRefines(env: E.Env, c: Config, v: E.View, lim: L.State, actions: seq<Action>, s: State, wait: nat)
    returns (round: E.Round)
    requires L.Valid(lim) && Serves(env, c, v) && env.up(v.ops)
    requires var start := E.List(env, v); Pool.Run(c, Init(c, start.now, start.counters, lim), actions, s)
    requires Returned(s) && !s.cancelled
    ensures Filled(s) && E.Tick(env, v, round) == TickAround(env, v, s)
    ensures E.List(env, v).now <= s.now && round.span == s.now - E.List(env, v).now && round.wait == wait
  {
    round := CheckRefines(env, c, E.List(env, v), lim, actions, s, wait);
  }

  /**
   A tick around any prompt concurrent run of Check: everything it does is a tick
   of the engine, and it is over within the database's and the checks' timeouts.
   */
  lemma TickOverPool(env: E.Env, c: Config, v: E.View, lim: L.State, actions: seq<Action>, s: State)
    returns (round: E.Round)
    requires L.Valid(lim) && Serves(env, c, v) && env.up(v.ops)
    requires forall k: nat :: env.took(k) <= E.DB_OP_TIMEOUT
    requires var start := E.List(env, v); PromptCheck(c, Init(c, start.now, start.counters, lim), actions, s)
    requires !s.cancelled
    ensures Filled(s) && E.Tick(env, v, round) == TickAround(env, v, s)
    ensures v.now <= TickAround(env, v, s).now
    ensures TickAround(env, v, s).now - v.now
         <= (1 + 2 * |c.targets|) * E.DB_OP_TIMEOUT + M.Rounds(|c.targets|, Slots(c)) * c.timeout
  {
    var start := E.List(env, v);
    SpanBounded(c, start.now, start.counters, lim, actions, s);
    PoolTime.ClockedFromInit(c, start.now, start.counters, lim, actions, s);
    round := TickRefines(env, c, v, lim, actions, s, 0);
    E.TickTime(env, v, round, Slots(c), c.timeout);
  }
}
