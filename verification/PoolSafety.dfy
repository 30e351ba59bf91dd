/** What every step of Pool.Check keeps, in every interleaving. */
module PoolSafety {
  import opened Prelude
  import opened Counting
  import opened Check
  import opened Metrics
  import opened Pool
  import TB = TokenBucket
  import L = Limiter
  import M = Makespan

  // ----- Which goroutines a shared counter stands for -----

  predicate HoldsSlot(pc: Pc) {
    !pc.AwaitSlot? && !pc.Released? && !pc.GaveUp? && !pc.Done?
  }

  predicate CallsClient(pc: Pc) {
    pc.InDo?
  }

  predicate Unfinished(pc: Pc) {
    !pc.Done?
  }

  /** Between CheckStarted and the first update of CheckFinished. */
  predicate InFlight(pc: Pc) {
    pc.Started? || pc.Begun? || pc.AwaitToken? || pc.Admitted? || pc.InDo? || pc.Checked?
  }

  predicate PastTotal(pc: Pc) {
    pc.Totalled? || pc.Counted? || pc.Written? || pc.Released? || (pc.Done? && pc.ran)
  }

  predicate PastFailed(pc: Pc) {
    (pc.Counted? || pc.Written? || pc.Released? || (pc.Done? && pc.ran)) && pc.res.Failed()
  }

  predicate BetweenUpdates(pc: Pc) {
    pc.Left?
  }

  predicate HasStarted(pc: Pc) {
    InFlight(pc) || BetweenUpdates(pc) || PastTotal(pc)
  }

  predicate HasWritten(pc: Pc) {
    pc.Written? || pc.Released? || pc.GaveUp? || pc.Done?
  }

  function AdmittedTo(domain: string): Pc -> bool {
    (pc: Pc) => pc.Admitted? && pc.domain == domain
  }

  // ----- The invariant -----

  ghost predicate SlotsAccounted(c: Config, s: State) {
    && s.fill == Count(s.pcs, HoldsSlot) <= Slots(c)
    && s.wg == Count(s.pcs, Unfinished)
  }

  /** The part of a counter that this Check has contributed; nothing without a recorder. */
  function Contribution(c: Config, pcs: seq<Pc>, p: Pc -> bool): nat {
    if c.metered then Count(pcs, p) else 0
  }

  ghost predicate CountersAccounted(c: Config, s: State, before: Counters) {
    && s.metrics.inFlight == before.inFlight + Contribution(c, s.pcs, InFlight)
    && s.metrics.total == before.total + Contribution(c, s.pcs, PastTotal)
    && s.metrics.failed == before.failed + Contribution(c, s.pcs, PastFailed)
  }

  /** Slot i of the results: written once, with the goroutine's own result, and an error always comes with status 0. */
  ghost predicate OwnResult(c: Config, s: State, i: nat)
    requires Shape(c, s) && i < |s.pcs|
  {
    Own(c.targets[i], s.pcs[i], s.results[i], s.writes[i])
  }

  predicate Own(target: Target, pc: Pc, result: Option<CheckResult>, writes: nat) {
    && result == (if HasWritten(pc) then Some(pc.res) else None)
    && writes == One(HasWritten(pc))
    && (HasResult(pc) ==> pc.res.target == target && (pc.res.err.Some? ==> pc.res.status == 0))
  }

  ghost predicate Inv(c: Config, s: State, before: Counters) {
    && Shape(c, s)
    && SlotsAccounted(c, s)
    && CountersAccounted(c, s, before)
    && forall i :: 0 <= i < |s.pcs| ==> OwnResult(c, s, i)
  }

  lemma InitInv(c: Config, now: nat, metrics: Counters, lim: L.State)
    requires L.Valid(lim)
    ensures Inv(c, Init(c, now, metrics, lim), metrics)
  {
    var s := Init(c, now, metrics, lim);
    CountBounds(s.pcs, HoldsSlot);
    CountBounds(s.pcs, Unfinished);
    CountBounds(s.pcs, InFlight);
    CountBounds(s.pcs, PastTotal);
    CountBounds(s.pcs, PastFailed);
  }

  lemma SlotsAccountedNext(c: Config, s: State, a: Action)
    requires Enabled(c, s, a) && SlotsAccounted(c, s)
    ensures SlotsAccounted(c, Next(c, s, a))
  {
    if a.Go? {
      var pc := Move(c, s, a.i, a.step);
      CountUpdate(s.pcs, a.i, pc, HoldsSlot);
      CountUpdate(s.pcs, a.i, pc, Unfinished);
    }
  }

  lemma InFlightNext(c: Config, s: State, a: Action)
    requires Enabled(c, s, a)
    ensures var s' := Next(c, s, a);
      s'.metrics.inFlight - Contribution(c, s'.pcs, InFlight) == s.metrics.inFlight - Contribution(c, s.pcs, InFlight)
  {
    if a.Go? {
      CountUpdate(s.pcs, a.i, Move(c, s, a.i, a.step), InFlight);
    }
  }

  lemma TotalNext(c: Config, s: State, a: Action)
    requires Enabled(c, s, a)
    ensures var s' := Next(c, s, a);
      s'.metrics.total - Contribution(c, s'.pcs, PastTotal) == s.metrics.total - Contribution(c, s.pcs, PastTotal)
  {
    if a.Go? {
      CountUpdate(s.pcs, a.i, Move(c, s, a.i, a.step), PastTotal);
    }
  }

  lemma FailedMove(c: Config, s: State, i: nat, step: Step)
    requires i < |s.pcs| && |s.pcs| == |c.targets| && Ready(c, s, i, step)
    ensures One(PastFailed(Move(c, s, i, step)))
         == One(PastFailed(s.pcs[i])) + One(step.AddFailed? && s.pcs[i].res.Failed())
  {
    MoveKeepsResult(c, s, i, step);
  }

  lemma FailedNext(c: Config, s: State, a: Action)
    requires Enabled(c, s, a)
    ensures var s' := Next(c, s, a);
      s'.metrics.failed - Contribution(c, s'.pcs, PastFailed) == s.metrics.failed - Contribution(c, s.pcs, PastFailed)
  {
    if a.Go? {
      FailedMove(c, s, a.i, a.step);
      CountUpdate(s.pcs, a.i, Move(c, s, a.i, a.step), PastFailed);
    }
  }

  lemma CountersAccountedNext(c: Config, s: State, a: Action, before: Counters)
    requires Enabled(c, s, a) && CountersAccounted(c, s, before)
    ensures CountersAccounted(c, Next(c, s, a), before)
  {
    InFlightNext(c, s, a);
    TotalNext(c, s, a);
    FailedNext(c, s, a);
  }

  /** A step leaves a result alone or makes one for the goroutine's own target. */
  lemma MoveKeepsResult(c: Config, s: State, i: nat, step: Step)
    requires i < |s.pcs| && |s.pcs| == |c.targets| && Ready(c, s, i, step)
    ensures var pc, pc' := s.pcs[i], Move(c, s, i, step);
      && (HasResult(pc) ==> HasResult(pc') && pc'.res == pc.res)
      && (HasResult(pc') && !HasResult(pc) ==>
            pc'.res.target == c.targets[i] && (pc'.res.err.Some? ==> pc'.res.status == 0))
      && HasWritten(pc') == (HasWritten(pc) || step.GiveUp? || step.Write?)
      && (step.GiveUp? || step.Write? ==> !HasWritten(pc))
      && (HasWritten(pc') ==> HasResult(pc'))
  {
  }

  predicate Writes(step: Step) {
    step.GiveUp? || step.Write?
  }

  lemma PcsNext(c: Config, s: State, a: Action)
    requires Enabled(c, s, a)
    ensures Next(c, s, a).pcs == if a.Go? then s.pcs[a.i := Move(c, s, a.i, a.step)] else s.pcs
  {
  }

  lemma OwnMove(c: Config, s: State, i: nat, step: Step, result: Option<CheckResult>, writes: nat)
    requires i < |s.pcs| && |s.pcs| == |c.targets| && Ready(c, s, i, step) && Own(c.targets[i], s.pcs[i], result, writes)
    ensures var pc := Move(c, s, i, step);
      Own(c.targets[i], pc, if Writes(step) then Some(pc.res) else result, if Writes(step) then writes + 1 else writes)
  {
    MoveKeepsResult(c, s, i, step);
  }

  /** What a step does to the results. */
  lemma NextResults(c: Config, s: State, i: nat, step: Step)
    requires Enabled(c, s, Go(i, step))
    ensures var s', pc := Next(c, s, Go(i, step)), Move(c, s, i, step);
      && s'.pcs == s.pcs[i := pc]
      && s'.results == (if Writes(step) then s.results[i := Some(pc.res)] else s.results)
      && s'.writes == (if Writes(step) then s.writes[i := s.writes[i] + 1] else s.writes)
  {
  }

  lemma OwnResultNext(c: Config, s: State, s': State, a: Action, i: nat)
    requires Enabled(c, s, a) && s' == Next(c, s, a) && Shape(c, s') && i < |s.pcs| && OwnResult(c, s, i)
    ensures OwnResult(c, s', i)
  {
    if a.Go? {
      NextResults(c, s, a.i, a.step);
      if a.i == i {
        OwnMove(c, s, i, a.step, s.results[i], s.writes[i]);
      }
    }
  }

  lemma InvNext(c: Config, s: State, a: Action, before: Counters)
    requires Inv(c, s, before) && Enabled(c, s, a)
    ensures Inv(c, Next(c, s, a), before)
  {
    ShapeNext(c, s, a);
    SlotsAccountedNext(c, s, a);
    CountersAccountedNext(c, s, a, before);
    forall i | 0 <= i < |s.pcs|
      ensures OwnResult(c, Next(c, s, a), i)
    {
      OwnResultNext(c, s, Next(c, s, a), a, i);
    }
  }

  lemma {:induction false} InvRun(c: Config, s: State, actions: seq<Action>, s': State, before: Counters)
    requires Inv(c, s, before) && Run(c, s, actions, s')
    ensures Inv(c, s', before)
    decreases |actions|
  {
    if actions != [] {
      InvNext(c, s, actions[0], before);
      InvRun(c, Next(c, s, actions[0]), actions[1..], s', before);
    }
  }

  ghost predicate Reachable(c: Config, s: State, now: nat, metrics: Counters, lim: L.State) {
    L.Valid(lim) && exists actions :: Run(c, Init(c, now, metrics, lim), actions, s)
  }

  lemma ReachableInv(c: Config, s: State, now: nat, metrics: Counters, lim: L.State)
    requires Reachable(c, s, now, metrics, lim)
    ensures Inv(c, s, metrics)
  {
    var actions :| Run(c, Init(c, now, metrics, lim), actions, s);
    InitInv(c, now, metrics, lim);
    InvRun(c, Init(c, now, metrics, lim), actions, s, metrics);
  }

  // ----- What the invariant says to a caller -----

  /** The semaphore bounds the calls of client.Do, and the in-flight gauge, by the number of workers. */
  lemma ConcurrencyBounded(c: Config, s: State, now: nat, metrics: Counters, lim: L.State)
    requires Reachable(c, s, now, metrics, lim)
    ensures Count(s.pcs, CallsClient) <= s.fill == Count(s.pcs, HoldsSlot) <= Slots(c)
    ensures s.fill <= 1 || s.fill <= c.maxWorkers
    ensures s.wg == Count(s.pcs, Unfinished)
    ensures metrics.inFlight <= s.metrics.inFlight <= metrics.inFlight + Slots(c)
  {
    ReachableInv(c, s, now, metrics, lim);
    CountImplies(s.pcs, CallsClient, HoldsSlot);
    CountImplies(s.pcs, InFlight, HoldsSlot);
  }

  /** Conservation under fine interleaving: every started check is in flight, finished, or between the two updates. */
  lemma MetricsConserved(c: Config, s: State, now: nat, metrics: Counters, lim: L.State)
    requires Reachable(c, s, now, metrics, lim) && c.metered
    ensures Count(s.pcs, HasStarted)
         == (s.metrics.inFlight - metrics.inFlight) + Count(s.pcs, BetweenUpdates) + (s.metrics.total - metrics.total)
    ensures s.metrics.failed - metrics.failed <= s.metrics.total - metrics.total
  {
    ReachableInv(c, s, now, metrics, lim);
    CountSplit(s.pcs, InFlight, BetweenUpdates, (pc: Pc) => InFlight(pc) || BetweenUpdates(pc));
    CountSplit(s.pcs, (pc: Pc) => InFlight(pc) || BetweenUpdates(pc), PastTotal, HasStarted);
    CountImplies(s.pcs, PastFailed, PastTotal);
  }

  function Ran(pc: Pc): bool {
    pc.Done? && pc.ran
  }

  function RanAndFailed(pc: Pc): bool {
    pc.Done? && pc.ran && pc.res.Failed()
  }

  /**
   When wg.Wait returns: every goroutine is done, the semaphore is empty, every
   result was written exactly once and carries its own target, an error means
   status 0, and a recorder's counters have moved by the checks that got a slot.
   */
  lemma AfterReturn(c: Config, s: State, now: nat, metrics: Counters, lim: L.State)
    requires Reachable(c, s, now, metrics, lim) && Returned(s)
    ensures |s.pcs| == |s.results| == |s.writes| == |c.targets| && s.fill == 0
    ensures forall i :: 0 <= i < |s.pcs| ==>
      && s.pcs[i].Done? && s.writes[i] == 1 && s.results[i] == Some(s.pcs[i].res)
      && s.results[i].value.target == c.targets[i]
      && (s.results[i].value.err.Some? ==> s.results[i].value.status == 0)
    ensures s.metrics == if !c.metered then metrics else
      Counters(metrics.total + Count(s.pcs, Ran), metrics.inFlight, metrics.failed + Count(s.pcs, RanAndFailed))
  {
    ReachableInv(c, s, now, metrics, lim);
    ResultsOnReturn(c, s);
    CountersOnReturn(s.pcs);
  }

  lemma ResultsOnReturn(c: Config, s: State)
    requires Shape(c, s) && SlotsAccounted(c, s) && Returned(s)
    requires forall i :: 0 <= i < |s.pcs| ==> OwnResult(c, s, i)
    ensures s.fill == 0
    ensures forall i :: 0 <= i < |s.pcs| ==>
      && s.pcs[i].Done? && s.writes[i] == 1 && s.results[i] == Some(s.pcs[i].res)
      && s.results[i].value.target == c.targets[i]
      && (s.results[i].value.err.Some? ==> s.results[i].value.status == 0)
  {
    CountBounds(s.pcs, Unfinished);
    forall i | 0 <= i < |s.pcs|
      ensures s.pcs[i].Done? && HasWritten(s.pcs[i]) && HasResult(s.pcs[i]) && OwnResult(c, s, i)
    {
      assert !Unfinished(s.pcs[i]);
    }
    forall i | 0 <= i < |s.pcs|
      ensures !HoldsSlot(s.pcs[i])
    {
      assert s.pcs[i].Done?;
    }
    CountBounds(s.pcs, HoldsSlot);
  }

  lemma CountersOnReturn(pcs: seq<Pc>)
    requires forall i :: 0 <= i < |pcs| ==> pcs[i].Done?
    ensures Count(pcs, InFlight) == 0 && Count(pcs, PastTotal) == Count(pcs, Ran)
    ensures Count(pcs, PastFailed) == Count(pcs, RanAndFailed)
  {
    CountBounds(pcs, InFlight);
    CountImplies(pcs, PastTotal, Ran);
    CountImplies(pcs, Ran, PastTotal);
    CountImplies(pcs, PastFailed, RanAndFailed);
    CountImplies(pcs, RanAndFailed, PastFailed);
  }

  /** Conversely, once every goroutine is done, wg.Wait returns. */
  lemma ReturnsWhenDone(c: Config, s: State, now: nat, metrics: Counters, lim: L.State)
    requires Reachable(c, s, now, metrics, lim)
    ensures Returned(s) <==> forall i :: 0 <= i < |s.pcs| ==> s.pcs[i].Done?
  {
    ReachableInv(c, s, now, metrics, lim);
    CountBounds(s.pcs, Unfinished);
    assert forall i :: 0 <= i < |s.pcs| ==> Unfinished(s.pcs[i]) == !s.pcs[i].Done?;
  }

  /** Conversely, a slot is there for the taking as long as fewer than max(1, maxWorkers) are taken. */
  lemma WaitingCanAcquire(c: Config, s: State, i: nat)
    requires Shape(c, s) && i < |s.pcs| && s.pcs[i].AwaitSlot?
    ensures Enabled(c, s, Go(i, Acquire)) <==> s.fill == 0 || s.fill < c.maxWorkers
  {
  }

  // ----- Without cancellation every check runs -----

  ghost predicate AllRun(s: State) {
    !s.cancelled ==> forall i :: 0 <= i < |s.pcs| ==> !s.pcs[i].GaveUp? && (s.pcs[i].Done? ==> s.pcs[i].ran)
  }

  lemma {:induction false} AllRunRun(c: Config, s: State, actions: seq<Action>, s': State)
    requires Run(c, s, actions, s') && AllRun(s)
    ensures AllRun(s')
    decreases |actions|
  {
    if actions != [] {
      AllRunRun(c, Next(c, s, actions[0]), actions[1..], s');
    }
  }

  // ----- The parts of a step -----

  function JobAfter(s: State, i: nat, step: Step): M.Job
    requires i < |s.jobs|
  {
    match step
    case Acquire => M.Running(s.now)
    case GiveUp(_, _) => M.Withdrawn(s.now)
    case Release => M.Ended(if s.jobs[i].Running? then s.jobs[i].start else s.now, s.now)
    case _ => s.jobs[i]
  }

  lemma StepParts(c: Config, s: State, i: nat, step: Step)
    requires Enabled(c, s, Go(i, step))
    ensures var s' := Next(c, s, Go(i, step));
      && s'.jobs == s.jobs[i := JobAfter(s, i, step)] && s'.pcs == s.pcs[i := Move(c, s, i, step)] && s'.now == s.now
      && s'.fill == if step.Acquire? then s.fill + 1 else if step.Release? then s.fill - 1 else s.fill
  {
  }
}
