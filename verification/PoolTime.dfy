/**
 How long Check takes.  Here the clock moves only while nothing else can happen:
 a goroutine that can proceed does so at once, and a wait for a token or an HTTP
 exchange, with its body, ends at its deadline at the latest.  The context may be
 cancelled at any time.  The slots are then a work-conserving list schedule, and
 the bounds of Makespan hold for Check.
 */
module PoolTime {
  import opened Counting
  import opened Metrics
  import opened Pool
  import opened PoolSafety
  import PoolProgress
  import TB = TokenBucket
  import L = Limiter
  import M = Makespan

  /** The goroutine is not kept waiting if the clock moves by d. */
  predicate IdlePc(c: Config, s: State, d: nat, pc: Pc) {
    match pc
    case AwaitSlot => Slots(c) <= s.fill && !s.cancelled
    case AwaitToken(_, _, deadline) => s.now + d <= deadline && !s.cancelled
    case InDo(_, _, _, deadline) => s.now + d <= deadline
    case Done(_, _) => true
    case _ => false
  }

  ghost predicate Idle(c: Config, s: State, d: nat) {
    forall i :: 0 <= i < |s.pcs| ==> IdlePc(c, s, d, s.pcs[i])
  }

  ghost predicate PromptRun(c: Config, s: State, actions: seq<Action>, s': State)
    decreases |actions|
  {
    if actions == [] then s' == s
    else Enabled(c, s, actions[0]) && (actions[0].Elapse? ==> Idle(c, s, actions[0].d)) &&
         PromptRun(c, Next(c, s, actions[0]), actions[1..], s')
  }

  // ----- The invariant of prompt runs -----

  predicate IsRunning(job: M.Job) {
    job.Running?
  }

  /** What goroutine i's slot record says about where it is. */
  ghost predicate OnTime(c: Config, now: nat, from: nat, pc: Pc, job: M.Job) {
    && M.Timely(job, from, now, c.timeout)
    && (pc.AwaitSlot? <==> job.Queued?)
    && (HoldsSlot(pc) <==> job.Running?)
    && (pc.Holding? || pc.Started? || pc.Begun? ==> job.start == now)
    && (pc.AwaitToken? || pc.Admitted? || pc.InDo? ==> pc.deadline == job.start + c.timeout)
    && (pc.InDo? ==> job.start <= pc.start <= now)
    && (HasResult(pc) ==> pc.res.duration <= c.timeout)
    && (pc.Released? ==> job.Ended? && job.finish == now)
    && (pc.GaveUp? ==> job.Withdrawn? && job.at == now)
    && (pc.Done? ==> if pc.ran then job.Ended? else job.Withdrawn?)
  }

  ghost predicate Clocked(c: Config, s: State, from: nat) {
    && Shape(c, s)
    && from <= s.now
    && s.fill == Count(s.jobs, IsRunning)
    && M.WorkConserving(s.jobs, Slots(c), from, s.now)
    && forall i :: 0 <= i < |s.pcs| ==> OnTime(c, s.now, from, s.pcs[i], s.jobs[i])
  }

  /** A slot that changes hands now leaves the past of the schedule alone. */
  lemma PastUntouched(jobs: seq<M.Job>, slots: nat, from: nat, now: nat, i: nat, job: M.Job)
    requires M.WorkConserving(jobs, slots, from, now) && i < |jobs|
    requires forall t: nat :: t < now ==> M.RunsAt(t)(jobs[i]) == M.RunsAt(t)(job) && M.WaitsAt(jobs[i], t) == M.WaitsAt(job, t)
    ensures M.WorkConserving(jobs[i := job], slots, from, now)
    ensures M.WithinSlots(jobs, slots, from, now) ==> M.WithinSlots(jobs[i := job], slots, from, now)
  {
    var jobs' := jobs[i := job];
    forall t: nat | from <= t < now
      ensures Count(jobs', M.RunsAt(t)) == Count(jobs, M.RunsAt(t))
    {
      CountUpdate(jobs, i, job, M.RunsAt(t));
      assert M.RunsAt(t)(jobs[i]) == M.RunsAt(t)(job);
    }
    forall t: nat, j | from <= t < now && 0 <= j < |jobs'| && M.WaitsAt(jobs'[j], t)
      ensures slots <= Count(jobs', M.RunsAt(t))
    {
      assert M.WaitsAt(jobs[j], t);
    }
  }

  /** While the clock moves past an idle state, every slot is busy or nobody waits. */
  lemma IdleIsBusy(c: Config, s: State, d: nat, from: nat)
    requires Clocked(c, s, from) && Idle(c, s, d)
    ensures M.WorkConserving(s.jobs, Slots(c), from, s.now + d)
  {
    forall t, i | from <= t < s.now + d && 0 <= i < |s.jobs| && M.WaitsAt(s.jobs[i], t)
      ensures Slots(c) <= Count(s.jobs, M.RunsAt(t))
    {
      if s.now <= t {
        assert OnTime(c, s.now, from, s.pcs[i], s.jobs[i]);
        forall j | 0 <= j < |s.jobs|
          ensures IsRunning(s.jobs[j]) ==> M.RunsAt(t)(s.jobs[j])
        {
          assert OnTime(c, s.now, from, s.pcs[j], s.jobs[j]);
        }
        CountImplies(s.jobs, IsRunning, M.RunsAt(t));
      }
    }
  }

  lemma OnTimeLater(c: Config, s: State, d: nat, from: nat, i: nat)
    requires Clocked(c, s, from) && Idle(c, s, d) && i < |s.pcs|
    ensures OnTime(c, s.now + d, from, s.pcs[i], s.jobs[i])
  {
    assert OnTime(c, s.now, from, s.pcs[i], s.jobs[i]);
  }

  lemma OnTimeMove(c: Config, s: State, i: nat, step: Step, from: nat)
    requires i < |s.pcs| && |s.pcs| == |s.jobs| == |c.targets| && Ready(c, s, i, step)
    requires from <= s.now && OnTime(c, s.now, from, s.pcs[i], s.jobs[i])
    ensures OnTime(c, s.now, from, Move(c, s, i, step), JobAfter(s, i, step))
  {
  }

  lemma ClockedNext(c: Config, s: State, a: Action, from: nat)
    requires Clocked(c, s, from) && Enabled(c, s, a) && (a.Elapse? ==> Idle(c, s, a.d))
    ensures Clocked(c, Next(c, s, a), from)
  {
    var s' := Next(c, s, a);
    ShapeNext(c, s, a);
    match a
    case Elapse(d) =>
      IdleIsBusy(c, s, d, from);
      forall i | 0 <= i < |s.pcs|
        ensures OnTime(c, s.now + d, from, s.pcs[i], s.jobs[i])
      {
        OnTimeLater(c, s, d, from, i);
      }
    case Go(i, step) => ClockedStep(c, s, i, step, from);
    case _ =>
  }

  lemma ClockedStep(c: Config, s: State, i: nat, step: Step, from: nat)
    requires Clocked(c, s, from) && Enabled(c, s, Go(i, step)) && Shape(c, Next(c, s, Go(i, step)))
    ensures Clocked(c, Next(c, s, Go(i, step)), from)
  {
    var job := JobAfter(s, i, step);
    assert OnTime(c, s.now, from, s.pcs[i], s.jobs[i]);
    OnTimeMove(c, s, i, step, from);
    StepParts(c, s, i, step);
    hide Next, Move;
    CountUpdate(s.jobs, i, job, IsRunning);
    JobPast(s, i, step, from, c.timeout);
    PastUntouched(s.jobs, Slots(c), from, s.now, i, job);
  }

  lemma JobPast(s: State, i: nat, step: Step, from: nat, limit: nat)
    requires i < |s.jobs| && M.Timely(s.jobs[i], from, s.now, limit)
    requires (step.Acquire? || step.GiveUp? ==> s.jobs[i].Queued?) && (step.Release? ==> s.jobs[i].Running?)
    ensures var job := JobAfter(s, i, step);
      forall t: nat :: t < s.now ==> M.RunsAt(t)(s.jobs[i]) == M.RunsAt(t)(job) && M.WaitsAt(s.jobs[i], t) == M.WaitsAt(job, t)
  {
  }

  lemma {:induction false} ClockedRun(c: Config, s: State, actions: seq<Action>, s': State, from: nat)
    requires Clocked(c, s, from) && PromptRun(c, s, actions, s')
    ensures Clocked(c, s', from) && Run(c, s, actions, s')
    decreases |actions|
  {
    if actions != [] {
      ClockedNext(c, s, actions[0], from);
      ClockedRun(c, Next(c, s, actions[0]), actions[1..], s', from);
    }
  }

  // ----- No more jobs run than there are slots -----

  /** While the clock moves, exactly the present holders run. */
  lemma HoldersRun(c: Config, s: State, d: nat, from: nat)
    requires Clocked(c, s, from) && s.fill <= Slots(c) && M.WithinSlots(s.jobs, Slots(c), from, s.now)
    ensures M.WithinSlots(s.jobs, Slots(c), from, s.now + d)
  {
    forall t | from <= t < s.now + d
      ensures Count(s.jobs, M.RunsAt(t)) <= Slots(c)
    {
      if s.now <= t {
        forall j | 0 <= j < |s.jobs|
          ensures M.RunsAt(t)(s.jobs[j]) ==> IsRunning(s.jobs[j])
        {
          assert OnTime(c, s.now, from, s.pcs[j], s.jobs[j]);
        }
        CountImplies(s.jobs, M.RunsAt(t), IsRunning);
      }
    }
  }

  lemma WithinSlotsNext(c: Config, s: State, a: Action, from: nat)
    requires Clocked(c, s, from) && Enabled(c, s, a)
    requires s.fill <= Slots(c) && M.WithinSlots(s.jobs, Slots(c), from, s.now)
    ensures var s' := Next(c, s, a); s'.fill <= Slots(c) && M.WithinSlots(s'.jobs, Slots(c), from, s'.now)
  {
    match a
    case Elapse(d) => HoldersRun(c, s, d, from);
    case Go(i, step) =>
      StepParts(c, s, i, step);
      assert OnTime(c, s.now, from, s.pcs[i], s.jobs[i]);
      JobPast(s, i, step, from, c.timeout);
      PastUntouched(s.jobs, Slots(c), from, s.now, i, JobAfter(s, i, step));
    case _ =>
  }

  lemma {:induction false} WithinSlotsRun(c: Config, s: State, actions: seq<Action>, s': State, from: nat)
    requires Clocked(c, s, from) && PromptRun(c, s, actions, s')
    requires s.fill <= Slots(c) && M.WithinSlots(s.jobs, Slots(c), from, s.now)
    ensures s'.fill <= Slots(c) && M.WithinSlots(s'.jobs, Slots(c), from, s'.now)
    decreases |actions|
  {
    if actions != [] {
      ClockedNext(c, s, actions[0], from);
      WithinSlotsNext(c, s, actions[0], from);
      WithinSlotsRun(c, Next(c, s, actions[0]), actions[1..], s', from);
    }
  }

  /** A prompt run of Check never has more slots in use than there are. */
  lemma NeverOverbooked(c: Config, from: nat, metrics: Counters, lim: L.State, actions: seq<Action>, s: State)
    requires L.Valid(lim) && PromptRun(c, Init(c, from, metrics, lim), actions, s)
    ensures M.WithinSlots(s.jobs, Slots(c), from, s.now)
  {
    var init := Init(c, from, metrics, lim);
    CountBounds(init.jobs, IsRunning);
    WithinSlotsRun(c, init, actions, s, from);
  }

  lemma ClockedFromInit(c: Config, from: nat, metrics: Counters, lim: L.State, actions: seq<Action>, s: State)
    requires L.Valid(lim) && PromptRun(c, Init(c, from, metrics, lim), actions, s)
    ensures Clocked(c, s, from) && M.Schedule(s.jobs, Slots(c), from, s.now, c.timeout)
    ensures Run(c, Init(c, from, metrics, lim), actions, s) && Reachable(c, s, from, metrics, lim)
  {
    var init := Init(c, from, metrics, lim);
    CountBounds(init.jobs, IsRunning);
    ClockedRun(c, init, actions, s, from);
    forall i | 0 <= i < |s.jobs|
      ensures M.Timely(s.jobs[i], from, s.now, c.timeout)
    {
      assert OnTime(c, s.now, from, s.pcs[i], s.jobs[i]);
    }
  }

  // ----- The bounds -----

  predicate IsDone(pc: Pc) {
    pc.Done?
  }

  lemma OverAreDone(c: Config, s: State, from: nat, t: nat)
    requires Clocked(c, s, from) && t < s.now
    ensures Count(s.jobs, M.OverBy(t)) <= Count(s.pcs, IsDone)
  {
    forall i | 0 <= i < |s.jobs|
      ensures M.OverBy(t)(s.jobs[i]) ==> IsDone(s.pcs[i])
    {
      assert OnTime(c, s.now, from, s.pcs[i], s.jobs[i]);
    }
    CountTransfer(s.jobs, M.OverBy(t), s.pcs, IsDone);
  }

  /** After k timeouts at least min(n, k * slots) goroutines are done; uncancelled, their checks were made. */
  lemma ChecksDoneBy(c: Config, from: nat, metrics: Counters, lim: L.State, actions: seq<Action>, s: State, k: nat, t: nat)
    requires L.Valid(lim) && PromptRun(c, Init(c, from, metrics, lim), actions, s)
    requires t == from + k * c.timeout && t < s.now
    ensures M.Min(|c.targets|, k * Slots(c)) <= Count(s.pcs, IsDone)
    ensures !s.cancelled ==> M.Min(|c.targets|, k * Slots(c)) <= Count(s.pcs, Ran)
  {
    ClockedFromInit(c, from, metrics, lim, actions, s);
    BatchesDone(c, s, from, k, t);
    AllRunRun(c, Init(c, from, metrics, lim), actions, s);
    DoneAreRan(s);
  }

  lemma BatchesDone(c: Config, s: State, from: nat, k: nat, t: nat)
    requires Clocked(c, s, from) && M.Schedule(s.jobs, Slots(c), from, s.now, c.timeout)
    requires t == from + k * c.timeout && t < s.now
    ensures M.Min(|c.targets|, k * Slots(c)) <= Count(s.pcs, IsDone)
  {
    M.BatchesEnd(s.jobs, Slots(c), from, s.now, c.timeout, k);
    OverAreDone(c, s, from, t);
  }

  lemma DoneAreRan(s: State)
    requires AllRun(s)
    ensures !s.cancelled ==> Count(s.pcs, IsDone) <= Count(s.pcs, Ran)
  {
    if !s.cancelled {
      CountImplies(s.pcs, IsDone, Ran);
    }
  }

  /** The makespan of Check: after ceil(n / slots) timeouts it has returned. */
  lemma CheckReturnsInTime(c: Config, from: nat, metrics: Counters, lim: L.State, actions: seq<Action>, s: State)
    requires L.Valid(lim) && PromptRun(c, Init(c, from, metrics, lim), actions, s)
    requires from + M.Rounds(|c.targets|, Slots(c)) * c.timeout < s.now
    ensures Returned(s)
    ensures forall i :: 0 <= i < |s.jobs| ==>
      M.Over(s.jobs[i]) && M.End(s.jobs[i]) <= from + M.Rounds(|c.targets|, Slots(c)) * c.timeout
  {
    ClockedFromInit(c, from, metrics, lim, actions, s);
    M.AllEndedInTime(s.jobs, Slots(c), from, s.now, c.timeout);
    forall i | 0 <= i < |s.pcs|
      ensures s.pcs[i].Done?
    {
      assert OnTime(c, s.now, from, s.pcs[i], s.jobs[i]);
    }
    ReturnsWhenDone(c, s, from, metrics, lim);
  }

  /**
   The bound by the work done: when Check has returned, no check held a slot
   longer than the timeout, none measured a longer duration, and
   slots * (end of goroutine i) <= all slot time + (slots - 1) * (slot time of i),
   and all slot time fits into the slots.  A goroutine that gave up has no slot time.
   */
  lemma CheckBoundedByWork(c: Config, from: nat, metrics: Counters, lim: L.State, actions: seq<Action>, s: State, i: nat)
    requires L.Valid(lim) && PromptRun(c, Init(c, from, metrics, lim), actions, s) && Returned(s) && i < |c.targets|
    ensures |s.jobs| == |s.pcs| == |c.targets| && M.Over(s.jobs[i]) && s.pcs[i].Done?
    ensures s.pcs[i].ran ==> s.jobs[i].Ended? && from <= s.jobs[i].start <= s.jobs[i].finish <= s.jobs[i].start + c.timeout
    ensures !s.pcs[i].ran ==> M.Length(s.jobs[i]) == 0
    ensures s.pcs[i].res.duration <= c.timeout
    ensures Slots(c) * (M.End(s.jobs[i]) - from)
         <= Sum(s.jobs, M.Length) + (Slots(c) - 1) * M.Length(s.jobs[i])
    ensures Sum(s.jobs, M.Length) <= Slots(c) * (s.now - from)
  {
    ClockedFromInit(c, from, metrics, lim, actions, s);
    ReturnsWhenDone(c, s, from, metrics, lim);
    WorkOnReturn(c, s, from, i);
    NeverOverbooked(c, from, metrics, lim, actions, s);
    AllWorkFits(c, s, from);
  }

  lemma AllWorkFits(c: Config, s: State, from: nat)
    requires Clocked(c, s, from) && M.Schedule(s.jobs, Slots(c), from, s.now, c.timeout)
    requires M.WithinSlots(s.jobs, Slots(c), from, s.now)
    requires forall j :: 0 <= j < |s.pcs| ==> s.pcs[j].Done?
    ensures Sum(s.jobs, M.Length) <= Slots(c) * (s.now - from)
  {
    OverInTime(c, s, from);
    M.WorkTakesTime(s.jobs, Slots(c), from, s.now, c.timeout);
  }

  lemma WorkOnReturn(c: Config, s: State, from: nat, i: nat)
    requires Clocked(c, s, from) && M.Schedule(s.jobs, Slots(c), from, s.now, c.timeout) && i < |s.pcs|
    requires forall j :: 0 <= j < |s.pcs| ==> s.pcs[j].Done?
    ensures M.Over(s.jobs[i]) && M.Timely(s.jobs[i], from, s.now, c.timeout)
    ensures (s.pcs[i].ran <==> s.jobs[i].Ended?) && s.pcs[i].res.duration <= c.timeout
    ensures Slots(c) * (M.End(s.jobs[i]) - from)
         <= Sum(s.jobs, M.Length) + (Slots(c) - 1) * M.Length(s.jobs[i])
  {
    OverInTime(c, s, from);
    M.FinishBoundedByWork(s.jobs, Slots(c), from, s.now, c.timeout, i);
  }

  lemma OverInTime(c: Config, s: State, from: nat)
    requires Clocked(c, s, from) && forall j :: 0 <= j < |s.pcs| ==> s.pcs[j].Done?
    ensures forall j :: 0 <= j < |s.jobs| ==>
      && M.Over(s.jobs[j]) && M.Timely(s.jobs[j], from, s.now, c.timeout)
      && (s.pcs[j].ran <==> s.jobs[j].Ended?) && s.pcs[j].res.duration <= c.timeout
  {
    forall j | 0 <= j < |s.jobs|
      ensures OnTime(c, s.now, from, s.pcs[j], s.jobs[j])
    {
    }
  }

  /** The assumptions never stop the clock for good: unfinished goroutines can move, or time can. */
  lemma NoTimelock(c: Config, from: nat, metrics: Counters, lim: L.State, actions: seq<Action>, s: State)
    requires L.Valid(lim) && PromptRun(c, Init(c, from, metrics, lim), actions, s)
    requires c.limited ==> lim.ratePerSecond <= TB.SECOND
    ensures Idle(c, s, 1) || exists i: nat, step :: Enabled(c, s, Go(i, step))
  {
    ClockedFromInit(c, from, metrics, lim, actions, s);
    ReachableInv(c, s, from, metrics, lim);
    PoolProgress.BoundedRun(c, Init(c, from, metrics, lim), actions, s);
    IdleOrMoving(c, s, metrics);
  }

  lemma IdleOrMoving(c: Config, s: State, metrics: Counters)
    requires Inv(c, s, metrics) && PoolProgress.Bounded(c, s) && (c.limited ==> s.lim.ratePerSecond <= TB.SECOND)
    ensures Idle(c, s, 1) || exists i: nat, step :: Enabled(c, s, Go(i, step))
  {
    if i: nat :| i < |s.pcs| && !IdlePc(c, s, 1, s.pcs[i]) {
      var step := Moves(c, s, metrics, i);
    }
  }

  lemma Moves(c: Config, s: State, metrics: Counters, i: nat) returns (step: Step)
    requires Inv(c, s, metrics) && PoolProgress.Bounded(c, s) && (c.limited ==> s.lim.ratePerSecond <= TB.SECOND)
    requires i < |s.pcs| && !IdlePc(c, s, 1, s.pcs[i])
    ensures Enabled(c, s, Go(i, step))
  {
    if s.pcs[i].AwaitSlot? {
      step := if s.cancelled then GiveUp(s.now, "context canceled") else Acquire;
    } else if s.pcs[i].AwaitToken? {
      step := Expire("context deadline exceeded");
    } else {
      PoolProgress.HolderUnblocks(c, s, metrics, i);
      assert Next(c, s, Elapse(0)) == s;
      step := PoolProgress.Unblock(c, s, s.pcs[i]);
    }
  }
}
