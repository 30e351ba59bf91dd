/**
 Pool.Check as a step system: one goroutine per target, a semaphore of worker
 slots, a WaitGroup, the results slice, the process counters, and the per-domain
 limiter, which other callers may use at the same time.  Any interleaving of the
 goroutines' steps with each other, with the clock, with the limiter's own
 goroutines and with a cancellation of the context is a run.
 */
module Pool {
  import opened Prelude
  import opened Check
  import opened Metrics
  import TB = TokenBucket
  import L = Limiter
  import M = Makespan

  datatype Config = Config(targets: seq<Target>, maxWorkers: int, timeout: nat, limited: bool, metered: bool,
                           resolve: string -> Result<string>)

  function Slots(c: Config): nat {
    if c.maxWorkers < 1 then 1 else c.maxWorkers
  }

  /** Where a goroutine of Check is. */
  datatype Pc =
    | AwaitSlot                                                       // at the select on p.sem and ctx.Done
    | Holding                                                         // slot taken
    | Started                                                         // CheckStarted done
    | Begun(at: nat)                                                  // checkOne has read the clock
    | AwaitToken(domain: string, at: nat, deadline: nat)              // in limiter.Wait
    | Admitted(domain: string, at: nat, deadline: nat)                // past the limiter
    | InDo(domain: string, at: nat, start: nat, deadline: nat)        // in client.Do
    | Checked(res: CheckResult)                                       // checkOne has returned
    | Left(res: CheckResult)                                          // CheckFinished: in-flight updated
    | Totalled(res: CheckResult)                                      // CheckFinished: total updated
    | Counted(res: CheckResult)                                       // CheckFinished done
    | Written(res: CheckResult)                                       // results[i] written
    | Released(res: CheckResult)                                      // slot given back
    | GaveUp(res: CheckResult)                                        // results[i] written without a slot
    | Done(res: CheckResult, ran: bool)                               // wg.Done called

  datatype Step =
    | Acquire | GiveUp(ended: nat, err: string)
    | Start | Begin(now: nat) | Parse
    | GetToken | Expire(err: string) | Refuse
    | Build(broken: Option<string>) | Return(reply: Reply)
    | Leave | AddTotal | AddFailed | Write | Release | Finish

  datatype Action =
    | Go(i: nat, step: Step)
    | Elapse(d: nat)
    | Cancel
    | Limiter(act: L.Action)

  /** writes counts the writes to each result; calls counts the calls of client.Do per domain; jobs records slot use. */
  datatype State = State(now: nat, cancelled: bool, pcs: seq<Pc>, fill: nat, wg: int,
                         results: seq<Option<CheckResult>>, writes: seq<nat>, metrics: Counters,
                         lim: L.State, calls: multiset<string>, jobs: seq<M.Job>)

  function Init(c: Config, now: nat, metrics: Counters, lim: L.State): State {
    var n := |c.targets|;
    State(now, false, seq(n, _ => AwaitSlot), 0, n, seq(n, _ => None), seq(n, _ => 0), metrics, lim,
          multiset{}, seq(n, _ => M.Queued))
  }

  ghost predicate Shape(c: Config, s: State) {
    && |s.pcs| == |s.results| == |s.writes| == |s.jobs| == |c.targets|
    && L.Valid(s.lim)
  }

  predicate HasResult(pc: Pc) {
    pc.Checked? || pc.Left? || pc.Totalled? || pc.Counted? || pc.Written? || pc.Released? || pc.GaveUp? || pc.Done?
  }

  /**
   Whether goroutine i can take the step now.  Return is the end of checkOne, when
   the body has been drained; `took` was measured before that.
   */
  predicate Ready(c: Config, s: State, i: nat, step: Step)
    requires i < |s.pcs| && |s.pcs| == |c.targets|
  {
    var pc := s.pcs[i];
    match step
    case Acquire => pc.AwaitSlot? && s.fill < Slots(c)
    case GiveUp(ended, _) => pc.AwaitSlot? && s.cancelled && ended == s.now
    case Start => pc.Holding?
    case Begin(now) => pc.Started? && now == s.now
    case Parse =>
      pc.Begun? &&
      (c.limited && c.resolve(c.targets[i].url).Ok? ==>
        L.Enabled(s.lim, s.now, L.Lookup(c.resolve(c.targets[i].url).value)))
    case GetToken => pc.AwaitToken? && L.Enabled(s.lim, s.now, L.On(pc.domain, TB.Take))
    case Expire(_) => pc.AwaitToken? && (s.cancelled || pc.deadline <= s.now)
    case Refuse => pc.AwaitToken? && pc.domain in s.lim.buckets && s.lim.buckets[pc.domain].closed
    case Build(_) => pc.Admitted?
    case Return(reply) =>
      pc.InDo? && (reply.Failure? || reply.Response?) && pc.start <= s.now && reply.took <= s.now - pc.start
    case Leave => pc.Checked?
    case AddTotal => pc.Left?
    case AddFailed => pc.Totalled?
    case Write => pc.Counted?
    case Release => pc.Written? && 0 < s.fill
    case Finish => pc.Released? || pc.GaveUp?
  }

  /** Where the step takes goroutine i. */
  function Move(c: Config, s: State, i: nat, step: Step): Pc
    requires i < |s.pcs| && |s.pcs| == |c.targets| && Ready(c, s, i, step)
  {
    var pc, target := s.pcs[i], c.targets[i];
    match step
    case Acquire => Holding
    case GiveUp(ended, err) => GaveUp(CheckResult(target, 0, 0, Some(err), ended))
    case Start => Started
    case Begin(now) => Begun(now)
    case Parse =>
      (match c.resolve(target.url)
       case Err(e) => Checked(CheckResult(target, 0, 0, Some("monitor: parse target url: " + e), pc.at))
       case Ok(domain) =>
         if c.limited then AwaitToken(domain, pc.at, s.now + c.timeout)
         else Admitted(domain, pc.at, s.now + c.timeout))
    case GetToken => Admitted(pc.domain, pc.at, pc.deadline)
    case Expire(e) => Checked(CheckResult(target, 0, 0, Some("monitor: rate limit wait: " + e), pc.at))
    case Refuse => Checked(CheckResult(target, 0, 0, Some("monitor: rate limit wait: " + BUCKET_CLOSED), pc.at))
    case Build(broken) =>
      (match broken
       case Some(e) => Checked(CheckResult(target, 0, 0, Some("monitor: build request: " + e), pc.at))
       case None => InDo(pc.domain, pc.at, s.now, pc.deadline))
    case Return(reply) =>
      if reply.Failure?
      then Checked(CheckResult(target, 0, reply.took, Some("monitor: request failed: " + reply.err), pc.at))
      else Checked(CheckResult(target, reply.status, reply.took, None, pc.at))
    case Leave => Left(pc.res)
    case AddTotal => Totalled(pc.res)
    case AddFailed => Counted(pc.res)
    case Write => Written(pc.res)
    case Release => Released(pc.res)
    case Finish => Done(pc.res, pc.Released?)
  }

  /** The limiter operation that the step performs, if any. */
  function LimiterUse(c: Config, s: State, i: nat, step: Step): Option<L.Action>
    requires i < |s.pcs| && |s.pcs| == |c.targets| && Ready(c, s, i, step)
  {
    if step.Parse? && c.limited && c.resolve(c.targets[i].url).Ok? then
      Some(L.Lookup(c.resolve(c.targets[i].url).value))
    else if step.GetToken? then Some(L.On(s.pcs[i].domain, TB.Take))
    else None
  }

  function MetricsAfter(c: Config, s: State, i: nat, step: Step): Counters
    requires i < |s.pcs| && |s.pcs| == |c.targets| && Ready(c, s, i, step)
  {
    if !c.metered then s.metrics
    else match step
      case Start => s.metrics.Launch()
      case Leave => s.metrics.Land()
      case AddTotal => s.metrics.CountOne()
      case AddFailed => s.metrics.CountFailure(s.pcs[i].res.Failed())
      case _ => s.metrics
  }

  ghost predicate Enabled(c: Config, s: State, a: Action) {
    Shape(c, s) &&
    match a
    case Go(i, step) => i < |s.pcs| && Ready(c, s, i, step)
    case Elapse(_) => true
    case Cancel => true
    case Limiter(act) => L.Enabled(s.lim, s.now, act)
  }

  ghost function Next(c: Config, s: State, a: Action): State
    requires Enabled(c, s, a)
  {
    match a
    case Elapse(d) => s.(now := s.now + d)
    case Cancel => s.(cancelled := true)
    case Limiter(act) => s.(lim := L.Next(s.lim, s.now, act))
    case Go(i, step) =>
      var pc := Move(c, s, i, step);
      var use := LimiterUse(c, s, i, step);
      var s' := s.(pcs := s.pcs[i := pc],
                   metrics := MetricsAfter(c, s, i, step),
                   lim := if use.Some? then L.Next(s.lim, s.now, use.value) else s.lim);
      match step
      case Acquire => s'.(fill := s.fill + 1, jobs := s.jobs[i := M.Running(s.now)])
      case Build(None) => s'.(calls := s.calls[pc.domain := s.calls[pc.domain] + 1])
      case GiveUp(_, _) =>
        s'.(results := s.results[i := Some(pc.res)], writes := s.writes[i := s.writes[i] + 1],
            jobs := s.jobs[i := M.Withdrawn(s.now)])
      case Write => s'.(results := s.results[i := Some(pc.res)], writes := s.writes[i := s.writes[i] + 1])
      case Release =>
        s'.(fill := s.fill - 1,
            jobs := s.jobs[i := M.Ended(if s.jobs[i].Running? then s.jobs[i].start else s.now, s.now)])
      case Finish => s'.(wg := s.wg - 1)
      case _ => s'
  }

  /** s' is reached from s by taking the actions in order. */
  ghost predicate Run(c: Config, s: State, actions: seq<Action>, s': State)
    decreases |actions|
  {
    if actions == [] then s' == s
    else Enabled(c, s, actions[0]) && Run(c, Next(c, s, actions[0]), actions[1..], s')
  }

  lemma {:induction false} RunConcat(c: Config, s: State, left: seq<Action>, mid: State, right: seq<Action>, s': State)
    requires Run(c, s, left, mid) && Run(c, mid, right, s')
    ensures Run(c, s, left + right, s')
    decreases |left|
  {
    if left == [] {
      assert left + right == right;
    } else {
      assert (left + right)[0] == left[0] && (left + right)[1..] == left[1..] + right;
      RunConcat(c, Next(c, s, left[0]), left[1..], mid, right, s');
    }
  }

  lemma {:induction false} RunSplit(c: Config, s: State, actions: seq<Action>, s': State, k: nat) returns (mid: State)
    requires Run(c, s, actions, s') && k <= |actions|
    ensures Run(c, s, actions[..k], mid) && Run(c, mid, actions[k..], s')
    decreases k
  {
    if k == 0 {
      mid := s;
    } else {
      mid := RunSplit(c, Next(c, s, actions[0]), actions[1..], s', k - 1);
      assert actions[..k][1..] == actions[1..][..k - 1] && actions[1..][k - 1..] == actions[k..];
    }
  }

  lemma ShapeNext(c: Config, s: State, a: Action)
    requires Enabled(c, s, a)
    ensures Shape(c, Next(c, s, a))
  {
    match a
    case Limiter(act) => L.ValidNext(s.lim, s.now, act);
    case Go(i, step) =>
      var use := LimiterUse(c, s, i, step);
      if use.Some? {
        L.ValidNext(s.lim, s.now, use.value);
      }
    case _ =>
  }

  /** wg.Wait returns only on a zero counter. */
  predicate Returned(s: State) {
    s.wg == 0
  }
}
