/**
 What the timeout, the clock and the limiter allow a goroutine of Pool.Check, and
 what the limiter has granted for every call of client.Do.
 */
module PoolLimits {
  import opened Prelude
  import opened Counting
  import opened Check
  import opened Metrics
  import opened Pool
  import opened PoolSafety
  import TB = TokenBucket
  import L = Limiter
  import M = Makespan

  // ----- What ends a wait for a token -----

  /** A goroutine in limiter.Wait can go on exactly as the select of its bucket's Wait can. */
  lemma WaitIsBucketWait(c: Config, s: State, i: nat, e: string)
    requires Shape(c, s) && i < |s.pcs| && s.pcs[i].AwaitToken? && s.pcs[i].domain in s.lim.buckets
    ensures var b, ended := s.lim.buckets[s.pcs[i].domain], s.cancelled || s.pcs[i].deadline <= s.now;
      && (Ready(c, s, i, GetToken) <==> TB.Token in TB.ReadyOutcomes(b, ended))
      && (Ready(c, s, i, Expire(e)) <==> TB.ContextError in TB.ReadyOutcomes(b, ended))
      && (Ready(c, s, i, Refuse) <==> TB.BucketClosed in TB.ReadyOutcomes(b, ended))
  {
  }

  /** A slot holder's record, and no deadline that is earlier than one timeout after the slot was taken. */
  predicate Unhurried(c: Config, now: nat, pc: Pc, job: M.Job) {
    && (HoldsSlot(pc) ==> job.Running? && job.start <= now)
    && (pc.AwaitToken? || pc.Admitted? || pc.InDo? ==> job.Running? && job.start + c.timeout <= pc.deadline)
    && (pc.AwaitToken? || pc.Admitted? || pc.InDo? ==> pc.deadline <= now + c.timeout)
  }

  /** The dates of a goroutine lie between the taking of its slot and now, and so does what it has measured. */
  predicate Punctual(now: nat, pc: Pc, job: M.Job) {
    && (HoldsSlot(pc) ==> job.Running? && job.start <= now)
    && (pc.Begun? || pc.AwaitToken? || pc.Admitted? || pc.InDo? ==> job.start <= pc.at <= now)
    && (pc.InDo? ==> pc.at <= pc.start <= now)
    && (HasResult(pc) ==> pc.res.checkedAt + pc.res.duration <= now)
    && (HasResult(pc) && job.Running? ==> job.start <= pc.res.checkedAt)
    && (pc.Released? || (pc.Done? && pc.ran) ==>
          job.Ended? && job.start <= pc.res.checkedAt && pc.res.checkedAt + pc.res.duration <= job.finish <= now)
    && (pc.GaveUp? || (pc.Done? && !pc.ran) ==> job.Withdrawn? && job.at == pc.res.checkedAt)
  }

  ghost predicate AllPunctual(c: Config, s: State) {
    |s.pcs| == |s.jobs| == |c.targets| && forall i :: 0 <= i < |s.pcs| ==> Punctual(s.now, s.pcs[i], s.jobs[i])
  }

  lemma PunctualMove(c: Config, s: State, i: nat, step: Step)
    requires i < |s.pcs| && |s.pcs| == |s.jobs| == |c.targets| && Ready(c, s, i, step)
    requires Punctual(s.now, s.pcs[i], s.jobs[i])
    ensures Punctual(s.now, Move(c, s, i, step), JobAfter(s, i, step))
  {
  }

  lemma PunctualNext(c: Config, s: State, a: Action)
    requires Enabled(c, s, a) && AllPunctual(c, s)
    ensures AllPunctual(c, Next(c, s, a)) && s.now <= Next(c, s, a).now
  {
    if a.Go? {
      PunctualMove(c, s, a.i, a.step);
      StepParts(c, s, a.i, a.step);
    } else {
      assert Next(c, s, a).pcs == s.pcs && Next(c, s, a).jobs == s.jobs && s.now <= Next(c, s, a).now;
    }
    hide Next, Move, JobAfter;
  }

  lemma {:induction false} PunctualRun(c: Config, s: State, actions: seq<Action>, s': State)
    requires Run(c, s, actions, s') && AllPunctual(c, s)
    ensures AllPunctual(c, s') && s.now <= s'.now
    decreases |actions|
  {
    if actions != [] {
      PunctualNext(c, s, actions[0]);
      PunctualRun(c, Next(c, s, actions[0]), actions[1..], s');
    }
  }

  /** A check is dated and measured while its goroutine holds its slot; one that gave up, when it did. */
  lemma TimesAreReal(c: Config, s: State, now: nat, metrics: Counters, lim: L.State, i: nat)
    requires Reachable(c, s, now, metrics, lim) && Returned(s) && i < |c.targets|
    ensures |s.pcs| == |s.jobs| == |c.targets| && s.pcs[i].Done?
    ensures var r, job := s.pcs[i].res, s.jobs[i];
      if s.pcs[i].ran then job.Ended? && job.start <= r.checkedAt && r.checkedAt + r.duration <= job.finish <= s.now
      else job.Withdrawn? && job.at == r.checkedAt <= s.now
  {
    AfterReturn(c, s, now, metrics, lim);
    var actions :| Run(c, Init(c, now, metrics, lim), actions, s);
    PunctualRun(c, Init(c, now, metrics, lim), actions, s);
    assert Punctual(s.now, s.pcs[i], s.jobs[i]);
  }

  ghost predicate AllUnhurried(c: Config, s: State) {
    |s.pcs| == |s.jobs| == |c.targets| && forall i :: 0 <= i < |s.pcs| ==> Unhurried(c, s.now, s.pcs[i], s.jobs[i])
  }

  lemma UnhurriedMove(c: Config, s: State, i: nat, step: Step)
    requires i < |s.pcs| && |s.pcs| == |s.jobs| == |c.targets| && Ready(c, s, i, step)
    requires Unhurried(c, s.now, s.pcs[i], s.jobs[i])
    ensures Unhurried(c, s.now, Move(c, s, i, step), JobAfter(s, i, step))
  {
  }

  lemma UnhurriedNext(c: Config, s: State, a: Action)
    requires Enabled(c, s, a) && AllUnhurried(c, s)
    ensures AllUnhurried(c, Next(c, s, a))
  {
    if a.Go? {
      UnhurriedMove(c, s, a.i, a.step);
      StepParts(c, s, a.i, a.step);
    } else {
      assert Next(c, s, a).pcs == s.pcs && Next(c, s, a).jobs == s.jobs && s.now <= Next(c, s, a).now;
    }
    hide Next, Move, JobAfter;
  }

  lemma {:induction false} UnhurriedRun(c: Config, s: State, actions: seq<Action>, s': State)
    requires Run(c, s, actions, s') && AllUnhurried(c, s)
    ensures AllUnhurried(c, s')
    decreases |actions|
  {
    if actions != [] {
      UnhurriedNext(c, s, actions[0]);
      UnhurriedRun(c, Next(c, s, actions[0]), actions[1..], s');
    }
  }

  /** Nobody times out early: unless the context is cancelled, a whole timeout has passed since the slot was taken. */
  lemma ExpiresLate(c: Config, s: State, now: nat, metrics: Counters, lim: L.State, i: nat, e: string)
    requires Reachable(c, s, now, metrics, lim) && i < |s.pcs| && Enabled(c, s, Go(i, Expire(e)))
    ensures s.jobs[i].Running? && (s.cancelled || s.jobs[i].start + c.timeout <= s.now)
  {
    var actions :| Run(c, Init(c, now, metrics, lim), actions, s);
    UnhurriedRun(c, Init(c, now, metrics, lim), actions, s);
    assert Unhurried(c, s.now, s.pcs[i], s.jobs[i]);
  }

  predicate ClosesLimiter(a: Action) {
    a.Limiter? && (a.act == L.CloseAll || (a.act.On? && a.act.act == TB.Close))
  }

  /** Nobody is refused as long as nobody closes the limiter. */
  lemma {:induction false} RefusedOnlyWhenClosed(c: Config, s: State, actions: seq<Action>, s': State)
    requires Run(c, s, actions, s') && L.AllOpen(s.lim) && forall a :: a in actions ==> !ClosesLimiter(a)
    ensures forall a :: a in actions ==> !(a.Go? && a.step.Refuse?)
    decreases |actions|
  {
    if actions != [] {
      assert actions[0] in actions;
      OpenStep(c, s, actions[0]);
      RefusedOnlyWhenClosed(c, Next(c, s, actions[0]), actions[1..], s');
    }
  }

  lemma OpenStep(c: Config, s: State, a: Action)
    requires Enabled(c, s, a) && L.AllOpen(s.lim) && !ClosesLimiter(a)
    ensures L.AllOpen(Next(c, s, a).lim) && !(a.Go? && a.step.Refuse?)
  {
    var use := UseOf(c, s, a);
    UseOfNext(c, s, a);
    if use.Some? {
      L.AllOpenNext(s.lim, s.now, use.value);
    }
  }

  // ----- Every call of client.Do is counted -----

  /** Past the parsing of its URL a goroutine works for its own target's domain. */
  ghost predicate OwnDomains(c: Config, s: State) {
    |s.pcs| == |c.targets| && forall i :: 0 <= i < |s.pcs| ==>
      (s.pcs[i].AwaitToken? || s.pcs[i].Admitted? || s.pcs[i].InDo? ==>
         c.resolve(c.targets[i].url) == Ok(s.pcs[i].domain))
  }

  lemma OwnDomainMove(c: Config, s: State, i: nat, step: Step)
    requires Enabled(c, s, Go(i, step)) && OwnDomains(c, s)
    ensures var pc := Move(c, s, i, step);
      pc.AwaitToken? || pc.Admitted? || pc.InDo? ==> c.resolve(c.targets[i].url) == Ok(pc.domain)
  {
  }

  lemma OwnDomainsNext(c: Config, s: State, a: Action)
    requires Enabled(c, s, a) && OwnDomains(c, s)
    ensures OwnDomains(c, Next(c, s, a))
  {
    PcsNext(c, s, a);
    if a.Go? {
      OwnDomainMove(c, s, a.i, a.step);
    }
    hide Next, Move, Ready;
  }

  /** The action sends goroutine i into client.Do, and i's URL is of the domain. */
  predicate EntersFor(c: Config, a: Action, domain: string) {
    a.Go? && a.step == Build(None) && a.i < |c.targets| && c.resolve(c.targets[a.i].url) == Ok(domain)
  }

  lemma CallsNext(c: Config, s: State, a: Action, domain: string)
    requires Enabled(c, s, a) && OwnDomains(c, s)
    ensures Next(c, s, a).calls[domain] == s.calls[domain] + One(EntersFor(c, a, domain))
    ensures EntersFor(c, a, domain) <==>
      a.Go? && !s.pcs[a.i].InDo? && Next(c, s, a).pcs[a.i].InDo? && Next(c, s, a).pcs[a.i].domain == domain
  {
  }

  function EntriesFor(c: Config, actions: seq<Action>, domain: string): nat {
    if actions == [] then 0 else One(EntersFor(c, actions[0], domain)) + EntriesFor(c, actions[1..], domain)
  }

  /** The calls of client.Do for a domain are exactly the goroutines with a URL of it that have entered it. */
  lemma {:induction false} CallsCounted(c: Config, s: State, actions: seq<Action>, s': State, domain: string)
    requires Run(c, s, actions, s') && OwnDomains(c, s)
    ensures s'.calls[domain] == s.calls[domain] + EntriesFor(c, actions, domain)
    decreases |actions|
  {
    if actions != [] {
      CallsNext(c, s, actions[0], domain);
      OwnDomainsNext(c, s, actions[0]);
      CallsCounted(c, Next(c, s, actions[0]), actions[1..], s', domain);
    }
  }

  // ----- The limiter pays for every call -----

  /** Calls of client.Do for the domain, made or about to be made, that no token has paid for. */
  function Unpaid(s: State, domain: string): int {
    s.calls[domain] + Count(s.pcs, AdmittedTo(domain)) - L.Granted(s.lim, domain)
  }

  lemma LimiterOnlyGrants(m: L.State, now: nat, a: L.Action, domain: string)
    requires L.Valid(m) && L.Enabled(m, now, a)
    ensures L.Granted(L.Next(m, now, a), domain)
         == L.Granted(m, domain) + One(a == L.On(domain, TB.Take))
  {
  }

  lemma UnpaidNext(c: Config, s: State, a: Action, domain: string)
    requires Enabled(c, s, a) && c.limited
    ensures Unpaid(Next(c, s, a), domain) <= Unpaid(s, domain)
  {
    match a
    case Limiter(act) => LimiterOnlyGrants(s.lim, s.now, act, domain);
    case Go(i, step) =>
      CountUpdate(s.pcs, i, Move(c, s, i, step), AdmittedTo(domain));
      var use := LimiterUse(c, s, i, step);
      if use.Some? {
        LimiterOnlyGrants(s.lim, s.now, use.value, domain);
      }
    case _ =>
  }

  lemma {:induction false} UnpaidRun(c: Config, s: State, actions: seq<Action>, s': State, domain: string)
    requires Run(c, s, actions, s') && c.limited
    ensures Unpaid(s', domain) <= Unpaid(s, domain)
    decreases |actions|
  {
    if actions != [] {
      UnpaidNext(c, s, actions[0], domain);
      UnpaidRun(c, Next(c, s, actions[0]), actions[1..], s', domain);
    }
  }

  /** The limiter operation that an action of the pool performs, if any. */
  ghost function UseOf(c: Config, s: State, a: Action): Option<L.Action>
    requires Enabled(c, s, a)
  {
    match a
    case Limiter(act) => Some(act)
    case Go(i, step) => LimiterUse(c, s, i, step)
    case _ => None
  }

  lemma UseOfNext(c: Config, s: State, a: Action)
    requires Enabled(c, s, a)
    ensures var s', use := Next(c, s, a), UseOf(c, s, a);
      && s.now <= s'.now
      && (use.None? ==> s'.lim == s.lim)
      && (use.Some? ==> s'.now == s.now && L.Enabled(s.lim, s.now, use.value)
                        && s'.lim == L.Next(s.lim, s.now, use.value))
  {
  }

  /** The limiter's part of a run of the pool, with the time of each operation. */
  ghost function LimiterRun(c: Config, s: State, actions: seq<Action>, s': State): seq<L.Event>
    requires Run(c, s, actions, s')
    decreases |actions|
  {
    if actions == [] then []
    else
      var rest := LimiterRun(c, Next(c, s, actions[0]), actions[1..], s');
      var use := UseOf(c, s, actions[0]);
      if use.Some? then [L.At(s.now, use.value)] + rest else rest
  }

  lemma Prepend(m: L.State, now: nat, use: L.Action, rest: seq<L.Event>)
    requires L.Valid(m) && L.Enabled(m, now, use) && L.Allowed(L.Next(m, now, use), now, rest)
    ensures L.Allowed(m, now, [L.At(now, use)] + rest)
    ensures L.After(m, now, [L.At(now, use)] + rest) == L.After(L.Next(m, now, use), now, rest)
  {
    assert ([L.At(now, use)] + rest)[1..] == rest;
  }

  /** A run of the pool is, for the limiter, a run of the manager. */
  lemma {:induction false} LimiterRunAllowed(c: Config, s: State, actions: seq<Action>, s': State)
    requires Shape(c, s) && Run(c, s, actions, s')
    ensures s.now <= s'.now && L.Allowed(s.lim, s.now, LimiterRun(c, s, actions, s'))
    ensures L.After(s.lim, s.now, LimiterRun(c, s, actions, s')) == s'.lim
    ensures L.Until(LimiterRun(c, s, actions, s'), s'.now)
    decreases |actions|
  {
    if actions != [] {
      var s1 := Next(c, s, actions[0]);
      ShapeNext(c, s, actions[0]);
      LimiterRunAllowed(c, s1, actions[1..], s');
      UseOfNext(c, s, actions[0]);
      var rest, use := LimiterRun(c, s1, actions[1..], s'), UseOf(c, s, actions[0]);
      if use.Some? {
        Prepend(s.lim, s.now, use.value, rest);
      } else {
        L.RunEarlier(s.lim, s.now, s1.now, rest);
      }
    }
  }

  /**
   Per-domain composition: in any part of a run the calls of client.Do for one
   domain exceed those already admitted at its start, of which there are at most
   as many as workers, by at most what the domain's bucket carried in plus one
   per period of the time elapsed.
   */
  lemma RequestsPerDomain(c: Config, s: State, actions: seq<Action>, s': State, before: Counters, domain: string)
    requires Inv(c, s, before) && Run(c, s, actions, s') && c.limited
    requires L.SameRate(s.lim) && s.lim.ratePerSecond <= TB.SECOND
    ensures s.now <= s'.now && 0 < L.Period(s.lim.ratePerSecond)
    ensures s'.calls[domain] - s.calls[domain]
         <= Count(s.pcs, AdmittedTo(domain)) + L.Carried(s.lim, domain, s.now)
            + TB.CeilDiv(s'.now - s.now, L.Period(s.lim.ratePerSecond))
    ensures Count(s.pcs, AdmittedTo(domain)) <= Slots(c)
  {
    GrantsInRun(c, s, actions, s', domain);
    UnpaidRun(c, s, actions, s', domain);
    CountImplies(s.pcs, AdmittedTo(domain), HoldsSlot);
  }

  lemma GrantsInRun(c: Config, s: State, actions: seq<Action>, s': State, domain: string)
    requires Shape(c, s) && Run(c, s, actions, s')
    requires L.SameRate(s.lim) && s.lim.ratePerSecond <= TB.SECOND
    ensures s.now <= s'.now && 0 < L.Period(s.lim.ratePerSecond)
    ensures L.Granted(s'.lim, domain) - L.Granted(s.lim, domain)
         <= L.Carried(s.lim, domain, s.now) + TB.CeilDiv(s'.now - s.now, L.Period(s.lim.ratePerSecond))
  {
    hide *;
    LimiterRunAllowed(c, s, actions, s');
    L.WindowBound(s.lim, s.now, LimiterRun(c, s, actions, s'), domain, s'.now);
  }

  /** Over a whole Check, from any state of the limiter: no call without a token granted since it began. */
  lemma CallsArePaidFor(c: Config, s: State, now: nat, metrics: Counters, lim: L.State, domain: string)
    requires Reachable(c, s, now, metrics, lim) && c.limited
    ensures s.calls[domain] + Count(s.pcs, AdmittedTo(domain)) <= L.Granted(s.lim, domain) - L.Granted(lim, domain)
  {
    var init := Init(c, now, metrics, lim);
    var actions :| Run(c, init, actions, s);
    UnpaidRun(c, init, actions, s, domain);
    CountBounds(init.pcs, AdmittedTo(domain));
  }
}
