/**
 What the environment's reply to a goroutine becomes in the results of Check: for
 every returned run, and for each goroutine, from the step that brought the reply.
 */
module PoolReplies {
  import opened Prelude
  import opened Check
  import opened Metrics
  import opened Pool
  import opened PoolSafety
  import L = Limiter

  // ----- A result, once made, is the one returned -----

  lemma ResultNext(c: Config, s: State, a: Action, i: nat)
    requires Enabled(c, s, a) && i < |s.pcs| && HasResult(s.pcs[i])
    ensures var s' := Next(c, s, a); i < |s'.pcs| && HasResult(s'.pcs[i]) && s'.pcs[i].res == s.pcs[i].res
  {
    PcsNext(c, s, a);
    if a.Go? {
      MoveKeepsResult(c, s, a.i, a.step);
    }
  }

  lemma {:induction false} ResultKept(c: Config, s: State, actions: seq<Action>, s': State, i: nat)
    requires Run(c, s, actions, s') && i < |s.pcs| && HasResult(s.pcs[i])
    ensures i < |s'.pcs| && HasResult(s'.pcs[i]) && s'.pcs[i].res == s.pcs[i].res
    decreases |actions|
  {
    if actions != [] {
      ResultNext(c, s, actions[0], i);
      ResultKept(c, Next(c, s, actions[0]), actions[1..], s', i);
    }
  }

  /** The state in which the k-th action is taken, and what its step makes of the goroutine's result. */
  lemma AtAction(c: Config, s: State, actions: seq<Action>, s': State, k: nat) returns (mid: State)
    requires Run(c, s, actions, s') && k < |actions|
    ensures Run(c, s, actions[..k], mid) && Enabled(c, mid, actions[k])
    ensures Run(c, Next(c, mid, actions[k]), actions[k + 1..], s')
  {
    mid := RunSplit(c, s, actions, s', k);
    assert actions[k..][0] == actions[k] && actions[k..][1..] == actions[k + 1..];
  }

  /** How the step of a goroutine that ends its check shows in the result. */
  ghost predicate Shows(c: Config, target: Target, step: Step, r: CheckResult) {
    match step
    case GiveUp(ended, err) => r.err == Some(err) && r.status == 0 && r.duration == 0 && r.checkedAt == ended
    case Parse =>
      c.resolve(target.url).Err? ==>
        r.err == Some("monitor: parse target url: " + c.resolve(target.url).error) && r.status == 0 && r.duration == 0
    case Expire(err) => r.err == Some("monitor: rate limit wait: " + err) && r.status == 0 && r.duration == 0
    case Refuse =>
      r.err == Some("monitor: rate limit wait: " + "ratelimit: bucket closed") && r.status == 0 && r.duration == 0
    case Build(broken) =>
      broken.Some? ==> r.err == Some("monitor: build request: " + broken.value) && r.status == 0 && r.duration == 0
    case Return(reply) =>
      && (reply.Response? ==> r.err == None && r.status == reply.status && r.duration == reply.took)
      && (reply.Failure? ==>
            r.err == Some("monitor: request failed: " + reply.err) && r.status == 0 && r.duration == reply.took)
    case _ => true
  }

  lemma StepShows(c: Config, s: State, i: nat, step: Step)
    requires Enabled(c, s, Go(i, step))
    ensures var pc := Next(c, s, Go(i, step)).pcs[i];
      && (HasResult(pc) && !HasResult(s.pcs[i]) ==> pc.res.target == c.targets[i] && Shows(c, c.targets[i], step, pc.res))
      && (step.GiveUp? || step.Expire? || step.Refuse? || step.Return? ==> HasResult(pc) && !HasResult(s.pcs[i]))
      && (step.Build? && step.broken.Some? ==> HasResult(pc) && !HasResult(s.pcs[i]))
      && (step.Parse? && c.resolve(c.targets[i].url).Err? ==> HasResult(pc) && !HasResult(s.pcs[i]))
  {
  }

  /** The step brings its goroutine a result. */
  predicate Decides(c: Config, target: Target, step: Step) {
    || step.GiveUp? || step.Expire? || step.Refuse?
    || (step.Return? && (step.reply.Response? || step.reply.Failure?))
    || (step.Build? && step.broken.Some?)
    || (step.Parse? && c.resolve(target.url).Err?)
  }

  /**
   In every run that returns, result i is what its goroutine was told: the status
   and duration of the response, or the error, with status 0, of whatever went
   wrong first; and it is dated by the clock read at the start of checkOne, or at
   giving up.
   */
  lemma ReplyBecomesResult(c: Config, now: nat, metrics: Counters, lim: L.State, actions: seq<Action>, s: State,
                           k: nat, i: nat, step: Step)
    requires L.Valid(lim) && Run(c, Init(c, now, metrics, lim), actions, s) && Returned(s)
    requires k < |actions| && actions[k] == Go(i, step)
    ensures i < |c.targets| && |s.results| == |c.targets| && s.results[i].Some?
    ensures Decides(c, c.targets[i], step) ==> Shows(c, c.targets[i], step, s.results[i].value)
    ensures step.Begin? ==> s.results[i].value.checkedAt == step.now
  {
    var mid := AtAction(c, Init(c, now, metrics, lim), actions, s, k);
    AfterReturn(c, s, now, metrics, lim);
    hide *;
    FromThatStep(c, mid, i, step, actions[k + 1..], s);
  }

  lemma FromThatStep(c: Config, mid: State, i: nat, step: Step, rest: seq<Action>, s: State)
    requires Enabled(c, mid, Go(i, step)) && Run(c, Next(c, mid, Go(i, step)), rest, s)
    requires |s.pcs| == |s.results| == |c.targets|
    requires forall j :: 0 <= j < |s.pcs| ==> s.pcs[j].Done? && s.results[j] == Some(s.pcs[j].res)
    ensures i < |c.targets|
    ensures Decides(c, c.targets[i], step) ==> Shows(c, c.targets[i], step, s.results[i].value)
    ensures step.Begin? ==> s.results[i].value.checkedAt == step.now
  {
    var after := Next(c, mid, Go(i, step));
    PcsNext(c, mid, Go(i, step));
    StepShows(c, mid, i, step);
    if step.Begin? {
      DateKept(c, after, rest, s, i, step.now);
    } else if HasResult(after.pcs[i]) {
      ResultKept(c, after, rest, s, i);
    }
    hide Next, Move, Ready, Shows;
  }

  /** Between reading the clock and the end of checkOne, and ever after, the date stays. */
  predicate Dated(pc: Pc, at: nat) {
    if HasResult(pc) then pc.res.checkedAt == at
    else (pc.Begun? || pc.AwaitToken? || pc.Admitted? || pc.InDo?) && pc.at == at
  }

  lemma DateNext(c: Config, s: State, a: Action, i: nat, at: nat)
    requires Enabled(c, s, a) && i < |s.pcs| && Dated(s.pcs[i], at)
    ensures i < |Next(c, s, a).pcs| && Dated(Next(c, s, a).pcs[i], at)
  {
    PcsNext(c, s, a);
  }

  lemma {:induction false} DateKept(c: Config, s: State, actions: seq<Action>, s': State, i: nat, at: nat)
    requires Run(c, s, actions, s') && i < |s.pcs| && Dated(s.pcs[i], at)
    ensures i < |s'.pcs| && Dated(s'.pcs[i], at)
    decreases |actions|
  {
    if actions != [] {
      DateNext(c, s, actions[0], i, at);
      DateKept(c, Next(c, s, actions[0]), actions[1..], s', i, at);
    }
  }

  // ----- Every result comes from some reply -----

  lemma StepDecides(c: Config, s: State, a: Action, i: nat)
    requires Enabled(c, s, a) && i < |s.pcs| && !HasResult(s.pcs[i]) && HasResult(Next(c, s, a).pcs[i])
    ensures a.Go? && a.i == i && Decides(c, c.targets[i], a.step)
  {
    PcsNext(c, s, a);
  }

  lemma {:induction false} SomeStepDecides(c: Config, s: State, actions: seq<Action>, s': State, i: nat) returns (k: nat)
    requires Run(c, s, actions, s') && i < |s.pcs| == |c.targets| && !HasResult(s.pcs[i])
    requires i < |s'.pcs| && HasResult(s'.pcs[i])
    ensures k < |actions| && actions[k].Go? && actions[k].i == i && Decides(c, c.targets[i], actions[k].step)
    decreases |actions|
  {
    var s1 := Next(c, s, actions[0]);
    PcsNext(c, s, actions[0]);
    if HasResult(s1.pcs[i]) {
      StepDecides(c, s, actions[0], i);
      k := 0;
    } else {
      var later := SomeStepDecides(c, s1, actions[1..], s', i);
      k := later + 1;
    }
  }

  /** "Up" means that a response with a status from 200 to 399 came back, and nothing else. */
  lemma UpIffGoodResponse(c: Config, now: nat, metrics: Counters, lim: L.State, actions: seq<Action>, s: State, i: nat)
    requires L.Valid(lim) && Run(c, Init(c, now, metrics, lim), actions, s) && Returned(s) && i < |c.targets|
    ensures |s.results| == |c.targets| && s.results[i].Some?
    ensures !s.results[i].value.Failed() <==>
      exists status, took :: 200 <= status < 400 && Go(i, Return(Response(status, took))) in actions
  {
    AfterReturn(c, s, now, metrics, lim);
    var k := SomeStepDecides(c, Init(c, now, metrics, lim), actions, s, i);
    ReplyBecomesResult(c, now, metrics, lim, actions, s, k, i, actions[k].step);
    if !s.results[i].value.Failed() {
      var r := s.results[i].value;
      assert Shows(c, c.targets[i], actions[k].step, r);
      assert actions[k] == Go(i, Return(Response(r.status, r.duration)));
    }
    if status, took :| 200 <= status < 400 && Go(i, Return(Response(status, took))) in actions {
      var j: nat :| j < |actions| && actions[j] == Go(i, Return(Response(status, took)));
      ReplyBecomesResult(c, now, metrics, lim, actions, s, j, i, actions[j].step);
    }
  }
}
