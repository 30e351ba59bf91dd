/**
 What Pool.Check computes, whatever the interleaving: the sequential checkOne of
 every target, applied to the environment's answers.
 */
module PoolOutcome {
  import opened Prelude
  import opened Check
  import opened Metrics
  import opened Pool
  import opened PoolSafety
  import L = Limiter

  /** The action is consistent with the environment's answer to its goroutine. */
  predicate Follows(answers: seq<Answer>, a: Action) {
    a.Go? && a.i < |answers| ==> FollowsAnswer(answers[a.i], a.step)
  }

  predicate FollowsAnswer(answer: Answer, step: Step) {
    match step
    case GiveUp(ended, err) => answer == NoSlot(ended, err)
    case Begin(now) => answer.Slot? && answer.at == now
    case Expire(err) => answer.Slot? && answer.reply == Limited(err)
    case Refuse => answer.Slot? && answer.reply == Limited(BUCKET_CLOSED)
    case Build(Some(err)) => answer.Slot? && answer.reply == Unbuildable(err)
    case Return(reply) => answer.Slot? && answer.reply == reply
    case _ => true
  }

  ghost predicate AllFollow(answers: seq<Answer>, actions: seq<Action>) {
    forall k :: 0 <= k < |actions| ==> Follows(answers, actions[k])
  }

  predicate InCheckOne(pc: Pc) {
    pc.Begun? || pc.AwaitToken? || pc.Admitted? || pc.InDo?
  }

  /** A goroutine there is on its way to checkOne's value for its answer, or holds it. */
  ghost predicate OnTrack(c: Config, target: Target, answer: Answer, pc: Pc) {
    && (InCheckOne(pc) ==> answer.Slot? && answer.at == pc.at)
    && (InCheckOne(pc) && !pc.Begun? ==> c.resolve(target.url).Ok?)
    && (HasResult(pc) ==> pc.res == CheckOne(c.resolve, target, answer))
  }

  lemma OnTrackMove(c: Config, s: State, i: nat, step: Step, answer: Answer)
    requires i < |s.pcs| && |s.pcs| == |c.targets| && Ready(c, s, i, step)
    requires FollowsAnswer(answer, step) && OnTrack(c, c.targets[i], answer, s.pcs[i])
    ensures OnTrack(c, c.targets[i], answer, Move(c, s, i, step))
  {
  }

  lemma {:induction false} OnTrackRun(c: Config, answers: seq<Answer>, s: State, actions: seq<Action>, s': State, i: nat)
    requires Run(c, s, actions, s') && |answers| == |c.targets| == |s.pcs| && i < |s.pcs|
    requires AllFollow(answers, actions) && OnTrack(c, c.targets[i], answers[i], s.pcs[i])
    ensures |s'.pcs| == |s.pcs| && OnTrack(c, c.targets[i], answers[i], s'.pcs[i])
    decreases |actions|
  {
    if actions != [] {
      AllFollowTail(answers, actions);
      if actions[0].Go? && actions[0].i == i {
        OnTrackMove(c, s, i, actions[0].step, answers[i]);
      }
      OnTrackRun(c, answers, Next(c, s, actions[0]), actions[1..], s', i);
    }
  }

  /** A goroutine past the start of checkOne has been answered with a slot. */
  predicate HasBegun(pc: Pc) {
    InCheckOne(pc) || (HasResult(pc) && !pc.GaveUp? && (pc.Done? ==> pc.ran))
  }

  lemma BegunMove(c: Config, s: State, i: nat, step: Step, answer: Answer)
    requires i < |s.pcs| && |s.pcs| == |c.targets| && Ready(c, s, i, step) && FollowsAnswer(answer, step)
    requires HasBegun(s.pcs[i]) ==> answer.Slot?
    ensures HasBegun(Move(c, s, i, step)) ==> answer.Slot?
  {
  }

  lemma BegunNext(c: Config, answers: seq<Answer>, s: State, a: Action, i: nat)
    requires Enabled(c, s, a) && |answers| == |s.pcs| && i < |s.pcs| && Follows(answers, a)
    requires HasBegun(s.pcs[i]) ==> answers[i].Slot?
    ensures |Next(c, s, a).pcs| == |s.pcs| && (HasBegun(Next(c, s, a).pcs[i]) ==> answers[i].Slot?)
  {
    hide Next, Move, HasBegun, FollowsAnswer, Ready;
    PcsNext(c, s, a);
    if a.Go? && a.i == i {
      BegunMove(c, s, i, a.step, answers[i]);
    }
  }

  lemma {:induction false} BegunIsSlot(c: Config, answers: seq<Answer>, s: State, actions: seq<Action>, s': State, i: nat)
    requires Run(c, s, actions, s') && |answers| == |s.pcs| && i < |s.pcs|
    requires AllFollow(answers, actions) && (HasBegun(s.pcs[i]) ==> answers[i].Slot?)
    ensures |s'.pcs| == |s.pcs| && (HasBegun(s'.pcs[i]) ==> answers[i].Slot?)
    decreases |actions|
  {
    if actions != [] {
      AllFollowTail(answers, actions);
      BegunNext(c, answers, s, actions[0], i);
      BegunIsSlot(c, answers, Next(c, s, actions[0]), actions[1..], s', i);
    }
  }

  function Sequential(c: Config, answers: seq<Answer>): seq<Option<CheckResult>>
    requires |answers| == |c.targets|
  {
    seq(|c.targets|, i requires 0 <= i < |c.targets| => Some(CheckOne(c.resolve, c.targets[i], answers[i])))
  }

  /**
   Confluence: however the goroutines are interleaved, with or without limiter,
   recorder and cancellation, Check returns checkOne of each target in order.
   */
  lemma Confluence(c: Config, now: nat, metrics: Counters, lim: L.State,
                   answers: seq<Answer>, actions: seq<Action>, s: State)
    requires L.Valid(lim) && |answers| == |c.targets|
    requires Run(c, Init(c, now, metrics, lim), actions, s) && AllFollow(answers, actions) && Returned(s)
    ensures s.results == Sequential(c, answers)
  {
    AfterReturn(c, s, now, metrics, lim);
    forall i | 0 <= i < |c.targets|
      ensures s.results[i] == Some(CheckOne(c.resolve, c.targets[i], answers[i]))
    {
      OnTrackRun(c, answers, Init(c, now, metrics, lim), actions, s, i);
    }
  }

  // ----- Every run has answers -----

  /** The answers agree with what the goroutines have already seen. */
  ghost predicate Recorded(c: Config, answers: seq<Answer>, s: State) {
    && |answers| == |s.pcs|
    && forall i :: 0 <= i < |answers| && InCheckOne(s.pcs[i]) ==> answers[i].Slot? && answers[i].at == s.pcs[i].at
  }

  /** Once a goroutine has its result, its answer is not asked for again. */
  lemma StepAsksNothing(c: Config, answers: seq<Answer>, other: Answer, s: State, a: Action, i: nat)
    requires Enabled(c, s, a) && i < |s.pcs| == |answers| && HasResult(s.pcs[i]) && Follows(answers, a)
    ensures Follows(answers[i := other], a) && i < |Next(c, s, a).pcs| == |answers| && HasResult(Next(c, s, a).pcs[i])
  {
    PcsNext(c, s, a);
    if a.Go? {
      MoveKeepsResult(c, s, a.i, a.step);
    }
    hide Next, Move;
  }

  lemma {:induction false} AnswerSpent(c: Config, answers: seq<Answer>, other: Answer, s: State, actions: seq<Action>,
                                       s': State, i: nat)
    requires Run(c, s, actions, s') && i < |s.pcs| == |answers| && HasResult(s.pcs[i])
    requires AllFollow(answers, actions)
    ensures AllFollow(answers[i := other], actions)
    decreases |actions|
  {
    if actions != [] {
      StepAsksNothing(c, answers, other, s, actions[0], i);
      AllFollowTail(answers, actions);
      AnswerSpent(c, answers, other, Next(c, s, actions[0]), actions[1..], s', i);
      AllFollowHead(answers[i := other], actions);
    }
  }

  lemma AllFollowTail(answers: seq<Answer>, actions: seq<Action>)
    requires actions != [] && AllFollow(answers, actions)
    ensures Follows(answers, actions[0]) && AllFollow(answers, actions[1..])
  {
    assert forall k :: 0 <= k < |actions[1..]| ==> actions[1..][k] == actions[k + 1];
  }

  lemma AllFollowHead(answers: seq<Answer>, actions: seq<Action>)
    requires actions != [] && Follows(answers, actions[0]) && AllFollow(answers, actions[1..])
    ensures AllFollow(answers, actions)
  {
    assert forall k :: 0 < k < |actions| ==> actions[k] == actions[1..][k - 1];
  }

  /** The answer that a step gives away. */
  function Given(pc: Pc, step: Step, default: Answer): Answer {
    match step
    case GiveUp(ended, err) => NoSlot(ended, err)
    case Parse => if pc.Begun? then Slot(pc.at, if default.Slot? then default.reply else Limited("")) else default
    case Expire(err) => if pc.AwaitToken? then Slot(pc.at, Limited(err)) else default
    case Refuse => if pc.AwaitToken? then Slot(pc.at, Limited(BUCKET_CLOSED)) else default
    case Build(Some(err)) => if pc.Admitted? then Slot(pc.at, Unbuildable(err)) else default
    case Return(reply) => if pc.InDo? then Slot(pc.at, reply) else default
    case _ => default
  }

  lemma RecordStep(c: Config, answers: seq<Answer>, s: State, i: nat, step: Step)
    requires Enabled(c, s, Go(i, step)) && Recorded(c, answers, Next(c, s, Go(i, step)))
    ensures var given := Given(s.pcs[i], step, answers[i]);
      && FollowsAnswer(given, step)
      && (given == answers[i] || HasResult(Move(c, s, i, step)))
      && Recorded(c, answers[i := given], s)
  {
  }

  /** Every run follows some answers, so Confluence speaks about every run. */
  lemma {:induction false} RunHasAnswers(c: Config, s: State, actions: seq<Action>, s': State) returns (answers: seq<Answer>)
    requires Shape(c, s) && Run(c, s, actions, s')
    ensures Recorded(c, answers, s) && AllFollow(answers, actions)
    decreases |actions|
  {
    if actions == [] {
      answers := seq(|s.pcs|, i requires 0 <= i < |s.pcs| =>
        Slot(if InCheckOne(s.pcs[i]) then s.pcs[i].at else 0, Limited("")));
    } else {
      var a, s1 := actions[0], Next(c, s, actions[0]);
      ShapeNext(c, s, a);
      var rest := RunHasAnswers(c, s1, actions[1..], s');
      answers := rest;
      if a.Go? {
        var given := Given(s.pcs[a.i], a.step, rest[a.i]);
        RecordStep(c, rest, s, a.i, a.step);
        if given != rest[a.i] {
          AnswerSpent(c, rest, given, s1, actions[1..], s', a.i);
        }
        answers := rest[a.i := given];
      }
      assert Follows(answers, a);
      AllFollowHead(answers, actions);
    }
  }

  /** So in every run that returns, the results are checkOne of the targets for some answers of the environment. */
  lemma EveryRunIsSequential(c: Config, now: nat, metrics: Counters, lim: L.State, actions: seq<Action>, s: State)
    returns (answers: seq<Answer>)
    requires L.Valid(lim) && Run(c, Init(c, now, metrics, lim), actions, s) && Returned(s)
    ensures |answers| == |c.targets| && AllFollow(answers, actions) && s.results == Sequential(c, answers)
  {
    answers := RunHasAnswers(c, Init(c, now, metrics, lim), actions, s);
    Confluence(c, now, metrics, lim, answers, actions, s);
  }
}
