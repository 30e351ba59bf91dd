/** Pool.Check cannot get stuck and cannot go on for ever. */
module PoolProgress {
  import opened Prelude
  import opened Counting
  import opened Check
  import opened Metrics
  import opened Pool
  import opened PoolSafety
  import TB = TokenBucket
  import L = Limiter

  // ----- Termination -----

  /** The steps a goroutine still has before it, at most. */
  function Rank(pc: Pc): nat {
    match pc
    case AwaitSlot => 13
    case Holding => 12
    case Started => 11
    case Begun(_) => 10
    case AwaitToken(_, _, _) => 9
    case Admitted(_, _, _) => 8
    case InDo(_, _, _, _) => 7
    case Checked(_) => 6
    case Left(_) => 5
    case Totalled(_) => 4
    case Counted(_) => 3
    case Written(_) => 2
    case Released(_) => 1
    case GaveUp(_) => 1
    case Done(_, _) => 0
  }

  function GoSteps(actions: seq<Action>): nat {
    if actions == [] then 0 else One(actions[0].Go?) + GoSteps(actions[1..])
  }

  lemma RankFalls(c: Config, s: State, i: nat, step: Step)
    requires i < |s.pcs| && |s.pcs| == |c.targets| && Ready(c, s, i, step)
    ensures Rank(Move(c, s, i, step)) < Rank(s.pcs[i])
  {
  }

  /** Every step of a goroutine lowers the measure, and nothing else raises it. */
  lemma MeasureNext(c: Config, s: State, a: Action)
    requires Enabled(c, s, a)
    ensures Sum(Next(c, s, a).pcs, Rank) + One(a.Go?) <= Sum(s.pcs, Rank)
  {
    if a.Go? {
      SumUpdate(s.pcs, a.i, Move(c, s, a.i, a.step), Rank);
      RankFalls(c, s, a.i, a.step);
    }
  }

  lemma {:induction false} StepsBounded(c: Config, s: State, actions: seq<Action>, s': State)
    requires Run(c, s, actions, s')
    ensures GoSteps(actions) + Sum(s'.pcs, Rank) <= Sum(s.pcs, Rank)
    decreases |actions|
  {
    if actions != [] {
      MeasureNext(c, s, actions[0]);
      StepsBounded(c, Next(c, s, actions[0]), actions[1..], s');
    }
  }

  lemma {:induction false} InitialRank(pcs: seq<Pc>)
    requires forall i :: 0 <= i < |pcs| ==> pcs[i] == AwaitSlot
    ensures Sum(pcs, Rank) == 13 * |pcs|
  {
    if pcs != [] {
      InitialRank(pcs[1..]);
    }
  }

  /** No run of Check takes more than 13 goroutine steps per target. */
  lemma Terminates(c: Config, now: nat, metrics: Counters, lim: L.State, actions: seq<Action>, s: State)
    requires Run(c, Init(c, now, metrics, lim), actions, s)
    ensures GoSteps(actions) <= 13 * |c.targets|
  {
    StepsBounded(c, Init(c, now, metrics, lim), actions, s);
    InitialRank(Init(c, now, metrics, lim).pcs);
  }

  // ----- Absence of deadlock -----

  /** Deadlines are at most one timeout away. */
  predicate BoundedPc(c: Config, now: nat, pc: Pc) {
    (pc.AwaitToken? ==> pc.deadline <= now + c.timeout) && (pc.InDo? ==> pc.start <= now)
  }

  ghost predicate Bounded(c: Config, s: State) {
    forall i :: 0 <= i < |s.pcs| ==> BoundedPc(c, s.now, s.pcs[i])
  }

  lemma BoundedMove(c: Config, s: State, i: nat, step: Step)
    requires i < |s.pcs| && |s.pcs| == |c.targets| && Ready(c, s, i, step)
    ensures BoundedPc(c, s.now, Move(c, s, i, step))
  {
  }

  lemma BoundedNext(c: Config, s: State, a: Action)
    requires Enabled(c, s, a) && Bounded(c, s)
    ensures Bounded(c, Next(c, s, a)) && Next(c, s, a).lim.ratePerSecond == s.lim.ratePerSecond
  {
    if a.Go? {
      BoundedMove(c, s, a.i, a.step);
      assert Next(c, s, a).pcs == s.pcs[a.i := Move(c, s, a.i, a.step)];
    }
  }

  lemma {:induction false} BoundedRun(c: Config, s: State, actions: seq<Action>, s': State)
    requires Run(c, s, actions, s') && Bounded(c, s)
    ensures Bounded(c, s') && s'.lim.ratePerSecond == s.lim.ratePerSecond
    decreases |actions|
  {
    if actions != [] {
      BoundedNext(c, s, actions[0]);
      BoundedRun(c, Next(c, s, actions[0]), actions[1..], s');
    }
  }

  /** The step a goroutine takes next when nobody hands it a token. */
  function Unblock(c: Config, s: State, pc: Pc): Step {
    match pc
    case AwaitSlot => Acquire
    case Holding => Start
    case Started => Begin(s.now)
    case Begun(_) => Parse
    case AwaitToken(_, _, _) => Expire("context deadline exceeded")
    case Admitted(_, _, _) => Build(None)
    case InDo(_, _, start, _) => Return(Response(200, if start <= s.now then s.now - start else 0))
    case Checked(_) => Leave
    case Left(_) => AddTotal
    case Totalled(_) => AddFailed
    case Counted(_) => Write
    case Written(_) => Release
    case Released(_) => Finish
    case GaveUp(_) => Finish
    case Done(_, _) => Finish
  }

  /** How long a goroutine may have to wait although nobody hands it a token. */
  function Patience(s: State, pc: Pc): nat {
    if pc.AwaitToken? && s.now < pc.deadline then pc.deadline - s.now else 0
  }

  /** A goroutine that needs no slot is unblocked by the clock alone. */
  lemma HolderUnblocks(c: Config, s: State, before: Counters, i: nat)
    requires Inv(c, s, before) && Bounded(c, s) && (c.limited ==> s.lim.ratePerSecond <= TB.SECOND)
    requires i < |s.pcs| && !s.pcs[i].Done? && !s.pcs[i].AwaitSlot?
    ensures var later := Next(c, s, Elapse(Patience(s, s.pcs[i])));
      Patience(s, s.pcs[i]) <= c.timeout && Enabled(c, later, Go(i, Unblock(c, later, s.pcs[i])))
  {
    if s.pcs[i].Written? {
      CountBounds(s.pcs, HoldsSlot);
      assert HoldsSlot(s.pcs[i]);
    }
  }

  /**
   No deadlock: as long as wg.Wait has not returned, some goroutine has an
   enabled step at the latest one timeout from now, even if no token, no close
   and no other goroutine ever moves.
   */
  lemma NoDeadlock(c: Config, s: State, now: nat, metrics: Counters, lim: L.State)
    requires Reachable(c, s, now, metrics, lim) && !Returned(s)
    requires c.limited ==> lim.ratePerSecond <= TB.SECOND
    ensures exists i: nat, step, d: nat :: d <= c.timeout && Enabled(c, s, Elapse(d)) && Enabled(c, Next(c, s, Elapse(d)), Go(i, step))
  {
    ReachableInv(c, s, now, metrics, lim);
    var actions :| Run(c, Init(c, now, metrics, lim), actions, s);
    BoundedRun(c, Init(c, now, metrics, lim), actions, s);
    if i: nat :| i < |s.pcs| && !s.pcs[i].Done? && !s.pcs[i].AwaitSlot? {
      HolderUnblocks(c, s, metrics, i);
      var d := Patience(s, s.pcs[i]);
      var later := Next(c, s, Elapse(d));
      assert Enabled(c, later, Go(i, Unblock(c, later, s.pcs[i])));
    } else {
      ReturnsWhenDone(c, s, now, metrics, lim);
      var i: nat :| i < |s.pcs| && !s.pcs[i].Done?;
      CountBounds(s.pcs, HoldsSlot);
      assert Enabled(c, Next(c, s, Elapse(0)), Go(i, Acquire));
    }
  }

  /** The wait, if any, and the step with which some goroutine goes on. */
  lemma SomeStep(c: Config, s: State, before: Counters) returns (i: nat, step: Step, d: nat)
    requires Inv(c, s, before) && Bounded(c, s) && (c.limited ==> s.lim.ratePerSecond <= TB.SECOND) && !Returned(s)
    ensures d <= c.timeout && Enabled(c, s, Elapse(d)) && Enabled(c, Next(c, s, Elapse(d)), Go(i, step))
  {
    CountBounds(s.pcs, Unfinished);
    if j: nat :| j < |s.pcs| && !s.pcs[j].Done? && !s.pcs[j].AwaitSlot? {
      HolderUnblocks(c, s, before, j);
      i, d := j, Patience(s, s.pcs[j]);
      step := Unblock(c, Next(c, s, Elapse(d)), s.pcs[j]);
    } else {
      var j: nat :| j < |s.pcs| && Unfinished(s.pcs[j]);
      CountBounds(s.pcs, HoldsSlot);
      i, step, d := j, Acquire, 0;
    }
  }

  /** Every unfinished run can be completed, without a cancellation and without help from the limiter. */
  lemma {:induction false} Completes(c: Config, s: State, before: Counters) returns (actions: seq<Action>, s': State)
    requires Inv(c, s, before) && Bounded(c, s) && (c.limited ==> s.lim.ratePerSecond <= TB.SECOND)
    ensures Run(c, s, actions, s') && Returned(s') && s'.cancelled == s.cancelled
    decreases Sum(s.pcs, Rank)
  {
    if Returned(s) {
      actions, s' := [], s;
    } else {
      var i, step, d := SomeStep(c, s, before);
      var s1 := Next(c, s, Elapse(d));
      var s2 := Next(c, s1, Go(i, step));
      InvNext(c, s, Elapse(d), before);
      InvNext(c, s1, Go(i, step), before);
      BoundedNext(c, s, Elapse(d));
      BoundedNext(c, s1, Go(i, step));
      MeasureNext(c, s, Elapse(d));
      MeasureNext(c, s1, Go(i, step));
      var rest;
      rest, s' := Completes(c, s2, before);
      actions := [Elapse(d)] + ([Go(i, step)] + rest);
      RunCons(c, s1, Go(i, step), rest, s');
      RunCons(c, s, Elapse(d), [Go(i, step)] + rest, s');
    }
  }

  lemma RunCons(c: Config, s: State, a: Action, rest: seq<Action>, s': State)
    requires Enabled(c, s, a) && Run(c, Next(c, s, a), rest, s')
    ensures Run(c, s, [a] + rest, s')
  {
    assert ([a] + rest)[1..] == rest;
  }

  // ----- The workers really work in parallel -----

  /** The first j goroutines are inside client.Do, the others wait for a slot. */
  ghost predicate Launched(c: Config, s: State, j: nat) {
    && Shape(c, s) && s.fill == j <= |s.pcs|
    && forall i :: 0 <= i < |s.pcs| ==> if i < j then s.pcs[i].InDo? else s.pcs[i].AwaitSlot?
  }

  lemma LaunchOne(c: Config, s: State, j: nat) returns (actions: seq<Action>, s': State)
    requires Launched(c, s, j) && j < |s.pcs| && (j == 0 || j < c.maxWorkers)
    requires !c.limited && forall t :: t in c.targets ==> c.resolve(t.url).Ok?
    ensures Run(c, s, actions, s') && Launched(c, s', j + 1) && s'.now == s.now
  {
    assert c.targets[j] in c.targets;
    var s1 := Next(c, s, Go(j, Acquire));
    var s2 := Next(c, s1, Go(j, Start));
    var s3 := Next(c, s2, Go(j, Begin(s.now)));
    var s4 := Next(c, s3, Go(j, Parse));
    s' := Next(c, s4, Go(j, Build(None)));
    RunCons(c, s4, Go(j, Build(None)), [], s');
    RunCons(c, s3, Go(j, Parse), [Go(j, Build(None))], s');
    RunCons(c, s2, Go(j, Begin(s.now)), [Go(j, Parse)] + [Go(j, Build(None))], s');
    RunCons(c, s1, Go(j, Start), [Go(j, Begin(s.now))] + ([Go(j, Parse)] + [Go(j, Build(None))]), s');
    actions := [Go(j, Acquire)] + ([Go(j, Start)] + ([Go(j, Begin(s.now))] + ([Go(j, Parse)] + [Go(j, Build(None))])));
    RunCons(c, s, Go(j, Acquire), actions[1..], s');
  }

  lemma {:induction false} LaunchMany(c: Config, s: State, j: nat, m: nat) returns (actions: seq<Action>, s': State)
    requires Launched(c, s, j) && j <= m <= |s.pcs| && (m <= 1 || m <= c.maxWorkers)
    requires !c.limited && forall t :: t in c.targets ==> c.resolve(t.url).Ok?
    ensures Run(c, s, actions, s') && Launched(c, s', m)
    decreases m - j
  {
    if j == m {
      actions, s' := [], s;
    } else {
      var first, s1 := LaunchOne(c, s, j);
      var rest;
      rest, s' := LaunchMany(c, s1, j + 1, m);
      actions := first + rest;
      RunConcat(c, s, first, s1, rest, s');
    }
  }

  /** Some run has min(n, max(1, maxWorkers)) goroutines inside client.Do at once, so the bound on them is reached. */
  lemma WorkersAllBusy(c: Config, now: nat, metrics: Counters, lim: L.State, m: nat) returns (actions: seq<Action>, s: State)
    requires L.Valid(lim) && m <= |c.targets| && (m <= 1 || m <= c.maxWorkers)
    requires !c.limited && forall t :: t in c.targets ==> c.resolve(t.url).Ok?
    ensures Run(c, Init(c, now, metrics, lim), actions, s) && Count(s.pcs, CallsClient) == m
  {
    actions, s := LaunchMany(c, Init(c, now, metrics, lim), 0, m);
    CountFirst(s.pcs, CallsClient, m);
  }
}
