/**
 List scheduling with a fixed number of slots: jobs take a free slot in any
 order, no slot stays free while a job waits, and each job gives its slot back
 after at most `limit` time units; a job may also withdraw while it waits.  A
 schedule may still be under way at time `now`.
 */
module Makespan {
  import opened Counting

  datatype Job = Queued | Running(start: nat) | Ended(start: nat, finish: nat) | Withdrawn(at: nat)

  predicate WaitsAt(job: Job, t: nat) {
    match job
    case Queued => true
    case Running(start) => t < start
    case Ended(start, _) => t < start
    case Withdrawn(at) => t < at
  }

  function RunsAt(t: nat): Job -> bool {
    (job: Job) => match job
      case Queued => false
      case Running(start) => start <= t
      case Ended(start, finish) => start <= t < finish
      case Withdrawn(_) => false
  }

  predicate Over(job: Job) {
    job.Ended? || job.Withdrawn?
  }

  function End(job: Job): nat
    requires Over(job)
  {
    match job
    case Ended(_, finish) => finish
    case Withdrawn(at) => at
  }

  function OverBy(t: nat): Job -> bool {
    (job: Job) => Over(job) && End(job) <= t
  }

  /** Slots are never left free while a job waits; at `now` itself the scheduler may still have to act. */
  ghost predicate WorkConserving(jobs: seq<Job>, slots: nat, from: nat, now: nat) {
    forall t, i :: from <= t < now && 0 <= i < |jobs| && WaitsAt(jobs[i], t) ==> slots <= Count(jobs, RunsAt(t))
  }

  ghost predicate Timely(job: Job, from: nat, now: nat, limit: nat) {
    match job
    case Queued => true
    case Running(start) => from <= start <= now <= start + limit
    case Ended(start, finish) => from <= start <= finish <= now && finish <= start + limit
    case Withdrawn(at) => from <= at <= now
  }

  ghost predicate Schedule(jobs: seq<Job>, slots: nat, from: nat, now: nat, limit: nat) {
    && from <= now
    && WorkConserving(jobs, slots, from, now)
    && (forall i :: 0 <= i < |jobs| ==> Timely(jobs[i], from, now, limit))
  }

  function Min(a: nat, b: nat): nat {
    if a < b then a else b
  }

  /** Within one `limit` another `slots` jobs are over, or all of them. */
  lemma NextBatch(jobs: seq<Job>, slots: nat, from: nat, now: nat, limit: nat, t: nat)
    requires Schedule(jobs, slots, from, now, limit) && from <= t && t + limit < now
    ensures Min(|jobs|, Count(jobs, OverBy(t)) + slots) <= Count(jobs, OverBy(t + limit))
  {
    if i :| 0 <= i < |jobs| && WaitsAt(jobs[i], t) {
      forall i | 0 <= i < |jobs|
        ensures One(OverBy(t)(jobs[i])) + One(RunsAt(t)(jobs[i])) <= One(OverBy(t + limit)(jobs[i]))
      {
        assert Timely(jobs[i], from, now, limit);
      }
      CountDisjoint(jobs, OverBy(t), RunsAt(t), OverBy(t + limit));
    } else {
      forall i | 0 <= i < |jobs|
        ensures OverBy(t + limit)(jobs[i])
      {
        assert Timely(jobs[i], from, now, limit);
        assert !WaitsAt(jobs[i], t);
      }
      CountBounds(jobs, OverBy(t + limit));
    }
  }

  /** After k * limit at least min(n, k * slots) jobs are over. */
  lemma {:induction false} BatchesEnd(jobs: seq<Job>, slots: nat, from: nat, now: nat, limit: nat, k: nat)
    requires Schedule(jobs, slots, from, now, limit)
    requires from + k * limit < now
    ensures Min(|jobs|, k * slots) <= Count(jobs, OverBy(from + k * limit))
    decreases k
  {
    if k > 0 {
      var t := from + (k - 1) * limit;
      assert from + k * limit == t + limit && k * slots == (k - 1) * slots + slots;
      BatchesEnd(jobs, slots, from, now, limit, k - 1);
      NextBatch(jobs, slots, from, now, limit, t);
    }
  }

  /** ceil(jobs / slots) rounds. */
  function Rounds(jobs: nat, slots: nat): nat
    requires 0 < slots
  {
    (jobs + slots - 1) / slots
  }

  lemma Product(m: nat, n: nat, d: nat)
    requires m <= n
    ensures m * d <= n * d
  {
    assert n * d == m * d + (n - m) * d;
  }

  lemma RoundsBounds(jobs: nat, slots: nat)
    requires 0 < slots
    ensures jobs <= Rounds(jobs, slots) * slots < jobs + slots
  {
  }

  /** It is the least number of rounds in which that many jobs fit. */
  lemma RoundsLeast(jobs: nat, slots: nat, k: nat)
    requires 0 < slots
    ensures Rounds(jobs, slots) <= k <==> jobs <= k * slots
  {
    var r := Rounds(jobs, slots);
    RoundsBounds(jobs, slots);
    hide Rounds;
    if r <= k {
      Product(r, k, slots);
    } else {
      Product(k + 1, r, slots);
      assert (k + 1) * slots == k * slots + slots;
    }
  }

  /** The makespan bound: a schedule that is still going after ceil(n / slots) * limit has every job over by then. */
  lemma AllEndedInTime(jobs: seq<Job>, slots: nat, from: nat, now: nat, limit: nat)
    requires 0 < slots && Schedule(jobs, slots, from, now, limit)
    requires from + Rounds(|jobs|, slots) * limit < now
    ensures forall i :: 0 <= i < |jobs| ==> Over(jobs[i]) && End(jobs[i]) <= from + Rounds(|jobs|, slots) * limit
  {
    var k := Rounds(|jobs|, slots);
    assert |jobs| <= k * slots;
    BatchesEnd(jobs, slots, from, now, limit, k);
    CountBounds(jobs, OverBy(from + k * limit));
    forall i | 0 <= i < |jobs|
      ensures Over(jobs[i]) && End(jobs[i]) <= from + k * limit
    {
      assert OverBy(from + k * limit)(jobs[i]);
    }
  }

  // ----- The bound by the total work -----

  /** The time a job has spent in a slot before t. */
  function WorkBefore(t: nat): Job -> nat {
    (job: Job) => match job
      case Queued => 0
      case Running(start) => if t <= start then 0 else t - start
      case Ended(start, finish) =>
        if t <= start then 0 else if finish <= start then 0 else if t < finish then t - start else finish - start
      case Withdrawn(_) => 0
  }

  function Length(job: Job): nat {
    if job.Ended? && job.start <= job.finish then job.finish - job.start else 0
  }

  /** As long as some job waits, every slot is busy, so the work done grows by `slots` per time unit. */
  lemma {:induction false} BusyWhileWaiting(jobs: seq<Job>, slots: nat, from: nat, now: nat, limit: nat, i: nat, t: nat)
    requires Schedule(jobs, slots, from, now, limit)
    requires i < |jobs| && from <= t <= now && (t == from || WaitsAt(jobs[i], t - 1))
    ensures slots * (t - from) <= Sum(jobs, WorkBefore(t))
    decreases t
  {
    if t > from {
      BusyWhileWaiting(jobs, slots, from, now, limit, i, t - 1);
      SumGrows(jobs, WorkBefore(t - 1), WorkBefore(t), RunsAt(t - 1));
      assert slots * (t - from) == slots * (t - 1 - from) + slots;
      assert WaitsAt(jobs[i], t - 1);
    }
  }

  /**
   Graham's bound: when every job is over, each job i satisfies
   slots * end(i) <= sum of all lengths + (slots - 1) * length(i),
   counting from the start of the schedule; a withdrawn job has no length.
   */
  lemma FinishBoundedByWork(jobs: seq<Job>, slots: nat, from: nat, now: nat, limit: nat, i: nat)
    requires 0 < slots && Schedule(jobs, slots, from, now, limit) && i < |jobs|
    requires forall j :: 0 <= j < |jobs| ==> Over(jobs[j])
    ensures Timely(jobs[i], from, now, limit)
    ensures slots * (End(jobs[i]) - from) <= Sum(jobs, Length) + (slots - 1) * Length(jobs[i])
  {
    assert Timely(jobs[i], from, now, limit);
    var start, length := if jobs[i].Ended? then jobs[i].start else jobs[i].at, Length(jobs[i]);
    BusyWhileWaiting(jobs, slots, from, now, limit, i, start);
    forall j | 0 <= j < |jobs|
      ensures WorkBefore(start)(jobs[j]) <= Length(jobs[j])
    {
      assert Timely(jobs[j], from, now, limit);
    }
    SumBelow(jobs, WorkBefore(start), Length, i, length);
    FinishAfterStart(slots, start - from, length);
    assert End(jobs[i]) - from == (start - from) + length;
  }

  lemma FinishAfterStart(slots: nat, wait: nat, length: nat)
    requires 0 < slots
    ensures slots * (wait + length) == slots * wait + (slots - 1) * length + length
  {
  }

  // ----- The slots are not overbooked -----

  ghost predicate WithinSlots(jobs: seq<Job>, slots: nat, from: nat, now: nat) {
    forall t :: from <= t < now ==> Count(jobs, RunsAt(t)) <= slots
  }

  lemma {:induction false} WorkFits(jobs: seq<Job>, slots: nat, from: nat, now: nat, limit: nat, t: nat)
    requires Schedule(jobs, slots, from, now, limit) && WithinSlots(jobs, slots, from, now) && from <= t <= now
    ensures Sum(jobs, WorkBefore(t)) <= slots * (t - from)
    decreases t
  {
    if t == from {
      forall i | 0 <= i < |jobs|
        ensures WorkBefore(t)(jobs[i]) == 0
      {
        assert Timely(jobs[i], from, now, limit);
      }
      SumZero(jobs, WorkBefore(t));
    } else {
      WorkFits(jobs, slots, from, now, limit, t - 1);
      SumGrows(jobs, WorkBefore(t - 1), WorkBefore(t), RunsAt(t - 1));
      assert slots * (t - from) == slots * (t - 1 - from) + slots;
      assert Count(jobs, RunsAt(t - 1)) <= slots;
    }
  }

  /** The lower bound: no schedule is shorter than its work divided by its slots. */
  lemma WorkTakesTime(jobs: seq<Job>, slots: nat, from: nat, now: nat, limit: nat)
    requires Schedule(jobs, slots, from, now, limit) && WithinSlots(jobs, slots, from, now)
    requires forall j :: 0 <= j < |jobs| ==> Over(jobs[j])
    ensures Sum(jobs, Length) <= slots * (now - from)
    ensures forall j :: 0 <= j < |jobs| && jobs[j].Ended? ==> jobs[j].start + Length(jobs[j]) == jobs[j].finish
  {
    forall i | 0 <= i < |jobs|
      ensures Timely(jobs[i], from, now, limit) && WorkBefore(now)(jobs[i]) == Length(jobs[i])
    {
    }
    SumSame(jobs, Length, WorkBefore(now));
    WorkFits(jobs, slots, from, now, limit, now);
  }
}
