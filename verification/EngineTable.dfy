/** What the web handlers and the engine's inserts do to the two tables during a tick. */
module EngineTable {
  import opened Check
  import opened Store
  import opened Engine

  // ----- The handlers' changes -----

  /** Somebody deletes the target between the from-th call and the one before the to-th. */
  ghost predicate DeletedIn(env: Env, from: nat, to: nat, id: string) {
    exists k: nat :: from <= k < to && Delete(id) in env.others(k)
  }

  /** Whoever does not lose its target keeps its rows; whoever does loses them all. */
  lemma {:induction false} ApplyAllRows(v: View, changes: seq<Change>, id: string)
    ensures RowsOf(ApplyAll(v, changes).checks, id) == if Delete(id) in changes then [] else RowsOf(v.checks, id)
    ensures Delete(id) !in changes && HasId(v.targets, id) ==> HasId(ApplyAll(v, changes).targets, id)
    decreases |changes|
  {
    if changes != [] {
      ApplyRows(v, changes[0], id);
      ApplyAllRows(Apply(v, changes[0]), changes[1..], id);
    }
  }

  lemma ApplyRows(v: View, change: Change, id: string)
    ensures RowsOf(Apply(v, change).checks, id) == if change == Delete(id) then [] else RowsOf(v.checks, id)
    ensures change != Delete(id) && HasId(v.targets, id) ==> HasId(Apply(v, change).targets, id)
  {
    match change
    case Create(url, other, at) =>
      if HasId(v.targets, id) {
        CreatedKeeps(v.targets, url, other, at, id);
      }
    case Delete(other) =>
      CascadeRows(v.checks, other, id);
      if HasId(v.targets, id) && id != other {
        DeletedKeeps(v.targets, other, id);
      }
  }

  /** The handlers keep the table well kept. */
  lemma ApplyWellKept(v: View, change: Change)
    requires WellKept(v.targets)
    ensures WellKept(Apply(v, change).targets)
    ensures change.Delete? ==> !HasId(Apply(v, change).targets, change.id)
    ensures change.Create? && !HasUrl(v.targets, change.url) ==> HasId(Apply(v, change).targets, change.id)
  {
    match change
    case Create(url, id, at) =>
      if !HasUrl(v.targets, url) && !HasId(v.targets, id) {
        PlaceInOrder(v.targets, at);
        WithWellKept(v.targets, PlaceFor(v.targets, at), TargetRow(Target(id, url), at));
        CreatedHas(v.targets, url, id, at);
      }
    case Delete(id) =>
      if HasId(v.targets, id) {
        WithoutWellKept(v.targets, IndexOfId(v.targets, id), id);
      }
  }

  lemma {:induction false} ApplyAllWellKept(v: View, changes: seq<Change>)
    requires WellKept(v.targets)
    ensures WellKept(ApplyAll(v, changes).targets)
    decreases |changes|
  {
    if changes != [] {
      ApplyWellKept(v, changes[0]);
      ApplyAllWellKept(Apply(v, changes[0]), changes[1..]);
    }
  }

  lemma {:induction false} StaysGone(v: View, changes: seq<Change>, id: string)
    requires WellKept(v.targets) && !HasId(v.targets, id)
    requires forall change :: change in changes && change.Create? ==> change.id != id
    ensures !HasId(ApplyAll(v, changes).targets, id)
    decreases |changes|
  {
    if changes != [] {
      var change := changes[0];
      assert change in changes;
      ApplyWellKept(v, change);
      GoneNext(v, change, id);
      StaysGone(Apply(v, change), changes[1..], id);
    }
  }

  lemma GoneNext(v: View, change: Change, id: string)
    requires WellKept(v.targets) && !HasId(v.targets, id) && (change.Create? ==> change.id != id)
    ensures !HasId(Apply(v, change).targets, id)
  {
    match change
    case Create(url, other, at) =>
      if !HasUrl(v.targets, url) && !HasId(v.targets, other) {
        WithHas(v.targets, PlaceFor(v.targets, at), TargetRow(Target(other, url), at), id);
      }
    case Delete(other) =>
      if HasId(v.targets, other) {
        WithoutWellKept(v.targets, IndexOfId(v.targets, other), id);
      }
  }

  /** A target created before the listing, and not deleted since, is in the table the listing meets. */
  lemma CreatedIsListed(env: Env, v: View, k: nat)
    requires WellKept(v.targets) && k < |env.others(v.ops)| && env.others(v.ops)[k].Create?
    requires !HasUrl(ApplyAll(v, env.others(v.ops)[..k]).targets, env.others(v.ops)[k].url)
    requires Delete(env.others(v.ops)[k].id) !in env.others(v.ops)[k + 1..]
    ensures WellKept(Meanwhile(env, v).targets) && HasId(Meanwhile(env, v).targets, env.others(v.ops)[k].id)
  {
    var before := ApplyAll(v, env.others(v.ops)[..k]);
    var change, rest := env.others(v.ops)[k], env.others(v.ops)[k + 1..];
    MeanwhileAt(env, v, k);
    ApplyWellKept(before, change);
    ApplyAllRows(Apply(before, change), rest, change.id);
  }

  /** One deleted before the listing, and not created again, is not. */
  lemma DeletedIsNotListed(env: Env, v: View, k: nat)
    requires WellKept(v.targets) && k < |env.others(v.ops)| && env.others(v.ops)[k].Delete?
    requires forall later :: later in env.others(v.ops)[k + 1..] && later.Create? ==> later.id != env.others(v.ops)[k].id
    ensures WellKept(Meanwhile(env, v).targets) && !HasId(Meanwhile(env, v).targets, env.others(v.ops)[k].id)
  {
    var before := ApplyAll(v, env.others(v.ops)[..k]);
    var change, rest := env.others(v.ops)[k], env.others(v.ops)[k + 1..];
    MeanwhileAt(env, v, k);
    ApplyWellKept(before, change);
    StaysGone(Apply(before, change), rest, change.id);
  }

  lemma MeanwhileAt(env: Env, v: View, k: nat)
    requires WellKept(v.targets) && k < |env.others(v.ops)|
    ensures var before := ApplyAll(v, env.others(v.ops)[..k]);
      && WellKept(before.targets) && WellKept(Meanwhile(env, v).targets)
      && Meanwhile(env, v) == ApplyAll(Apply(before, env.others(v.ops)[k]), env.others(v.ops)[k + 1..])
  {
    ApplyAllWellKept(v, env.others(v.ops)[..k]);
    ApplyAllWellKept(v, env.others(v.ops));
    ApplyAllAt(v, env.others(v.ops), k);
  }

  lemma {:induction false} ApplyAllAt(v: View, changes: seq<Change>, k: nat)
    requires k < |changes|
    ensures ApplyAll(v, changes) == ApplyAll(Apply(ApplyAll(v, changes[..k]), changes[k]), changes[k + 1..])
    decreases |changes|
  {
    if k > 0 {
      ApplyAllAt(Apply(v, changes[0]), changes[1..], k - 1);
      assert changes[1..][..k - 1] == changes[..k][1..] && changes[1..][k..] == changes[k + 1..];
    }
    hide Apply;
  }

  // ----- The foreign key -----

  lemma ApplyReferenced(v: View, change: Change)
    requires Referenced(v.targets, v.checks)
    ensures Referenced(Apply(v, change).targets, Apply(v, change).checks)
  {
    match change
    case Create(url, id, at) =>
      forall row | row in v.checks
        ensures HasId(Created(v.targets, url, id, at), row.targetId)
      {
        CreatedKeeps(v.targets, url, id, at, row.targetId);
      }
    case Delete(id) =>
      OthersHaveTargets(v.checks, id);
      forall row | row in Others(v.checks, id)
        ensures HasId(Deleted(v.targets, id), row.targetId)
      {
        DeletedKeeps(v.targets, id, row.targetId);
      }
  }

  lemma {:induction false} ApplyAllReferenced(v: View, changes: seq<Change>)
    requires Referenced(v.targets, v.checks)
    ensures Referenced(ApplyAll(v, changes).targets, ApplyAll(v, changes).checks)
    decreases |changes|
  {
    if changes != [] {
      ApplyReferenced(v, changes[0]);
      ApplyAllReferenced(Apply(v, changes[0]), changes[1..]);
    }
  }

  lemma {:induction false} RecordAllReferenced(env: Env, v: View, results: seq<CheckResult>)
    requires Referenced(v.targets, v.checks)
    ensures Referenced(RecordAll(env, v, results).targets, RecordAll(env, v, results).checks)
    decreases |results|
  {
    if results != [] {
      ApplyAllReferenced(v, env.others(v.ops));
      RecordAllReferenced(env, RecordOne(env, v, results[0]), results[1..]);
    }
  }

  lemma {:induction false} QueryAllReferenced(env: Env, v: View, targets: seq<Target>)
    requires Referenced(v.targets, v.checks)
    ensures Referenced(QueryAll(env, v, targets).targets, QueryAll(env, v, targets).checks)
    decreases |targets|
  {
    if targets != [] {
      ApplyAllReferenced(v, env.others(v.ops));
      QueryAllReferenced(env, QueryOne(env, v, targets[0].id), targets[1..]);
    }
  }

  /** Whatever is created and deleted meanwhile, a tick leaves no row of a target that does not exist. */
  lemma TickReferenced(env: Env, v: View, round: Round)
    requires Referenced(v.targets, v.checks)
    ensures Referenced(Tick(env, v, round).targets, Tick(env, v, round).checks)
  {
    ApplyAllReferenced(v, env.others(v.ops));
    if env.up(v.ops) {
      RecordAllReferenced(env, AfterCheck(env, v, round), TickResults(env, v, round));
      QueryAllReferenced(env, AfterRecording(env, v, round), ToCheck(env, v));
    }
  }
}
