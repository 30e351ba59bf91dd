/**
 The bucket and the manager as the objects the program mutates.  Each method is
 one atomic action, or one turn of a goroutine's loop, and is proved against the
 step systems of TokenBucket and Limiter.
 */
module LimiterObjects {
  import opened Prelude
  import TB = TokenBucket
  import L = Limiter

  class Bucket {
    const rate: nat
    const period: nat
    var next: nat        // the ticker
    var pending: bool
    var inHand: bool     // the refill goroutine holds a tick it has received
    var stopped: bool
    var tokens: nat      // the number of tokens in the channel
    var done: bool       // whether the done channel is closed
    ghost var fired: nat
    ghost var granted: nat

    ghost function View(): TB.State
      reads this
    {
      TB.State(rate, period, next, pending, inHand, tokens, done, stopped, fired, granted)
    }

    constructor (ratePerSecond: int, now: nat)
      requires TB.New(ratePerSecond, now).Some?
      ensures View() == TB.New(ratePerSecond, now).value
    {
      rate := TB.ClampedRate(ratePerSecond);
      period := TB.SECOND / TB.ClampedRate(ratePerSecond);
      next := now + TB.SECOND / TB.ClampedRate(ratePerSecond);
      pending, inHand, stopped, tokens, done := false, false, false, 0, false;
      fired, granted := 0, 0;
    }

    method Fire(now: nat)
      requires TB.Valid(View()) && TB.Enabled(View(), now, TB.Fire)
      modifies this
      ensures View() == TB.Next(old(View()), now, TB.Fire)
      ensures now < next <= now + period && (next - old(next)) % period == 0
    {
      TB.DueOnSchedule(next, now, period);
      next := TB.NextDue(next, now, period);
      pending := true;
      fired := fired + 1;
    }

    /** The outer select of the refill loop; `preferDone` decides when both cases are ready.  False: the loop has returned. */
    method RefillSelect(now: nat, preferDone: bool) returns (running: bool)
      requires TB.Valid(View()) && !stopped && !inHand
      modifies this
      ensures running == !stopped
      ensures var b := old(View());
        if b.closed && (preferDone || !b.pending) then View() == TB.Next(b, now, TB.Exit)
        else if b.pending then View() == TB.Next(b, now, TB.Pick)
        else View() == b
    {
      if done && (preferDone || !pending) {
        stopped := true;
        return false;
      }
      if pending {
        pending, inHand := false, true;
      }
      running := true;
    }

    /** The inner select: the tick becomes a token if there is room for it. */
    method RefillOffer(now: nat)
      requires TB.Valid(View()) && inHand
      modifies this
      ensures View() == TB.Next(old(View()), now, TB.Deposit)
    {
      if tokens < rate {
        tokens := tokens + 1;
      }
      inHand := false;
    }

    /** One turn of the refill loop in which nothing comes between its two selects. */
    method RefillTurn(now: nat, preferDone: bool) returns (running: bool)
      requires TB.Valid(View()) && !stopped && !inHand
      modifies this
      ensures running == !stopped
      ensures var b := old(View());
        if b.closed && (preferDone || !b.pending) then View() == TB.Next(b, now, TB.Exit)
        else if b.pending then View() == TB.Next(TB.Next(b, now, TB.Pick), now, TB.Deposit)
        else View() == b
    {
      running := RefillSelect(now, preferDone);
      if inHand {
        RefillOffer(now);
      }
    }

    /** Takes the preferred ready case, else any ready one; None: nothing is ready and Wait blocks. */
    method Wait(now: nat, contextDone: bool, prefer: TB.WaitOutcome) returns (r: Option<TB.WaitOutcome>)
      requires TB.Valid(View())
      modifies this
      ensures r.None? <==> TB.ReadyOutcomes(old(View()), contextDone) == {}
      ensures r.Some? ==> r.value in TB.ReadyOutcomes(old(View()), contextDone)
      ensures prefer in TB.ReadyOutcomes(old(View()), contextDone) ==> r == Some(prefer)
      ensures r.None? <==> old(tokens) == 0 && !contextDone && !old(done)
      ensures r == Some(TB.Token) ==> 0 < old(tokens) && tokens == old(tokens) - 1
      ensures r == Some(TB.ContextError) ==> contextDone
      ensures r == Some(TB.BucketClosed) ==> old(done)
      ensures prefer == TB.Token && 0 < old(tokens) ==> r == Some(TB.Token)
      ensures prefer == TB.ContextError && contextDone ==> r == Some(TB.ContextError)
      ensures prefer == TB.BucketClosed && old(done) ==> r == Some(TB.BucketClosed)
      ensures r == Some(TB.Token) ==>
        TB.Enabled(old(View()), now, TB.Take) && View() == TB.Next(old(View()), now, TB.Take)
      ensures r != Some(TB.Token) ==> View() == old(View())
    {
      var ready := TB.ReadyOutcomes(TB.State(rate, period, next, pending, inHand, tokens, done, stopped, 0, 0), contextDone);
      assert ready == TB.ReadyOutcomes(View(), contextDone);
      if prefer in ready {
        r := Some(prefer);
      } else if ready != {} {
        var outcome :| outcome in ready;
        r := Some(outcome);
      } else {
        r := None;
      }
      if r == Some(TB.Token) {
        tokens := tokens - 1;
        granted := granted + 1;
      }
    }

    method Close(now: nat)
      requires TB.Valid(View())
      modifies this
      ensures View() == TB.Next(old(View()), now, TB.Close)
    {
      done := true;
    }
  }

  class Manager {
    const ratePerSecond: int
    var buckets: map<string, Bucket>
    ghost var abs: L.State

    /** The buckets are those of `abs`, and no two keys share one. */
    ghost predicate Valid()
      reads this, buckets.Values
    {
      && L.Valid(abs) && abs.ratePerSecond == ratePerSecond && abs.buckets.Keys == buckets.Keys
      && (forall key :: key in buckets ==> buckets[key].View() == abs.buckets[key])
      && (forall k1, k2 :: k1 in buckets && k2 in buckets && k1 != k2 ==> buckets[k1] != buckets[k2])
    }

    constructor (ratePerSecond: int)
      ensures Valid() && abs == L.New(ratePerSecond) && buckets == map[]
    {
      this.ratePerSecond := ratePerSecond;
      buckets := map[];
      abs := L.New(ratePerSecond);
    }

    /** None: NewBucket has panicked. */
    method BucketFor(key: string, now: nat) returns (b: Option<Bucket>)
      requires Valid()
      modifies this
      ensures Valid()
      ensures b.Some? <==> L.Enabled(old(abs), now, L.Lookup(key))
      ensures b.None? ==> abs == old(abs) && buckets == old(buckets)
      ensures b.Some? ==> abs == L.Next(old(abs), now, L.Lookup(key)) && key in buckets && b.value == buckets[key]
      ensures forall k :: k in buckets && k !in old(buckets) ==> fresh(buckets[k])
      ensures forall k :: k in old(buckets) ==> k in buckets && buckets[k] == old(buckets)[k]
    {
      if key in buckets {
        return Some(buckets[key]);
      }
      if ratePerSecond > TB.SECOND {
        return None;
      }
      var bucket := Create(key, now);
      b := Some(bucket);
    }

    method Create(key: string, now: nat) returns (bucket: Bucket)
      requires Valid() && key !in buckets && ratePerSecond <= TB.SECOND
      modifies this
      ensures Valid() && fresh(bucket) && buckets == old(buckets)[key := bucket]
      ensures abs == L.Next(old(abs), now, L.Lookup(key))
    {
      L.ValidNext(abs, now, L.Lookup(key));
      bucket := new Bucket(ratePerSecond, now);
      buckets := buckets[key := bucket];
      abs := L.Next(abs, now, L.Lookup(key));
    }

    /** The tokens a key's callers get come from that key's bucket alone. */
    method Wait(key: string, now: nat, contextDone: bool, prefer: TB.WaitOutcome) returns (r: Option<TB.WaitOutcome>)
      requires Valid() && L.Enabled(abs, now, L.Lookup(key))
      modifies this, buckets.Values
      ensures Valid()
      ensures var m := L.Next(old(abs), now, L.Lookup(key));
        && L.Valid(m) && key in m.buckets
        && (r.None? <==> TB.ReadyOutcomes(m.buckets[key], contextDone) == {})
        && (r.Some? ==> r.value in TB.ReadyOutcomes(m.buckets[key], contextDone))
        && (r.None? <==> m.buckets[key].tokens == 0 && !contextDone && !m.buckets[key].closed)
        && (r == Some(TB.Token) ==> 0 < m.buckets[key].tokens)
        && (r == Some(TB.ContextError) ==> contextDone)
        && (r == Some(TB.BucketClosed) ==> m.buckets[key].closed)
        && (prefer == TB.Token && 0 < m.buckets[key].tokens ==> r == Some(TB.Token))
        && (prefer == TB.ContextError && contextDone ==> r == Some(TB.ContextError))
        && (prefer == TB.BucketClosed && m.buckets[key].closed ==> r == Some(TB.BucketClosed))
        && (r == Some(TB.Token) ==> key in abs.buckets && abs.buckets[key].tokens == m.buckets[key].tokens - 1)
        && (r == Some(TB.Token) ==> L.Enabled(m, now, L.On(key, TB.Take)) && abs == L.Next(m, now, L.On(key, TB.Take)))
        && (r != Some(TB.Token) ==> abs == m)
    {
      var found := BucketFor(key, now);
      r := WaitOn(key, now, contextDone, prefer);
    }

    /** The wait itself happens outside the manager's lock. */
    method WaitOn(key: string, now: nat, contextDone: bool, prefer: TB.WaitOutcome) returns (r: Option<TB.WaitOutcome>)
      requires Valid() && key in buckets
      modifies `abs, buckets[key]
      ensures Valid()
      ensures var b := old(abs).buckets[key];
        && (r.None? <==> TB.ReadyOutcomes(b, contextDone) == {})
        && (r.Some? ==> r.value in TB.ReadyOutcomes(b, contextDone))
        && (r.None? <==> b.tokens == 0 && !contextDone && !b.closed)
        && (r == Some(TB.Token) ==> 0 < b.tokens)
        && (r == Some(TB.ContextError) ==> contextDone)
        && (r == Some(TB.BucketClosed) ==> b.closed)
        && (prefer == TB.Token && 0 < b.tokens ==> r == Some(TB.Token))
        && (prefer == TB.ContextError && contextDone ==> r == Some(TB.ContextError))
        && (prefer == TB.BucketClosed && b.closed ==> r == Some(TB.BucketClosed))
      ensures r == Some(TB.Token) ==>
        L.Enabled(old(abs), now, L.On(key, TB.Take)) && abs == L.Next(old(abs), now, L.On(key, TB.Take))
      ensures r != Some(TB.Token) ==> abs == old(abs)
    {
      assert buckets[key].View() == abs.buckets[key];
      r := WaitAt(key, now, contextDone, prefer);
      if r == Some(TB.Token) {
        L.ValidNext(abs, now, L.On(key, TB.Take));
        abs := L.Next(abs, now, L.On(key, TB.Take));
      }
    }

    /** The bucket's own Wait, which no other key's bucket notices. */
    method WaitAt(key: string, now: nat, contextDone: bool, prefer: TB.WaitOutcome) returns (r: Option<TB.WaitOutcome>)
      requires key in buckets && TB.Valid(buckets[key].View())
      requires forall k1, k2 :: k1 in buckets && k2 in buckets && k1 != k2 ==> buckets[k1] != buckets[k2]
      modifies buckets[key]
      ensures var b := old(buckets[key].View());
        && (r.None? <==> TB.ReadyOutcomes(b, contextDone) == {})
        && (r.Some? ==> r.value in TB.ReadyOutcomes(b, contextDone))
        && (r.None? <==> b.tokens == 0 && !contextDone && !b.closed)
        && (r == Some(TB.Token) ==> 0 < b.tokens)
        && (r == Some(TB.ContextError) ==> contextDone)
        && (r == Some(TB.BucketClosed) ==> b.closed)
        && (prefer == TB.Token && 0 < b.tokens ==> r == Some(TB.Token))
        && (prefer == TB.ContextError && contextDone ==> r == Some(TB.ContextError))
        && (prefer == TB.BucketClosed && b.closed ==> r == Some(TB.BucketClosed))
        && (r == Some(TB.Token) ==> TB.Enabled(b, now, TB.Take))
        && buckets[key].View() == if r == Some(TB.Token) then TB.Next(b, now, TB.Take) else b
      ensures forall k :: k in buckets && k != key ==> buckets[k].View() == old(buckets[k].View())
    {
      r := buckets[key].Wait(now, contextDone, prefer);
    }

    /** Closes every bucket, in the order of Go's map iteration, which is any order. */
    method CloseEach(now: nat)
      requires abs.buckets.Keys == buckets.Keys
      requires forall key :: key in buckets ==> buckets[key].View() == abs.buckets[key] && TB.Valid(buckets[key].View())
      requires forall k1, k2 :: k1 in buckets && k2 in buckets && k1 != k2 ==> buckets[k1] != buckets[k2]
      modifies buckets.Values
      ensures forall key :: key in buckets ==> buckets[key].View() == abs.buckets[key].(closed := true)
    {
      var todo := buckets.Keys;
      while todo != {}
        invariant todo <= buckets.Keys
        invariant forall k :: k in buckets ==>
          TB.Valid(buckets[k].View()) && buckets[k].View() == if k in todo then abs.buckets[k] else abs.buckets[k].(closed := true)
      {
        hide TB.Valid;
        var key :| key in todo;
        CloseOne(key, now);
        todo := todo - {key};
      }
    }

    method CloseOne(key: string, now: nat)
      requires key in buckets && TB.Valid(buckets[key].View())
      requires forall k1, k2 :: k1 in buckets && k2 in buckets && k1 != k2 ==> buckets[k1] != buckets[k2]
      modifies buckets[key]
      ensures buckets[key].View() == old(buckets[key].View()).(closed := true) && TB.Valid(buckets[key].View())
      ensures forall k :: k in buckets && k != key ==> buckets[k].View() == old(buckets[k].View())
    {
      buckets[key].Close(now);
    }

    method Close(now: nat)
      requires Valid()
      modifies `abs, buckets.Values
      ensures Valid() && abs == L.Next(old(abs), now, L.CloseAll)
    {
      ghost var closed := L.Next(abs, now, L.CloseAll);
      L.CloseAllNext(abs, now);
      CloseEach(now);
      assert forall key :: key in buckets ==> buckets[key].View() == closed.buckets[key];
      abs := closed;
    }
  }
}
