/** The process counters behind GET /metrics. */
module Metrics {

  /** checksInFlight goes up when a check gets a slot and down when it ends; the other two only go up. */
  datatype Counters = Counters(total: int, inFlight: int, failed: int)
  {
    function Launch(): Counters { this.(inFlight := inFlight + 1) }
    function Land(): Counters { this.(inFlight := inFlight - 1) }
    function CountOne(): Counters { this.(total := total + 1) }
    function CountFailure(failure: bool): Counters { if failure then this.(failed := failed + 1) else this }

    /** CheckFinished without anything in between. */
    function Finish(failure: bool): Counters { Land().CountOne().CountFailure(failure) }
  }

  /** The single atomic updates that other goroutines make. */
  datatype Update = Launched | Landed | CountedOne | CountedFailure

  function Updated(c: Counters, updates: seq<Update>): Counters
    decreases |updates|
  {
    if updates == [] then c else Updated(UpdatedOnce(c, updates[0]), updates[1..])
  }

  function UpdatedOnce(c: Counters, update: Update): Counters {
    match update
    case Launched => c.Launch()
    case Landed => c.Land()
    case CountedOne => c.CountOne()
    case CountedFailure => c.CountFailure(true)
  }

  function Times(updates: seq<Update>, update: Update): nat {
    if updates == [] then 0 else (if updates[0] == update then 1 else 0) + Times(updates[1..], update)
  }

  /** Each kind of update moves its own counter, and only that. */
  lemma {:induction false} UpdatesCounted(c: Counters, updates: seq<Update>)
    ensures var c' := Updated(c, updates);
      && c'.total == c.total + Times(updates, CountedOne)
      && c'.inFlight == c.inFlight + Times(updates, Launched) - Times(updates, Landed)
      && c'.failed == c.failed + Times(updates, CountedFailure)
    decreases |updates|
  {
    if updates != [] {
      UpdatesCounted(UpdatedOnce(c, updates[0]), updates[1..]);
    }
  }

  class Recorder {
    var checksTotal: int
    var checksInFlight: int
    var checksFailed: int

    function View(): Counters
      reads this
    {
      Counters(checksTotal, checksInFlight, checksFailed)
    }

    constructor ()
      ensures View() == Counters(0, 0, 0)
    {
      checksTotal, checksInFlight, checksFailed := 0, 0, 0;
    }

    /** What happens to the counters while their reader is between two loads. */
    method LetOthers(updates: seq<Update>)
      modifies this
      ensures View() == Updated(old(View()), updates)
    {
      assert updates[0..] == updates;
      for i := 0 to |updates|
        invariant Updated(View(), updates[i..]) == Updated(old(View()), updates)
      {
        assert updates[i..][0] == updates[i] && updates[i..][1..] == updates[i + 1..];
        match updates[i] {
          case Launched => checksInFlight := checksInFlight + 1;
          case Landed => checksInFlight := checksInFlight - 1;
          case CountedOne => checksTotal := checksTotal + 1;
          case CountedFailure => checksFailed := checksFailed + 1;
        }
      }
      assert updates[|updates|..] == [];
    }

    method CheckStarted()
      modifies this
      ensures View() == old(View()).Launch()
    {
      checksInFlight := checksInFlight + 1;
    }

    method CheckFinished(failed: bool)
      modifies this
      ensures View() == old(View()).Finish(failed)
    {
      checksInFlight := checksInFlight - 1;
      checksTotal := checksTotal + 1;
      if failed {
        checksFailed := checksFailed + 1;
      }
    }
  }
}
