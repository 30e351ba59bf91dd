/** The two database tables as sequences, and the meaning of the queries over them. */
module Store {
  import opened Prelude
  import opened Counting
  import opened Check

  datatype TargetRow = TargetRow(target: Target, createdAt: nat)

  /** error_message is NULL for None. */
  datatype CheckRow = CheckRow(targetId: string, status: int, durationMs: nat, errorMessage: Option<string>, checkedAt: nat)

  datatype Stats = Stats(targetId: string, totalChecks: nat, failures: nat, p50: nat, p99: nat)

  /**
   What becomes of a statement: it takes effect and its caller hears so, it takes
   effect but the caller's deadline passes first, or it has no effect.
   */
  datatype Outcome = Answered | Unacknowledged | Unreached

  const ERR_TARGET_EXISTS := "monitor: target already exists"
  const ERR_TARGET_NOT_FOUND := "monitor: target not found"
  const MILLISECOND: nat := 1_000_000
  const RECENT_WINDOW: nat := 24 * 3600 * 1_000_000_000

  // ----- What a result becomes in the table -----

  function RowOf(r: CheckResult): CheckRow {
    var message := if r.err.Some? then r.err.value else "";
    CheckRow(r.target.id, r.status, r.duration / MILLISECOND, if message == "" then None else Some(message), r.checkedAt)
  }

  /** The row of a result: whole milliseconds, the same date, and a message exactly for an error that has a text. */
  lemma RowIs(r: CheckResult)
    ensures RowOf(r).targetId == r.target.id && RowOf(r).status == r.status && RowOf(r).checkedAt == r.checkedAt
    ensures RowOf(r).durationMs * 1_000_000 <= r.duration < (RowOf(r).durationMs + 1) * 1_000_000
    ensures RowOf(r).errorMessage == if r.err == None || r.err == Some("") then None else r.err
  {
  }

  /** The FILTER of RecentStats. */
  predicate RowFailed(row: CheckRow) {
    row.errorMessage.Some? || row.status < 200 || row.status >= 400
  }

  /** The status cell of the dashboard. */
  function StatusLabel(r: CheckResult): string {
    if r.Failed() then "down" else "up"
  }

  /** The table and the program disagree about a result only if its error has no text and its status is good. */
  lemma DownAgreesIff(r: CheckResult)
    ensures RowFailed(RowOf(r)) == r.Failed() <==> !(r.err == Some("") && 200 <= r.status < 400)
  {
  }

  /** Whatever the environment answers, the row, the status cell and the failure counter agree on "down". */
  lemma OneMeaningOfDown(resolve: string -> Result<string>, target: Target, answer: Answer)
    ensures var r := CheckOne(resolve, target, answer);
      && RowFailed(RowOf(r)) == r.Failed() == (StatusLabel(r) == "down")
      && (StatusLabel(r) == "down" || StatusLabel(r) == "up")
  {
    var r := CheckOne(resolve, target, answer);
    assert r.err.Some? ==> r.status == 0;
    DownAgreesIff(r);
    assert "down" != "up" by {
      assert |"down"| == 4 && |"up"| == 2;
    }
  }

  // ----- RecentStats -----

  predicate IsRecent(row: CheckRow, targetId: string, now: nat) {
    row.targetId == targetId && now <= row.checkedAt + RECENT_WINDOW
  }

  function Recent(rows: seq<CheckRow>, targetId: string, now: nat): seq<CheckRow> {
    if rows == [] then []
    else (if IsRecent(rows[0], targetId, now) then [rows[0]] else []) + Recent(rows[1..], targetId, now)
  }

  function Durations(rows: seq<CheckRow>): seq<nat> {
    seq(|rows|, i requires 0 <= i < |rows| => rows[i].durationMs)
  }

  predicate Ascending(s: seq<nat>) {
    forall i, j :: 0 <= i < j < |s| ==> s[i] <= s[j]
  }

  function Insert(s: seq<nat>, x: nat): seq<nat> {
    if s == [] || x <= s[0] then [x] + s else [s[0]] + Insert(s[1..], x)
  }

  function Sorted(s: seq<nat>): seq<nat> {
    if s == [] then [] else Insert(Sorted(s[1..]), s[0])
  }

  lemma {:induction false} InsertSorts(s: seq<nat>, x: nat)
    requires Ascending(s)
    ensures Ascending(Insert(s, x))
  {
    if s != [] && x > s[0] {
      InsertSorts(s[1..], x);
      var rest := Insert(s[1..], x);
      forall i | 0 <= i < |rest|
        ensures s[0] <= rest[i]
      {
        InsertElement(s[1..], x, i);
      }
      PrependAscending(s[0], rest);
    }
  }

  lemma {:induction false} InsertKeeps(s: seq<nat>, x: nat)
    ensures multiset(Insert(s, x)) == multiset(s) + multiset{x} && |Insert(s, x)| == |s| + 1
  {
    if s != [] && x > s[0] {
      InsertKeeps(s[1..], x);
      assert s == [s[0]] + s[1..];
    }
  }

  lemma PrependAscending(x: nat, s: seq<nat>)
    requires Ascending(s) && forall i :: 0 <= i < |s| ==> x <= s[i]
    ensures Ascending([x] + s)
  {
  }

  lemma {:induction false} InsertElement(s: seq<nat>, x: nat, i: nat)
    requires i < |Insert(s, x)|
    ensures Insert(s, x)[i] == x || Insert(s, x)[i] in s
  {
    if s != [] && x > s[0] && i > 0 {
      InsertElement(s[1..], x, i - 1);
    }
  }

  lemma {:induction false} SortedKeeps(s: seq<nat>)
    ensures multiset(Sorted(s)) == multiset(s) && |Sorted(s)| == |s|
  {
    if s != [] {
      SortedKeeps(s[1..]);
      InsertKeeps(Sorted(s[1..]), s[0]);
      assert s == [s[0]] + s[1..];
    }
  }

  lemma {:induction false} SortedSorts(s: seq<nat>)
    ensures Ascending(Sorted(s)) && multiset(Sorted(s)) == multiset(s) && |Sorted(s)| == |s|
  {
    SortedKeeps(s);
    if s != [] {
      SortedSorts(s[1..]);
      InsertSorts(Sorted(s[1..]), s[0]);
    }
  }

  function Mix(a: nat, b: nat, part: nat): (m: nat)
    requires part <= 100
  {
    Product(0, a, 100 - part);
    Product(0, b, part);
    a * (100 - part) + b * part
  }

  lemma MixStep(a: nat, b: nat, part: nat)
    requires a <= b && part < 100
    ensures Mix(a, b, part + 1) == Mix(a, b, part) + (b - a)
    ensures Mix(a, b, 0) == 100 * a && Mix(a, b, 100) == 100 * b
  {
  }

  predicate InRange(s: seq<nat>, low: nat, part: nat) {
    part < 100 && low < |s| && (0 < part ==> low + 1 < |s|)
  }

  /** The interpolated value at position low + part/100, in hundredths. */
  function Interpolated(s: seq<nat>, low: nat, part: nat): nat
    requires InRange(s, low, part)
  {
    if part == 0 then 100 * s[low] else Mix(s[low], s[low + 1], part)
  }

  lemma Product(p: nat, q: nat, n: nat)
    requires p <= q
    ensures 0 <= p * n <= q * n
  {
    assert q * n == p * n + (q - p) * n;
  }

  /** The position of a percentile among `last` + 1 values, in hundredths. */
  function Position(percent: nat, last: nat): (position: nat)
    requires percent <= 100
    ensures position <= 100 * last
  {
    Product(percent, 100, last);
    percent * last
  }

  lemma SplitPosition(s: seq<nat>, position: nat)
    requires s != [] && position <= 100 * (|s| - 1)
    ensures InRange(s, position / 100, position % 100) && position == 100 * (position / 100) + position % 100
  {
  }

  function ValueAt(s: seq<nat>, position: nat): nat
    requires s != [] && position <= 100 * (|s| - 1)
  {
    SplitPosition(s, position);
    Interpolated(s, position / 100, position % 100)
  }

  /** int(PERCENTILE_CONT(percent / 100)), COALESCEd to 0. */
  function Percentile(durations: seq<nat>, percent: nat): nat
    requires percent <= 100
  {
    if durations == [] then 0
    else
      SortedSorts(durations);
      ValueAt(Sorted(durations), Position(percent, |durations| - 1)) / 100
  }

  lemma ValueAtMonotone(s: seq<nat>, p: nat, q: nat)
    requires s != [] && Ascending(s) && p <= q <= 100 * (|s| - 1)
    ensures ValueAt(s, p) <= ValueAt(s, q)
  {
    SplitPosition(s, p);
    SplitPosition(s, q);
    InterpolatedMonotone(s, p / 100, p % 100, q / 100, q % 100);
  }

  lemma ValueAtEnds(s: seq<nat>)
    requires s != []
    ensures ValueAt(s, 0) == 100 * s[0] && ValueAt(s, 100 * (|s| - 1)) == 100 * s[|s| - 1]
  {
    var last := |s| - 1;
    assert 100 * last / 100 == last && 100 * last % 100 == 0;
  }

  lemma {:induction false} InterpolatedMonotone(s: seq<nat>, low: nat, part: nat, low': nat, part': nat)
    requires Ascending(s) && InRange(s, low, part) && InRange(s, low', part')
    requires 100 * low + part <= 100 * low' + part'
    ensures Interpolated(s, low, part) <= Interpolated(s, low', part')
    decreases 100 * low' + part' - (100 * low + part)
  {
    if 100 * low + part < 100 * low' + part' {
      MixStep(s[low], s[low + 1], part);
      if part == 99 {
        InterpolatedMonotone(s, low + 1, 0, low', part');
      } else {
        InterpolatedMonotone(s, low, part + 1, low', part');
      }
    }
  }

  /** For a non-empty window the percentiles lie between the extremes and are monotone in the fraction. */
  lemma PercentilesOrdered(durations: seq<nat>, p: nat, q: nat, i: nat, j: nat)
    requires p <= q <= 100 && i < |durations| && j < |durations|
    requires forall k :: 0 <= k < |durations| ==> durations[i] <= durations[k] <= durations[j]
    ensures durations[i] <= Percentile(durations, p) <= Percentile(durations, q) <= durations[j]
  {
    SortedSorts(durations);
    var s, n := Sorted(durations), |durations| - 1;
    Product(p, q, n);
    ValueAtMonotone(s, 0, Position(p, n));
    ValueAtMonotone(s, Position(p, n), Position(q, n));
    ValueAtMonotone(s, Position(q, n), 100 * n);
    ValueAtEnds(s);
    SortedWithin(durations, i, j);
    InHundredths(durations[i], ValueAt(s, Position(p, n)), ValueAt(s, Position(q, n)), durations[j], s[0], s[n]);
  }

  lemma SortedWithin(durations: seq<nat>, i: nat, j: nat)
    requires i < |durations| && j < |durations|
    requires forall k :: 0 <= k < |durations| ==> durations[i] <= durations[k] <= durations[j]
    ensures var s := Sorted(durations);
      |s| == |durations| && durations[i] <= s[0] && s[|s| - 1] <= durations[j]
  {
    SortedSorts(durations);
    var s := Sorted(durations);
    assert s[0] in multiset(s) && s[|s| - 1] in multiset(s);
    assert s[0] in durations && s[|s| - 1] in durations;
  }

  lemma InHundredths(least: nat, low: nat, high: nat, greatest: nat, first: nat, last: nat)
    requires least <= first && last <= greatest && 100 * first <= low <= high <= 100 * last
    ensures least <= low / 100 <= high / 100 <= greatest
  {
  }

  /** Of an odd number of durations the 50th percentile is the middle one. */
  lemma MedianOdd(durations: seq<nat>, k: nat)
    requires |durations| == 2 * k + 1
    ensures |Sorted(durations)| == |durations| && Percentile(durations, 50) == Sorted(durations)[k]
  {
    PercentileIs(durations, 50, 100 * k);
    ValueAtWhole(Sorted(durations), k);
  }

  /** Of an even number it is the mean of the two middle ones, rounded down. */
  lemma MedianEven(durations: seq<nat>, k: nat)
    requires |durations| == 2 * k + 2
    ensures |Sorted(durations)| == |durations|
    ensures Percentile(durations, 50) == (Sorted(durations)[k] + Sorted(durations)[k + 1]) / 2
  {
    PercentileIs(durations, 50, 100 * k + 50);
    ValueAtHalf(Sorted(durations), k);
  }

  lemma PercentileIs(durations: seq<nat>, percent: nat, position: nat)
    requires durations != [] && percent <= 100 && position == percent * (|durations| - 1)
    ensures |Sorted(durations)| == |durations| && position <= 100 * (|durations| - 1)
    ensures Percentile(durations, percent) == ValueAt(Sorted(durations), position) / 100
  {
    SortedSorts(durations);
    assert Position(percent, |durations| - 1) == position;
  }

  lemma ValueAtWhole(s: seq<nat>, low: nat)
    requires low < |s|
    ensures 100 * low <= 100 * (|s| - 1) && ValueAt(s, 100 * low) / 100 == s[low]
  {
    assert 100 * low / 100 == low && 100 * low % 100 == 0;
  }

  lemma ValueAtHalf(s: seq<nat>, low: nat)
    requires low + 1 < |s|
    ensures ValueAt(s, 100 * low + 50) / 100 == (s[low] + s[low + 1]) / 2
  {
    assert (100 * low + 50) / 100 == low && (100 * low + 50) % 100 == 50;
    var sum := s[low] + s[low + 1];
    assert Mix(s[low], s[low + 1], 50) == 50 * sum;
    assert 50 * sum / 100 == sum / 2;
  }

  function StatsOf(rows: seq<CheckRow>, targetId: string, now: nat): Stats {
    var recent := Recent(rows, targetId, now);
    Stats(targetId, |recent|, Count(recent, RowFailed),
          Percentile(Durations(recent), 50), Percentile(Durations(recent), 99))
  }

  /** A check of the target that is at most 24 hours old. */
  function Within24Hours(targetId: string, now: nat): CheckRow -> bool {
    (row: CheckRow) => row.targetId == targetId && now <= row.checkedAt + 86_400_000_000_000
  }

  function FailedWithin24Hours(targetId: string, now: nat): CheckRow -> bool {
    (row: CheckRow) =>
      row.targetId == targetId && now <= row.checkedAt + 86_400_000_000_000 &&
      (row.errorMessage.Some? || !(200 <= row.status < 400))
  }

  function DurationsWithin24Hours(rows: seq<CheckRow>, targetId: string, now: nat): multiset<nat> {
    if rows == [] then multiset{}
    else
      (if Within24Hours(targetId, now)(rows[0]) then multiset{rows[0].durationMs} else multiset{}) +
      DurationsWithin24Hours(rows[1..], targetId, now)
  }

  lemma RecentFirst(rows: seq<CheckRow>, targetId: string, now: nat)
    requires rows != []
    ensures var rest := Recent(rows[1..], targetId, now);
      Recent(rows, targetId, now) == if Within24Hours(targetId, now)(rows[0]) then [rows[0]] + rest else rest
  {
  }

  lemma {:induction false} RecentIs(rows: seq<CheckRow>, targetId: string, now: nat)
    ensures |Recent(rows, targetId, now)| == Count(rows, Within24Hours(targetId, now))
    ensures multiset(Durations(Recent(rows, targetId, now))) == DurationsWithin24Hours(rows, targetId, now)
  {
    if rows != [] {
      RecentFirst(rows, targetId, now);
      RecentIs(rows[1..], targetId, now);
      DurationsCons(rows[0], Recent(rows[1..], targetId, now));
      hide Recent, Durations;
    }
  }

  lemma {:induction false} RecentFailures(rows: seq<CheckRow>, targetId: string, now: nat)
    ensures Count(Recent(rows, targetId, now), RowFailed) == Count(rows, FailedWithin24Hours(targetId, now))
  {
    if rows != [] {
      RecentFirst(rows, targetId, now);
      RecentFailures(rows[1..], targetId, now);
      var rest := Recent(rows[1..], targetId, now);
      assert ([rows[0]] + rest)[1..] == rest;
      hide Recent;
    }
  }

  lemma DurationsCons(row: CheckRow, rows: seq<CheckRow>)
    ensures multiset(Durations([row] + rows)) == multiset{row.durationMs} + multiset(Durations(rows))
  {
    assert Durations([row] + rows) == [row.durationMs] + Durations(rows);
  }

  /** p is PERCENTILE_CONT(percent / 100) of the ascending values, cut down to a whole number. */
  ghost predicate IsPercentile(sorted: seq<nat>, percent: nat, p: nat)
    requires sorted != [] && percent <= 100
  {
    var position := percent * (|sorted| - 1);
    var low, part := position / 100, position % 100;
    && low < |sorted|
    && if part == 0 then p == sorted[low]
       else low + 1 < |sorted| && 100 * p <= sorted[low] * (100 - part) + sorted[low + 1] * part < 100 * p + 100
  }

  /**
   What RecentStats answers: the rows of the target from the last 24 hours are
   counted, the failed ones apart, and the two percentiles are those of their
   durations, 0 if there is none.
   */
  ghost predicate Describes(stats: Stats, rows: seq<CheckRow>, targetId: string, now: nat) {
    && stats.targetId == targetId
    && stats.totalChecks == Count(rows, Within24Hours(targetId, now))
    && stats.failures == Count(rows, FailedWithin24Hours(targetId, now))
    && (stats.totalChecks == 0 ==> stats.p50 == stats.p99 == 0)
    && (stats.totalChecks > 0 ==>
          exists sorted: seq<nat> ::
            && Ascending(sorted) && |sorted| == stats.totalChecks
            && multiset(sorted) == DurationsWithin24Hours(rows, targetId, now)
            && IsPercentile(sorted, 50, stats.p50) && IsPercentile(sorted, 99, stats.p99))
  }

  lemma PercentileMeets(durations: seq<nat>, percent: nat)
    requires durations != [] && percent <= 100
    ensures |Sorted(durations)| == |durations| && IsPercentile(Sorted(durations), percent, Percentile(durations, percent))
  {
    SortedSorts(durations);
    var s, position := Sorted(durations), Position(percent, |durations| - 1);
    SplitPosition(s, position);
    assert position == 100 * (position / 100) + position % 100;
    assert ValueAt(s, position) == Interpolated(s, position / 100, position % 100);
    if position % 100 == 0 {
      assert 100 * s[position / 100] / 100 == s[position / 100];
    }
  }

  lemma StatsDescribe(rows: seq<CheckRow>, targetId: string, now: nat)
    ensures Describes(StatsOf(rows, targetId, now), rows, targetId, now)
  {
    var recent := Recent(rows, targetId, now);
    var durations := Durations(recent);
    RecentIs(rows, targetId, now);
    RecentFailures(rows, targetId, now);
    if recent != [] {
      SortedSorts(durations);
      PercentileMeets(durations, 50);
      PercentileMeets(durations, 99);
      var sorted := Sorted(durations);
      assert Ascending(sorted) && |sorted| == |recent|;
    }
  }

  lemma {:induction false} RecentConcat(older: seq<CheckRow>, newer: seq<CheckRow>, targetId: string, now: nat)
    ensures Recent(older + newer, targetId, now) == Recent(older, targetId, now) + Recent(newer, targetId, now)
  {
    if older == [] {
      assert older + newer == newer;
    } else {
      var all := older + newer;
      assert all[0] == older[0] && all[1..] == older[1..] + newer;
      RecentConcat(older[1..], newer, targetId, now);
      var head := if IsRecent(older[0], targetId, now) then [older[0]] else [];
      assert Recent(all, targetId, now) == head + (Recent(older[1..], targetId, now) + Recent(newer, targetId, now));
    }
  }

  /** Every recent row of the target is counted, failures separately, wherever it stands. */
  lemma StatsSeeRow(older: seq<CheckRow>, row: CheckRow, newer: seq<CheckRow>, targetId: string, now: nat)
    ensures var with, without := StatsOf(older + [row] + newer, targetId, now), StatsOf(older + newer, targetId, now);
      && with.totalChecks == without.totalChecks + One(IsRecent(row, targetId, now))
      && with.failures == without.failures + One(IsRecent(row, targetId, now) && RowFailed(row))
  {
    RecentConcat(older, newer, targetId, now);
    RecentConcat(older + [row], newer, targetId, now);
    RecentConcat(older, [row], targetId, now);
    assert [row][1..] == [];
    var a, b := Recent(older, targetId, now), Recent(newer, targetId, now);
    var r := Recent([row], targetId, now);
    CountConcat(a, b, RowFailed);
    CountConcat(a + r, b, RowFailed);
    CountConcat(a, r, RowFailed);
    assert r == if IsRecent(row, targetId, now) then [row] else [];
  }

  // ----- Deleting a target -----

  /** ON DELETE CASCADE leaves these rows, in order. */
  function Others(rows: seq<CheckRow>, id: string): seq<CheckRow> {
    if rows == [] then []
    else (if rows[0].targetId != id then [rows[0]] else []) + Others(rows[1..], id)
  }

  /** The rows that go. */
  function RowsOf(rows: seq<CheckRow>, id: string): seq<CheckRow> {
    if rows == [] then []
    else (if rows[0].targetId == id then [rows[0]] else []) + RowsOf(rows[1..], id)
  }

  lemma {:induction false} OthersHaveTargets(rows: seq<CheckRow>, id: string)
    ensures forall row :: row in Others(rows, id) <==> row in rows && row.targetId != id
  {
    if rows != [] {
      OthersHaveTargets(rows[1..], id);
    }
  }

  lemma {:induction false} RowsOfConcat(older: seq<CheckRow>, newer: seq<CheckRow>, id: string)
    ensures RowsOf(older + newer, id) == RowsOf(older, id) + RowsOf(newer, id)
  {
    if older == [] {
      assert older + newer == newer;
    } else {
      var all := older + newer;
      assert all[0] == older[0] && all[1..] == older[1..] + newer;
      RowsOfConcat(older[1..], newer, id);
      Regroup(if older[0].targetId == id then [older[0]] else [], RowsOf(older[1..], id), RowsOf(newer, id));
    }
  }

  /** Every row either stays or goes. */
  lemma {:induction false} CascadeSplits(rows: seq<CheckRow>, id: string)
    ensures |rows| == |Others(rows, id)| + |RowsOf(rows, id)|
    ensures Count(rows, RowFailed) == Count(Others(rows, id), RowFailed) + Count(RowsOf(rows, id), RowFailed)
  {
    if rows != [] {
      CascadeSplits(rows[1..], id);
      assert [] + Others(rows[1..], id) == Others(rows[1..], id);
      assert [] + RowsOf(rows[1..], id) == RowsOf(rows[1..], id);
      assert ([rows[0]] + Others(rows[1..], id))[1..] == Others(rows[1..], id);
      assert ([rows[0]] + RowsOf(rows[1..], id))[1..] == RowsOf(rows[1..], id);
    }
  }

  /** The rows of another target are untouched, those of the deleted one are gone. */
  lemma {:induction false} CascadeRows(rows: seq<CheckRow>, id: string, other: string)
    ensures RowsOf(Others(rows, id), other) == if id == other then [] else RowsOf(rows, other)
  {
    if rows != [] {
      CascadeRows(rows[1..], id, other);
      var head := if rows[0].targetId != id then [rows[0]] else [];
      RowsOfConcat(head, Others(rows[1..], id), other);
      assert [rows[0]][1..] == [];
    }
  }

  lemma {:induction false} RecentOfRowsOf(rows: seq<CheckRow>, id: string, now: nat)
    ensures Recent(RowsOf(rows, id), id, now) == Recent(rows, id, now)
  {
    if rows != [] {
      RecentOfRowsOf(rows[1..], id, now);
      var own := RowsOf(rows[1..], id);
      if rows[0].targetId == id {
        assert RowsOf(rows, id) == [rows[0]] + own && ([rows[0]] + own)[1..] == own;
      } else {
        assert RowsOf(rows, id) == own && Recent(rows, id, now) == Recent(rows[1..], id, now);
      }
    }
  }

  /** A target's statistics depend on its own rows only. */
  lemma StatsOfOwnRows(rows: seq<CheckRow>, rows': seq<CheckRow>, id: string, now: nat)
    requires RowsOf(rows, id) == RowsOf(rows', id)
    ensures StatsOf(rows, id, now) == StatsOf(rows', id, now)
  {
    RecentOfRowsOf(rows, id, now);
    RecentOfRowsOf(rows', id, now);
  }

  /** Deleting one target never changes what another one's statistics are. */
  lemma DeleteKeepsOtherStats(rows: seq<CheckRow>, id: string, other: string, now: nat)
    requires id != other
    ensures Recent(Others(rows, id), other, now) == Recent(rows, other, now)
    ensures Recent(Others(rows, id), id, now) == []
    ensures StatsOf(Others(rows, id), other, now) == StatsOf(rows, other, now)
  {
    CascadeRows(rows, id, other);
    CascadeRows(rows, id, id);
    RecentOfRowsOf(rows, other, now);
    RecentOfRowsOf(Others(rows, id), other, now);
    RecentOfRowsOf(Others(rows, id), id, now);
  }

  lemma {:induction false} NoneOthers(rows: seq<CheckRow>, id: string)
    requires forall row :: row in rows ==> row.targetId != id
    ensures Others(rows, id) == rows && RowsOf(rows, id) == []
  {
    if rows != [] {
      NoneOthers(rows[1..], id);
      assert [rows[0]] + rows[1..] == rows;
    }
  }

  // ----- The tables as an object -----

  predicate HasId(targets: seq<TargetRow>, id: string) {
    exists i :: 0 <= i < |targets| && targets[i].target.id == id
  }

  predicate HasUrl(targets: seq<TargetRow>, url: string) {
    exists i :: 0 <= i < |targets| && targets[i].target.url == url
  }

  /** The constraints of the schema, and the order that ListTargets asks for. */
  ghost predicate WellKept(targets: seq<TargetRow>) {
    forall i, j :: 0 <= i < j < |targets| ==>
      && targets[i].target.id != targets[j].target.id
      && targets[i].target.url != targets[j].target.url
      && targets[i].createdAt <= targets[j].createdAt
  }

  ghost predicate Referenced(targets: seq<TargetRow>, checks: seq<CheckRow>) {
    forall row :: row in checks ==> HasId(targets, row.targetId)
  }

  function With(targets: seq<TargetRow>, k: nat, row: TargetRow): seq<TargetRow>
    requires k <= |targets|
  {
    targets[..k] + [row] + targets[k..]
  }

  function Without(targets: seq<TargetRow>, k: nat): seq<TargetRow>
    requires k < |targets|
  {
    targets[..k] + targets[k + 1..]
  }

  /** Where the order by creation time puts a new row: after all that are not younger. */
  function PlaceFor(targets: seq<TargetRow>, now: nat): (k: nat)
    ensures k <= |targets|
  {
    if targets == [] || targets[|targets| - 1].createdAt <= now then |targets|
    else PlaceFor(targets[..|targets| - 1], now)
  }

  lemma {:induction false} PlaceInOrder(targets: seq<TargetRow>, now: nat)
    requires WellKept(targets)
    ensures var k := PlaceFor(targets, now);
      && (forall i :: k <= i < |targets| ==> now < targets[i].createdAt)
      && (0 < k ==> targets[k - 1].createdAt <= now)
  {
    if targets != [] && now < targets[|targets| - 1].createdAt {
      PlaceInOrder(targets[..|targets| - 1], now);
    }
  }

  function IndexOfId(targets: seq<TargetRow>, id: string): (k: nat)
    requires HasId(targets, id)
    ensures k < |targets| && targets[k].target.id == id
  {
    if targets[0].target.id == id then 0
    else
      assert HasId(targets[1..], id) by {
        var i :| 0 <= i < |targets| && targets[i].target.id == id;
        assert targets[1..][i - 1].target.id == id;
      }
      1 + IndexOfId(targets[1..], id)
  }

  /** The table after POST /targets; a URL or an id that is taken changes nothing. */
  function Created(targets: seq<TargetRow>, url: string, id: string, now: nat): seq<TargetRow> {
    if HasUrl(targets, url) || HasId(targets, id) then targets
    else With(targets, PlaceFor(targets, now), TargetRow(Target(id, url), now))
  }

  /** The table after DELETE /targets/{id}. */
  function Deleted(targets: seq<TargetRow>, id: string): seq<TargetRow> {
    if HasId(targets, id) then Without(targets, IndexOfId(targets, id)) else targets
  }

  lemma CreatedKeeps(targets: seq<TargetRow>, url: string, id: string, now: nat, other: string)
    requires HasId(targets, other)
    ensures HasId(Created(targets, url, id, now), other)
  {
    if !HasUrl(targets, url) && !HasId(targets, id) {
      WithHas(targets, PlaceFor(targets, now), TargetRow(Target(id, url), now), other);
    }
  }

  lemma WithoutHas(targets: seq<TargetRow>, k: nat, i: nat)
    requires k < |targets| && i < |targets| && i != k
    ensures HasId(Without(targets, k), targets[i].target.id)
  {
    assert Without(targets, k)[if i < k then i else i - 1] == targets[i];
  }

  lemma DeletedKeeps(targets: seq<TargetRow>, id: string, other: string)
    requires HasId(targets, other) && id != other
    ensures HasId(Deleted(targets, id), other)
  {
    if HasId(targets, id) {
      var i: nat :| i < |targets| && targets[i].target.id == other;
      WithoutHas(targets, IndexOfId(targets, id), i);
    }
  }

  lemma WithContents(targets: seq<TargetRow>, k: nat, row: TargetRow)
    requires k <= |targets|
    ensures multiset(With(targets, k, row)) == multiset(targets) + multiset{row} && row in With(targets, k, row)
  {
    assert targets == targets[..k] + targets[k..];
    assert With(targets, k, row)[k] == row;
  }

  /** A target that is created is in the table, and nothing else has changed. */
  lemma CreatedHas(targets: seq<TargetRow>, url: string, id: string, now: nat)
    requires !HasUrl(targets, url) && !HasId(targets, id)
    ensures var row, targets' := TargetRow(Target(id, url), now), Created(targets, url, id, now);
      row in targets' && HasId(targets', id) && HasUrl(targets', url) && multiset(targets') == multiset(targets) + multiset{row}
  {
    var k, row := PlaceFor(targets, now), TargetRow(Target(id, url), now);
    WithContents(targets, k, row);
    assert With(targets, k, row)[k].target == row.target;
  }

  lemma WithoutContents(targets: seq<TargetRow>, k: nat)
    requires k < |targets|
    ensures multiset(targets) == multiset(Without(targets, k)) + multiset{targets[k]}
  {
    assert targets == targets[..k] + [targets[k]] + targets[k + 1..];
  }

  lemma WithWellKept(targets: seq<TargetRow>, k: nat, row: TargetRow)
    requires WellKept(targets) && k <= |targets|
    requires !HasId(targets, row.target.id) && !HasUrl(targets, row.target.url)
    requires forall i :: k <= i < |targets| ==> row.createdAt <= targets[i].createdAt
    requires 0 < k ==> targets[k - 1].createdAt <= row.createdAt
    ensures WellKept(With(targets, k, row))
  {
    forall i, j | 0 <= i < j < |With(targets, k, row)|
      ensures var ts := With(targets, k, row);
        ts[i].target.id != ts[j].target.id && ts[i].target.url != ts[j].target.url && ts[i].createdAt <= ts[j].createdAt
    {
      if i < k && j == k && i < k - 1 {
        assert targets[i].createdAt <= targets[k - 1].createdAt;
      }
    }
  }

  lemma WithHas(targets: seq<TargetRow>, k: nat, row: TargetRow, id: string)
    requires k <= |targets|
    ensures HasId(With(targets, k, row), id) <==> HasId(targets, id) || id == row.target.id
  {
    var ts := With(targets, k, row);
    assert ts[k] == row;
    if i :| 0 <= i < |targets| && targets[i].target.id == id {
      assert ts[if i < k then i else i + 1] == targets[i];
    }
    if i :| 0 <= i < |ts| && ts[i].target.id == id && i != k {
      assert ts[i] == targets[if i < k then i else i - 1];
    }
  }

  lemma WithoutWellKept(targets: seq<TargetRow>, k: nat, id: string)
    requires WellKept(targets) && k < |targets|
    ensures WellKept(Without(targets, k))
    ensures HasId(Without(targets, k), id) <==> HasId(targets, id) && id != targets[k].target.id
  {
    var ts := Without(targets, k);
    if i :| 0 <= i < |targets| && targets[i].target.id == id && i != k {
      assert ts[if i < k then i else i - 1] == targets[i];
    }
    if i :| 0 <= i < |ts| && ts[i].target.id == id {
      assert ts[i] == targets[if i < k then i else i + 1];
    }
  }

  /** A target that does not exist has no rows. */
  lemma NoneOf(targets: seq<TargetRow>, checks: seq<CheckRow>, id: string)
    requires Referenced(targets, checks) && !HasId(targets, id)
    ensures Others(checks, id) == checks && RowsOf(checks, id) == []
  {
    NoneOthers(checks, id);
  }

  /** Creating a target keeps the tables consistent, and puts exactly its row there. */
  lemma CreatedValid(targets: seq<TargetRow>, checks: seq<CheckRow>, url: string, id: string, now: nat)
    requires WellKept(targets) && Referenced(targets, checks)
    ensures var targets', row := Created(targets, url, id, now), TargetRow(Target(id, url), now);
      && WellKept(targets') && Referenced(targets', checks)
      && (!HasUrl(targets, url) && !HasId(targets, id) ==>
            && row in targets' && HasId(targets', id) && HasUrl(targets', url)
            && multiset(targets') == multiset(targets) + multiset{row})
  {
    if !HasUrl(targets, url) && !HasId(targets, id) {
      PlaceInOrder(targets, now);
      WithWellKept(targets, PlaceFor(targets, now), TargetRow(Target(id, url), now));
      CreatedHas(targets, url, id, now);
    }
    forall check | check in checks
      ensures HasId(Created(targets, url, id, now), check.targetId)
    {
      CreatedKeeps(targets, url, id, now, check.targetId);
    }
  }

  class Database {
    var targets: seq<TargetRow>
    var checks: seq<CheckRow>

    ghost predicate Valid()
      reads this
    {
      WellKept(targets) && Referenced(targets, checks)
    }

    constructor ()
      ensures Valid() && targets == [] && checks == []
    {
      targets, checks := [], [];
    }

    /** `id` is the generated key and `now` the database's clock. */
    method CreateTarget(url: string, id: string, now: nat, outcome: Outcome) returns (r: Result<Target>)
      requires Valid()
      modifies this
      ensures Valid() && checks == old(checks)
      ensures r.Ok? <==> outcome.Answered? && !HasUrl(old(targets), url) && !HasId(old(targets), id)
      ensures outcome.Answered? && r.Err? ==> r.error == ERR_TARGET_EXISTS
      ensures r.Ok? ==> r.value == Target(id, url)
      ensures targets == if outcome.Unreached? then old(targets) else Created(old(targets), url, id, now)
      ensures r.Ok? ==> TargetRow(Target(id, url), now) in targets && HasId(targets, id) && HasUrl(targets, url)
      ensures r.Ok? ==> multiset(targets) == multiset(old(targets)) + multiset{TargetRow(Target(id, url), now)}
    {
      var taken := HasUrl(targets, url) || HasId(targets, id);
      if !outcome.Unreached? {
        CreatedValid(targets, checks, url, id, now);
        targets := Created(targets, url, id, now);
      }
      r := if outcome.Unreached? then Err("create target: database unavailable")
           else if outcome.Unacknowledged? then Err("create target: deadline exceeded")
           else if taken then Err(ERR_TARGET_EXISTS) else Ok(Target(id, url));
    }

    method ListTargets(up: bool) returns (r: Result<seq<Target>>)
      requires Valid()
      ensures r.Ok? <==> up
      ensures r.Ok? ==> |r.value| == |targets| && forall i :: 0 <= i < |targets| ==> r.value[i] == targets[i].target
    {
      if !up {
        return Err("list targets: database unavailable");
      }
      var listed := [];
      for i := 0 to |targets|
        invariant |listed| == i && forall j :: 0 <= j < i ==> listed[j] == targets[j].target
      {
        listed := listed + [targets[i].target];
      }
      r := Ok(listed);
    }

    /** ON DELETE CASCADE: the target's checks go with it, all others stay in order. */
    method DeleteTarget(id: string, outcome: Outcome) returns (r: Option<string>)
      requires Valid()
      modifies this
      ensures Valid()
      ensures r.None? <==> outcome.Answered? && HasId(old(targets), id)
      ensures outcome.Answered? && r.Some? ==> r.value == ERR_TARGET_NOT_FOUND
      ensures outcome.Unreached? ==> targets == old(targets) && checks == old(checks)
      ensures !outcome.Unreached? ==>
        targets == Deleted(old(targets), id) && !HasId(targets, id) && checks == Others(old(checks), id)
      ensures r.None? ==>
        exists row: TargetRow :: row.target.id == id && multiset(old(targets)) == multiset(targets) + multiset{row}
    {
      if outcome.Unreached? {
        return Some("delete target: database unavailable");
      }
      var found := HasId(targets, id);
      if found {
        WithoutContents(targets, IndexOfId(targets, id));
        RemoveRow(IndexOfId(targets, id), id);
      } else {
        NoneOf(targets, checks, id);
      }
      r := if !outcome.Answered? then Some("delete target: deadline exceeded")
           else if found then None else Some(ERR_TARGET_NOT_FOUND);
    }

    method RemoveRow(place: nat, id: string)
      requires Valid() && place < |targets| && targets[place].target.id == id
      modifies this
      ensures Valid() && targets == Without(old(targets), place) && !HasId(targets, id)
      ensures checks == Others(old(checks), id)
    {
      OthersHaveTargets(checks, id);
      forall check | check in Others(checks, id)
        ensures HasId(Without(targets, place), check.targetId)
      {
        WithoutWellKept(targets, place, check.targetId);
      }
      WithoutWellKept(targets, place, id);
      targets := Without(targets, place);
      checks := Others(checks, id);
    }

    /** The foreign key refuses a check of a target that no longer exists. */
    method RecordCheck(row: CheckRow, outcome: Outcome) returns (ok: bool)
      requires Valid()
      modifies `checks
      ensures Valid()
      ensures ok <==> outcome.Answered? && HasId(targets, row.targetId)
      ensures checks == if !outcome.Unreached? && HasId(targets, row.targetId) then old(checks) + [row] else old(checks)
    {
      ok := false;
      if !outcome.Unreached? && HasId(targets, row.targetId) {
        checks := checks + [row];
        ok := outcome.Answered?;
      }
    }

    method RecentStats(targetId: string, now: nat, up: bool) returns (r: Result<Stats>)
      ensures r.Ok? <==> up
      ensures r.Ok? ==> r.value == StatsOf(checks, targetId, now) && Describes(r.value, checks, targetId, now)
    {
      StatsDescribe(checks, targetId, now);
      r := if up then Ok(StatsOf(checks, targetId, now)) else Err("recent stats: database unavailable");
    }
  }
}
