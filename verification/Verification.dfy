/** Summarizing one shard's test report, and accepting the results of all shards together. */
module Verification {
  import opened Sql
  import opened Shards

  datatype Row = Row(id: string, phase: string, outcome: string, xfail: bool)

  /** `finished` is set only when the test session ended. */
  datatype Report = Report(finished: bool, collected: seq<string>, selected: seq<string>, rows: seq<Row>)

  datatype Summary = Summary(passed: bool, complete: bool, counts: map<string, nat>)

  type Phases = map<string, map<string, string>>

  // What a report records.

  /** Row i is of test `id` in phase `phase`. */
  ghost predicate RowAt(rows: seq<Row>, i: int, id: string, phase: string) {
    0 <= i < |rows| && rows[i].id == id && rows[i].phase == phase
  }

  ghost predicate Has(rows: seq<Row>, id: string, phase: string) {
    exists i :: RowAt(rows, i, id, phase)
  }

  /** Every row belongs to a selected test, and no test has two rows for one phase. */
  ghost predicate WellRecorded(selected: seq<string>, rows: seq<Row>) {
    && (forall i :: 0 <= i < |rows| ==> rows[i].id in selected)
    && (forall i, j :: 0 <= i < j < |rows| ==> !(rows[i].id == rows[j].id && rows[i].phase == rows[j].phase))
  }

  /** Setup and teardown ran, and the test itself if its setup passed. */
  ghost predicate RanFully(rows: seq<Row>, id: string) {
    && Has(rows, id, "setup") && Has(rows, id, "teardown")
    && forall i :: RowAt(rows, i, id, "setup") && rows[i].outcome == "passed" ==> Has(rows, id, "call")
  }

  ghost predicate CompleteReport(r: Report) {
    && r.finished && r.selected != [] && WellRecorded(r.selected, r.rows)
    && forall id :: id in r.selected ==> RanFully(r.rows, id)
  }

  ghost predicate NoFailure(r: Report) {
    forall i :: 0 <= i < |r.rows| ==> r.rows[i].outcome != "failed"
  }

  // Counting outcomes.

  /** The counter a row increments, if any. */
  function Counter(row: Row): Option<string> {
    if row.outcome == "failed" then Some("failed")
    else if row.phase == "call" || (row.phase == "setup" && row.outcome == "skipped") then
      Some(if !row.xfail then row.outcome else if row.outcome == "passed" then "xpassed" else "xfail")
    else None
  }

  function Bump(counts: map<string, nat>, row: Row): map<string, nat> {
    match Counter(row)
    case None => counts
    case Some(name) => counts[name := (if name in counts then counts[name] else 0) + 1]
  }

  function Counts(rows: seq<Row>): map<string, nat> {
    if rows == [] then map[] else Bump(Counts(rows[..|rows| - 1]), rows[|rows| - 1])
  }

  lemma {:induction false} FailuresAreCounted(rows: seq<Row>)
    ensures "failed" in Counts(rows) <==> exists i :: 0 <= i < |rows| && rows[i].outcome == "failed"
    ensures "failed" in Counts(rows) ==> Counts(rows)["failed"] > 0
  {
    if rows != [] {
      var n := |rows| - 1;
      FailuresAreCounted(rows[..n]);
      assert rows == rows[..n] + [rows[n]];
      if i :| 0 <= i < |rows| && rows[i].outcome == "failed" {
        if i < n {
          assert rows[..n][i].outcome == "failed";
        }
      }
      assert "xpassed" != "failed" && "xfail" != "failed" && "passed" != "failed";
    }
  }

  /** A failed row counts as failed in any phase; another only for the call, or a skip in setup, and
      then an expected failure by its own names. */
  ghost predicate FallsUnder(row: Row, name: string) {
    if row.outcome == "failed" then name == "failed"
    else
      && (row.phase == "call" || (row.phase == "setup" && row.outcome == "skipped"))
      && (row.xfail && row.outcome == "passed" ==> name == "xpassed")
      && (row.xfail && row.outcome != "passed" ==> name == "xfail")
      && (!row.xfail ==> name == row.outcome)
  }

  ghost function Under(rows: seq<Row>, name: string): set<nat> {
    set i: nat | i < |rows| && FallsUnder(rows[i], name)
  }

  /** Each counter is the number of rows that fall under its name, and is absent when there is none. */
  lemma {:induction false} CountersCount(rows: seq<Row>, name: string)
    ensures (name in Counts(rows) <==> Under(rows, name) != {})
    ensures name in Counts(rows) ==> Counts(rows)[name] == |Under(rows, name)|
  {
    if rows != [] {
      var n := |rows| - 1;
      var before := rows[..n];
      CountersCount(before, name);
      assert Counter(rows[n]) == Some(name) <==> FallsUnder(rows[n], name);
      assert Under(rows, name) == Under(before, name) + if FallsUnder(rows[n], name) then {n} else {};
      assert n !in Under(before, name);
    }
  }

  // The summary.

  function Recorded(phases: Phases, id: string, phase: string): Option<string> {
    if id in phases && phase in phases[id] then Some(phases[id][phase]) else None
  }

  /** The recorded phases are those of the rows, with their outcomes when nothing is duplicated. */
  ghost predicate Reflects(phases: Phases, selected: seq<string>, rows: seq<Row>) {
    && (forall id :: id in phases <==> id in selected)
    && (forall id, phase :: id in phases ==> (phase in phases[id] <==> Has(rows, id, phase)))
    && (WellRecorded(selected, rows) ==>
          forall i :: 0 <= i < |rows| ==>
            Recorded(phases, rows[i].id, rows[i].phase) == Some(rows[i].outcome))
  }

  lemma HasGrows(rows: seq<Row>, n: nat, id: string, phase: string)
    requires n < |rows|
    ensures Has(rows[..n + 1], id, phase)
            <==> Has(rows[..n], id, phase) || (rows[n].id == id && rows[n].phase == phase)
  {
    var before, after := rows[..n], rows[..n + 1];
    if i :| RowAt(before, i, id, phase) {
      assert RowAt(after, i, id, phase);
    }
    if rows[n].id == id && rows[n].phase == phase {
      assert RowAt(after, n, id, phase);
    }
    if i :| RowAt(after, i, id, phase) {
      if i < n {
        assert RowAt(before, i, id, phase);
      }
    }
  }

  lemma WellRecordedGrows(selected: seq<string>, rows: seq<Row>, n: nat)
    requires n < |rows|
    ensures WellRecorded(selected, rows[..n + 1])
            <==> WellRecorded(selected, rows[..n]) && rows[n].id in selected
                 && !Has(rows[..n], rows[n].id, rows[n].phase)
  {
    var before, after := rows[..n], rows[..n + 1];
    assert forall i :: 0 <= i < n ==> after[i] == before[i];
    assert after[n] == rows[n];
    if i :| RowAt(before, i, rows[n].id, rows[n].phase) {
      assert after[i].id == after[n].id && after[i].phase == after[n].phase;
    }
    if WellRecorded(selected, before) && rows[n].id in selected
       && !Has(before, rows[n].id, rows[n].phase) {
      forall i | 0 <= i < n ensures !(after[i].id == after[n].id && after[i].phase == after[n].phase) {
        assert !RowAt(before, i, rows[n].id, rows[n].phase);
      }
    }
  }

  method Record(selected: seq<string>, rows: seq<Row>) returns (phases: Phases, duplicate: bool)
    ensures duplicate <==> !WellRecorded(selected, rows)
    ensures Reflects(phases, selected, rows)
  {
    phases, duplicate := map id | id in selected :: map[], false;
    var n := 0;
    while n < |rows|
      invariant 0 <= n <= |rows|
      invariant duplicate <==> !WellRecorded(selected, rows[..n])
      invariant Reflects(phases, selected, rows[..n])
    {
      var row := rows[n];
      ghost var before := phases;
      WellRecordedGrows(selected, rows, n);
      if row.id !in phases || row.phase in phases[row.id] {
        duplicate := true;
      } else {
        phases := phases[row.id := phases[row.id][row.phase := row.outcome]];
      }
      forall id, phase | id in phases
        ensures phase in phases[id] <==> Has(rows[..n + 1], id, phase)
      {
        HasGrows(rows, n, id, phase);
      }
      if WellRecorded(selected, rows[..n + 1]) {
        forall i | 0 <= i < n + 1
          ensures Recorded(phases, rows[i].id, rows[i].phase) == Some(rows[i].outcome)
        {
          if i < n {
            assert rows[..n][i] == rows[i] == rows[..n + 1][i];
            assert rows[..n + 1][n] == rows[n];
            assert Recorded(before, rows[i].id, rows[i].phase) == Some(rows[i].outcome);
          }
        }
      }
      n := n + 1;
    }
    assert rows[..n] == rows;
  }

  predicate PhasesComplete(phase: map<string, string>) {
    && "setup" in phase && "teardown" in phase
    && (phase["setup"] == "passed" ==> "call" in phase)
  }

  lemma PhasesMeanRanFully(phases: Phases, selected: seq<string>, rows: seq<Row>, id: string)
    requires Reflects(phases, selected, rows) && WellRecorded(selected, rows) && id in phases
    ensures PhasesComplete(phases[id]) <==> RanFully(rows, id)
  {
    if Has(rows, id, "setup") {
      var i :| RowAt(rows, i, id, "setup");
      assert Recorded(phases, id, "setup") == Some(rows[i].outcome);
      forall j | RowAt(rows, j, id, "setup") ensures rows[j].outcome == rows[i].outcome {
        assert Recorded(phases, id, "setup") == Some(rows[j].outcome);
      }
    }
  }

  /** Do all recorded tests have their phases? */
  method AllComplete(phases: Phases) returns (complete: bool)
    ensures complete <==> forall id :: id in phases ==> PhasesComplete(phases[id])
  {
    var todo := phases.Keys;
    complete := true;
    while todo != {}
      invariant todo <= phases.Keys
      invariant complete <==> forall id :: id in phases && id !in todo ==> PhasesComplete(phases[id])
    {
      var id :| id in todo;
      complete := complete && PhasesComplete(phases[id]);
      todo := todo - {id};
    }
  }

  method CountOutcomes(rows: seq<Row>) returns (counts: map<string, nat>)
    ensures counts == Counts(rows)
  {
    counts := map[];
    for n := 0 to |rows|
      invariant counts == Counts(rows[..n])
    {
      assert rows[..n + 1][..n] == rows[..n];
      counts := Bump(counts, rows[n]);
    }
    assert rows[..|rows|] == rows;
  }

  lemma CompleteMeansRanFully(phases: Phases, selected: seq<string>, rows: seq<Row>)
    requires Reflects(phases, selected, rows) && WellRecorded(selected, rows)
    ensures (forall id :: id in phases ==> PhasesComplete(phases[id])) <==> forall id :: id in selected ==> RanFully(rows, id)
  {
    forall id | id in phases ensures PhasesComplete(phases[id]) <==> RanFully(rows, id) {
      PhasesMeanRanFully(phases, selected, rows, id);
    }
  }

  /** The summary: complete and passed mean what the rows show; anything else is not a pass. */
  method Summarize(report: Report, exitCode: int, timedOut: bool) returns (s: Summary)
    ensures s.complete <==> CompleteReport(report)
    ensures s.passed <==> exitCode == 0 && CompleteReport(report) && !timedOut && NoFailure(report)
    ensures s.counts == Counts(report.rows)
  {
    var phases, duplicate := Record(report.selected, report.rows);
    var complete := report.finished && report.selected != [] && !duplicate;
    var all := AllComplete(phases);
    if complete {
      CompleteMeansRanFully(phases, report.selected, report.rows);
    }
    var counts := CountOutcomes(report.rows);
    FailuresAreCounted(report.rows);
    s := Summary(exitCode == 0 && complete && all && !timedOut && "failed" !in counts, complete && all, counts);
  }

  // All shards together.

  datatype Result = Result(summary: Summary, shard: Shard, report: Report)

  function AsSet(q: seq<string>): (r: set<string>)
    ensures forall x :: x in r <==> x in q
  {
    set x | x in q
  }

  function Universe(results: seq<Result>, i: nat): set<string>
    requires i < |results|
  {
    AsSet(results[i].report.collected)
  }

  function Ran(results: seq<Result>, i: nat): set<string>
    requires i < |results|
  {
    AsSet(results[i].report.selected)
  }

  /** The tests of the first n shards. */
  function Covered(results: seq<Result>, n: nat): (r: set<string>)
    requires n <= |results|
    ensures forall x :: x in r <==> exists i :: 0 <= i < n && x in Ran(results, i)
  {
    if n == 0 then {} else Covered(results, n - 1) + Ran(results, n - 1)
  }

  ghost predicate ShardsFine(results: seq<Result>, expected: int, n: nat)
    requires n <= |results|
  {
    && (forall i :: 0 <= i < n ==>
          && results[i].summary.passed && results[i].summary.complete
          && results[i].shard.total == expected && 1 <= results[i].shard.index <= expected)
    && (forall i, j :: 0 <= i < j < n ==> results[i].shard != results[j].shard)
    && (forall i :: 0 <= i < n ==> Universe(results, i) == Universe(results, 0))
    && (forall i, j :: 0 <= i < j < n ==> Ran(results, i) !! Ran(results, j))
  }

  /** What the checker accepts: each shard once, each passed, all of the same tests, no test in two
      shards and no test in none. */
  ghost predicate Accepted(results: seq<Result>, expected: int) {
    && |results| == expected > 0
    && ShardsFine(results, expected, expected)
    && Universe(results, 0) != {}
    && Covered(results, expected) == Universe(results, 0)
  }

  function Seen(results: seq<Result>, n: nat): (r: set<Shard>)
    requires n <= |results|
    ensures forall s :: s in r <==> exists i :: 0 <= i < n && results[i].shard == s
  {
    if n == 0 then {} else Seen(results, n - 1) + {results[n - 1].shard}
  }

  /** The checks on one more result, against what has been gathered so far. */
  predicate NextFine(results: seq<Result>, expected: int, n: nat)
    requires n < |results|
  {
    var r := results[n];
    && r.summary.passed && r.summary.complete
    && r.shard !in Seen(results, n)
    && r.shard.total == expected && 1 <= r.shard.index <= expected
    && Universe(results, n) == Universe(results, 0)
    && Covered(results, n) * Ran(results, n) == {}
  }

  lemma CoveredApart(results: seq<Result>, n: nat)
    requires n < |results|
    ensures Covered(results, n) * Ran(results, n) == {}
            <==> forall i :: 0 <= i < n ==> Ran(results, i) !! Ran(results, n)
  {
    var both := Covered(results, n) * Ran(results, n);
    if both == {} {
      forall i | 0 <= i < n ensures Ran(results, i) !! Ran(results, n) {
        forall x | x in Ran(results, i) ensures x !in Ran(results, n) {
          assert x in Covered(results, n) && x !in both;
        }
      }
    }
    if forall i :: 0 <= i < n ==> Ran(results, i) !! Ran(results, n) {
      forall x | x in Covered(results, n) ensures x !in Ran(results, n) {
        var i :| 0 <= i < n && x in Ran(results, i);
      }
    }
  }

  lemma SeenApart(results: seq<Result>, n: nat)
    requires n < |results|
    ensures results[n].shard !in Seen(results, n) <==> forall i :: 0 <= i < n ==> results[i].shard != results[n].shard
  {
  }

  lemma FineGrows(results: seq<Result>, expected: int, n: nat)
    requires n < |results|
    ensures ShardsFine(results, expected, n + 1)
            <==> ShardsFine(results, expected, n) && NextFine(results, expected, n)
  {
    CoveredApart(results, n);
    SeenApart(results, n);
  }

  lemma {:induction false} FinePrefix(results: seq<Result>, expected: int, n: nat, m: nat)
    requires n <= m <= |results| && ShardsFine(results, expected, m)
    ensures ShardsFine(results, expected, n)
    decreases m - n
  {
    if n < m {
      FineGrows(results, expected, m - 1);
      FinePrefix(results, expected, n, m - 1);
    }
  }

  lemma BadShardRejects(results: seq<Result>, expected: int, n: nat)
    requires n < |results| && !NextFine(results, expected, n)
    ensures !ShardsFine(results, expected, |results|)
  {
    if ShardsFine(results, expected, |results|) {
      FinePrefix(results, expected, n + 1, |results|);
      FineGrows(results, expected, n);
    }
  }

  /** The comparisons the checker makes for one result, in its order. */
  method CheckOne(results: seq<Result>, expected: int, n: nat, universe: Option<set<string>>,
                  covered: set<string>, scopes: set<Shard>)
    returns (ok: bool)
    requires n < |results|
    requires universe == if n == 0 then None else Some(Universe(results, 0))
    requires covered == Covered(results, n) && scopes == Seen(results, n)
    ensures ok <==> NextFine(results, expected, n)
  {
    var r := results[n];
    if !r.summary.passed || !r.summary.complete {
      return false;
    }
    if r.shard in scopes || r.shard.total != expected || !(1 <= r.shard.index <= expected) {
      return false;
    }
    var current := AsSet(r.report.collected);
    if universe.Some? && current != universe.value {
      return false;
    }
    var selected := AsSet(r.report.selected);
    return covered * selected == {};
  }

  /** What the checker has gathered from the first n results, all of them fine. */
  ghost predicate Gathered(results: seq<Result>, expected: int, n: nat, universe: Option<set<string>>,
                           covered: set<string>, scopes: set<Shard>)
    requires n <= |results|
  {
    && ShardsFine(results, expected, n)
    && universe == (if n == 0 then None else Some(Universe(results, 0)))
    && covered == Covered(results, n) && scopes == Seen(results, n)
  }

  lemma GatherOne(results: seq<Result>, expected: int, n: nat, universe: Option<set<string>>,
                  covered: set<string>, scopes: set<Shard>)
    requires n < |results| && Gathered(results, expected, n, universe, covered, scopes)
    requires NextFine(results, expected, n)
    ensures Gathered(results, expected, n + 1, Some(Universe(results, n)), covered + Ran(results, n),
                     scopes + {results[n].shard})
  {
    FineGrows(results, expected, n);
  }

  /** One round of the loop. */
  method TakeOne(results: seq<Result>, expected: int, n: nat, universe: Option<set<string>>, covered: set<string>,
                 scopes: set<Shard>)
    returns (ok: bool, universe': Option<set<string>>, covered': set<string>, scopes': set<Shard>)
    requires n < |results| && Gathered(results, expected, n, universe, covered, scopes)
    ensures ok ==> Gathered(results, expected, n + 1, universe', covered', scopes')
    ensures !ok ==> !ShardsFine(results, expected, |results|)
  {
    ok := CheckOne(results, expected, n, universe, covered, scopes);
    universe', covered' := Some(Universe(results, n)), covered + Ran(results, n);
    scopes' := scopes + {results[n].shard};
    if ok {
      GatherOne(results, expected, n, universe, covered, scopes);
    } else {
      BadShardRejects(results, expected, n);
    }
  }

  /** The loop over the results; the first bad one ends it. */
  method GatherAll(results: seq<Result>, expected: int)
    returns (fine: bool, universe: Option<set<string>>, covered: set<string>)
    ensures fine <==> ShardsFine(results, expected, |results|)
    ensures fine ==> universe == (if |results| == 0 then None else Some(Universe(results, 0)))
    ensures fine ==> covered == Covered(results, |results|)
  {
    var scopes: set<Shard> := {};
    universe, covered := None, {};
    var n := 0;
    while n < |results|
      invariant 0 <= n <= |results| && Gathered(results, expected, n, universe, covered, scopes)
    {
      var ok;
      ok, universe, covered, scopes := TakeOne(results, expected, n, universe, covered, scopes);
      if !ok {
        return false, universe, covered;
      }
      n := n + 1;
    }
    fine := true;
  }

  /** The checker; None is a rejection. */
  method Check(results: seq<Result>, expected: int) returns (tests: Option<nat>)
    ensures tests.Some? <==> Accepted(results, expected)
    ensures tests.Some? ==> tests.value == |Universe(results, 0)|
  {
    if |results| != expected {
      return None;
    }
    var fine, universe, covered := GatherAll(results, expected);
    if !fine || universe.None? || universe.value == {} || covered != universe.value {
      return None;
    }
    return Some(|covered|);
  }

  // What acceptance means.

  ghost predicate Honest(r: Result, exitCode: int, timedOut: bool) {
    && (r.summary.complete <==> CompleteReport(r.report))
    && (r.summary.passed <==>
          exitCode == 0 && CompleteReport(r.report) && !timedOut && NoFailure(r.report))
  }

  ghost predicate Summarized(results: seq<Result>) {
    forall i :: 0 <= i < |results| ==> exists code, late :: Honest(results[i], code, late)
  }

  /** The test ran in this report: fully, with no failed phase and one row per phase. */
  ghost predicate RanOnce(r: Report, id: string) {
    && id in r.selected && RanFully(r.rows, id)
    && (forall i :: 0 <= i < |r.rows| && r.rows[i].id == id ==> r.rows[i].outcome != "failed")
    && (forall i, j, phase :: RowAt(r.rows, i, id, phase) && RowAt(r.rows, j, id, phase) ==> i == j)
  }

  /** Soundness: if the checker accepts honest summaries, every collected test ran in exactly one
      shard, once per phase, without failure, and no other shard recorded anything of it. */
  lemma AcceptedMeansEveryTestRan(results: seq<Result>, expected: int, i: nat, id: string)
    requires Accepted(results, expected) && Summarized(results)
    requires i < |results| && id in results[i].report.collected
    ensures exists k :: && 0 <= k < |results| && RanOnce(results[k].report, id)
                        && forall j :: 0 <= j < |results| && j != k ==>
                             && id !in results[j].report.selected
                             && forall n :: 0 <= n < |results[j].report.rows| ==>
                                              results[j].report.rows[n].id != id
  {
    assert Universe(results, i) == Universe(results, 0) && id in Universe(results, i);
    var k :| 0 <= k < expected && id in Ran(results, k);
    forall j | 0 <= j < |results| && j != k
      ensures id !in results[j].report.selected
      ensures forall n :: 0 <= n < |results[j].report.rows| ==> results[j].report.rows[n].id != id
    {
      assert id !in Ran(results, j);
      var code, late :| Honest(results[j], code, late);
    }
    var code, late :| Honest(results[k], code, late);
    assert RanOnce(results[k].report, id);
  }

  /** The items of a list of node ids with their marker. */
  function Ids(items: seq<Item>): seq<string> {
    seq(|items|, i requires 0 <= i < |items| => items[i].nodeId)
  }

  /** Shard k + 1 of the run collected these items and ran what the reporter kept of them. */
  ghost predicate RunsItsSlice(r: Result, items: seq<Item>, index: int, total: int)
    requires 1 <= index <= total <= 8
  {
    && r.shard == Shard(index, total)
    && r.report.collected == Ids(items)
    && r.report.selected == Ids(Kept(items, {}, Allowed(items, Some(Shard(index, total)))))
  }

  ghost predicate SameTests(collections: seq<seq<Item>>) {
    forall i, x :: 0 <= i < |collections| ==> (x in collections[i] <==> x in collections[0])
  }

  /** A node id names one item. */
  ghost predicate IdsAreKeys(items: seq<Item>) {
    forall a, b :: a in items && b in items && a.nodeId == b.nodeId ==> a == b
  }

  lemma IdsHold(items: seq<Item>, id: string)
    ensures id in Ids(items) <==> exists x :: x in items && x.nodeId == id
  {
    if i :| 0 <= i < |items| && Ids(items)[i] == id {
      assert items[i] in items;
    }
    if x :| x in items && x.nodeId == id {
      var i :| 0 <= i < |items| && items[i] == x;
      assert Ids(items)[i] == id;
    }
  }

  ghost predicate HasShard(results: seq<Result>, index: int) {
    exists k :: 0 <= k < |results| && results[k].shard.index == index
  }

  /** One result for each shard, in any order; each collected the same tests and passed. */
  ghost predicate PassingRun(results: seq<Result>, collections: seq<seq<Item>>, total: nat) {
    && 1 <= total <= 8 && |results| == |collections| == total
    && (forall k :: 0 <= k < total ==>
          && results[k].summary.passed && results[k].summary.complete
          && 1 <= results[k].shard.index <= total
          && RunsItsSlice(results[k], collections[k], results[k].shard.index, total))
    && (forall i, j :: 0 <= i < j < |results| ==> results[i].shard != results[j].shard)
    && (forall index :: 1 <= index <= total ==> HasShard(results, index))
    && SameTests(collections) && IdsAreKeys(collections[0]) && collections[0] != []
  }

  ghost function PositionOf(items: seq<Item>, x: Item): (p: nat)
    requires x in items
    ensures p < |SortedFiles(items)| && SortedFiles(items)[p] == FileOf(x.nodeId)
  {
    var i :| 0 <= i < |items| && items[i] == x;
    assert FileOf(items[i].nodeId) in SortedFiles(items);
    var p :| 0 <= p < |SortedFiles(items)| && SortedFiles(items)[p] == FileOf(x.nodeId);
    p
  }

  /** The one shard that runs item x. */
  ghost function ShardOf(items: seq<Item>, x: Item, total: nat): int
    requires x in items && total > 0
  {
    PositionOf(items, x) % total + 1
  }

  lemma RunsExactlyItsOwn(results: seq<Result>, collections: seq<seq<Item>>, total: nat, k: nat, x: Item)
    requires 1 <= total <= 8 && |results| == |collections| == total && k < total
    requires 1 <= results[k].shard.index <= total
    requires RunsItsSlice(results[k], collections[k], results[k].shard.index, total)
    requires SameTests(collections) && IdsAreKeys(collections[0]) && x in collections[0]
    ensures x.nodeId in Ran(results, k)
            <==> results[k].shard.index == ShardOf(collections[0], x, total)
  {
    var mine, shard := collections[k], Shard(results[k].shard.index, total);
    var kept := Kept(mine, {}, Allowed(mine, Some(shard)));
    EachTestHasOneShard(mine, collections[0], shard, x, PositionOf(collections[0], x));
    IdsHold(kept, x.nodeId);
    if y :| y in kept && y.nodeId == x.nodeId {
      KeptHolds(mine, {}, Allowed(mine, Some(shard)), y);
      assert y in collections[0];
    }
  }

  lemma RanIsCollected(results: seq<Result>, collections: seq<seq<Item>>, total: nat, k: nat, id: string)
    returns (x: Item)
    requires 1 <= total <= 8 && |results| == |collections| == total && k < total
    requires 1 <= results[k].shard.index <= total
    requires RunsItsSlice(results[k], collections[k], results[k].shard.index, total)
    requires SameTests(collections) && id in Ran(results, k)
    ensures x in collections[0] && x.nodeId == id
  {
    var mine, shard := collections[k], Shard(results[k].shard.index, total);
    var kept := Kept(mine, {}, Allowed(mine, Some(shard)));
    IdsHold(kept, id);
    x :| x in kept && x.nodeId == id;
    KeptHolds(mine, {}, Allowed(mine, Some(shard)), x);
  }

  lemma CollectionsAgree(results: seq<Result>, collections: seq<seq<Item>>, total: nat, k: nat)
    requires PassingRun(results, collections, total) && k < total
    ensures Universe(results, k) == Universe(results, 0)
  {
    forall id ensures id in Universe(results, k) <==> id in Universe(results, 0) {
      IdsHold(collections[k], id);
      IdsHold(collections[0], id);
    }
  }

  lemma ShardsAreDisjoint(results: seq<Result>, collections: seq<seq<Item>>, total: nat, i: nat, j: nat)
    requires PassingRun(results, collections, total) && i < j < total
    ensures Ran(results, i) !! Ran(results, j)
  {
    forall id | id in Ran(results, i) ensures id !in Ran(results, j) {
      var x := RanIsCollected(results, collections, total, i, id);
      RunsExactlyItsOwn(results, collections, total, i, x);
      RunsExactlyItsOwn(results, collections, total, j, x);
      assert results[i].shard != results[j].shard;
    }
  }

  lemma ShardsCoverAll(results: seq<Result>, collections: seq<seq<Item>>, total: nat)
    requires PassingRun(results, collections, total)
    ensures Covered(results, total) == Universe(results, 0)
  {
    forall id ensures id in Covered(results, total) <==> id in Universe(results, 0) {
      IdsHold(collections[0], id);
      if id in Universe(results, 0) {
        var x :| x in collections[0] && x.nodeId == id;
        assert HasShard(results, ShardOf(collections[0], x, total));
        var k :| 0 <= k < total && results[k].shard.index == ShardOf(collections[0], x, total);
        RunsExactlyItsOwn(results, collections, total, k, x);
        assert id in Ran(results, k);
      }
      if id in Covered(results, total) {
        var k :| 0 <= k < total && id in Ran(results, k);
        var x := RanIsCollected(results, collections, total, k, id);
      }
    }
  }

  /** Completeness: shards that collect the same tests, deselect nothing beyond their slice and
      pass are accepted. */
  lemma PassingShardsAreAccepted(results: seq<Result>, collections: seq<seq<Item>>, total: nat)
    requires PassingRun(results, collections, total)
    ensures Accepted(results, total)
  {
    forall k | 0 <= k < total ensures Universe(results, k) == Universe(results, 0) {
      CollectionsAgree(results, collections, total, k);
    }
    forall i, j | 0 <= i < j < total ensures Ran(results, i) !! Ran(results, j) {
      ShardsAreDisjoint(results, collections, total, i, j);
    }
    ShardsCoverAll(results, collections, total);
    IdsHold(collections[0], collections[0][0].nodeId);
    assert collections[0][0].nodeId in Universe(results, 0);
  }
}
