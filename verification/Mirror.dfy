/**
 The tables mirror a host's history. Whatever order its reports are stored in, the version
 table holds the host's saved log in the order of the saves, and the run and result tables hold
 the same reports in run order; the change rows of a new report are those its history calls
 for. What is proved about histories therefore holds of the database after any events.
 */
module Mirror {
  import opened Queries
  import opened Records
  import opened Store
  import opened VersionLog
  import opened TimeTravel
  import opened ResultChanges
  import opened Toggling
  import opened Trimming
  import opened Backfill
  import opened Checker
  import opened Rebuild

  ghost predicate MirrorsRun(results: seq<CheckResult>, r: CheckRun, report: Report) {
    && r.id == report.stamp.runId
    && r.hostId == report.stamp.hostId
    && Where(results, ResultOfRun(r.id)) == StoredRows(r.id, report.items)
  }

  ghost predicate MirrorsRuns(runs: seq<CheckRun>, results: seq<CheckResult>, live: seq<Report>) {
    |runs| == |live| && forall i :: 0 <= i < |live| ==> MirrorsRun(results, runs[i], live[i])
  }

  /** A report goes before the first one with a larger run id. */
  function Placed(sorted: seq<Report>, r: Report): seq<Report> {
    if sorted == [] || sorted[|sorted| - 1].stamp.runId < r.stamp.runId then sorted + [r]
    else Placed(sorted[..|sorted| - 1], r) + [sorted[|sorted| - 1]]
  }

  /** The reports of a history in run order; the history itself is in the order of the saves. */
  function ByRun(live: seq<Report>): seq<Report> {
    if live == [] then [] else Placed(ByRun(live[..|live| - 1]), live[|live| - 1])
  }

  ghost predicate Mirrors(t: Tables, host: int, live: seq<Report>) {
    && Where(t.versions, VersionOfHost(host)) == SavedLog(live)
    && MirrorsRuns(Where(t.runs, SuccessOf(host)), t.results, ByRun(live))
  }

  /** The run a report is stored under is new, or one of the host that has not been stored yet. */
  ghost predicate Storable(t: Tables, host: int, run: Option<int>) {
    run.Some? ==>
      && FindRun(t.runs, run.value).Some?
      && FindRun(t.runs, run.value).value.hostId == host
      && !FindRun(t.runs, run.value).value.status.Success?
      && Where(t.results, ResultOfRun(run.value)) == []
  }

  // ----- versions -----

  lemma AppendedVersions(table: seq<ItemVersion>, stamp: Stamp, items: seq<ReportItem>, disabled: set<string>,
                         other: int)
    ensures Where(AppendVersions(table, stamp, items, disabled), VersionOfHost(stamp.hostId))
         == Trim(Record(Where(table, VersionOfHost(stamp.hostId)), stamp, items, disabled))
    ensures other != stamp.hostId ==>
      Where(AppendVersions(table, stamp, items, disabled), VersionOfHost(other)) == Where(table, VersionOfHost(other))
  {
    var added := Recorded(Where(table, VersionOfHost(stamp.hostId)), stamp, items, disabled);
    RecordedStamped(Where(table, VersionOfHost(stamp.hostId)), stamp, items, disabled);
    AppendedRows(table, added, stamp.hostId, other);
  }

  lemma AppendedRows(table: seq<ItemVersion>, added: seq<ItemVersion>, host: int, other: int)
    requires AllOf(added, host)
    ensures var all := table + added;
      && Where(DropOldest(all, host, Overflow(all, host)), VersionOfHost(host))
         == Trim(Where(table, VersionOfHost(host)) + added)
      && (other != host ==> Where(DropOldest(all, host, Overflow(all, host)), VersionOfHost(other))
                            == Where(table, VersionOfHost(other)))
  {
    var all := table + added;
    TrimOf(all, host, other);
    WhereAppend(table, added, VersionOfHost(host));
    WhereAll(added, VersionOfHost(host));
    if other != host {
      WhereAppend(table, added, VersionOfHost(other));
      WhereNone(added, VersionOfHost(other));
    }
  }

  // ----- runs -----

  lemma PutSplits(runs: seq<CheckRun>, row: CheckRun, i: nat)
    requires RunsOrdered(runs) && i < |runs| && runs[i].id == row.id
    ensures runs == runs[..i] + [runs[i]] + runs[i + 1..]
    ensures PutRun(runs, row.id, row) == runs[..i] + [row] + runs[i + 1..]
  {
  }

  lemma WhereThree(a: seq<CheckRun>, r: CheckRun, b: seq<CheckRun>, p: CheckRun -> bool)
    ensures Where(a + [r] + b, p) == Where(a, p) + (if p(r) then [r] else []) + Where(b, p)
  {
    WhereAppend(a + [r], b, p);
    WhereAppend(a, [r], p);
    assert [r][..0] == [];
  }

  function PlacedRun(runs: seq<CheckRun>, row: CheckRun): seq<CheckRun> {
    if runs == [] || runs[|runs| - 1].id < row.id then runs + [row]
    else PlacedRun(runs[..|runs| - 1], row) + [runs[|runs| - 1]]
  }

  lemma {:induction false} PlacedBetween(a: seq<CheckRun>, row: CheckRun, b: seq<CheckRun>)
    requires forall r :: r in a ==> r.id < row.id
    requires forall r :: r in b ==> row.id < r.id
    ensures PlacedRun(a + b, row) == a + [row] + b
  {
    if b == [] {
      assert a + b == a && a + [row] + b == a + [row];
    } else {
      var n := |b| - 1;
      assert b == b[..n] + [b[n]] && b[n] in b;
      PlacedBetween(a, row, b[..n]);
      assert (a + b)[..|a + b| - 1] == a + b[..n];
    }
  }

  /** Among the successes of its host, a stored run stands where its id puts it. */
  lemma StoredRunIsPlaced(runs: seq<CheckRun>, host: int, row: CheckRun, i: nat)
    requires RunsOrdered(runs) && row.hostId == host && row.status.Success?
    requires i < |runs| && runs[i].id == row.id && !runs[i].status.Success?
    ensures Where(PutRun(runs, row.id, row), SuccessOf(host)) == PlacedRun(Where(runs, SuccessOf(host)), row)
  {
    hide Where, PutRun, PlacedRun;
    PutSplits(runs, row, i);
    WhereThree(runs[..i], runs[i], runs[i + 1..], SuccessOf(host));
    WhereThree(runs[..i], row, runs[i + 1..], SuccessOf(host));
    var a, b := Where(runs[..i], SuccessOf(host)), Where(runs[i + 1..], SuccessOf(host));
    WhereMembers(runs[..i], SuccessOf(host));
    WhereMembers(runs[i + 1..], SuccessOf(host));
    assert a + [] + b == a + b;
    PlacedBetween(a, row, b);
  }

  lemma {:induction false} ClosedRunElsewhere(runs: seq<CheckRun>, other: int, row: CheckRun)
    requires row.hostId != other
    requires forall r :: r in runs && r.id == row.id ==> r.hostId != other
    ensures Where(PutRun(runs, row.id, row), SuccessOf(other)) == Where(runs, SuccessOf(other))
  {
    if runs != [] {
      var n := |runs| - 1;
      assert runs == runs[..n] + [runs[n]];
      assert PutRun(runs, row.id, row)[..n] == PutRun(runs[..n], row.id, row);
      ClosedRunElsewhere(runs[..n], other, row);
      assert runs[n] in runs;
    }
  }

  lemma {:induction false} FoundRun(runs: seq<CheckRun>, id: int)
    requires RunsOrdered(runs)
    ensures FindRun(runs, id).Some? ==> forall r :: r in runs && r.id == id ==> r == FindRun(runs, id).value
    ensures FindRun(runs, id).Some? <==> exists r :: r in runs && r.id == id
  {
    if runs != [] {
      var n := |runs| - 1;
      assert runs == runs[..n] + [runs[n]];
      FoundRun(runs[..n], id);
      if runs[n].id == id {
        forall r | r in runs && r.id == id ensures r == runs[n] {
          var i :| 0 <= i < |runs| && runs[i] == r;
        }
      }
    }
  }

  /** The run row a save leaves behind. */
  function SavedRow(t: Tables, host: int, run: Option<int>, cnt: Counts, total: nat, now: int): CheckRun
    requires run.Some? ==> FindRun(t.runs, run.value).Some?
  {
    if run.Some? then
      FindRun(t.runs, run.value).value.(status := Success, finishedAt := Some(now), counts := cnt, total := total)
    else CheckRun(NextRunId(t.runs), host, Success, now, Some(now), cnt, total)
  }

  /** Storing a report adds one successful run to its host, in id order, and to no other. */
  lemma SavedSuccesses(t: Tables, host: int, run: Option<int>, cnt: Counts, total: nat, now: int, other: int)
    requires RunsOrdered(t.runs) && Storable(t, host, run)
    ensures var after, row := SavedRuns(t.runs, host, run, cnt, total, now), SavedRow(t, host, run, cnt, total, now);
      && row.id == SavedId(t.runs, run) && row.hostId == host
      && Where(after, SuccessOf(host)) == PlacedRun(Where(t.runs, SuccessOf(host)), row)
      && (other != host ==> Where(after, SuccessOf(other)) == Where(t.runs, SuccessOf(other)))
  {
    hide Where, PlacedRun;
    var row := SavedRow(t, host, run, cnt, total, now);
    if run.Some? {
      var was := FindRun(t.runs, run.value).value;
      FoundRun(t.runs, run.value);
      assert was in t.runs;
      var i :| 0 <= i < |t.runs| && t.runs[i] == was;
      StoredRunIsPlaced(t.runs, host, row, i);
      if other != host { ClosedRunElsewhere(t.runs, other, row); }
    } else {
      NewRunIsLast(t.runs, row, host);
      if other != host {
        WhereAppend(t.runs, [row], SuccessOf(other));
        WhereNone([row], SuccessOf(other));
      }
    }
  }

  lemma NewRunIsLast(runs: seq<CheckRun>, row: CheckRun, host: int)
    requires RunsOrdered(runs) && row.id == NextRunId(runs) && row.hostId == host && row.status.Success?
    ensures Where(runs + [row], SuccessOf(host)) == PlacedRun(Where(runs, SuccessOf(host)), row)
  {
    hide Where;
    var own := Where(runs, SuccessOf(host));
    WhereAppend(runs, [row], SuccessOf(host));
    WhereAll([row], SuccessOf(host));
    WhereMembers(runs, SuccessOf(host));
    forall r | r in own ensures r.id < row.id {
      var i :| 0 <= i < |runs| && runs[i] == r;
    }
    if own != [] { assert own[|own| - 1] in own; }
  }

  lemma PutKeepsIds(runs: seq<CheckRun>, id: int, row: CheckRun)
    requires row.id == id
    ensures var after := PutRun(runs, id, row);
      forall i :: 0 <= i < |runs| ==> after[i].id == runs[i].id
  {
  }

  lemma SameIds(runs: seq<CheckRun>, after: seq<CheckRun>)
    requires |runs| <= |after| && forall i :: 0 <= i < |runs| ==> after[i].id == runs[i].id
    ensures forall r :: r in runs ==> exists q :: q in after && q.id == r.id
  {
  }

  lemma SavedOrder(t: Tables, host: int, run: Option<int>, cnt: Counts, total: nat, now: int)
    requires RunsOrdered(t.runs) && Storable(t, host, run)
    ensures RunsOrdered(SavedRuns(t.runs, host, run, cnt, total, now))
    ensures forall r :: r in t.runs ==>
      exists q :: q in SavedRuns(t.runs, host, run, cnt, total, now) && q.id == r.id
    ensures exists q :: q in SavedRuns(t.runs, host, run, cnt, total, now) && q.id == SavedId(t.runs, run)
  {
    hide Where;
    var after := SavedRuns(t.runs, host, run, cnt, total, now);
    if run.Some? {
      var was := FindRun(t.runs, run.value).value;
      PutKeepsIds(t.runs, run.value,
                  was.(status := Success, finishedAt := Some(now), counts := cnt, total := total));
      SameIds(t.runs, after);
      assert was in t.runs && was.id == run.value;
    } else {
      SameIds(t.runs, after);
      assert after[|t.runs|] in after;
    }
  }

  // ----- results -----

  lemma StoredResults(results: seq<CheckResult>, id: int, items: seq<ReportItem>, other: int)
    requires Where(results, ResultOfRun(id)) == []
    ensures Where(results + StoredRows(id, items), ResultOfRun(other))
         == if other == id then StoredRows(id, items) else Where(results, ResultOfRun(other))
  {
    var rows := StoredRows(id, items);
    assert forall r :: r in rows ==> r.runId == id;
    WhereAppend(results, rows, ResultOfRun(other));
    if other == id { WhereAll(rows, ResultOfRun(id)); } else { WhereNone(rows, ResultOfRun(other)); }
  }

  lemma FreshHasNoResults(t: Tables, host: int, run: Option<int>)
    requires RunsOrdered(t.runs) && NoOrphans(t.runs, t.results) && Storable(t, host, run)
    ensures Where(t.results, ResultOfRun(SavedId(t.runs, run))) == []
    ensures forall r :: r in t.runs && r.status.Success? && r.hostId == host ==> r.id != SavedId(t.runs, run)
  {
    WhereMembers(t.runs, SuccessOf(host));
    if run.None? {
      var id := NextRunId(t.runs);
      forall r | r in t.runs ensures r.id < id {
        var i :| 0 <= i < |t.runs| && t.runs[i] == r;
      }
      WhereNone(t.results, ResultOfRun(id));
    }
  }

  // ----- the window -----

  lemma {:induction false} WindowOf(runs: seq<CheckRun>, results: seq<CheckResult>, live: seq<Report>, limit: nat)
    requires MirrorsRuns(runs, results, live)
    ensures Collect(NewestIds(runs, limit), RowsOfRun(results)) == PastOf(live, limit)
  {
    if live != [] && limit != 0 {
      var n := |live| - 1;
      WindowOf(runs[..n], results, live[..n], limit - 1);
      assert NewestIds(runs, limit) == [runs[n].id] + NewestIds(runs[..n], limit - 1);
      CollectAppend([runs[n].id], NewestIds(runs[..n], limit - 1), RowsOfRun(results));
      assert MirrorsRun(results, runs[n], live[n]);
    }
  }

  lemma {:induction false} PlacedOthers(mine: seq<CheckRun>, row: CheckRun, keep: CheckRun -> bool)
    requires forall r :: r in mine ==> keep(r)
    requires !keep(row)
    ensures Where(PlacedRun(mine, row), keep) == mine
  {
    hide Where;
    if mine == [] || mine[|mine| - 1].id < row.id {
      WhereAppend(mine, [row], keep);
      WhereAll(mine, keep);
      WhereNone([row], keep);
    } else {
      var n := |mine| - 1;
      PlacedOthers(mine[..n], row, keep);
      WhereAppend(PlacedRun(mine[..n], row), [mine[n]], keep);
      WhereAll([mine[n]], keep);
      assert mine == mine[..n] + [mine[n]];
    }
  }

  lemma OthersAre(runs: seq<CheckRun>, mine: seq<CheckRun>, row: CheckRun, host: int)
    requires Where(runs, SuccessOf(host)) == PlacedRun(mine, row)
    requires forall r :: r in mine ==> r.id != row.id
    ensures Where(runs, OtherSuccess(host, row.id)) == mine
  {
    hide PlacedRun;
    var keep := (r: CheckRun) => r.id != row.id;
    WhereWhere(runs, SuccessOf(host), keep, OtherSuccess(host, row.id));
    PlacedOthers(mine, row, keep);
  }

  // ----- one save -----

  function LiveReport(t: Tables, host: int, disabled: set<string>, raw: seq<ReportItem>, run: Option<int>, now: int):
    Report
  {
    Report(Stamp(host, SavedId(t.runs, run), now), Kept(raw, disabled), disabled)
  }

  /** Rows stored for one run leave the mirrored runs alone. */
  lemma RunsStillMirror(results: seq<CheckResult>, mine: seq<CheckRun>, sorted: seq<Report>, id: int,
                        items: seq<ReportItem>)
    requires MirrorsRuns(mine, results, sorted) && Where(results, ResultOfRun(id)) == []
    requires forall r :: r in mine ==> r.id != id
    ensures MirrorsRuns(mine, results + StoredRows(id, items), sorted)
    ensures Where(results + StoredRows(id, items), ResultOfRun(id)) == StoredRows(id, items)
  {
    var after := results + StoredRows(id, items);
    StoredResults(results, id, items, id);
    forall i | 0 <= i < |sorted| ensures MirrorsRun(after, mine[i], sorted[i]) {
      assert mine[i] in mine && MirrorsRun(results, mine[i], sorted[i]);
      StoredResults(results, id, items, mine[i].id);
    }
  }

  lemma {:induction false} PlacedMirrors(results: seq<CheckResult>, mine: seq<CheckRun>, sorted: seq<Report>,
                                         row: CheckRun, report: Report)
    requires MirrorsRuns(mine, results, sorted) && MirrorsRun(results, row, report)
    ensures MirrorsRuns(PlacedRun(mine, row), results, Placed(sorted, report))
  {
    if mine != [] {
      var n := |mine| - 1;
      assert MirrorsRun(results, mine[n], sorted[n]);
      if mine[n].id >= row.id { PlacedMirrors(results, mine[..n], sorted[..n], row, report); }
    }
  }

  /** A save extends the mirrored history by the report it stored, late or not. */
  lemma SaveMirrors(t: Tables, host: int, disabled: set<string>, raw: seq<ReportItem>, run: Option<int>, now: int,
                    live: seq<Report>)
    requires WellFormed(t) && Mirrors(t, host, live) && Storable(t, host, run)
    requires FindHost(t.hosts, host).Some?
    ensures var report := LiveReport(t, host, disabled, raw, run, now);
      var after := SavedTables(t, host, disabled, raw, run, now);
      && Mirrors(after, host, live + [report])
      && after.changes == t.changes
           + Changes(PastOf(ByRun(live), HISTORY_RUNS), report.stamp, report.items, disabled)
  {
    hide Where, PlacedRun, Placed, CountsOf, FindRun, FindHost, Kept, Changes, AppendVersions, RecentRows, StoredRows;
    hide RunsOrdered, HostsOrdered, NoOrphans, SavedRuns, SavedRow, Trim, Recovered;
    var report := LiveReport(t, host, disabled, raw, run, now);
    var items := report.items;
    var runs := SavedRuns(t.runs, host, run, CountsOf(items), |items|, now);
    var results := t.results + StoredRows(report.stamp.runId, items);
    var row := SavedRow(t, host, run, CountsOf(items), |items|, now);
    var mine := Where(t.runs, SuccessOf(host));
    SavedSuccesses(t, host, run, CountsOf(items), |items|, now, host);
    FreshHasNoResults(t, host, run);
    MineAreOthers(t, host, row.id);
    RunsStillMirror(t.results, mine, ByRun(live), row.id, items);
    PlacedMirrors(results, mine, ByRun(live), row, report);
    OthersAre(runs, mine, row, host);
    RecentAre(runs, results, host, row.id, mine, ByRun(live));
    AppendedVersions(t.versions, report.stamp, items, disabled, host);
    assert (live + [report])[..|live|] == live;
  }

  lemma MineAreOthers(t: Tables, host: int, id: int)
    requires forall r :: r in t.runs && r.status.Success? && r.hostId == host ==> r.id != id
    ensures forall r :: r in Where(t.runs, SuccessOf(host)) ==> r.id != id
  {
    WhereMembers(t.runs, SuccessOf(host));
  }

  lemma RecentAre(runs: seq<CheckRun>, results: seq<CheckResult>, host: int, id: int, mine: seq<CheckRun>,
                  sorted: seq<Report>)
    requires Where(runs, OtherSuccess(host, id)) == mine && MirrorsRuns(mine, results, sorted)
    ensures RecentRows(runs, results, host, id) == PastOf(sorted, HISTORY_RUNS)
  {
    hide Where, NewestIds, PastOf, MirrorsRuns;
    WindowOf(mine, results, sorted, HISTORY_RUNS);
  }

  /** A save leaves every other host's mirrored history alone. */
  lemma SaveElsewhere(t: Tables, host: int, disabled: set<string>, raw: seq<ReportItem>, run: Option<int>, now: int,
                      other: int, live: seq<Report>)
    requires WellFormed(t) && Mirrors(t, other, live) && Storable(t, host, run) && other != host
    requires FindHost(t.hosts, host).Some?
    ensures Mirrors(SavedTables(t, host, disabled, raw, run, now), other, live)
  {
    var report := LiveReport(t, host, disabled, raw, run, now);
    var items := report.items;
    var mine := Where(t.runs, SuccessOf(other));
    SavedSuccesses(t, host, run, CountsOf(items), |items|, now, other);
    FreshHasNoResults(t, host, run);
    AppendedVersions(t.versions, report.stamp, items, disabled, other);
    FreshForOthers(t, host, run, other);
    RunsStillMirror(t.results, mine, ByRun(live), report.stamp.runId, items);
  }

  lemma FreshForOthers(t: Tables, host: int, run: Option<int>, other: int)
    requires RunsOrdered(t.runs) && Storable(t, host, run) && other != host
    ensures forall r :: r in Where(t.runs, SuccessOf(other)) ==> r.id != SavedId(t.runs, run)
  {
    WhereMembers(t.runs, SuccessOf(other));
    forall r | r in Where(t.runs, SuccessOf(other)) ensures r.id != SavedId(t.runs, run) {
      if run.Some? {
        FoundRun(t.runs, run.value);
      } else {
        var i :| 0 <= i < |t.runs| && t.runs[i] == r;
      }
    }
  }

  lemma SaveWellFormed(t: Tables, host: int, disabled: set<string>, raw: seq<ReportItem>, run: Option<int>, now: int)
    requires WellFormed(t) && Storable(t, host, run) && FindHost(t.hosts, host).Some?
    ensures WellFormed(SavedTables(t, host, disabled, raw, run, now))
  {
    var items := Kept(raw, disabled);
    SavedOrder(t, host, run, CountsOf(items), |items|, now);
    var after := SavedTables(t, host, disabled, raw, run, now);
    forall x | x in after.results ensures exists r :: r in after.runs && r.id == x.runId {
      if x in t.results {
        var r :| r in t.runs && r.id == x.runId;
      } else {
        assert x in StoredRows(SavedId(t.runs, run), items);
      }
    }
    PutHostOrdered(t.hosts, host, Recovered(FindHost(t.hosts, host).value, now));
  }

  lemma PutHostOrdered(hosts: seq<Host>, id: int, row: Host)
    requires HostsOrdered(hosts) && row.id == id
    ensures HostsOrdered(PutHost(hosts, id, row))
  {
  }

  // ----- backfill -----

  lemma {:induction false} SavedWithoutTrim(live: seq<Report>)
    requires |LogOf(live)| <= 20000
    ensures SavedLog(live) == LogOf(live)
  {
    if live != [] {
      var n := |live| - 1;
      LogGrows(live, n);
      SavedWithoutTrim(live[..n]);
    }
  }

  /** The saves happened in run order. */
  predicate InRunOrder(live: seq<Report>) {
    forall i, j :: 0 <= i < j < |live| ==> live[i].stamp.runId < live[j].stamp.runId
  }

  predicate DistinctRuns(live: seq<Report>) {
    forall i, j :: 0 <= i < j < |live| ==> live[i].stamp.runId != live[j].stamp.runId
  }

  lemma {:induction false} PlacedMembers(sorted: seq<Report>, r: Report)
    ensures multiset(Placed(sorted, r)) == multiset(sorted) + multiset{r}
  {
    if !(sorted == [] || sorted[|sorted| - 1].stamp.runId < r.stamp.runId) {
      var n := |sorted| - 1;
      assert sorted == sorted[..n] + [sorted[n]];
      PlacedMembers(sorted[..n], r);
    }
  }

  predicate Unplaced(sorted: seq<Report>, r: Report) {
    forall i :: 0 <= i < |sorted| ==> sorted[i].stamp.runId != r.stamp.runId
  }

  lemma {:induction false} PlacedOrder(sorted: seq<Report>, r: Report)
    requires InRunOrder(sorted) && Unplaced(sorted, r)
    ensures InRunOrder(Placed(sorted, r))
    ensures forall i :: 0 <= i < |Placed(sorted, r)| ==>
      Placed(sorted, r)[i] == r || (sorted != [] && Placed(sorted, r)[i].stamp.runId <= sorted[|sorted| - 1].stamp.runId)
  {
    if !(sorted == [] || sorted[|sorted| - 1].stamp.runId < r.stamp.runId) {
      PlacedOrder(sorted[..|sorted| - 1], r);
    }
  }

  /** Run order holds the same reports, sorted; it is the order of the saves exactly when those were in run order. */
  lemma {:induction false} ByRunIs(live: seq<Report>)
    requires DistinctRuns(live)
    ensures multiset(ByRun(live)) == multiset(live) && InRunOrder(ByRun(live))
    ensures ByRun(live) == live <==> InRunOrder(live)
  {
    if live != [] {
      var n := |live| - 1;
      var r, before := live[n], live[..n];
      assert live == before + [r];
      ByRunIs(before);
      PlacedMembers(ByRun(before), r);
      NotYetPlaced(before, r);
      PlacedOrder(ByRun(before), r);
      if InRunOrder(live) {
        assert InRunOrder(before);
        if n > 0 { assert live[n - 1].stamp.runId < live[n].stamp.runId; }
      }
    }
  }

  lemma NotYetPlaced(before: seq<Report>, r: Report)
    requires DistinctRuns(before + [r]) && multiset(ByRun(before)) == multiset(before)
    ensures Unplaced(ByRun(before), r)
  {
    hide ByRun;
    var sorted, all := ByRun(before), before + [r];
    forall k | 0 <= k < |sorted| ensures sorted[k].stamp.runId != r.stamp.runId {
      assert sorted[k] in multiset(before);
      var i :| 0 <= i < |before| && before[i] == sorted[k];
      assert all[i].stamp.runId != all[|before|].stamp.runId;
    }
  }

  /** Backfill replays a host's reports in run order, whatever order they were saved in. */
  lemma BackfillReplaysRunOrder(t: Tables, host: int, live: seq<Report>)
    requires Mirrors(t, host, live)
    requires forall r :: r in ByRun(live) ==> r.disabled == {}
    ensures Timeless(LogOf(BackReports(t.runs, t.results, host))) == Timeless(LogOf(ByRun(live)))
  {
    MirroredBackfill(t, host, live);
    BackfillIsLive(BackReports(t.runs, t.results, host), ByRun(live));
  }

  /**
   Backfill equals live recording. From tables that mirror a history without switch-offs and
   without trimming, saved in run order, replaying the stored rows rebuilds the host's version
   rows, time stamps aside.
   */
  lemma BackfillEqualsLive(t: Tables, host: int, live: seq<Report>)
    requires Mirrors(t, host, live) && InRunOrder(live)
    requires forall r :: r in live ==> r.disabled == {}
    requires |LogOf(live)| <= 20000
    ensures Timeless(LogOf(BackReports(t.runs, t.results, host))) == Timeless(Where(t.versions, VersionOfHost(host)))
  {
    ByRunIs(live);
    BackfillReplaysRunOrder(t, host, live);
    SavedWithoutTrim(live);
  }

  lemma MirroredBackfill(t: Tables, host: int, live: seq<Report>)
    requires Mirrors(t, host, live)
    ensures Backfills(BackReports(t.runs, t.results, host), ByRun(live))
  {
  }

  /**
   With switch-offs, the backfilled view is the last non-empty report in run order; when the
   saves were in run order and nothing was trimmed, the version table says the same of that
   report's items.
   */
  lemma BackfilledTablesView(t: Tables, host: int, live: seq<Report>, k: nat)
    requires Mirrors(t, host, live) && DistinctRuns(live) && LastNonEmpty(ByRun(live), k)
    requires forall r :: r in live ==> Distinct(r.items)
    ensures var r := ByRun(live)[k - 1];
      && View(LogOf(BackReports(t.runs, t.results, host))) == ReportView(r.items)
      && (InRunOrder(live) && |LogOf(live)| <= 20000 ==>
            forall iid :: iid in ReportedIds(r.items) ==>
              && iid in View(Where(t.versions, VersionOfHost(host)))
              && View(Where(t.versions, VersionOfHost(host)))[iid] == ReportView(r.items)[iid])
  {
    ByRunIs(live);
    forall r | r in ByRun(live) ensures Distinct(r.items) { assert r in multiset(live); }
    MirroredBackfill(t, host, live);
    BackfilledView(BackReports(t.runs, t.results, host), ByRun(live), k);
    if InRunOrder(live) && |LogOf(live)| <= 20000 { SavedWithoutTrim(live); }
  }

  /**
   Run order is needed. When a run is saved after a later one of its host, the live log ends on
   the late report and backfill on the other: for any two reports that show different things
   the rebuilt view is not the live one.
   */
  lemma LateSaveSwapsViews(early: Report, late: Report)
    requires early.stamp.runId > late.stamp.runId && early.disabled == late.disabled == {}
    requires early.items != [] && late.items != [] && Distinct(early.items) && Distinct(late.items)
    ensures View(LogOf([early, late])) == ReportView(late.items)
    ensures View(LogOf(ByRun([early, late]))) == ReportView(early.items)
  {
    hide LogOf, View, ReportView, Distinct;
    var live := [early, late];
    TwoByRun(early, late);
    ViewAt(live, 2);
    ViewAt([late, early], 2);
    assert live[..2] == live && [late, early][..2] == [late, early];
  }

  lemma TwoByRun(early: Report, late: Report)
    requires early.stamp.runId > late.stamp.runId
    ensures ByRun([early, late]) == [late, early]
  {
    assert [early, late][..1] == [early] && [early][..0] == [];
    assert ByRun([early]) == [early];
    assert Placed([early], late) == Placed([early][..0], late) + [early];
  }
}
