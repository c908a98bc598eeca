/**
 The conservation law behind every derived figure: the five counts of a successful run are its
 stored rows by status, and add up to the run's total.
 */
module Counting {
  import opened Queries
  import opened Records
  import opened Store
  import opened Checker
  import opened Deletion

  function RowsWith(run: int, st: string): CheckResult -> bool {
    (x: CheckResult) => x.runId == run && x.status == st
  }

  function CountFor(c: Counts, st: string): nat {
    if st == "pass" then c.pass else if st == "fail" then c.fail else if st == "warn" then c.warn
    else if st == "manual" then c.manual else if st == "na" then c.na else 0
  }

  ghost predicate RunCounted(results: seq<CheckResult>, r: CheckRun) {
    if r.status.Success? then
      && r.total == |Where(results, ResultOfRun(r.id))| == TotalOf(r.counts)
      && forall st :: Known(st) ==> CountFor(r.counts, st) == |Where(results, RowsWith(r.id, st))|
    else Where(results, ResultOfRun(r.id)) == []
  }

  /** Every success has its counts in rows; a run that is not one has no rows. */
  ghost predicate Counted(runs: seq<CheckRun>, results: seq<CheckResult>) {
    forall r :: r in runs ==> RunCounted(results, r)
  }

  lemma CountIs(items: seq<ReportItem>, st: string)
    requires Known(st)
    ensures CountFor(CountsOf(items), st) == |Where(items, StatusIs(st))|
  {
  }

  lemma {:induction false} RowsAreItems(id: int, items: seq<ReportItem>, st: string)
    requires forall it :: it in items ==> Known(it.status)
    ensures |Where(StoredRows(id, items), RowsWith(id, st))| == |Where(items, StatusIs(st))|
  {
    if items != [] {
      var n := |items| - 1;
      RowsAreItems(id, items[..n], st);
      assert StoredRows(id, items)[..n] == StoredRows(id, items[..n]);
      var s := items[n].status;
      assert Known(s) && items[n] in items;
      assert Cut(s, STATUS_WIDTH) == s;
    }
  }

  lemma KeptKnown(raw: seq<ReportItem>, disabled: set<string>)
    ensures forall it :: it in Kept(raw, disabled) ==> Known(it.status)
    ensures TotalOf(CountsOf(Kept(raw, disabled))) == |Kept(raw, disabled)|
  {
    NormalTotal(Where(raw, Enabled(disabled)));
  }

  lemma RowsOfNew(results: seq<CheckResult>, id: int, items: seq<ReportItem>, other: int, st: string)
    ensures var after := results + StoredRows(id, items);
      && Where(after, ResultOfRun(other))
           == Where(results, ResultOfRun(other)) + (if other == id then StoredRows(id, items) else [])
      && Where(after, RowsWith(other, st))
           == Where(results, RowsWith(other, st)) + Where(StoredRows(id, items), RowsWith(other, st))
      && (other != id ==> Where(StoredRows(id, items), RowsWith(other, st)) == [])
  {
    var rows := StoredRows(id, items);
    WhereAppend(results, rows, ResultOfRun(other));
    WhereAppend(results, rows, RowsWith(other, st));
    if other == id {
      WhereAll(rows, ResultOfRun(id));
    } else {
      WhereNone(rows, ResultOfRun(other));
      WhereNone(rows, RowsWith(other, st));
    }
  }

  lemma NoRowsNoStatus(results: seq<CheckResult>, id: int, st: string)
    requires Where(results, ResultOfRun(id)) == []
    ensures Where(results, RowsWith(id, st)) == []
  {
  }

  lemma OtherStaysCounted(results: seq<CheckResult>, id: int, items: seq<ReportItem>, r: CheckRun)
    requires RunCounted(results, r) && r.id != id
    ensures RunCounted(results + StoredRows(id, items), r)
  {
    hide Where, StoredRows;
    RowsOfNew(results, id, items, r.id, "");
    forall st | Known(st)
      ensures Where(results + StoredRows(id, items), RowsWith(r.id, st)) == Where(results, RowsWith(r.id, st))
    {
      RowsOfNew(results, id, items, r.id, st);
    }
  }

  lemma NewIsCounted(results: seq<CheckResult>, items: seq<ReportItem>, r: CheckRun)
    requires Where(results, ResultOfRun(r.id)) == []
    requires forall it :: it in items ==> Known(it.status)
    requires r.status.Success? && r.counts == CountsOf(items) && r.total == |items| == TotalOf(r.counts)
    ensures RunCounted(results + StoredRows(r.id, items), r)
  {
    hide Where, CountsOf, Known, CountFor, TotalOf;
    RowsOfNew(results, r.id, items, r.id, "");
    forall st | Known(st)
      ensures CountFor(r.counts, st) == |Where(results + StoredRows(r.id, items), RowsWith(r.id, st))|
    {
      RowsOfNew(results, r.id, items, r.id, st);
      NoRowsNoStatus(results, r.id, st);
      RowsAreItems(r.id, items, st);
      CountIs(items, st);
    }
  }

  /**
   Saving a report keeps the law: afterwards every run's five counts are its stored rows by
   status and add up to the total. The run being finished must not be a success already.
   */
  lemma SaveKeepsCounts(t: Tables, host: int, disabled: set<string>, raw: seq<ReportItem>, run: Option<int>, now: int)
    requires WellFormed(t) && Counted(t.runs, t.results) && FindHost(t.hosts, host).Some?
    requires run.Some? ==> FindRun(t.runs, run.value).Some? && !FindRun(t.runs, run.value).value.status.Success?
    ensures var after := SavedTables(t, host, disabled, raw, run, now);
      Counted(after.runs, after.results)
  {
    var items := Kept(raw, disabled);
    var id := SavedId(t.runs, run);
    var after := SavedTables(t, host, disabled, raw, run, now);
    NoRowsYet(t, run);
    KeptKnown(raw, disabled);
    SavedRunsAre(t.runs, host, run, CountsOf(items), |items|, now);
    hide Where, CountsOf, Kept, RunCounted, SavedRuns, FindRun, Known, TotalOf, WellFormed, SavedId, NoOrphans;
    assert |items| == TotalOf(CountsOf(items));
    forall r | r in after.runs ensures RunCounted(after.results, r) {
      if r.id == id {
        NewIsCounted(t.results, items, r);
      } else {
        OtherStaysCounted(t.results, id, items, r);
      }
    }
  }

  lemma SavedRunsAre(runs: seq<CheckRun>, host: int, run: Option<int>, cnt: Counts, total: nat, now: int)
    requires RunsOrdered(runs) && (run.Some? ==> FindRun(runs, run.value).Some?)
    ensures forall r :: r in SavedRuns(runs, host, run, cnt, total, now) ==>
      if r.id == SavedId(runs, run) then r.status.Success? && r.counts == cnt && r.total == total else r in runs
  {
  }

  lemma NoRowsYet(t: Tables, run: Option<int>)
    requires WellFormed(t) && Counted(t.runs, t.results)
    requires run.Some? ==> FindRun(t.runs, run.value).Some? && !FindRun(t.runs, run.value).value.status.Success?
    ensures Where(t.results, ResultOfRun(SavedId(t.runs, run))) == []
  {
    hide Where, FindRun;
    var id := SavedId(t.runs, run);
    if run.Some? {
      assert RunCounted(t.results, FindRun(t.runs, run.value).value);
    } else {
      hide RunCounted;
      forall x | x in t.results ensures x.runId != id {
        var r :| r in t.runs && r.id == x.runId;
        var i :| 0 <= i < |t.runs| && t.runs[i] == r;
      }
      WhereNone(t.results, ResultOfRun(id));
    }
  }

  /** Closing running runs keeps the law: neither a running nor a failed run has rows. */
  lemma ClosingKeepsCounts(runs: seq<CheckRun>, results: seq<CheckResult>, p: CheckRun -> bool, now: int)
    requires RunsOrdered(runs) && Counted(runs, results)
    requires forall r :: p(r) ==> r.status.Running?
    ensures Counted(ClosedRuns(runs, p, now), results)
  {
    ClosedExactly(runs, [], p, now);
    var after := ClosedRuns(runs, p, now);
    forall r | r in after ensures RunCounted(results, r) {
      var i :| 0 <= i < |after| && after[i] == r;
      assert RunCounted(results, runs[i]);
    }
  }

  /** So does recording a failure, unless the run had been stored as a success before. */
  lemma FailureKeepsCounts(runs: seq<CheckRun>, results: seq<CheckResult>, run: int, now: int)
    requires Counted(runs, results) && FindRun(runs, run).Some? && !FindRun(runs, run).value.status.Success?
    ensures Counted(PutRun(runs, run, Closed(FindRun(runs, run).value, now)), results)
  {
    var r := FindRun(runs, run).value;
    assert RunCounted(results, r);
    var after := PutRun(runs, run, Closed(r, now));
    forall x | x in after ensures RunCounted(results, x) {
      var i :| 0 <= i < |after| && after[i] == x;
      if runs[i].id != run { assert x == runs[i]; }
    }
  }

  /** Deleting runs together with their rows keeps the law for the others. */
  lemma DeletionKeepsCounts(runs: seq<CheckRun>, results: seq<CheckResult>, ids: seq<int>)
    requires Counted(runs, results)
    ensures Counted(Where(runs, RunNotIn(ids)), Where(results, ResultNotIn(ids)))
  {
    WhereMembers(runs, RunNotIn(ids));
    forall r | r in Where(runs, RunNotIn(ids)) ensures RunCounted(Where(results, ResultNotIn(ids)), r) {
      assert RunCounted(results, r);
      WhereWhere(results, ResultNotIn(ids), ResultOfRun(r.id), ResultOfRun(r.id));
      forall st ensures Where(Where(results, ResultNotIn(ids)), RowsWith(r.id, st)) == Where(results, RowsWith(r.id, st)) {
        WhereWhere(results, ResultNotIn(ids), RowsWith(r.id, st), RowsWith(r.id, st));
      }
    }
  }
}
