/**
 The comparison page of a run (`run_diff` of app/routes/runs.py): which run it compares with,
 and when that is the run the stored change rows were compared with.
 */
module OnDemand {
  import opened Queries
  import opened Records
  import opened Store
  import opened VersionLog
  import opened TimeTravel
  import opened ResultChanges
  import opened Agreement
  import opened Checker
  import opened Mirror

  function SuccessBefore(host: int, id: int): CheckRun -> bool {
    (r: CheckRun) => r.hostId == host && r.status.Success? && r.id < id
  }

  function Newest(runs: seq<CheckRun>): Option<CheckRun> { if runs == [] then None else Some(runs[|runs| - 1]) }

  /** The page's previous run: the host's newest success with a smaller id. */
  function PreviousRun(runs: seq<CheckRun>, host: int, id: int): Option<CheckRun> {
    Newest(Where(runs, SuccessBefore(host, id)))
  }

  function RowsOf(results: seq<CheckResult>, id: int): seq<CheckResult> { Where(results, ResultOfRun(id)) }

  /** The run a page has to compare with, or none: said with the rows of the runs table alone. */
  ghost predicate IsPrevious(runs: seq<CheckRun>, run: CheckRun, prev: Option<CheckRun>) {
    && (prev.None? ==> forall r :: r in runs ==> !(r.hostId == run.hostId && r.status.Success? && r.id < run.id))
    && (prev.Some? ==>
          && prev.value in runs && prev.value.hostId == run.hostId && prev.value.status.Success?
          && prev.value.id < run.id
          && forall r :: r in runs && r.hostId == run.hostId && r.status.Success? && r.id < run.id ==>
               r.id <= prev.value.id)
  }

  lemma PreviousIs(runs: seq<CheckRun>, run: CheckRun)
    requires RunsOrdered(runs)
    ensures IsPrevious(runs, run, PreviousRun(runs, run.hostId, run.id))
  {
    hide Where;
    var earlier := Where(runs, SuccessBefore(run.hostId, run.id));
    WhereMembers(runs, SuccessBefore(run.hostId, run.id));
    SelectedOrdered(runs, SuccessBefore(run.hostId, run.id));
    if earlier != [] {
      assert earlier[|earlier| - 1] in earlier;
      forall r | r in earlier ensures r.id <= earlier[|earlier| - 1].id {
        var i :| 0 <= i < |earlier| && earlier[i] == r;
      }
    }
  }

  /** `run_diff`: no page without the run, empty lists without a previous one. */
  method RunDiff(db: Database, runId: int)
    returns (found: bool, prev: Option<CheckRun>, changed: seq<(CheckResult, CheckResult)>, added: seq<CheckResult>,
             removed: seq<CheckResult>)
    ensures found <==> FindRun(db.runs, runId).Some?
    ensures found ==> prev == PreviousRun(db.runs, FindRun(db.runs, runId).value.hostId, runId)
    ensures found && prev.Some? ==>
      var cur, was := RowsOf(db.results, runId), RowsOf(db.results, prev.value.id);
      && changed == ChangedPairs(cur, was, RowItems(cur))
      && added == AddedRows(cur, was, RowItems(cur))
      && removed == RemovedRows(cur, was, RowItems(was))
    ensures !found || prev.None? ==> changed == [] && added == [] && removed == []
    ensures found <==> exists r :: r in db.runs && r.id == runId
    ensures RunsOrdered(db.runs) ==> forall run :: run in db.runs && run.id == runId ==> IsPrevious(db.runs, run, prev)
    ensures found && prev.Some? ==>
      IsComparison(RowsOf(db.results, runId), RowsOf(db.results, prev.value.id), changed, added, removed)
  {
    hide Where, FindRun, IsPrevious, IsComparison;
    RunIsFound(db.runs, runId);
    if RunsOrdered(db.runs) {
      forall run | run in db.runs && run.id == runId
        ensures IsPrevious(db.runs, run, PreviousRun(db.runs, run.hostId, run.id)) && FindRun(db.runs, runId) == Some(run)
      {
        PreviousIs(db.runs, run);
        OnlyRow(db.runs, run);
      }
    }
    changed, added, removed, prev := [], [], [], None;
    var run := FindRun(db.runs, runId);
    found := run.Some?;
    if !found {
      return;
    }
    FoundId(db.runs, runId);
    prev := PreviousRun(db.runs, run.value.hostId, run.value.id);
    if prev.Some? {
      changed, added, removed := Compare(RowsOf(db.results, run.value.id), RowsOf(db.results, prev.value.id));
    }
  }

  lemma FoundId(runs: seq<CheckRun>, id: int)
    ensures FindRun(runs, id).Some? ==> FindRun(runs, id).value.id == id
  {
  }

  lemma {:induction false} RunIsFound(runs: seq<CheckRun>, id: int)
    ensures FindRun(runs, id).Some? <==> exists r :: r in runs && r.id == id
  {
    if runs != [] {
      RunIsFound(runs[..|runs| - 1], id);
      assert runs == runs[..|runs| - 1] + [runs[|runs| - 1]];
    }
  }

  lemma OnlyRow(runs: seq<CheckRun>, run: CheckRun)
    requires RunsOrdered(runs) && run in runs
    ensures FindRun(runs, run.id) == Some(run)
  {
    hide FindRun;
    RunIsFound(runs, run.id);
    var found := FindRun(runs, run.id).value;
    var i :| 0 <= i < |runs| && runs[i] == run;
    var j :| 0 <= j < |runs| && runs[j] == found;
  }

  // ----- the two selections -----

  /** The run the stored change rows were compared with: the host's newest other success. */
  function ComparedRun(runs: seq<CheckRun>, host: int, id: int): Option<CheckRun> {
    Newest(Where(runs, OtherSuccess(host, id)))
  }

  /** Both pick the same run exactly when no success of the host has a larger id. */
  lemma SelectionsAgree(runs: seq<CheckRun>, host: int, id: int)
    requires RunsOrdered(runs)
    ensures ComparedRun(runs, host, id) == PreviousRun(runs, host, id)
      <==> forall r :: r in runs && r.hostId == host && r.status.Success? ==> r.id <= id
  {
    hide Where;
    var others, before := Where(runs, OtherSuccess(host, id)), Where(runs, SuccessBefore(host, id));
    WhereMembers(runs, OtherSuccess(host, id));
    WhereMembers(runs, SuccessBefore(host, id));
    if r :| r in runs && r.hostId == host && r.status.Success? && r.id > id {
      assert r in others;
      SelectedOrdered(runs, OtherSuccess(host, id));
      var k :| 0 <= k < |others| && others[k] == r;
      assert others[|others| - 1].id >= r.id;
      if before != [] { assert before[|before| - 1] in before; }
    } else {
      WhereSame(runs, OtherSuccess(host, id), SuccessBefore(host, id));
    }
  }

  lemma BeforeAmongSuccesses(runs: seq<CheckRun>, host: int, id: int)
    ensures Where(runs, SuccessBefore(host, id)) == Where(Where(runs, SuccessOf(host)), SmallerThan(id))
  {
    WhereWhere(runs, SuccessOf(host), SmallerThan(id), SuccessBefore(host, id));
  }

  function SmallerThan(id: int): CheckRun -> bool { (r: CheckRun) => r.id < id }

  lemma {:induction false} NewestOfAppended(mine: seq<CheckRun>, last: CheckRun, id: int)
    ensures Newest(Where(mine + [last], SmallerThan(id)))
         == if last.id < id then Some(last) else Newest(Where(mine, SmallerThan(id)))
  {
    hide Where;
    WhereAppend(mine, [last], SmallerThan(id));
    OneSelected(last, SmallerThan(id));
  }

  lemma NewestBelow(mine: seq<CheckRun>, id: int)
    ensures var r := Newest(Where(mine, SmallerThan(id))); r.Some? ==> r.value in mine && r.value.id < id
  {
    hide Where;
    WhereMembers(mine, SmallerThan(id));
    var selected := Where(mine, SmallerThan(id));
    if selected != [] { assert selected[|selected| - 1] in selected; }
  }

  /** Placing a run among others moves the newest one below `id` only if it fits in between. */
  lemma {:induction false} PlacedNewest(mine: seq<CheckRun>, row: CheckRun, id: int)
    requires RunsOrdered(mine) && forall r :: r in mine ==> r.id != row.id
    ensures var was := Newest(Where(mine, SmallerThan(id)));
      Newest(Where(PlacedRun(mine, row), SmallerThan(id)))
      == if row.id < id && (was.None? || was.value.id < row.id) then Some(row) else was
  {
    hide Where, Newest;
    NewestBelow(mine, id);
    if mine == [] || mine[|mine| - 1].id < row.id {
      NewestOfAppended(mine, row, id);
      forall r | r in mine ensures r.id < row.id { var i :| 0 <= i < |mine| && mine[i] == r; }
    } else {
      var n := |mine| - 1;
      assert mine == mine[..n] + [mine[n]] && mine[n] in mine;
      PlacedNewest(mine[..n], row, id);
      NewestOfAppended(PlacedRun(mine[..n], row), mine[n], id);
      NewestOfAppended(mine[..n], mine[n], id);
    }
  }

  lemma OneSelected(r: CheckRun, p: CheckRun -> bool)
    ensures Where([r], p) == if p(r) then [r] else []
  {
    assert [r][..0] == [];
  }

  /**
   A later save moves the page of an earlier run to another previous run exactly when the run
   it stores lies between the two. Saves in run order therefore never move it.
   */
  lemma LaterSaveKeepsPrevious(t: Tables, host: int, run: Option<int>, cnt: Counts, total: nat, now: int, id: int)
    requires RunsOrdered(t.runs) && NoOrphans(t.runs, t.results) && Storable(t, host, run)
    ensures var after, row := SavedRuns(t.runs, host, run, cnt, total, now), SavedRow(t, host, run, cnt, total, now);
      var was := PreviousRun(t.runs, host, id);
      PreviousRun(after, host, id) == if row.id < id && (was.None? || was.value.id < row.id) then Some(row) else was
  {
    hide Where, PlacedRun;
    var mine, row := Where(t.runs, SuccessOf(host)), SavedRow(t, host, run, cnt, total, now);
    SavedSuccesses(t, host, run, cnt, total, now, host);
    BeforeAmongSuccesses(t.runs, host, id);
    BeforeAmongSuccesses(SavedRuns(t.runs, host, run, cnt, total, now), host, id);
    SelectedOrdered(t.runs, SuccessOf(host));
    WhereMembers(t.runs, SuccessOf(host));
    FreshHasNoResults(t, host, run);
    PlacedNewest(mine, row, id);
  }

  // ----- stored rows and the page -----

  lemma {:induction false} NewestFirst(runs: seq<CheckRun>, limit: nat)
    requires limit > 0
    ensures NewestIds(runs, limit) == [] <==> runs == []
    ensures runs != [] ==> NewestIds(runs, limit)[0] == runs[|runs| - 1].id
  {
  }

  lemma WindowHead(runs: seq<CheckRun>, results: seq<CheckResult>, host: int, id: int)
    ensures var past, prev := RecentRows(runs, results, host, id), ComparedRun(runs, host, id);
      && (past == [] <==> prev.None?)
      && (prev.Some? ==> past[0] == RowsOf(results, prev.value.id))
  {
    hide Where;
    NewestFirst(Where(runs, OtherSuccess(host, id)), HISTORY_RUNS);
  }

  /** The change rows a save writes. */
  function WrittenChanges(t: Tables, host: int, disabled: set<string>, raw: seq<ReportItem>, run: Option<int>, now: int):
    seq<ResultChange>
    requires FindHost(t.hosts, host).Some? && (run.Some? ==> FindRun(t.runs, run.value).Some?)
  {
    SavedTables(t, host, disabled, raw, run, now).changes[|t.changes|..]
  }

  /**
   For one item: the change rows the save writes are the differences that the page of the saved
   run shows, minus changed and removed items now switched off and minus added ones seen in the
   window, provided both runs leave something to compare; without a previous run there is
   neither a row nor a difference.
   */
  ghost predicate ItemAgrees(t: Tables, host: int, disabled: set<string>, raw: seq<ReportItem>, run: Option<int>,
                             now: int, iid: string)
    requires FindHost(t.hosts, host).Some? && (run.Some? ==> FindRun(t.runs, run.value).Some?)
  {
    var after, id := SavedTables(t, host, disabled, raw, run, now), SavedId(t.runs, run);
    var prev, items := PreviousRun(after.runs, host, id), Kept(raw, disabled);
    Transitions(Where(WrittenChanges(t, host, disabled, raw, run, now), ChangeFor(iid)))
    == if items == [] || prev.None? || Where(RowsOf(after.results, prev.value.id), Comparable(disabled)) == [] then []
       else Reported(DifferenceAt(RowsOf(after.results, id), RowsOf(after.results, prev.value.id), iid), iid, disabled,
                     SeenIn(RecentRows(after.runs, after.results, host, id)))
  }

  lemma WrittenAt(t: Tables, host: int, disabled: set<string>, raw: seq<ReportItem>, run: Option<int>, now: int,
                  iid: string)
    requires WellFormed(t) && Storable(t, host, run) && FindHost(t.hosts, host).Some? && Distinct(Kept(raw, disabled))
    requires forall r :: r in t.runs && r.hostId == host && r.status.Success? ==> r.id < SavedId(t.runs, run)
    ensures ItemAgrees(t, host, disabled, raw, run, now, iid)
  {
    hide Where, Kept, CountsOf, FindRun, FindHost, RecentRows, Changes, StoredRows, AppendVersions, Transitions;
    hide PreviousRun;
    hide ComparedRun, Reported, SeenIn, DifferenceAt;
    var after, id := SavedTables(t, host, disabled, raw, run, now), SavedId(t.runs, run);
    var items := Kept(raw, disabled);
    var past := RecentRows(after.runs, after.results, host, id);
    assert WrittenChanges(t, host, disabled, raw, run, now) == Changes(past, Stamp(host, id, now), items, disabled);
    ChangesMatchComparison(past, Stamp(host, id, now), items, disabled, iid);
    WindowHead(after.runs, after.results, host, id);
    FreshHasNoResults(t, host, run);
    StoredResults(t.results, id, items, id);
    NoneLarger(t, host, run, CountsOf(items), |items|, now);
    SelectionsAgree(after.runs, host, id);
  }

  // ----- stored rows and the lists of the page -----

  /** A change row with this transition was written. */
  ghost predicate Written(rows: seq<ResultChange>, iid: string, before: string, after: string) {
    exists c :: c in rows && c.item == iid && c.before == before && c.after == after
  }

  /** The page lists this transition, and nothing suppresses it. */
  ghost predicate OnPage(changed: seq<(CheckResult, CheckResult)>, added: seq<CheckResult>, removed: seq<CheckResult>,
                         disabled: set<string>, seen: set<string>, iid: string, before: string, after: string)
  {
    || (exists r, p :: (r, p) in changed && r.item == iid && iid !in disabled && before == p.status && after == r.status)
    || (exists p :: p in removed && p.item == iid && iid !in disabled && before == p.status && after == "")
    || (exists r :: r in added && r.item == iid && iid !in seen && before == "" && after == r.status)
  }

  /**
   The change rows a save writes and the lists of the page of its run, right after: the rows are
   the listed transitions, minus changed and removed items now switched off and minus added ones
   seen in the window, and no item has two rows. Nothing is written when the run has no previous
   one, keeps no item, or has a previous one of which nothing is left switched on.
   */
  ghost predicate PageAgrees(t: Tables, host: int, disabled: set<string>, raw: seq<ReportItem>, run: Option<int>, now: int,
                             changed: seq<(CheckResult, CheckResult)>, added: seq<CheckResult>, removed: seq<CheckResult>)
    requires FindHost(t.hosts, host).Some? && (run.Some? ==> FindRun(t.runs, run.value).Some?)
  {
    var after, id := SavedTables(t, host, disabled, raw, run, now), SavedId(t.runs, run);
    var prev, rows := PreviousRun(after.runs, host, id), WrittenChanges(t, host, disabled, raw, run, now);
    && (forall i, j :: 0 <= i < j < |rows| ==> rows[i].item != rows[j].item)
    && (prev.None? ==> rows == [])
    && (prev.Some? && IsComparison(RowsOf(after.results, id), RowsOf(after.results, prev.value.id), changed, added, removed)
        ==>
          var comparable := Kept(raw, disabled) != []
                            && exists x :: x in RowsOf(after.results, prev.value.id) && x.item !in disabled;
          var seen := SeenIn(RecentRows(after.runs, after.results, host, id));
          forall iid, b, a :: Written(rows, iid, b, a) <==>
            comparable && OnPage(changed, added, removed, disabled, seen, iid, b, a))
  }

  lemma {:induction false} TransitionsOf(rows: seq<ResultChange>)
    ensures |Transitions(rows)| == |rows|
    ensures forall tr :: tr in Transitions(rows) <==> exists c :: c in rows && Transition(c) == tr
  {
    if rows != [] {
      TransitionsOf(rows[..|rows| - 1]);
      assert rows == rows[..|rows| - 1] + [rows[|rows| - 1]];
    }
  }

  lemma TransitionsAre(rows: seq<ResultChange>, iid: string, before: string, after: string)
    ensures (iid, before, after) in Transitions(Where(rows, ChangeFor(iid))) <==> Written(rows, iid, before, after)
    ensures |Transitions(Where(rows, ChangeFor(iid)))| == |Where(rows, ChangeFor(iid))|
  {
    TransitionsOf(Where(rows, ChangeFor(iid)));
    WhereMembers(rows, ChangeFor(iid));
    if Written(rows, iid, before, after) {
      var c :| c in rows && c.item == iid && c.before == before && c.after == after;
      assert Transition(c) == (iid, before, after) && c in Where(rows, ChangeFor(iid));
    }
  }

  /** The difference found for an item, on the lists of the page. */
  lemma DifferenceOnPage(cur: seq<CheckResult>, prev: seq<CheckResult>, changed: seq<(CheckResult, CheckResult)>,
                         added: seq<CheckResult>, removed: seq<CheckResult>, disabled: set<string>, seen: set<string>,
                         iid: string, before: string, after: string)
    requires IsComparison(cur, prev, changed, added, removed)
    ensures (iid, before, after) in Reported(DifferenceAt(cur, prev, iid), iid, disabled, seen)
      <==> OnPage(changed, added, removed, disabled, seen, iid, before, after)
  {
    hide RowOf, LastOfItem, AppearsBefore;
    forall r: CheckResult | r.item == iid ensures RowOf(cur, iid) == Some(r) <==> LastOfItem(cur, r) { RowOfIs(cur, r); }
    forall r: CheckResult | r.item == iid ensures RowOf(prev, iid) == Some(r) <==> LastOfItem(prev, r) { RowOfIs(prev, r); }
    RowNone(cur, iid);
    RowNone(prev, iid);
    if RowOf(cur, iid).Some? && RowOf(prev, iid).Some? {
      assert (RowOf(cur, iid).value, RowOf(prev, iid).value) in changed <==>
        RowOf(cur, iid).value.status != RowOf(prev, iid).value.status;
    }
  }

  /** Stored rows and page agree whenever a report is saved in run order. */
  lemma WrittenChangesAreTheDiff(t: Tables, host: int, disabled: set<string>, raw: seq<ReportItem>, run: Option<int>,
                                 now: int, changed: seq<(CheckResult, CheckResult)>, added: seq<CheckResult>,
                                 removed: seq<CheckResult>)
    requires WellFormed(t) && Storable(t, host, run) && FindHost(t.hosts, host).Some? && Distinct(Kept(raw, disabled))
    requires forall r :: r in t.runs && r.hostId == host && r.status.Success? ==> r.id < SavedId(t.runs, run)
    ensures PageAgrees(t, host, disabled, raw, run, now, changed, added, removed)
  {
    hide SavedTables, WrittenChanges, PreviousRun, Where, Kept, Written, OnPage, IsComparison, Reported, Transitions;
    hide DifferenceAt, SeenIn, RecentRows, FindRun, FindHost;
    var after, id := SavedTables(t, host, disabled, raw, run, now), SavedId(t.runs, run);
    var prev, rows := PreviousRun(after.runs, host, id), WrittenChanges(t, host, disabled, raw, run, now);
    forall iid ensures |Where(rows, ChangeFor(iid))| <= 1 {
      WrittenAt(t, host, disabled, raw, run, now, iid);
      TransitionsAre(rows, iid, "", "");
      ReportedOnce(t, host, disabled, raw, run, now, iid);
    }
    forall iid, b, a
      ensures Written(rows, iid, b, a) <==> (iid, b, a) in Transitions(Where(rows, ChangeFor(iid)))
      ensures ItemAgrees(t, host, disabled, raw, run, now, iid)
    {
      WrittenAt(t, host, disabled, raw, run, now, iid);
      TransitionsAre(rows, iid, b, a);
    }
    forall i, j | 0 <= i < j < |rows| ensures rows[i].item != rows[j].item {
      if rows[i].item == rows[j].item { WhereTwo(rows, ChangeFor(rows[i].item), i, j); }
    }
    if prev.None? {
      if rows != [] { assert Written(rows, rows[0].item, rows[0].before, rows[0].after) by { FirstWritten(rows); } }
    } else if IsComparison(RowsOf(after.results, id), RowsOf(after.results, prev.value.id), changed, added, removed) {
      var was := RowsOf(after.results, prev.value.id);
      SomeSelected(was, Comparable(disabled));
      forall iid, b, a
        ensures (iid, b, a) in Reported(DifferenceAt(RowsOf(after.results, id), was, iid), iid, disabled,
                                        SeenIn(RecentRows(after.runs, after.results, host, id)))
          <==> OnPage(changed, added, removed, disabled, SeenIn(RecentRows(after.runs, after.results, host, id)), iid, b, a)
      {
        DifferenceOnPage(RowsOf(after.results, id), was, changed, added, removed, disabled,
                         SeenIn(RecentRows(after.runs, after.results, host, id)), iid, b, a);
      }
    }
  }

  lemma FirstWritten(rows: seq<ResultChange>)
    requires rows != []
    ensures Written(rows, rows[0].item, rows[0].before, rows[0].after)
  {
    assert rows[0] in rows;
  }

  lemma ReportedOnce(t: Tables, host: int, disabled: set<string>, raw: seq<ReportItem>, run: Option<int>, now: int,
                     iid: string)
    requires FindHost(t.hosts, host).Some? && (run.Some? ==> FindRun(t.runs, run.value).Some?)
    requires ItemAgrees(t, host, disabled, raw, run, now, iid)
    ensures |Transitions(Where(WrittenChanges(t, host, disabled, raw, run, now), ChangeFor(iid)))| <= 1
  {
    hide SavedTables, WrittenChanges, PreviousRun, Where, Kept, DifferenceAt, SeenIn, RecentRows, FindRun, FindHost;
  }

  // ----- the window -----

  function NewerOther(host: int, id: int, than: CheckRun): CheckRun -> bool {
    (q: CheckRun) => q.hostId == host && q.status.Success? && q.id != id && q.id > than.id
  }

  /** An item is seen in the window when one of the host's five newest other successes has a row about it. */
  lemma WindowIs(runs: seq<CheckRun>, results: seq<CheckResult>, host: int, id: int, iid: string)
    requires RunsOrdered(runs)
    ensures iid in SeenIn(RecentRows(runs, results, host, id)) <==>
      exists r, x :: r in runs && r.hostId == host && r.status.Success? && r.id != id
        && |Where(runs, NewerOther(host, id, r))| < 5
        && x in results && x.runId == r.id && x.item == iid
  {
    hide Where, NewestIds, SeenIn, RecentRows;
    var others := Where(runs, OtherSuccess(host, id));
    SeenInNewest(runs, results, host, id, iid);
    WhereMembers(runs, OtherSuccess(host, id));
    NewerCount(runs, host, id);
    NewestAre(others, 5);
    if exists r, x :: r in runs && r.hostId == host && r.status.Success? && r.id != id
        && |Where(runs, NewerOther(host, id, r))| < 5 && x in results && x.runId == r.id && x.item == iid
    {
      var r, x :| r in runs && r.hostId == host && r.status.Success? && r.id != id
        && |Where(runs, NewerOther(host, id, r))| < 5 && x in results && x.runId == r.id && x.item == iid;
      assert r in others;
      var i :| 0 <= i < |others| && others[i] == r;
      assert r.id in NewestIds(others, 5);
    }
    if iid in SeenIn(RecentRows(runs, results, host, id)) {
      var x :| x in results && x.runId in NewestIds(others, 5) && x.item == iid;
      var i :| 0 <= i < |others| && i >= |others| - 5 && others[i].id == x.runId;
      assert others[i] in others;
    }
  }

  lemma SeenInNewest(runs: seq<CheckRun>, results: seq<CheckResult>, host: int, id: int, iid: string)
    ensures iid in SeenIn(RecentRows(runs, results, host, id)) <==>
      exists x :: x in results && x.runId in NewestIds(Where(runs, OtherSuccess(host, id)), 5) && x.item == iid
  {
    hide Where, NewestIds, SeenIn;
    SeenInRuns(results, NewestIds(Where(runs, OtherSuccess(host, id)), 5));
  }

  lemma NewerCount(runs: seq<CheckRun>, host: int, id: int)
    requires RunsOrdered(runs)
    ensures var others := Where(runs, OtherSuccess(host, id));
      forall i :: 0 <= i < |others| ==> |Where(runs, NewerOther(host, id, others[i]))| == |others| - 1 - i
  {
    hide Where;
    var others := Where(runs, OtherSuccess(host, id));
    SelectedOrdered(runs, OtherSuccess(host, id));
    forall i | 0 <= i < |others| ensures |Where(runs, NewerOther(host, id, others[i]))| == |others| - 1 - i {
      WhereWhere(runs, OtherSuccess(host, id), LaterThan(others[i]), NewerOther(host, id, others[i]));
      SelectedSuffix(others, LaterThan(others[i]), i + 1);
    }
  }

  function LaterThan(than: CheckRun): CheckRun -> bool { (q: CheckRun) => q.id > than.id }

  lemma {:induction false} NewestAre(runs: seq<CheckRun>, limit: nat)
    ensures forall id :: id in NewestIds(runs, limit) <==>
      exists i :: 0 <= i < |runs| && i >= |runs| - limit && runs[i].id == id
  {
    if runs != [] && limit > 0 {
      var n := |runs| - 1;
      NewestAre(runs[..n], limit - 1);
      forall id | id in NewestIds(runs, limit)
        ensures exists i :: 0 <= i < |runs| && i >= |runs| - limit && runs[i].id == id
      {
        if id != runs[n].id {
          var i :| 0 <= i < n && i >= n - (limit - 1) && runs[..n][i].id == id;
          assert runs[i].id == id;
        }
      }
      forall i | 0 <= i < |runs| && i >= |runs| - limit ensures runs[i].id in NewestIds(runs, limit) {
        if i < n { assert runs[..n][i].id == runs[i].id; }
      }
    }
  }

  lemma NoneLarger(t: Tables, host: int, run: Option<int>, cnt: Counts, total: nat, now: int)
    requires RunsOrdered(t.runs) && Storable(t, host, run)
    requires forall r :: r in t.runs && r.hostId == host && r.status.Success? ==> r.id < SavedId(t.runs, run)
    ensures var after := SavedRuns(t.runs, host, run, cnt, total, now);
      && RunsOrdered(after)
      && forall r :: r in after && r.hostId == host && r.status.Success? ==> r.id <= SavedId(t.runs, run)
  {
    hide FindRun, Where;
    SavedOrder(t, host, run, cnt, total, now);
    var after := SavedRuns(t.runs, host, run, cnt, total, now);
    forall r | r in after && r.hostId == host && r.status.Success? ensures r.id <= SavedId(t.runs, run) {
      var i :| 0 <= i < |after| && after[i] == r;
      if i < |t.runs| && t.runs[i].id != SavedId(t.runs, run) { assert t.runs[i] in t.runs; }
    }
  }

  /** Rows of stored runs never change again, so a page that keeps its previous run keeps its lists. */
  lemma LaterSaveKeepsRows(t: Tables, host: int, disabled: set<string>, raw: seq<ReportItem>, run: Option<int>, now: int,
                           id: int)
    requires WellFormed(t) && Storable(t, host, run) && FindHost(t.hosts, host).Some? && id != SavedId(t.runs, run)
    ensures RowsOf(SavedTables(t, host, disabled, raw, run, now).results, id) == RowsOf(t.results, id)
  {
    hide Where, Kept, CountsOf, FindRun, FindHost;
    FreshHasNoResults(t, host, run);
    StoredResults(t.results, SavedId(t.runs, run), Kept(raw, disabled), id);
  }

  /**
   A late save parts the two. If the host has a success with a larger id and none with a smaller
   one, the stored rows are compared with that later run, while the page finds no previous run.
   */
  lemma LateSaveHasNoPrevious(runs: seq<CheckRun>, results: seq<CheckResult>, host: int, id: int, later: CheckRun)
    requires later in runs && later.hostId == host && later.status.Success? && later.id > id
    requires forall r :: r in runs && r.hostId == host && r.status.Success? ==> r.id >= id
    ensures PreviousRun(runs, host, id).None? && RecentRows(runs, results, host, id) != []
  {
    hide Where;
    WhereMembers(runs, OtherSuccess(host, id));
    assert later in Where(runs, OtherSuccess(host, id));
    WhereNone(runs, SuccessBefore(host, id));
    WindowHead(runs, results, host, id);
  }
}
