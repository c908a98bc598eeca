/**
 A save that comes late. A worker outlives the stale limit, its run is closed and another one is
 saved, and then it saves after all. The version table ends on the late report; rebuilt from
 the stored runs it would end on the other.
 */
module LateSave {
  import opened Queries
  import opened Records
  import opened Store
  import opened VersionLog
  import opened TimeTravel
  import opened ResultChanges
  import opened Trimming
  import opened Backfill
  import opened Checker
  import opened Rebuild
  import opened Mirror
  import opened Events
  import opened Agreement
  import opened Toggling
  import opened OnDemand

  const OLD: ReportItem := ReportItem("x", "", "fail", "")
  const NEW: ReportItem := ReportItem("x", "", "pass", "")

  /** Run 1 outlives the stale limit and is closed; run 2 is saved; then run 1 is saved after all. */
  function LateStory(host: int): seq<Event> {
    [Started(host, 0), Stopped({1}, 7201), Started(host, 7201), Finished(2, host, {}, [NEW], 7300),
     Finished(1, host, {}, [OLD], 7400)]
  }

  function Run1(host: int): CheckRun { CheckRun(1, host, Running, 0, None, Counts(0, 0, 0, 0, 0), 0) }
  function Run2(host: int): CheckRun { CheckRun(2, host, Running, 7201, None, Counts(0, 0, 0, 0, 0), 0) }

  /** The tables after the first three events: run 1 is closed, run 2 is running. */
  function Prepared(start: Tables, host: int): Tables {
    start.(runs := [Closed(Run1(host), 7201), Run2(host)], hosts := CloseHosts(start.hosts, {host}))
  }

  function Closed1(start: Tables, host: int): Tables {
    start.(runs := [Closed(Run1(host), 7201)], hosts := CloseHosts(start.hosts, {host}))
  }

  lemma Prepare1(start: Tables, host: int)
    requires Fresh(start)
    ensures AfterEvent(start, LateStory(host)[0]) == start.(runs := [Run1(host)]) && Ok(start, LateStory(host)[0])
  {
    hide CloseHosts, HostsOf, CloseRuns, PutRun, PutHost;
    assert start.runs + [Run1(host)] == [Run1(host)];
  }

  lemma Prepare2(t: Tables, host: int)
    requires t.runs == [Run1(host)]
    ensures AfterEvent(t, LateStory(host)[1]) == Closed1(t, host) && Ok(t, LateStory(host)[1])
  {
    hide CloseHosts, HostsOf, Where, FindRun, FindHost;
    WhereAll(t.runs, WithIdIn({1}));
    OneHost(Run1(host));
    assert CloseRuns([Run1(host)], {1}, 7201) == [Closed(Run1(host), 7201)];
  }

  lemma Prepare3(start: Tables, host: int)
    ensures AfterEvent(Closed1(start, host), LateStory(host)[2]) == Prepared(start, host)
    ensures Ok(Closed1(start, host), LateStory(host)[2])
  {
    hide CloseHosts, HostsOf, CloseRuns, PutRun, PutHost;
  }

  lemma OneHost(r: CheckRun)
    ensures HostsOf([r]) == {r.hostId}
  {
    assert r in [r];
  }

  lemma LateBegins(start: Tables, host: int)
    requires Fresh(start)
    ensures AfterAll(start, LateStory(host)[..3]) == Prepared(start, host)
    ensures forall i :: 0 <= i < 3 ==> Ok(AfterAll(start, LateStory(host)[..i]), LateStory(host)[i])
  {
    hide AfterEvent, Ok, Prepared;
    var s := LateStory(host);
    Prepare1(start, host);
    Prepare2(start.(runs := [Run1(host)]), host);
    assert Closed1(start.(runs := [Run1(host)]), host) == Closed1(start, host);
    Prepare3(start, host);
    assert s[..0] == [];
    OneMore(start, s, 0);
    OneMore(start, s, 1);
    OneMore(start, s, 2);
  }

  lemma HostStays(hosts: seq<Host>, ids: set<int>, host: int)
    ensures FindHost(CloseHosts(hosts, ids), host).Some? <==> FindHost(hosts, host).Some?
  {
    if hosts != [] {
      HostStays(hosts[..|hosts| - 1], ids, host);
      assert CloseHosts(hosts, ids)[..|hosts| - 1] == CloseHosts(hosts[..|hosts| - 1], ids);
    }
  }

  lemma {:induction false} HostPut(hosts: seq<Host>, id: int, row: Host, host: int)
    requires row.id == id
    ensures FindHost(PutHost(hosts, id, row), host).Some? <==> FindHost(hosts, host).Some?
  {
    if hosts != [] {
      HostPut(hosts[..|hosts| - 1], id, row, host);
      assert PutHost(hosts, id, row)[..|hosts| - 1] == PutHost(hosts[..|hosts| - 1], id, row);
    }
  }

  lemma OneKept(it: ReportItem)
    requires Known(it.status)
    ensures Kept([it], {}) == [it]
  {
    WhereAll([it], Enabled({}));
    assert Collect([it], Normalise()) == [it];
  }

  /** The two reports in the order of their saves. */
  function LateHistory(host: int): seq<Report> {
    [Report(Stamp(host, 2, 7300), [NEW], {}), Report(Stamp(host, 1, 7400), [OLD], {})]
  }

  lemma {:induction false} NothingStoredYet(start: Tables, host: int, k: nat)
    requires k <= 3
    ensures HistoryOf(start, LateStory(host)[..k], host) == []
  {
    if k > 0 {
      assert LateStory(host)[..k][..k - 1] == LateStory(host)[..k - 1];
      NothingStoredYet(start, host, k - 1);
    }
  }

  /** The tables just before the two saves. */
  lemma LateTables(start: Tables, host: int)
    requires Fresh(start) && FindHost(start.hosts, host).Some?
    ensures var t3, t4 := AfterAll(start, LateStory(host)[..3]), AfterAll(start, LateStory(host)[..4]);
      && FindHost(t3.hosts, host).Some? && FindHost(t4.hosts, host).Some?
      && FindRun(t3.runs, 2) == Some(Run2(host)) && FindRun(t4.runs, 1) == Some(Closed(Run1(host), 7201))
  {
    hide FindHost, FindRun, AfterEvent, AfterAll, CloseHosts;
    LateBegins(start, host);
    HostStays(start.hosts, {host}, host);
    OneMore(start, LateStory(host), 3);
    SecondIsSaved(Prepared(start, host), host);
  }

  lemma SecondIsSaved(t: Tables, host: int)
    requires t.runs == [Closed(Run1(host), 7201), Run2(host)] && FindHost(t.hosts, host).Some?
    ensures FindRun(t.runs, 2) == Some(Run2(host))
    ensures var t4 := AfterEvent(t, LateStory(host)[3]);
      FindHost(t4.hosts, host).Some? && FindRun(t4.runs, 1) == Some(Closed(Run1(host), 7201))
  {
    hide Kept, CountsOf, Where, StoredRows, AppendVersions, RecentRows, Changes, FindHost, FindRun;
    TwoRuns(Closed(Run1(host), 7201), Run2(host));
    FoundHost(t.hosts, host);
    HostPut(t.hosts, host, Recovered(FindHost(t.hosts, host).value, 7300), host);
    var saved := Run2(host).(status := Success, finishedAt := Some(7300), counts := CountsOf(Kept([NEW], {})),
                             total := |Kept([NEW], {})|);
    assert AfterEvent(t, LateStory(host)[3]).runs == [Closed(Run1(host), 7201), saved];
    TwoRuns(Closed(Run1(host), 7201), saved);
  }

  lemma FoundHost(hosts: seq<Host>, id: int)
    ensures FindHost(hosts, id).Some? ==> FindHost(hosts, id).value.id == id
  {
  }

  lemma OneMore(start: Tables, events: seq<Event>, k: nat)
    requires k < |events|
    ensures AfterAll(start, events[..k + 1]) == AfterEvent(AfterAll(start, events[..k]), events[k])
  {
    assert events[..k + 1][..k] == events[..k];
  }

  lemma LateRuns(start: Tables, host: int)
    requires Fresh(start) && FindHost(start.hosts, host).Some?
    ensures AllOk(start, LateStory(host)) && HistoryOf(start, LateStory(host), host) == LateHistory(host)
  {
    hide AfterAll, FindHost, FindRun, LiveReport;
    var s := LateStory(host);
    LateBegins(start, host);
    LateTables(start, host);
    forall i | 0 <= i < |s| ensures Ok(AfterAll(start, s[..i]), s[i]) {
      if i == 3 { assert s[..i] == s[..3]; } else if i == 4 { assert s[..i] == s[..4]; }
    }
    NothingStoredYet(start, host, 3);
    assert s[..4][..3] == s[..3] && s[..|s| - 1] == s[..4];
    LateReports(AfterAll(start, s[..3]), AfterAll(start, s[..4]), host);
    assert HistoryOf(start, s[..4], host) == [] + StoredBy(AfterAll(start, s[..3]), s[3], host);
  }

  lemma TwoRuns(a: CheckRun, b: CheckRun)
    requires a.id == 1 && b.id == 2
    ensures FindRun([a, b], 2) == Some(b) && FindRun([a, b], 1) == Some(a)
  {
    assert [a, b][..1] == [a];
  }

  lemma LateReports(t3: Tables, t4: Tables, host: int)
    ensures [LiveReport(t3, host, {}, [NEW], Some(2), 7300), LiveReport(t4, host, {}, [OLD], Some(1), 7400)]
         == LateHistory(host)
  {
    OneKept(NEW);
    OneKept(OLD);
  }

  lemma {:induction false} FewRows(log: seq<ItemVersion>, stamp: Stamp, items: seq<ReportItem>)
    ensures |Baseline(stamp, items)| <= |items| && |ItemRows(log, stamp, items)| <= |items|
  {
    if items != [] { FewRows(log, stamp, items[..|items| - 1]); }
  }

  lemma {:induction false} FewGone(log: seq<ItemVersion>, stamp: Stamp, order: seq<string>, reported: set<string>)
    ensures |GoneRows(log, stamp, order, reported, {})| <= |order|
  {
    if order != [] { FewGone(log, stamp, order[..|order| - 1], reported); }
  }

  lemma {:induction false} FewSeen(ids: seq<string>)
    ensures |FirstSeen(ids)| <= |ids|
  {
    if ids != [] { FewSeen(ids[..|ids| - 1]); }
  }

  lemma RecordedSize(log: seq<ItemVersion>, stamp: Stamp, items: seq<ReportItem>)
    ensures |Record(log, stamp, items, {})| <= |log| + |items| + |log|
  {
    hide Baseline, ItemRows, GoneRows, FirstSeen;
    FewRows(log, stamp, items);
    FewGone(log, stamp, LoggedItems(log), ReportedIds(items));
    FewSeen(Collect(log, VersionItem()));
  }

  lemma FewRowsInAll(host: int)
    ensures |LogOf(LateHistory(host))| <= 3
  {
    hide Record;
    var h := LateHistory(host);
    assert h[..1] == [h[0]] && [h[0]][..0] == [];
    RecordedSize([], h[0].stamp, [NEW]);
    assert LogOf([h[0]]) == Record([], h[0].stamp, [NEW], {});
    RecordedSize(LogOf([h[0]]), h[1].stamp, [OLD]);
  }

  /**
   A late save sets the rebuilt log apart. After it the version table shows the late report,
   and rebuilding the table from the stored runs would show the other one.
   */
  lemma LateSaveWitness(start: Tables, host: int)
    requires Fresh(start) && HostsOrdered(start.hosts) && FindHost(start.hosts, host).Some?
    ensures AllOk(start, LateStory(host))
    ensures var t := AfterAll(start, LateStory(host));
      && View(Where(t.versions, VersionOfHost(host))) == ReportView([OLD])
      && View(LogOf(BackReports(t.runs, t.results, host))) == ReportView([NEW])
      && ReportView([OLD]) != ReportView([NEW])
  {
    hide AfterAll, LogOf, View, ReportView, Where, FindHost, Sound, SavedLog, BackReports, ByRun, MirrorsRuns, Timeless;
    var t, live := AfterAll(start, LateStory(host)), LateHistory(host);
    LateRuns(start, host);
    AllEventsMirror(start, LateStory(host), host);
    LateSaveSwapsViews(live[0], live[1]);
    FewRowsInAll(host);
    SavedWithoutTrim(live);
    TwoByRun(live[0], live[1]);
    assert Distinct([NEW]) && Distinct([OLD]);
    assert ByRun(live)[2 - 1].items == [NEW];
    BackfilledTablesView(t, host, live, 2);
    OldIsNotNew();
  }

  lemma OldIsNotNew()
    ensures ReportView([OLD]) != ReportView([NEW])
  {
    assert [OLD][..0] == [] && [NEW][..0] == [];
    assert OLD in [OLD] && NEW in [NEW];
    assert ReportView([OLD])["x"] == State("fail", "") && ReportView([NEW])["x"] == State("pass", "");
    assert "fail"[0] == 'f' && "pass"[0] == 'p';
  }

  // ----- what the page of the late run shows -----

  lemma OneRow(run: int, it: ReportItem)
    requires it.Id() == "x"
    ensures RowOf(StoredRows(run, [it]), "x") == Some(StoredRow(run, it))
    ensures Where(StoredRows(run, [it]), Comparable({})) == StoredRows(run, [it])
  {
    hide Where;
    assert StoredRows(run, [it]) == [StoredRow(run, it)];
    WhereAll(StoredRows(run, [it]), Comparable({}));
  }

  /** The change rows written for the late report compare it with the run that overtook it. */
  lemma LateChanges(past: seq<seq<CheckResult>>, stamp: Stamp)
    requires stamp.runId == 1 && past == [StoredRows(2, [NEW])]
    ensures Transitions(Where(Changes(past, stamp, [OLD], {}), ChangeFor("x"))) == [("x", "pass", "fail")]
  {
    hide Where, Changes, RowOf, StoredRows;
    OneRow(1, OLD);
    OneRow(2, NEW);
    ChangesMatchComparison(past, stamp, [OLD], {}, "x");
    assert "fail"[0] == 'f' && "pass"[0] == 'p';
  }

  /** Before the late save the tables mirror the other report alone. */
  lemma OvertakenTables(start: Tables, host: int)
    requires Fresh(start) && HostsOrdered(start.hosts) && FindHost(start.hosts, host).Some?
    ensures var t := AfterAll(start, LateStory(host)[..4]);
      Sound(t) && Mirrors(t, host, [LateHistory(host)[0]]) && FindHost(t.hosts, host).Some?
      && FindRun(t.runs, 1) == Some(Closed(Run1(host), 7201))
  {
    hide AfterAll, FindHost, FindRun, LiveReport, Mirrors, Sound, Ok;
    var s := LateStory(host);
    LateRuns(start, host);
    LateTables(start, host);
    forall i | 0 <= i < 4 ensures Ok(AfterAll(start, s[..4][..i]), s[..4][i]) { assert s[..4][..i] == s[..i]; }
    AllEventsMirror(start, s[..4], host);
    NothingStoredYet(start, host, 3);
    assert s[..4][..3] == s[..3];
    LateReports(AfterAll(start, s[..3]), AfterAll(start, s[..4]), host);
    assert HistoryOf(start, s[..4], host) == [] + StoredBy(AfterAll(start, s[..3]), s[3], host);
    var reports := [LiveReport(AfterAll(start, s[..3]), host, {}, [NEW], Some(2), 7300),
                    LiveReport(AfterAll(start, s[..4]), host, {}, [OLD], Some(1), 7400)];
    assert reports[0] == LateHistory(host)[0];
    assert HistoryOf(start, s[..4], host) == [reports[0]];
  }

  /**
   The stored change row of the late run says that x went from pass to fail; its comparison page
   finds no previous run and shows nothing.
   */
  lemma LatePageShowsNothing(start: Tables, host: int)
    requires Fresh(start) && HostsOrdered(start.hosts) && FindHost(start.hosts, host).Some?
    ensures var t, end := AfterAll(start, LateStory(host)[..4]), AfterAll(start, LateStory(host));
      && |t.changes| <= |end.changes|
      && Transitions(Where(end.changes[|t.changes|..], ChangeFor("x"))) == [("x", "pass", "fail")]
      && PreviousRun(end.runs, host, 1).None?
  {
    hide AfterAll, FindHost, FindRun, Mirrors, Sound, Where, Changes, SavedTables, PreviousRun, Transitions, PastOf;
    hide StoredRows;
    var s := LateStory(host);
    var t := AfterAll(start, s[..4]);
    var early := LateHistory(host)[0];
    OvertakenTables(start, host);
    OneMore(start, s, 4);
    assert s[..5] == s;
    LateStore(t, host, early);
    OnePast(early);
    LateChanges(PastOf([early], HISTORY_RUNS), Stamp(host, 1, 7400));
  }

  lemma OnePast(early: Report)
    ensures PastOf([early], HISTORY_RUNS) == [StoredRows(early.stamp.runId, early.items)]
  {
    assert [early][..0] == [];
  }

  lemma LateStore(t: Tables, host: int, early: Report)
    requires Sound(t) && Mirrors(t, host, [early]) && FindHost(t.hosts, host).Some? && early.stamp.runId == 2
    requires FindRun(t.runs, 1) == Some(Closed(Run1(host), 7201))
    ensures var end := AfterEvent(t, LateStory(host)[4]);
      && end.changes == t.changes + Changes(PastOf([early], HISTORY_RUNS), Stamp(host, 1, 7400), [OLD], {})
      && PreviousRun(end.runs, host, 1).None?
  {
    hide FindHost, FindRun, Where, Changes, PastOf, AppendVersions, RecentRows, StoredRows, Kept, CountsOf, NoOrphans;
    StorableBy(t, host, 1);
    SaveMirrors(t, host, {}, [OLD], Some(1), 7400, [early]);
    OneKept(OLD);
    assert [early][..0] == [] && ByRun([early]) == [early];
    LaterSaveKeepsPrevious(t, host, Some(1), CountsOf(Kept([OLD], {})), |Kept([OLD], {})|, 7400, 1);
    NothingBefore(t, host, early);
  }

  lemma NothingBefore(t: Tables, host: int, early: Report)
    requires Mirrors(t, host, [early]) && early.stamp.runId == 2
    ensures PreviousRun(t.runs, host, 1).None?
  {
    hide Where;
    assert [early][..0] == [] && ByRun([early]) == [early];
    var mine := Where(t.runs, SuccessOf(host));
    assert MirrorsRun(t.results, mine[0], early);
    WhereMembers(t.runs, SuccessOf(host));
    forall r | r in t.runs ensures !SuccessBefore(host, 1)(r) {
      if r.hostId == host && r.status.Success? { assert r in mine && r == mine[0]; }
    }
    WhereNone(t.runs, SuccessBefore(host, 1));
  }
}
