/**
 `rebuild_versions` over the database, and the link between the tables and a host's history:
 while reports are stored in run order, the run, result, change and version tables are
 exactly what the history functions say they are.
 */
module Rebuild {
  import opened Queries
  import opened Records
  import opened Store
  import opened VersionLog
  import opened VersionReplay
  import opened TimeTravel
  import opened ResultChanges
  import opened Toggling
  import opened Trimming
  import opened Backfill
  import opened Checker

  /** A stored successful run, as the report that backfill replays. */
  function BackReport(results: seq<CheckResult>, r: CheckRun): Report {
    Report(Stamp(r.hostId, r.id, if r.finishedAt.Some? then r.finishedAt.value else r.startedAt),
           Restored(Where(results, ResultOfRun(r.id))), {})
  }

  function AsBackReport(results: seq<CheckResult>): CheckRun -> Report {
    (r: CheckRun) => BackReport(results, r)
  }

  function BackReports(runs: seq<CheckRun>, results: seq<CheckResult>, host: int): seq<Report> {
    Collect(Where(runs, SuccessOf(host)), AsBackReport(results))
  }

  /** The version table that backfill builds, host by host. */
  function Rebuilt(hosts: seq<Host>, runs: seq<CheckRun>, results: seq<CheckResult>): seq<ItemVersion> {
    if hosts == [] then []
    else Rebuilt(hosts[..|hosts| - 1], runs, results) + LogOf(BackReports(runs, results, hosts[|hosts| - 1].id))
  }

  // ----- every row belongs to the host it was recorded for -----

  ghost predicate AllOf(log: seq<ItemVersion>, host: int) { forall v :: v in log ==> v.hostId == host }

  /** Every row carries this host, this run and this moment. */
  ghost predicate Stamped(rows: seq<ItemVersion>, stamp: Stamp) {
    forall v :: v in rows ==> v.hostId == stamp.hostId && v.runId == stamp.runId && v.recordedAt == stamp.at
  }

  lemma {:induction false} BaselineStamped(stamp: Stamp, items: seq<ReportItem>)
    ensures Stamped(Baseline(stamp, items), stamp)
  {
    if items != [] { BaselineStamped(stamp, items[..|items| - 1]); }
  }

  lemma {:induction false} ItemRowsStamped(log: seq<ItemVersion>, stamp: Stamp, items: seq<ReportItem>)
    ensures Stamped(ItemRows(log, stamp, items), stamp)
  {
    if items != [] { ItemRowsStamped(log, stamp, items[..|items| - 1]); }
  }

  lemma {:induction false} GoneRowsStamped(log: seq<ItemVersion>, stamp: Stamp, order: seq<string>,
                                           reported: set<string>, disabled: set<string>)
    ensures Stamped(GoneRows(log, stamp, order, reported, disabled), stamp)
  {
    if order != [] { GoneRowsStamped(log, stamp, order[..|order| - 1], reported, disabled); }
  }

  lemma RecordedStamped(log: seq<ItemVersion>, stamp: Stamp, items: seq<ReportItem>, disabled: set<string>)
    ensures Stamped(Recorded(log, stamp, items, disabled), stamp)
  {
    BaselineStamped(stamp, items);
    ItemRowsStamped(log, stamp, items);
    GoneRowsStamped(log, stamp, LoggedItems(log), ReportedIds(items), disabled);
  }

  /** Every row of a replayed log carries the stamp of one of the reports. */
  lemma {:induction false} LogStamped(reports: seq<Report>, v: ItemVersion)
    requires v in LogOf(reports)
    ensures exists r :: r in reports && r.stamp == Stamp(v.hostId, v.runId, v.recordedAt)
  {
    if reports != [] {
      var before, r := reports[..|reports| - 1], reports[|reports| - 1];
      RecordedStamped(LogOf(before), r.stamp, r.items, r.disabled);
      assert r in reports;
      if v in LogOf(before) { LogStamped(before, v); }
    }
  }

  lemma {:induction false} LogHost(reports: seq<Report>, host: int)
    requires forall r :: r in reports ==> r.stamp.hostId == host
    ensures AllOf(LogOf(reports), host)
  {
    if reports != [] {
      var before, r := reports[..|reports| - 1], reports[|reports| - 1];
      LogHost(before, host);
      RecordedStamped(LogOf(before), r.stamp, r.items, r.disabled);
    }
  }

  lemma BackReportsHost(runs: seq<CheckRun>, results: seq<CheckResult>, host: int)
    ensures forall r :: r in BackReports(runs, results, host) ==> r.stamp.hostId == host && r.disabled == {}
  {
    var mine := Where(runs, SuccessOf(host));
    WhereMembers(runs, SuccessOf(host));
    var reports := BackReports(runs, results, host);
    forall r | r in reports ensures r.stamp.hostId == host && r.disabled == {} {
      var i :| 0 <= i < |reports| && reports[i] == r;
      assert mine[i] in mine;
    }
  }

  // ----- what the rebuilt table holds for each host -----

  lemma {:induction false} RebuiltOther(hosts: seq<Host>, runs: seq<CheckRun>, results: seq<CheckResult>, host: int)
    requires forall h :: h in hosts ==> h.id != host
    ensures Where(Rebuilt(hosts, runs, results), VersionOfHost(host)) == []
  {
    if hosts != [] {
      var n := |hosts| - 1;
      var last := LogOf(BackReports(runs, results, hosts[n].id));
      RebuiltOther(hosts[..n], runs, results, host);
      BackReportsHost(runs, results, hosts[n].id);
      LogHost(BackReports(runs, results, hosts[n].id), hosts[n].id);
      assert hosts[n] in hosts;
      WhereNone(last, VersionOfHost(host));
      WhereAppend(Rebuilt(hosts[..n], runs, results), last, VersionOfHost(host));
    }
  }

  /** The rebuilt log of every host is the replay of that host's own stored runs. */
  lemma {:induction false} RebuiltOf(hosts: seq<Host>, runs: seq<CheckRun>, results: seq<CheckResult>, k: nat)
    requires HostsOrdered(hosts) && k < |hosts|
    ensures Where(Rebuilt(hosts, runs, results), VersionOfHost(hosts[k].id))
         == LogOf(BackReports(runs, results, hosts[k].id))
  {
    hide LogOf, BackReports, Where;
    var n := |hosts| - 1;
    var last := LogOf(BackReports(runs, results, hosts[n].id));
    BackReportsHost(runs, results, hosts[n].id);
    LogHost(BackReports(runs, results, hosts[n].id), hosts[n].id);
    WhereAppend(Rebuilt(hosts[..n], runs, results), last, VersionOfHost(hosts[k].id));
    if k == n {
      RebuiltOther(hosts[..n], runs, results, hosts[n].id);
      WhereAll(last, VersionOfHost(hosts[n].id));
    } else {
      RebuiltOf(hosts[..n], runs, results, k);
      WhereNone(last, VersionOfHost(hosts[k].id));
    }
  }

  /** Every rebuilt row is dated by a stored success of a host in the table: when it ended, or else began. */
  lemma {:induction false} RebuiltSays(hosts: seq<Host>, runs: seq<CheckRun>, results: seq<CheckResult>, v: ItemVersion)
    requires v in Rebuilt(hosts, runs, results)
    ensures exists r, h :: r in runs && h in hosts && r.status.Success?
              && h.id == r.hostId == v.hostId && r.id == v.runId
              && v.recordedAt == if r.finishedAt.Some? then r.finishedAt.value else r.startedAt
  {
    hide LogOf, Where;
    var n := |hosts| - 1;
    if v in Rebuilt(hosts[..n], runs, results) {
      RebuiltSays(hosts[..n], runs, results, v);
    } else {
      var reports := BackReports(runs, results, hosts[n].id);
      LogStamped(reports, v);
      var b :| b in reports && b.stamp == Stamp(v.hostId, v.runId, v.recordedAt);
      WhereMembers(runs, SuccessOf(hosts[n].id));
      var mine := Where(runs, SuccessOf(hosts[n].id));
      var i :| 0 <= i < |reports| && reports[i] == b;
      assert mine[i] in mine && b == BackReport(results, mine[i]) && hosts[n] in hosts;
    }
  }

  // ----- the method -----

  /** `rebuild_versions`: only an empty version table is filled, from every host's stored runs. */
  method RebuildVersions(db: Database) returns (n: nat)
    requires HostsOrdered(db.hosts)
    modifies db`versions
    ensures db.versions == if old(db.versions) == [] then Rebuilt(db.hosts, db.runs, db.results) else old(db.versions)
    ensures n == if old(db.versions) == [] then |db.versions| else 0
    // a second call changes nothing
    ensures old(db.versions) == Rebuilt(db.hosts, db.runs, db.results) ==> db.versions == old(db.versions)
  {
    if db.versions != [] {
      return 0;
    }
    for i := 0 to |db.hosts|
      invariant db.versions == Rebuilt(db.hosts[..i], db.runs, db.results)
    {
      var h := db.hosts[i];
      assert db.hosts[..i + 1][..i] == db.hosts[..i];
      RebuiltOther(db.hosts[..i], db.runs, db.results, h.id);
      ReplayHost(db, h.id);
    }
    assert db.hosts[..|db.hosts|] == db.hosts;
    n := |db.versions|;
  }

  /** Replaying one more run on top of other hosts' rows extends the host's replayed log. */
  lemma ReplayNext(base: seq<ItemVersion>, before: seq<Report>, r: Report, host: int)
    requires Where(base, VersionOfHost(host)) == []
    requires forall q :: q in before ==> q.stamp.hostId == host
    ensures Where(base + LogOf(before), VersionOfHost(host)) == LogOf(before)
    ensures LogOf(before + [r]) == LogOf(before) + Recorded(LogOf(before), r.stamp, r.items, r.disabled)
  {
    LogHost(before, host);
    WhereAppend(base, LogOf(before), VersionOfHost(host));
    WhereAll(LogOf(before), VersionOfHost(host));
    assert (before + [r])[..|before|] == before;
  }

  /** One host's successful runs are replayed in order, each from its stored rows. */
  method ReplayHost(db: Database, host: int)
    requires Where(db.versions, VersionOfHost(host)) == []
    modifies db`versions
    ensures db.versions == old(db.versions) + LogOf(BackReports(db.runs, db.results, host))
  {
    hide Where, LogOf, Recorded, Restored;
    var runs := Where(db.runs, SuccessOf(host));
    ghost var reports := BackReports(db.runs, db.results, host);
    BackReportsHost(db.runs, db.results, host);
    assert LogOf([]) == [] by { EmptyHistory(); }
    for j := 0 to |runs|
      invariant db.versions == old(db.versions) + LogOf(reports[..j])
    {
      var r := runs[j];
      var items := Restored(Where(db.results, ResultOfRun(r.id)));
      assert reports[j] in reports && reports[j] == BackReport(db.results, r);
      ReplayNext(old(db.versions), reports[..j], reports[j], host);
      assert reports[..j + 1] == reports[..j] + [reports[j]];
      RecordVersions(db, host, r.id, items, {}, if r.finishedAt.Some? then r.finishedAt.value else r.startedAt);
    }
    assert reports[..|runs|] == reports;
  }

  lemma EmptyHistory()
    ensures LogOf([]) == []
  {
  }
}
