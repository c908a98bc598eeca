/**
 The check engine of app/checker.py over the database: storing a report with both of its
 logs, rebuilding the version log, and closing runs. Every method is tied to a function of
 the tables; the functions' own meaning is proved in the modules they come from.
 */
module Checker {
  import opened Queries
  import opened Records
  import opened Store
  import opened VersionLog
  import opened ResultChanges
  import opened Trimming
  import opened TimeTravel
  import opened Backfill

  // ----- normalising and counting a report -----

  function StatusIs(s: string): ReportItem -> bool { (it: ReportItem) => it.status == s }

  function TotalOf(c: Counts): nat { c.pass + c.fail + c.warn + c.manual + c.na }

  function Bit(b: bool): nat { if b then 1 else 0 }

  /** `cnt[s] += 1` */
  function Tally(c: Counts, s: string): Counts {
    Counts(c.pass + Bit(s == "pass"), c.fail + Bit(s == "fail"), c.warn + Bit(s == "warn"),
           c.manual + Bit(s == "manual"), c.na + Bit(s == "na"))
  }

  function CountsOf(items: seq<ReportItem>): Counts {
    if items == [] then Counts(0, 0, 0, 0, 0)
    else Tally(CountsOf(items[..|items| - 1]), items[|items| - 1].status)
  }

  /** Each of the five counts is the number of items with that status. */
  lemma {:induction false} CountsAre(items: seq<ReportItem>)
    ensures CountsOf(items) == Counts(|Where(items, StatusIs("pass"))|, |Where(items, StatusIs("fail"))|,
                                      |Where(items, StatusIs("warn"))|, |Where(items, StatusIs("manual"))|,
                                      |Where(items, StatusIs("na"))|)
  {
    if items != [] { CountsAre(items[..|items| - 1]); }
  }

  lemma CountNormal(items: seq<ReportItem>, it: ReportItem)
    ensures CountsOf(items + [Normal(it)]) == Tally(CountsOf(items), Normal(it).status)
    ensures TotalOf(CountsOf(items + [Normal(it)])) == TotalOf(CountsOf(items)) + 1
  {
  }

  /** After normalisation the five counts always add up to the number of items. */
  lemma {:induction false} NormalTotal(raw: seq<ReportItem>)
    ensures TotalOf(CountsOf(Collect(raw, Normalise()))) == |raw|
  {
    if raw != [] {
      var n := |raw| - 1;
      NormalTotal(raw[..n]);
      assert Collect(raw, Normalise()) == Collect(raw[..n], Normalise()) + [Normal(raw[n])];
      CountNormal(Collect(raw[..n], Normalise()), raw[n]);
    }
  }

  /** The counting loop of `save_report`: unknown statuses become manual as they are counted. */
  method CountItems(raw: seq<ReportItem>) returns (items: seq<ReportItem>, cnt: Counts)
    ensures items == Collect(raw, Normalise())
    ensures cnt == CountsOf(items) && TotalOf(cnt) == |items|
  {
    items, cnt := [], Counts(0, 0, 0, 0, 0);
    for i := 0 to |raw|
      invariant |items| == i && forall j :: 0 <= j < i ==> items[j] == Normal(raw[j])
      invariant cnt == CountsOf(items)
    {
      var it := raw[i];
      if !Known(it.status) {
        it := it.(status := "manual");
      }
      CountNormal(items, raw[i]);
      cnt := Tally(cnt, it.status);
      items := items + [it];
    }
    assert items == Collect(raw, Normalise());
    NormalTotal(raw);
  }

  // ----- the change list -----

  /** Ids of the newest rows first, at most `limit` of them. */
  function NewestIds(runs: seq<CheckRun>, limit: nat): seq<int> {
    if runs == [] || limit == 0 then []
    else [runs[|runs| - 1].id] + NewestIds(runs[..|runs| - 1], limit - 1)
  }

  function OtherSuccess(host: int, run: int): CheckRun -> bool {
    (r: CheckRun) => r.hostId == host && r.status.Success? && r.id != run
  }

  function RowsOfRun(results: seq<CheckResult>): int -> seq<CheckResult> {
    (run: int) => Where(results, ResultOfRun(run))
  }

  /** Result rows of the host's recent successful runs other than `run`, newest first. */
  function RecentRows(runs: seq<CheckRun>, results: seq<CheckResult>, host: int, run: int): seq<seq<CheckResult>> {
    Collect(NewestIds(Where(runs, OtherSuccess(host, run)), HISTORY_RUNS), RowsOfRun(results))
  }

  lemma SeenInRuns(results: seq<CheckResult>, ids: seq<int>)
    ensures SeenIn(Collect(ids, RowsOfRun(results))) == set r | r in results && r.runId in ids :: r.item
  {
    var past := Collect(ids, RowsOfRun(results));
    forall iid | iid in SeenIn(past) ensures exists r :: r in results && r.runId in ids && r.item == iid {
      var rows, r :| rows in past && r in rows && r.item == iid;
      var i :| 0 <= i < |ids| && past[i] == rows;
      WhereMembers(results, ResultOfRun(ids[i]));
    }
    forall r | r in results && r.runId in ids ensures r.item in SeenIn(past) {
      var i :| 0 <= i < |ids| && ids[i] == r.runId;
      WhereMembers(results, ResultOfRun(ids[i]));
      assert past[i] in past && r in past[i];
    }
  }

  /** `_record_changes` */
  method RecordChanges(db: Database, host: int, run: int, items: seq<ReportItem>, disabled: set<string>, now: int)
    modifies db`changes
    ensures db.changes == old(db.changes)
                        + Changes(RecentRows(db.runs, db.results, host, run), Stamp(host, run, now), items, disabled)
  {
    ghost var past := RecentRows(db.runs, db.results, host, run);
    if items == [] {
      return;
    }
    var recent := NewestIds(Where(db.runs, OtherSuccess(host, run)), HISTORY_RUNS);
    if recent == [] {
      return;
    }
    var prev := Where(Where(db.results, ResultOfRun(recent[0])), Comparable(disabled));
    if prev == [] {
      return;
    }
    var seen := set r | r in db.results && r.runId in recent :: r.item;
    SeenInRuns(db.results, recent);
    var added := ChangeRows(prev, seen, Stamp(host, run, now), items);
    db.changes := db.changes + added;
  }

  /** The two loops of `_record_changes`, over the report and over the previous run's dictionary. */
  method ChangeRows(prev: seq<CheckResult>, seen: set<string>, stamp: Stamp, items: seq<ReportItem>)
    returns (added: seq<ResultChange>)
    ensures added == ItemChanges(prev, seen, stamp, items)
                   + GoneChanges(prev, RowItems(prev), ReportedIds(items), stamp)
  {
    var curIds, gone;
    added, curIds := ReportChangeRows(prev, seen, stamp, items);
    gone := GoneChangeRows(prev, curIds, stamp);
    added := added + gone;
  }

  method GoneChangeRows(prev: seq<CheckResult>, curIds: set<string>, stamp: Stamp) returns (added: seq<ResultChange>)
    ensures added == GoneChanges(prev, RowItems(prev), curIds, stamp)
  {
    hide FirstSeen, Where;
    added := [];
    RowItemsAre(prev);
    var order := RowItems(prev);
    for i := 0 to |order|
      invariant added == GoneChanges(prev, order[..i], curIds, stamp)
    {
      assert order[..i + 1][..i] == order[..i];
      var p := RowOf(prev, order[i]).value;
      if order[i] !in curIds {
        added := added + [GoneChange(p, stamp)];
      }
    }
    assert order[..|order|] == order;
  }

  method ReportChangeRows(prev: seq<CheckResult>, seen: set<string>, stamp: Stamp, items: seq<ReportItem>)
    returns (added: seq<ResultChange>, curIds: set<string>)
    ensures added == ItemChanges(prev, seen, stamp, items) && curIds == ReportedIds(items)
  {
    added, curIds := [], {};
    for i := 0 to |items|
      invariant added == ItemChanges(prev, seen, stamp, items[..i])
      invariant curIds == ReportedIds(items[..i])
    {
      var it := items[i];
      assert items[..i + 1] == items[..i] + [it];
      curIds := curIds + {it.Id()};
      var p := RowOf(prev, it.Id());
      if p.Some? && p.value.status == it.Shown().status {
        continue;
      }
      if p.None? && it.Id() in seen {
        continue;
      }
      added := added + [ResultChange(stamp.hostId, stamp.runId, stamp.at, it.Id(), Cut(it.cat, CATEGORY_WIDTH),
                                     if p.Some? then p.value.status else "", it.Shown().status, it.Shown().desc)];
    }
    assert items[..|items|] == items;
  }

  // ----- the version log -----

  /** `_record_versions` */
  method RecordVersions(db: Database, host: int, run: int, items: seq<ReportItem>, disabled: set<string>, now: int)
    modifies db`versions
    ensures db.versions == old(db.versions)
                         + Recorded(Where(old(db.versions), VersionOfHost(host)), Stamp(host, run, now), items, disabled)
  {
    if items == [] {
      return;
    }
    var log := Where(db.versions, VersionOfHost(host));
    var order, last := ReadLog(log);
    var stamp := Stamp(host, run, now);
    var added: seq<ItemVersion> := [];
    if order == [] {
      for i := 0 to |items|
        invariant added == Baseline(stamp, items[..i])
      {
        assert items[..i + 1][..i] == items[..i];
        added := added + [InitialRow(stamp, items[i])];
      }
      assert items[..|items|] == items;
      EmptyLog(log);
    } else {
      added := VersionRows(log, order, last, stamp, items, disabled);
    }
    db.versions := db.versions + added;
  }

  /** The dictionary of last versions: later rows overwrite earlier ones, keys keep their first place. */
  method ReadLog(log: seq<ItemVersion>) returns (order: seq<string>, last: map<string, ItemVersion>)
    ensures order == LoggedItems(log)
    ensures forall iid :: Get(last, iid) == Latest(log, iid)
  {
    order, last := [], map[];
    for i := 0 to |log|
      invariant order == LoggedItems(log[..i])
      invariant forall iid :: Get(last, iid) == Latest(log[..i], iid)
    {
      var v := log[i];
      assert log[..i + 1] == log[..i] + [v] && log[..i + 1][..i] == log[..i];
      LoggedNext(log[..i], v);
      assert Get(last, v.item) == Latest(log[..i], v.item);
      if v.item !in last {
        order := order + [v.item];
      }
      last := last[v.item := v];
    }
    assert log[..|log|] == log;
  }

  lemma EmptyLog(log: seq<ItemVersion>)
    requires LoggedItems(log) == []
    ensures log == []
  {
    LoggedItemsAre(log);
    if log != [] {
      LatestNone(log, log[0].item);
    }
  }

  lemma LoggedNext(log: seq<ItemVersion>, v: ItemVersion)
    ensures LoggedItems(log + [v]) == LoggedItems(log) + if Latest(log, v.item).Some? then [] else [v.item]
  {
    var ids := Collect(log, VersionItem());
    assert Collect(log + [v], VersionItem()) == ids + [v.item];
    assert (ids + [v.item])[..|ids|] == ids;
    FirstSeenIs(ids);
    LoggedItemsAre(log);
    assert v.item in ids <==> v.item in LoggedItems(log);
  }

  /** The two loops of `_record_versions`, over the report and over the dictionary of last versions. */
  method VersionRows(ghost log: seq<ItemVersion>, order: seq<string>, last: map<string, ItemVersion>, stamp: Stamp,
                     items: seq<ReportItem>, disabled: set<string>) returns (added: seq<ItemVersion>)
    requires order == LoggedItems(log)
    requires forall iid :: Get(last, iid) == Latest(log, iid)
    ensures added == ItemRows(log, stamp, items)
                   + GoneRows(log, stamp, LoggedItems(log), ReportedIds(items), disabled)
  {
    var curIds, gone;
    added, curIds := ReportVersionRows(log, last, stamp, items);
    LoggedItemsAre(log);
    gone := GoneVersionRows(log, order, last, stamp, curIds, disabled);
    added := added + gone;
  }

  method GoneVersionRows(ghost log: seq<ItemVersion>, order: seq<string>, last: map<string, ItemVersion>,
                         stamp: Stamp, curIds: set<string>, disabled: set<string>)
    returns (added: seq<ItemVersion>)
    requires forall x :: x in order ==> Get(last, x).Some?
    requires forall iid :: Get(last, iid) == Latest(log, iid)
    ensures added == GoneRows(log, stamp, order, curIds, disabled)
  {
    added := [];
    for i := 0 to |order|
      invariant added == GoneRows(log, stamp, order[..i], curIds, disabled)
    {
      assert order[..i + 1] == order[..i] + [order[i]];
      assert Get(last, order[i]) == Latest(log, order[i]);
      var lv := last[order[i]];
      if order[i] in curIds || order[i] in disabled || lv.kind.Gone? {
        continue;
      }
      added := added + [GoneRow(lv, stamp)];
    }
    assert order[..|order|] == order;
  }

  function Get(last: map<string, ItemVersion>, iid: string): Option<ItemVersion> {
    if iid in last then Some(last[iid]) else None
  }

  /** The branches of the report loop: which kind of row, if any, an item adds. */
  method VersionRowFor(lv: Option<ItemVersion>, stamp: Stamp, it: ReportItem) returns (rows: seq<ItemVersion>)
    ensures rows == ItemRow(lv, stamp, it)
  {
    rows := [];
    if lv.None? || lv.value.kind.Gone? {
      rows := [Row(stamp, it.Id(), it.cat, New, BLANK, it.Shown())];
    } else if lv.value.status != it.Shown().status {
      rows := [Row(stamp, it.Id(), it.cat, StatusChanged, lv.value.Shown(), it.Shown())];
    } else if lv.value.desc != it.Shown().desc {
      rows := [Row(stamp, it.Id(), it.cat, DescChanged, lv.value.Shown(), it.Shown())];
    }
  }

  method ReportVersionRows(ghost log: seq<ItemVersion>, last: map<string, ItemVersion>, stamp: Stamp,
                           items: seq<ReportItem>) returns (added: seq<ItemVersion>, curIds: set<string>)
    requires forall iid :: Get(last, iid) == Latest(log, iid)
    ensures added == ItemRows(log, stamp, items) && curIds == ReportedIds(items)
  {
    added, curIds := [], {};
    for i := 0 to |items|
      invariant added == ItemRows(log, stamp, items[..i])
      invariant curIds == ReportedIds(items[..i])
    {
      var it := items[i];
      assert items[..i + 1] == items[..i] + [it];
      curIds := curIds + {it.Id()};
      var rows := VersionRowFor(Get(last, it.Id()), stamp, it);
      added := added + rows;
    }
    assert items[..|items|] == items;
  }

  /** `_trim_versions`: the host's oldest rows are deleted once there are more than the cap. */
  method TrimVersions(db: Database, host: int)
    modifies db`versions
    ensures db.versions == DropOldest(old(db.versions), host, Overflow(old(db.versions), host))
  {
    var n := |Where(db.versions, VersionOfHost(host))|;
    if n <= VERSIONS_CAP_PER_HOST {
      return;
    }
    DeleteOldest(db, host, n - VERSIONS_CAP_PER_HOST);
  }

  /** DELETE of a host's `overflow` oldest version rows. */
  method DeleteOldest(db: Database, host: int, overflow: nat)
    modifies db`versions
    ensures db.versions == DropOldest(old(db.versions), host, overflow)
  {
    var table, left := db.versions, overflow;
    var kept: seq<ItemVersion> := [];
    for i := 0 to |table|
      invariant DropOldest(table, host, overflow) == kept + DropOldest(table[i..], host, left)
    {
      var rest := table[i..];
      assert rest[0] == table[i] && rest[1..] == table[i + 1..];
      if left > 0 && table[i].hostId == host {
        left := left - 1;
      } else {
        KeepFirst(rest, host, left);
        kept := kept + [table[i]];
      }
    }
    db.versions := kept;
  }

  lemma KeepFirst(table: seq<ItemVersion>, host: int, n: nat)
    requires table != [] && (n == 0 || table[0].hostId != host)
    ensures DropOldest(table, host, n) == [table[0]] + DropOldest(table[1..], host, n)
  {
  }

  // ----- storing a report -----

  /** A stored run and whether the recovery notice is due, or the exception that undid everything. */
  datatype SaveOutcome = Saved(runId: int, recovered: bool) | Raised

  function DisabledFor(disables: set<(string, string)>, family: string): (ids: set<string>)
    ensures forall iid :: iid in ids <==> (family, iid) in disables
  {
    set d | d in disables && d.0 == family :: d.1
  }

  function SavedId(runs: seq<CheckRun>, run: Option<int>): int {
    if run.Some? then run.value else NextRunId(runs)
  }

  /** The run table with the run closed as successful: an existing row updated, or a new one. */
  function SavedRuns(runs: seq<CheckRun>, host: int, run: Option<int>, cnt: Counts, total: nat, now: int): seq<CheckRun>
    requires run.Some? ==> FindRun(runs, run.value).Some?
  {
    if run.Some? then
      PutRun(runs, run.value, FindRun(runs, run.value).value.(
        status := Success, finishedAt := Some(now), counts := cnt, total := total))
    else runs + [CheckRun(NextRunId(runs), host, Success, now, Some(now), cnt, total)]
  }

  function AppendVersions(table: seq<ItemVersion>, stamp: Stamp, items: seq<ReportItem>, disabled: set<string>):
    seq<ItemVersion>
  {
    var all := table + Recorded(Where(table, VersionOfHost(stamp.hostId)), stamp, items, disabled);
    DropOldest(all, stamp.hostId, Overflow(all, stamp.hostId))
  }

  function Recovered(h: Host, now: int): Host {
    h.(lastCheckedAt := Some(now), lastRunStatus := LastSuccess, offlineAlerted := false)
  }

  /** The tables after a report was stored under a new run or an existing one. */
  function SavedTables(t: Tables, host: int, disabled: set<string>, raw: seq<ReportItem>, run: Option<int>,
                       now: int): Tables
    requires FindHost(t.hosts, host).Some? && (run.Some? ==> FindRun(t.runs, run.value).Some?)
  {
    var items := Kept(raw, disabled);
    var id := SavedId(t.runs, run);
    var runs := SavedRuns(t.runs, host, run, CountsOf(items), |items|, now);
    var results := t.results + StoredRows(id, items);
    Tables(PutHost(t.hosts, host, Recovered(FindHost(t.hosts, host).value, now)), runs, results,
           t.changes + Changes(RecentRows(runs, results, host, id), Stamp(host, id, now), items, disabled),
           AppendVersions(t.versions, Stamp(host, id, now), items, disabled), t.disables)
  }

  method StoreRun(db: Database, host: int, run: Option<int>, cnt: Counts, total: nat, now: int) returns (runId: int)
    requires run.Some? ==> FindRun(db.runs, run.value).Some?
    modifies db`runs
    ensures runId == SavedId(old(db.runs), run)
    ensures db.runs == SavedRuns(old(db.runs), host, run, cnt, total, now)
  {
    if run.Some? {
      runId := run.value;
      var row := FindRun(db.runs, runId).value;
      db.runs := PutRun(db.runs, runId,
                        row.(status := Success, finishedAt := Some(now), counts := cnt, total := total));
    } else {
      runId := NextRunId(db.runs);
      db.runs := db.runs + [CheckRun(runId, host, Success, now, Some(now), cnt, total)];
    }
  }

  method StoreItems(db: Database, runId: int, items: seq<ReportItem>)
    modifies db`results
    ensures db.results == old(db.results) + StoredRows(runId, items)
  {
    for i := 0 to |items|
      invariant db.results == old(db.results) + StoredRows(runId, items[..i])
    {
      assert StoredRows(runId, items[..i + 1]) == StoredRows(runId, items[..i]) + [StoredRow(runId, items[i])];
      db.results := db.results + [StoredRow(runId, items[i])];
    }
    assert items[..|items|] == items;
  }

  method RecordHistory(db: Database, host: int, run: int, items: seq<ReportItem>, disabled: set<string>, now: int)
    modifies db`changes, db`versions
    ensures db.changes == old(db.changes)
                        + Changes(RecentRows(db.runs, db.results, host, run), Stamp(host, run, now), items, disabled)
    ensures db.versions == AppendVersions(old(db.versions), Stamp(host, run, now), items, disabled)
  {
    hide Where, DropOldest, Recorded, Changes, RecentRows;
    RecordChanges(db, host, run, items, disabled, now);
    RecordVersions(db, host, run, items, disabled, now);
    TrimVersions(db, host);
  }

  /**
   `save_report`. `family` is None when the family cannot be resolved; a host or a run row that
   has disappeared makes the commit fail. In all of these cases nothing is stored.
   */
  method SaveReport(db: Database, host: int, family: Option<string>, raw: seq<ReportItem>, run: Option<int>,
                    alertOnRecovery: bool, now: int) returns (outcome: SaveOutcome)
    modifies db
    ensures outcome.Raised? <==> family.None? || FindHost(old(db.hosts), host).None?
                                 || (run.Some? && FindRun(old(db.runs), run.value).None?)
    ensures outcome.Raised? ==> db.Contents() == old(db.Contents())
    ensures outcome.Saved? ==>
      var h := FindHost(old(db.hosts), host).value;
      && db.Contents() == SavedTables(old(db.Contents()), host, DisabledFor(old(db.disables), family.value), raw, run, now)
      && outcome.runId == (if run.Some? then run.value else NextRunId(old(db.runs)))
      && outcome.recovered == (alertOnRecovery && (h.lastRunStatus.LastFailed? || h.offlineAlerted))
  {
    hide FindRun, FindHost, CountsOf, Where, DropOldest, Collect;
    if family.None? || FindHost(db.hosts, host).None? || (run.Some? && FindRun(db.runs, run.value).None?) {
      return Raised;
    }
    ghost var t := db.Contents();
    var h := FindHost(db.hosts, host).value;
    var disabled := DisabledFor(db.disables, family.value);
    var items, cnt := CountItems(Where(raw, Enabled(disabled)));
    var runId := StoreRun(db, host, run, cnt, |items|, now);
    StoreItems(db, runId, items);
    RecordHistory(db, host, runId, items, disabled, now);
    db.hosts := PutHost(db.hosts, host, Recovered(h, now));
    SavedIs(t, db.Contents(), host, disabled, raw, run, now);
    outcome := Saved(runId, (h.lastRunStatus.LastFailed? || h.offlineAlerted) && alertOnRecovery);
  }

  lemma SavedIs(t: Tables, after: Tables, host: int, disabled: set<string>, raw: seq<ReportItem>, run: Option<int>,
                now: int)
    requires FindHost(t.hosts, host).Some? && (run.Some? ==> FindRun(t.runs, run.value).Some?)
    ensures var items, id := Kept(raw, disabled), SavedId(t.runs, run);
      && after.runs == SavedRuns(t.runs, host, run, CountsOf(items), |items|, now)
      && after.results == t.results + StoredRows(id, items)
      && after.changes == t.changes
           + Changes(RecentRows(after.runs, after.results, host, id), Stamp(host, id, now), items, disabled)
      && after.versions == AppendVersions(t.versions, Stamp(host, id, now), items, disabled)
      && after.hosts == PutHost(t.hosts, host, Recovered(FindHost(t.hosts, host).value, now))
      && after.disables == t.disables
      ==> after == SavedTables(t, host, disabled, raw, run, now)
  {
    hide FindRun, FindHost, CountsOf, Where, DropOldest, Collect;
  }

  // ----- closing runs -----

  function MarkFailed(h: Host, now: int): Host {
    h.(lastCheckedAt := Some(now), lastRunStatus := LastFailed)
  }

  function Closed(r: CheckRun, now: int): CheckRun { r.(status := Failed, finishedAt := Some(now)) }

  /** `_finish_failed`; the result says whether the failure alert is due. */
  method FinishFailed(db: Database, run: int, host: int, now: int) returns (alert: bool)
    modifies db`runs, db`hosts
    ensures var r, h := FindRun(old(db.runs), run), FindHost(old(db.hosts), host);
      if r.None? then !alert && db.runs == old(db.runs) && db.hosts == old(db.hosts)
      else
        && db.runs == PutRun(old(db.runs), run, r.value.(status := Failed, finishedAt := Some(now)))
        && db.hosts == (if h.None? then old(db.hosts)
                        else PutHost(old(db.hosts), host, h.value.(lastCheckedAt := Some(now), lastRunStatus := LastFailed)))
        && (alert <==> !(h.Some? && h.value.lastRunStatus.LastFailed?))
  {
    var r := FindRun(db.runs, run);
    var h := FindHost(db.hosts, host);
    if r.None? {
      return false;
    }
    db.runs := PutRun(db.runs, run, Closed(r.value, now));
    var prev := NeverRun;
    if h.Some? {
      prev := h.value.lastRunStatus;
      db.hosts := PutHost(db.hosts, host, MarkFailed(h.value, now));
    }
    alert := !prev.LastFailed?;
  }

  function ForceClosed(h: Host): Host { h.(lastRunStatus := LastFailed) }

  function Closing(ids: set<int>, now: int): CheckRun -> CheckRun {
    (r: CheckRun) => if r.id in ids then Closed(r, now) else r
  }

  function ForceClosing(ids: set<int>): Host -> Host {
    (h: Host) => if h.id in ids then ForceClosed(h) else h
  }

  /** UPDATE of the runs with the given ids to failed. */
  function CloseRuns(runs: seq<CheckRun>, ids: set<int>, now: int): seq<CheckRun> {
    Collect(runs, Closing(ids, now))
  }

  function CloseHosts(hosts: seq<Host>, ids: set<int>): seq<Host> {
    Collect(hosts, ForceClosing(ids))
  }

  lemma CloseMore(runs: seq<CheckRun>, ids: set<int>, more: set<int>, now: int)
    ensures CloseRuns(CloseRuns(runs, ids, now), more, now) == CloseRuns(runs, ids + more, now)
  {
  }

  lemma CloseMoreHosts(hosts: seq<Host>, ids: set<int>, more: set<int>)
    ensures CloseHosts(CloseHosts(hosts, ids), more) == CloseHosts(hosts, ids + more)
  {
  }

  function IdsOf(batch: seq<CheckRun>): set<int> { set r | r in batch :: r.id }

  function HostsOf(batch: seq<CheckRun>): set<int> { set r | r in batch :: r.hostId }

  lemma BatchNext(batch: seq<CheckRun>, run: CheckRun)
    ensures IdsOf(batch + [run]) == IdsOf(batch) + {run.id}
    ensures HostsOf(batch + [run]) == HostsOf(batch) + {run.hostId}
  {
  }

  /** `_fail_running_runs`: a batch of runs is closed and their hosts are marked failed, silently. */
  method FailRunningRuns(db: Database, batch: seq<CheckRun>, now: int)
    modifies db`runs, db`hosts
    ensures db.runs == CloseRuns(old(db.runs), IdsOf(batch), now)
    ensures db.hosts == CloseHosts(old(db.hosts), HostsOf(batch))
  {
    for i := 0 to |batch|
      invariant db.runs == CloseRuns(old(db.runs), IdsOf(batch[..i]), now)
      invariant db.hosts == CloseHosts(old(db.hosts), HostsOf(batch[..i]))
    {
      var run := batch[i];
      assert batch[..i + 1] == batch[..i] + [run];
      BatchNext(batch[..i], run);
      CloseMore(old(db.runs), IdsOf(batch[..i]), {run.id}, now);
      CloseMoreHosts(old(db.hosts), HostsOf(batch[..i]), {run.hostId});
      db.runs := CloseRuns(db.runs, {run.id}, now);
      db.hosts := CloseHosts(db.hosts, {run.hostId});
    }
    assert batch[..|batch|] == batch;
  }

  function StaleRun(cutoff: int): CheckRun -> bool {
    (r: CheckRun) => r.status.Running? && r.startedAt < cutoff
  }

  /** The tables after every run selected by `p` was closed at `now`. */
  function ClosedRuns(runs: seq<CheckRun>, p: CheckRun -> bool, now: int): seq<CheckRun> {
    CloseRuns(runs, IdsOf(Where(runs, p)), now)
  }

  function ClosedHosts(hosts: seq<Host>, runs: seq<CheckRun>, p: CheckRun -> bool): seq<Host> {
    CloseHosts(hosts, HostsOf(Where(runs, p)))
  }

  /**
   With distinct run ids, closing touches exactly the selected runs and the hosts they belong
   to; no check time and no other run changes.
   */
  lemma ClosedExactly(runs: seq<CheckRun>, hosts: seq<Host>, p: CheckRun -> bool, now: int)
    requires RunsOrdered(runs)
    ensures |ClosedRuns(runs, p, now)| == |runs| && |ClosedHosts(hosts, runs, p)| == |hosts|
    ensures forall i :: 0 <= i < |runs| ==>
      ClosedRuns(runs, p, now)[i]
        == if p(runs[i]) then runs[i].(status := Failed, finishedAt := Some(now)) else runs[i]
    ensures forall k :: 0 <= k < |hosts| ==>
      ClosedHosts(hosts, runs, p)[k]
        == if exists r :: r in runs && p(r) && r.hostId == hosts[k].id then hosts[k].(lastRunStatus := LastFailed)
           else hosts[k]
  {
    WhereMembers(runs, p);
    var ids := IdsOf(Where(runs, p));
    forall i | 0 <= i < |runs| ensures runs[i].id in ids <==> p(runs[i]) {
      if runs[i].id in ids {
        var r :| r in Where(runs, p) && r.id == runs[i].id;
        var j :| 0 <= j < |runs| && runs[j] == r;
        assert i == j;
      }
    }
  }

  /** Every run that was running and started before the cutoff is failed as of `now`; no other run changes. */
  ghost predicate StaleClosed(before: seq<CheckRun>, after: seq<CheckRun>, cutoff: int, now: int) {
    && |after| == |before|
    && forall i :: 0 <= i < |before| ==>
         after[i] == if before[i].status.Running? && before[i].startedAt < cutoff
                     then before[i].(status := Failed, finishedAt := Some(now)) else before[i]
  }

  /** Every host with such a run counts as failed; no other host changes. */
  ghost predicate StaleMarked(before: seq<Host>, after: seq<Host>, runs: seq<CheckRun>, cutoff: int) {
    && |after| == |before|
    && forall k :: 0 <= k < |before| ==>
         after[k] == if exists r :: r in runs && r.status.Running? && r.startedAt < cutoff && r.hostId == before[k].id
                     then before[k].(lastRunStatus := LastFailed) else before[k]
  }

  lemma StaleClosedIs(runs: seq<CheckRun>, hosts: seq<Host>, cutoff: int, now: int)
    requires RunsOrdered(runs)
    ensures StaleClosed(runs, ClosedRuns(runs, StaleRun(cutoff), now), cutoff, now)
    ensures StaleMarked(hosts, ClosedHosts(hosts, runs, StaleRun(cutoff)), runs, cutoff)
  {
    hide ClosedRuns, ClosedHosts;
    ClosedExactly(runs, hosts, StaleRun(cutoff), now);
  }

  ghost function StalePlaces(runs: seq<CheckRun>, cutoff: int): set<int> {
    set i | 0 <= i < |runs| && runs[i].status.Running? && runs[i].startedAt < cutoff
  }

  /** `expire_stale_runs` */
  method ExpireStaleRuns(db: Database, olderThan: int, now: int) returns (n: nat)
    modifies db`runs, db`hosts
    ensures db.runs == ClosedRuns(old(db.runs), StaleRun(now - olderThan), now)
    ensures db.hosts == ClosedHosts(old(db.hosts), old(db.runs), StaleRun(now - olderThan))
    ensures RunsOrdered(old(db.runs)) ==> StaleClosed(old(db.runs), db.runs, now - olderThan, now)
    ensures RunsOrdered(old(db.runs)) ==> StaleMarked(old(db.hosts), db.hosts, old(db.runs), now - olderThan)
    ensures n == |StalePlaces(old(db.runs), now - olderThan)|
  {
    hide Where, StaleClosed, StaleMarked;
    var batch := Where(db.runs, StaleRun(now - olderThan));
    WhereCounts(db.runs, StaleRun(now - olderThan));
    assert Places(db.runs, StaleRun(now - olderThan)) == StalePlaces(db.runs, now - olderThan);
    if RunsOrdered(db.runs) { StaleClosedIs(db.runs, db.hosts, now - olderThan, now); }
    FailRunningRuns(db, batch, now);
    n := |batch|;
  }

  /** After a restart no run is running: every one that was is failed as of `now`, with its host. */
  ghost predicate OrphansClosed(before: seq<CheckRun>, after: seq<CheckRun>, hosts: seq<Host>, marked: seq<Host>,
                                now: int)
  {
    && |after| == |before| && |marked| == |hosts|
    && (forall i :: 0 <= i < |before| ==>
          after[i] == if before[i].status.Running? then before[i].(status := Failed, finishedAt := Some(now))
                      else before[i])
    && forall k :: 0 <= k < |hosts| ==>
         marked[k] == if exists r :: r in before && r.status.Running? && r.hostId == hosts[k].id
                      then hosts[k].(lastRunStatus := LastFailed) else hosts[k]
  }

  ghost function RunningPlaces(runs: seq<CheckRun>): set<int> {
    set i | 0 <= i < |runs| && runs[i].status.Running?
  }

  lemma OrphansClosedIs(runs: seq<CheckRun>, hosts: seq<Host>, now: int)
    requires RunsOrdered(runs)
    ensures OrphansClosed(runs, ClosedRuns(runs, RunIsRunning(), now), hosts, ClosedHosts(hosts, runs, RunIsRunning()), now)
  {
    hide ClosedRuns, ClosedHosts;
    ClosedExactly(runs, hosts, RunIsRunning(), now);
  }

  /** `reset_orphan_runs` */
  method ResetOrphanRuns(db: Database, now: int) returns (n: nat)
    modifies db`runs, db`hosts
    ensures db.runs == ClosedRuns(old(db.runs), RunIsRunning(), now)
    ensures db.hosts == ClosedHosts(old(db.hosts), old(db.runs), RunIsRunning())
    ensures RunsOrdered(old(db.runs)) ==> OrphansClosed(old(db.runs), db.runs, old(db.hosts), db.hosts, now)
    ensures n == |RunningPlaces(old(db.runs))|
  {
    hide Where, OrphansClosed;
    var batch := Where(db.runs, RunIsRunning());
    WhereCounts(db.runs, RunIsRunning());
    assert Places(db.runs, RunIsRunning()) == RunningPlaces(db.runs);
    if RunsOrdered(db.runs) { OrphansClosedIs(db.runs, db.hosts, now); }
    FailRunningRuns(db, batch, now);
    n := |batch|;
  }
}
