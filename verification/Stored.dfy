/**
 What the rows written with a report say, field by field: the run, its results, the host, and the
 rows of both logs, each in terms of the report, the rows that were there and the clock.
 */
module Stored {
  import opened Queries
  import opened Records
  import opened Store
  import opened VersionLog
  import opened VersionReplay
  import opened ResultChanges
  import opened Trimming
  import opened Checker

  /** `t` is `s`, or its first `n` characters when it is longer. */
  ghost predicate CutTo(t: string, s: string, n: nat) { t <= s && |t| == if |s| <= n then |s| else n }

  lemma CutIs(s: string, n: nat)
    ensures forall t :: t == Cut(s, n) <==> CutTo(t, s, n)
  {
  }

  // ----- the change list -----

  /** A change row about an item of the report: before it, the last word of the previous run, if it counts. */
  ghost predicate SaysReported(c: ResultChange, prev: seq<CheckResult>, items: seq<ReportItem>, disabled: set<string>) {
    && (exists it :: it in items && CutTo(c.item, it.id, 80) && CutTo(c.cat, it.cat, 80)
                     && CutTo(c.after, it.status, 10) && CutTo(c.desc, it.desc, 600))
    && (forall p :: LastOfItem(prev, p) && p.item == c.item && c.item !in disabled ==>
          c.before == p.status && c.before != c.after)
    && (c.item in disabled || (forall p :: p in prev ==> p.item != c.item) ==> c.before == "")
  }

  /** A change row about an item that the report no longer has. */
  ghost predicate SaysGone(c: ResultChange, prev: seq<CheckResult>, items: seq<ReportItem>, disabled: set<string>) {
    exists p ::
      && LastOfItem(prev, p) && p.item !in disabled && (forall it :: it in items ==> !CutTo(p.item, it.id, 80))
      && c.item == p.item && c.cat == p.cat && c.before == p.status && c.after == "" && c.desc == p.desc
  }

  lemma {:induction false} ItemChangeFrom(prev: seq<CheckResult>, seen: set<string>, stamp: Stamp,
                                          items: seq<ReportItem>, c: ResultChange)
    requires c in ItemChanges(prev, seen, stamp, items)
    ensures exists it :: it in items && c in ItemChange(RowOf(prev, it.Id()), seen, stamp, it)
  {
    hide ItemChange, RowOf;
    var n := |items| - 1;
    assert items[n] in items;
    if c !in ItemChange(RowOf(prev, items[n].Id()), seen, stamp, items[n]) {
      ItemChangeFrom(prev, seen, stamp, items[..n], c);
    }
  }

  lemma {:induction false} GoneChangeFrom(prev: seq<CheckResult>, order: seq<string>, reported: set<string>,
                                          stamp: Stamp, c: ResultChange)
    requires c in GoneChanges(prev, order, reported, stamp)
    ensures exists iid :: iid in order && c in VanishedChange(RowOf(prev, iid), reported, stamp)
  {
    hide VanishedChange, RowOf;
    var n := |order| - 1;
    assert order[n] in order;
    if c !in VanishedChange(RowOf(prev, order[n]), reported, stamp) {
      GoneChangeFrom(prev, order[..n], reported, stamp, c);
    }
  }

  /** The dictionary of the previous run, switched-off items left out, holds last rows. */
  lemma ComparedIs(prev: seq<CheckResult>, disabled: set<string>, iid: string)
    ensures var q := RowOf(Where(prev, Comparable(disabled)), iid);
      && (q.Some? ==> LastOfItem(prev, q.value) && q.value in prev && q.value.item == iid && iid !in disabled)
      && (q.None? ==> iid in disabled || forall p :: p in prev ==> p.item != iid)
      && (forall p :: LastOfItem(prev, p) && p.item == iid && iid !in disabled ==> q == Some(p))
  {
    hide LastOfItem, RowOf;
    ComparedRow(prev, disabled, iid);
    RowNone(prev, iid);
    forall p: CheckResult ensures RowOf(prev, p.item) == Some(p) <==> LastOfItem(prev, p) { RowOfIs(prev, p); }
  }

  lemma NotReported(items: seq<ReportItem>, iid: string)
    ensures iid in ReportedIds(items) <==> exists it :: it in items && CutTo(iid, it.id, 80)
  {
    forall it: ReportItem ensures it.Id() == iid <==> CutTo(iid, it.id, 80) { CutIs(it.id, 80); }
  }

  /**
   Every change row carries the host, the run and the time, and says what the report says about its
   item, cut to the columns, or, for a vanished item, what the previous run's last row says.
   */
  lemma ChangeRowsSay(past: seq<seq<CheckResult>>, stamp: Stamp, items: seq<ReportItem>, disabled: set<string>,
                      c: ResultChange)
    requires c in Changes(past, stamp, items, disabled)
    ensures c.hostId == stamp.hostId && c.runId == stamp.runId && c.detectedAt == stamp.at
    ensures past != [] && (SaysReported(c, past[0], items, disabled) || SaysGone(c, past[0], items, disabled))
  {
    hide LastOfItem, RowOf, CutTo, RowItems, ReportedIds, SeenIn, Comparable, SaysReported, SaysGone;
    var prev := Compared(past, disabled);
    if c in ItemChanges(prev, SeenIn(past), stamp, items) {
      ItemChangeFrom(prev, SeenIn(past), stamp, items, c);
      var it :| it in items && c in ItemChange(RowOf(prev, it.Id()), SeenIn(past), stamp, it);
      ReportedRow(past[0], SeenIn(past), stamp, items, disabled, it, c);
    } else {
      GoneChangeFrom(prev, RowItems(prev), ReportedIds(items), stamp, c);
      var iid :| iid in RowItems(prev) && c in VanishedChange(RowOf(prev, iid), ReportedIds(items), stamp);
      VanishedRow(past[0], stamp, items, disabled, iid, c);
    }
  }

  lemma ReportedRow(prev: seq<CheckResult>, seen: set<string>, stamp: Stamp, items: seq<ReportItem>,
                    disabled: set<string>, it: ReportItem, c: ResultChange)
    requires it in items && c in ItemChange(RowOf(Where(prev, Comparable(disabled)), it.Id()), seen, stamp, it)
    ensures c.hostId == stamp.hostId && c.runId == stamp.runId && c.detectedAt == stamp.at
    ensures SaysReported(c, prev, items, disabled)
  {
    hide LastOfItem, RowOf, CutTo, Cut, Where;
    ComparedIs(prev, disabled, it.Id());
    CutIs(it.id, 80);
    CutIs(it.cat, 80);
    CutIs(it.status, 10);
    CutIs(it.desc, 600);
  }

  lemma VanishedRow(prev: seq<CheckResult>, stamp: Stamp, items: seq<ReportItem>, disabled: set<string>, iid: string,
                    c: ResultChange)
    requires c in VanishedChange(RowOf(Where(prev, Comparable(disabled)), iid), ReportedIds(items), stamp)
    ensures c.hostId == stamp.hostId && c.runId == stamp.runId && c.detectedAt == stamp.at
    ensures SaysGone(c, prev, items, disabled)
  {
    hide LastOfItem, RowOf, CutTo, Where, ReportedIds;
    ComparedIs(prev, disabled, iid);
    NotReported(items, iid);
  }

  // ----- the version log -----

  /** The last row logged about its item. */
  ghost predicate LastLogged(log: seq<ItemVersion>, l: ItemVersion) {
    exists i :: 0 <= i < |log| && log[i] == l && forall j :: i < j < |log| ==> log[j].item != l.item
  }

  /** The row's kind and what it says came before, given the log it was written to. */
  ghost predicate Follows(v: ItemVersion, log: seq<ItemVersion>) {
    && (log == [] ==> v.kind.Initial? && v.beforeStatus == "" && v.beforeDesc == "")
    && (log != [] && (forall l :: l in log ==> l.item != v.item) ==>
          v.kind.New? && v.beforeStatus == "" && v.beforeDesc == "")
    && (forall l :: LastLogged(log, l) && l.item == v.item ==>
          if l.kind.Gone? then v.kind.New? && v.beforeStatus == "" && v.beforeDesc == ""
          else
            && v.beforeStatus == l.status && v.beforeDesc == l.desc
            && v.kind == (if l.status != v.status then StatusChanged else DescChanged)
            && (l.status != v.status || l.desc != v.desc))
  }

  /** A version row about an item of the report. */
  ghost predicate LogsReported(v: ItemVersion, log: seq<ItemVersion>, items: seq<ReportItem>) {
    && Follows(v, log)
    && exists it :: it in items && CutTo(v.item, it.id, 80) && CutTo(v.cat, it.cat, 80)
                    && CutTo(v.status, it.status, 10) && CutTo(v.desc, it.desc, 600)
  }

  /** A version row about an item that the report no longer has. */
  ghost predicate LogsGone(v: ItemVersion, log: seq<ItemVersion>, items: seq<ReportItem>, disabled: set<string>) {
    exists l ::
      && LastLogged(log, l) && !l.kind.Gone? && l.item !in disabled
      && (forall it :: it in items ==> !CutTo(l.item, it.id, 80))
      && v.kind.Gone? && v.item == l.item && CutTo(v.cat, l.cat, 80) && v.status == "" && v.desc == ""
      && v.beforeStatus == l.status && v.beforeDesc == l.desc
  }

  lemma LastLoggedNext(log: seq<ItemVersion>, v: ItemVersion, l: ItemVersion)
    ensures LastLogged(log + [v], l) <==> if v.item == l.item then v == l else LastLogged(log, l)
  {
    var more := log + [v];
    assert more[|log|] == v;
    if LastLogged(more, l) && v.item != l.item {
      var i :| 0 <= i < |more| && more[i] == l && forall j :: i < j < |more| ==> more[j].item != l.item;
      assert i < |log| && log[i] == l && forall j :: i < j < |log| ==> log[j] == more[j];
    }
    if LastLogged(log, l) && v.item != l.item {
      var i :| 0 <= i < |log| && log[i] == l && forall j :: i < j < |log| ==> log[j].item != l.item;
      assert more[i] == l && forall j :: i < j < |log| ==> more[j] == log[j];
    }
  }

  lemma {:induction false} LatestIs(log: seq<ItemVersion>, l: ItemVersion)
    ensures Latest(log, l.item) == Some(l) <==> LastLogged(log, l)
  {
    if log != [] {
      hide LastLogged;
      var n := |log| - 1;
      LatestIs(log[..n], l);
      LastLoggedNext(log[..n], log[n], l);
      assert log == log[..n] + [log[n]];
    }
  }

  lemma {:induction false} BaselineFrom(stamp: Stamp, items: seq<ReportItem>, v: ItemVersion)
    requires v in Baseline(stamp, items)
    ensures exists it :: it in items && v == InitialRow(stamp, it)
  {
    hide InitialRow;
    var n := |items| - 1;
    assert items[n] in items;
    if v != InitialRow(stamp, items[n]) { BaselineFrom(stamp, items[..n], v); }
  }

  lemma {:induction false} ItemRowFrom(log: seq<ItemVersion>, stamp: Stamp, items: seq<ReportItem>, v: ItemVersion)
    requires v in ItemRows(log, stamp, items)
    ensures exists it :: it in items && v in ItemRow(Latest(log, it.Id()), stamp, it)
  {
    hide ItemRow, Latest;
    var n := |items| - 1;
    assert items[n] in items;
    if v !in ItemRow(Latest(log, items[n].Id()), stamp, items[n]) { ItemRowFrom(log, stamp, items[..n], v); }
  }

  lemma {:induction false} GoneRowFrom(log: seq<ItemVersion>, stamp: Stamp, order: seq<string>, reported: set<string>,
                                       disabled: set<string>, v: ItemVersion)
    requires v in GoneRows(log, stamp, order, reported, disabled)
    ensures exists iid :: iid in order && v in Vanished(Latest(log, iid), stamp, iid, reported, disabled)
  {
    hide Vanished, Latest;
    var n := |order| - 1;
    assert order[n] in order;
    if v !in Vanished(Latest(log, order[n]), stamp, order[n], reported, disabled) {
      GoneRowFrom(log, stamp, order[..n], reported, disabled, v);
    }
  }

  /**
   Every version row carries the host, the run and the time. It says what the report says about its
   item and, as what came before, what the item's last logged row said; or, for a vanished item,
   only the latter.
   */
  lemma VersionRowsSay(log: seq<ItemVersion>, stamp: Stamp, items: seq<ReportItem>, disabled: set<string>,
                       v: ItemVersion)
    requires v in Recorded(log, stamp, items, disabled) && Fits(log)
    ensures v.hostId == stamp.hostId && v.runId == stamp.runId && v.recordedAt == stamp.at
    ensures LogsReported(v, log, items) || LogsGone(v, log, items, disabled)
  {
    hide Latest, LoggedItems, ReportedIds, InitialRow, ItemRow, Vanished, Fits, LogsReported, LogsGone;
    if log == [] {
      BaselineFrom(stamp, items, v);
      var it :| it in items && v == InitialRow(stamp, it);
      InitialSays(stamp, items, it);
    } else if v in ItemRows(log, stamp, items) {
      ItemRowFrom(log, stamp, items, v);
      var it :| it in items && v in ItemRow(Latest(log, it.Id()), stamp, it);
      ItemRowSays(log, stamp, items, it, v);
    } else {
      GoneRowFrom(log, stamp, LoggedItems(log), ReportedIds(items), disabled, v);
      var iid :| iid in LoggedItems(log) && v in Vanished(Latest(log, iid), stamp, iid, ReportedIds(items), disabled);
      GoneRowSays(log, stamp, items, disabled, iid, v);
    }
  }

  lemma InitialSays(stamp: Stamp, items: seq<ReportItem>, it: ReportItem)
    requires it in items
    ensures var v := InitialRow(stamp, it);
      && v.hostId == stamp.hostId && v.runId == stamp.runId && v.recordedAt == stamp.at
      && LogsReported(v, [], items)
  {
    hide CutTo;
    CutIs(it.id, 80);
    CutIs(it.cat, 80);
    CutIs(it.status, 10);
    CutIs(it.desc, 600);
  }

  /** What a reported item's row says, given its last logged row. */
  lemma RowSays(last: Option<ItemVersion>, stamp: Stamp, it: ReportItem, v: ItemVersion)
    requires v in ItemRow(last, stamp, it)
    requires last.Some? ==> |last.value.status| <= STATUS_WIDTH && |last.value.desc| <= DESC_WIDTH
    ensures v.hostId == stamp.hostId && v.runId == stamp.runId && v.recordedAt == stamp.at
    ensures v.item == Cut(it.id, 80) && v.cat == Cut(it.cat, 80)
    ensures v.status == Cut(it.status, 10) && v.desc == Cut(it.desc, 600)
    ensures if last.None? || last.value.kind.Gone? then v.kind.New? && v.beforeStatus == "" && v.beforeDesc == ""
            else
              && v.beforeStatus == last.value.status && v.beforeDesc == last.value.desc
              && v.kind == (if last.value.status != v.status then StatusChanged else DescChanged)
              && (last.value.status != v.status || last.value.desc != v.desc)
  {
  }

  lemma ItemRowSays(log: seq<ItemVersion>, stamp: Stamp, items: seq<ReportItem>, it: ReportItem, v: ItemVersion)
    requires it in items && v in ItemRow(Latest(log, it.Id()), stamp, it) && Fits(log) && log != []
    ensures v.hostId == stamp.hostId && v.runId == stamp.runId && v.recordedAt == stamp.at
    ensures LogsReported(v, log, items)
  {
    hide Latest, LastLogged, CutTo, Cut, ItemRow;
    RowSays(Latest(log, it.Id()), stamp, it, v);
    forall l: ItemVersion ensures Latest(log, l.item) == Some(l) <==> LastLogged(log, l) { LatestIs(log, l); }
    LatestNone(log, it.Id());
    CutIs(it.id, 80);
    CutIs(it.cat, 80);
    CutIs(it.status, 10);
    CutIs(it.desc, 600);
  }

  lemma GoneRowSays(log: seq<ItemVersion>, stamp: Stamp, items: seq<ReportItem>, disabled: set<string>, iid: string,
                    v: ItemVersion)
    requires v in Vanished(Latest(log, iid), stamp, iid, ReportedIds(items), disabled) && Fits(log)
    ensures v.hostId == stamp.hostId && v.runId == stamp.runId && v.recordedAt == stamp.at
    ensures LogsGone(v, log, items, disabled)
  {
    hide Latest, LastLogged, CutTo, ReportedIds;
    var l := Latest(log, iid).value;
    LatestIs(log, l);
    NotReported(items, iid);
    CutIs(l.cat, 80);
  }

  // ----- the run, its results and its host -----

  /** A stored result row: the item as reported, cut; a status that is none of the five is `manual`. */
  ghost predicate StoresItem(row: CheckResult, run: int, it: ReportItem) {
    && row.runId == run && CutTo(row.item, it.id, 80) && CutTo(row.cat, it.cat, 80) && CutTo(row.desc, it.desc, 600)
    && row.status == if it.status in {"pass", "fail", "warn", "manual", "na"} then it.status else "manual"
  }

  /** One row for every item that is not switched off, in the order of the report; `at` says which. */
  ghost predicate StoresReport(rows: seq<CheckResult>, at: seq<nat>, run: int, raw: seq<ReportItem>,
                               disabled: set<string>)
  {
    && |rows| == |at| && (forall k, m :: 0 <= k < m < |at| ==> at[k] < at[m])
    && (forall i: nat :: i in at <==> i < |raw| && raw[i].id !in disabled)
    && forall k :: 0 <= k < |at| ==> at[k] < |raw| && StoresItem(rows[k], run, raw[at[k]])
  }

  lemma RowStores(run: int, it: ReportItem)
    ensures StoresItem(StoredRow(run, Normal(it)), run, it)
  {
    hide CutTo;
    CutIs(it.id, 80);
    CutIs(it.cat, 80);
    CutIs(it.desc, 600);
  }

  lemma {:induction false} RowsStore(run: int, raw: seq<ReportItem>, disabled: set<string>)
    ensures exists at :: StoresReport(StoredRows(run, Kept(raw, disabled)), at, run, raw, disabled)
  {
    hide StoresReport, StoresItem, Kept, StoredRows, StoredRow, Normal;
    if raw == [] {
      NothingStored(run, disabled);
    } else {
      var n := |raw| - 1;
      RowsStore(run, raw[..n], disabled);
      var at :| StoresReport(StoredRows(run, Kept(raw[..n], disabled)), at, run, raw[..n], disabled);
      RowStores(run, raw[n]);
      KeptNext(run, raw, disabled);
      NextStores(StoredRows(run, Kept(raw[..n], disabled)), at, run, raw, disabled, StoredRow(run, Normal(raw[n])));
    }
  }

  lemma NothingStored(run: int, disabled: set<string>)
    ensures StoresReport(StoredRows(run, Kept([], disabled)), [], run, [], disabled)
  {
    assert Kept([], disabled) == [];
  }

  lemma KeptNext(run: int, raw: seq<ReportItem>, disabled: set<string>)
    requires raw != []
    ensures var n := |raw| - 1;
      StoredRows(run, Kept(raw, disabled))
        == StoredRows(run, Kept(raw[..n], disabled))
           + if raw[n].id in disabled then [] else [StoredRow(run, Normal(raw[n]))]
  {
  }

  lemma NextStores(rows: seq<CheckResult>, at: seq<nat>, run: int, raw: seq<ReportItem>, disabled: set<string>,
                   row: CheckResult)
    requires raw != [] && StoresReport(rows, at, run, raw[..|raw| - 1], disabled)
    requires StoresItem(row, run, raw[|raw| - 1])
    ensures var n := |raw| - 1;
      if raw[n].id in disabled then StoresReport(rows + [], at, run, raw, disabled)
      else StoresReport(rows + [row], at + [n], run, raw, disabled)
  {
    hide StoresItem;
    var n := |raw| - 1;
    forall k | 0 <= k < |at| ensures at[k] < n && raw[..n][at[k]] == raw[at[k]] {}
    forall i: nat ensures i in at <==> i < n && raw[i].id !in disabled {
      assert i < n ==> raw[..n][i] == raw[i];
    }
    assert rows + [] == rows;
    if raw[n].id !in disabled {
      var more := at + [n];
      forall i: nat ensures i in more <==> i in at || i == n {}
    }
  }

  ghost function RowsSaying(rows: seq<CheckResult>, s: string): set<int> {
    set i | 0 <= i < |rows| && rows[i].status == s
  }

  /** Closed as successful at `now`, with its rows counted. */
  ghost predicate Finished(r: CheckRun, rows: seq<CheckResult>, now: int) {
    && r.status.Success? && r.finishedAt == Some(now) && r.total == |rows|
    && r.counts.pass == |RowsSaying(rows, "pass")| && r.counts.fail == |RowsSaying(rows, "fail")|
    && r.counts.warn == |RowsSaying(rows, "warn")| && r.counts.manual == |RowsSaying(rows, "manual")|
    && r.counts.na == |RowsSaying(rows, "na")|
  }

  lemma CountedRows(run: int, items: seq<ReportItem>, s: string)
    requires forall it :: it in items ==> Known(it.status)
    ensures |Where(items, StatusIs(s))| == |RowsSaying(StoredRows(run, items), s)|
  {
    hide Where;
    WhereCounts(items, StatusIs(s));
    var rows := StoredRows(run, items);
    forall i | 0 <= i < |items| ensures rows[i].status == items[i].status {
      assert items[i] in items && Cut(items[i].status, STATUS_WIDTH) == items[i].status;
    }
    assert Places(items, StatusIs(s)) == RowsSaying(rows, s);
  }

  lemma FinishedIs(r: CheckRun, run: int, items: seq<ReportItem>, now: int)
    requires forall it :: it in items ==> Known(it.status)
    requires r.status == Success && r.finishedAt == Some(now) && r.total == |items| && r.counts == CountsOf(items)
    ensures Finished(r, StoredRows(run, items), now)
  {
    hide Where, CountsOf, RowsSaying, Known;
    CountsAre(items);
    CountedRows(run, items, "pass");
    CountedRows(run, items, "fail");
    CountedRows(run, items, "warn");
    CountedRows(run, items, "manual");
    CountedRows(run, items, "na");
  }

  lemma KeptKnown(raw: seq<ReportItem>, disabled: set<string>)
    ensures forall it :: it in Kept(raw, disabled) ==> Known(it.status)
  {
  }

  lemma {:induction false} FindRunIs(runs: seq<CheckRun>, id: int)
    ensures FindRun(runs, id).Some? <==> exists r :: r in runs && r.id == id
  {
    if runs != [] {
      FindRunIs(runs[..|runs| - 1], id);
      assert runs == runs[..|runs| - 1] + [runs[|runs| - 1]];
    }
  }

  lemma {:induction false} FindHostIs(hosts: seq<Host>, id: int)
    ensures FindHost(hosts, id).Some? <==> exists h :: h in hosts && h.id == id
  {
    if hosts != [] {
      FindHostIs(hosts[..|hosts| - 1], id);
      assert hosts == hosts[..|hosts| - 1] + [hosts[|hosts| - 1]];
    }
  }

  /** The run row after the save: a new one with the next id, or the given one closed; no other run changes. */
  ghost predicate RunSaved(before: seq<CheckRun>, after: seq<CheckRun>, rows: seq<CheckResult>, host: int,
                           run: Option<int>, now: int)
  {
    match run
    case None =>
      && |after| == |before| + 1 && after[..|before|] == before
      && var r := after[|before|];
      && r.id == (if before == [] then 1 else before[|before| - 1].id + 1)
      && r.hostId == host && r.startedAt == now && Finished(r, rows, now)
    case Some(id) =>
      && |after| == |before|
      && forall i :: 0 <= i < |before| ==>
           if before[i].id != id then after[i] == before[i]
           else
             && after[i].id == id && after[i].hostId == before[i].hostId && after[i].startedAt == before[i].startedAt
             && Finished(after[i], rows, now)
  }

  /** The host row after the save: checked now, successful, and no longer marked as offline; no other host changes. */
  ghost predicate HostSaved(before: seq<Host>, after: seq<Host>, host: int, now: int) {
    && |after| == |before|
    && forall k :: 0 <= k < |before| ==>
         after[k] == if before[k].id != host then before[k]
                     else Host(before[k].id, before[k].mode, before[k].enabled, before[k].intervalMinutes, Some(now),
                               LastSuccess, false)
  }

  lemma SameRun(runs: seq<CheckRun>, id: int, i: nat)
    requires RunsOrdered(runs) && i < |runs| && runs[i].id == id
    ensures FindRun(runs, id) == Some(runs[i])
  {
    FindRunIs(runs, id);
    var r := FindRun(runs, id).value;
    var j :| 0 <= j < |runs| && runs[j] == r;
  }

  lemma SameHost(hosts: seq<Host>, id: int, k: nat)
    requires HostsOrdered(hosts) && k < |hosts| && hosts[k].id == id
    ensures FindHost(hosts, id) == Some(hosts[k])
  {
    FindHostIs(hosts, id);
    var h := FindHost(hosts, id).value;
    var j :| 0 <= j < |hosts| && hosts[j] == h;
  }

  /** What saving a report leaves in the tables of runs, results and hosts. */
  lemma SaveSays(t: Tables, host: int, disabled: set<string>, raw: seq<ReportItem>, run: Option<int>, now: int)
    requires RunsOrdered(t.runs) && HostsOrdered(t.hosts)
    requires FindHost(t.hosts, host).Some? && (run.Some? ==> FindRun(t.runs, run.value).Some?)
    ensures var after := SavedTables(t, host, disabled, raw, run, now);
      var n, id := |t.results|, SavedId(t.runs, run);
      && n <= |after.results| && after.results[..n] == t.results
      && RunSaved(t.runs, after.runs, after.results[n..], host, run, now)
      && id == (if run.Some? then run.value else after.runs[|t.runs|].id)
      && (exists at :: StoresReport(after.results[n..], at, id, raw, disabled))
      && HostSaved(t.hosts, after.hosts, host, now) && after.disables == t.disables
  {
    hide FindRun, FindHost, Finished, StoresReport, Kept, CountsOf, StoredRows, Changes, AppendVersions, RecentRows;
    var after := SavedTables(t, host, disabled, raw, run, now);
    var items, id := Kept(raw, disabled), SavedId(t.runs, run);
    var rows := StoredRows(id, items);
    assert after.results[|t.results|..] == rows;
    RowsStore(id, raw, disabled);
    RunSavedIs(t.runs, host, run, raw, disabled, now);
    forall k | 0 <= k < |t.hosts| && t.hosts[k].id == host ensures FindHost(t.hosts, host) == Some(t.hosts[k]) {
      SameHost(t.hosts, host, k);
    }
  }

  lemma RunSavedIs(runs: seq<CheckRun>, host: int, run: Option<int>, raw: seq<ReportItem>, disabled: set<string>,
                   now: int)
    requires RunsOrdered(runs) && (run.Some? ==> FindRun(runs, run.value).Some?)
    ensures var items, id := Kept(raw, disabled), SavedId(runs, run);
      RunSaved(runs, SavedRuns(runs, host, run, CountsOf(items), |items|, now), StoredRows(id, items), host, run, now)
  {
    hide FindRun, Finished, Kept, CountsOf, StoredRows;
    var items, id := Kept(raw, disabled), SavedId(runs, run);
    var after := SavedRuns(runs, host, run, CountsOf(items), |items|, now);
    KeptKnown(raw, disabled);
    if run.None? {
      FinishedIs(after[|runs|], id, items, now);
    } else {
      forall i | 0 <= i < |runs| && runs[i].id == id ensures Finished(after[i], StoredRows(id, items), now) {
        SameRun(runs, id, i);
        FinishedIs(after[i], id, items, now);
      }
      forall i | 0 <= i < |runs| && runs[i].id == id ensures FindRun(runs, id) == Some(runs[i]) { SameRun(runs, id, i); }
    }
  }

  lemma {:induction false} DropOldestMembers(table: seq<ItemVersion>, host: int, n: nat)
    ensures forall v :: v in DropOldest(table, host, n) ==> v in table
  {
    if table != [] && n != 0 {
      DropOldestMembers(table[1..], host, if table[0].hostId == host then n - 1 else n);
    }
  }

  /**
   And in the two logs: the change list grows at its end by rows of this host, this run and this
   moment, and so does the version log, of which only rows of this host are ever taken away.
   */
  lemma HistorySays(t: Tables, host: int, disabled: set<string>, raw: seq<ReportItem>, run: Option<int>, now: int)
    requires FindHost(t.hosts, host).Some? && (run.Some? ==> FindRun(t.runs, run.value).Some?) && Fits(t.versions)
    ensures var after := SavedTables(t, host, disabled, raw, run, now);
      var n, id := |t.changes|, if run.Some? then run.value else after.runs[|t.runs|].id;
      && n <= |after.changes| && after.changes[..n] == t.changes
      && (forall c :: c in after.changes[n..] ==> c.hostId == host && c.runId == id && c.detectedAt == now)
      && (forall v :: v in after.versions ==>
            v in t.versions || (v.hostId == host && v.runId == id && v.recordedAt == now))
  {
    hide FindRun, FindHost, Kept, CountsOf, StoredRows, Changes, RecentRows, Recorded, DropOldest, Overflow, Where;
    var after := SavedTables(t, host, disabled, raw, run, now);
    var items, id := Kept(raw, disabled), SavedId(t.runs, run);
    var past := RecentRows(after.runs, after.results, host, id);
    var stamp, log := Stamp(host, id, now), Where(t.versions, VersionOfHost(host));
    assert after.changes[|t.changes|..] == Changes(past, stamp, items, disabled);
    forall c | c in Changes(past, stamp, items, disabled)
      ensures c.hostId == host && c.runId == id && c.detectedAt == now
    {
      ChangeRowsSay(past, stamp, items, disabled, c);
    }
    WhereMembers(t.versions, VersionOfHost(host));
    var all := t.versions + Recorded(log, stamp, items, disabled);
    DropOldestMembers(all, host, Overflow(all, host));
    forall v | v in Recorded(log, stamp, items, disabled)
      ensures v.hostId == host && v.runId == id && v.recordedAt == now
    {
      VersionRowsSay(log, stamp, items, disabled, v);
    }
  }
}
