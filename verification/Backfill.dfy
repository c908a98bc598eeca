/**
 Rebuilding the version log from stored runs (`rebuild_versions`). Replaying the rows that
 were stored gives the log that was recorded live, up to the time stamps, because recording
 never looks past what storing keeps.
 */
module Backfill {
  import opened Queries
  import opened Records
  import opened VersionLog
  import opened VersionReplay
  import opened TimeTravel
  import opened Agreement

  function AsItem(): CheckResult -> ReportItem {
    (r: CheckResult) => ReportItem(r.item, r.cat, r.status, r.desc)
  }

  /** A stored run's rows read back as a report. */
  function Restored(rows: seq<CheckResult>): seq<ReportItem> {
    Collect(rows, AsItem())
  }

  // ----- storing loses nothing that recording looks at -----

  lemma {:induction false} StoredBaseline(run: int, stamp: Stamp, items: seq<ReportItem>)
    ensures Baseline(stamp, Restored(StoredRows(run, items))) == Baseline(stamp, items)
  {
    if items != [] {
      var n := |items| - 1;
      StoredBaseline(run, stamp, items[..n]);
      assert Restored(StoredRows(run, items))[..n] == Restored(StoredRows(run, items[..n]));
    }
  }

  lemma {:induction false} StoredItemRows(run: int, log: seq<ItemVersion>, stamp: Stamp, items: seq<ReportItem>)
    ensures ItemRows(log, stamp, Restored(StoredRows(run, items))) == ItemRows(log, stamp, items)
  {
    if items != [] {
      var n := |items| - 1;
      StoredItemRows(run, log, stamp, items[..n]);
      assert Restored(StoredRows(run, items))[..n] == Restored(StoredRows(run, items[..n]));
      StoredItemRow(run, log, stamp, items[n]);
    }
  }

  lemma StoredItemRow(run: int, log: seq<ItemVersion>, stamp: Stamp, it: ReportItem)
    ensures var back := AsItem()(StoredRow(run, it));
      back.Id() == it.Id() && ItemRow(Latest(log, it.Id()), stamp, back) == ItemRow(Latest(log, it.Id()), stamp, it)
  {
  }

  lemma {:induction false} StoredIds(run: int, items: seq<ReportItem>)
    ensures ReportedIds(Restored(StoredRows(run, items))) == ReportedIds(items)
  {
    var back := Restored(StoredRows(run, items));
    forall it | it in back ensures it.Id() in ReportedIds(items) {
      var i :| 0 <= i < |back| && back[i] == it;
      assert items[i] in items;
    }
    forall it | it in items ensures it.Id() in ReportedIds(back) {
      var i :| 0 <= i < |items| && items[i] == it;
      assert back[i] in back && back[i].Id() == it.Id();
    }
  }

  lemma StoredRecords(run: int, log: seq<ItemVersion>, stamp: Stamp, items: seq<ReportItem>, disabled: set<string>)
    ensures Recorded(log, stamp, Restored(StoredRows(run, items)), disabled) == Recorded(log, stamp, items, disabled)
  {
    StoredBaseline(run, stamp, items);
    StoredItemRows(run, log, stamp, items);
    StoredIds(run, items);
  }

  // ----- time stamps play no part in what is recorded -----

  function AtZero(v: ItemVersion): ItemVersion { v.(recordedAt := 0) }

  function ZeroTime(): ItemVersion -> ItemVersion { (v: ItemVersion) => AtZero(v) }

  function Timeless(log: seq<ItemVersion>): seq<ItemVersion> { Collect(log, ZeroTime()) }

  lemma {:induction false} LatestTimeless(log: seq<ItemVersion>, iid: string)
    ensures Latest(Timeless(log), iid)
         == match Latest(log, iid) case None => None case Some(v) => Some(AtZero(v))
  {
    if log != [] {
      LatestTimeless(log[..|log| - 1], iid);
      assert Timeless(log)[..|log| - 1] == Timeless(log[..|log| - 1]);
    }
  }

  lemma {:induction false} BaselineTimeless(stamp: Stamp, items: seq<ReportItem>)
    ensures Baseline(stamp.(at := 0), items) == Timeless(Baseline(stamp, items))
  {
    if items != [] {
      BaselineTimeless(stamp, items[..|items| - 1]);
    }
  }

  lemma {:induction false} ItemRowsTimeless(log: seq<ItemVersion>, stamp: Stamp, items: seq<ReportItem>)
    ensures ItemRows(Timeless(log), stamp.(at := 0), items) == Timeless(ItemRows(log, stamp, items))
  {
    if items != [] {
      var n := |items| - 1;
      ItemRowsTimeless(log, stamp, items[..n]);
      LatestTimeless(log, items[n].Id());
      var tail := ItemRow(Latest(log, items[n].Id()), stamp, items[n]);
      ItemRowTimeless(Latest(log, items[n].Id()), stamp, items[n]);
      CollectAppend(ItemRows(log, stamp, items[..n]), tail, ZeroTime());
    }
  }

  lemma ItemRowTimeless(last: Option<ItemVersion>, stamp: Stamp, it: ReportItem)
    ensures ItemRow(match last case None => None case Some(v) => Some(AtZero(v)), stamp.(at := 0), it)
         == Timeless(ItemRow(last, stamp, it))
  {
  }

  lemma {:induction false} GoneRowsTimeless(log: seq<ItemVersion>, stamp: Stamp, order: seq<string>,
                                            reported: set<string>, disabled: set<string>)
    ensures GoneRows(Timeless(log), stamp.(at := 0), order, reported, disabled)
         == Timeless(GoneRows(log, stamp, order, reported, disabled))
  {
    if order != [] {
      var n := |order| - 1;
      GoneRowsTimeless(log, stamp, order[..n], reported, disabled);
      var iid := order[n];
      LatestTimeless(log, iid);
      var tail := Vanished(Latest(log, iid), stamp, iid, reported, disabled);
      CollectAppend(GoneRows(log, stamp, order[..n], reported, disabled), tail, ZeroTime());
    }
  }

  lemma LoggedTimeless(log: seq<ItemVersion>)
    ensures LoggedItems(Timeless(log)) == LoggedItems(log)
  {
    assert Collect(Timeless(log), VersionItem()) == Collect(log, VersionItem());
  }

  lemma RecordedTimeless(log: seq<ItemVersion>, stamp: Stamp, items: seq<ReportItem>, disabled: set<string>)
    ensures Record(Timeless(log), stamp.(at := 0), items, disabled) == Timeless(Record(log, stamp, items, disabled))
  {
    BaselineTimeless(stamp, items);
    ItemRowsTimeless(log, stamp, items);
    LoggedTimeless(log);
    GoneRowsTimeless(log, stamp, LoggedItems(log), ReportedIds(items), disabled);
    CollectAppend(ItemRows(log, stamp, items),
                  GoneRows(log, stamp, LoggedItems(log), ReportedIds(items), disabled), ZeroTime());
    CollectAppend(log, Recorded(log, stamp, items, disabled), ZeroTime());
  }

  // ----- backfill -----

  /** The report that backfill replays for a live one: its stored rows, nothing switched off. */
  predicate Replays(back: Report, live: Report) {
    && back.items == Restored(StoredRows(live.stamp.runId, live.items))
    && back.disabled == {}
    && back.stamp.(at := 0) == live.stamp.(at := 0)
  }

  predicate Backfills(back: seq<Report>, live: seq<Report>) {
    |back| == |live| && forall i :: 0 <= i < |live| ==> Replays(back[i], live[i])
  }

  /** With nothing switched off, backfilling rebuilds the live log up to its time stamps. */
  lemma {:induction false} BackfillIsLive(back: seq<Report>, live: seq<Report>)
    requires Backfills(back, live) && forall r :: r in live ==> r.disabled == {}
    ensures Timeless(LogOf(back)) == Timeless(LogOf(live))
  {
    if live != [] {
      var n := |live| - 1;
      assert live[n] in live;
      BackfillIsLive(back[..n], live[..n]);
      BackfillStep(LogOf(back[..n]), LogOf(live[..n]), back[n], live[n]);
    }
  }

  lemma BackfillStep(log: seq<ItemVersion>, lived: seq<ItemVersion>, b: Report, l: Report)
    requires Timeless(log) == Timeless(lived) && Replays(b, l) && l.disabled == {}
    ensures Timeless(Record(log, b.stamp, b.items, b.disabled)) == Timeless(Record(lived, l.stamp, l.items, l.disabled))
  {
    StoredRecords(l.stamp.runId, log, b.stamp, l.items, {});
    RecordedTimeless(log, b.stamp, l.items, {});
    RecordedTimeless(lived, l.stamp, l.items, {});
  }

  /** Only empty reports come after the k-th one, so neither log has moved since. */
  lemma {:induction false} EmptyTail(reports: seq<Report>, k: nat)
    requires k <= |reports| && forall i :: k <= i < |reports| ==> reports[i].items == []
    ensures LogOf(reports) == LogOf(reports[..k])
  {
    if k == |reports| {
      assert reports[..k] == reports;
    } else {
      var n := |reports| - 1;
      EmptyTail(reports[..n], k);
      assert reports[..n][..k] == reports[..k] && reports == reports[..n] + [reports[n]];
      EmptyReportsVanish(reports[..n], reports[n]);
    }
  }

  /** The k-th report is the last non-empty one. */
  predicate LastNonEmpty(reports: seq<Report>, k: nat) {
    0 < k <= |reports| && reports[k - 1].items != [] && forall i :: k <= i < |reports| ==> reports[i].items == []
  }

  /**
   With switch-offs in the history, the backfilled view is the last non-empty report, which
   is also what the live view says about that report's items.
   */
  lemma BackfilledView(back: seq<Report>, live: seq<Report>, k: nat)
    requires Backfills(back, live) && LastNonEmpty(live, k)
    requires forall r :: r in live ==> Distinct(r.items)
    ensures var r := live[k - 1];
      && View(LogOf(back)) == ReportView(r.items)
      && forall iid :: iid in ReportedIds(r.items) ==>
           iid in View(LogOf(live)) && View(LogOf(live))[iid] == View(LogOf(back))[iid]
  {
    hide LogOf, View, ReportView, Replayed, StoredRows, Restored, Distinct;
    var r := live[k - 1];
    assert r in live;
    forall i | k <= i < |back| ensures back[i].items == [] {
      assert Replays(back[i], live[i]);
      RestoredEmpty(live[i].stamp.runId);
    }
    EmptyTail(live, k);
    EmptyTail(back, k);
    assert back[..k][k - 1] == back[k - 1] && live[..k][k - 1] == r;
    assert Backfills(back[..k], live[..k]);
    LastReplayed(back[..k], live[..k]);
    ViewAt(live, k);
    ReplayCovers(LogOf(live[..k - 1]), r.items, r.disabled);
  }

  lemma RestoredEmpty(run: int)
    ensures Restored(StoredRows(run, [])) == []
  {
  }

  lemma ReplayCovers(log: seq<ItemVersion>, items: seq<ReportItem>, disabled: set<string>)
    ensures ReportView(items).Keys == ReportedIds(items)
    ensures forall iid :: iid in ReportView(items) ==>
      iid in Replayed(log, items, disabled) && Replayed(log, items, disabled)[iid] == ReportView(items)[iid]
  {
  }

  lemma LastReplayed(back: seq<Report>, live: seq<Report>)
    requires Backfills(back, live) && live != [] && live[|live| - 1].items != []
    requires Distinct(live[|live| - 1].items)
    ensures View(LogOf(back)) == ReportView(live[|live| - 1].items)
  {
    var n := |live| - 1;
    LogFits(back[..n]);
    ReplayStored(LogOf(back[..n]), back[n], live[n]);
  }

  lemma ReplayStored(log: seq<ItemVersion>, b: Report, l: Report)
    requires Replays(b, l) && Fits(log) && l.items != [] && Distinct(l.items)
    ensures View(Record(log, b.stamp, b.items, b.disabled)) == ReportView(l.items)
  {
    StoredRecords(l.stamp.runId, log, b.stamp, l.items, {});
    ReplayDistinct(log, b.stamp, l.items, {});
    ReplayedAll(log, l.items);
  }

  /** Empty reports change neither log, so only the last non-empty one matters. */
  lemma EmptyReportsVanish(reports: seq<Report>, r: Report)
    requires r.items == []
    ensures LogOf(reports + [r]) == LogOf(reports)
  {
  }
}
