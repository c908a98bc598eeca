/**
 Switching checks off and on. When a host's raw report never changes, arbitrary switching
 between runs is silent in the change list as long as the window remembers every item that
 comes back, and each item ever enabled has exactly one version row, whatever the spans.
 */
module Toggling {
  import opened Queries
  import opened Records
  import opened VersionLog
  import opened VersionReplay
  import opened TimeTravel
  import opened ResultChanges
  import opened Agreement

  /**
   A switch-off list holds catalogue ids, which are shorter than the column. Matching an id as
   reported and matching it as stored are then the same, however long the reported ids are.
   */
  predicate FittingList(disabled: set<string>) {
    forall d :: d in disabled ==> |d| < ID_WIDTH
  }

  /** A history in which the host keeps sending `raw` while the switch-off list varies. */
  ghost predicate SameRaw(raw: seq<ReportItem>, reports: seq<Report>) {
    forall r :: r in reports ==> FittingList(r.disabled) && r.items == Kept(raw, r.disabled)
  }

  lemma KeptItem(raw: seq<ReportItem>, disabled: set<string>, it: ReportItem)
    ensures it in Kept(raw, disabled) <==> exists x :: x in raw && x.id !in disabled && Normal(x) == it
  {
    var kept := Where(raw, Enabled(disabled));
    WhereMembers(raw, Enabled(disabled));
    if it in Kept(raw, disabled) {
      var i :| 0 <= i < |kept| && Kept(raw, disabled)[i] == it;
      assert kept[i] in kept && Normal(kept[i]) == it;
    }
    if x :| x in raw && x.id !in disabled && Normal(x) == it {
      assert x in kept;
      var i :| 0 <= i < |kept| && kept[i] == x;
      assert Kept(raw, disabled)[i] == it;
    }
  }

  /** The raw report as a table, with statuses normalised. */
  function Full(raw: seq<ReportItem>): map<string, State> {
    ReportView(Collect(raw, Normalise()))
  }

  function Visible(full: map<string, State>, disabled: set<string>, iid: string): Option<State> {
    if iid in full && iid !in disabled then Some(full[iid]) else None
  }

  /** `items` is the table `full` without the switched-off items. */
  ghost predicate Shows(items: seq<ReportItem>, full: map<string, State>, disabled: set<string>) {
    Distinct(items) && forall iid :: ReportState(items, iid) == Visible(full, disabled, iid)
  }

  lemma FullOf(raw: seq<ReportItem>, x: ReportItem)
    requires Distinct(raw) && x in raw
    ensures x.Id() in Full(raw) && Full(raw)[x.Id()] == Normal(x).Shown()
  {
    var all := Collect(raw, Normalise());
    var j :| 0 <= j < |raw| && raw[j] == x;
    assert all[j] in all;
    ReportStateOfDistinct(all, j);
  }

  lemma FullOnly(raw: seq<ReportItem>, iid: string)
    requires iid in Full(raw)
    ensures exists x :: x in raw && x.Id() == iid
  {
    var all := Collect(raw, Normalise());
    var it :| it in all && it.Id() == iid;
    var i :| 0 <= i < |all| && all[i] == it;
    assert raw[i] in raw && raw[i].Id() == iid;
  }

  lemma KeptAt(raw: seq<ReportItem>, disabled: set<string>, iid: string)
    requires Distinct(raw) && FittingList(disabled)
    ensures ReportState(Kept(raw, disabled), iid) == Visible(Full(raw), disabled, iid)
  {
    var kept := Kept(raw, disabled);
    if iid in ReportedIds(kept) {
      var it :| it in kept && it.Id() == iid;
      KeptItem(raw, disabled, it);
      var x :| x in raw && x.id !in disabled && Normal(x) == it;
      KeptDistinct(raw, disabled);
      FullOf(raw, x);
      var i :| 0 <= i < |kept| && kept[i] == it;
      ReportStateOfDistinct(kept, i);
    } else if iid in Full(raw) {
      FullOnly(raw, iid);
      var x :| x in raw && x.Id() == iid;
      KeptItem(raw, disabled, Normal(x));
      assert Normal(x).Id() == iid;
    }
  }

  lemma KeptShows(raw: seq<ReportItem>, disabled: set<string>)
    requires Distinct(raw) && FittingList(disabled)
    ensures Shows(Kept(raw, disabled), Full(raw), disabled)
  {
    KeptDistinct(raw, disabled);
    forall iid ensures ReportState(Kept(raw, disabled), iid) == Visible(Full(raw), disabled, iid) {
      KeptAt(raw, disabled, iid);
    }
  }

  // ----- the change list -----

  /** Rows of the recent successful runs, newest first, as the comparison reads them. */
  function PastOf(reports: seq<Report>, limit: nat): seq<seq<CheckResult>> {
    if reports == [] || limit == 0 then []
    else
      var r := reports[|reports| - 1];
      [StoredRows(r.stamp.runId, r.items)] + PastOf(reports[..|reports| - 1], limit - 1)
  }

  lemma NoTransition(past: seq<seq<CheckResult>>, stamp: Stamp, items: seq<ReportItem>, disabled: set<string>)
    ensures Changes(past, stamp, items, disabled) == []
      <==> forall iid :: Where(Changes(past, stamp, items, disabled), ChangeFor(iid)) == []
  {
    var rows := Changes(past, stamp, items, disabled);
    if rows != [] {
      WhereMembers(rows, ChangeFor(rows[0].item));
      assert rows[0] in Where(rows, ChangeFor(rows[0].item));
    }
  }

  lemma TransitionsEmpty(rows: seq<ResultChange>)
    ensures Transitions(rows) == [] <==> rows == []
  {
  }

  /** Whether an unchanged raw report leaves a change row for an item. */
  lemma ToggledItem(full: map<string, State>, last: Report, past: seq<seq<CheckResult>>, stamp: Stamp,
                    items: seq<ReportItem>, disabled: set<string>, iid: string)
    requires Shows(last.items, full, last.disabled) && Shows(items, full, disabled)
    requires past != [] && past[0] == StoredRows(last.stamp.runId, last.items)
    requires items != [] && Compared(past, disabled) != []
    ensures Where(Changes(past, stamp, items, disabled), ChangeFor(iid)) == []
      <==> (iid in ReportedIds(items) ==> iid in SeenIn(past))
  {
    var cur := StoredRows(stamp.runId, items);
    ChangesMatchComparison(past, stamp, items, disabled, iid);
    TransitionsEmpty(Where(Changes(past, stamp, items, disabled), ChangeFor(iid)));
    StoredRowOf(stamp.runId, items, iid);
    StoredRowOf(last.stamp.runId, last.items, iid);
    var seen := SeenIn(past);
    assert RowOf(past[0], iid).Some? ==> iid in seen by {
      if RowOf(past[0], iid).Some? { assert past[0] in past && RowOf(past[0], iid).value in past[0]; }
    }
    NothingReported(cur, past[0], ReportState(items, iid), ReportState(last.items, iid), iid, disabled, seen);
  }

  lemma NothingReported(cur: seq<CheckResult>, prev: seq<CheckResult>, now: Option<State>, was: Option<State>,
                        iid: string, disabled: set<string>, seen: set<string>)
    requires var r := RowOf(cur, iid); now == if r.Some? then Some(State(r.value.status, r.value.desc)) else None
    requires var p := RowOf(prev, iid); was == if p.Some? then Some(State(p.value.status, p.value.desc)) else None
    requires now.Some? && was.Some? ==> now == was
    requires was.Some? ==> iid in seen
    requires was.Some? && now.None? ==> iid in disabled
    ensures Reported(DifferenceAt(cur, prev, iid), iid, disabled, seen) == [] <==> (now.Some? ==> iid in seen)
  {
  }

  /**
   Silent toggling: a run with an unchanged raw report writes no change row, exactly when
   there is nothing to compare or every item it reports occurred in the window.
   */
  lemma TogglingIsSilent(raw: seq<ReportItem>, reports: seq<Report>, stamp: Stamp, disabled: set<string>)
    requires Distinct(raw) && SameRaw(raw, reports) && FittingList(disabled)
    ensures var past, items := PastOf(reports, HISTORY_RUNS), Kept(raw, disabled);
      Changes(past, stamp, items, disabled) == []
      <==> items == [] || Compared(past, disabled) == []
           || forall iid :: iid in ReportedIds(items) ==> iid in SeenIn(past)
  {
    var past, items := PastOf(reports, HISTORY_RUNS), Kept(raw, disabled);
    if items != [] && Compared(past, disabled) != [] {
      var last := reports[|reports| - 1];
      assert last in reports;
      NoTransition(past, stamp, items, disabled);
      KeptShows(raw, last.disabled);
      KeptShows(raw, disabled);
      forall iid
        ensures Where(Changes(past, stamp, items, disabled), ChangeFor(iid)) == []
          <==> (iid in ReportedIds(items) ==> iid in SeenIn(past))
      {
        ToggledItem(Full(raw), last, past, stamp, items, disabled, iid);
      }
    }
  }

  // ----- the version log -----

  ghost predicate EverEnabled(reports: seq<Report>, iid: string) {
    exists r :: r in reports && iid in ReportedIds(r.items)
  }

  /** One version row per item ever enabled, and the view still shows its unchanged state. */
  lemma {:induction false} ToggledLog(raw: seq<ReportItem>, reports: seq<Report>, iid: string)
    requires Distinct(raw) && SameRaw(raw, reports)
    ensures |Where(LogOf(reports), ForItem(iid))| == if EverEnabled(reports, iid) then 1 else 0
    ensures if EverEnabled(reports, iid) then iid in Full(raw) && StateOf(LogOf(reports), iid) == Some(Full(raw)[iid])
            else StateOf(LogOf(reports), iid).None?
  {
    if reports != [] {
      var before, r := reports[..|reports| - 1], reports[|reports| - 1];
      assert reports == before + [r] && r in reports;
      ToggledLog(raw, before, iid);
      EnabledNow(before, r, iid);
      LogFits(before);
      KeptShows(raw, r.disabled);
      var log := LogOf(before);
      ToggledStep(Full(raw), log, r, iid);
      WhereAppend(log, Recorded(log, r.stamp, r.items, r.disabled), ForItem(iid));
      assert ReportState(r.items, iid) == Visible(Full(raw), r.disabled, iid);
    }
  }

  lemma EnabledNow(before: seq<Report>, r: Report, iid: string)
    ensures EverEnabled(before + [r], iid) <==> EverEnabled(before, iid) || iid in ReportedIds(r.items)
  {
  }

  lemma ToggledStep(full: map<string, State>, log: seq<ItemVersion>, r: Report, iid: string)
    requires Shows(r.items, full, r.disabled) && Fits(log)
    requires StateOf(log, iid).Some? ==> iid in full && StateOf(log, iid) == Some(full[iid])
    ensures |Where(Recorded(log, r.stamp, r.items, r.disabled), ForItem(iid))|
         == if StateOf(log, iid).None? && iid in ReportedIds(r.items) then 1 else 0
    ensures StateOf(Record(log, r.stamp, r.items, r.disabled), iid)
         == if iid in ReportedIds(r.items) then ReportState(r.items, iid) else StateOf(log, iid)
  {
    if r.items != [] {
      RecordedFor(log, r.stamp, r.items, r.disabled, iid);
      VersionRowOf(log, r.stamp, r.items, r.disabled, iid);
      assert ReportState(r.items, iid) == Visible(full, r.disabled, iid);
      SettledState(log, r, iid);
    } else {
      assert log + [] == log;
    }
  }

  lemma SettledState(log: seq<ItemVersion>, r: Report, iid: string)
    requires Fits(log) && Distinct(r.items) && r.items != []
    ensures StateOf(Record(log, r.stamp, r.items, r.disabled), iid)
         == if iid in ReportedIds(r.items) then ReportState(r.items, iid)
            else if iid in r.disabled then StateOf(log, iid) else None
  {
    RecordedState(log, r.stamp, r.items, r.disabled, iid);
    if iid in ReportedIds(r.items) {
      DistinctSettles(log, r.items, iid);
    }
  }
}
