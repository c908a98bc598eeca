/**
 The version log as a time axis. Each row starts where its item's previous row ended, so
 every earlier view can be rebuilt forwards, from a prefix of the log, and backwards, by
 undoing rows from the newest one.
 */
module TimeTravel {
  import opened Queries
  import opened Records
  import opened VersionLog
  import opened VersionReplay

  // ----- chaining -----

  /** `v` continues from the item's previous row, with the kind that fits the change. */
  predicate Follows(prev: Option<ItemVersion>, v: ItemVersion) {
    var live := prev.Some? && !prev.value.kind.Gone?;
    match v.kind
    case Initial => prev.None? && v.Before() == BLANK
    case New => !live && v.Before() == BLANK
    case StatusChanged => live && v.Before() == prev.value.Shown() && v.status != v.beforeStatus
    case DescChanged =>
      live && v.Before() == prev.value.Shown() && v.status == v.beforeStatus && v.desc != v.beforeDesc
    case Gone => live && v.Before() == prev.value.Shown() && v.Shown() == BLANK
  }

  ghost predicate Chained(log: seq<ItemVersion>) {
    forall i :: 0 <= i < |log| ==> Follows(Latest(log[..i], log[i].item), log[i])
  }

  lemma ItemRowFollows(last: Option<ItemVersion>, stamp: Stamp, it: ReportItem)
    requires last.Some? ==> |last.value.status| <= STATUS_WIDTH && |last.value.desc| <= DESC_WIDTH
    ensures var rows := ItemRow(last, stamp, it);
      rows != [] ==> Follows(last, rows[0])
  {
  }

  lemma GoneRowFollows(last: ItemVersion, stamp: Stamp)
    requires |last.status| <= STATUS_WIDTH && |last.desc| <= DESC_WIDTH && !last.kind.Gone?
    ensures Follows(Some(last), GoneRow(last, stamp))
  {
  }

  /** With distinct ids an item receives at most one row per report, and that row follows. */
  lemma RowFollows(log: seq<ItemVersion>, stamp: Stamp, items: seq<ReportItem>, disabled: set<string>,
                   iid: string)
    requires Fits(log) && Distinct(items)
    ensures var rows := RowsFor(log, stamp, items, disabled, iid);
      |rows| <= 1 && (rows != [] ==> Follows(Latest(log, iid), rows[0]))
  {
    var last := Latest(log, iid);
    if iid in ReportedIds(items) {
      OnlyMention(log, stamp, items, disabled, iid);
      var i :| 0 <= i < |items| && items[i].Id() == iid;
      ItemRowFollows(last, stamp, items[i]);
    } else if last.Some? && !last.value.kind.Gone? {
      GoneRowFollows(last.value, stamp);
    }
  }

  lemma OnlyMention(log: seq<ItemVersion>, stamp: Stamp, items: seq<ReportItem>, disabled: set<string>, iid: string)
    requires Distinct(items) && iid in ReportedIds(items)
    ensures forall i :: 0 <= i < |items| && items[i].Id() == iid ==>
      RowsFor(log, stamp, items, disabled, iid)
      == if log == [] then [InitialRow(stamp, items[i])] else ItemRow(Latest(log, iid), stamp, items[i])
  {
    MentionsOfDistinct(items, iid);
    forall i | 0 <= i < |items| && items[i].Id() == iid
      ensures RowsFor(log, stamp, items, disabled, iid)
           == if log == [] then [InitialRow(stamp, items[i])] else ItemRow(Latest(log, iid), stamp, items[i])
    {
      OneMention(log, stamp, items[i]);
    }
  }

  lemma OneMention(log: seq<ItemVersion>, stamp: Stamp, it: ReportItem)
    ensures Baseline(stamp, [it]) == [InitialRow(stamp, it)]
    ensures ItemRows(log, stamp, [it]) == ItemRow(Latest(log, it.Id()), stamp, it)
  {
  }

  /** A row that is alone among the new rows of its item comes right after the logged ones. */
  lemma LoneRowFollows(log: seq<ItemVersion>, added: seq<ItemVersion>, k: nat, mine: seq<ItemVersion>)
    requires k < |added| && mine == Where(added, ForItem(added[k].item)) && |mine| <= 1
    requires mine != [] ==> Follows(Latest(log, added[k].item), mine[0])
    ensures Follows(Latest(log + added[..k], added[k].item), added[k])
  {
    var iid := added[k].item;
    WhereMembers(added, ForItem(iid));
    assert added[k] in mine;
    FirstOfItem(added, k);
    LatestAppend(log, added[..k], iid);
  }

  lemma AddedFollows(log: seq<ItemVersion>, stamp: Stamp, items: seq<ReportItem>, disabled: set<string>, k: nat)
    requires Fits(log) && Distinct(items) && k < |Recorded(log, stamp, items, disabled)|
    ensures var added := Recorded(log, stamp, items, disabled);
      Follows(Latest(log + added[..k], added[k].item), added[k])
  {
    var added := Recorded(log, stamp, items, disabled);
    var iid := added[k].item;
    RecordedFor(log, stamp, items, disabled, iid);
    RowFollows(log, stamp, items, disabled, iid);
    LoneRowFollows(log, added, k, RowsFor(log, stamp, items, disabled, iid));
  }

  /** The chain is kept by recording any report with distinct ids. */
  lemma RecordChains(log: seq<ItemVersion>, stamp: Stamp, items: seq<ReportItem>, disabled: set<string>)
    requires Fits(log) && Chained(log) && Distinct(items)
    ensures Chained(Record(log, stamp, items, disabled))
  {
    var added := Recorded(log, stamp, items, disabled);
    forall k | 0 <= k < |added| ensures Follows(Latest(log + added[..k], added[k].item), added[k]) {
      AddedFollows(log, stamp, items, disabled, k);
    }
    ChainAppend(log, added);
  }

  lemma ChainAppend(log: seq<ItemVersion>, added: seq<ItemVersion>)
    requires Chained(log)
    requires forall k :: 0 <= k < |added| ==> Follows(Latest(log + added[..k], added[k].item), added[k])
    ensures Chained(log + added)
  {
    hide Latest, Follows;
    var all := log + added;
    forall i | 0 <= i < |all| ensures Follows(Latest(all[..i], all[i].item), all[i]) {
      if i < |log| {
        assert all[..i] == log[..i];
      } else {
        assert all[..i] == log + added[..i - |log|];
      }
    }
  }

  lemma FirstOfItem(added: seq<ItemVersion>, k: nat)
    requires k < |added| && |Where(added, ForItem(added[k].item))| <= 1
    ensures Latest(added[..k], added[k].item).None?
  {
    var iid := added[k].item;
    if Latest(added[..k], iid).Some? {
      var j :| 0 <= j < k && added[..k][j] == Latest(added[..k], iid).value;
      WhereTwo(added, ForItem(iid), j, k);
    }
  }

  // ----- moving along the log -----

  function Redo(view: map<string, State>, v: ItemVersion): map<string, State> {
    if v.kind.Gone? then view - {v.item} else view[v.item := v.Shown()]
  }

  function Undo(view: map<string, State>, v: ItemVersion): map<string, State> {
    if v.kind.Initial? || v.kind.New? then view - {v.item} else view[v.item := v.Before()]
  }

  function Rewind(view: map<string, State>, rows: seq<ItemVersion>): map<string, State>
    decreases rows
  {
    if rows == [] then view
    else Rewind(Undo(view, rows[|rows| - 1]), rows[..|rows| - 1])
  }

  lemma ViewStep(log: seq<ItemVersion>, v: ItemVersion)
    ensures View(log + [v]) == Redo(View(log), v)
  {
    var next := log + [v];
    assert next[..|log|] == log;
    forall iid
      ensures iid in View(next) <==> iid in Redo(View(log), v)
      ensures iid in View(next) ==> View(next)[iid] == Redo(View(log), v)[iid]
    {
      ViewIs(log, iid);
      ViewIs(next, iid);
    }
  }

  /** A row can be undone on any view that shows the state the row says it started from. */
  lemma UndoRedo(view: map<string, State>, v: ItemVersion)
    requires if v.kind.Initial? || v.kind.New? then v.item !in view
             else v.item in view && view[v.item] == v.Before()
    ensures Undo(Redo(view, v), v) == view
  {
  }

  lemma RewindLast(view: map<string, State>, rows: seq<ItemVersion>, v: ItemVersion)
    ensures Rewind(view, rows + [v]) == Rewind(Undo(view, v), rows)
  {
  }

  lemma ChainPrefix(log: seq<ItemVersion>, v: ItemVersion)
    requires Chained(log + [v])
    ensures Chained(log) && Follows(Latest(log, v.item), v)
  {
    var all := log + [v];
    assert all[..|log|] == log && all[|log|] == v;
    forall i | 0 <= i < |log| ensures Follows(Latest(log[..i], log[i].item), log[i]) {
      assert all[..i] == log[..i] && all[i] == log[i];
    }
  }

  /** Undoing a chained log's newest rows rebuilds the view before they were written. */
  lemma {:induction false} RewindsTo(log: seq<ItemVersion>, rows: seq<ItemVersion>)
    requires Chained(log + rows)
    ensures Rewind(View(log + rows), rows) == View(log)
  {
    if rows == [] {
      assert log + rows == log;
    } else {
      var n := |rows| - 1;
      var before, v := log + rows[..n], rows[n];
      assert log + rows == before + [v];
      RewindStep(before, v);
      RewindsTo(log, rows[..n]);
      assert rows == rows[..n] + [v];
      RewindLast(View(before + [v]), rows[..n], v);
    }
  }

  lemma RewindStep(log: seq<ItemVersion>, v: ItemVersion)
    requires Chained(log + [v])
    ensures Chained(log) && Undo(View(log + [v]), v) == View(log)
  {
    ChainPrefix(log, v);
    ViewIs(log, v.item);
    ViewStep(log, v);
    UndoRedo(View(log), v);
  }

  // ----- a host's whole history -----

  datatype Report = Report(stamp: Stamp, items: seq<ReportItem>, disabled: set<string>)

  function LogOf(reports: seq<Report>): seq<ItemVersion> {
    if reports == [] then []
    else
      var r := reports[|reports| - 1];
      Record(LogOf(reports[..|reports| - 1]), r.stamp, r.items, r.disabled)
  }

  lemma {:induction false} LogFits(reports: seq<Report>)
    ensures Fits(LogOf(reports))
  {
    if reports != [] {
      var r := reports[|reports| - 1];
      LogFits(reports[..|reports| - 1]);
      RecordFits(LogOf(reports[..|reports| - 1]), r.stamp, r.items, r.disabled);
    }
  }

  lemma {:induction false} LogChains(reports: seq<Report>)
    requires forall r :: r in reports ==> Distinct(r.items)
    ensures Chained(LogOf(reports))
  {
    if reports != [] {
      var before := reports[..|reports| - 1];
      var r := reports[|reports| - 1];
      LogChains(before);
      LogFits(before);
      RecordChains(LogOf(before), r.stamp, r.items, r.disabled);
    }
  }

  /** The log only grows: an earlier log is a prefix of a later one. */
  lemma {:induction false} LogGrows(reports: seq<Report>, k: nat)
    requires k <= |reports|
    ensures LogOf(reports[..k]) <= LogOf(reports)
  {
    if k == |reports| {
      assert reports[..k] == reports;
    } else {
      var before := reports[..|reports| - 1];
      LogGrows(before, k);
      assert before[..k] == reports[..k];
    }
  }

  /**
   Time travel. In an untrimmed history of reports with distinct ids, the log prefix written
   up to the k-th report, when that report is not empty, rebuilds it, and undoing the rest of
   the final log from the final view rebuilds it too.
   */
  lemma TimeTravels(reports: seq<Report>, k: nat)
    requires 0 < k <= |reports| && reports[k - 1].items != []
    requires forall r :: r in reports ==> Distinct(r.items)
    ensures var log, r := LogOf(reports), reports[k - 1];
      var n := |LogOf(reports[..k])|;
      && n <= |log|
      && View(log[..n]) == Replayed(LogOf(reports[..k - 1]), r.items, r.disabled)
      && Rewind(View(log), log[n..]) == View(log[..n])
      && (r.disabled == {} ==> View(log[..n]) == ReportView(r.items))
  {
    var log, at := LogOf(reports), LogOf(reports[..k]);
    LogGrows(reports, k);
    LogChains(reports);
    assert log == at + log[|at|..] && log[..|at|] == at;
    RewindsTo(at, log[|at|..]);
    ViewAt(reports, k);
  }

  lemma ViewAt(reports: seq<Report>, k: nat)
    requires 0 < k <= |reports| && reports[k - 1].items != [] && Distinct(reports[k - 1].items)
    ensures var r := reports[k - 1];
      && View(LogOf(reports[..k])) == Replayed(LogOf(reports[..k - 1]), r.items, r.disabled)
      && (r.disabled == {} ==> View(LogOf(reports[..k])) == ReportView(r.items))
  {
    var r := reports[k - 1];
    var before := LogOf(reports[..k - 1]);
    assert reports[..k][..k - 1] == reports[..k - 1] && reports[..k][k - 1] == r;
    LogFits(reports[..k - 1]);
    ReplayDistinct(before, r.stamp, r.items, r.disabled);
    ReplayedAll(before, r.items);
  }

  lemma ReplayedAll(log: seq<ItemVersion>, items: seq<ReportItem>)
    ensures Replayed(log, items, {}) == ReportView(items)
  {
  }
}
