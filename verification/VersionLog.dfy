/**
 The long-term version log: `_record_versions` of app/checker.py as a function from the
 host's earlier log and a report to the rows it appends, and what that log is for. The
 log of initial/new/status/desc/gone rows always rebuilds the report it compresses.
 */
module VersionLog {
  import opened Queries
  import opened Records

  datatype Stamp = Stamp(hostId: int, runId: int, at: int)

  /** Every column is cut to its width before the row is written. */
  function Row(stamp: Stamp, iid: string, cat: string, kind: Kind, before: State, now: State): ItemVersion {
    ItemVersion(stamp.hostId, stamp.runId, stamp.at, Cut(iid, ID_WIDTH), Cut(cat, CATEGORY_WIDTH), kind,
                Cut(before.status, STATUS_WIDTH), Cut(now.status, STATUS_WIDTH),
                Cut(before.desc, DESC_WIDTH), Cut(now.desc, DESC_WIDTH))
  }

  const BLANK := State("", "")

  /** The last row logged for an item: `last.get(iid)`. */
  function Latest(log: seq<ItemVersion>, iid: string): (v: Option<ItemVersion>)
    ensures v.Some? ==> v.value in log && v.value.item == iid
  {
    if log == [] then None
    else
      var n := |log| - 1;
      if log[n].item == iid then Some(log[n]) else Latest(log[..n], iid)
  }

  function InitialRow(stamp: Stamp, it: ReportItem): ItemVersion {
    Row(stamp, it.id, it.cat, Initial, BLANK, State(it.status, it.desc))
  }

  /** The row a reported item adds, given the item's last logged row. */
  function ItemRow(last: Option<ItemVersion>, stamp: Stamp, it: ReportItem): (r: seq<ItemVersion>)
    ensures |r| <= 1 && forall v :: v in r ==> v.item == it.Id() && !v.kind.Gone? && v.Shown() == it.Shown()
    ensures r == [] <==> last.Some? && !last.value.kind.Gone? && last.value.Shown() == it.Shown()
  {
    if last.None? || last.value.kind.Gone? then
      [Row(stamp, it.Id(), it.cat, New, BLANK, it.Shown())]
    else if last.value.status != it.Shown().status then
      [Row(stamp, it.Id(), it.cat, StatusChanged, last.value.Shown(), it.Shown())]
    else if last.value.desc != it.Shown().desc then
      [Row(stamp, it.Id(), it.cat, DescChanged, last.value.Shown(), it.Shown())]
    else []
  }

  function GoneRow(last: ItemVersion, stamp: Stamp): ItemVersion {
    Row(stamp, last.item, last.cat, Gone, last.Shown(), BLANK)
  }

  function Baseline(stamp: Stamp, items: seq<ReportItem>): seq<ItemVersion> {
    if items == [] then []
    else Baseline(stamp, items[..|items| - 1]) + [InitialRow(stamp, items[|items| - 1])]
  }

  function ItemRows(log: seq<ItemVersion>, stamp: Stamp, items: seq<ReportItem>): seq<ItemVersion> {
    if items == [] then []
    else
      var it := items[|items| - 1];
      ItemRows(log, stamp, items[..|items| - 1]) + ItemRow(Latest(log, it.Id()), stamp, it)
  }

  /** The row, if any, for a logged item, given its last row, when the report does not mention it. */
  function Vanished(last: Option<ItemVersion>, stamp: Stamp, iid: string, reported: set<string>,
                    disabled: set<string>): seq<ItemVersion>
  {
    if last.None? || iid in reported || iid in disabled || last.value.kind.Gone? then []
    else [GoneRow(last.value, stamp)]
  }

  /** Rows for logged items that the report no longer mentions, in dictionary order. */
  function GoneRows(log: seq<ItemVersion>, stamp: Stamp, order: seq<string>,
                    reported: set<string>, disabled: set<string>): seq<ItemVersion>
  {
    if order == [] then []
    else
      var iid := order[|order| - 1];
      GoneRows(log, stamp, order[..|order| - 1], reported, disabled)
      + Vanished(Latest(log, iid), stamp, iid, reported, disabled)
  }

  /** Keys of the dictionary of last versions, in iteration order. */
  function LoggedItems(log: seq<ItemVersion>): seq<string> {
    FirstSeen(Collect(log, VersionItem()))
  }

  lemma {:induction false} LatestNone(log: seq<ItemVersion>, iid: string)
    ensures Latest(log, iid).Some? <==> exists v :: v in log && v.item == iid
  {
    if log != [] {
      LatestNone(log[..|log| - 1], iid);
      assert log == log[..|log| - 1] + [log[|log| - 1]];
    }
  }

  lemma LoggedItemsAre(log: seq<ItemVersion>)
    ensures forall iid :: iid in LoggedItems(log) <==> Latest(log, iid).Some?
    ensures NoRepeat(LoggedItems(log))
  {
    var ids := Collect(log, VersionItem());
    FirstSeenIs(ids);
    forall iid ensures iid in LoggedItems(log) <==> Latest(log, iid).Some? {
      LatestNone(log, iid);
      assert forall i :: 0 <= i < |log| ==> ids[i] == log[i].item;
      if iid in ids {
        var i :| 0 <= i < |ids| && ids[i] == iid;
        assert log[i] in log && log[i].item == iid;
      }
      if v :| v in log && v.item == iid {
        var i :| 0 <= i < |log| && log[i] == v;
        assert ids[i] == iid;
      }
    }
  }

  /** The rows that recording a report appends to the host's log. */
  function Recorded(log: seq<ItemVersion>, stamp: Stamp, items: seq<ReportItem>,
                    disabled: set<string>): seq<ItemVersion>
  {
    if items == [] then []
    else if log == [] then Baseline(stamp, items)
    else ItemRows(log, stamp, items)
         + GoneRows(log, stamp, LoggedItems(log), ReportedIds(items), disabled)
  }

  function Record(log: seq<ItemVersion>, stamp: Stamp, items: seq<ReportItem>,
                  disabled: set<string>): seq<ItemVersion> {
    log + Recorded(log, stamp, items, disabled)
  }

  /** Every stored row respects its column widths, as the writer guarantees. */
  ghost predicate Fits(log: seq<ItemVersion>) {
    forall v :: v in log ==>
      |v.item| <= ID_WIDTH && |v.status| <= STATUS_WIDTH && |v.desc| <= DESC_WIDTH
  }

  // ----- what the log means: the view it rebuilds -----

  function StateOf(log: seq<ItemVersion>, iid: string): Option<State> {
    match Latest(log, iid)
    case None => None
    case Some(v) => if v.kind.Gone? then None else Some(v.Shown())
  }

  function View(log: seq<ItemVersion>): map<string, State> {
    map iid | iid in LoggedItems(log) && StateOf(log, iid).Some? :: StateOf(log, iid).value
  }

  lemma ViewIs(log: seq<ItemVersion>, iid: string)
    ensures iid in View(log) <==> StateOf(log, iid).Some?
    ensures iid in View(log) ==> View(log)[iid] == StateOf(log, iid).value
  {
    LoggedItemsAre(log);
  }

  lemma {:induction false} LatestAppend(a: seq<ItemVersion>, b: seq<ItemVersion>, iid: string)
    ensures Latest(a + b, iid) == if Latest(b, iid).Some? then Latest(b, iid) else Latest(a, iid)
  {
    if b == [] {
      assert a + b == a;
    } else {
      assert (a + b)[..|a + b| - 1] == a + b[..|b| - 1];
      LatestAppend(a, b[..|b| - 1], iid);
    }
  }

  // ----- rows one item receives -----

  lemma {:induction false} GoneRowsFor(log: seq<ItemVersion>, stamp: Stamp, order: seq<string>,
                                       reported: set<string>, disabled: set<string>, iid: string)
    requires NoRepeat(order) && Fits(log)
    ensures Where(GoneRows(log, stamp, order, reported, disabled), ForItem(iid))
         == if iid in order then Vanished(Latest(log, iid), stamp, iid, reported, disabled) else []
  {
    if order != [] {
      hide Where, Latest, Vanished;
      var n := |order| - 1;
      assert order == order[..n] + [order[n]];
      GoneRowsFor(log, stamp, order[..n], reported, disabled, iid);
      var tail := Vanished(Latest(log, order[n]), stamp, order[n], reported, disabled);
      WhereAppend(GoneRows(log, stamp, order[..n], reported, disabled), tail, ForItem(iid));
      VanishedItem(log, stamp, order[n], reported, disabled);
      WhereOneItem(tail, order[n], iid);
      if order[n] == iid { assert iid !in order[..n]; }
    }
  }

  /** A gone row is about the item it is written for: stored ids fit the column. */
  lemma VanishedItem(log: seq<ItemVersion>, stamp: Stamp, iid: string, reported: set<string>, disabled: set<string>)
    requires Fits(log)
    ensures forall v :: v in Vanished(Latest(log, iid), stamp, iid, reported, disabled) ==> v.item == iid
  {
    hide Latest;
  }

  /** A list of rows about one item is selected whole or not at all. */
  lemma WhereOneItem(rows: seq<ItemVersion>, x: string, iid: string)
    requires forall v :: v in rows ==> v.item == x
    ensures Where(rows, ForItem(iid)) == if x == iid then rows else []
  {
  }

  lemma MentionsStep(items: seq<ReportItem>, iid: string)
    requires items != []
    ensures var n := |items| - 1;
      Where(items, Named(iid)) == Where(items[..n], Named(iid)) + if items[n].Id() == iid then [items[n]] else []
  {
  }

  lemma ItemRowsNext(log: seq<ItemVersion>, stamp: Stamp, items: seq<ReportItem>, it: ReportItem)
    ensures ItemRows(log, stamp, items + [it]) == ItemRows(log, stamp, items) + ItemRow(Latest(log, it.Id()), stamp, it)
  {
  }

  lemma {:induction false} ItemRowsFor(log: seq<ItemVersion>, stamp: Stamp, items: seq<ReportItem>, iid: string)
    ensures Where(ItemRows(log, stamp, items), ForItem(iid)) == ItemRows(log, stamp, Where(items, Named(iid)))
  {
    if items != [] {
      var n := |items| - 1;
      var it, before := items[n], items[..n];
      ItemRowsFor(log, stamp, before, iid);
      var tail := ItemRow(Latest(log, it.Id()), stamp, it);
      assert items == before + [it];
      ItemRowsNext(log, stamp, before, it);
      WhereAppend(ItemRows(log, stamp, before), tail, ForItem(iid));
      WhereOneItem(tail, it.Id(), iid);
      MentionsStep(items, iid);
      var mine := Where(before, Named(iid));
      if it.Id() == iid {
        ItemRowsNext(log, stamp, mine, it);
        assert Where(items, Named(iid)) == mine + [it];
      } else {
        assert Where(items, Named(iid)) == mine;
      }
    }
  }

  lemma {:induction false} BaselineFor(stamp: Stamp, items: seq<ReportItem>, iid: string)
    ensures Where(Baseline(stamp, items), ForItem(iid)) == Baseline(stamp, Where(items, Named(iid)))
  {
    if items != [] {
      var n := |items| - 1;
      var it := items[n];
      BaselineFor(stamp, items[..n], iid);
      var tail := [InitialRow(stamp, it)];
      WhereAppend(Baseline(stamp, items[..n]), tail, ForItem(iid));
      WhereOneItem(tail, it.Id(), iid);
      MentionsStep(items, iid);
      var mine := Where(items[..n], Named(iid));
      assert (mine + [it])[..|mine|] == mine && mine + [] == mine;
    }
  }

  /** With distinct ids, an item is mentioned once or not at all. */
  lemma {:induction false} MentionsOfDistinct(items: seq<ReportItem>, iid: string)
    requires Distinct(items)
    ensures iid !in ReportedIds(items) ==> Where(items, Named(iid)) == []
    ensures forall i :: 0 <= i < |items| && items[i].Id() == iid ==> Where(items, Named(iid)) == [items[i]]
  {
    if items != [] {
      var n := |items| - 1;
      assert items == items[..n] + [items[n]];
      MentionsOfDistinct(items[..n], iid);
      if items[n].Id() == iid {
        assert forall x :: x in items[..n] ==> x.Id() != iid;
        WhereNone(items[..n], Named(iid));
      }
    }
  }

  /** The rows recording a report writes for one item: at most one, and which one. */
  function RowsFor(log: seq<ItemVersion>, stamp: Stamp, items: seq<ReportItem>, disabled: set<string>,
                   iid: string): seq<ItemVersion>
  {
    if items == [] then []
    else if iid in ReportedIds(items) then
      var mentions := Where(items, Named(iid));
      if log == [] then Baseline(stamp, mentions) else ItemRows(log, stamp, mentions)
    else Vanished(Latest(log, iid), stamp, iid, ReportedIds(items), disabled)
  }

  lemma GoneFor(log: seq<ItemVersion>, stamp: Stamp, reported: set<string>, disabled: set<string>, iid: string)
    requires Fits(log)
    ensures Where(GoneRows(log, stamp, LoggedItems(log), reported, disabled), ForItem(iid))
         == Vanished(Latest(log, iid), stamp, iid, reported, disabled)
  {
    LoggedItemsAre(log);
    GoneRowsFor(log, stamp, LoggedItems(log), reported, disabled, iid);
  }

  lemma RecordedFor(log: seq<ItemVersion>, stamp: Stamp, items: seq<ReportItem>, disabled: set<string>,
                    iid: string)
    requires Fits(log)
    ensures Where(Recorded(log, stamp, items, disabled), ForItem(iid))
         == RowsFor(log, stamp, items, disabled, iid)
  {
    if items != [] {
      if iid !in ReportedIds(items) {
        forall it | it in items ensures !Named(iid)(it) { assert it.Id() in ReportedIds(items); }
        WhereNone(items, Named(iid));
      }
      if log == [] {
        BaselineFor(stamp, items, iid);
      } else {
        ItemRowsFor(log, stamp, items, iid);
        GoneFor(log, stamp, ReportedIds(items), disabled, iid);
        WhereAppend(ItemRows(log, stamp, items),
                    GoneRows(log, stamp, LoggedItems(log), ReportedIds(items), disabled), ForItem(iid));
      }
    }
  }
}
