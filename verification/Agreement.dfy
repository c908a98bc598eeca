/**
 The two logs and the on-demand comparison tell one story: the stored change rows are the
 comparison's differences minus the suppressed ones, and they are a function of the version
 rows written for the same report. Switching checks off and on leaves no trace in either.
 */
module Agreement {
  import opened Queries
  import opened Records
  import opened VersionLog
  import opened VersionReplay
  import opened TimeTravel
  import opened ResultChanges

  /** The stored rows of a run say what its report said. */
  lemma {:induction false} StoredRowOf(run: int, items: seq<ReportItem>, iid: string)
    ensures var r := RowOf(StoredRows(run, items), iid);
      ReportState(items, iid) == if r.Some? then Some(State(r.value.status, r.value.desc)) else None
  {
    if items != [] {
      var n := |items| - 1;
      assert items == items[..n] + [items[n]];
      StoredRowOf(run, items[..n], iid);
      assert StoredRows(run, items)[..n] == StoredRows(run, items[..n]);
    }
  }

  // ----- stored changes and the on-demand comparison -----

  /** The part of a change row that names the transition. */
  function Transition(c: ResultChange): (string, string, string) { (c.item, c.before, c.after) }

  function Transitions(rows: seq<ResultChange>): seq<(string, string, string)> {
    if rows == [] then [] else Transitions(rows[..|rows| - 1]) + [Transition(rows[|rows| - 1])]
  }

  /** A difference between two runs, as a change row; suppressed ones leave no row. */
  function Reported(d: Difference, iid: string, disabled: set<string>, seen: set<string>):
    seq<(string, string, string)>
  {
    match d
    case Same => []
    case Changed(b, a) => if iid in disabled then [] else [(iid, b, a)]
    case Removed(b) => if iid in disabled then [] else [(iid, b, "")]
    case Added(a) => if iid in seen then [] else [(iid, "", a)]
  }

  /**
   The change rows stored with a run are exactly the differences the comparison with the
   previous run shows, minus changed and removed items now switched off, and minus added
   items seen in the window, provided both runs leave something to compare.
   */
  lemma ChangesMatchComparison(past: seq<seq<CheckResult>>, stamp: Stamp, items: seq<ReportItem>,
                               disabled: set<string>, iid: string)
    requires Distinct(items)
    ensures Transitions(Where(Changes(past, stamp, items, disabled), ChangeFor(iid)))
      == if items == [] || Compared(past, disabled) == [] then []
         else Reported(DifferenceAt(StoredRows(stamp.runId, items), past[0], iid), iid, disabled, SeenIn(past))
  {
    ChangesAbout(past, stamp, items, disabled, iid);
    if items != [] && Compared(past, disabled) != [] {
      StoredRowOf(stamp.runId, items, iid);
      TransitionsFor(past, stamp, items, StoredRows(stamp.runId, items), disabled, iid);
    }
  }

  lemma TransitionsFor(past: seq<seq<CheckResult>>, stamp: Stamp, items: seq<ReportItem>, cur: seq<CheckResult>,
                       disabled: set<string>, iid: string)
    requires Distinct(items) && items != [] && Compared(past, disabled) != []
    requires ReportState(items, iid)
          == match RowOf(cur, iid) case None => None case Some(r) => Some(State(r.status, r.desc))
    ensures Transitions(ChangesFor(past, stamp, items, disabled, iid))
         == Reported(DifferenceAt(cur, past[0], iid), iid, disabled, SeenIn(past))
  {
    hide Cut, Transitions;
    var prev := past[0];
    var p := RowOf(prev, iid);
    var q := RowOf(Compared(past, disabled), iid);
    ComparedRow(prev, disabled, iid);
    if iid in ReportedIds(items) {
      var i :| 0 <= i < |items| && items[i].Id() == iid;
      ReportStateOfDistinct(items, i);
      ChangesForDistinct(past, stamp, items, disabled, i);
      var seen := SeenIn(past);
      assert p.Some? ==> iid in seen by {
        if p.Some? { assert prev in past && p.value in prev; }
      }
      ItemTransition(p, q, seen, disabled, stamp, items[i]);
    } else {
      GoneTransition(q, ReportedIds(items), stamp);
    }
  }

  lemma ItemTransition(p: Option<CheckResult>, q: Option<CheckResult>, seen: set<string>, disabled: set<string>,
                       stamp: Stamp, it: ReportItem)
    requires q == if it.Id() in disabled then None else p
    requires p.Some? ==> it.Id() in seen
    ensures var now := it.Shown().status;
      Transitions(ItemChange(q, seen, stamp, it))
      == Reported(if p.None? then Added(now) else if p.value.status != now then Changed(p.value.status, now) else Same,
                  it.Id(), disabled, seen)
  {
  }

  lemma GoneTransition(q: Option<CheckResult>, reported: set<string>, stamp: Stamp)
    requires q.Some? ==> q.value.item !in reported
    ensures Transitions(VanishedChange(q, reported, stamp))
         == if q.Some? then [(q.value.item, q.value.status, "")] else []
  {
  }

  // ----- the two logs -----

  /** The change row that the version row written for the same item implies. */
  function Implied(vs: seq<ItemVersion>, seen: set<string>): seq<(string, string, string)> {
    if vs == [] || vs[0].kind.DescChanged? || (vs[0].kind.New? && vs[0].item in seen) then []
    else [(vs[0].item, vs[0].beforeStatus, vs[0].status)]
  }

  /**
   With nothing switched off and a non-empty previous report, the change rows of every item
   follow from its version row: a status row is a change with both sides, a gone row one
   without an after, a new row one without a before unless the window has seen the item,
   and a description change leaves no change row.
   */
  lemma LogsAgree(before: seq<ItemVersion>, stamp0: Stamp, prev: seq<ReportItem>,
                  past: seq<seq<CheckResult>>, stamp: Stamp, items: seq<ReportItem>, iid: string)
    requires Fits(before) && Distinct(prev) && Distinct(items) && prev != [] && items != []
    requires past != [] && past[0] == StoredRows(stamp0.runId, prev)
    ensures var log := Record(before, stamp0, prev, {});
      var vs := Where(Recorded(log, stamp, items, {}), ForItem(iid));
      var cs := Where(Changes(past, stamp, items, {}), ChangeFor(iid));
      |vs| <= 1 && (vs != [] ==> !vs[0].kind.Initial?) && Transitions(cs) == Implied(vs, SeenIn(past))
  {
    var log := Record(before, stamp0, prev, {});
    RecordFits(before, stamp0, prev, {});
    PreviousView(before, stamp0, prev, iid);
    StoredRowOf(stamp0.runId, prev, iid);
    AgreeAt(log, past, stamp, items, iid);
  }

  lemma PreviousView(before: seq<ItemVersion>, stamp0: Stamp, prev: seq<ReportItem>, iid: string)
    requires Fits(before) && Distinct(prev) && prev != []
    ensures StateOf(Record(before, stamp0, prev, {}), iid) == ReportState(prev, iid)
    ensures Record(before, stamp0, prev, {}) != []
  {
    var log := Record(before, stamp0, prev, {});
    ReplayDistinct(before, stamp0, prev, {});
    ReplayedAll(before, prev);
    ViewIs(log, iid);
    ViewIs(log, prev[0].Id());
    assert prev[0].Id() in ReportedIds(prev);
  }

  lemma AgreeAt(log: seq<ItemVersion>, past: seq<seq<CheckResult>>, stamp: Stamp, items: seq<ReportItem>,
                iid: string)
    requires Fits(log) && log != [] && Distinct(items) && items != [] && past != [] && past[0] != []
    requires var r := RowOf(past[0], iid);
      StateOf(log, iid) == if r.Some? then Some(State(r.value.status, r.value.desc)) else None
    ensures var vs := Where(Recorded(log, stamp, items, {}), ForItem(iid));
      var cs := Where(Changes(past, stamp, items, {}), ChangeFor(iid));
      |vs| <= 1 && (vs != [] ==> !vs[0].kind.Initial?) && Transitions(cs) == Implied(vs, SeenIn(past))
  {
    RecordedFor(log, stamp, items, {}, iid);
    VersionRowOf(log, stamp, items, {}, iid);
    ChangesMatchComparison(past, stamp, items, {}, iid);
    WhereAll(past[0], Comparable({}));
    StoredRowOf(stamp.runId, items, iid);
    ImpliedBy(StoredRows(stamp.runId, items), past[0], RowsFor(log, stamp, items, {}, iid), iid, SeenIn(past));
  }

  lemma ImpliedBy(cur: seq<CheckResult>, prev: seq<CheckResult>, vs: seq<ItemVersion>, iid: string, seen: set<string>)
    requires var p, r := RowOf(prev, iid), RowOf(cur, iid);
      && |vs| <= 1
      && (vs == [] ==> (p.None? <==> r.None?) && (p.Some? ==> p.value.status == r.value.status))
      && (vs != [] ==>
           && vs[0].item == iid
           && vs[0].beforeStatus == (if p.Some? then p.value.status else "")
           && vs[0].status == (if r.Some? then r.value.status else "")
           && (p.Some? || r.Some?)
           && vs[0].kind == if p.None? then New else if r.None? then Gone
                            else if p.value.status != r.value.status then StatusChanged else DescChanged)
    ensures Reported(DifferenceAt(cur, prev, iid), iid, {}, seen) == Implied(vs, seen)
  {
  }

  /** `vs` is the one row that takes an item from `was` to `now`, or none. */
  predicate IsStep(vs: seq<ItemVersion>, iid: string, first: bool, was: Option<State>, now: Option<State>) {
    && |vs| <= 1
    && (vs != [] ==>
         && vs[0].item == iid
         && vs[0].beforeStatus == (if was.Some? then was.value.status else "")
         && vs[0].status == (if now.Some? then now.value.status else "")
         && vs[0].kind == if first then Initial else if was.None? then New else if now.None? then Gone
                          else if was.value.status != now.value.status then StatusChanged else DescChanged)
  }

  lemma OneRow(log: seq<ItemVersion>, stamp: Stamp, it: ReportItem)
    requires Fits(log)
    ensures var vs := if log == [] then [InitialRow(stamp, it)] else ItemRow(Latest(log, it.Id()), stamp, it);
      && IsStep(vs, it.Id(), log == [], StateOf(log, it.Id()), Some(it.Shown()))
      && (vs == [] <==> StateOf(log, it.Id()) == Some(it.Shown()))
  {
  }

  lemma LastGone(log: seq<ItemVersion>, stamp: Stamp, reported: set<string>, disabled: set<string>, iid: string)
    requires Fits(log) && iid !in reported
    ensures var vs := Vanished(Latest(log, iid), stamp, iid, reported, disabled);
      && IsStep(vs, iid, false, StateOf(log, iid), None)
      && (vs == [] <==> StateOf(log, iid).None? || iid in disabled)
  {
  }

  /** The version row a report with distinct ids writes for an item, if any. */
  lemma VersionRowOf(log: seq<ItemVersion>, stamp: Stamp, items: seq<ReportItem>, disabled: set<string>,
                     iid: string)
    requires Fits(log) && Distinct(items) && items != []
    ensures var vs := RowsFor(log, stamp, items, disabled, iid);
      var was, now := StateOf(log, iid), ReportState(items, iid);
      && IsStep(vs, iid, log == [], was, now)
      && (vs == [] <==> was == now || (now.None? && iid in disabled))
  {
    hide Baseline, ItemRows, Vanished, Latest, StateOf, Where, IsStep, Fits;
    if iid in ReportedIds(items) {
      var i :| 0 <= i < |items| && items[i].Id() == iid;
      ReportStateOfDistinct(items, i);
      MentionsOfDistinct(items, iid);
      OneMention(log, stamp, items[i]);
      OneRow(log, stamp, items[i]);
    } else {
      LastGone(log, stamp, ReportedIds(items), disabled, iid);
      EmptyLogState(log, iid);
      NoStep(iid);
    }
  }

  lemma EmptyLogState(log: seq<ItemVersion>, iid: string)
    ensures log == [] ==> StateOf(log, iid).None?
  {
  }

  lemma NoStep(iid: string)
    ensures IsStep([], iid, true, None, None)
  {
  }
}
