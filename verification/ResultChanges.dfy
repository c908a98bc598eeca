/**
 The short-term change list: `_record_changes` of app/checker.py compares a report with the
 host's previous successful run, and `run_diff` of app/routes/runs.py makes the same
 comparison on demand. Both are stated here on the stored rows they read.
 */
module ResultChanges {
  import opened Queries
  import opened Records
  import opened VersionLog

  /** How many successful runs the comparison looks back on. */
  const HISTORY_RUNS: nat := 5

  /** The row a dictionary built from `rows` holds for an item: the last one. */
  function RowOf(rows: seq<CheckResult>, iid: string): (r: Option<CheckResult>)
    ensures r.Some? ==> r.value in rows && r.value.item == iid
  {
    if rows == [] then None
    else
      var n := |rows| - 1;
      if rows[n].item == iid then Some(rows[n]) else RowOf(rows[..n], iid)
  }

  /** Keys of the dictionary built from `rows`, in iteration order. */
  function RowItems(rows: seq<CheckResult>): seq<string> {
    FirstSeen(Collect(rows, ResultItem()))
  }

  lemma {:induction false} RowNone(rows: seq<CheckResult>, iid: string)
    ensures RowOf(rows, iid).Some? <==> exists r :: r in rows && r.item == iid
  {
    if rows != [] {
      RowNone(rows[..|rows| - 1], iid);
      assert rows == rows[..|rows| - 1] + [rows[|rows| - 1]];
    }
  }

  lemma RowItemsAre(rows: seq<CheckResult>)
    ensures forall iid :: iid in RowItems(rows) <==> RowOf(rows, iid).Some?
    ensures NoRepeat(RowItems(rows))
  {
    var ids := Collect(rows, ResultItem());
    FirstSeenIs(ids);
    forall iid ensures iid in RowItems(rows) <==> RowOf(rows, iid).Some? {
      RowNone(rows, iid);
      assert forall i :: 0 <= i < |rows| ==> ids[i] == rows[i].item;
      if iid in ids {
        var i :| 0 <= i < |ids| && ids[i] == iid;
        assert rows[i] in rows && rows[i].item == iid;
      }
      if r :| r in rows && r.item == iid {
        var i :| 0 <= i < |rows| && rows[i] == r;
        assert ids[i] == iid;
      }
    }
  }

  function Comparable(disabled: set<string>): CheckResult -> bool {
    (r: CheckResult) => r.item !in disabled
  }

  /** Items that occur in any of the runs looked back on. */
  function SeenIn(past: seq<seq<CheckResult>>): set<string> {
    set rows, r | rows in past && r in rows :: r.item
  }

  function ItemChange(p: Option<CheckResult>, seen: set<string>, stamp: Stamp, it: ReportItem):
    (r: seq<ResultChange>)
    ensures |r| <= 1 && forall c :: c in r ==> c.item == it.Id()
  {
    if p.Some? && p.value.status == it.Shown().status then []
    else if p.None? && it.Id() in seen then []
    else [ResultChange(stamp.hostId, stamp.runId, stamp.at, it.Id(), Cut(it.cat, CATEGORY_WIDTH),
                       if p.Some? then p.value.status else "", it.Shown().status, it.Shown().desc)]
  }

  function GoneChange(p: CheckResult, stamp: Stamp): ResultChange {
    ResultChange(stamp.hostId, stamp.runId, stamp.at, p.item, p.cat, p.status, "", p.desc)
  }

  function ItemChanges(prev: seq<CheckResult>, seen: set<string>, stamp: Stamp, items: seq<ReportItem>):
    seq<ResultChange>
  {
    if items == [] then []
    else
      var it := items[|items| - 1];
      ItemChanges(prev, seen, stamp, items[..|items| - 1]) + ItemChange(RowOf(prev, it.Id()), seen, stamp, it)
  }

  function VanishedChange(p: Option<CheckResult>, reported: set<string>, stamp: Stamp): seq<ResultChange> {
    if p.None? || p.value.item in reported then [] else [GoneChange(p.value, stamp)]
  }

  function GoneChanges(prev: seq<CheckResult>, order: seq<string>, reported: set<string>, stamp: Stamp):
    seq<ResultChange>
  {
    if order == [] then []
    else GoneChanges(prev, order[..|order| - 1], reported, stamp)
         + VanishedChange(RowOf(prev, order[|order| - 1]), reported, stamp)
  }

  /** The previous run's rows that take part in the comparison. */
  function Compared(past: seq<seq<CheckResult>>, disabled: set<string>): seq<CheckResult> {
    if past == [] then [] else Where(past[0], Comparable(disabled))
  }

  /** Rows written for a report; `past` holds the host's recent successful runs, newest first. */
  function Changes(past: seq<seq<CheckResult>>, stamp: Stamp, items: seq<ReportItem>, disabled: set<string>):
    seq<ResultChange>
  {
    var prev := Compared(past, disabled);
    if items == [] || prev == [] then []
    else ItemChanges(prev, SeenIn(past), stamp, items)
         + GoneChanges(prev, RowItems(prev), ReportedIds(items), stamp)
  }

  // ----- rows about one item -----

  function ChangeFor(iid: string): ResultChange -> bool { (c: ResultChange) => c.item == iid }

  lemma WhereOneChange(rows: seq<ResultChange>, x: string, iid: string)
    requires forall c :: c in rows ==> c.item == x
    ensures Where(rows, ChangeFor(iid)) == if x == iid then rows else []
  {
  }

  lemma {:induction false} ItemChangesFor(prev: seq<CheckResult>, seen: set<string>, stamp: Stamp,
                                          items: seq<ReportItem>, iid: string)
    ensures Where(ItemChanges(prev, seen, stamp, items), ChangeFor(iid))
         == ItemChanges(prev, seen, stamp, Where(items, Named(iid)))
  {
    if items != [] {
      var n := |items| - 1;
      var it := items[n];
      ItemChangesFor(prev, seen, stamp, items[..n], iid);
      var tail := ItemChange(RowOf(prev, it.Id()), seen, stamp, it);
      WhereAppend(ItemChanges(prev, seen, stamp, items[..n]), tail, ChangeFor(iid));
      WhereOneChange(tail, it.Id(), iid);
      MentionsStep(items, iid);
      var mine := Where(items[..n], Named(iid));
      assert (mine + [it])[..|mine|] == mine && mine + [] == mine;
    }
  }

  lemma {:induction false} GoneChangesFor(prev: seq<CheckResult>, order: seq<string>, reported: set<string>,
                                          stamp: Stamp, iid: string)
    requires NoRepeat(order)
    ensures Where(GoneChanges(prev, order, reported, stamp), ChangeFor(iid))
         == if iid in order then VanishedChange(RowOf(prev, iid), reported, stamp) else []
  {
    if order != [] {
      var n := |order| - 1;
      assert order == order[..n] + [order[n]];
      GoneChangesFor(prev, order[..n], reported, stamp, iid);
      var tail := VanishedChange(RowOf(prev, order[n]), reported, stamp);
      WhereAppend(GoneChanges(prev, order[..n], reported, stamp), tail, ChangeFor(iid));
      WhereOneChange(tail, order[n], iid);
      if order[n] == iid { assert iid !in order[..n]; }
    }
  }

  /** The change rows of one item, from what the report and the previous run say about it. */
  function ChangesFor(past: seq<seq<CheckResult>>, stamp: Stamp, items: seq<ReportItem>, disabled: set<string>,
                      iid: string): seq<ResultChange>
  {
    var prev := Compared(past, disabled);
    if items == [] || prev == [] then []
    else if iid in ReportedIds(items) then ItemChanges(prev, SeenIn(past), stamp, Where(items, Named(iid)))
    else VanishedChange(RowOf(prev, iid), ReportedIds(items), stamp)
  }

  lemma ChangesAbout(past: seq<seq<CheckResult>>, stamp: Stamp, items: seq<ReportItem>, disabled: set<string>,
                     iid: string)
    ensures Where(Changes(past, stamp, items, disabled), ChangeFor(iid))
         == ChangesFor(past, stamp, items, disabled, iid)
  {
    var prev := Compared(past, disabled);
    if items != [] && prev != [] {
      if iid !in ReportedIds(items) {
        forall it | it in items ensures !Named(iid)(it) { assert it.Id() in ReportedIds(items); }
        WhereNone(items, Named(iid));
      }
      ItemChangesFor(prev, SeenIn(past), stamp, items, iid);
      RowItemsAre(prev);
      GoneChangesFor(prev, RowItems(prev), ReportedIds(items), stamp, iid);
      WhereAppend(ItemChanges(prev, SeenIn(past), stamp, items),
                  GoneChanges(prev, RowItems(prev), ReportedIds(items), stamp), ChangeFor(iid));
    }
  }

  /** With distinct ids, an item has at most one change row, decided by its one mention. */
  lemma ChangesForDistinct(past: seq<seq<CheckResult>>, stamp: Stamp, items: seq<ReportItem>,
                           disabled: set<string>, i: nat)
    requires Distinct(items) && i < |items| && Compared(past, disabled) != []
    ensures ChangesFor(past, stamp, items, disabled, items[i].Id())
         == ItemChange(RowOf(Compared(past, disabled), items[i].Id()), SeenIn(past), stamp, items[i])
  {
    var it := items[i];
    MentionsOfDistinct(items, it.Id());
    assert Where(items, Named(it.Id())) == [it];
    var prev := Compared(past, disabled);
    assert [it][..0] == [];
    assert ItemChanges(prev, SeenIn(past), stamp, [it])
        == [] + ItemChange(RowOf(prev, it.Id()), SeenIn(past), stamp, it);
  }

  /** A row left out of the comparison is one about a switched-off item. */
  lemma {:induction false} ComparedRow(rows: seq<CheckResult>, disabled: set<string>, iid: string)
    ensures RowOf(Where(rows, Comparable(disabled)), iid) == if iid in disabled then None else RowOf(rows, iid)
  {
    if rows != [] {
      var n := |rows| - 1;
      ComparedRow(rows[..n], disabled, iid);
      var before := Where(rows[..n], Comparable(disabled));
      assert (before + [rows[n]])[..|before|] == before && before + [] == before;
    }
  }

  // ----- the on-demand comparison -----

  datatype Difference = Same | Changed(before: string, after: string) | Added(after: string) | Removed(before: string)

  /** What comparing two runs' rows says about one item. */
  function DifferenceAt(cur: seq<CheckResult>, prev: seq<CheckResult>, iid: string): Difference {
    match (RowOf(cur, iid), RowOf(prev, iid))
    case (None, None) => Same
    case (Some(r), None) => Added(r.status)
    case (None, Some(p)) => Removed(p.status)
    case (Some(r), Some(p)) => if p.status != r.status then Changed(p.status, r.status) else Same
  }

  /** The rows each dictionary key contributes, over the keys in iteration order. */
  function ChangedPairs(cur: seq<CheckResult>, prev: seq<CheckResult>, keys: seq<string>):
    seq<(CheckResult, CheckResult)>
  {
    if keys == [] then []
    else
      var iid := keys[|keys| - 1];
      ChangedPairs(cur, prev, keys[..|keys| - 1])
      + if DifferenceAt(cur, prev, iid).Changed? then [(RowOf(cur, iid).value, RowOf(prev, iid).value)] else []
  }

  function AddedRows(cur: seq<CheckResult>, prev: seq<CheckResult>, keys: seq<string>): seq<CheckResult> {
    if keys == [] then []
    else
      var iid := keys[|keys| - 1];
      AddedRows(cur, prev, keys[..|keys| - 1])
      + if DifferenceAt(cur, prev, iid).Added? then [RowOf(cur, iid).value] else []
  }

  function RemovedRows(cur: seq<CheckResult>, prev: seq<CheckResult>, keys: seq<string>): seq<CheckResult> {
    if keys == [] then []
    else
      var iid := keys[|keys| - 1];
      RemovedRows(cur, prev, keys[..|keys| - 1])
      + if DifferenceAt(cur, prev, iid).Removed? then [RowOf(prev, iid).value] else []
  }

  // ----- what the lists are, said with the stored rows alone -----

  /** The last row about its item, which is the one a dictionary keeps. */
  ghost predicate LastOfItem(rows: seq<CheckResult>, r: CheckResult) {
    exists i :: 0 <= i < |rows| && rows[i] == r && forall j :: i < j < |rows| ==> rows[j].item != r.item
  }

  /** Some row about `a` comes before every row about `b`. */
  ghost predicate AppearsBefore(rows: seq<CheckResult>, a: string, b: string) {
    exists i :: 0 <= i < |rows| && rows[i].item == a && forall j :: 0 <= j <= i ==> rows[j].item != b
  }

  /**
   The three lists of the page. An item whose status differs is listed with its two last rows, an
   item that only one run has with its last row there; each is listed once, in the order in which
   the items first appear.
   */
  ghost predicate IsComparison(cur: seq<CheckResult>, prev: seq<CheckResult>,
                               changed: seq<(CheckResult, CheckResult)>, added: seq<CheckResult>,
                               removed: seq<CheckResult>)
  {
    && (forall r, p :: (r, p) in changed <==>
          LastOfItem(cur, r) && LastOfItem(prev, p) && r.item == p.item && r.status != p.status)
    && (forall r :: r in added <==> LastOfItem(cur, r) && forall x :: x in prev ==> x.item != r.item)
    && (forall p :: p in removed <==> LastOfItem(prev, p) && forall x :: x in cur ==> x.item != p.item)
    && (forall i, j :: 0 <= i < j < |changed| ==> AppearsBefore(cur, changed[i].0.item, changed[j].0.item))
    && (forall i, j :: 0 <= i < j < |added| ==> AppearsBefore(cur, added[i].item, added[j].item))
    && (forall i, j :: 0 <= i < j < |removed| ==> AppearsBefore(prev, removed[i].item, removed[j].item))
  }

  lemma LastOfItemNext(rows: seq<CheckResult>, x: CheckResult, r: CheckResult)
    ensures LastOfItem(rows + [x], r) <==> if x.item == r.item then x == r else LastOfItem(rows, r)
  {
    var more := rows + [x];
    assert more[|rows|] == x;
    if LastOfItem(more, r) && x.item != r.item {
      var i :| 0 <= i < |more| && more[i] == r && forall j :: i < j < |more| ==> more[j].item != r.item;
      assert i < |rows| && rows[i] == r && forall j :: i < j < |rows| ==> rows[j] == more[j];
    }
    if LastOfItem(rows, r) && x.item != r.item {
      var i :| 0 <= i < |rows| && rows[i] == r && forall j :: i < j < |rows| ==> rows[j].item != r.item;
      assert more[i] == r && forall j :: i < j < |rows| ==> more[j] == rows[j];
    }
  }

  lemma {:induction false} RowOfIs(rows: seq<CheckResult>, r: CheckResult)
    ensures RowOf(rows, r.item) == Some(r) <==> LastOfItem(rows, r)
  {
    if rows != [] {
      hide LastOfItem;
      var n := |rows| - 1;
      RowOfIs(rows[..n], r);
      LastOfItemNext(rows[..n], rows[n], r);
      assert rows == rows[..n] + [rows[n]];
    }
  }

  lemma {:induction false} KeysInOrder(rows: seq<CheckResult>, i: nat, j: nat)
    requires i < j < |RowItems(rows)|
    ensures AppearsBefore(rows, RowItems(rows)[i], RowItems(rows)[j])
  {
    var ids := Collect(rows, ResultItem());
    if rows != [] {
      var n := |rows| - 1;
      var keys, a := RowItems(rows[..n]), RowItems(rows)[i];
      assert Collect(rows[..n], ResultItem()) == ids[..n];
      if j < |keys| {
        KeysInOrder(rows[..n], i, j);
        var k :| 0 <= k < n && rows[..n][k].item == keys[i] && forall m :: 0 <= m <= k ==> rows[..n][m].item != keys[j];
        assert rows[k].item == keys[i] && forall m :: 0 <= m <= k ==> rows[m] == rows[..n][m];
      } else {
        assert a in keys && RowItems(rows)[j] == rows[n].item;
        FirstSeenIs(ids[..n]);
        var k :| 0 <= k < n && ids[..n][k] == a;
        assert rows[k].item == a;
        forall m | 0 <= m <= k ensures rows[m].item != rows[n].item { assert ids[..n][m] == rows[m].item; }
      }
    }
  }

  /** Items listed for the first `n` keys, in key order. */
  ghost predicate Picked(rows: seq<CheckResult>, items: seq<string>, n: nat) {
    && n <= |RowItems(rows)|
    && (forall x :: x in items ==> x in RowItems(rows)[..n])
    && forall i, j :: 0 <= i < j < |items| ==> AppearsBefore(rows, items[i], items[j])
  }

  lemma PickedNext(rows: seq<CheckResult>, items: seq<string>, n: nat)
    requires 0 < n <= |RowItems(rows)| && Picked(rows, items, n - 1)
    ensures Picked(rows, items, n) && Picked(rows, items + [RowItems(rows)[n - 1]], n)
  {
    hide RowItems, AppearsBefore;
    var keys := RowItems(rows);
    assert keys[..n] == keys[..n - 1] + [keys[n - 1]];
    forall i | 0 <= i < |items| ensures AppearsBefore(rows, items[i], keys[n - 1]) {
      assert items[i] in keys[..n - 1];
      var m :| 0 <= m < n - 1 && keys[m] == items[i];
      KeysInOrder(rows, m, n - 1);
    }
  }

  function PairItem(): ((CheckResult, CheckResult)) -> string { (c: (CheckResult, CheckResult)) => c.0.item }

  lemma {:induction false} ChangedAre(cur: seq<CheckResult>, prev: seq<CheckResult>, keys: seq<string>)
    ensures forall r, p :: (r, p) in ChangedPairs(cur, prev, keys) <==>
      r.item in keys && r.status != p.status && RowOf(cur, r.item) == Some(r) && RowOf(prev, r.item) == Some(p)
  {
    hide RowOf;
    if keys != [] {
      ChangedAre(cur, prev, keys[..|keys| - 1]);
      assert keys == keys[..|keys| - 1] + [keys[|keys| - 1]];
    }
  }

  lemma {:induction false} AddedAre(cur: seq<CheckResult>, prev: seq<CheckResult>, keys: seq<string>)
    ensures forall r :: r in AddedRows(cur, prev, keys) <==>
      r.item in keys && RowOf(cur, r.item) == Some(r) && RowOf(prev, r.item).None?
  {
    hide RowOf;
    if keys != [] {
      AddedAre(cur, prev, keys[..|keys| - 1]);
      assert keys == keys[..|keys| - 1] + [keys[|keys| - 1]];
    }
  }

  lemma {:induction false} RemovedAre(cur: seq<CheckResult>, prev: seq<CheckResult>, keys: seq<string>)
    ensures forall p :: p in RemovedRows(cur, prev, keys) <==>
      p.item in keys && RowOf(prev, p.item) == Some(p) && RowOf(cur, p.item).None?
  {
    hide RowOf;
    if keys != [] {
      RemovedAre(cur, prev, keys[..|keys| - 1]);
      assert keys == keys[..|keys| - 1] + [keys[|keys| - 1]];
    }
  }

  /** Each list names items in the order of the keys it was made for. */
  lemma {:induction false} ListsPicked(cur: seq<CheckResult>, prev: seq<CheckResult>, n: nat, m: nat)
    requires n <= |RowItems(cur)| && m <= |RowItems(prev)|
    ensures Picked(cur, Collect(ChangedPairs(cur, prev, RowItems(cur)[..n]), PairItem()), n)
    ensures Picked(cur, Collect(AddedRows(cur, prev, RowItems(cur)[..n]), ResultItem()), n)
    ensures Picked(prev, Collect(RemovedRows(cur, prev, RowItems(prev)[..m]), ResultItem()), m)
    decreases n + m
  {
    hide RowItems, Picked, RowOf;
    if n > 0 {
      ListsPicked(cur, prev, n - 1, m);
      assert RowItems(cur)[..n][..n - 1] == RowItems(cur)[..n - 1];
      NextKey(cur, prev, RowItems(cur)[..n], RowItems(cur)[n - 1]);
      PickedNext(cur, Collect(ChangedPairs(cur, prev, RowItems(cur)[..n - 1]), PairItem()), n);
      PickedNext(cur, Collect(AddedRows(cur, prev, RowItems(cur)[..n - 1]), ResultItem()), n);
    } else {
      NonePicked(cur);
      if m > 0 {
        ListsPicked(cur, prev, n, m - 1);
        assert RowItems(prev)[..m][..m - 1] == RowItems(prev)[..m - 1];
        NextKey(cur, prev, RowItems(prev)[..m], RowItems(prev)[m - 1]);
        PickedNext(prev, Collect(RemovedRows(cur, prev, RowItems(prev)[..m - 1]), ResultItem()), m);
      } else {
        NonePicked(prev);
      }
    }
  }

  lemma NonePicked(rows: seq<CheckResult>)
    ensures Picked(rows, [], 0)
  {
  }

  /** What the last key adds to the items each list names. */
  lemma NextKey(cur: seq<CheckResult>, prev: seq<CheckResult>, keys: seq<string>, iid: string)
    requires keys != [] && keys[|keys| - 1] == iid
    ensures var before := keys[..|keys| - 1];
      var d := DifferenceAt(cur, prev, iid);
      && Collect(ChangedPairs(cur, prev, keys), PairItem())
           == Grown(Collect(ChangedPairs(cur, prev, before), PairItem()), iid, d.Changed?)
      && Collect(AddedRows(cur, prev, keys), ResultItem())
           == Grown(Collect(AddedRows(cur, prev, before), ResultItem()), iid, d.Added?)
      && Collect(RemovedRows(cur, prev, keys), ResultItem())
           == Grown(Collect(RemovedRows(cur, prev, before), ResultItem()), iid, d.Removed?)
  {
  }

  function Grown(items: seq<string>, iid: string, listed: bool): seq<string> { if listed then items + [iid] else items }

  lemma ListsAreComparison(cur: seq<CheckResult>, prev: seq<CheckResult>)
    ensures IsComparison(cur, prev, ChangedPairs(cur, prev, RowItems(cur)), AddedRows(cur, prev, RowItems(cur)),
                         RemovedRows(cur, prev, RowItems(prev)))
  {
    hide RowItems, RowOf, LastOfItem, AppearsBefore, ChangedPairs, AddedRows, RemovedRows;
    var n, m := |RowItems(cur)|, |RowItems(prev)|;
    assert RowItems(cur)[..n] == RowItems(cur) && RowItems(prev)[..m] == RowItems(prev);
    ChangedAre(cur, prev, RowItems(cur));
    AddedAre(cur, prev, RowItems(cur));
    RemovedAre(cur, prev, RowItems(prev));
    ListsPicked(cur, prev, n, m);
    RowItemsAre(cur);
    RowItemsAre(prev);
    forall r: CheckResult ensures RowOf(cur, r.item) == Some(r) <==> LastOfItem(cur, r) { RowOfIs(cur, r); }
    forall r: CheckResult ensures RowOf(prev, r.item) == Some(r) <==> LastOfItem(prev, r) { RowOfIs(prev, r); }
    forall iid ensures RowOf(cur, iid).None? <==> forall x :: x in cur ==> x.item != iid { RowNone(cur, iid); }
    forall iid ensures RowOf(prev, iid).None? <==> forall x :: x in prev ==> x.item != iid { RowNone(prev, iid); }
    var changed, added := ChangedPairs(cur, prev, RowItems(cur)), AddedRows(cur, prev, RowItems(cur));
    var removed := RemovedRows(cur, prev, RowItems(prev));
    forall i | 0 <= i < |changed| ensures Collect(changed, PairItem())[i] == changed[i].0.item {}
    forall i | 0 <= i < |added| ensures Collect(added, ResultItem())[i] == added[i].item {}
    forall i | 0 <= i < |removed| ensures Collect(removed, ResultItem())[i] == removed[i].item {}
  }

  /**
   The loop of `run_diff`: two dictionaries are compared key by key, and every key of either
   one contributes to exactly one of the three lists, or to none when its status is unchanged.
   */
  method Compare(cur: seq<CheckResult>, prev: seq<CheckResult>)
    returns (changed: seq<(CheckResult, CheckResult)>, added: seq<CheckResult>, removed: seq<CheckResult>)
    ensures changed == ChangedPairs(cur, prev, RowItems(cur))
    ensures added == AddedRows(cur, prev, RowItems(cur))
    ensures removed == RemovedRows(cur, prev, RowItems(prev))
    ensures IsComparison(cur, prev, changed, added, removed)
  {
    hide IsComparison;
    hide FirstSeen, Collect, RowItems, RowOf;
    changed, added, removed := [], [], [];
    RowItemsAre(cur);
    RowItemsAre(prev);
    var keys := RowItems(cur);
    var i := 0;
    while i < |keys|
      invariant 0 <= i <= |keys|
      invariant changed == ChangedPairs(cur, prev, keys[..i]) && added == AddedRows(cur, prev, keys[..i])
    {
      assert keys[..i + 1][..i] == keys[..i];
      var r := RowOf(cur, keys[i]).value;
      var p := RowOf(prev, keys[i]);
      if p.None? {
        added := added + [r];
      } else if p.value.status != r.status {
        changed := changed + [(r, p.value)];
      }
      i := i + 1;
    }
    assert keys[..i] == keys;
    keys := RowItems(prev);
    i := 0;
    while i < |keys|
      invariant 0 <= i <= |keys|
      invariant removed == RemovedRows(cur, prev, keys[..i])
    {
      assert keys[..i + 1][..i] == keys[..i];
      if RowOf(cur, keys[i]).None? {
        removed := removed + [RowOf(prev, keys[i]).value];
      }
      i := i + 1;
    }
    assert keys[..i] == keys;
    ListsAreComparison(cur, prev);
  }
}
