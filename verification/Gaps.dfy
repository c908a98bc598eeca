/**
 `_gap_data` of app/routes/gaps.py: items of one status in the latest successful runs of all
 enabled hosts, grouped by item and ordered by how many hosts they affect.
 */
module Gaps {
  import opened Queries
  import opened Records
  import opened Store
  import opened Counting

  // ----- ordering -----

  /** Python's `a <= b` on strings: by code points, a prefix first. */
  predicate AtMost(a: string, b: string) {
    a == "" || (b != "" && (a[0] < b[0] || (a[0] == b[0] && AtMost(a[1..], b[1..]))))
  }

  lemma {:induction false} AtMostTotal(a: string, b: string)
    ensures AtMost(a, b) || AtMost(b, a)
    ensures AtMost(a, b) && AtMost(b, a) ==> a == b
  {
    if a != "" && b != "" {
      AtMostTotal(a[1..], b[1..]);
      assert a == [a[0]] + a[1..] && b == [b[0]] + b[1..];
    }
  }

  lemma {:induction false} AtMostTransitive(a: string, b: string, c: string)
    requires AtMost(a, b) && AtMost(b, c)
    ensures AtMost(a, c)
  {
    if a != "" && b != "" && c != "" && a[0] == b[0] == c[0] { AtMostTransitive(a[1..], b[1..], c[1..]); }
  }

  datatype Group = Group(item: string, category: string, description: string, hosts: seq<string>)

  /** The key `(-len(hosts), item_id)`. */
  predicate Precedes(a: Group, b: Group) {
    |a.hosts| > |b.hosts| || (|a.hosts| == |b.hosts| && AtMost(a.item, b.item))
  }

  /** Built-in sorting, by insertion. */
  function Inserted<T>(x: T, ys: seq<T>, le: (T, T) -> bool): seq<T> {
    if ys == [] then [x]
    else if le(x, ys[0]) then [x] + ys
    else [ys[0]] + Inserted(x, ys[1..], le)
  }

  function Sorted<T>(xs: seq<T>, le: (T, T) -> bool): seq<T> {
    if xs == [] then [] else Inserted(xs[0], Sorted(xs[1..], le), le)
  }

  ghost predicate Ascending<T>(xs: seq<T>, le: (T, T) -> bool) {
    forall i, j :: 0 <= i < j < |xs| ==> le(xs[i], xs[j])
  }

  ghost predicate IsOrder<T(!new)>(le: (T, T) -> bool) {
    && (forall a, b :: le(a, b) || le(b, a))
    && forall a, b, c :: le(a, b) && le(b, c) ==> le(a, c)
  }

  lemma {:induction false} InsertedMembers<T>(x: T, ys: seq<T>, le: (T, T) -> bool)
    ensures multiset(Inserted(x, ys, le)) == multiset(ys) + multiset{x}
  {
    if ys != [] {
      assert ys == [ys[0]] + ys[1..];
      InsertedMembers(x, ys[1..], le);
    }
  }

  lemma {:induction false} InsertedAscends<T(!new)>(x: T, ys: seq<T>, le: (T, T) -> bool)
    requires IsOrder(le) && Ascending(ys, le)
    ensures Ascending(Inserted(x, ys, le), le)
  {
    if ys != [] && !le(x, ys[0]) {
      assert ys == [ys[0]] + ys[1..];
      InsertedAscends(x, ys[1..], le);
      InsertedMembers(x, ys[1..], le);
      Prepended(ys[0], Inserted(x, ys[1..], le), x, ys[1..], le);
    }
  }

  lemma Prepended<T(!new)>(first: T, rest: seq<T>, x: T, ys: seq<T>, le: (T, T) -> bool)
    requires Ascending(rest, le) && multiset(rest) == multiset(ys) + multiset{x}
    requires le(first, x) && forall y :: y in ys ==> le(first, y)
    ensures Ascending([first] + rest, le)
  {
    forall j | 0 <= j < |rest| ensures le(first, rest[j]) { assert rest[j] in multiset(rest); }
  }

  lemma {:induction false} SortedIs<T(!new)>(xs: seq<T>, le: (T, T) -> bool)
    requires IsOrder(le)
    ensures Ascending(Sorted(xs, le), le) && multiset(Sorted(xs, le)) == multiset(xs)
  {
    if xs != [] {
      SortedIs(xs[1..], le);
      InsertedMembers(xs[0], Sorted(xs[1..], le), le);
      InsertedAscends(xs[0], Sorted(xs[1..], le), le);
      assert xs == [xs[0]] + xs[1..];
    }
  }

  // ----- which rows -----

  predicate EnabledHost(hosts: seq<Host>, id: int) { exists h :: h in hosts && h.id == id && h.enabled }

  /** `func.max(CheckRun.id)` over successes, grouped by host. */
  predicate IsLatest(hosts: seq<Host>, runs: seq<CheckRun>, r: CheckRun) {
    && r.status.Success? && EnabledHost(hosts, r.hostId)
    && forall x :: x in runs && x.hostId == r.hostId && x.status.Success? ==> x.id <= r.id
  }

  function Latest(hosts: seq<Host>, runs: seq<CheckRun>): seq<CheckRun> {
    Where(runs, (r: CheckRun) => IsLatest(hosts, runs, r))
  }

  function IdSet(runs: seq<CheckRun>): set<int> { set r | r in runs :: r.id }

  function GapRow(ids: set<int>, st: string): CheckResult -> bool {
    (x: CheckResult) => x.runId in ids && x.status == st
  }

  function OfItem(iid: string): CheckResult -> bool { (x: CheckResult) => x.item == iid }

  /** The host name a row is listed under; `nameOf` gives the name column of a run. */
  function Labelled(nameOf: int -> string): CheckResult -> string { (x: CheckResult) => nameOf(x.runId) }

  /** What the dictionary holds for an item: the first row's texts and every row's host. */
  function GroupFor(rows: seq<CheckResult>, iid: string, nameOf: int -> string): Group {
    var own := Where(rows, OfItem(iid));
    if own == [] then Group(iid, "", "", [])
    else Group(iid, own[0].cat, own[0].desc, Collect(own, Labelled(nameOf)))
  }

  function Grouping(rows: seq<CheckResult>, nameOf: int -> string): string -> Group {
    (iid: string) => GroupFor(rows, iid, nameOf)
  }

  function SortHosts(g: Group): Group { g.(hosts := Sorted(g.hosts, AtMost)) }
  function SortingHosts(): Group -> Group { (g: Group) => SortHosts(g) }
  function ItemOf(): Group -> string { (g: Group) => g.item }
  function Affected(): Group -> int { (g: Group) => |g.hosts| }
  function Items(rows: seq<CheckResult>): seq<string> { FirstSeen(Collect(rows, ResultItem())) }

  function GapList(rows: seq<CheckResult>, nameOf: int -> string): seq<Group> {
    Collect(Sorted(Collect(Items(rows), Grouping(rows, nameOf)), Precedes), SortingHosts())
  }

  function GapRows(hosts: seq<Host>, runs: seq<CheckRun>, results: seq<CheckResult>, st: string): seq<CheckResult> {
    Where(results, GapRow(IdSet(Latest(hosts, runs)), st))
  }

  lemma GroupNext(rows: seq<CheckResult>, x: CheckResult, iid: string, nameOf: int -> string)
    ensures var g := GroupFor(rows, iid, nameOf);
      GroupFor(rows + [x], iid, nameOf)
      == if x.item != iid then g
         else if Where(rows, OfItem(iid)) == [] then Group(iid, x.cat, x.desc, [nameOf(x.runId)])
         else g.(hosts := g.hosts + [nameOf(x.runId)])
  {
  }

  lemma ItemsNext(rows: seq<CheckResult>, x: CheckResult)
    ensures Items(rows + [x]) == Items(rows) + if x.item in Items(rows) then [] else [x.item]
    ensures x.item in Items(rows) <==> Where(rows, OfItem(x.item)) != []
  {
    var ids := Collect(rows, ResultItem());
    assert Collect(rows + [x], ResultItem()) == ids + [x.item];
    assert (ids + [x.item])[..|ids|] == ids;
    FirstSeenIs(ids);
    WhereMembers(rows, OfItem(x.item));
    if x.item in ids {
      var i :| 0 <= i < |ids| && ids[i] == x.item;
      assert rows[i] in Where(rows, OfItem(x.item));
    }
    if Where(rows, OfItem(x.item)) != [] {
      var y := Where(rows, OfItem(x.item))[0];
      assert y in rows;
      var i :| 0 <= i < |rows| && rows[i] == y;
      assert ids[i] == x.item;
    }
  }

  method GapData(hosts: seq<Host>, runs: seq<CheckRun>, results: seq<CheckResult>, st: string, nameOf: int -> string)
    returns (gaps: seq<Group>, hostTotal: nat)
    ensures gaps == GapList(GapRows(hosts, runs, results, st), nameOf)
    ensures hostTotal == |Latest(hosts, runs)|
  {
    hide Where, FirstSeen, Collect, Items, GroupFor, Latest;
    var latest := Latest(hosts, runs);
    hostTotal := |latest|;
    var rows := Where(results, GapRow(IdSet(latest), st));
    var order: seq<string> := [];
    var groups: map<string, Group> := map[];
    NoItems();
    for i := 0 to |rows|
      invariant order == Items(rows[..i])
      invariant forall k :: k in order <==> k in groups
      invariant forall k :: k in groups ==> groups[k] == GroupFor(rows[..i], k, nameOf)
    {
      var x := rows[i];
      assert rows[..i + 1] == rows[..i] + [x];
      ItemsNext(rows[..i], x);
      forall k ensures k in groups && k != x.item ==> GroupFor(rows[..i + 1], k, nameOf) == groups[k] {
        GroupNext(rows[..i], x, k, nameOf);
      }
      GroupNext(rows[..i], x, x.item, nameOf);
      if x.item !in groups {
        order := order + [x.item];
        groups := groups[x.item := Group(x.item, x.cat, x.desc, [])];
      }
      var g := groups[x.item];
      groups := groups[x.item := g.(hosts := g.hosts + [nameOf(x.runId)])];
    }
    assert rows[..|rows|] == rows;
    var listed := seq(|order|, i requires 0 <= i < |order| => groups[order[i]]);
    SameGroups(listed, order, Grouping(rows, nameOf));
    gaps := Collect(Sorted(listed, Precedes), SortingHosts());
  }

  lemma SameGroups(listed: seq<Group>, order: seq<string>, f: string -> Group)
    requires |listed| == |order| && forall i :: 0 <= i < |order| ==> listed[i] == f(order[i])
    ensures listed == Collect(order, f)
  {
  }

  lemma NoItems()
    ensures Items([]) == []
  {
  }

  // ----- what the list says -----

  lemma AtMostIsOrder()
    ensures IsOrder(AtMost)
  {
    forall a, b ensures AtMost(a, b) || AtMost(b, a) { AtMostTotal(a, b); }
    forall a, b, c | AtMost(a, b) && AtMost(b, c) ensures AtMost(a, c) { AtMostTransitive(a, b, c); }
  }

  lemma PrecedesIsOrder()
    ensures IsOrder(Precedes)
  {
    hide AtMost;
    forall a: Group, b: Group ensures Precedes(a, b) || Precedes(b, a) { AtMostTotal(a.item, b.item); }
    forall a: Group, b: Group, c: Group | Precedes(a, b) && Precedes(b, c) ensures Precedes(a, c) {
      if |a.hosts| == |b.hosts| == |c.hosts| { AtMostTransitive(a.item, b.item, c.item); }
    }
  }

  /** Two lists with the same members: the last of one can be taken out of both. */
  lemma TakeOut<T>(xs: seq<T>, ys: seq<T>) returns (j: nat)
    requires multiset(xs) == multiset(ys) && xs != []
    ensures j < |ys| && ys[j] == xs[|xs| - 1]
    ensures multiset(xs[..|xs| - 1]) == multiset(ys[..j] + ys[j + 1..])
  {
    var n := |xs| - 1;
    assert xs[n] in multiset(ys);
    j :| 0 <= j < |ys| && ys[j] == xs[n];
    assert ys == ys[..j] + [ys[j]] + ys[j + 1..];
    assert xs == xs[..n] + [xs[n]];
    assert multiset(ys) == multiset(ys[..j] + ys[j + 1..]) + multiset{ys[j]};
    assert multiset(xs) == multiset(xs[..n]) + multiset{xs[n]};
    assert multiset(xs[..n]) == multiset(xs) - multiset{xs[n]};
  }

  lemma NoMembers<T>(ys: seq<T>)
    requires multiset(ys) == multiset([])
    ensures ys == []
  {
    assert |multiset(ys)| == 0;
  }

  lemma {:induction false} SameCollected<T, U>(xs: seq<T>, ys: seq<T>, f: T -> U)
    requires multiset(xs) == multiset(ys)
    ensures multiset(Collect(xs, f)) == multiset(Collect(ys, f))
  {
    if xs == [] {
      NoMembers(ys);
    } else {
      var n := |xs| - 1;
      var j := TakeOut(xs, ys);
      SameCollected(xs[..n], ys[..j] + ys[j + 1..], f);
      assert Collect(xs, f) == Collect(xs[..n], f) + [f(xs[n])];
      assert Collect(ys, f) == Collect(ys[..j], f) + [f(ys[j])] + Collect(ys[j + 1..], f);
      assert Collect(ys[..j] + ys[j + 1..], f) == Collect(ys[..j], f) + Collect(ys[j + 1..], f);
    }
  }

  lemma {:induction false} SameSum(xs: seq<int>, ys: seq<int>)
    requires multiset(xs) == multiset(ys)
    ensures Sum(xs) == Sum(ys)
  {
    if xs == [] {
      NoMembers(ys);
    } else {
      var j := TakeOut(xs, ys);
      SameSum(xs[..|xs| - 1], ys[..j] + ys[j + 1..]);
      SumWithout(ys, j);
    }
  }

  lemma SumWithout(ys: seq<int>, j: nat)
    requires j < |ys|
    ensures Sum(ys) == Sum(ys[..j] + ys[j + 1..]) + ys[j]
  {
    assert ys == ys[..j + 1] + ys[j + 1..];
    SumAppend(ys[..j + 1], ys[j + 1..]);
    SumAppend(ys[..j], ys[j + 1..]);
    assert ys[..j + 1][..j] == ys[..j];
  }

  function Mentions(rows: seq<CheckResult>): string -> int { (iid: string) => |Where(rows, OfItem(iid))| }

  lemma {:induction false} OneMoreMention(order: seq<string>, rows: seq<CheckResult>, x: CheckResult)
    requires NoRepeat(order)
    ensures Sum(Collect(order, Mentions(rows + [x])))
         == Sum(Collect(order, Mentions(rows))) + if x.item in order then 1 else 0
  {
    assert (rows + [x])[..|rows|] == rows;
    if order != [] {
      var n := |order| - 1;
      OneMoreMention(order[..n], rows, x);
      assert order == order[..n] + [order[n]];
      assert Collect(order, Mentions(rows))[..n] == Collect(order[..n], Mentions(rows));
      assert Collect(order, Mentions(rows + [x]))[..n] == Collect(order[..n], Mentions(rows + [x]));
    }
  }

  /** Every row is a member of exactly one group. */
  lemma {:induction false} MembershipsAdd(rows: seq<CheckResult>)
    ensures Sum(Collect(Items(rows), Mentions(rows))) == |rows|
  {
    if rows == [] {
      NoItems();
      assert Collect(Items(rows), Mentions(rows)) == [];
    } else {
      var n := |rows| - 1;
      var before, x := rows[..n], rows[n];
      assert rows == before + [x];
      MembershipsAdd(before);
      ItemsNext(before, x);
      FirstSeenIs(Collect(before, ResultItem()));
      OneMoreMention(Items(before), before, x);
      if x.item !in Items(before) {
        assert Collect(Items(rows), Mentions(rows)) == Collect(Items(before), Mentions(rows)) + [Mentions(rows)(x.item)];
        SumAppend(Collect(Items(before), Mentions(rows)), [1]);
        assert rows[..n] == before && Where(rows, OfItem(x.item)) == [x];
        assert Sum([1]) == Sum([1][..0]) + 1;
      } else {
        assert Items(rows) == Items(before);
      }
    }
  }

  lemma GroupHosts(rows: seq<CheckResult>, iid: string, nameOf: int -> string)
    ensures GroupFor(rows, iid, nameOf).item == iid
    ensures GroupFor(rows, iid, nameOf).hosts == Collect(Where(rows, OfItem(iid)), Labelled(nameOf))
  {
  }

  /** `g` lists an item of `rows`, with the hosts of exactly its rows, in order. */
  ghost predicate IsGap(g: Group, rows: seq<CheckResult>, nameOf: int -> string) {
    && g.item in Items(rows)
    && multiset(g.hosts) == multiset(Collect(Where(rows, OfItem(g.item)), Labelled(nameOf)))
    && Ascending(g.hosts, AtMost)
  }

  lemma GapIs(g: Group, rows: seq<CheckResult>, nameOf: int -> string, iid: string)
    requires iid in Items(rows) && g == SortHosts(GroupFor(rows, iid, nameOf))
    ensures IsGap(g, rows, nameOf) && |g.hosts| == Mentions(rows)(iid)
  {
    hide Items, Sorted, AtMost, GroupFor, Where;
    GroupHosts(rows, iid, nameOf);
    AtMostIsOrder();
    var names := GroupFor(rows, iid, nameOf).hosts;
    SortedIs(names, AtMost);
    assert |g.hosts| == |multiset(g.hosts)| == |multiset(names)| == |names|;
  }

  lemma SortedGroups(groups: seq<Group>)
    ensures Ascending(Sorted(groups, Precedes), Precedes) && multiset(Sorted(groups, Precedes)) == multiset(groups)
    ensures forall g :: g in Sorted(groups, Precedes) ==> g in groups
  {
    hide Precedes, Sorted;
    PrecedesIsOrder();
    SortedIs(groups, Precedes);
    forall g | g in Sorted(groups, Precedes) ensures g in groups { assert g in multiset(groups); }
  }

  /**
   The list is ordered by falling number of hosts, then by item id; each entry lists an item of
   the rows with the hosts of exactly its rows, in order.
   */
  lemma GapListOrdered(rows: seq<CheckResult>, nameOf: int -> string)
    ensures var gaps := GapList(rows, nameOf);
      (forall g :: g in gaps ==> IsGap(g, rows, nameOf)) && Ascending(gaps, Precedes)
  {
    hide Items, Sorted, AtMost, GroupFor, IsGap, SortHosts;
    var order := Items(rows);
    var groups := Collect(order, Grouping(rows, nameOf));
    var byCount := Sorted(groups, Precedes);
    var gaps := GapList(rows, nameOf);
    SortedGroups(groups);
    forall i | 0 <= i < |gaps| ensures IsGap(gaps[i], rows, nameOf) && SortKept(byCount[i], gaps[i]) {
      assert byCount[i] in groups;
      var k :| 0 <= k < |groups| && groups[k] == byCount[i];
      GapIs(gaps[i], rows, nameOf, order[k]);
      GroupHosts(rows, order[k], nameOf);
      SortKeeps(byCount[i]);
    }
    forall i, j | 0 <= i < j < |gaps| ensures Precedes(gaps[i], gaps[j]) {
      assert SortKept(byCount[i], gaps[i]) && SortKept(byCount[j], gaps[j]);
    }
  }

  predicate SortKept(g: Group, s: Group) { s.item == g.item && |s.hosts| == |g.hosts| }

  lemma SortKeeps(g: Group)
    ensures SortKept(g, SortHosts(g))
  {
    AtMostIsOrder();
    hide Sorted, AtMost;
    SortedIs(g.hosts, AtMost);
    assert |multiset(SortHosts(g).hosts)| == |multiset(g.hosts)|;
  }

  /** Every item is listed once, and every row is a membership of exactly one entry. */
  lemma GapListComplete(rows: seq<CheckResult>, nameOf: int -> string)
    ensures var gaps := GapList(rows, nameOf);
      && NoRepeat(Items(rows)) && multiset(Collect(gaps, ItemOf())) == multiset(Items(rows))
      && Sum(Collect(gaps, Affected())) == |rows|
  {
    hide Sorted, AtMost, GroupFor, SortHosts, Sum, NoRepeat, Precedes, FirstSeen;
    FirstSeenIs(Collect(rows, ResultItem()));
    var order := Items(rows);
    var groups := Collect(order, Grouping(rows, nameOf));
    var byCount := Sorted(groups, Precedes);
    var gaps := GapList(rows, nameOf);
    SortedGroups(groups);
    forall i | 0 <= i < |gaps| ensures gaps[i].item == byCount[i].item && |gaps[i].hosts| == |byCount[i].hosts| {
      SortKeeps(byCount[i]);
    }
    assert Collect(gaps, ItemOf()) == Collect(byCount, ItemOf());
    assert Collect(gaps, Affected()) == Collect(byCount, Affected());
    SameCollected(byCount, groups, Affected());
    SameCollected(byCount, groups, ItemOf());
    SameSum(Collect(byCount, Affected()), Collect(groups, Affected()));
    MembershipsAdd(rows);
    forall k | 0 <= k < |order| ensures groups[k].item == order[k] && |groups[k].hosts| == Mentions(rows)(order[k]) {
      GroupHosts(rows, order[k], nameOf);
    }
    assert Collect(groups, Affected()) == Collect(order, Mentions(rows));
    assert Collect(groups, ItemOf()) == order;
  }

  // ----- conservation -----

  lemma {:induction false} WhereEither(rows: seq<CheckResult>, p: CheckResult -> bool, q: CheckResult -> bool,
                                       either: CheckResult -> bool)
    requires forall x :: x in rows ==> either(x) == (p(x) || q(x)) && !(p(x) && q(x))
    ensures |Where(rows, either)| == |Where(rows, p)| + |Where(rows, q)|
  {
    if rows != [] { WhereEither(rows[..|rows| - 1], p, q, either); }
  }

  function RowCount(results: seq<CheckResult>, st: string): CheckRun -> int {
    (r: CheckRun) => |Where(results, RowsWith(r.id, st))|
  }

  lemma {:induction false} RowsByRun(results: seq<CheckResult>, runs: seq<CheckRun>, st: string)
    requires RunsOrdered(runs)
    ensures |Where(results, GapRow(IdSet(runs), st))| == Sum(Collect(runs, RowCount(results, st)))
  {
    if runs == [] {
      WhereNone(results, GapRow(IdSet(runs), st));
    } else {
      var n := |runs| - 1;
      RowsByRun(results, runs[..n], st);
      assert runs == runs[..n] + [runs[n]];
      assert IdSet(runs) == IdSet(runs[..n]) + {runs[n].id};
      assert runs[n].id !in IdSet(runs[..n]);
      WhereEither(results, GapRow(IdSet(runs[..n]), st), RowsWith(runs[n].id, st), GapRow(IdSet(runs), st));
      assert Collect(runs, RowCount(results, st))[..n] == Collect(runs[..n], RowCount(results, st));
    }
  }

  function StatusCount(st: string): CheckRun -> int { (r: CheckRun) => CountFor(r.counts, st) }

  /**
   Conservation: the hosts listed over all entries add up to the matching counts over the
   enabled hosts' latest successful runs.
   */
  lemma GapsConserve(hosts: seq<Host>, runs: seq<CheckRun>, results: seq<CheckResult>, st: string, nameOf: int -> string)
    requires RunsOrdered(runs) && Counted(runs, results) && Known(st)
    ensures Sum(Collect(GapList(GapRows(hosts, runs, results, st), nameOf), Affected()))
         == Sum(Collect(Latest(hosts, runs), StatusCount(st)))
  {
    hide GapList, Sum, Where, Known, CountFor, IsLatest;
    var latest := Latest(hosts, runs);
    GapListComplete(GapRows(hosts, runs, results, st), nameOf);
    LatestOrdered(hosts, runs);
    RowsByRun(results, latest, st);
    forall i | 0 <= i < |latest| ensures RowCount(results, st)(latest[i]) == StatusCount(st)(latest[i]) {
      assert latest[i] in runs && latest[i].status.Success?;
      assert RunCounted(results, latest[i]);
    }
    assert Collect(latest, RowCount(results, st)) == Collect(latest, StatusCount(st));
  }

  lemma LatestOrdered(hosts: seq<Host>, runs: seq<CheckRun>)
    requires RunsOrdered(runs)
    ensures RunsOrdered(Latest(hosts, runs))
    ensures forall i :: 0 <= i < |Latest(hosts, runs)| ==>
      Latest(hosts, runs)[i] in runs && Latest(hosts, runs)[i].status.Success?
  {
    var p := (r: CheckRun) => IsLatest(hosts, runs, r);
    SelectedOrdered(runs, p);
    WhereMembers(runs, p);
    forall i | 0 <= i < |Latest(hosts, runs)|
      ensures Latest(hosts, runs)[i] in runs && Latest(hosts, runs)[i].status.Success?
    {
      assert Latest(hosts, runs)[i] in Where(runs, p);
    }
  }

  /** Every enabled host with a success is represented by exactly one run, its last success. */
  lemma LatestPerHost(hosts: seq<Host>, runs: seq<CheckRun>, host: int)
    requires RunsOrdered(runs) && EnabledHost(hosts, host)
    ensures var own := Where(runs, SuccessOf(host));
      Where(Latest(hosts, runs), RunOfHost(host)) == if own == [] then [] else [own[|own| - 1]]
  {
    var own := Where(runs, SuccessOf(host));
    var p := (r: CheckRun) => IsLatest(hosts, runs, r);
    var both := (r: CheckRun) => r.hostId == host && IsLatest(hosts, runs, r);
    WhereWhere(runs, p, RunOfHost(host), both);
    WhereWhere(runs, SuccessOf(host), p, both);
    if own != [] {
      SelectedOrdered(runs, SuccessOf(host));
      WhereMembers(runs, SuccessOf(host));
      var last := own[|own| - 1];
      forall j | 0 <= j < |own| ensures p(own[j]) <==> j >= |own| - 1 {
        assert own[j] in own && last in own;
        forall x | x in runs && x.hostId == host && x.status.Success? ensures x.id <= last.id {
          assert x in own;
        }
      }
      SelectedSuffix(own, p, |own| - 1);
    }
  }
}
