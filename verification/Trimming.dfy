/**
 The per-host safety valve on the version log. `_trim_versions` keeps the newest rows of one
 host; what is kept still shows only true states, and the log never becomes empty again, so
 the initial baseline is written once in a host's lifetime.
 */
module Trimming {
  import opened Queries
  import opened Records
  import opened VersionLog
  import opened VersionReplay
  import opened TimeTravel

  const VERSIONS_CAP_PER_HOST: nat := 20000

  function Trim(log: seq<ItemVersion>): seq<ItemVersion> {
    log[if |log| <= VERSIONS_CAP_PER_HOST then 0 else |log| - VERSIONS_CAP_PER_HOST..]
  }

  /** The version table without the oldest `n` rows of a host. */
  function DropOldest(table: seq<ItemVersion>, host: int, n: nat): seq<ItemVersion> {
    if table == [] || n == 0 then table
    else if table[0].hostId == host then DropOldest(table[1..], host, n - 1)
    else [table[0]] + DropOldest(table[1..], host, n)
  }

  function Overflow(table: seq<ItemVersion>, host: int): nat {
    var n := |Where(table, VersionOfHost(host))|;
    if n <= VERSIONS_CAP_PER_HOST then 0 else n - VERSIONS_CAP_PER_HOST
  }

  lemma WhereFirst<T>(rows: seq<T>, p: T -> bool)
    requires rows != []
    ensures Where(rows, p) == (if p(rows[0]) then [rows[0]] else []) + Where(rows[1..], p)
  {
    assert rows == [rows[0]] + rows[1..];
    WhereAppend([rows[0]], rows[1..], p);
    assert [rows[0]][..0] == [];
  }

  /** Dropping a host's oldest rows leaves a suffix of its log. */
  lemma {:induction false} DropOldestOf(table: seq<ItemVersion>, host: int, n: nat)
    requires n <= |Where(table, VersionOfHost(host))|
    ensures Where(DropOldest(table, host, n), VersionOfHost(host)) == Where(table, VersionOfHost(host))[n..]
  {
    if table != [] && n != 0 {
      var rest := table[1..];
      WhereFirst(table, VersionOfHost(host));
      if table[0].hostId == host {
        DropOldestOf(rest, host, n - 1);
      } else {
        DropOldestOf(rest, host, n);
        var after := DropOldest(table, host, n);
        assert after[1..] == DropOldest(rest, host, n);
        WhereFirst(after, VersionOfHost(host));
      }
    }
  }

  /** It does not touch any other host's log. */
  lemma {:induction false} DropOldestOther(table: seq<ItemVersion>, host: int, n: nat, other: int)
    requires other != host
    ensures Where(DropOldest(table, host, n), VersionOfHost(other)) == Where(table, VersionOfHost(other))
  {
    if table != [] && n != 0 {
      var rest := table[1..];
      WhereFirst(table, VersionOfHost(other));
      if table[0].hostId == host {
        DropOldestOther(rest, host, n - 1, other);
      } else {
        DropOldestOther(rest, host, n, other);
        var after := DropOldest(table, host, n);
        assert after[1..] == DropOldest(rest, host, n);
        WhereFirst(after, VersionOfHost(other));
      }
    }
  }

  lemma TrimOf(table: seq<ItemVersion>, host: int, other: int)
    ensures var after := DropOldest(table, host, Overflow(table, host));
      var own, kept := Where(table, VersionOfHost(host)), Where(after, VersionOfHost(host));
      && kept == Trim(own) && |kept| == (if |own| <= 20000 then |own| else 20000) && kept == own[|own| - |kept|..]
      && (other != host ==> Where(after, VersionOfHost(other)) == Where(table, VersionOfHost(other)))
  {
    DropOldestOf(table, host, Overflow(table, host));
    if other != host { DropOldestOther(table, host, Overflow(table, host), other); }
  }

  /** A kept suffix shows exactly the live items that still have a row, with unchanged states. */
  lemma SuffixView(log: seq<ItemVersion>, k: nat, iid: string)
    requires k <= |log|
    ensures iid in View(log[k..]) <==> iid in View(log) && Latest(log[k..], iid).Some?
    ensures iid in View(log[k..]) ==> View(log[k..])[iid] == View(log)[iid]
  {
    assert log == log[..k] + log[k..];
    LatestAppend(log[..k], log[k..], iid);
    ViewIs(log, iid);
    ViewIs(log[k..], iid);
  }

  // ----- a host's lifetime with trimming after every save -----

  function SavedLog(reports: seq<Report>): seq<ItemVersion> {
    if reports == [] then []
    else
      var r := reports[|reports| - 1];
      Trim(Record(SavedLog(reports[..|reports| - 1]), r.stamp, r.items, r.disabled))
  }

  lemma {:induction false} SavedLogFits(reports: seq<Report>)
    ensures Fits(SavedLog(reports)) && |SavedLog(reports)| <= 20000
  {
    if reports != [] {
      var r := reports[|reports| - 1];
      SavedLogFits(reports[..|reports| - 1]);
      RecordFits(SavedLog(reports[..|reports| - 1]), r.stamp, r.items, r.disabled);
    }
  }

  /** Only the first non-empty report finds the log empty, however much was trimmed since. */
  lemma {:induction false} NeverEmptiedAgain(reports: seq<Report>)
    ensures SavedLog(reports) == [] <==> forall r :: r in reports ==> r.items == []
  {
    if reports != [] {
      var before, r := reports[..|reports| - 1], reports[|reports| - 1];
      assert reports == before + [r];
      NeverEmptiedAgain(before);
      if SavedLog(before) == [] && r.items != [] {
        var n := |r.items| - 1;
        assert Baseline(r.stamp, r.items) != [];
      }
    }
  }

  lemma {:induction false} ItemRowsNotInitial(log: seq<ItemVersion>, stamp: Stamp, items: seq<ReportItem>)
    ensures forall v :: v in ItemRows(log, stamp, items) ==> !v.kind.Initial?
  {
    if items != [] { ItemRowsNotInitial(log, stamp, items[..|items| - 1]); }
  }

  lemma {:induction false} GoneRowsNotInitial(log: seq<ItemVersion>, stamp: Stamp, order: seq<string>,
                                              reported: set<string>, disabled: set<string>)
    ensures forall v :: v in GoneRows(log, stamp, order, reported, disabled) ==> !v.kind.Initial?
  {
    if order != [] {
      GoneRowsNotInitial(log, stamp, order[..|order| - 1], reported, disabled);
    }
  }

  /** A report that writes an initial row is preceded by empty reports only. */
  lemma BaselineOnce(reports: seq<Report>, stamp: Stamp, items: seq<ReportItem>, disabled: set<string>)
    requires exists v :: v in Recorded(SavedLog(reports), stamp, items, disabled) && v.kind.Initial?
    ensures forall r :: r in reports ==> r.items == []
  {
    var log := SavedLog(reports);
    NeverEmptiedAgain(reports);
    if log != [] {
      ItemRowsNotInitial(log, stamp, items);
      GoneRowsNotInitial(log, stamp, LoggedItems(log), ReportedIds(items), disabled);
    }
  }

  /**
   What a save leaves after trimming: a suffix of the recorded log whose view is part of the
   replayed report, and all of it when nothing had to be dropped.
   */
  lemma SavedView(reports: seq<Report>, stamp: Stamp, items: seq<ReportItem>, disabled: set<string>, iid: string)
    requires items != [] && Distinct(items)
    ensures var log := SavedLog(reports);
      var full := Record(log, stamp, items, disabled);
      var kept := Trim(full);
      var want := Replayed(log, items, disabled);
      && (|full| <= 20000 ==> View(kept) == want)
      && (iid in View(kept) <==> iid in want && Latest(kept, iid).Some?)
      && (iid in View(kept) ==> View(kept)[iid] == want[iid])
  {
    SavedLogFits(reports);
    ReplayDistinct(SavedLog(reports), stamp, items, disabled);
    TrimView(Record(SavedLog(reports), stamp, items, disabled), iid);
  }

  lemma TrimView(full: seq<ItemVersion>, iid: string)
    ensures iid in View(Trim(full)) <==> iid in View(full) && Latest(Trim(full), iid).Some?
    ensures iid in View(Trim(full)) ==> View(Trim(full))[iid] == View(full)[iid]
  {
    SuffixView(full, if |full| <= VERSIONS_CAP_PER_HOST then 0 else |full| - VERSIONS_CAP_PER_HOST, iid);
  }
}
