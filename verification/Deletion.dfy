/**
 Batched deletion: retention cleanup (`_cleanup`) and host deletion remove runs a batch at a
 time because of SQLite's bind-variable limit. For any number of ids the batches add up to
 one deletion, and no result row is left without its run after any batch.
 */
module Deletion {
  import opened Queries
  import opened Records
  import opened Store

  const DELETE_BATCH: nat := 500

  function RunNotIn(ids: seq<int>): CheckRun -> bool { (r: CheckRun) => r.id !in ids }
  function ResultNotIn(ids: seq<int>): CheckResult -> bool { (x: CheckResult) => x.runId !in ids }
  function StartedBefore(cutoff: int): CheckRun -> bool { (r: CheckRun) => r.startedAt < cutoff }
  function StartedSince(cutoff: int): CheckRun -> bool { (r: CheckRun) => r.startedAt >= cutoff }
  function NotOfHost(host: int): CheckRun -> bool { (r: CheckRun) => r.hostId != host }
  function ChangeSince(cutoff: int): ResultChange -> bool { (c: ResultChange) => c.detectedAt >= cutoff }
  function ChangeNotOf(host: int): ResultChange -> bool { (c: ResultChange) => c.hostId != host }
  function VersionNotOf(host: int): ItemVersion -> bool { (v: ItemVersion) => v.hostId != host }
  function HostNotId(host: int): Host -> bool { (h: Host) => h.id != host }

  /** One batch, committed: results first, then their runs. */
  method DeleteBatch(db: Database, batch: seq<int>)
    requires NoOrphans(db.runs, db.results)
    modifies db`runs, db`results
    ensures db.runs == Where(old(db.runs), RunNotIn(batch))
    ensures db.results == Where(old(db.results), ResultNotIn(batch))
    ensures NoOrphans(db.runs, db.results)
  {
    KeepsParents(db.runs, db.results, batch);
    db.results := Where(db.results, ResultNotIn(batch));
    db.runs := Where(db.runs, RunNotIn(batch));
  }

  lemma KeepsParents(runs: seq<CheckRun>, results: seq<CheckResult>, batch: seq<int>)
    requires NoOrphans(runs, results)
    ensures NoOrphans(Where(runs, RunNotIn(batch)), Where(results, ResultNotIn(batch)))
  {
    WhereMembers(runs, RunNotIn(batch));
    WhereMembers(results, ResultNotIn(batch));
  }

  lemma DeleteMore(runs: seq<CheckRun>, results: seq<CheckResult>, done: seq<int>, batch: seq<int>)
    ensures Where(Where(runs, RunNotIn(done)), RunNotIn(batch)) == Where(runs, RunNotIn(done + batch))
    ensures Where(Where(results, ResultNotIn(done)), ResultNotIn(batch)) == Where(results, ResultNotIn(done + batch))
  {
    WhereWhere(runs, RunNotIn(done), RunNotIn(batch), RunNotIn(done + batch));
    WhereWhere(results, ResultNotIn(done), ResultNotIn(batch), ResultNotIn(done + batch));
  }

  /** The batch loop equals one deletion of all ids. */
  method DeleteRuns(db: Database, ids: seq<int>)
    requires NoOrphans(db.runs, db.results)
    modifies db`runs, db`results
    ensures db.runs == Where(old(db.runs), RunNotIn(ids))
    ensures db.results == Where(old(db.results), ResultNotIn(ids))
    ensures NoOrphans(db.runs, db.results)
  {
    hide Where, NoOrphans;
    WhereAll(db.runs, RunNotIn([]));
    WhereAll(db.results, ResultNotIn([]));
    var start := 0;
    while start < |ids|
      invariant 0 <= start <= |ids|
      invariant db.runs == Where(old(db.runs), RunNotIn(ids[..start]))
      invariant db.results == Where(old(db.results), ResultNotIn(ids[..start]))
      invariant NoOrphans(db.runs, db.results)
    {
      var end := if start + DELETE_BATCH <= |ids| then start + DELETE_BATCH else |ids|;
      DeleteMore(old(db.runs), old(db.results), ids[..start], ids[start..end]);
      assert ids[..start] + ids[start..end] == ids[..end];
      DeleteBatch(db, ids[start..end]);
      start := end;
    }
    assert ids[..start] == ids;
  }

  /** Deleting by a list of selected ids is deleting by the selection, since ids are unique. */
  lemma SelectedIds(runs: seq<CheckRun>, gone: CheckRun -> bool, kept: CheckRun -> bool)
    requires RunsOrdered(runs) && forall r :: r in runs ==> kept(r) == !gone(r)
    ensures Where(runs, RunNotIn(Collect(Where(runs, gone), RunId()))) == Where(runs, kept)
  {
    var picked := Where(runs, gone);
    var ids := Collect(picked, RunId());
    WhereMembers(runs, gone);
    forall r | r in runs ensures RunNotIn(ids)(r) == kept(r) {
      if r.id in ids {
        var i :| 0 <= i < |ids| && ids[i] == r.id;
        var a :| 0 <= a < |runs| && runs[a] == r;
        assert picked[i] in picked;
        var b :| 0 <= b < |runs| && runs[b] == picked[i];
        assert a == b;
      }
    }
    WhereSame(runs, RunNotIn(ids), kept);
  }

  /** After a deletion the results left are exactly those whose run is left. */
  lemma ResultsOfKeptRuns(runs: seq<CheckRun>, results: seq<CheckResult>, gone: CheckRun -> bool)
    requires RunsOrdered(runs) && NoOrphans(runs, results)
    ensures var ids := Collect(Where(runs, gone), RunId());
      forall x :: x in Where(results, ResultNotIn(ids)) <==>
        x in results && exists r :: r in runs && r.id == x.runId && !gone(r)
  {
    var picked := Where(runs, gone);
    var ids := Collect(picked, RunId());
    WhereMembers(runs, gone);
    WhereMembers(results, ResultNotIn(ids));
    forall x | x in results ensures x.runId !in ids <==> exists r :: r in runs && r.id == x.runId && !gone(r) {
      var r :| r in runs && r.id == x.runId;
      var a :| 0 <= a < |runs| && runs[a] == r;
      if x.runId in ids {
        var i :| 0 <= i < |ids| && ids[i] == x.runId;
        assert picked[i] in picked;
        var b :| 0 <= b < |runs| && runs[b] == picked[i];
        assert a == b && gone(r);
        forall q | q in runs && q.id == x.runId ensures gone(q) {
          var c :| 0 <= c < |runs| && runs[c] == q;
          assert c == a;
        }
      }
    }
  }

  /**
   What is left of the tables: runs started and changes detected at the cutoff or later, and the
   results of such runs; everything when there is no cutoff. Hosts, versions and switches stay.
   */
  ghost predicate Expired(before: Tables, after: Tables, cutoff: Option<int>) {
    && (forall r :: r in after.runs <==> r in before.runs && (cutoff.Some? ==> r.startedAt >= cutoff.value))
    && (forall x :: x in after.results <==>
          x in before.results && exists r :: r in before.runs && r.id == x.runId
                                             && (cutoff.Some? ==> r.startedAt >= cutoff.value))
    && (forall c :: c in after.changes <==> c in before.changes && (cutoff.Some? ==> c.detectedAt >= cutoff.value))
    && after.hosts == before.hosts && after.versions == before.versions && after.disables == before.disables
  }

  lemma NothingExpires(t: Tables)
    requires NoOrphans(t.runs, t.results)
    ensures Expired(t, t, None)
  {
  }

  lemma ExpiredIs(t: Tables, cutoff: int)
    requires RunsOrdered(t.runs) && NoOrphans(t.runs, t.results)
    ensures var gone := Collect(Where(t.runs, StartedBefore(cutoff)), RunId());
      Expired(t, t.(runs := Where(t.runs, StartedSince(cutoff)), results := Where(t.results, ResultNotIn(gone)),
                    changes := Where(t.changes, ChangeSince(cutoff))), Some(cutoff))
  {
    hide Where, NoOrphans, RunsOrdered;
    WhereMembers(t.runs, StartedSince(cutoff));
    WhereMembers(t.changes, ChangeSince(cutoff));
    ResultsOfKeptRuns(t.runs, t.results, StartedBefore(cutoff));
  }

  /** What is left when a host is gone: every row of every other host, and no row of this one. */
  ghost predicate HostGone(before: Tables, after: Tables, host: int) {
    && (forall h :: h in after.hosts <==> h in before.hosts && h.id != host)
    && (forall r :: r in after.runs <==> r in before.runs && r.hostId != host)
    && (forall x :: x in after.results <==>
          x in before.results && exists r :: r in before.runs && r.id == x.runId && r.hostId != host)
    && (forall c :: c in after.changes <==> c in before.changes && c.hostId != host)
    && (forall v :: v in after.versions <==> v in before.versions && v.hostId != host)
    && after.disables == before.disables
  }

  lemma HostGoneIs(t: Tables, host: int)
    requires RunsOrdered(t.runs) && NoOrphans(t.runs, t.results)
    ensures var gone := Collect(Where(t.runs, RunOfHost(host)), RunId());
      HostGone(t, Tables(Where(t.hosts, HostNotId(host)), Where(t.runs, NotOfHost(host)),
                         Where(t.results, ResultNotIn(gone)), Where(t.changes, ChangeNotOf(host)),
                         Where(t.versions, VersionNotOf(host)), t.disables), host)
  {
    hide Where, NoOrphans, RunsOrdered;
    WhereMembers(t.hosts, HostNotId(host));
    WhereMembers(t.runs, NotOfHost(host));
    WhereMembers(t.changes, ChangeNotOf(host));
    WhereMembers(t.versions, VersionNotOf(host));
    ResultsOfKeptRuns(t.runs, t.results, RunOfHost(host));
  }

  /** `_cleanup`: rows older than the retention period go; the version log is never touched. */
  method Cleanup(db: Database, retention: int, now: int)
    requires RunsOrdered(db.runs) && NoOrphans(db.runs, db.results)
    modifies db`runs, db`results, db`changes
    ensures retention <= 0 ==> db.Contents() == old(db.Contents())
    ensures retention > 0 ==>
      var gone := Collect(Where(old(db.runs), StartedBefore(now - retention)), RunId());
      && db.runs == Where(old(db.runs), StartedSince(now - retention))
      && db.results == Where(old(db.results), ResultNotIn(gone))
      && db.changes == Where(old(db.changes), ChangeSince(now - retention))
    ensures Expired(old(db.Contents()), db.Contents(), if retention <= 0 then None else Some(now - retention))
    ensures NoOrphans(db.runs, db.results)
    ensures db.versions == old(db.versions)
  {
    hide Where, Expired, NoOrphans;
    ghost var t := db.Contents();
    if retention <= 0 {
      NothingExpires(t);
      return;
    }
    var cutoff := now - retention;
    var oldIds := Collect(Where(db.runs, StartedBefore(cutoff)), RunId());
    SelectedIds(db.runs, StartedBefore(cutoff), StartedSince(cutoff));
    DeleteRuns(db, oldIds);
    db.changes := Where(db.changes, ChangeSince(cutoff));
    ExpiredIs(t, cutoff);
    assert db.Contents() == t.(runs := db.runs, results := db.results, changes := db.changes);
  }

  /** Deleting a host takes its runs, results, changes and versions with it, and nothing of other hosts. */
  method HostDelete(db: Database, host: int)
    requires RunsOrdered(db.runs) && NoOrphans(db.runs, db.results)
    modifies db`hosts, db`runs, db`results, db`changes, db`versions
    ensures FindHost(old(db.hosts), host).None? ==> db.Contents() == old(db.Contents())
    ensures FindHost(old(db.hosts), host).Some? ==>
      var gone := Collect(Where(old(db.runs), RunOfHost(host)), RunId());
      && db.runs == Where(old(db.runs), NotOfHost(host))
      && db.results == Where(old(db.results), ResultNotIn(gone))
      && db.changes == Where(old(db.changes), ChangeNotOf(host))
      && db.versions == Where(old(db.versions), VersionNotOf(host))
      && db.hosts == Where(old(db.hosts), HostNotId(host))
      && HostGone(old(db.Contents()), db.Contents(), host)
    ensures NoOrphans(db.runs, db.results)
  {
    hide Where, HostGone, NoOrphans;
    ghost var t := db.Contents();
    if FindHost(db.hosts, host).None? {
      return;
    }
    var runIds := Collect(Where(db.runs, RunOfHost(host)), RunId());
    SelectedIds(db.runs, RunOfHost(host), NotOfHost(host));
    DeleteRuns(db, runIds);
    db.changes := Where(db.changes, ChangeNotOf(host));
    db.versions := Where(db.versions, VersionNotOf(host));
    db.hosts := Where(db.hosts, HostNotId(host));
    HostGoneIs(t, host);
  }

  /** Another host keeps every run and every version row, in order, when a host is deleted. */
  lemma OthersKeepTheirs(runs: seq<CheckRun>, versions: seq<ItemVersion>, host: int, other: int)
    requires other != host
    ensures Where(Where(runs, NotOfHost(host)), RunOfHost(other)) == Where(runs, RunOfHost(other))
    ensures Where(Where(versions, VersionNotOf(host)), VersionOfHost(other)) == Where(versions, VersionOfHost(other))
  {
    WhereWhere(runs, NotOfHost(host), RunOfHost(other), RunOfHost(other));
    WhereWhere(versions, VersionNotOf(host), VersionOfHost(other), VersionOfHost(other));
  }
}
