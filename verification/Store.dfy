/** The database the check engine works on. Tables are kept in row-id order. */
module Store {
  import opened Queries
  import opened Records

  datatype LastStatus = NeverRun | LastSuccess | LastFailed

  datatype Mode = AgentMode | SshMode | ApiMode

  datatype Host = Host(id: int, mode: Mode, enabled: bool, intervalMinutes: int,
                       lastCheckedAt: Option<int>, lastRunStatus: LastStatus, offlineAlerted: bool)

  datatype Tables = Tables(hosts: seq<Host>, runs: seq<CheckRun>, results: seq<CheckResult>,
                           changes: seq<ResultChange>, versions: seq<ItemVersion>,
                           disables: set<(string, string)>)

  function RunIsRunning(): CheckRun -> bool { (r: CheckRun) => r.status.Running? }
  function RunOfHost(h: int): CheckRun -> bool { (r: CheckRun) => r.hostId == h }
  function SuccessOf(h: int): CheckRun -> bool { (r: CheckRun) => r.hostId == h && r.status.Success? }
  function RunId(): CheckRun -> int { (r: CheckRun) => r.id }

  ghost predicate RunsOrdered(runs: seq<CheckRun>) {
    forall i, j :: 0 <= i < j < |runs| ==> runs[i].id < runs[j].id
  }

  ghost predicate HostsOrdered(hosts: seq<Host>) {
    forall i, j :: 0 <= i < j < |hosts| ==> hosts[i].id < hosts[j].id
  }

  /** No result row refers to a run that is not there. */
  ghost predicate NoOrphans(runs: seq<CheckRun>, results: seq<CheckResult>) {
    forall x :: x in results ==> exists r :: r in runs && r.id == x.runId
  }

  ghost predicate WellFormed(t: Tables) {
    RunsOrdered(t.runs) && HostsOrdered(t.hosts) && NoOrphans(t.runs, t.results)
  }

  /** A selection keeps the order of row ids. */
  lemma {:induction false} SelectedOrdered(runs: seq<CheckRun>, p: CheckRun -> bool)
    requires RunsOrdered(runs)
    ensures RunsOrdered(Where(runs, p))
  {
    if runs != [] {
      var n := |runs| - 1;
      SelectedOrdered(runs[..n], p);
      WhereMembers(runs[..n], p);
      var own := Where(runs[..n], p);
      forall i | 0 <= i < |own| ensures own[i].id < runs[n].id {
        assert own[i] in runs[..n];
      }
    }
  }

  lemma SelectedSuffix(rows: seq<CheckRun>, p: CheckRun -> bool, k: nat)
    requires k <= |rows| && forall j :: 0 <= j < |rows| ==> (p(rows[j]) <==> j >= k)
    ensures Where(rows, p) == rows[k..]
  {
    WhereAppend(rows[..k], rows[k..], p);
    assert rows == rows[..k] + rows[k..];
    WhereNone(rows[..k], p);
    WhereAll(rows[k..], p);
  }

  function FindRun(runs: seq<CheckRun>, id: int): (r: Option<CheckRun>)
    ensures r.Some? ==> r.value in runs && r.value.id == id
  {
    if runs == [] then None
    else
      var n := |runs| - 1;
      if runs[n].id == id then Some(runs[n]) else FindRun(runs[..n], id)
  }

  function FindHost(hosts: seq<Host>, id: int): (r: Option<Host>)
    ensures r.Some? ==> r.value in hosts && r.value.id == id
  {
    if hosts == [] then None
    else
      var n := |hosts| - 1;
      if hosts[n].id == id then Some(hosts[n]) else FindHost(hosts[..n], id)
  }

  /** UPDATE of the rows with the given id. */
  function PutRun(runs: seq<CheckRun>, id: int, row: CheckRun): (r: seq<CheckRun>)
    ensures |r| == |runs|
    ensures forall i :: 0 <= i < |runs| ==> r[i] == if runs[i].id == id then row else runs[i]
  {
    seq(|runs|, i requires 0 <= i < |runs| => if runs[i].id == id then row else runs[i])
  }

  function PutHost(hosts: seq<Host>, id: int, row: Host): (r: seq<Host>)
    ensures |r| == |hosts|
    ensures forall i :: 0 <= i < |hosts| ==> r[i] == if hosts[i].id == id then row else hosts[i]
  {
    seq(|hosts|, i requires 0 <= i < |hosts| => if hosts[i].id == id then row else hosts[i])
  }

  /** SQLite hands out one more than the largest row id present. */
  function NextRunId(runs: seq<CheckRun>): int {
    if runs == [] then 1 else runs[|runs| - 1].id + 1
  }

  class Database {
    var hosts: seq<Host>
    var runs: seq<CheckRun>
    var results: seq<CheckResult>
    var changes: seq<ResultChange>
    var versions: seq<ItemVersion>
    var disables: set<(string, string)>

    ghost function Contents(): Tables
      reads this
    {
      Tables(hosts, runs, results, changes, versions, disables)
    }
  }
}
