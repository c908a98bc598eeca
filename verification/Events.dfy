/**
 Any life of the tables. Agent reports are stored under new runs; a pulled check inserts a
 running run, saves into it, fails, withdraws it, or has it closed under it. Under every
 interleaving of these events, late saves included, every host stays mirrored.
 */
module Events {
  import opened Queries
  import opened Records
  import opened Store
  import opened TimeTravel
  import opened Checker
  import opened Mirror

  datatype Event =
    | AgentReport(host: int, disabled: set<string>, raw: seq<ReportItem>, now: int)
    | Started(host: int, now: int)                 // a running run is inserted
    | Finished(run: int, host: int, disabled: set<string>, raw: seq<ReportItem>, now: int)
    | Broke(run: int, host: int, now: int)         // _finish_failed
    | Stopped(ids: set<int>, now: int)             // _fail_running_runs
    | Withdrawn(run: int)
    | Nothing

  function StartedRun(runs: seq<CheckRun>, host: int, now: int): CheckRun {
    CheckRun(NextRunId(runs), host, Running, now, None, Counts(0, 0, 0, 0, 0), 0)
  }

  function NotRun(id: int): CheckRun -> bool { (r: CheckRun) => r.id != id }

  /** A save under a host or a run that is gone raises and changes nothing. */
  predicate Stores(t: Tables, e: Event) {
    match e
    case AgentReport(host, _, _, _) => FindHost(t.hosts, host).Some?
    case Finished(run, host, _, _, _) => FindHost(t.hosts, host).Some? && FindRun(t.runs, run).Some?
    case _ => false
  }

  function AfterEvent(t: Tables, e: Event): Tables {
    match e
    case AgentReport(host, disabled, raw, now) =>
      if Stores(t, e) then SavedTables(t, host, disabled, raw, None, now) else t
    case Started(host, now) => t.(runs := t.runs + [StartedRun(t.runs, host, now)])
    case Finished(run, host, disabled, raw, now) =>
      if Stores(t, e) then SavedTables(t, host, disabled, raw, Some(run), now) else t
    case Broke(run, host, now) =>
      var r, h := FindRun(t.runs, run), FindHost(t.hosts, host);
      if r.None? then t
      else t.(runs := PutRun(t.runs, run, Closed(r.value, now)),
              hosts := if h.Some? then PutHost(t.hosts, host, MarkFailed(h.value, now)) else t.hosts)
    case Stopped(ids, now) =>
      t.(runs := CloseRuns(t.runs, ids, now), hosts := CloseHosts(t.hosts, HostsOf(Where(t.runs, WithIdIn(ids)))))
    case Withdrawn(run) => t.(runs := Where(t.runs, NotRun(run)))
    case Nothing => t
  }

  function WithIdIn(ids: set<int>): CheckRun -> bool { (r: CheckRun) => r.id in ids }

  /** The report an event stores for a host, if any. */
  function StoredBy(t: Tables, e: Event, host: int): seq<Report> {
    if !Stores(t, e) || e.host != host then []
    else [LiveReport(t, host, e.disabled, e.raw, if e.Finished? then Some(e.run) else None, e.now)]
  }

  /** A check only touches its own run, and only before that run was stored. */
  ghost predicate Ok(t: Tables, e: Event) {
    match e
    case Finished(run, host, _, _, _) =>
      FindRun(t.runs, run).Some? ==>
        FindRun(t.runs, run).value.hostId == host && !FindRun(t.runs, run).value.status.Success?
    case Broke(run, _, _) => FindRun(t.runs, run).Some? ==> !FindRun(t.runs, run).value.status.Success?
    case Stopped(ids, _) => forall r :: r in t.runs && r.id in ids ==> r.status.Running?
    case Withdrawn(run) => forall r :: r in t.runs && r.id == run ==> r.status.Running?
    case _ => true
  }

  /** Only a stored run has result rows. */
  ghost predicate RowsOfSuccesses(runs: seq<CheckRun>, results: seq<CheckResult>) {
    forall r :: r in runs && !r.status.Success? ==> Where(results, ResultOfRun(r.id)) == []
  }

  ghost predicate Sound(t: Tables) { WellFormed(t) && RowsOfSuccesses(t.runs, t.results) }

  // ----- saves -----

  lemma SaveSound(t: Tables, host: int, disabled: set<string>, raw: seq<ReportItem>, run: Option<int>, now: int)
    requires Sound(t) && Storable(t, host, run) && FindHost(t.hosts, host).Some?
    ensures Sound(SavedTables(t, host, disabled, raw, run, now))
  {
    hide Where, CountsOf, FindHost, WellFormed, AppendVersions, Kept;
    SaveWellFormed(t, host, disabled, raw, run, now);
    var items := Kept(raw, disabled);
    var after := SavedTables(t, host, disabled, raw, run, now);
    var id := SavedId(t.runs, run);
    Parted(t);
    FreshHasNoResults(t, host, run);
    forall r | r in after.runs && !r.status.Success? ensures Where(after.results, ResultOfRun(r.id)) == [] {
      SavedOrKept(t, host, run, CountsOf(items), |items|, now, r);
      StoredResults(t.results, id, items, r.id);
    }
  }

  lemma Parted(t: Tables)
    requires WellFormed(t)
    ensures RunsOrdered(t.runs) && HostsOrdered(t.hosts) && NoOrphans(t.runs, t.results)
  {
  }

  /** After a save a run is the stored one, or it was there before; no other run is lost. */
  lemma SavedOrKept(t: Tables, host: int, run: Option<int>, cnt: Counts, total: nat, now: int, r: CheckRun)
    requires RunsOrdered(t.runs) && Storable(t, host, run)
    ensures var after := SavedRuns(t.runs, host, run, cnt, total, now);
      && (r in after ==> (r in t.runs && r.id != SavedId(t.runs, run))
                         || (r.id == SavedId(t.runs, run) && r.hostId == host && r.status.Success?))
      && (r in t.runs && r.id != SavedId(t.runs, run) ==> r in after)
  {
    hide FindRun, Where;
    var after := SavedRuns(t.runs, host, run, cnt, total, now);
    if r in after {
      var i :| 0 <= i < |after| && after[i] == r;
      if run.None? && i < |t.runs| { assert t.runs[i] == r; }
    }
    if r in t.runs && r.id != SavedId(t.runs, run) {
      var i :| 0 <= i < |t.runs| && t.runs[i] == r;
      assert after[i] == r;
    }
  }

  lemma StorableBy(t: Tables, host: int, run: int)
    requires Sound(t) && FindRun(t.runs, run).Some?
    requires FindRun(t.runs, run).value.hostId == host && !FindRun(t.runs, run).value.status.Success?
    ensures Storable(t, host, Some(run))
  {
    hide FindRun, Where;
    assert FindRun(t.runs, run).value in t.runs;
  }

  lemma SaveStep(t: Tables, e: Event, host: int, live: seq<Report>)
    requires Sound(t) && Mirrors(t, host, live) && Ok(t, e) && Stores(t, e)
    ensures Sound(AfterEvent(t, e)) && Mirrors(AfterEvent(t, e), host, live + StoredBy(t, e, host))
  {
    hide SavedTables, Mirrors, Where, FindRun, FindHost, WellFormed, RowsOfSuccesses;
    var run := if e.Finished? then Some(e.run) else None;
    if e.Finished? { StorableBy(t, e.host, e.run); }
    assert Storable(t, e.host, run);
    SaveSound(t, e.host, e.disabled, e.raw, run, e.now);
    assert WellFormed(t) by { Halves(t); }
    if e.host == host {
      SaveMirrors(t, host, e.disabled, e.raw, run, e.now, live);
    } else {
      SaveElsewhere(t, e.host, e.disabled, e.raw, run, e.now, host, live);
      assert live + [] == live;
    }
  }

  lemma Halves(t: Tables)
    requires Sound(t)
    ensures WellFormed(t) && RowsOfSuccesses(t.runs, t.results)
  {
  }

  // ----- everything else -----

  /** Runs changed in place, none of them stored before or after, leave the stored ones as they were. */
  lemma {:induction false} SuccessesStay(runs: seq<CheckRun>, after: seq<CheckRun>, host: int)
    requires |after| == |runs|
    requires forall i :: 0 <= i < |runs| ==> after[i] == runs[i] || (!runs[i].status.Success? && !after[i].status.Success?)
    ensures Where(after, SuccessOf(host)) == Where(runs, SuccessOf(host))
  {
    if runs != [] { SuccessesStay(runs[..|runs| - 1], after[..|runs| - 1], host); }
  }

  /** Tables that differ in unstored runs only. */
  lemma UnstoredStep(t: Tables, after: Tables, host: int, live: seq<Report>)
    requires Sound(t) && Mirrors(t, host, live)
    requires after.results == t.results && after.versions == t.versions && HostsOrdered(after.hosts)
    requires |after.runs| == |t.runs|
    requires forall i :: 0 <= i < |t.runs| ==>
      && after.runs[i].id == t.runs[i].id
      && (after.runs[i] == t.runs[i] || (!t.runs[i].status.Success? && !after.runs[i].status.Success?))
    ensures Sound(after) && Mirrors(after, host, live)
  {
    hide Where;
    SuccessesStay(t.runs, after.runs, host);
    forall x | x in after.results ensures exists r :: r in after.runs && r.id == x.runId {
      var r :| r in t.runs && r.id == x.runId;
      var i :| 0 <= i < |t.runs| && t.runs[i] == r;
      assert after.runs[i] in after.runs;
    }
    forall r | r in after.runs && !r.status.Success? ensures Where(after.results, ResultOfRun(r.id)) == [] {
      var i :| 0 <= i < |after.runs| && after.runs[i] == r;
      assert t.runs[i] in t.runs;
    }
  }

  lemma BrokeStep(t: Tables, e: Event, host: int, live: seq<Report>)
    requires Sound(t) && Mirrors(t, host, live) && Ok(t, e) && e.Broke?
    ensures Sound(AfterEvent(t, e)) && Mirrors(AfterEvent(t, e), host, live)
  {
    hide Where, FindRun, FindHost, Mirrors;
    var r, h := FindRun(t.runs, e.run), FindHost(t.hosts, e.host);
    if r.Some? {
      if h.Some? { PutHostOrdered(t.hosts, e.host, MarkFailed(h.value, e.now)); }
      FoundRun(t.runs, e.run);
      forall i | 0 <= i < |t.runs| && t.runs[i].id == e.run ensures t.runs[i] == r.value { assert t.runs[i] in t.runs; }
      UnstoredStep(t, AfterEvent(t, e), host, live);
    }
  }

  lemma StoppedStep(t: Tables, e: Event, host: int, live: seq<Report>)
    requires Sound(t) && Mirrors(t, host, live) && Ok(t, e) && e.Stopped?
    ensures Sound(AfterEvent(t, e)) && Mirrors(AfterEvent(t, e), host, live)
  {
    hide Where, Mirrors, RowsOfSuccesses, NoOrphans;
    forall i | 0 <= i < |t.runs| && t.runs[i].id in e.ids ensures t.runs[i].status.Running? { assert t.runs[i] in t.runs; }
    UnstoredStep(t, AfterEvent(t, e), host, live);
  }

  lemma StartedStep(t: Tables, e: Event, host: int, live: seq<Report>)
    requires Sound(t) && Mirrors(t, host, live) && e.Started?
    ensures Sound(AfterEvent(t, e)) && Mirrors(AfterEvent(t, e), host, live)
  {
    hide Where, RowsOfSuccesses, RunsOrdered, HostsOrdered;
    var row, after := StartedRun(t.runs, e.host, e.now), AfterEvent(t, e);
    WhereAppend(t.runs, [row], SuccessOf(host));
    WhereNone([row], SuccessOf(host));
    NewIdIsLast(t.runs, row);
    StartedIsEmpty(t, e.host, row);
    forall x | x in after.results ensures exists r :: r in after.runs && r.id == x.runId {
      var r :| r in t.runs && r.id == x.runId;
      assert r in after.runs;
    }
  }

  lemma NewIdIsLast(runs: seq<CheckRun>, row: CheckRun)
    requires RunsOrdered(runs) && row.id == NextRunId(runs)
    ensures RunsOrdered(runs + [row])
  {
  }

  lemma StartedIsEmpty(t: Tables, host: int, row: CheckRun)
    requires Sound(t) && row.id == NextRunId(t.runs)
    ensures RowsOfSuccesses(t.runs + [row], t.results)
  {
    hide Where;
    assert Storable(t, host, None);
    FreshHasNoResults(t, host, None);
  }

  lemma WithdrawnStep(t: Tables, e: Event, host: int, live: seq<Report>)
    requires Sound(t) && Mirrors(t, host, live) && Ok(t, e) && e.Withdrawn?
    ensures Sound(AfterEvent(t, e)) && Mirrors(AfterEvent(t, e), host, live)
  {
    hide Where;
    var after := AfterEvent(t, e);
    SelectedOrdered(t.runs, NotRun(e.run));
    WhereMembers(t.runs, NotRun(e.run));
    var both := (r: CheckRun) => r.hostId == host && r.status.Success? && r.id != e.run;
    WhereWhere(t.runs, NotRun(e.run), SuccessOf(host), both);
    WhereSame(t.runs, both, SuccessOf(host));
    forall x | x in after.results ensures exists r :: r in after.runs && r.id == x.runId {
      var r :| r in t.runs && r.id == x.runId;
      WhereMembers(t.results, ResultOfRun(r.id));
      assert r.status.Success?;
      assert r in after.runs;
    }
  }

  lemma EventStep(t: Tables, e: Event, host: int, live: seq<Report>)
    requires Sound(t) && Mirrors(t, host, live) && Ok(t, e)
    ensures Sound(AfterEvent(t, e)) && Mirrors(AfterEvent(t, e), host, live + StoredBy(t, e, host))
  {
    hide Sound, Mirrors, SavedTables, Where, FindRun, FindHost, CloseRuns, CloseHosts;
    assert live + [] == live;
    if Stores(t, e) {
      SaveStep(t, e, host, live);
    } else if e.Started? {
      StartedStep(t, e, host, live);
    } else if e.Broke? {
      BrokeStep(t, e, host, live);
    } else if e.Stopped? {
      StoppedStep(t, e, host, live);
    } else if e.Withdrawn? {
      WithdrawnStep(t, e, host, live);
    }
  }

  // ----- whole lives -----

  function AfterAll(start: Tables, events: seq<Event>): Tables {
    if events == [] then start
    else AfterEvent(AfterAll(start, events[..|events| - 1]), events[|events| - 1])
  }

  /** The reports one host has had stored, in the order of the saves. */
  function HistoryOf(start: Tables, events: seq<Event>, host: int): seq<Report> {
    if events == [] then []
    else
      var before, e := events[..|events| - 1], events[|events| - 1];
      HistoryOf(start, before, host) + StoredBy(AfterAll(start, before), e, host)
  }

  ghost predicate AllOk(start: Tables, events: seq<Event>) {
    forall i :: 0 <= i < |events| ==> Ok(AfterAll(start, events[..i]), events[i])
  }

  predicate Fresh(t: Tables) { t.runs == [] && t.results == [] && t.versions == [] }

  lemma FreshMirrors(t: Tables, host: int)
    requires Fresh(t) && HostsOrdered(t.hosts)
    ensures Sound(t) && Mirrors(t, host, [])
  {
  }

  /** From empty tables, any events keep the tables sound and every host mirrored. */
  lemma {:induction false} AllEventsMirror(start: Tables, events: seq<Event>, host: int)
    requires Fresh(start) && HostsOrdered(start.hosts) && AllOk(start, events)
    ensures Sound(AfterAll(start, events))
    ensures Mirrors(AfterAll(start, events), host, HistoryOf(start, events, host))
  {
    hide Sound, Mirrors, AfterEvent, Ok;
    if events == [] {
      FreshMirrors(start, host);
    } else {
      var n := |events| - 1;
      var before := events[..n];
      forall i | 0 <= i < n ensures Ok(AfterAll(start, before[..i]), before[i]) {
        assert before[..i] == events[..i];
      }
      AllEventsMirror(start, before, host);
      EventStep(AfterAll(start, before), events[n], host, HistoryOf(start, before, host));
    }
  }
}
