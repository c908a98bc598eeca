/**
 The single-flight protocol and the tables, step by step together. As long as no live worker's
 run is closed under it, reports of one host are saved in run order, so everything that is
 proved of histories in run order holds of pulled hosts as well as of agents. A worker that
 outlives the stale limit breaks this, and backfill then rebuilds another view.
 */
module Lockstep {
  import opened Queries
  import opened Records
  import opened Store
  import opened VersionLog
  import opened TimeTravel
  import opened Trimming
  import opened Backfill
  import opened Checker
  import opened Rebuild
  import opened Mirror
  import opened ResultChanges
  import opened Events
  import opened OnDemand
  import P = SingleFlight

  /** A protocol step with what the report would be, if the step stores one. */
  datatype Input = Input(step: P.Step, disabled: set<string>, raw: seq<ReportItem>)

  function EventOf(s: P.System, i: Input): Event
    requires P.Enabled(s, i.step)
  {
    match i.step
    case Insert(w, _) => Started(s.workers[w].host, s.clock)
    case Withdraw(w) => Withdrawn(s.workers[w].run)
    case Finish(w, status) =>
      var p := s.workers[w];
      if status.Success? then Finished(p.run, p.host, i.disabled, i.raw, s.clock) else Broke(p.run, p.host, s.clock)
    case ForceClose(closed) => Stopped(closed, s.clock)
    case AgentReport(host, _) => Event.AgentReport(host, i.disabled, i.raw, s.clock)
    case _ => Nothing
  }

  /** The database hands out the next id, known hosts stay, and nothing is cleaned up. */
  predicate InStep(s: P.System, t: Tables, i: Input)
    requires P.Enabled(s, i.step)
  {
    match i.step
    case Insert(_, run) => run == NextRunId(t.runs)
    case AgentReport(host, run) => run == NextRunId(t.runs) && FindHost(t.hosts, host).Some?
    case Finish(w, status) => status.Success? ==> FindHost(t.hosts, s.workers[w].host).Some?
    case Cleanup(_) => false
    case _ => true
  }

  /** The protocol's runs are the runs table. */
  ghost predicate Matches(s: P.System, t: Tables) {
    && (forall r :: r in t.runs ==> r.id in s.runs && s.runs[r.id].host == r.hostId && s.runs[r.id].status == r.status)
    && forall id :: id in s.runs ==> exists r :: r in t.runs && r.id == id
  }

  ghost predicate Protocol(s: P.System) { P.Inv(s) && P.SuccessesBelow(s) && P.PulledOnly(s) }

  lemma OwnRow(s: P.System, t: Tables, w: P.Worker)
    requires Protocol(s) && Matches(s, t) && RunsOrdered(t.runs)
    requires w in s.workers && P.Live(s.workers[w])
    ensures var r := FindRun(t.runs, s.workers[w].run);
      r.Some? && r.value.hostId == s.workers[w].host && r.value.status.Running?
  {
    FoundRun(t.runs, s.workers[w].run);
    assert P.RunningOn(s, s.workers[w].host, s.workers[w].run);
  }

  /** What the protocol does to the tables is what a check may do. */
  lemma StepIsOk(s: P.System, t: Tables, i: Input)
    requires Protocol(s) && Matches(s, t) && RunsOrdered(t.runs) && P.Enabled(s, i.step)
    ensures Ok(t, EventOf(s, i))
  {
    hide FindRun;
    match i.step
    case Finish(w, _) =>
      OwnRow(s, t, w);
    case Withdraw(w) =>
      OwnRow(s, t, w);
      assert P.RunningOn(s, s.workers[w].host, s.workers[w].run);
    case _ =>
  }

  // ----- the runs table follows -----

  lemma SavedMatches(t: Tables, host: int, disabled: set<string>, raw: seq<ReportItem>, run: Option<int>, now: int,
                     r: CheckRun)
    requires RunsOrdered(t.runs) && Storable(t, host, run) && FindHost(t.hosts, host).Some?
    ensures var after := SavedTables(t, host, disabled, raw, run, now).runs;
      && (r in after ==> (r in t.runs && r.id != SavedId(t.runs, run))
                         || (r.id == SavedId(t.runs, run) && r.hostId == host && r.status.Success?))
      && (r in t.runs && r.id != SavedId(t.runs, run) ==> r in after)
      && exists q :: q in after && q.id == SavedId(t.runs, run)
  {
    hide FindRun, FindHost, Where, CountsOf, Kept, Changes, AppendVersions, RecentRows;
    var items := Kept(raw, disabled);
    SavedOrder(t, host, run, CountsOf(items), |items|, now);
    SavedOrKept(t, host, run, CountsOf(items), |items|, now, r);
  }

  lemma SaveKeepsMatch(s: P.System, t: Tables, i: Input, run: Option<int>, host: int)
    requires Protocol(s) && Matches(s, t) && Sound(t) && P.Enabled(s, i.step) && InStep(s, t, i)
    requires Storable(t, host, run) && FindHost(t.hosts, host).Some?
    requires var after := P.Apply(s, i.step);
      && SavedId(t.runs, run) in after.runs && after.runs.Keys == s.runs.Keys + {SavedId(t.runs, run)}
      && after.runs[SavedId(t.runs, run)].host == host && after.runs[SavedId(t.runs, run)].status.Success?
      && forall id :: id in s.runs && id != SavedId(t.runs, run) ==> after.runs[id] == s.runs[id]
    ensures Matches(P.Apply(s, i.step), SavedTables(t, host, i.disabled, i.raw, run, s.clock))
  {
    hide SavedTables, FindRun, FindHost, Protocol, P.Apply, P.Enabled, WellFormed, RowsOfSuccesses, InStep;
    var after, saved := P.Apply(s, i.step), SavedTables(t, host, i.disabled, i.raw, run, s.clock);
    assert RunsOrdered(t.runs) by { Ordered(t); }
    forall r | r in saved.runs
      ensures r.id in after.runs && after.runs[r.id].host == r.hostId && after.runs[r.id].status == r.status
    {
      SavedMatches(t, host, i.disabled, i.raw, run, s.clock, r);
    }
    forall id | id in after.runs ensures exists r :: r in saved.runs && r.id == id {
      if id in s.runs {
        var r :| r in t.runs && r.id == id;
        SavedMatches(t, host, i.disabled, i.raw, run, s.clock, r);
      } else {
        SavedMatches(t, host, i.disabled, i.raw, run, s.clock, StartedRun(t.runs, host, 0));
      }
    }
  }

  lemma Ordered(t: Tables)
    requires Sound(t)
    ensures RunsOrdered(t.runs)
  {
  }

  lemma FinishMatches(s: P.System, t: Tables, i: Input)
    requires Protocol(s) && Matches(s, t) && Sound(t) && P.Enabled(s, i.step) && InStep(s, t, i) && i.step.Finish?
    ensures Matches(P.Apply(s, i.step), AfterEvent(t, EventOf(s, i)))
  {
    hide SavedTables, FindRun, FindHost, WellFormed, RowsOfSuccesses, Protocol;
    var p := s.workers[i.step.w];
    Ordered(t);
    OwnRow(s, t, i.step.w);
    if i.step.status.Success? {
      StorableBy(t, p.host, p.run);
      assert p.run in s.runs && s.runs[p.run].host == p.host by { Owns(s, i.step.w); }
      SaveKeepsMatch(s, t, i, Some(p.run), p.host);
    } else {
      assert p.run in s.runs && s.runs[p.run].host == p.host by { Owns(s, i.step.w); }
      assert i.step.status.Failed?;
      PutMatches(s, t, i);
    }
  }

  lemma Owns(s: P.System, w: P.Worker)
    requires Protocol(s) && w in s.workers && P.Live(s.workers[w])
    ensures P.RunningOn(s, s.workers[w].host, s.workers[w].run)
  {
  }

  lemma PutMatches(s: P.System, t: Tables, i: Input)
    requires Matches(s, t) && RunsOrdered(t.runs) && P.Enabled(s, i.step) && i.step.Finish? && i.step.status.Failed?
    requires var p := s.workers[i.step.w];
      && p.run in s.runs && s.runs[p.run].host == p.host
      && FindRun(t.runs, p.run).Some? && FindRun(t.runs, p.run).value.hostId == p.host
    ensures Matches(P.Apply(s, i.step), AfterEvent(t, EventOf(s, i)))
  {
    hide FindRun, FindHost;
    var p := s.workers[i.step.w];
    var after, end := P.Apply(s, i.step), AfterEvent(t, EventOf(s, i));
    forall r | r in end.runs
      ensures r.id in after.runs && after.runs[r.id].host == r.hostId && after.runs[r.id].status == r.status
    {
      var k :| 0 <= k < |end.runs| && end.runs[k] == r;
      assert t.runs[k] in t.runs;
    }
    forall id | id in after.runs ensures exists r :: r in end.runs && r.id == id {
      var r :| r in t.runs && r.id == id;
      var k :| 0 <= k < |t.runs| && t.runs[k] == r;
      assert end.runs[k] in end.runs && end.runs[k].id == id;
    }
  }

  lemma InsertMatches(s: P.System, t: Tables, i: Input)
    requires Matches(s, t) && P.Enabled(s, i.step) && InStep(s, t, i) && i.step.Insert?
    ensures Matches(P.Apply(s, i.step), AfterEvent(t, EventOf(s, i)))
  {
    var after, end := P.Apply(s, i.step), AfterEvent(t, EventOf(s, i));
    var row := StartedRun(t.runs, s.workers[i.step.w].host, s.clock);
    assert end.runs == t.runs + [row];
    forall id | id in after.runs ensures exists r :: r in end.runs && r.id == id {
      if id in s.runs {
        var r :| r in t.runs && r.id == id;
        assert r in end.runs;
      } else {
        assert row in end.runs;
      }
    }
  }

  lemma ForceCloseMatches(s: P.System, t: Tables, i: Input)
    requires Matches(s, t) && P.Enabled(s, i.step) && i.step.ForceClose?
    ensures Matches(P.Apply(s, i.step), AfterEvent(t, EventOf(s, i)))
  {
    hide Where, CloseHosts, HostsOf;
    var after, end := P.Apply(s, i.step), AfterEvent(t, EventOf(s, i));
    var closed := i.step.closed;
    assert after.runs.Keys == s.runs.Keys;
    assert end.runs == CloseRuns(t.runs, closed, s.clock);
    hide P.Apply, P.Enabled, AfterEvent, EventOf;
    forall r | r in end.runs
      ensures r.id in after.runs && after.runs[r.id].host == r.hostId && after.runs[r.id].status == r.status
    {
      var k :| 0 <= k < |end.runs| && end.runs[k] == r;
      assert t.runs[k] in t.runs && t.runs[k].id == r.id;
    }
    forall id | id in after.runs ensures exists r :: r in end.runs && r.id == id {
      var r :| r in t.runs && r.id == id;
      var k :| 0 <= k < |t.runs| && t.runs[k] == r;
      assert end.runs[k] in end.runs && end.runs[k].id == id;
    }
  }

  lemma WithdrawMatches(s: P.System, t: Tables, i: Input)
    requires Matches(s, t) && P.Enabled(s, i.step) && i.step.Withdraw?
    ensures Matches(P.Apply(s, i.step), AfterEvent(t, EventOf(s, i)))
  {
    hide Where;
    WhereMembers(t.runs, NotRun(s.workers[i.step.w].run));
  }

  lemma MatchesStep(s: P.System, t: Tables, i: Input)
    requires Protocol(s) && Matches(s, t) && Sound(t) && P.Enabled(s, i.step) && InStep(s, t, i)
    ensures Matches(P.Apply(s, i.step), AfterEvent(t, EventOf(s, i)))
  {
    match i.step
    case Insert(_, _) => InsertMatches(s, t, i);
    case Withdraw(_) => WithdrawMatches(s, t, i);
    case Finish(_, _) => FinishMatches(s, t, i);
    case ForceClose(_) => ForceCloseMatches(s, t, i);
    case AgentReport(host, _) => AgentMatches(s, t, i);
    case _ =>
  }

  lemma AgentMatches(s: P.System, t: Tables, i: Input)
    requires Protocol(s) && Matches(s, t) && Sound(t) && P.Enabled(s, i.step) && InStep(s, t, i) && i.step.AgentReport?
    ensures Matches(P.Apply(s, i.step), AfterEvent(t, EventOf(s, i)))
  {
    hide SavedTables, FindRun, FindHost, WellFormed, RowsOfSuccesses, Protocol;
    SaveKeepsMatch(s, t, i, None, i.step.host);
  }

  // ----- run order -----

  /** A report about to be stored has a larger run id than all the host's stored ones. */
  lemma NextIsLarger(s: P.System, t: Tables, i: Input, host: int, live: seq<Report>)
    requires Protocol(s) && Matches(s, t) && Sound(t) && P.Enabled(s, i.step) && InStep(s, t, i)
    requires Mirrors(t, host, live) && InRunOrder(live)
    requires Stores(t, EventOf(s, i)) && EventOf(s, i).host == host
    ensures InRunOrder(live + StoredBy(t, EventOf(s, i), host))
  {
    hide Where, SavedLog, FindRun, FindHost, Protocol, Matches, Sound, InStep, P.Enabled, InRunOrder, ByRun, LiveReport;
    var report := StoredBy(t, EventOf(s, i), host)[0];
    var mine := Where(t.runs, SuccessOf(host));
    WhereMembers(t.runs, SuccessOf(host));
    Distinctly(live);
    ByRunIs(live);
    forall k | 0 <= k < |live| ensures live[k].stamp.runId < report.stamp.runId {
      assert MirrorsRun(t.results, mine[k], live[k]);
      assert mine[k] in mine;
      SmallerThanNext(s, t, i, host, mine[k]);
    }
    OneLater(live, report);
  }

  lemma Distinctly(live: seq<Report>)
    requires InRunOrder(live)
    ensures DistinctRuns(live)
  {
  }

  lemma OneLater(live: seq<Report>, r: Report)
    requires InRunOrder(live) && forall k :: 0 <= k < |live| ==> live[k].stamp.runId < r.stamp.runId
    ensures InRunOrder(live + [r])
  {
  }

  lemma SmallerThanNext(s: P.System, t: Tables, i: Input, host: int, r: CheckRun)
    requires Protocol(s) && Matches(s, t) && Sound(t) && P.Enabled(s, i.step) && InStep(s, t, i)
    requires Stores(t, EventOf(s, i)) && EventOf(s, i).host == host
    requires r in t.runs && r.hostId == host && r.status.Success?
    ensures r.id < StoredBy(t, EventOf(s, i), host)[0].stamp.runId
  {
    hide FindRun, FindHost, NoOrphans, RowsOfSuccesses;
    if i.step.AgentReport? {
      var k :| 0 <= k < |t.runs| && t.runs[k] == r;
    } else {
      assert P.Live(s.workers[i.step.w]);
      assert r.id in s.runs;
    }
  }

  // ----- whole runs -----

  /** Protocol and tables from the start, in which no live worker's run is closed under it. */
  ghost predicate IsDay(states: seq<P.System>, tables: seq<Tables>, inputs: seq<Input>) {
    && |states| == |tables| == |inputs| + 1
    && states[0].runs == map[] && (forall w :: w in states[0].workers ==> states[0].workers[w].Idle?)
    && Fresh(tables[0]) && HostsOrdered(tables[0].hosts)
    && forall i :: 0 <= i < |inputs| ==>
         && P.Enabled(states[i], inputs[i].step) && P.Gentle(states[i], inputs[i].step)
         && InStep(states[i], tables[i], inputs[i])
         && states[i + 1] == P.Apply(states[i], inputs[i].step)
         && tables[i + 1] == AfterEvent(tables[i], EventOf(states[i], inputs[i]))
  }

  /** One host's reports in the order in which they were saved. */
  ghost function Saves(states: seq<P.System>, tables: seq<Tables>, inputs: seq<Input>, i: nat, host: int): seq<Report>
    requires IsDay(states, tables, inputs) && i < |states|
  {
    if i == 0 then []
    else Saves(states, tables, inputs, i - 1, host)
         + StoredBy(tables[i - 1], EventOf(states[i - 1], inputs[i - 1]), host)
  }

  lemma DayStep(s: P.System, t: Tables, i: Input, host: int, live: seq<Report>)
    requires Protocol(s) && Matches(s, t) && Sound(t) && Mirrors(t, host, live) && InRunOrder(live)
    requires P.Enabled(s, i.step) && P.Gentle(s, i.step) && InStep(s, t, i)
    ensures Protocol(P.Apply(s, i.step)) && Matches(P.Apply(s, i.step), AfterEvent(t, EventOf(s, i)))
    ensures Sound(AfterEvent(t, EventOf(s, i)))
    ensures var more := live + StoredBy(t, EventOf(s, i), host);
      Mirrors(AfterEvent(t, EventOf(s, i)), host, more) && InRunOrder(more)
  {
    hide Sound, Mirrors, Matches, AfterEvent, Ok, Stores, P.Apply, P.Enabled, P.Gentle, P.Inv, P.SuccessesBelow;
    hide P.PulledOnly;
    hide InStep, Protocol, InRunOrder;
    assert P.Inv(s) && P.SuccessesBelow(s) && P.PulledOnly(s) by { Protocols(s); }
    P.InvStep(s, i.step);
    P.SuccessesBelowStep(s, i.step);
    Together(P.Apply(s, i.step));
    Ordered(t);
    StepIsOk(s, t, i);
    MatchesStep(s, t, i);
    EventStep(t, EventOf(s, i), host, live);
    assert live + [] == live;
    if StoredBy(t, EventOf(s, i), host) != [] { NextIsLarger(s, t, i, host, live); }
  }

  lemma Protocols(s: P.System)
    requires Protocol(s)
    ensures P.Inv(s) && P.SuccessesBelow(s) && P.PulledOnly(s)
  {
  }

  lemma Together(s: P.System)
    requires P.Inv(s) && P.SuccessesBelow(s) && P.PulledOnly(s)
    ensures Protocol(s)
  {
  }

  /**
   Saves happen in run order. Under every gentle interleaving of checks, agent reports,
   failures, withdrawals and closings, each host, pulled or not, is mirrored, and its reports
   were saved in run order.
   */
  lemma {:induction false} SavedInRunOrder(states: seq<P.System>, tables: seq<Tables>, inputs: seq<Input>, i: nat,
                                           host: int)
    requires IsDay(states, tables, inputs) && i < |states|
    ensures Protocol(states[i]) && Matches(states[i], tables[i]) && Sound(tables[i])
    ensures Mirrors(tables[i], host, Saves(states, tables, inputs, i, host))
    ensures InRunOrder(Saves(states, tables, inputs, i, host))
  {
    if i == 0 {
      FreshMirrors(tables[0], host);
      FreshProtocol(states[0]);
    } else {
      hide Protocol, Matches, Sound, Mirrors, InRunOrder, AfterEvent, P.Apply, P.Enabled, P.Gentle, Fresh;
      SavedInRunOrder(states, tables, inputs, i - 1, host);
      DayStep(states[i - 1], tables[i - 1], inputs[i - 1], host, Saves(states, tables, inputs, i - 1, host));
    }
  }

  lemma FreshProtocol(s: P.System)
    requires s.runs == map[] && forall w :: w in s.workers ==> s.workers[w].Idle?
    ensures Protocol(s)
  {
  }

  /** So backfill equals live recording at any moment of such a day, for pulled hosts too. */
  lemma BackfillEqualsLiveAllDay(states: seq<P.System>, tables: seq<Tables>, inputs: seq<Input>, i: nat, host: int)
    requires IsDay(states, tables, inputs) && i < |states|
    requires forall r :: r in Saves(states, tables, inputs, i, host) ==> r.disabled == {}
    requires |LogOf(Saves(states, tables, inputs, i, host))| <= 20000
    ensures Timeless(LogOf(BackReports(tables[i].runs, tables[i].results, host)))
         == Timeless(Where(tables[i].versions, VersionOfHost(host)))
  {
    hide Protocol, Matches, Sound, Mirrors, InRunOrder;
    SavedInRunOrder(states, tables, inputs, i, host);
    BackfillEqualsLive(tables[i], host, Saves(states, tables, inputs, i, host));
  }

  /** And the change rows of every report saved on such a day are what the page of its run shows. */
  lemma PagesAgreeAllDay(states: seq<P.System>, tables: seq<Tables>, inputs: seq<Input>, i: nat,
                         changed: seq<(CheckResult, CheckResult)>, added: seq<CheckResult>, removed: seq<CheckResult>)
    requires IsDay(states, tables, inputs) && i < |inputs|
    requires Stores(tables[i], EventOf(states[i], inputs[i])) && Distinct(Kept(inputs[i].raw, inputs[i].disabled))
    ensures var e := EventOf(states[i], inputs[i]);
      PageAgrees(tables[i], e.host, e.disabled, e.raw, if e.Finished? then Some(e.run) else None, e.now, changed, added,
                 removed)
  {
    hide P.Apply, P.Gentle, AfterEvent, Fresh, Mirrors, InRunOrder, Kept, FindRun, FindHost;
    var s, t, e := states[i], tables[i], EventOf(states[i], inputs[i]);
    SavedInRunOrder(states, tables, inputs, i, e.host);
    hide Protocol, Matches, PageAgrees;
    Ordered(t);
    StepIsOk(s, t, inputs[i]);
    if e.Finished? { StorableBy(t, e.host, e.run); }
    forall r | r in t.runs && r.hostId == e.host && r.status.Success?
      ensures r.id < SavedId(t.runs, if e.Finished? then Some(e.run) else None)
    {
      SmallerThanNext(s, t, inputs[i], e.host, r);
    }
    WrittenChangesAreTheDiff(t, e.host, e.disabled, e.raw, if e.Finished? then Some(e.run) else None, e.now, changed,
                             added, removed);
  }
}
