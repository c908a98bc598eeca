/**
 The background scheduler of app/scheduler.py: which hosts are due on a tick, the offline
 check, the cleanup counter, and what follows for the spacing of a host's scheduled starts.
 Times are in seconds.
 */
module Scheduler {
  import opened Queries
  import opened Records
  import opened Store
  import opened Checker
  import opened Alerts
  import opened Deletion

  const TICK: nat := 60
  const CLEANUP_EVERY: nat := 3600

  // ----- due hosts -----

  /** `func.max(CheckRun.started_at)` of one host. */
  function LastStart(runs: seq<CheckRun>, host: int): (r: Option<int>)
    ensures r.None? <==> forall x :: x in runs ==> x.hostId != host
    ensures r.Some? ==> forall x :: x in runs && x.hostId == host ==> x.startedAt <= r.value
    ensures r.Some? ==> exists x :: x in runs && x.hostId == host && x.startedAt == r.value
  {
    if runs == [] then None
    else
      var n := |runs| - 1;
      var before := LastStart(runs[..n], host);
      assert runs == runs[..n] + [runs[n]];
      if runs[n].hostId != host then before
      else if before.Some? && before.value >= runs[n].startedAt then before
      else Some(runs[n].startedAt)
  }

  function RunningHosts(runs: seq<CheckRun>): set<int> {
    set r | r in runs && r.status.Running? :: r.hostId
  }

  predicate IsDue(h: Host, runs: seq<CheckRun>, now: int) {
    && !h.mode.AgentMode? && h.enabled
    && h.intervalMinutes > 0 && h.id !in RunningHosts(runs)
    && var last := LastStart(runs, h.id);
       last.None? || now - last.value >= h.intervalMinutes * 60
  }

  function DueAt(runs: seq<CheckRun>, now: int): Host -> bool { (h: Host) => IsDue(h, runs, now) }
  function HostId(): Host -> int { (h: Host) => h.id }

  /** `_due_ssh_hosts`: arbitration first, then one pass over the hosts. */
  method DueSshHosts(db: Database, now: int) returns (due: seq<int>)
    modifies db`runs, db`hosts
    ensures db.runs == ClosedRuns(old(db.runs), StaleRun(now - STALE_RUN_SECONDS), now)
    ensures db.hosts == ClosedHosts(old(db.hosts), old(db.runs), StaleRun(now - STALE_RUN_SECONDS))
    ensures due == Collect(Where(db.hosts, DueAt(db.runs, now)), HostId())
  {
    var n := ExpireStaleRuns(db, STALE_RUN_SECONDS, now);
    var running := RunningHosts(db.runs);
    due := [];
    for i := 0 to |db.hosts|
      invariant due == Collect(Where(db.hosts[..i], DueAt(db.runs, now)), HostId())
    {
      var h := db.hosts[i];
      assert db.hosts[..i + 1][..i] == db.hosts[..i];
      if h.mode.AgentMode? || !h.enabled || h.intervalMinutes <= 0 || h.id in running {
        continue;
      }
      var last := LastStart(db.runs, h.id);
      if last.None? || now - last.value >= h.intervalMinutes * 60 {
        due := due + [h.id];
      }
    }
    assert db.hosts[..|db.hosts|] == db.hosts;
  }

  /**
   A host is due on a tick exactly when it is an enabled pulled host with a positive interval,
   its running runs (if any) have all passed the stale limit, and its last start is at least
   an interval ago; what arbitration closes on the way does not matter.
   */
  lemma DueExactly(h: Host, runs: seq<CheckRun>, now: int)
    requires RunsOrdered(runs)
    ensures var after := ClosedRuns(runs, StaleRun(now - STALE_RUN_SECONDS), now);
      IsDue(h, after, now) <==>
        && !h.mode.AgentMode? && h.enabled && h.intervalMinutes > 0
        && forall r :: r in runs && r.hostId == h.id ==>
             (r.status.Running? ==> now - r.startedAt > STALE_RUN_SECONDS)
             && now - r.startedAt >= h.intervalMinutes * 60
  {
    var p := StaleRun(now - STALE_RUN_SECONDS);
    var after := ClosedRuns(runs, p, now);
    ClosedExactly(runs, [], p, now);
    SameStarts(runs, after, h.id);
    forall r | r in runs && r.hostId == h.id && r.status.Running? && !p(r)
      ensures h.id in RunningHosts(after)
    {
      var i :| 0 <= i < |runs| && runs[i] == r;
      assert after[i] == r && after[i] in after;
    }
    if h.id in RunningHosts(after) {
      var r :| r in after && r.status.Running? && r.hostId == h.id;
      var i :| 0 <= i < |after| && after[i] == r;
      assert runs[i] == r && !p(runs[i]) && runs[i] in runs;
    }
  }

  lemma SameStarts(runs: seq<CheckRun>, after: seq<CheckRun>, host: int)
    requires |runs| == |after|
    requires forall i :: 0 <= i < |runs| ==> after[i].hostId == runs[i].hostId && after[i].startedAt == runs[i].startedAt
    ensures LastStart(after, host) == LastStart(runs, host)
  {
    if runs != [] { SameStarts(runs[..|runs| - 1], after[..|runs| - 1], host); }
  }

  /** A host is never stuck: once both the interval and the stale limit have passed, it is due. */
  lemma NeverStuck(h: Host, runs: seq<CheckRun>, now: int)
    requires RunsOrdered(runs)
    requires !h.mode.AgentMode? && h.enabled && h.intervalMinutes > 0
    requires forall r :: r in runs && r.hostId == h.id ==>
      now - r.startedAt > STALE_RUN_SECONDS && now - r.startedAt >= h.intervalMinutes * 60
    ensures IsDue(h, ClosedRuns(runs, StaleRun(now - STALE_RUN_SECONDS), now), now)
  {
    DueExactly(h, runs, now);
  }

  // ----- offline agents -----

  function OfflineAfter(cutoff: int): Host -> Host {
    (h: Host) => After(h, OfflineCheck(cutoff))
  }

  function AlertedBy(cutoff: int): Host -> bool {
    (h: Host) => NoticeOf(h, OfflineCheck(cutoff)) == OfflineAlert
  }

  lemma AlertedAre(hosts: seq<Host>, cutoff: int)
    ensures forall id :: id in Collect(Where(hosts, AlertedBy(cutoff)), HostId()) <==>
      exists h :: h in hosts && h.id == id && h.mode.AgentMode? && h.enabled && !h.offlineAlerted
        && h.lastCheckedAt.Some? && h.lastCheckedAt.value < cutoff
  {
    var sent := Where(hosts, AlertedBy(cutoff));
    WhereMembers(hosts, AlertedBy(cutoff));
    forall id | id in Collect(sent, HostId()) ensures exists h :: h in sent && h.id == id {
      var i :| 0 <= i < |sent| && sent[i].id == id;
      assert sent[i] in sent;
    }
    forall h | h in sent ensures h.id in Collect(sent, HostId()) {
      var i :| 0 <= i < |sent| && sent[i] == h;
      assert Collect(sent, HostId())[i] == h.id;
    }
  }

  /** `_agent_offline_check`: each stale agent is marked and alerted once. */
  method AgentOfflineCheck(db: Database, limit: int, now: int) returns (alerts: seq<int>)
    modifies db`hosts
    ensures limit <= 0 ==> alerts == [] && db.hosts == old(db.hosts)
    ensures limit > 0 ==>
      && db.hosts == Collect(old(db.hosts), OfflineAfter(now - limit))
      && alerts == Collect(Where(old(db.hosts), AlertedBy(now - limit)), HostId())
    ensures forall id :: id in alerts <==>
      limit > 0 && exists h ::
        && h in old(db.hosts) && h.id == id && h.mode.AgentMode? && h.enabled && !h.offlineAlerted
        && h.lastCheckedAt.Some? && h.lastCheckedAt.value < now - limit
    ensures |db.hosts| == |old(db.hosts)| && forall i :: 0 <= i < |db.hosts| ==>
      var h := old(db.hosts)[i];
      db.hosts[i] == if limit > 0 && h.mode.AgentMode? && h.enabled && h.lastCheckedAt.Some?
                        && h.lastCheckedAt.value < now - limit
                     then h.(offlineAlerted := true) else h
  {
    AlertedAre(db.hosts, now - limit);
    alerts := [];
    if limit <= 0 {
      return;
    }
    var cutoff := now - limit;
    var sent := AlertedBy(cutoff);
    var table := db.hosts;
    for i := 0 to |table|
      invariant |db.hosts| == |table|
      invariant forall k :: 0 <= k < |table| ==>
        db.hosts[k] == if k < i then After(table[k], OfflineCheck(cutoff)) else table[k]
      invariant alerts == Collect(Where(table[..i], sent), HostId())
    {
      assert table[..i + 1][..i] == table[..i];
      var h := table[i];
      if GoesOffline(h, cutoff) {
        db.hosts := db.hosts[i := h.(offlineAlerted := true)];
        alerts := alerts + [h.id];
      }
    }
    assert table[..|table|] == table;
  }

  // ----- one tick -----

  /** The runs a tick decides on: cleaned up first, when it is time, then arbitrated. */
  function TickRuns(runs: seq<CheckRun>, doCleanup: bool, retention: int, now: int): seq<CheckRun> {
    var kept := if doCleanup && retention > 0 then Where(runs, StartedSince(now - retention)) else runs;
    ClosedRuns(kept, StaleRun(now - STALE_RUN_SECONDS), now)
  }

  /**
   The runs after a tick: those not cleaned up, of which the running ones that started more than
   two hours ago are failed as of now.
   */
  ghost predicate TickedRuns(before: seq<CheckRun>, after: seq<CheckRun>, cutoff: Option<int>, now: int) {
    forall r :: r in after <==>
      exists q :: q in before && (cutoff.Some? ==> q.startedAt >= cutoff.value)
        && r == if q.status.Running? && q.startedAt < now - 7200 then q.(status := Failed, finishedAt := Some(now)) else q
  }

  lemma TickedRunsAre(runs: seq<CheckRun>, doCleanup: bool, retention: int, now: int)
    requires RunsOrdered(runs)
    ensures TickedRuns(runs, TickRuns(runs, doCleanup, retention, now),
                       if doCleanup && retention > 0 then Some(now - retention) else None, now)
  {
    hide Where, ClosedRuns;
    var kept := if doCleanup && retention > 0 then Where(runs, StartedSince(now - retention)) else runs;
    var after := TickRuns(runs, doCleanup, retention, now);
    WhereMembers(runs, StartedSince(now - retention));
    SelectedOrdered(runs, StartedSince(now - retention));
    ClosedExactly(kept, [], StaleRun(now - STALE_RUN_SECONDS), now);
    forall r | r in after
      ensures exists q ::
        && q in kept
        && r == if q.status.Running? && q.startedAt < now - 7200 then q.(status := Failed, finishedAt := Some(now)) else q
    {
      var i :| 0 <= i < |after| && after[i] == r;
      assert kept[i] in kept;
    }
    forall q | q in kept
      ensures (if q.status.Running? && q.startedAt < now - 7200
               then q.(status := Failed, finishedAt := Some(now)) else q) in after
    {
      var i :| 0 <= i < |kept| && kept[i] == q;
      assert after[i] in after;
    }
  }

  /** `_tick` up to the submission of the due hosts. */
  method Tick(db: Database, doCleanup: bool, retention: int, offlineLimit: int, now: int)
    returns (alerts: seq<int>, due: seq<int>)
    requires RunsOrdered(db.runs) && NoOrphans(db.runs, db.results)
    modifies db`runs, db`results, db`changes, db`hosts
    ensures db.runs == TickRuns(old(db.runs), doCleanup, retention, now)
    ensures due == Collect(Where(db.hosts, DueAt(db.runs, now)), HostId())
    ensures !doCleanup ==> db.results == old(db.results) && db.changes == old(db.changes)
    ensures doCleanup && retention <= 0 ==> db.results == old(db.results) && db.changes == old(db.changes)
    ensures doCleanup && retention > 0 ==>
      && db.results == Where(old(db.results), ResultNotIn(
           Collect(Where(old(db.runs), StartedBefore(now - retention)), RunId())))
      && db.changes == Where(old(db.changes), ChangeSince(now - retention))
    ensures alerts == if doCleanup && offlineLimit > 0
                      then Collect(Where(old(db.hosts), AlertedBy(now - offlineLimit)), HostId()) else []
    ensures forall id :: id in alerts <==>
      doCleanup && offlineLimit > 0 && exists h ::
        && h in old(db.hosts) && h.id == id && h.mode.AgentMode? && h.enabled && !h.offlineAlerted
        && h.lastCheckedAt.Some? && h.lastCheckedAt.value < now - offlineLimit
    ensures var marked := if doCleanup && offlineLimit > 0
                          then Collect(old(db.hosts), OfflineAfter(now - offlineLimit)) else old(db.hosts);
      var kept := if doCleanup && retention > 0 then Where(old(db.runs), StartedSince(now - retention)) else old(db.runs);
      && db.hosts == ClosedHosts(marked, kept, StaleRun(now - STALE_RUN_SECONDS))
      && StaleMarked(marked, db.hosts, kept, now - 7200)
    ensures TickedRuns(old(db.runs), db.runs, if doCleanup && retention > 0 then Some(now - retention) else None, now)
    ensures RunsOrdered(db.runs) && NoOrphans(db.runs, db.results)
  {
    hide Where, Collect, ClosedRuns, ClosedHosts, StaleMarked, TickedRuns;
    alerts := [];
    ghost var before := db.runs;
    if doCleanup {
      SelectedOrdered(db.runs, StartedSince(now - retention));
      Cleanup(db, retention, now);
      alerts := AgentOfflineCheck(db, offlineLimit, now);
    }
    ghost var kept := db.runs;
    StaleClosedIs(kept, db.hosts, now - STALE_RUN_SECONDS, now);
    due := DueSshHosts(db, now);
    StillOrdered(kept, db.results, now);
    TickedRunsAre(before, doCleanup, retention, now);
  }

  lemma StillOrdered(runs: seq<CheckRun>, results: seq<CheckResult>, now: int)
    requires RunsOrdered(runs) && NoOrphans(runs, results)
    ensures var after := ClosedRuns(runs, StaleRun(now - STALE_RUN_SECONDS), now);
      RunsOrdered(after) && NoOrphans(after, results)
  {
    var p := StaleRun(now - STALE_RUN_SECONDS);
    var after := ClosedRuns(runs, p, now);
    ClosedExactly(runs, [], p, now);
    hide ClosedRuns;
    forall x | x in results ensures exists r :: r in after && r.id == x.runId {
      var r :| r in runs && r.id == x.runId;
      var i :| 0 <= i < |runs| && runs[i] == r;
      assert after[i] in after && after[i].id == x.runId;
    }
  }

  // ----- the loop's cleanup counter -----

  class Loop {
    var sinceCleanup: nat

    constructor ()
      ensures sinceCleanup == 3600
    {
      sinceCleanup := CLEANUP_EVERY;
    }

    /** One pass of the loop while the scheduler is switched on. */
    method Pass() returns (doCleanup: bool)
      modifies this
      ensures doCleanup <==> old(sinceCleanup) + 60 >= 3600
      ensures sinceCleanup == if old(sinceCleanup) + 60 >= 3600 then 0 else old(sinceCleanup) + 60
      ensures sinceCleanup == CounterAfter(old(sinceCleanup))
    {
      sinceCleanup := sinceCleanup + TICK;
      doCleanup := sinceCleanup >= CLEANUP_EVERY;
      if doCleanup {
        sinceCleanup := 0;
      }
    }
  }

  function CounterAfter(counter: nat): nat {
    if counter + TICK >= CLEANUP_EVERY then 0 else counter + TICK
  }

  /** The counter before the n-th pass, from the initial value on. */
  function Counter(n: nat): nat {
    if n == 0 then CLEANUP_EVERY else CounterAfter(Counter(n - 1))
  }

  lemma {:induction false} CounterIs(n: nat, rounds: nat, pass: nat)
    requires n == 60 * rounds + pass && pass < 60
    ensures n > 0 ==> Counter(n) == if pass > 0 then (pass - 1) * TICK else 59 * TICK
  {
    if n > 0 {
      if pass > 0 { CounterIs(n - 1, rounds, pass - 1); } else { CounterIs(n - 1, rounds - 1, 59); }
    }
  }

  /** Cleanup and the offline check run on the first pass and then on every sixtieth. */
  lemma {:induction false} CleanupEverySixty(n: nat)
    ensures Counter(n) + TICK >= CLEANUP_EVERY <==> n % 60 == 0
    ensures n > 0 ==> Counter(n) == ((n + 59) % 60) * TICK
  {
    CounterIs(n, n / 60, n % 60);
    if n % 60 > 0 { assert n + 59 == 60 * (n / 60 + 1) + (n % 60 - 1); } else { assert n + 59 == 60 * (n / 60) + 59; }
  }

  // ----- spacing of scheduled starts -----

  datatype Row = Row(startedAt: int, running: bool, executed: bool)

  /** One pulled host as the scheduler sees it: its runs, and a submission decided on a tick. */
  datatype Line = Line(clock: int, rows: seq<Row>, pending: Option<int>, starts: seq<int>)

  datatype Move =
    | Wait(seconds: nat)
    | Submit                      // the tick finds the host due and submits it
    | Start                       // the submitted check executes: its run row is its start
    | Drop                        // the submitted check gives up at the gate or withdraws
    | OtherStart(executed: bool)  // a manual trigger inserts a run
    | OtherGone(k: nat)           // a manual trigger that did not execute withdraws its run
    | Ended(k: nat)               // a run finishes or is closed
    | Retention                   // cleanup

  predicate DueNow(s: Line, interval: int) {
    forall k :: 0 <= k < |s.rows| ==> !s.rows[k].running && s.clock - s.rows[k].startedAt >= interval
  }

  predicate CanMove(s: Line, m: Move, interval: int) {
    match m
    case Submit => s.pending.None? && DueNow(s, interval)
    case Start => s.pending.Some?
    case Drop => s.pending.Some?
    case OtherGone(k) => k < |s.rows| && !s.rows[k].executed
    case Ended(k) => k < |s.rows|
    case _ => true
  }

  /** What can happen to a host's line: a submission if and only if none is pending and no run is in its way. */
  lemma LineMoves(s: Line, interval: int)
    ensures CanMove(s, Submit, interval) <==>
      s.pending.None? && forall r :: r in s.rows ==> !r.running && s.clock - r.startedAt >= interval
    ensures s.pending.Some? <==> CanMove(s, Start, interval) && CanMove(s, Drop, interval)
    ensures forall seconds :: CanMove(s, Wait(seconds), interval)
    ensures forall executed :: CanMove(s, OtherStart(executed), interval)
    ensures CanMove(s, Retention, interval)
    ensures forall k :: 0 <= k < |s.rows| ==>
      CanMove(s, Ended(k), interval) && (!s.rows[k].executed ==> CanMove(s, OtherGone(k), interval))
  {
    if exists r :: r in s.rows && !(!r.running && s.clock - r.startedAt >= interval) {
      var r :| r in s.rows && !(!r.running && s.clock - r.startedAt >= interval);
      var k :| 0 <= k < |s.rows| && s.rows[k] == r;
    }
  }

  function Recent(clock: int, retention: int): Row -> bool {
    (r: Row) => r.startedAt >= clock - retention
  }

  function Moved(s: Line, m: Move, interval: int, retention: int): Line
    requires CanMove(s, m, interval)
  {
    match m
    case Wait(seconds) => s.(clock := s.clock + seconds)
    case Submit => s.(pending := Some(s.clock))
    case Start => s.(rows := s.rows + [Row(s.clock, true, true)], pending := None, starts := s.starts + [s.clock])
    case Drop => s.(pending := None)
    case OtherStart(executed) => s.(rows := s.rows + [Row(s.clock, true, executed)])
    case OtherGone(k) => s.(rows := s.rows[..k] + s.rows[k + 1..])
    case Ended(k) => s.(rows := s.rows[k := s.rows[k].(running := false)])
    case Retention => if retention <= 0 then s else s.(rows := Where(s.rows, Recent(s.clock, retention)))
  }

  /** The promised spacing: the interval, unless retention forgets the last start sooner. */
  function Gap(interval: int, retention: int): int {
    if retention <= 0 || interval <= retention then interval else retention
  }

  /** The last scheduled start is still on record, unless retention has forgotten it. */
  ghost predicate Remembered(s: Line, retention: int) {
    s.starts != [] ==>
      var last := s.starts[|s.starts| - 1];
      (exists r :: r in s.rows && r.executed && r.startedAt == last) || (retention > 0 && s.clock - last > retention)
  }

  ghost predicate Spaced(s: Line, interval: int, retention: int) {
    && Remembered(s, retention)
    && (s.pending.Some? ==> s.pending.value <= s.clock)
    && (s.pending.Some? && s.starts != [] ==>
          s.pending.value - s.starts[|s.starts| - 1] >= Gap(interval, retention))
    && forall i :: 0 < i < |s.starts| ==> s.starts[i] - s.starts[i - 1] >= Gap(interval, retention)
  }

  lemma RowStays(s: Line, m: Move, interval: int, retention: int, r: Row)
    requires CanMove(s, m, interval) && r in s.rows && r.executed
    requires m.Retention? && retention > 0 ==> r.startedAt >= s.clock - retention
    ensures exists q :: q in Moved(s, m, interval, retention).rows && q.executed && q.startedAt == r.startedAt
  {
    var after := Moved(s, m, interval, retention).rows;
    var j :| 0 <= j < |s.rows| && s.rows[j] == r;
    match m
    case OtherGone(k) =>
      assert j != k;
      assert after[if j < k then j else j - 1] == r;
      assert r in after;
    case Ended(k) =>
      assert after[j] in after;
    case Retention =>
      WhereMembers(s.rows, Recent(s.clock, retention));
      assert r in after;
    case _ =>
      assert r in after;
  }

  lemma SpacedStep(s: Line, m: Move, interval: int, retention: int)
    requires CanMove(s, m, interval) && Spaced(s, interval, retention)
    ensures Spaced(Moved(s, m, interval, retention), interval, retention)
  {
    var t := Moved(s, m, interval, retention);
    if s.starts != [] {
      var last := s.starts[|s.starts| - 1];
      if r :| r in s.rows && r.executed && r.startedAt == last {
        if m.Submit? {
          var j :| 0 <= j < |s.rows| && s.rows[j] == r;
        }
        if !(m.Retention? && retention > 0 && r.startedAt < s.clock - retention) {
          RowStays(s, m, interval, retention, r);
        }
      }
    }
    if m.Start? {
      assert Row(s.clock, true, true) in t.rows;
    }
  }

  ghost predicate IsLine(states: seq<Line>, moves: seq<Move>, interval: int, retention: int) {
    && |states| == |moves| + 1
    && states[0].starts == [] && states[0].pending.None?
    && forall i :: 0 <= i < |moves| ==>
         CanMove(states[i], moves[i], interval) && states[i + 1] == Moved(states[i], moves[i], interval, retention)
  }

  /**
   Never early. Whatever manual triggers, closings and cleanups interleave, consecutive
   scheduled starts of a host are at least the smaller of its interval and the retention
   period apart, and at least the interval when nothing is ever cleaned up.
   */
  lemma {:induction false} NeverEarly(states: seq<Line>, moves: seq<Move>, interval: int, retention: int, i: nat)
    requires IsLine(states, moves, interval, retention) && i < |states|
    ensures Spaced(states[i], interval, retention)
    ensures var starts := states[i].starts;
      forall k :: 0 < k < |starts| ==> starts[k] - starts[k - 1] >= Gap(interval, retention)
  {
    if i > 0 {
      NeverEarly(states, moves, interval, retention, i - 1);
      SpacedStep(states[i - 1], moves[i - 1], interval, retention);
    }
  }

  /** A host started, cleaned up one second after the retention period, and started again. */
  function EarlyStory(retention: nat, i: nat): Line {
    var first, second := Row(0, true, true), Row(retention + 1, true, true);
    var done := first.(running := false);
    if i == 0 then Line(0, [], None, [])
    else if i == 1 then Line(0, [], Some(0), [])
    else if i == 2 then Line(0, [first], None, [0])
    else if i == 3 then Line(0, [done], None, [0])
    else if i == 4 then Line(retention + 1, [done], None, [0])
    else if i == 5 then Line(retention + 1, [], None, [0])
    else if i == 6 then Line(retention + 1, [], Some(retention + 1), [0])
    else Line(retention + 1, [second], None, [0, retention + 1])
  }

  function EarlyMove(retention: nat, i: nat): Move {
    if i == 0 then Submit
    else if i == 1 then Start
    else if i == 2 then Ended(0)
    else if i == 3 then Wait(retention + 1)
    else if i == 4 then Retention
    else if i == 5 then Submit
    else Start
  }

  /**
   The bound is reached. For any retention period shorter than the interval there is a run
   whose two scheduled starts are exactly one second more than the retention period apart:
   cleanup forgets the first start, and the next tick finds the host due.
   */
  lemma RetentionForgetsStarts(interval: int, retention: nat)
    requires 0 < retention < interval
    ensures IsLine(seq(8, i requires 0 <= i < 8 => EarlyStory(retention, i)),
                   seq(7, i requires 0 <= i < 7 => EarlyMove(retention, i)), interval, retention)
    ensures EarlyStory(retention, 7).starts == [0, retention + 1]
  {
    forall i | 0 <= i < 7
      ensures CanMove(EarlyStory(retention, i), EarlyMove(retention, i), interval)
      ensures EarlyStory(retention, i + 1) == Moved(EarlyStory(retention, i), EarlyMove(retention, i), interval, retention)
    {
      if i == 4 { WhereNone(EarlyStory(retention, 4).rows, Recent(retention + 1, retention)); }
    }
  }

  // ----- the line is a projection of the tables -----

  function AsRow(executed: set<int>): CheckRun -> Row {
    (r: CheckRun) => Row(r.startedAt, r.status.Running?, r.id in executed)
  }

  /** The runs of one host as the line shows them; `executed` are the ids that were not withdrawn. */
  function RowsOfHost(runs: seq<CheckRun>, host: int, executed: set<int>): seq<Row> {
    Collect(Where(runs, RunOfHost(host)), AsRow(executed))
  }

  /** What `_due_ssh_hosts` decides after arbitration is what the line's submission needs. */
  lemma DueIsDueNow(h: Host, runs: seq<CheckRun>, now: int, executed: set<int>, pending: Option<int>, starts: seq<int>)
    requires !h.mode.AgentMode? && h.enabled && h.intervalMinutes > 0
    ensures IsDue(h, runs, now)
      <==> DueNow(Line(now, RowsOfHost(runs, h.id, executed), pending, starts), h.intervalMinutes * 60)
  {
    hide Where, LastStart;
    var rows := RowsOfHost(runs, h.id, executed);
    RowsAre(runs, h.id, executed);
    var line := Line(now, rows, pending, starts);
    if DueNow(line, h.intervalMinutes * 60) {
      forall r | r in runs && r.hostId == h.id
        ensures !r.status.Running? && now - r.startedAt >= h.intervalMinutes * 60
      {
        assert AsRow(executed)(r) in rows;
      }
    } else {
      var k :| 0 <= k < |rows| && (rows[k].running || now - rows[k].startedAt < h.intervalMinutes * 60);
      assert rows[k] in rows;
      var r :| r in runs && r.hostId == h.id && rows[k] == AsRow(executed)(r);
      if r.status.Running? { assert h.id in RunningHosts(runs); }
    }
  }

  lemma RowsAre(runs: seq<CheckRun>, host: int, executed: set<int>)
    ensures forall r :: r in runs && r.hostId == host ==> AsRow(executed)(r) in RowsOfHost(runs, host, executed)
    ensures forall x :: x in RowsOfHost(runs, host, executed) ==>
      exists r :: r in runs && r.hostId == host && x == AsRow(executed)(r)
  {
    hide Where;
    var own, rows := Where(runs, RunOfHost(host)), RowsOfHost(runs, host, executed);
    WhereMembers(runs, RunOfHost(host));
    forall r | r in runs && r.hostId == host ensures AsRow(executed)(r) in rows {
      var k :| 0 <= k < |own| && own[k] == r;
      assert rows[k] == AsRow(executed)(r);
    }
    forall x | x in rows ensures exists r :: r in runs && r.hostId == host && x == AsRow(executed)(r) {
      var k :| 0 <= k < |rows| && rows[k] == x;
      assert own[k] in own;
    }
  }

  /** Retention cleanup of the runs table is the line's retention move. */
  lemma {:induction false} CleanupIsRetention(runs: seq<CheckRun>, host: int, executed: set<int>, now: int, retention: int)
    ensures RowsOfHost(Where(runs, StartedSince(now - retention)), host, executed)
         == Where(RowsOfHost(runs, host, executed), Recent(now, retention))
  {
    if runs != [] {
      var n := |runs| - 1;
      var r := runs[n];
      CleanupIsRetention(runs[..n], host, executed, now, retention);
      assert runs == runs[..n] + [r];
      RowsNext(runs[..n], r, host, executed);
      RowsNext(Where(runs[..n], StartedSince(now - retention)), r, host, executed);
      var before := RowsOfHost(runs[..n], host, executed);
      WhereAppend(before, if r.hostId == host then [AsRow(executed)(r)] else [], Recent(now, retention));
      assert [AsRow(executed)(r)][..0] == [];
      if r.startedAt >= now - retention {
        assert Where(runs, StartedSince(now - retention)) == Where(runs[..n], StartedSince(now - retention)) + [r];
      } else {
        assert Where(runs, StartedSince(now - retention)) == Where(runs[..n], StartedSince(now - retention));
      }
    }
  }

  lemma RowsNext(runs: seq<CheckRun>, r: CheckRun, host: int, executed: set<int>)
    ensures RowsOfHost(runs + [r], host, executed)
         == RowsOfHost(runs, host, executed) + if r.hostId == host then [AsRow(executed)(r)] else []
  {
    assert (runs + [r])[..|runs|] == runs;
  }
}
