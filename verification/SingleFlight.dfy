/**
 The single-flight protocol of `run_ssh_check`. Manual and scheduled triggers race on the runs
 table in separate transactions: look for a running run, insert one, look again for a smaller
 running id, and then withdraw or execute. Restarts, retention cleanup, stale-run arbitration
 and start-up reset interleave with them freely.
 */
module SingleFlight {
  import opened Queries
  import opened Records

  type Worker = nat

  /** Where a trigger is in `run_ssh_check`. `blocker` is the worker whose run it saw. */
  datatype Phase =
    | Idle                                  // not yet triggered
    | Gated(host: int)                      // saw no running run, has not inserted yet
    | Refused(host: int, blocker: Worker)   // saw a running run and gave up
    | Inserted(host: int, run: int)         // its running run is committed
    | Doomed(host: int, run: int, blocker: Worker)     // saw a smaller running id, has not deleted yet
    | Withdrawn(host: int, run: int, blocker: Worker)  // deleted its own run
    | Executing(host: int, run: int)        // inspecting or saving
    | Executed(host: int, run: int)         // saved a report or recorded a failure
    | Dead(host: int, run: int)             // lost in a restart after inserting

  datatype RunRow = RunRow(host: int, status: RunStatus, startedAt: int, owner: Worker)

  /** `pulled` are the hosts that are not in agent mode; a host's mode is set when it is created. */
  datatype System = System(runs: map<int, RunRow>, workers: map<Worker, Phase>, clock: int, pulled: set<int>)

  predicate HasRun(p: Phase) {
    p.Inserted? || p.Doomed? || p.Withdrawn? || p.Executing? || p.Executed? || p.Dead?
  }

  /** The phases in which a worker's running row is its own claim on the host. */
  predicate Live(p: Phase) { p.Inserted? || p.Doomed? || p.Executing? }

  predicate Holding(p: Phase) { Live(p) || p.Dead? }

  predicate RunningOn(s: System, host: int, run: int) {
    run in s.runs && s.runs[run].host == host && s.runs[run].status.Running?
  }

  // ----- steps -----

  datatype Step =
    | Tick(seconds: nat)
    | GateFree(w: Worker, host: int)
    | GateBusy(w: Worker, host: int, seen: int)
    | Insert(w: Worker, run: int)
    | RecheckFree(w: Worker)
    | RecheckBusy(w: Worker, seen: int)
    | Withdraw(w: Worker)
    | Finish(w: Worker, status: RunStatus)
    | ForceClose(closed: set<int>)          // expire_stale_runs or reset_orphan_runs
    | AgentReport(host: int, run: int)      // save_report for an agent host: a new run, at once a success
    | Cleanup(deleted: set<int>)            // retention cleanup or host deletion
    | Restart                               // every worker of the process is lost

  /** A new id is positive and larger than every id present. */
  predicate FreshId(s: System, run: int) { 1 <= run && forall r :: r in s.runs ==> r < run }

  predicate Enabled(s: System, step: Step) {
    match step
    case Tick(_) => true
    case GateFree(w, host) =>
      w in s.workers && s.workers[w].Idle? && host in s.pulled && forall r :: r in s.runs ==> !RunningOn(s, host, r)
    case GateBusy(w, host, seen) =>
      w in s.workers && s.workers[w].Idle? && host in s.pulled && RunningOn(s, host, seen)
    case Insert(w, run) => w in s.workers && s.workers[w].Gated? && FreshId(s, run)
    case RecheckFree(w) =>
      && w in s.workers && s.workers[w].Inserted?
      && forall r :: r in s.runs && r < s.workers[w].run ==> !RunningOn(s, s.workers[w].host, r)
    case RecheckBusy(w, seen) =>
      && w in s.workers && s.workers[w].Inserted?
      && seen < s.workers[w].run && RunningOn(s, s.workers[w].host, seen)
    case Withdraw(w) => w in s.workers && s.workers[w].Doomed?
    case Finish(w, status) => w in s.workers && s.workers[w].Executing? && !status.Running?
    case ForceClose(closed) => forall r :: r in closed ==> r in s.runs && s.runs[r].status.Running?
    case AgentReport(host, run) => host !in s.pulled && FreshId(s, run)
    case Cleanup(deleted) => deleted <= s.runs.Keys
    case Restart => true
  }

  function Lose(p: Phase): Phase {
    match p
    case Inserted(h, r) => Dead(h, r)
    case Doomed(h, r, _) => Dead(h, r)
    case Executing(h, r) => Dead(h, r)
    case Gated(_) => Idle
    case _ => p
  }

  function Apply(s: System, step: Step): System
    requires Enabled(s, step)
  {
    match step
    case Tick(seconds) => s.(clock := s.clock + seconds)
    case GateFree(w, host) => s.(workers := s.workers[w := Gated(host)])
    case GateBusy(w, host, seen) => s.(workers := s.workers[w := Refused(host, s.runs[seen].owner)])
    case Insert(w, run) =>
      var host := s.workers[w].host;
      s.(runs := s.runs[run := RunRow(host, Running, s.clock, w)], workers := s.workers[w := Inserted(host, run)])
    case RecheckFree(w) => s.(workers := s.workers[w := Executing(s.workers[w].host, s.workers[w].run)])
    case RecheckBusy(w, seen) =>
      s.(workers := s.workers[w := Doomed(s.workers[w].host, s.workers[w].run, s.runs[seen].owner)])
    case Withdraw(w) =>
      var p := s.workers[w];
      s.(runs := s.runs - {p.run}, workers := s.workers[w := Withdrawn(p.host, p.run, p.blocker)])
    case Finish(w, status) =>
      var p := s.workers[w];
      // both outcomes overwrite whatever status the row has by now; a deleted row stays deleted
      s.(runs := if p.run in s.runs then s.runs[p.run := s.runs[p.run].(status := status)] else s.runs,
         workers := s.workers[w := Executed(p.host, p.run)])
    case ForceClose(closed) =>
      s.(runs := map r | r in s.runs :: if r in closed then s.runs[r].(status := Failed) else s.runs[r])
    case AgentReport(host, run) => s.(runs := s.runs[run := RunRow(host, Success, s.clock, 0)])
    case Cleanup(deleted) => s.(runs := s.runs - deleted)
    case Restart => s.(workers := map w | w in s.workers :: Lose(s.workers[w]))
  }

  /** No live worker's run is closed or deleted under it. */
  predicate Gentle(s: System, step: Step) {
    match step
    case ForceClose(closed) => forall w :: w in s.workers && Live(s.workers[w]) ==> s.workers[w].run !in closed
    case Cleanup(deleted) => forall w :: w in s.workers && Live(s.workers[w]) ==> s.workers[w].run !in deleted
    case _ => true
  }

  // ----- the steps leave nobody stuck -----

  lemma {:induction false} LargerId(ids: set<int>) returns (id: int)
    ensures id >= 1 && forall r :: r in ids ==> r < id
  {
    if x :| x in ids {
      id := LargerId(ids - {x});
      forall r | r in ids ensures r < (if id <= x then x + 1 else id) {
        assert r == x || r in ids - {x};
      }
      id := if id <= x then x + 1 else id;
    } else {
      id := 1;
    }
  }

  /**
   What a trigger can do next. The gate lets it in if and only if no run of its host is running,
   and else refuses it for one that is; inside it can insert; the second look lets it execute if
   and only if no smaller run is running, and else dooms it for one that is; and it can then
   withdraw, or finish either way.
   */
  lemma NobodyStuck(s: System, w: Worker)
    requires w in s.workers
    ensures var p := s.workers[w];
      && (p.Idle? ==> forall host :: host in s.pulled ==>
            && (Enabled(s, GateFree(w, host)) <==>
                  forall r :: r in s.runs && s.runs[r].host == host ==> !s.runs[r].status.Running?)
            && ((exists seen :: Enabled(s, GateBusy(w, host, seen))) <==>
                  exists r :: r in s.runs && s.runs[r].host == host && s.runs[r].status.Running?))
      && (p.Gated? ==> exists run :: Enabled(s, Insert(w, run)))
      && (p.Inserted? ==>
            && (Enabled(s, RecheckFree(w)) <==>
                  forall r :: r in s.runs && r < p.run && s.runs[r].host == p.host ==> !s.runs[r].status.Running?)
            && ((exists seen :: Enabled(s, RecheckBusy(w, seen))) <==>
                  exists r :: r in s.runs && r < p.run && s.runs[r].host == p.host && s.runs[r].status.Running?))
      && (p.Doomed? ==> Enabled(s, Withdraw(w)))
      && (p.Executing? ==> Enabled(s, Finish(w, Success)) && Enabled(s, Finish(w, Failed)))
  {
    var p := s.workers[w];
    if p.Idle? {
      forall host, r | host in s.pulled && r in s.runs && s.runs[r].host == host && s.runs[r].status.Running?
        ensures Enabled(s, GateBusy(w, host, r)) && !Enabled(s, GateFree(w, host))
      {
        assert RunningOn(s, host, r);
      }
    }
    if p.Gated? {
      var run := LargerId(s.runs.Keys);
      assert Enabled(s, Insert(w, run));
    }
    if p.Inserted? {
      forall r | r in s.runs && r < p.run && s.runs[r].host == p.host && s.runs[r].status.Running?
        ensures Enabled(s, RecheckBusy(w, r)) && !Enabled(s, RecheckFree(w))
      {
        assert RunningOn(s, p.host, r);
      }
    }
  }

  /** What happens around the triggers can happen at any time, to any run it may concern. */
  lemma SurroundingsFree(s: System)
    ensures forall seconds :: Enabled(s, Tick(seconds))
    ensures Enabled(s, Restart)
    ensures forall deleted :: Enabled(s, Cleanup(deleted)) <==> deleted <= s.runs.Keys
    ensures forall closed :: Enabled(s, ForceClose(closed)) <==>
      forall r :: r in closed ==> r in s.runs && s.runs[r].status.Running?
    ensures forall host :: host !in s.pulled ==> exists run :: Enabled(s, AgentReport(host, run))
  {
    var run := LargerId(s.runs.Keys);
    forall host | host !in s.pulled ensures exists r :: Enabled(s, AgentReport(host, r)) {
      assert Enabled(s, AgentReport(host, run));
    }
  }

  // ----- what every step keeps -----

  /** A live worker's run is there, running, and its own. */
  ghost predicate OwnsRuns(s: System) {
    forall w :: w in s.workers && Live(s.workers[w]) ==>
      && RunningOn(s, s.workers[w].host, s.workers[w].run)
      && s.runs[s.workers[w].run].owner == w
  }

  /** Every running row was inserted by a worker that still holds it. */
  ghost predicate RunsOwned(s: System) {
    forall r :: r in s.runs && s.runs[r].status.Running? ==>
      && s.runs[r].owner in s.workers
      && Holding(s.workers[s.runs[r].owner])
      && s.workers[s.runs[r].owner].run == r
      && s.workers[s.runs[r].owner].host == s.runs[r].host
  }

  /** Once a worker executes, every other live run of its host has a larger id. */
  ghost predicate ExecutorIsFirst(s: System) {
    forall w, v :: w in s.workers && v in s.workers && v != w ==>
      s.workers[w].Executing? && Live(s.workers[v]) && s.workers[v].host == s.workers[w].host ==>
      s.workers[w].run < s.workers[v].run
  }

  ghost predicate Inv(s: System) { OwnsRuns(s) && RunsOwned(s) && ExecutorIsFirst(s) }

  lemma InvInit(s: System)
    requires s.runs == map[] && forall w :: w in s.workers ==> s.workers[w].Idle?
    ensures Inv(s)
  {
  }

  lemma InvStep(s: System, step: Step)
    requires Inv(s) && Enabled(s, step) && Gentle(s, step)
    ensures Inv(Apply(s, step))
  {
    OwnsRunsStep(s, step);
    RunsOwnedStep(s, step);
    ExecutorIsFirstStep(s, step);
  }

  lemma OwnsRunsStep(s: System, step: Step)
    requires Inv(s) && Enabled(s, step) && Gentle(s, step)
    ensures OwnsRuns(Apply(s, step))
  {
  }

  lemma RunsOwnedStep(s: System, step: Step)
    requires Inv(s) && Enabled(s, step) && Gentle(s, step)
    ensures RunsOwned(Apply(s, step))
  {
  }

  lemma ExecutorIsFirstStep(s: System, step: Step)
    requires Inv(s) && Enabled(s, step) && Gentle(s, step)
    ensures ExecutorIsFirst(Apply(s, step))
  {
  }

  // ----- stores happen in run order -----

  /** Every success of a live worker's host has a smaller run id than the worker's run. */
  ghost predicate SuccessesBelow(s: System) {
    forall w, r :: w in s.workers && Live(s.workers[w]) && r in s.runs ==>
      s.runs[r].host == s.workers[w].host && s.runs[r].status.Success? ==> r < s.workers[w].run
  }

  /** Workers act for pulled hosts only. */
  ghost predicate PulledOnly(s: System) {
    forall w :: w in s.workers && !s.workers[w].Idle? ==> s.workers[w].host in s.pulled
  }

  lemma SuccessesBelowStep(s: System, step: Step)
    requires Inv(s) && SuccessesBelow(s) && PulledOnly(s) && Enabled(s, step) && Gentle(s, step)
    ensures SuccessesBelow(Apply(s, step)) && PulledOnly(Apply(s, step))
  {
  }

  // ----- who blocked whom -----

  predicate Blocked(p: Phase) { p.Refused? || p.Doomed? || p.Withdrawn? }

  ghost predicate BlamesAt(s: System, w: Worker)
    requires w in s.workers
  {
    var p := s.workers[w];
    && (HasRun(p) ==> 1 <= p.run)
    && (Blocked(p) ==>
          && p.blocker in s.workers
          && HasRun(s.workers[p.blocker])
          && s.workers[p.blocker].host == p.host
          && (HasRun(p) ==> s.workers[p.blocker].run < p.run))
  }

  /** Whoever gave up saw a run that some worker had inserted, with a smaller id than its own. */
  ghost predicate Blames(s: System) {
    forall w :: w in s.workers ==> BlamesAt(s, w)
  }

  lemma KeepsRun(s: System, step: Step, w: Worker)
    requires Enabled(s, step) && w in s.workers && HasRun(s.workers[w])
    ensures var after := Apply(s, step);
      w in after.workers && HasRun(after.workers[w])
      && after.workers[w].host == s.workers[w].host && after.workers[w].run == s.workers[w].run
  {
  }

  lemma BlamesStepAt(s: System, step: Step, w: Worker)
    requires Inv(s) && Enabled(s, step) && w in s.workers && BlamesAt(s, w)
    ensures w in Apply(s, step).workers && BlamesAt(Apply(s, step), w)
  {
    var p := Apply(s, step).workers[w];
    if Blocked(p) {
      if step.GateBusy? && step.w == w {
        KeepsRun(s, step, s.runs[step.seen].owner);
      } else if step.RecheckBusy? && step.w == w {
        KeepsRun(s, step, s.runs[step.seen].owner);
      } else {
        KeepsRun(s, step, p.blocker);
      }
    }
  }

  lemma BlamesStep(s: System, step: Step)
    requires Inv(s) && Blames(s) && Enabled(s, step)
    ensures Blames(Apply(s, step))
  {
    forall w | w in Apply(s, step).workers ensures BlamesAt(Apply(s, step), w) {
      assert w in s.workers;
      BlamesStepAt(s, step, w);
    }
  }

  // ----- runs of the system -----

  ghost predicate IsRun(states: seq<System>, steps: seq<Step>) {
    && |states| == |steps| + 1
    && (states[0].runs == map[] && forall w :: w in states[0].workers ==> states[0].workers[w].Idle?)
    && forall i :: 0 <= i < |steps| ==>
         Enabled(states[i], steps[i]) && Gentle(states[i], steps[i]) && states[i + 1] == Apply(states[i], steps[i])
  }

  lemma {:induction false} InvRun(states: seq<System>, steps: seq<Step>, i: nat)
    requires IsRun(states, steps) && i < |states|
    ensures Inv(states[i]) && Blames(states[i])
  {
    if i == 0 {
      InvInit(states[0]);
    } else {
      InvRun(states, steps, i - 1);
      InvStep(states[i - 1], steps[i - 1]);
      BlamesStep(states[i - 1], steps[i - 1]);
    }
  }

  /**
   Single flight. Under every interleaving in which no live worker's run is force-closed or
   deleted, at most one worker per host is inspecting or saving.
   */
  lemma AtMostOneExecutes(states: seq<System>, steps: seq<Step>, i: nat, w: Worker, v: Worker)
    requires IsRun(states, steps) && i < |states|
    requires w in states[i].workers && states[i].workers[w].Executing?
    requires v in states[i].workers && states[i].workers[v].Executing?
    requires states[i].workers[w].host == states[i].workers[v].host
    ensures w == v
  {
    InvRun(states, steps, i);
  }

  /** Follow "I saw a smaller running id" until a worker that saw none. */
  ghost function Root(s: System, w: Worker): Worker
    requires Blames(s) && w in s.workers
    decreases if s.workers[w].Refused? then 1 else 0, if HasRun(s.workers[w]) then s.workers[w].run else 0
  {
    assert BlamesAt(s, w);
    if Blocked(s.workers[w]) then Root(s, s.workers[w].blocker) else w
  }

  lemma {:induction false} RootHasRun(s: System, w: Worker)
    requires Blames(s) && w in s.workers && (Blocked(s.workers[w]) || HasRun(s.workers[w]))
    ensures var root := Root(s, w);
      root in s.workers && HasRun(s.workers[root]) && !Blocked(s.workers[root])
      && s.workers[root].host == s.workers[w].host
    decreases if s.workers[w].Refused? then 1 else 0, if HasRun(s.workers[w]) then s.workers[w].run else 0
  {
    assert BlamesAt(s, w);
    if Blocked(s.workers[w]) { RootHasRun(s, s.workers[w].blocker); }
  }

  /**
   Not everybody withdraws. Every trigger that gave up leads, through the smaller ids it saw, to
   a worker for the same host that executed, is executing, has yet to look again, or was lost
   in a restart; once all surviving triggers are through, to one that executed or was lost.
   */
  lemma SomebodyExecutes(states: seq<System>, steps: seq<Step>, i: nat, w: Worker)
    requires IsRun(states, steps) && i < |states|
    requires w in states[i].workers && Blocked(states[i].workers[w])
    ensures Blames(states[i])
    ensures var s := states[i];
      var root := Root(s, w);
      && root in s.workers
      && var p := s.workers[root];
      && (p.Executing? || p.Executed? || p.Inserted? || p.Dead?) && p.host == s.workers[w].host
      && ((forall v :: v in s.workers ==> !Live(s.workers[v])) ==> p.Executed? || p.Dead?)
  {
    InvRun(states, steps, i);
    RootHasRun(states[i], w);
  }

  /** The contender with the smallest running id of its host is never held up. */
  lemma SmallestProceeds(s: System, w: Worker)
    requires Inv(s) && w in s.workers && s.workers[w].Inserted?
    requires forall v :: v in s.workers && v != w && Holding(s.workers[v]) && s.workers[v].host == s.workers[w].host ==>
      s.workers[w].run <= s.workers[v].run
    ensures Enabled(s, RecheckFree(w))
  {
  }

  // ----- the assumption -----

  function StaleRuns(s: System): set<int> {
    set r | r in s.runs && s.runs[r].status.Running? && s.runs[r].startedAt < s.clock - STALE_RUN_SECONDS
  }

  /** Arbitration closes live runs exactly when some worker has outlived the stale limit. */
  lemma ArbitrationIsGentle(s: System)
    requires Inv(s)
    ensures Enabled(s, ForceClose(StaleRuns(s)))
    ensures Gentle(s, ForceClose(StaleRuns(s))) <==>
      forall w :: w in s.workers && Live(s.workers[w]) ==> s.clock - s.runs[s.workers[w].run].startedAt <= STALE_RUN_SECONDS
  {
  }

  /** The start-up reset closes every running row; it is gentle exactly when no worker is live. */
  lemma ResetIsGentle(s: System)
    requires Inv(s)
    ensures var all := set r | r in s.runs && s.runs[r].status.Running?;
      Enabled(s, ForceClose(all))
      && (Gentle(s, ForceClose(all)) <==> forall w :: w in s.workers ==> !Live(s.workers[w]))
  {
  }

  // ----- why the assumption is needed -----

  function Story(i: nat): System {
    var idle, first := map[1 := Idle, 2 := Idle], RunRow(7, Running, 0, 1);
    var late := STALE_RUN_SECONDS + 1;
    var closed, second := RunRow(7, Failed, 0, 1), RunRow(7, Running, late, 2);
    if i == 0 then System(map[], idle, 0, {7})
    else if i == 1 then System(map[], map[1 := Gated(7), 2 := Idle], 0, {7})
    else if i == 2 then System(map[1 := first], map[1 := Inserted(7, 1), 2 := Idle], 0, {7})
    else if i == 3 then System(map[1 := first], map[1 := Executing(7, 1), 2 := Idle], 0, {7})
    else if i == 4 then System(map[1 := first], map[1 := Executing(7, 1), 2 := Idle], late, {7})
    else if i == 5 then System(map[1 := closed], map[1 := Executing(7, 1), 2 := Idle], late, {7})
    else if i == 6 then System(map[1 := closed], map[1 := Executing(7, 1), 2 := Gated(7)], late, {7})
    else if i == 7 then System(map[1 := closed, 2 := second], map[1 := Executing(7, 1), 2 := Inserted(7, 2)], late, {7})
    else if i == 8 then System(map[1 := closed, 2 := second], map[1 := Executing(7, 1), 2 := Executing(7, 2)], late, {7})
    else System(map[1 := RunRow(7, Success, 0, 1), 2 := second], map[1 := Executed(7, 1), 2 := Executing(7, 2)], late, {7})
  }

  function StoryStep(i: nat): Step {
    if i == 0 then GateFree(1, 7)
    else if i == 1 then Insert(1, 1)
    else if i == 2 then RecheckFree(1)
    else if i == 3 then Tick(STALE_RUN_SECONDS + 1)
    else if i == 4 then ForceClose({1})
    else if i == 5 then GateFree(2, 7)
    else if i == 6 then Insert(2, 2)
    else if i == 7 then RecheckFree(2)
    else Finish(1, Success)
  }

  lemma StoryBegins(i: nat)
    requires i < 4
    ensures Enabled(Story(i), StoryStep(i)) && Story(i + 1) == Apply(Story(i), StoryStep(i))
  {
  }

  lemma StoryArbitrates()
    ensures StaleRuns(Story(4)) == {1} && StoryStep(4) == ForceClose(StaleRuns(Story(4)))
    ensures Enabled(Story(4), StoryStep(4)) && Story(5) == Apply(Story(4), StoryStep(4))
  {
  }

  lemma StoryEnds(i: nat)
    requires 5 <= i < 9
    ensures Enabled(Story(i), StoryStep(i)) && Story(i + 1) == Apply(Story(i), StoryStep(i))
  {
  }

  /**
   A worker that outlives the stale limit has its run closed by arbitration (step 4), a second
   worker starts, both execute for the same host (state 8), and the first one's late save
   turns the run that was closed as failed into a success (state 9).
   */
  lemma OutlivedWorkerWitness(i: nat)
    requires i < 9
    ensures Enabled(Story(i), StoryStep(i)) && Story(i + 1) == Apply(Story(i), StoryStep(i))
    ensures StoryStep(4) == ForceClose(StaleRuns(Story(4)))
    ensures Story(8).workers[1] == Executing(7, 1) && Story(8).workers[2] == Executing(7, 2)
    ensures Story(8).runs[1].status.Failed? && Story(9).runs[1].status.Success?
  {
    StoryArbitrates();
    if i < 4 { StoryBegins(i); } else if i > 4 { StoryEnds(i); }
  }
}
