# BaselineGuard: a verified model of the check history and its surroundings

BaselineGuard checks hosts against security baselines and keeps what it finds. Each report
goes through one engine (`app/checker.py`) that filters switched-off items, counts, stores
result rows, writes a short-term change list against the previous run, and appends to a
long-term version log that compresses reports into initial/new/status/desc/gone entries.
Around it stand a single-flight run protocol, a scheduler, alerts, retention, derived figures,
a role cache, the host agent's JSON writer and the drivers for network devices.

This project models that code in Dafny and proves what it is for:

- **The version log rebuilds what it compresses.** Replay, time travel in both directions,
  trimming, backfill from stored rows, and the agreement of both logs with each other and with
  the on-demand comparison, over arbitrary report histories and switch-off lists
  (`VersionLog`, `VersionReplay`, `TimeTravel`, `ResultChanges`, `Agreement`, `Toggling`,
  `Switches`, `Trimming`, `Backfill`). `Checker` and `Rebuild` hold the imperative engine over a
  `Database` object, each method tied to those functions, and `Stored` says what a save writes
  field by field; `Mirror` and `Events` carry the theorems over to the tables after any life of
  them, and `OnDemand` to the comparison page.
- **Concurrency.** `SingleFlight` and `RoleCache` are state machines over interleaved steps;
  `Lockstep` runs the single-flight protocol and the tables side by side, `LateSave` shows what
  an outlived worker does to them; `Scheduler` and `Alerts` state what holds over every life of
  a host.
- **Derived figures and deletion** (`Counting`, `Gaps`, `Trends`, `Deletion`).
- **Text and devices** (`Texts`, `JsonEscape`, `LineBlocks`, `VtyVerdicts`, `Readings`, `Devices`, `F5`,
  `FortiGate`, `PaloAlto`).

## Conventions

- Tables are sequences in row-id order; a dictionary filled row by row is its keys in order of
  first appearance and its last values. An atomic commit is one method call or one step.
- Times are integers, except in the role cache, where they are reals. One call reads the clock
  once. The clock never goes back.
- The family of a report, the outcome of an inspection and the replies of endpoints are
  parameters, so results hold for all of them. A device's JSON object is known by its scalar
  fields, lists of texts and tables of rows, an XML element by what is found under each path.
- The catalogue of checks is a parameter. All that is used of it is that its ids, literals in
  `app/check_items.py`, are shorter than the 80 characters of the column (`FittingCatalogue`).
- Case folding, `int` and `float` on texts that are not all digits, and two regular expressions
  are the parameter `py` of the drivers.
- `.strip().lower()` of account names is a parameter `canon`; every result holds for any function.

## Where the code and its promises part

- A report that repeats an id (after the cut to 80 characters) can leave the log showing the
  wrong state. `VersionReplay.Replay` gives the exact condition, `OscillationWitness` an input.
- Mutual exclusion of runs needs that no live worker's run is force-closed or deleted.
  `ArbitrationIsGentle` and `ResetIsGentle` say exactly when that holds; `OutlivedWorkerWitness`
  is a run that breaks it, ending with a failed run overwritten as a success.
- Backfill equals live recording only after saves in run order. Without such a worker saves come
  in run order (`Lockstep.SavedInRunOrder`); with one, a rebuild shows another report than the
  version table (`LateSave.LateSaveWitness`), and the comparison page of the late run shows
  nothing where change rows were stored (`LatePageShowsNothing`).
- A retention period shorter than the interval makes scheduled checks come as early as the
  retention period allows (`Scheduler.RetentionForgetsStarts`).
- A silent force-close can be followed by a recovery notice without any failure alert
  (`Alerts.RecoveryWithoutAlert`).
- Role answers may go backwards inside the ten-second window (`RoleCache.OlderAnswerAfterNewer`).
- The agent's comment that the separator never occurs in descriptions is more than is needed,
  but a newline in any field splits its line (`JsonEscape.NewlineSplits`); `Carried` is exactly
  what must hold.
- The VTY pass says "SSH only", but accepts any transport without telnet and all
  (`VtyVerdicts.PassWithoutSsh`).
- A lost endpoint is said to make its items manual. Two items can instead turn to fail:
  FortiGate syslog and PAN-OS log forwarding (`StandInLostWitness`, `ForwardingLostWitness`).
- A field that could not be read is said never to read as compliance. For a few fields its
  absence does: the lemmas `ExposedExactly` of the three drivers name exactly which. A PAN-OS
  lockout time that is not a number passes too (`PaloAlto.LockoutPasses`).

## Model

| member | source | states |
|---|---|---|
| Checker.SaveReport | app/checker.py:95-170 | Storing a report gives exactly the tables of `SavedTables`: filtered and normalised items, counts, run row, result rows, both logs, the trim and the host summary. A recovery notice is due exactly when the host was failed or offline. An unresolved family or a vanished host or run changes nothing. |
| Stored.SaveSays | app/checker.py:106-160 | What a save leaves, field by field: a new run with the next id or the given one closed as successful now, with the total and the five counts those of its stored rows; one result row for every item not switched off, in order, cut to the columns, an unknown status as manual; the host checked now, successful and unmarked; nothing else changed. |
| Stored.HistorySays | app/checker.py:147-149 | Both logs grow by rows of this host, this run and this moment only; change rows are never taken away, version rows only by the trim. |
| Stored.ChangeRowsSay | app/checker.py:212-234 | Every change row says what the report says about its item, cut to 80, 80, 10 and 600 characters, and as before what the previous run's last row about it says, or nothing; for a vanished item it says what that last row says. |
| Stored.VersionRowsSay | app/checker.py:285-314 | Every version row says what the report says about its item, cut likewise, and as before what the item's last logged row said; its kind is decided by that row; for a vanished item it is a gone row repeating it. |
| Checker.CountItems | app/checker.py:111-122 | The counting loop turns unknown statuses into manual, and its five counts always add up to the number of items. |
| Checker.CountsAre | app/checker.py:114-122 | Each of the five counts is the number of items with that status. |
| Checker.NormalTotal | app/checker.py:111-137 | After normalisation no item falls outside the five counts, whatever statuses were reported. |
| Checker.StoreItems | app/checker.py:139-146 | One result row per kept item is appended, cut to the column widths. |
| Checker.RecordHistory | app/checker.py:147-149 | Change rows, version rows and the trim are applied in this order. |
| Checker.RecordChanges | app/checker.py:173-234 | The rows appended are those of `Changes` on the previous runs' stored rows; nothing else changes. |
| Checker.ReportChangeRows | app/checker.py:212-227 | The loop over the report writes a row exactly for items whose status differs from the previous run and that are not merely back after an absence inside the window. |
| Checker.GoneChangeRows | app/checker.py:228-234 | The loop over the previous run's dictionary writes one row for every item no longer reported, in dictionary order. |
| Checker.RecordVersions | app/checker.py:265-314 | The rows appended are those of `Recorded` on the host's own log; other hosts' rows stay. |
| Checker.ReadLog | app/checker.py:280-283 | The dictionary filled in row order holds each item's last row, with keys in order of first appearance. |
| Checker.ReportVersionRows | app/checker.py:297-310 | The report loop writes the rows of `ItemRows`, all judged against the log as it was before the loop. |
| Checker.GoneVersionRows | app/checker.py:311-314 | The loop over the dictionary writes gone rows for live, enabled, unreported items only. |
| Checker.TrimVersions | app/checker.py:240-262 | Above the cap the host's oldest rows are deleted, down to the cap; otherwise nothing changes. |
| Checker.DeleteOldest | app/checker.py:254-260 | Deleting by the first ids of a host drops exactly its oldest rows and nobody else's. |
| Checker.FinishFailed | app/checker.py:346-386 | The failure path closes the run as failed now and marks the host failed and checked now, and says an alert is due exactly when the host was not failed before; without the run nothing happens. |
| Checker.FailRunningRuns | app/checker.py:393-410 | A batch of runs is closed and their hosts become failed; last check times and all other rows stay. |
| Checker.ExpireStaleRuns | app/checker.py:435-451 | A run is closed as failed now if and only if it was running and started before the cutoff, a host counts as failed if and only if it had one, nothing else changes; the result is how many there were. |
| Checker.ResetOrphanRuns | app/checker.py:413-432 | The same for every running run. |
| Checker.ClosedExactly | app/checker.py:399-410 | With distinct run ids, closing a selection sets status and end of exactly the selected runs and the status of exactly the hosts that have one; last check times stay. |
| VersionLog.ItemRow | app/checker.py:304-310 | An item adds no row exactly when its last row is live and already shows its status and description; otherwise one row showing them. |
| VersionLog.ViewIs | app/checker.py:280-283 | The rebuilt view holds an item exactly when its last row is not a gone row, with that row's state. |
| VersionLog.RecordedFor | app/checker.py:292-314 | The rows one recording writes about an item are those decided by the item's mentions and last row alone, whatever else the report says. |
| VersionReplay.Replay | app/checker.py:265-314 | Recording a non-empty report makes the view exactly the report plus the untouched states of switched-off items, whatever the log held, if and only if the report does not oscillate on a repeated id. |
| VersionReplay.ReplayDistinct | app/checker.py:265-314 | For reports with distinct ids the replay law holds outright. |
| VersionReplay.RecordedState | app/checker.py:298-314 | The same law item by item, for reported, switched-off and vanished items. |
| VersionReplay.OscillationWitness | app/checker.py:298-310 | A report naming one item twice, ending on the logged state, leaves the log showing the other state: `last` is not refreshed inside the loop. |
| VersionReplay.RecordFits | app/checker.py:285-290 | Every row written respects the column widths, so later comparisons see what was stored. |
| TimeTravel.RecordChains | app/checker.py:285-314 | Every row's before-fields equal the item's previous row, and kinds follow one another (initial or new, then status or desc, then gone, then new); recording keeps this. |
| TimeTravel.UndoRedo | app/checker.py:285-290 | A row undone on a view that shows its before-state gives the view it was applied to. |
| TimeTravel.RewindsTo | app/checker.py:285-314 | Undoing the newest rows of a chained log rebuilds the view before they were written. |
| TimeTravel.LogGrows | app/checker.py:265-314 | Without trimming, an earlier log is a prefix of a later one. |
| TimeTravel.TimeTravels | app/checker.py:280-314 | The log prefix written up to any past non-empty report rebuilds that report, and so does undoing the rest of the final log. |
| ResultChanges.ChangesAbout | app/checker.py:202-234 | The change rows about an item depend only on its mentions, its previous row and the window. |
| ResultChanges.ChangesForDistinct | app/checker.py:213-234 | With distinct ids an item has at most one change row, decided by its one mention. |
| ResultChanges.Compare | app/routes/runs.py:108-120 | The on-demand comparison, said with the stored rows alone: a pair is listed as changed if and only if it is the last rows of one item in both runs and the statuses differ, a row as added or removed if and only if it is the last row of an item that the other run does not have; each item is listed once, in the order of first appearance. |
| Agreement.ChangesMatchComparison | app/checker.py:188-234 | Item by item, the stored change rows equal the comparison with the same previous rows, minus changed and removed items now switched off and minus added items seen in the window, when both runs leave something to compare. Which previous run each side picks is in `OnDemand`. |
| Agreement.LogsAgree | app/checker.py:193-234 | With nothing switched off, every item's change row follows from its version row: status with both sides, gone without an after, new without a before unless seen in the window, desc without any change row. |
| Agreement.StoredRowOf | app/checker.py:139-146 | The dictionary of a run's stored rows says what its report said, item by item. |
| Agreement.VersionRowOf | app/checker.py:298-314 | A report with distinct ids writes at most one version row per item, and which one. |
| OnDemand.RunDiff | app/routes/runs.py:96-120 | The page of a run compares its rows with those of the host's newest success of a smaller id and returns the three lists of that comparison, each characterised by the stored rows of the two runs; without the run there is no page, and without an earlier success the lists are empty. |
| OnDemand.SelectionsAgree | app/checker.py:193-199 | Recording and the page pick the same previous run if and only if no success of the host has a larger id. |
| OnDemand.WrittenChangesAreTheDiff | app/checker.py:173-234 | Whenever a report is saved in run order, the change rows it writes are what the three lists of its run's page hold right after: a row for an item, a before and an after if and only if the page lists it so, minus changed and removed items now switched off and minus added items seen in the window; at most one row per item. |
| OnDemand.WindowIs | app/checker.py:188-206 | An item is seen in the window if and only if one of the host's five newest other successes has a stored row about it. |
| OnDemand.LaterSaveKeepsPrevious | app/routes/runs.py:103-107 | A later save moves a page to another previous run if and only if the run it stores lies between the two; so saves in run order never do. |
| OnDemand.LaterSaveKeepsRows | app/routes/runs.py:110-113 | The stored rows of a run never change again, so a page that keeps its previous run keeps its lists. |
| OnDemand.LateSaveHasNoPrevious | app/routes/runs.py:103-107 | A host's smallest run saved after a later one: its rows were compared with the later run, its page finds no previous run. |
| Toggling.TogglingIsSilent | app/checker.py:106-109 | For an unchanged raw report under arbitrary switching, a run writes no change row if and only if there is nothing to compare or every item it reports occurred in one of the last five successful runs. |
| Toggling.ToggledLog | app/checker.py:311-313 | Meanwhile the version log holds exactly one row per item ever enabled, showing its unchanged state. |
| Toggling.KeptShows | app/checker.py:106-122 | A filtered, normalised report is the raw report's table without the switched-off items. |
| Switches.ItemToggle | app/routes/items_routes.py:46-75 | An unknown family or id is refused and changes nothing; otherwise the table holds the row exactly when the item is off, and no other row changes. |
| Switches.LastRequestDecides | app/routes/items_routes.py:62-75 | After any requests an item is switched off if and only if the last valid request about it switched it off. |
| Switches.ListsAreCatalogue | app/routes/items_routes.py:63-64 | Whatever was requested, a family's switch-off list holds ids of its catalogue only. |
| Switches.SwitchingIsSilent | app/checker.py:106-109 | So the law of silent toggling holds for every history of requests, however long the ids of the raw report are. |
| Switches.SwitchedLog | app/checker.py:311-313 | And so does the law of one version row per item ever enabled. |
| Trimming.TrimOf | app/checker.py:240-260 | After a trim a host has at most 20,000 rows, a suffix of what it had; other hosts' logs are untouched. |
| Trimming.DropOldestOf | app/checker.py:254-260 | Dropping a host's oldest rows leaves a suffix of its log. |
| Trimming.DropOldestOther | app/checker.py:254-260 | It leaves every other host's log as it was. |
| Trimming.SuffixView | app/checker.py:240-260 | A kept suffix shows exactly the live items that still have a row, with unchanged states. |
| Trimming.SavedView | app/checker.py:147-149 | After a save the view is part of the replayed report with the same states, and all of it when nothing was dropped. |
| Trimming.NeverEmptiedAgain | app/checker.py:252-260 | Only a history of empty reports leaves the log empty, however much was trimmed. |
| Trimming.BaselineOnce | app/checker.py:292-296 | An initial row is written only after empty reports, so the baseline is written once per host lifetime. |
| Backfill.StoredRecords | app/checker.py:333-338 | Recording a run's stored rows writes the rows that recording its report wrote. |
| Backfill.BackfillIsLive | app/checker.py:327-338 | With nothing switched off, replaying stored reports in the order in which they were saved rebuilds the live log up to its time stamps. |
| Backfill.BackfilledView | app/checker.py:327-338 | With switch-offs in the history, the backfilled view is the last non-empty report, however many empty ones follow, and the live view says the same of that report's items. |
| Backfill.EmptyReportsVanish | app/checker.py:277-278 | Empty reports change neither log. |
| Rebuild.RebuildVersions | app/checker.py:317-343 | Backfill fills only an empty version table, from every host's stored runs; a second call changes nothing. |
| Rebuild.ReplayHost | app/checker.py:328-339 | One host's successful runs are replayed in run order from their stored rows. |
| Rebuild.RebuiltOf | app/checker.py:327-339 | Every host's rebuilt log is the replay of its own runs, whatever the other hosts hold. |
| Rebuild.RebuiltSays | app/checker.py:333-341 | Every rebuilt row carries the run of a stored success of a host in the table, and as its time when that run ended, or else began. |
| Mirror.SaveMirrors | app/checker.py:95-160 | If a host's tables mirror a history of reports, saving one more, late or not, makes them mirror the longer history: versions in the order of the saves, runs and result rows in run order, and the change rows the history calls for. |
| Mirror.SaveElsewhere | app/checker.py:95-160 | A save leaves every other host's mirrored history as it was. |
| Mirror.SaveWellFormed | app/checker.py:124-160 | A save keeps run and host ids in order and leaves no result row without its run. |
| Mirror.SavedSuccesses | app/checker.py:124-138 | A save adds one successful run, at its place in id order, to its host and to no other. |
| Mirror.BackfillEqualsLive | app/checker.py:317-343 | From tables that mirror an untrimmed history without switch-offs, saved in run order, backfill rebuilds the host's version rows, time stamps aside. |
| Mirror.BackfilledTablesView | app/checker.py:317-343 | With switch-offs, the backfilled view is the last non-empty report in run order; after saves in run order the version table says the same of its items. |
| Mirror.ByRunIs | app/checker.py:328-333 | Run order holds the same reports sorted by run id, and is the order of the saves if and only if those came in run order. |
| Mirror.BackfillReplaysRunOrder | app/checker.py:328-338 | Backfill replays the reports in run order, whatever order they were saved in. |
| Mirror.LateSaveSwapsViews | app/checker.py:327-338 | For any two reports saved in the wrong order the live view is the one and the rebuilt view is the other. |
| Events.EventStep | app/checker.py:626-676 | Any one event, an agent report, the insertion of a run, a save into it, a failure, a withdrawal or a force-close, keeps the tables sound and every host mirrored, with its history longer by the report the event stored, if any. |
| Events.AllEventsMirror | app/checker.py:95-160 | From empty tables, any interleaving of these events keeps the tables sound and every host mirrored, late saves included. |
| LateSave.LateSaveWitness | app/checker.py:633-676 | A concrete life of a pulled host: its first worker outlives the stale limit and saves after the second; the version table shows the late report and a rebuild would show the other. |
| LateSave.LatePageShowsNothing | app/routes/runs.py:103-120 | In the same life the late run stored a change row from pass to fail, and its page shows nothing. |
| SingleFlight.InvStep | app/checker.py:629-676 | Every step keeps: a live worker's run is there, running and its own; every running row has its worker; an executor has the smallest running id of its host. |
| SingleFlight.AtMostOneExecutes | app/checker.py:629-676 | Under every interleaving in which no live worker's run is force-closed or deleted, at most one worker per host inspects or saves. |
| SingleFlight.SuccessesBelowStep | app/checker.py:633-660 | Every gentle step keeps: no success of a live worker's host has an id as large as the worker's run. |
| Lockstep.StepIsOk | app/checker.py:626-676 | What a protocol step does to the tables is an event that is allowed there: it saves into the worker's own running run. |
| Lockstep.SavedInRunOrder | app/checker.py:626-676 | Over every gentle interleaving of checks, agent reports, failures, withdrawals and closings, protocol and tables stay in step, every host, pulled or not, is mirrored, and its reports were saved in run order. |
| Lockstep.BackfillEqualsLiveAllDay | app/checker.py:317-343 | So backfill equals live recording at every moment of such a day, for pulled hosts too. |
| Lockstep.PagesAgreeAllDay | app/routes/runs.py:103-120 | And the change rows of every report saved on such a day are what the lists of its run's page hold. |
| SingleFlight.SomebodyExecutes | app/checker.py:634-660 | Whoever gave up leads, through the smaller ids seen, to a worker of the same host that executed, executes, has yet to look again or was lost in a restart; not all contenders withdraw. |
| SingleFlight.SmallestProceeds | app/checker.py:651-660 | The contender with the smallest running id is never held up by the second look. |
| SingleFlight.NobodyStuck | app/checker.py:629-676 | What a trigger can do next: the gate lets it in if and only if no run of its host is running, the second look lets it execute if and only if no smaller run of its host is running; else it is refused or doomed for such a run, and it can always insert, withdraw or finish either way. |
| SingleFlight.SurroundingsFree | app/checker.py:413-451 | Restarts, deletions, force-closes of running runs and agent reports can come at any time, so the results hold under all of them. |
| SingleFlight.ArbitrationIsGentle | app/checker.py:441-451 | Arbitration closes no live run if and only if no live worker has outlived 7200 s. |
| SingleFlight.ResetIsGentle | app/checker.py:420-429 | The start-up reset closes no live run if and only if no worker is live. |
| SingleFlight.OutlivedWorkerWitness | app/checker.py:633-676 | A concrete run: a worker outlives the limit, a second one starts, both execute, and the late save turns the closed run from failed to success. |
| Alerts.FailureAlertsAlternate | app/checker.py:370-386 | Between two failure alerts for a host there is a successful report. |
| Alerts.FailureAlertExactly | app/checker.py:366-386 | Over every life, a failure sends an alert if and only if no failure and no force-close came since the last report (nor, before any report, was the host failed at the start). |
| Alerts.OfflineAlertsAlternate | app/scheduler.py:70-82 | Between two offline alerts for a host there is a successful report. |
| Alerts.OfflineAlertExactly | app/scheduler.py:70-82 | Over every life, an offline check sends an alert if and only if the host is an enabled agent, its last report or recorded failure (or, before any, its first check time) lies before the cutoff, and no mark was set since the last report (nor, before any report, was the host marked at the start). |
| Alerts.RecentlySeenIsQuiet | app/scheduler.py:70-77 | An offline check whose cutoff is not after the last report or recorded failure is quiet. |
| Alerts.LifeKeeps | app/checker.py:151-160 | Over every life the identity, mode, switch and interval of a host stay, and its check time is that of the last report or recorded failure: force-closes and offline marks never move it. |
| Alerts.RecoveryNoticesAlternate | app/checker.py:151-166 | Between two recovery notices there is a failure, a force-close or an offline mark. |
| Alerts.RecoveryNoticeExactly | app/checker.py:151-166 | Over every life, a report sends a recovery notice if and only if notices are on and a failure, a force-close or an offline mark came since the last report (or, before any report, the host was failed or offline at the start). |
| Alerts.RecoveryWithoutAlert | app/checker.py:151-166 | A healthy host whose runs are only ever closed silently gets two recovery notices, without a failure, a failure alert or an offline mark. |
| Alerts.ForceClosesOnlySuppress | app/checker.py:399-409 | Compared with the same life without them, silent force-closes can suppress a failure alert and add a recovery notice; they never add a failure alert and never touch an offline alert. |
| Scheduler.LastStart | app/scheduler.py:47-49 | The latest start of a host, present exactly when it has a run. |
| Scheduler.DueSshHosts | app/scheduler.py:34-60 | Arbitration first; then the due hosts in table order are exactly those that pass every test. |
| Scheduler.DueExactly | app/scheduler.py:41-60 | A host is due on a tick if and only if it is an enabled pulled host with a positive interval, its last start is an interval ago, and its running runs have all passed the stale limit. |
| Scheduler.NeverStuck | app/scheduler.py:34-60 | Once both the interval and the stale limit have passed, an enabled host with a positive interval is due. |
| Scheduler.Tick | app/scheduler.py:115-136 | A tick leaves exactly the runs that cleanup, when it is time, does not take, with those running for more than two hours failed as of now; it submits exactly the due hosts on these runs; which agents it alerts is said in the fields of the host table; result rows, change rows and hosts are stated in full. |
| Scheduler.SpacedStep | app/scheduler.py:85-149 | Every move of triggers, runs, closings and cleanup keeps the spacing of scheduled starts. |
| Scheduler.LineMoves | app/scheduler.py:41-60 | A submission is possible if and only if none is pending, no run of the host is running and every start is an interval ago; a submitted check can start or give up, and manual triggers, endings, waiting and cleanup can come at any time. |
| Scheduler.NeverEarly | app/scheduler.py:85-149 | Over every run, consecutive scheduled starts of a host are at least min(interval, retention) apart, and at least the interval when nothing is cleaned up. |
| Scheduler.RetentionForgetsStarts | app/scheduler.py:85-103 | The bound is reached: for every positive retention period shorter than the interval there is a run whose two scheduled starts are one second more than the retention period apart. |
| Scheduler.DueIsDueNow | app/scheduler.py:41-60 | What the due query decides for a host is what the line model needs for a submission. |
| Scheduler.CleanupIsRetention | app/scheduler.py:85-103 | Cleanup of the runs table is the line model's retention move. |
| Scheduler.AgentOfflineCheck | app/scheduler.py:63-82 | An id is alerted if and only if the limit is positive and the table has an enabled, not yet marked agent with that id whose last check time is there and lies before the cutoff; exactly those rows are marked and nothing else changes. |
| Scheduler.Loop.Pass | app/scheduler.py:161-165 | A pass of the loop counts sixty seconds and resets the counter when it asks for cleanup. |
| Scheduler.Loop.constructor | app/scheduler.py:31 | The counter starts at the cleanup period. |
| Scheduler.CleanupEverySixty | app/scheduler.py:152-170 | Cleanup is asked for on the first pass and then on every sixtieth. |
| Deletion.DeleteBatch | app/scheduler.py:97-103 | After any single batch no result row refers to a missing run. |
| Deletion.DeleteRuns | app/scheduler.py:96-103 | For any number of ids the batches add up to one deletion of exactly those runs and their rows. |
| Deletion.Cleanup | app/scheduler.py:85-110 | A run is left if and only if it started at the cutoff or later, a result row if and only if its run is left, a change row if and only if it was detected at the cutoff or later; hosts, versions and switches stay, and without a retention period everything does. |
| Deletion.HostDelete | app/routes/hosts.py:265-290 | After a host is deleted every table holds exactly the rows that are not its own: hosts, runs, result rows of other hosts' runs, changes and versions. |
| Deletion.ResultsOfKeptRuns | app/scheduler.py:96-103 | After a deletion the result rows left are exactly those whose run is left. |
| Deletion.OthersKeepTheirs | app/routes/hosts.py:272-288 | Every other host keeps all its runs and version rows, in order. |
| Counting.SaveKeepsCounts | app/checker.py:114-146 | A save keeps the law that a success's five counts are its stored rows by status and add up to its total, and that no other run has rows. |
| Counting.ClosingKeepsCounts | app/checker.py:399-410 | Closing running runs keeps that law. |
| Counting.FailureKeepsCounts | app/checker.py:346-365 | So does recording a failure of a run that was not stored as a success. |
| Counting.DeletionKeepsCounts | app/scheduler.py:96-103 | Deleting runs with their rows keeps it for the others. |
| Gaps.GapData | app/routes/gaps.py:20-45 | Grouping with setdefault and append gives, per item, the first row's texts and the host of every row, then the sorted list. |
| Gaps.GapListOrdered | app/routes/gaps.py:41-44 | The list is ordered by falling number of hosts, then by item id; each entry lists exactly the hosts of its item's rows, in order. |
| Gaps.GapListComplete | app/routes/gaps.py:36-45 | Every item is listed once and every row is a membership of exactly one entry. |
| Gaps.GapsConserve | app/routes/gaps.py:22-45 | Memberships over all entries add up to the matching counts over the enabled hosts' latest successes. |
| Gaps.LatestPerHost | app/routes/gaps.py:22-26 | Each enabled host with a success is represented by exactly one run, its last success. |
| Trends.FailDeltas | app/routes/logs_routes.py:37-55 | One pass over the interleaved history gives `Deltas`. |
| Trends.DeltasTelescope | app/routes/logs_routes.py:45-55 | A listed host's deltas are the steps between its own successive successes, whatever lies between; they add up to last minus first, and the first run has none. |
| Trends.HostTrends | app/webutil.py:185-200 | A host is drawn if and only if it has runs with signal in its window (two of them for bars): the line holds pass and pass plus fail of its last `limit` ones, the bars how many fails fewer each has than the run before it, all in the fields of the runs. |
| Trends.OwnIs | app/webutil.py:174-190 | The runs drawn for a host are, in id order, exactly its successes with a pass or a fail among them that have at most `limit` newer successes of the host. |
| Trends.WindowIsSuffix | app/webutil.py:174-184 | The ranked query keeps, per host, exactly the last limit + 1 successes. |
| Trends.TrendsNegateDeltas | app/webutil.py:187-200 | The bars are the negatives of the fail deltas if and only if no run in the window has zero signal or the window holds no step; `[-limit:]` never cuts them. |
| RoleCache.ResolveRoles | app/auth.py:70-89 | The loop and the final comprehension give `Roles`. |
| RoleCache.RolesMean | app/auth.py:70-89 | The answer in the terms of the table: the login admin is the administrator; anybody else has exactly the two known roles that accounts with the same canonical name hold, administrator first; when no account (or no table) gives one, the configured default if it is full_admin, and else readonly. |
| RoleCache.OthersDoNotMatter | app/auth.py:76-83 | Accounts under other canonical names never change the answer, however many are added or removed. |
| RoleCache.Cache.ResolveRolesCached | app/auth.py:92-110 | A fresh entry is returned and nothing changes; otherwise the answer is resolved anew and stored under the clock value read at the start. |
| RoleCache.AloneIsThePlainCache | app/auth.py:103-110 | The interleaved model run without interruption is the plain method: same answer, same dictionary. |
| RoleCache.InvStep | app/auth.py:103-110 | Every thread step keeps: a cache entry comes from a table read begun at or after its time stamp. |
| RoleCache.StalenessBound | app/auth.py:92-110 | Under every interleaving, the answer to a request with clock read t comes from a table read begun later than t - 10 s and reflects every edit made at or before t - 10 s, even when a slow thread overwrote a newer entry. |
| RoleCache.OlderAnswerAfterNewer | app/auth.py:104-110 | A concrete run: after an answer that reflects an edit, a later request gets one that does not. |
| JsonEscape.Escape | app/agent/ucc_check.sh:736-743 | The successive whole-string replacements, the `tr` and the `$(...)` together equal the one-pass map. |
| JsonEscape.PassesAreOnePass | app/agent/ucc_check.sh:737-741 | Five replacements and a `tr` are one map over the characters. |
| JsonEscape.NoNewline | app/agent/ucc_check.sh:741 | The output has no newline, so command substitution strips nothing. |
| JsonEscape.EscapedIsLegal | app/agent/ucc_check.sh:736-743 | The output is a legal string body under section 7 of RFC 8259 if and only if the input has no U+0000, which no shell string has. |
| JsonEscape.ReadEscaped | app/agent/ucc_check.sh:736-743 | A reader stops at the agent's closing quotation mark, whatever follows, and gets the input with the remaining control characters turned to spaces. |
| JsonEscape.CleanedPlain | app/agent/ucc_check.sh:739-741 | A text comes back unchanged if and only if its only control characters are tab, LF and CR. |
| JsonEscape.Recorder.Record | app/agent/ucc_check.sh:112-118 | Recording an item appends its line to the file and keeps the five counters equal to the recorded items by status, so that they add up to their number. |
| JsonEscape.LineRoundTrip | app/agent/ucc_check.sh:110-112 | A line of the temporary file gives its item back if and only if no separator is where it can be taken for one; the last field may even contain some. |
| JsonEscape.EmitItems | app/agent/ucc_check.sh:755-762 | The `while read` loop with its `first` flag prints the items of the file, escaped and separated by commas. |
| JsonEscape.ItemsArrive | app/agent/ucc_check.sh:744-762 | Items written to the file, read back, escaped and printed come out of the JSON array as they went in, in order, with control characters as spaces, if and only if every item can be carried: no newline in it, and no separator where it can be taken for one. |
| JsonEscape.FileRoundTrip | app/agent/ucc_check.sh:110-112 | The temporary file alone gives its items back under the same condition and no other. |
| JsonEscape.NewlineSplits | app/agent/ucc_check.sh:110-112 | A newline in a description makes two items out of one. |
| LineBlocks.SplitLineBlocks | app/drivers/cisco.py:142-170 | The loop returns the blocks of the asked kind among the sections of the configuration, in order. |
| LineBlocks.GroupedLines | app/drivers/cisco.py:153-169 | Every list of lines is a configuration in sections, line for line, so every indented line belongs to at most one block. |
| LineBlocks.GroupedUnique | app/drivers/cisco.py:153-169 | And it is one in only one way. |
| LineBlocks.SplitRendered | app/drivers/cisco.py:142-170 | Rendering blocks with other sections, blank lines and a preamble around them and splitting again returns exactly the blocks of the asked kind, in order. |
| VtyVerdicts.FindTransport | app/drivers/cisco.py:209-213 | The last `transport input` of a block wins. |
| VtyVerdicts.SshVerdictIs | app/drivers/cisco.py:200-229 | Over the sections of any configuration: the verdict is fail if and only if some VTY section's last `transport input` contains telnet or all, warn if and only if it is not fail and some VTY section has none, pass if and only if there is a VTY section and neither holds, manual if and only if there is none; sections, heads and lines are described by their characters. |
| VtyVerdicts.AclVerdictIs | app/drivers/cisco.py:231-238 | The access-list verdict is fail if and only if some VTY section has no line of the form `access-class`, a word, `in`; pass if and only if there is a VTY section and each has one. |
| VtyVerdicts.InForceIs | app/drivers/cisco.py:209-213 | The transport in force in a section is the stripped rest of its last indented line that starts with `transport input`, white space and more. |
| VtyVerdicts.RestrictsIs | app/drivers/cisco.py:233-234 | The access-list test holds of a line if and only if it is `access-class`, white space, a word, white space and `in`, whatever follows. |
| VtyVerdicts.TopLevelIs | app/drivers/cisco.py:157-168 | A line ends a section if and only if it is neither indented nor blank. |
| VtyVerdicts.CheckTransport | app/drivers/cisco.py:201-229 | The loop gives the verdict that `SshVerdictIs` characterises, and the blocks named in its description. |
| VtyVerdicts.CheckAccess | app/drivers/cisco.py:231-238 | The loop gives the verdict that `AclVerdictIs` characterises, and the blocks named in its description. |
| VtyVerdicts.VtyChecks | app/drivers/cisco.py:197-238 | Both verdicts from the lines of the configuration; what they mean is in `SshVerdictIs` and `AclVerdictIs`. |
| VtyVerdicts.PassCoversEveryBlock | app/drivers/cisco.py:200-238 | A pass holds if and only if there is a VTY section and the last `transport input` of every one contains neither telnet nor all (or, for the second verdict, each has an access list); manual if and only if there is none. |
| VtyVerdicts.AddingNeverCreatesAPass | app/drivers/cisco.py:200-238 | Adding a section never creates a pass, except that a first, secured VTY block turns manual into pass. |
| VtyVerdicts.PassWithoutSsh | app/drivers/cisco.py:216-229 | A block whose transport is `none` passes, although the description speaks of SSH only. |
| Devices.Fetch | app/drivers/f5.py:158-170 | The fetch loop keeps exactly the bodies that were read, and raises if and only if a connection is lost or nothing was read. |
| Devices.OutageIsNoChurn | app/checker.py:298-314 | Two reports with the same items, each once, recorded one after the other, write only status and description rows the second time, for any switch-off list and earlier log. |
| Devices.SameItemsNoNewOrGone | app/checker.py:298-314 | The same for any two stored reports over the same ids. |
| Devices.StoredAsDecided | app/checker.py:111-122 | The status text of a driver's item is stored as it is, never as an unknown one. |
| Readings.NumberRoundTrip | app/drivers/base.py:54-78 | A number sent as a text is read as that number. |
| Readings.SpellsIs | app/drivers/f5.py:221 | The trimmed text of a field is its characters without the white space around them, or nothing when the field is absent or does not count as true. |
| Readings.ReadsIs | app/drivers/base.py:54-78 | A field is read as a number if and only if it is that number, or a text whose stripped digits say so, or one that `int` or `float` reads as it. |
| Texts.WordsAre | app/drivers/f5.py:308-309 | `split` finds exactly the words: the longest stretches without white space. |
| F5.Inspect | app/drivers/f5.py:155-535 | The branches of all sections, with one `add` in every arm, emit every id of the catalogue once, in order, with the status its endpoint's fields call for, whatever the replies. |
| F5.ReportIs | app/drivers/f5.py:158-170 | A visit reports if and only if no connection goes down and something can be read, and the report lists every item with its status from exactly the bodies that could be read. |
| F5.GlobalMeans | app/drivers/f5.py:218-352 | The statuses from global-settings, in the fields of the reply: banner, console timeout, host name; manual when it was not read. |
| F5.SshdMeans | app/drivers/f5.py:242-280 | The statuses from sshd: banner, timeout, algorithms, and the allow list, which passes if and only if it is there, is not empty and no entry folds to ALL. |
| F5.HttpdMeans | app/drivers/f5.py:281-324 | The statuses from httpd: the allow list likewise with all, the timeout, and the protocols, which fail if and only if one of the four weak ones is left on. |
| F5.CliMeans | app/drivers/f5.py:325-343 | The tmsh timeout passes if and only if it is a number other than zero up to ten; `disabled` fails. |
| F5.NtpMeans | app/drivers/f5.py:353-369 | Two time servers pass, one warns, none fails; a time zone that is set passes. |
| F5.PasswordsMean | app/drivers/f5.py:373-438 | The seven statuses of the password policy, with every threshold written out. |
| F5.UsersMean | app/drivers/f5.py:440-450 | The account item is manual if and only if the list was not read or names `admin`. |
| F5.RemoteMeans | app/drivers/f5.py:452-496 | External users: manual when either endpoint was not read, not applicable when users are kept on the device, else judged on role, partition and console. |
| F5.SnmpMeans | app/drivers/f5.py:500-525 | A v1/v2c community fails, none with a v3 user passes, none without warns; an absent list decides nothing. |
| F5.SyslogMeans | app/drivers/f5.py:528-535 | A remote server passes, none warns. |
| F5.CheckTls | app/drivers/f5.py:308-319 | The two token sets leave a weak protocol on exactly when it is named, or all are and it is not taken back. |
| F5.CheckComplexity | app/drivers/f5.py:388-407 | The loop over the four required-character fields: one that cannot be read makes the item manual, else all have to be positive. |
| F5.NumbersFailSafe | app/drivers/f5.py:194-203 | A numeric item is manual when one of its fields is absent or not a number, and else passes if and only if all are in range; the word `disabled` fails the tmsh timeout. |
| F5.FieldLossIsSafe | app/drivers/f5.py:200-535 | Whatever fields vanish from whatever bodies, the same items are listed and none becomes pass, unless a field named by `Exposed` vanishes. |
| F5.ExposedExactly | app/drivers/f5.py:440-449 | And these are exactly the fields that can do it: the account list and the names in it. |
| F5.CatalogueOnce | app/drivers/f5.py:71-87 | The catalogue lists every item once. |
| F5.LossIsSafe | app/drivers/f5.py:211-535 | For every reply and every further loss that leaves one endpoint: same items in the same order, each once; an item changes only if an endpoint it needs was lost, and then only to manual. |
| F5.VisitsAreSilent | app/drivers/f5.py:189-192 | Two visits, whatever each of them could read, leave no initial, new or gone rows in the version log the second time. |
| FortiGate.Inspect | app/drivers/fortigate.py:145-504 | The branches of all sections, with one `add` in every arm, emit every id of the catalogue once, in order, with the status its endpoint's results call for; results of a kind that a section trips over raise. |
| FortiGate.ReportIs | app/drivers/fortigate.py:145-190 | A visit reports if and only if no connection goes down, something can be read and every answer has the shape its section reads, and the report lists every item with its status. |
| FortiGate.DnsMeans | app/drivers/fortigate.py:191-201 | The DNS status in the fields of the reply. |
| FortiGate.InterfacesMean | app/drivers/fortigate.py:202-358 | The two interface items fail if and only if some WAN interface lets in one of eight services, or some interface HTTP or Telnet. |
| FortiGate.GreetingMeans | app/drivers/fortigate.py:225-249 | Banners, host name and time zone, in the fields of the global settings. |
| FortiGate.SessionsMean | app/drivers/fortigate.py:250-291 | TLS versions, idle timeout and lockout, with every threshold written out. |
| FortiGate.ServicesMean | app/drivers/fortigate.py:292-345 | The six service settings, with the ports that count as moved. |
| FortiGate.AdminsMean | app/drivers/fortigate.py:360-381 | Trusted hosts pass if and only if every account has one of its twenty fields set to something narrower than all addresses; the account named `admin` makes its item manual. |
| FortiGate.PasswordsMean | app/drivers/fortigate.py:383-407 | The password policy passes if and only if it is on, asks for fourteen characters and applies to administrators; a part that cannot be read makes it manual. |
| FortiGate.NtpMeans | app/drivers/fortigate.py:409-417 | Time synchronisation passes if and only if it is on. |
| FortiGate.SnmpMeans | app/drivers/fortigate.py:421-445 | The SNMP status by agent and community list. |
| FortiGate.SyslogMeans | app/drivers/fortigate.py:450-467 | The syslog status: on, covered by FortiAnalyzer, or off. |
| FortiGate.LoggingMeans | app/drivers/fortigate.py:469-504 | Event logging, FortiAnalyzer encryption and automatic installation, in the fields of the replies. |
| FortiGate.AnyLetsIn | app/drivers/fortigate.py:207-215 | The loop over the interfaces finds one that lets in a service it should not, among the WAN interfaces or among all. |
| FortiGate.CheckTrusted | app/drivers/fortigate.py:366-372 | An account is restricted when one of its twenty trusted-host fields is neither blank nor all addresses. |
| FortiGate.NumbersFailSafe | app/drivers/fortigate.py:270-407 | A numeric item is manual when one of its fields is absent or not a number, and passes only with all in range; timeout and lockout pass exactly then. |
| FortiGate.FieldLossIsSafe | app/drivers/fortigate.py:188-504 | Whatever fields vanish from whatever results, the same items are listed and none becomes pass, unless a field named by `Exposed` vanishes. |
| FortiGate.ExposedExactly | app/drivers/fortigate.py:203-381 | And these are exactly the fields that can do it: role and access list of an interface, and the name of an account. |
| FortiGate.SnmpKept | app/drivers/fortigate.py:421-445 | With the agent still read, losing the community list can only make the SNMP item manual. |
| FortiGate.SyslogKept | app/drivers/fortigate.py:450-467 | With syslog still read, its item changes if and only if a FortiAnalyzer that stood in is lost, and then from warn to fail. |
| FortiGate.CatalogueOnce | app/drivers/fortigate.py:72-77 | The catalogue lists every item once. |
| FortiGate.LossIsSafe | app/drivers/fortigate.py:188-504 | As for F5, with one exception: syslog covered by FortiAnalyzer turns from warn to fail, not to manual, if and only if FortiAnalyzer alone is lost. No item becomes pass. |
| FortiGate.StandInLostWitness | app/drivers/fortigate.py:450-467 | Two replies and one lost endpoint on which it does. |
| FortiGate.VisitsAreSilent | app/drivers/fortigate.py:181-183 | Two visits, whatever each of them could read, leave no initial, new or gone rows in the version log the second time. |
| PaloAlto.Inspect | app/drivers/paloalto.py:130-444 | The branches of all sections, with one `add` in every arm, emit every id of the listing once, in order, with the status its element calls for, whatever the replies. |
| PaloAlto.ReportIs | app/drivers/paloalto.py:130-168 | A visit reports if and only if no connection goes down and something can be read, and the report lists every item with its status. |
| PaloAlto.NamesMean | app/drivers/paloalto.py:180-205 | Host name, time zone, banner and permitted addresses, in the texts and entries of the reply; the addresses pass if and only if some are listed and none is every address. |
| PaloAlto.ServicesMean | app/drivers/paloalto.py:206-249 | Telnet, HTTP, time servers, their authentication, and update verification. |
| PaloAlto.SettingMeans | app/drivers/paloalto.py:251-299 | Idle timeout, lockout and high-load logging, with every threshold written out. |
| PaloAlto.PasswordsMean | app/drivers/paloalto.py:304-366 | The nine password items, with every floor written out. |
| PaloAlto.ProfilesMean | app/drivers/paloalto.py:369-379 | A password profile warns, none passes. |
| PaloAlto.UsersMean | app/drivers/paloalto.py:383-399 | More than two superusers warn; an account named `admin` is left to a person. |
| PaloAlto.SnmpMeans | app/drivers/paloalto.py:403-423 | A v2c node fails, an access setting without one passes, none decides nothing. |
| PaloAlto.LogsMean | app/drivers/paloalto.py:427-444 | Log forwarding passes if and only if one of the two places, read, shows one of three elements; manual if and only if neither was read. |
| PaloAlto.CheckServers | app/drivers/paloalto.py:225-236 | The loop over the two time servers finds one that is set and authenticates weakly. |
| PaloAlto.NumbersFailSafe | app/drivers/paloalto.py:254-366 | A numeric element that is absent or not a number never lets its item pass, except the lockout time; an idle timeout, a limit of attempts or a minimum length that is no number makes its item manual. |
| PaloAlto.LockoutPasses | app/drivers/paloalto.py:270-294 | The lockout item passes if and only if the attempts are a number other than zero and the lockout time is not zero, whether it can be read or not. |
| PaloAlto.ElementLossIsSafe | app/drivers/paloalto.py:168-444 | Whatever paths lead nowhere any more, the same items are listed and none becomes pass, unless a path named by `Exposed` does. |
| PaloAlto.ExposedExactly | app/drivers/paloalto.py:217-424 | And these are exactly the paths that can do it: weak time-server authentication and the second server, the lockout time, password profiles, accounts and their superuser flag, and SNMP v2c. |
| PaloAlto.ForwardUnderLoss | app/drivers/paloalto.py:427-444 | Log forwarding under any loss stays, becomes manual, or turns from pass to fail if and only if the place that showed it is lost and the other, still read, shows none. |
| PaloAlto.ListingOnce | app/drivers/paloalto.py:72-86 | Read or missing, the listing holds every item once, in one of two orders. |
| PaloAlto.LossIsSafe | app/drivers/paloalto.py:168-444 | As for F5 up to the order of the password items, with one exception: log forwarding turns from pass to fail, not to manual, if and only if the place that showed it is lost and the other, still read, shows none. No item becomes pass. |
| PaloAlto.ForwardingLostWitness | app/drivers/paloalto.py:427-444 | Two replies and one lost endpoint on which it does. |
| PaloAlto.VisitsAreSilent | app/drivers/paloalto.py:163-166 | Two visits, whatever each of them could read, leave no initial, new or gone rows in the version log the second time. |

## Left out

- SSH, HTTP, LDAP, mail and Telegram traffic, key handling and encryption: calls into other systems.
- Routing, sessions, forms, templates, drawing of lines and bars, CSV export: user interface.
- Resolving a missing family from the operating-system text; it arrives as a parameter, or not at all.
- Host attributes that nothing here reads back: names, addresses, versions, raw output, messages.
- The category of an item in rebuilt views: the code stores it but never compares it.
- Audit log rows, and the one commit around host deletion: batches there are modelled as in the cleanup.
- The 60-second limit between agent reports: check and store are not atomic in the source, so it is no guarantee.
- A crash in the middle of backfill: commits are per host, and only completed runs are specified.
- The thread pool of a tick and its limit of five parallel checks.
- Unicode beyond white space in the block splitter: word characters at the end of a kind are ASCII letters, digits and the underscore.
- The JSON fields around the agent's item array, and surrogate escapes in the reader: the agent writes none.
- The body of the Linux checks, `perm_ok`, and the check catalogue's thresholds: table data and environment probing.
- Trends.HostTrends: the shares of the line are kept as pairs before they are rounded to per cent, because rounding is only for display.
- Mirrored histories after a retention cleanup or the deletion of a host: what these delete is in `Deletion`, and no report history stands behind a half-deleted table.
- Descriptions of driver items, and the version and host texts around the items: text only.
- JSON values of another type than a driver expects in a place where it does not test for it, such as a number for a list, and numeric texts that read as infinity: some of these raise in the source.
- The shape of XML documents: a path is looked up on its own, although one path may lie below another.
- The other drivers (Aruba, FortiAuthenticator, NetApp, NetScaler, vCenter) and the rest of the Cisco driver: single-item rules.
