/**
 Alerts of one host over its whole life. Reports, failed checks, silent force-closes and
 offline checks act on the host's summary row, and an alert is sent on some of them.
 */
module Alerts {
  import opened Queries
  import opened Records
  import opened Store
  import opened Checker

  datatype Event =
    | Report(now: int, alertOnRecovery: bool)   // save_report
    | Failure(now: int)                         // _finish_failed
    | ForceClose                                // _fail_running_runs
    | OfflineCheck(cutoff: int)                 // _agent_offline_check with a positive limit

  datatype Notice = Quiet | FailureAlert | RecoveryNotice | OfflineAlert

  predicate GoesOffline(h: Host, cutoff: int) {
    h.mode.AgentMode? && h.enabled && !h.offlineAlerted && h.lastCheckedAt.Some? && h.lastCheckedAt.value < cutoff
  }

  function After(h: Host, e: Event): Host {
    match e
    case Report(now, _) => Recovered(h, now)
    case Failure(now) => MarkFailed(h, now)
    case ForceClose => ForceClosed(h)
    case OfflineCheck(cutoff) => if GoesOffline(h, cutoff) then h.(offlineAlerted := true) else h
  }

  function NoticeOf(h: Host, e: Event): Notice {
    match e
    case Report(_, alertOn) =>
      if alertOn && (h.lastRunStatus.LastFailed? || h.offlineAlerted) then RecoveryNotice else Quiet
    case Failure(_) => if h.lastRunStatus.LastFailed? then Quiet else FailureAlert
    case ForceClose => Quiet
    case OfflineCheck(cutoff) => if GoesOffline(h, cutoff) then OfflineAlert else Quiet
  }

  function HostAfter(h: Host, events: seq<Event>): Host {
    if events == [] then h else After(HostAfter(h, events[..|events| - 1]), events[|events| - 1])
  }

  /** The notice sent on the i-th event of a life. */
  function NoticeAt(h: Host, events: seq<Event>, i: nat): Notice
    requires i < |events|
  {
    NoticeOf(HostAfter(h, events[..i]), events[i])
  }

  lemma HostNext(h: Host, events: seq<Event>, i: nat)
    requires i < |events|
    ensures HostAfter(h, events[..i + 1]) == After(HostAfter(h, events[..i]), events[i])
  {
    assert events[..i + 1][..i] == events[..i];
  }

  /** Some event before the i-th one is of the given kind, and no report came after it. */
  ghost predicate SinceReport(events: seq<Event>, i: nat, kind: nat -> bool)
    requires i <= |events|
  {
    exists k :: 0 <= k < i && kind(k) && forall m :: k < m < i ==> !events[m].Report?
  }

  predicate NoReport(events: seq<Event>, i: nat)
    requires i <= |events|
  {
    forall m :: 0 <= m < i ==> !events[m].Report?
  }

  lemma SinceNext(events: seq<Event>, i: nat, kind: nat -> bool)
    requires i < |events|
    ensures SinceReport(events, i + 1, kind) <==> kind(i) || (!events[i].Report? && SinceReport(events, i, kind))
    ensures NoReport(events, i + 1) <==> NoReport(events, i) && !events[i].Report?
  {
    if SinceReport(events, i + 1, kind) && !kind(i) {
      var k :| 0 <= k < i + 1 && kind(k) && forall m :: k < m < i + 1 ==> !events[m].Report?;
      assert k < i && !events[i].Report?;
    }
    if !events[i].Report? && SinceReport(events, i, kind) {
      var k :| 0 <= k < i && kind(k) && forall m :: k < m < i ==> !events[m].Report?;
      assert forall m :: k < m < i + 1 ==> !events[m].Report?;
    }
  }

  // ----- failure alerts -----

  /** The k-th event is a failure or a force-close. */
  function Fails(events: seq<Event>): nat -> bool {
    (k: nat) => k < |events| && (events[k].Failure? || events[k].ForceClose?)
  }

  lemma {:induction false} FailedSince(h: Host, events: seq<Event>, i: nat)
    requires i <= |events|
    ensures HostAfter(h, events[..i]).lastRunStatus.LastFailed?
      <==> SinceReport(events, i, Fails(events)) || (h.lastRunStatus.LastFailed? && NoReport(events, i))
  {
    if i > 0 {
      FailedSince(h, events, i - 1);
      HostNext(h, events, i - 1);
      SinceNext(events, i - 1, Fails(events));
    }
  }

  /**
   A failure sends an alert if and only if no failure and no force-close came since the last
   report, nor, when there was none, had the host failed at the start.
   */
  lemma FailureAlertExactly(h: Host, events: seq<Event>, i: nat)
    requires i < |events| && events[i].Failure?
    ensures NoticeAt(h, events, i) == FailureAlert
      <==> !SinceReport(events, i, Fails(events)) && !(h.lastRunStatus.LastFailed? && NoReport(events, i))
  {
    FailedSince(h, events, i);
  }

  /** Between two failure alerts for a host there is a successful report. */
  lemma FailureAlertsAlternate(h: Host, events: seq<Event>, i: nat, j: nat)
    requires i < j < |events|
    requires NoticeAt(h, events, i) == FailureAlert && NoticeAt(h, events, j) == FailureAlert
    ensures exists k :: i < k < j && events[k].Report?
  {
    FailureAlertExactly(h, events, j);
    assert Fails(events)(i);
  }

  // ----- offline alerts -----

  lemma {:induction false} StaysOffline(h: Host, events: seq<Event>, i: nat, j: nat)
    requires i <= j <= |events| && HostAfter(h, events[..i]).offlineAlerted
    requires forall k :: i <= k < j ==> !events[k].Report?
    ensures HostAfter(h, events[..j]).offlineAlerted
  {
    if i < j {
      StaysOffline(h, events, i, j - 1);
      HostNext(h, events, j - 1);
    }
  }

  /** Between two offline alerts for a host there is a successful report. */
  lemma OfflineAlertsAlternate(h: Host, events: seq<Event>, i: nat, j: nat)
    requires i < j < |events|
    requires NoticeAt(h, events, i) == OfflineAlert && NoticeAt(h, events, j) == OfflineAlert
    ensures exists k :: i < k < j && events[k].Report?
  {
    HostNext(h, events, i);
    if forall k :: i < k < j ==> !events[k].Report? {
      StaysOffline(h, events, i + 1, j);
    }
  }

  // ----- what an offline check goes by -----

  /** The k-th event writes the host's check time: a report or a recorded failure. */
  predicate Checks(events: seq<Event>, k: nat)
    requires k < |events|
  {
    events[k].Report? || events[k].Failure?
  }

  /** The check time after `i` events: that of the last report or failure, or the one from the start. */
  ghost predicate LastCheckIs(h: Host, events: seq<Event>, i: nat, time: Option<int>)
    requires i <= |events|
  {
    || (exists k :: 0 <= k < i && Checks(events, k) && time == Some(events[k].now)
          && forall m :: k < m < i ==> !Checks(events, m))
    || ((forall m :: 0 <= m < i ==> !Checks(events, m)) && time == h.lastCheckedAt)
  }

  /** Over every life: who the host is never changes, and its check time is that of its last check. */
  lemma {:induction false} LifeKeeps(h: Host, events: seq<Event>, i: nat)
    requires i <= |events|
    ensures var now := HostAfter(h, events[..i]);
      && now.id == h.id && now.mode == h.mode && now.enabled == h.enabled && now.intervalMinutes == h.intervalMinutes
      && LastCheckIs(h, events, i, now.lastCheckedAt)
  {
    if i > 0 {
      LifeKeeps(h, events, i - 1);
      HostNext(h, events, i - 1);
      var before := HostAfter(h, events[..i - 1]).lastCheckedAt;
      if !Checks(events, i - 1) && exists k ::
        && 0 <= k < i - 1 && Checks(events, k) && before == Some(events[k].now)
        && forall m :: k < m < i - 1 ==> !Checks(events, m)
      {
        var k :| 0 <= k < i - 1 && Checks(events, k) && before == Some(events[k].now)
          && forall m :: k < m < i - 1 ==> !Checks(events, m);
        assert forall m :: k < m < i ==> !Checks(events, m);
      }
      assert Checks(events, i - 1) ==> HostAfter(h, events[..i]).lastCheckedAt == Some(events[i - 1].now);
    }
  }

  /** The k-th event marks the host offline. */
  function Marks(h: Host, events: seq<Event>): nat -> bool {
    (k: nat) => k < |events| && NoticeAt(h, events, k) == OfflineAlert
  }

  lemma {:induction false} MarkedSince(h: Host, events: seq<Event>, i: nat)
    requires i <= |events|
    ensures HostAfter(h, events[..i]).offlineAlerted
      <==> SinceReport(events, i, Marks(h, events)) || (h.offlineAlerted && NoReport(events, i))
  {
    if i > 0 {
      MarkedSince(h, events, i - 1);
      HostNext(h, events, i - 1);
      SinceNext(events, i - 1, Marks(h, events));
    }
  }

  /**
   An offline check alerts if and only if the host is an enabled agent that has not been marked
   since its last report, and its last check lies before the cutoff.
   */
  lemma OfflineAlertExactly(h: Host, events: seq<Event>, i: nat)
    requires i < |events| && events[i].OfflineCheck?
    ensures NoticeAt(h, events, i) == OfflineAlert
      <==> h.mode.AgentMode? && h.enabled
           && !SinceReport(events, i, Marks(h, events)) && !(h.offlineAlerted && NoReport(events, i))
           && exists time :: LastCheckIs(h, events, i, Some(time)) && time < events[i].cutoff
  {
    LifeKeeps(h, events, i);
    MarkedSince(h, events, i);
    hide LastCheckIs;
    var last := HostAfter(h, events[..i]).lastCheckedAt;
    forall time | LastCheckIs(h, events, i, time) ensures time == last { OneLastCheck(h, events, i, time, last); }
  }

  lemma OneLastCheck(h: Host, events: seq<Event>, i: nat, a: Option<int>, b: Option<int>)
    requires i <= |events| && LastCheckIs(h, events, i, a) && LastCheckIs(h, events, i, b)
    ensures a == b
  {
    if exists k :: 0 <= k < i && Checks(events, k) {
      var k :| 0 <= k < i && Checks(events, k) && a == Some(events[k].now) && forall m :: k < m < i ==> !Checks(events, m);
      var l :| 0 <= l < i && Checks(events, l) && b == Some(events[l].now) && forall m :: l < m < i ==> !Checks(events, m);
      assert k == l;
    }
  }

  /** A host whose last report or failure is not before the cutoff is left alone. */
  lemma RecentlySeenIsQuiet(h: Host, events: seq<Event>, i: nat, k: nat)
    requires k < i < |events| && events[i].OfflineCheck? && Checks(events, k)
    requires (forall m :: k < m < i ==> !Checks(events, m)) && events[i].cutoff <= events[k].now
    ensures NoticeAt(h, events, i) == Quiet
  {
    LifeKeeps(h, events, i);
    OneLastCheck(h, events, i, Some(events[k].now), HostAfter(h, events[..i]).lastCheckedAt);
  }

  // ----- recovery notices -----

  /** The k-th event is a failure, a force-close or an offline mark. */
  predicate Disturbs(h: Host, events: seq<Event>, k: nat)
    requires k < |events|
  {
    events[k].Failure? || events[k].ForceClose? || NoticeAt(h, events, k) == OfflineAlert
  }

  function Disturbing(h: Host, events: seq<Event>): nat -> bool {
    (k: nat) => k < |events| && Disturbs(h, events, k)
  }

  predicate Disturbed(h: Host) { h.lastRunStatus.LastFailed? || h.offlineAlerted }

  lemma {:induction false} DisturbedSince(h: Host, events: seq<Event>, i: nat)
    requires i <= |events|
    ensures Disturbed(HostAfter(h, events[..i]))
      <==> SinceReport(events, i, Disturbing(h, events)) || (Disturbed(h) && NoReport(events, i))
  {
    if i > 0 {
      DisturbedSince(h, events, i - 1);
      HostNext(h, events, i - 1);
      SinceNext(events, i - 1, Disturbing(h, events));
    }
  }

  /**
   A report sends a recovery notice if and only if notices are on and a failure, a force-close
   or an offline mark came since the last report, or, when there was none, the host was failed
   or offline at the start.
   */
  lemma RecoveryNoticeExactly(h: Host, events: seq<Event>, i: nat)
    requires i < |events| && events[i].Report?
    ensures NoticeAt(h, events, i) == RecoveryNotice
      <==> events[i].alertOnRecovery
           && (SinceReport(events, i, Disturbing(h, events)) || (Disturbed(h) && NoReport(events, i)))
  {
    DisturbedSince(h, events, i);
  }

  /** Between two recovery notices there is a failure, a force-close or an offline mark. */
  lemma RecoveryNoticesAlternate(h: Host, events: seq<Event>, i: nat, j: nat)
    requires i < j < |events|
    requires NoticeAt(h, events, i) == RecoveryNotice && NoticeAt(h, events, j) == RecoveryNotice
    ensures exists k :: i < k < j && Disturbs(h, events, k)
  {
    RecoveryNoticeExactly(h, events, j);
    assert events[i].Report?;
    var k :| 0 <= k < j && Disturbing(h, events)(k) && forall m :: k < m < j ==> !events[m].Report?;
    assert i < k;
  }

  // ----- what silent force-closes change -----

  /** The same life with every force-close left out. */
  function Unforced(h: Host, events: seq<Event>): Host {
    if events == [] then h
    else
      var before, e := Unforced(h, events[..|events| - 1]), events[|events| - 1];
      if e.ForceClose? then before else After(before, e)
  }

  lemma {:induction false} ForcedIsFailed(h: Host, events: seq<Event>)
    ensures var forced, free := HostAfter(h, events), Unforced(h, events);
      && (free.lastRunStatus.LastFailed? ==> forced.lastRunStatus.LastFailed?)
      && forced.(lastRunStatus := free.lastRunStatus) == free
  {
    if events != [] { ForcedIsFailed(h, events[..|events| - 1]); }
  }

  /**
   Compared with the same life without them, force-closes can only suppress a failure alert and
   add a recovery notice; they never add a failure alert and never touch an offline alert.
   */
  lemma ForceClosesOnlySuppress(h: Host, events: seq<Event>, i: nat)
    requires i < |events|
    ensures var with_, without := NoticeAt(h, events, i), NoticeOf(Unforced(h, events[..i]), events[i]);
      && (with_ == FailureAlert ==> without == FailureAlert)
      && (without == RecoveryNotice ==> with_ == RecoveryNotice)
      && (with_ == OfflineAlert <==> without == OfflineAlert)
  {
    ForcedIsFailed(h, events[..i]);
  }

  /**
   A recovery notice needs no alert before it: a healthy host whose runs are only ever closed
   silently gets two recovery notices, without a failure, a failure alert or an offline mark.
   */
  lemma RecoveryWithoutAlert(h: Host)
    requires h.lastRunStatus.LastSuccess? && !h.offlineAlerted
    ensures var life := [ForceClose, Report(1, true), ForceClose, Report(2, true)];
      && NoticeAt(h, life, 0) == Quiet && NoticeAt(h, life, 1) == RecoveryNotice
      && NoticeAt(h, life, 2) == Quiet && NoticeAt(h, life, 3) == RecoveryNotice
  {
    var life := [ForceClose, Report(1, true), ForceClose, Report(2, true)];
    HostNext(h, life, 0);
    HostNext(h, life, 1);
    HostNext(h, life, 2);
  }
}
