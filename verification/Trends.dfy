/**
 Figures derived from the runs table: `fail_deltas` of app/routes/logs_routes.py and the
 windows of `host_trends` of app/webutil.py, and how the two agree.
 */
module Trends {
  import opened Queries
  import opened Records
  import opened Store

  // ----- fail_deltas -----

  function HostsListed(runs: seq<CheckRun>): set<int> { set r | r in runs :: r.hostId }

  function SuccessIn(hosts: set<int>): CheckRun -> bool {
    (r: CheckRun) => r.hostId in hosts && r.status.Success?
  }

  function History(runs: seq<CheckRun>, listed: seq<CheckRun>): seq<CheckRun> {
    Where(runs, SuccessIn(HostsListed(listed)))
  }

  function LastFail(hist: seq<CheckRun>, host: int): Option<int> {
    if hist == [] then None
    else
      var n := |hist| - 1;
      if hist[n].hostId == host then Some(hist[n].counts.fail) else LastFail(hist[..n], host)
  }

  function Deltas(hist: seq<CheckRun>): map<int, int> {
    if hist == [] then map[]
    else
      var n := |hist| - 1;
      var r := hist[n];
      var p := LastFail(hist[..n], r.hostId);
      if p.None? then Deltas(hist[..n]) else Deltas(hist[..n])[r.id := r.counts.fail - p.value]
  }

  /** One pass over the interleaved history, remembering the last count of every host. */
  method FailDeltas(runs: seq<CheckRun>, listed: seq<CheckRun>) returns (deltas: map<int, int>)
    ensures deltas == Deltas(History(runs, listed))
  {
    var hist := History(runs, listed);
    deltas := map[];
    var lastByHost: map<int, int> := map[];
    for i := 0 to |hist|
      invariant deltas == Deltas(hist[..i])
      invariant forall h :: LastFail(hist[..i], h) == if h in lastByHost then Some(lastByHost[h]) else None
    {
      var r := hist[i];
      assert hist[..i + 1][..i] == hist[..i];
      assert LastFail(hist[..i], r.hostId) == if r.hostId in lastByHost then Some(lastByHost[r.hostId]) else None;
      if r.hostId in lastByHost {
        deltas := deltas[r.id := r.counts.fail - lastByHost[r.hostId]];
      }
      lastByHost := lastByHost[r.hostId := r.counts.fail];
    }
    assert hist[..|hist|] == hist;
  }

  lemma {:induction false} LastFailIs(hist: seq<CheckRun>, host: int)
    ensures var own := Where(hist, RunOfHost(host));
      LastFail(hist, host) == if own == [] then None else Some(own[|own| - 1].counts.fail)
  {
    if hist != [] { LastFailIs(hist[..|hist| - 1], host); }
  }

  lemma {:induction false} DeltasFromHistory(hist: seq<CheckRun>)
    ensures forall id :: id in Deltas(hist) ==> exists r :: r in hist && r.id == id
  {
    if hist != [] {
      DeltasFromHistory(hist[..|hist| - 1]);
      assert hist == hist[..|hist| - 1] + [hist[|hist| - 1]];
    }
  }

  /** `deltas` holds, for `own`, every step from one run to the next, and nothing for the first. */
  ghost predicate StepsOf(deltas: map<int, int>, own: seq<CheckRun>) {
    && (forall i :: 0 < i < |own| ==>
          own[i].id in deltas && deltas[own[i].id] == own[i].counts.fail - own[i - 1].counts.fail)
    && (own != [] ==> own[0].id !in deltas)
  }

  lemma StepsGrow(deltas: map<int, int>, own: seq<CheckRun>, r: CheckRun, x: int)
    requires StepsOf(deltas, own) && r.id !in deltas
    requires forall i :: 0 <= i < |own| ==> own[i].id != r.id
    ensures StepsOf(deltas[r.id := x], own)
    ensures StepsOf(if own == [] then deltas else deltas[r.id := r.counts.fail - own[|own| - 1].counts.fail], own + [r])
  {
  }

  /** Per host, a delta is the difference to the host's previous success, whatever lies between. */
  lemma {:induction false} DeltasAreSteps(hist: seq<CheckRun>, host: int)
    requires RunsOrdered(hist)
    ensures StepsOf(Deltas(hist), Where(hist, RunOfHost(host)))
  {
    hide StepsOf, Where, Deltas, LastFail;
    if hist == [] {
      NoSteps(host);
    } else {
      var n := |hist| - 1;
      var before, r := hist[..n], hist[n];
      assert hist == before + [r];
      DeltasAreSteps(before, host);
      var own := Where(before, RunOfHost(host));
      var p := LastFail(before, r.hostId);
      WhereMembers(before, RunOfHost(host));
      LastFailIs(before, host);
      OlderIds(before, r);
      forall i | 0 <= i < |own| ensures own[i].id != r.id {
        assert own[i] in before;
      }
      StepsGrow(Deltas(before), own, r, if p.None? then 0 else r.counts.fail - p.value);
      HistoryNext(before, r, host);
    }
  }

  lemma NoSteps(host: int)
    ensures StepsOf(Deltas([]), Where([], RunOfHost(host)))
  {
  }

  lemma HistoryNext(before: seq<CheckRun>, r: CheckRun, host: int)
    ensures var own := Where(before, RunOfHost(host));
      Where(before + [r], RunOfHost(host)) == if r.hostId == host then own + [r] else own
    ensures var p := LastFail(before, r.hostId);
      Deltas(before + [r]) == if p.None? then Deltas(before) else Deltas(before)[r.id := r.counts.fail - p.value]
  {
  }

  lemma OlderIds(before: seq<CheckRun>, r: CheckRun)
    requires RunsOrdered(before + [r])
    ensures forall x :: x in before ==> x.id != r.id
    ensures r.id !in Deltas(before)
  {
    hide Deltas;
    DeltasFromHistory(before);
    var all := before + [r];
    forall x | x in before ensures x.id != r.id {
      var i :| 0 <= i < |before| && before[i] == x;
      assert all[i].id < all[|before|].id;
    }
  }

  lemma OwnHistory(runs: seq<CheckRun>, listed: seq<CheckRun>, host: int)
    requires host in HostsListed(listed)
    ensures Where(History(runs, listed), RunOfHost(host)) == Where(runs, SuccessOf(host))
  {
    WhereWhere(runs, SuccessIn(HostsListed(listed)), RunOfHost(host), SuccessOf(host));
  }

  function StepSeq(deltas: map<int, int>, own: seq<CheckRun>): seq<int>
    requires StepsOf(deltas, own)
  {
    if own == [] then [] else seq(|own| - 1, i requires 0 <= i < |own| - 1 => deltas[own[i + 1].id])
  }

  lemma {:induction false} Telescope(xs: seq<int>, steps: seq<int>)
    requires xs != [] && |steps| == |xs| - 1
    requires forall i :: 0 <= i < |steps| ==> steps[i] == xs[i + 1] - xs[i]
    ensures Sum(steps) == xs[|xs| - 1] - xs[0]
  {
    if steps != [] { Telescope(xs[..|xs| - 1], steps[..|steps| - 1]); }
  }

  function Fails(own: seq<CheckRun>): seq<int> { Collect(own, (r: CheckRun) => r.counts.fail) }

  lemma StepsTelescope(deltas: map<int, int>, own: seq<CheckRun>)
    requires own != [] && StepsOf(deltas, own)
    ensures Sum(StepSeq(deltas, own)) == own[|own| - 1].counts.fail - own[0].counts.fail
  {
    hide Sum;
    Telescope(Fails(own), StepSeq(deltas, own));
  }

  /**
   Over any interleaving of hosts, the deltas of a listed host are the steps of its own
   successful runs; they add up to its last count less its first, and its first run has none.
   */
  lemma DeltasTelescope(runs: seq<CheckRun>, listed: seq<CheckRun>, host: int)
    requires RunsOrdered(runs) && exists r :: r in listed && r.hostId == host
    ensures var own := Where(runs, SuccessOf(host));
      && var deltas := Deltas(History(runs, listed));
      && StepsOf(deltas, own)
      && (own != [] ==> Sum(StepSeq(deltas, own)) == own[|own| - 1].counts.fail - own[0].counts.fail)
  {
    hide Where, Deltas, StepSeq;
    var hist := History(runs, listed);
    SelectedOrdered(runs, SuccessIn(HostsListed(listed)));
    DeltasAreSteps(hist, host);
    OwnHistory(runs, listed, host);
    var own := Where(runs, SuccessOf(host));
    if own != [] { StepsTelescope(Deltas(hist), own); }
  }

  // ----- host_trends -----

  function NewerSuccess(r: CheckRun): CheckRun -> bool {
    (x: CheckRun) => x.hostId == r.hostId && x.status.Success? && x.id > r.id
  }

  /** `row_number() over (partition by host order by id desc) <= limit + 1`. */
  function InWindow(runs: seq<CheckRun>, limit: nat): CheckRun -> bool {
    (r: CheckRun) => r.status.Success? && 1 + |Where(runs, NewerSuccess(r))| <= limit + 1
  }

  predicate HasSignal(r: CheckRun) { r.counts.pass + r.counts.fail != 0 }
  function Signal(): CheckRun -> bool { (r: CheckRun) => HasSignal(r) }
  function SignalOf(host: int): CheckRun -> bool { (r: CheckRun) => r.hostId == host && HasSignal(r) }
  function PassShare(): CheckRun -> (nat, nat) { (r: CheckRun) => (r.counts.pass, r.counts.pass + r.counts.fail) }

  /** Python's `xs[-n:]`. */
  function LastOf<T>(xs: seq<T>, n: nat): seq<T> { if n == 0 || |xs| <= n then xs else xs[|xs| - n..] }

  /** How much better each entry is than the one before it. */
  function Improvements(fails: seq<int>): seq<int> {
    if |fails| < 2 then [] else seq(|fails| - 1, i requires 0 <= i < |fails| - 1 => fails[i] - fails[i + 1])
  }

  function WindowRows(runs: seq<CheckRun>, limit: nat): seq<CheckRun> { Where(runs, InWindow(runs, limit)) }

  /** A dictionary of lists holds `own` under the key, or nothing when `own` is empty. */
  ghost predicate Holds<T>(series: map<int, seq<T>>, key: int, own: seq<T>) {
    if own == [] then key !in series else key in series && series[key] == own
  }

  function Shares(own: seq<CheckRun>): seq<(nat, nat)> { Collect(own, PassShare()) }

  /** The dictionaries `host_trends` fills: a series for every host that has a run with signal. */
  ghost predicate IsSeries(rows: seq<CheckRun>, shares: map<int, seq<(nat, nat)>>, fails: map<int, seq<int>>) {
    forall h :: SeriesAt(rows, shares, fails, h)
  }

  ghost predicate SeriesAt(rows: seq<CheckRun>, shares: map<int, seq<(nat, nat)>>, fails: map<int, seq<int>>, h: int) {
    Holds(shares, h, Shares(Where(rows, SignalOf(h)))) && Holds(fails, h, Fails(Where(rows, SignalOf(h))))
  }

  /** `series.setdefault(key, []).append(x)` */
  function Appended<T>(series: map<int, seq<T>>, key: int, x: T): map<int, seq<T>> {
    series[key := (if key in series then series[key] else []) + [x]]
  }

  lemma AppendedHolds<T>(series: map<int, seq<T>>, key: int, x: T, other: int, own: seq<T>)
    requires Holds(series, other, own)
    ensures Holds(Appended(series, key, x), other, if other == key then own + [x] else own)
  {
  }

  lemma SignalNext(rows: seq<CheckRun>, r: CheckRun, h: int)
    ensures var own := Where(rows, SignalOf(h));
      var next := Where(rows + [r], SignalOf(h));
      if SignalOf(h)(r) then
        next == own + [r] && Shares(next) == Shares(own) + [PassShare()(r)] && Fails(next) == Fails(own) + [r.counts.fail]
      else next == own
  {
  }

  lemma SeriesNext(rows: seq<CheckRun>, r: CheckRun, shares: map<int, seq<(nat, nat)>>, fails: map<int, seq<int>>)
    requires IsSeries(rows, shares, fails)
    ensures !HasSignal(r) ==> IsSeries(rows + [r], shares, fails)
    ensures HasSignal(r) ==>
      IsSeries(rows + [r], Appended(shares, r.hostId, PassShare()(r)), Appended(fails, r.hostId, r.counts.fail))
  {
    hide SeriesAt, Appended, HasSignal;
    forall h
      ensures !HasSignal(r) ==> SeriesAt(rows + [r], shares, fails, h)
      ensures HasSignal(r) ==>
        SeriesAt(rows + [r], Appended(shares, r.hostId, PassShare()(r)), Appended(fails, r.hostId, r.counts.fail), h)
    {
      SeriesNextAt(rows, r, shares, fails, h);
    }
  }

  lemma SeriesNextAt(rows: seq<CheckRun>, r: CheckRun, shares: map<int, seq<(nat, nat)>>, fails: map<int, seq<int>>,
                     h: int)
    requires SeriesAt(rows, shares, fails, h)
    ensures !HasSignal(r) ==> SeriesAt(rows + [r], shares, fails, h)
    ensures HasSignal(r) ==>
      SeriesAt(rows + [r], Appended(shares, r.hostId, PassShare()(r)), Appended(fails, r.hostId, r.counts.fail), h)
  {
    hide Where, Shares, Fails, Appended, Holds, HasSignal;
    SignalNext(rows, r, h);
    AppendedHolds(shares, r.hostId, PassShare()(r), h, Shares(Where(rows, SignalOf(h))));
    AppendedHolds(fails, r.hostId, r.counts.fail, h, Fails(Where(rows, SignalOf(h))));
  }

  /** How many of `n` entries are left when the last `limit` are kept; a limit of zero keeps all. */
  ghost function Left(n: nat, limit: nat): nat { if limit == 0 || n <= limit then n else limit }

  /**
   What is drawn for a host, given its runs `own`: pass and pass plus fail of its last runs, and
   how many fails fewer each of the last ones has than the run before it.
   */
  ghost predicate Drawn(own: seq<CheckRun>, limit: nat, sparks: map<int, seq<(nat, nat)>>, changes: map<int, seq<int>>,
                        h: int)
  {
    && (h in sparks <==> own != []) && (h in changes <==> |own| >= 2)
    && (h in sparks ==>
          var n := Left(|own|, limit);
          && |sparks[h]| == n
          && forall k :: 0 <= k < n ==>
               var r := own[|own| - n + k];
               sparks[h][k] == (r.counts.pass, r.counts.pass + r.counts.fail))
    && (h in changes && |own| >= 2 ==>
          var n := Left(|own| - 1, limit);
          && |changes[h]| == n
          && forall k :: 0 <= k < n ==>
               changes[h][k] == own[|own| - 1 - n + k].counts.fail - own[|own| - n + k].counts.fail)
  }

  lemma DrawnIs(own: seq<CheckRun>, limit: nat, sparks: map<int, seq<(nat, nat)>>, changes: map<int, seq<int>>, h: int)
    requires h in sparks <==> own != []
    requires h in sparks ==> sparks[h] == LastOf(Shares(own), limit)
    requires h in changes <==> |own| >= 2
    requires h in changes ==> changes[h] == LastOf(Improvements(Fails(own)), limit)
    ensures Drawn(own, limit, sparks, changes, h)
  {
    hide LastOf, Shares, Improvements, Fails, Left;
    LastShares(own, limit);
    if |own| >= 2 { LastBars(own, limit); }
  }

  lemma LastIs<T>(xs: seq<T>, limit: nat)
    ensures var n := Left(|xs|, limit);
      |LastOf(xs, limit)| == n && forall k :: 0 <= k < n ==> LastOf(xs, limit)[k] == xs[|xs| - n + k]
  {
  }

  lemma LastShares(own: seq<CheckRun>, limit: nat)
    ensures var xs, n := LastOf(Shares(own), limit), Left(|own|, limit);
      && |xs| == n <= |own|
      && forall k :: 0 <= k < n ==>
           var r := own[|own| - n + k];
           xs[k] == (r.counts.pass, r.counts.pass + r.counts.fail)
  {
    hide LastOf;
    LastIs(Shares(own), limit);
  }

  lemma LastBars(own: seq<CheckRun>, limit: nat)
    requires |own| >= 2
    ensures var xs, n := LastOf(Improvements(Fails(own)), limit), Left(|own| - 1, limit);
      && |xs| == n <= |own| - 1
      && forall k :: 0 <= k < n ==> xs[k] == own[|own| - 1 - n + k].counts.fail - own[|own| - n + k].counts.fail
  {
    hide LastOf;
    var bars := Improvements(Fails(own));
    ImprovementCount(Fails(own));
    LastIs(bars, limit);
    forall i | 0 <= i < |own| - 1 ensures bars[i] == own[i].counts.fail - own[i + 1].counts.fail {
      assert Fails(own)[i] == own[i].counts.fail && Fails(own)[i + 1] == own[i + 1].counts.fail;
    }
  }

  /**
   The runs drawn for a host, in id order: its successes with a pass or a fail among them that
   have at most `limit` newer successes of the host.
   */
  ghost predicate IsOwn(runs: seq<CheckRun>, limit: nat, h: int, own: seq<CheckRun>) {
    && RunsOrdered(own)
    && forall r :: r in own <==>
         && r in runs && r.hostId == h && r.status.Success? && (r.counts.pass != 0 || r.counts.fail != 0)
         && |NewerPlaces(runs, h, r.id)| <= limit
  }

  ghost function NewerPlaces(runs: seq<CheckRun>, h: int, id: int): set<int> {
    set i | 0 <= i < |runs| && runs[i].hostId == h && runs[i].status.Success? && runs[i].id > id
  }

  lemma OwnIs(runs: seq<CheckRun>, limit: nat, h: int)
    requires RunsOrdered(runs)
    ensures IsOwn(runs, limit, h, Where(WindowRows(runs, limit), SignalOf(h)))
  {
    hide Where, RunsOrdered, NewerPlaces;
    SelectedOrdered(runs, InWindow(runs, limit));
    SelectedOrdered(WindowRows(runs, limit), SignalOf(h));
    WhereMembers(runs, InWindow(runs, limit));
    WhereMembers(WindowRows(runs, limit), SignalOf(h));
    forall r: CheckRun ensures |Where(runs, NewerSuccess(r))| == |NewerPlaces(runs, r.hostId, r.id)| {
      WhereCounts(runs, NewerSuccess(r));
      SamePlaces(runs, r);
    }
  }

  lemma SamePlaces(runs: seq<CheckRun>, r: CheckRun)
    ensures Places(runs, NewerSuccess(r)) == NewerPlaces(runs, r.hostId, r.id)
  {
  }

  /**
   The dictionaries of `host_trends`: for each host the shares drawn as a line (pass out of
   pass plus fail, not yet rounded to per cent) and the improvements drawn as bars.
   */
  method HostTrends(runs: seq<CheckRun>, limit: nat)
    returns (sparks: map<int, seq<(nat, nat)>>, changes: map<int, seq<int>>)
    ensures forall h :: h in sparks <==> Where(WindowRows(runs, limit), SignalOf(h)) != []
    ensures forall h :: h in sparks ==>
      sparks[h] == LastOf(Shares(Where(WindowRows(runs, limit), SignalOf(h))), limit)
    ensures forall h :: h in changes <==> |Where(WindowRows(runs, limit), SignalOf(h))| >= 2
    ensures forall h :: h in changes ==>
      changes[h] == LastOf(Improvements(Fails(Where(WindowRows(runs, limit), SignalOf(h)))), limit)
    ensures forall h :: Drawn(Where(WindowRows(runs, limit), SignalOf(h)), limit, sparks, changes, h)
  {
    hide Drawn;
    hide Where, InWindow, NewerSuccess, Improvements, WindowRows;
    var rows := WindowRows(runs, limit);
    var shares: map<int, seq<(nat, nat)>> := map[];
    var fails: map<int, seq<int>> := map[];
    EmptySeries();
    for i := 0 to |rows|
      invariant IsSeries(rows[..i], shares, fails)
    {
      hide IsSeries;
      var r := rows[i];
      assert rows[..i + 1] == rows[..i] + [r];
      SeriesNext(rows[..i], r, shares, fails);
      if r.counts.pass + r.counts.fail == 0 {
        continue;
      }
      var share, fail := (r.counts.pass, r.counts.pass + r.counts.fail), r.counts.fail;
      shares := Appended(shares, r.hostId, share);
      fails := Appended(fails, r.hostId, fail);
    }
    assert rows[..|rows|] == rows;
    forall h
      ensures h in shares <==> Where(rows, SignalOf(h)) != []
      ensures h in fails <==> Where(rows, SignalOf(h)) != []
      ensures h in shares ==> shares[h] == Shares(Where(rows, SignalOf(h)))
      ensures h in fails ==> fails[h] == Fails(Where(rows, SignalOf(h)))
    {
      assert SeriesAt(rows, shares, fails, h);
    }
    sparks := map h | h in shares :: LastOf(shares[h], limit);
    forall h | h in fails ensures Improvements(fails[h]) != [] <==> |fails[h]| >= 2 {
      ImprovementCount(fails[h]);
    }
    changes := map h | h in fails && Improvements(fails[h]) != [] :: LastOf(Improvements(fails[h]), limit);
    forall h ensures Drawn(Where(rows, SignalOf(h)), limit, sparks, changes, h) {
      DrawnIs(Where(rows, SignalOf(h)), limit, sparks, changes, h);
    }
  }

  lemma EmptySeries()
    ensures IsSeries([], map[], map[])
  {
  }

  lemma ImprovementCount(fails: seq<int>)
    ensures |Improvements(fails)| == if fails == [] then 0 else |fails| - 1
  {
  }

  // ----- the window, and how the two figures agree -----

  lemma NewerAre(runs: seq<CheckRun>, host: int, i: nat)
    requires RunsOrdered(runs) && i < |Where(runs, SuccessOf(host))|
    ensures var own := Where(runs, SuccessOf(host));
      Where(runs, NewerSuccess(own[i])) == own[i + 1..]
  {
    var own := Where(runs, SuccessOf(host));
    SelectedOrdered(runs, SuccessOf(host));
    WhereMembers(runs, SuccessOf(host));
    assert own[i] in own;
    var later := (x: CheckRun) => x.id > own[i].id;
    WhereWhere(runs, SuccessOf(host), later, NewerSuccess(own[i]));
    SelectedSuffix(own, later, i + 1);
  }

  /** The ranked query keeps, per host, exactly the last `limit + 1` successful runs. */
  lemma WindowIsSuffix(runs: seq<CheckRun>, limit: nat, host: int)
    requires RunsOrdered(runs)
    ensures Where(WindowRows(runs, limit), RunOfHost(host)) == LastOf(Where(runs, SuccessOf(host)), limit + 1)
  {
    hide Where, RunsOrdered;
    var own := Where(runs, SuccessOf(host));
    var both := (r: CheckRun) => r.hostId == host && InWindow(runs, limit)(r);
    WhereWhere(runs, InWindow(runs, limit), RunOfHost(host), both);
    WhereWhere(runs, SuccessOf(host), InWindow(runs, limit), both);
    var k := if |own| <= limit + 1 then 0 else |own| - (limit + 1);
    WhereMembers(runs, SuccessOf(host));
    forall j | 0 <= j < |own| ensures InWindow(runs, limit)(own[j]) <==> j >= k {
      NewerAre(runs, host, j);
      assert own[j] in own;
    }
    SelectedSuffix(own, InWindow(runs, limit), k);
  }

  function Window(runs: seq<CheckRun>, limit: nat, host: int): seq<CheckRun> {
    LastOf(Where(runs, SuccessOf(host)), limit + 1)
  }

  lemma SignalRows(runs: seq<CheckRun>, limit: nat, host: int)
    requires RunsOrdered(runs)
    ensures Where(WindowRows(runs, limit), SignalOf(host)) == Where(Window(runs, limit, host), Signal())
  {
    WindowIsSuffix(runs, limit, host);
    WhereWhere(WindowRows(runs, limit), RunOfHost(host), Signal(), SignalOf(host));
  }

  lemma {:induction false} SelectedFewer(rows: seq<CheckRun>, p: CheckRun -> bool)
    ensures |Where(rows, p)| <= |rows|
    ensures |Where(rows, p)| == |rows| <==> forall r :: r in rows ==> p(r)
  {
    if rows != [] {
      var n := |rows| - 1;
      SelectedFewer(rows[..n], p);
      assert rows == rows[..n] + [rows[n]];
      if |Where(rows, p)| == |rows| {
        assert p(rows[n]);
      } else if p(rows[n]) {
        var r :| r in rows[..n] && !p(r);
        assert r in rows;
      } else {
        assert rows[n] in rows;
      }
    }
  }

  /** The steps of a host's window according to `fail_deltas`, with their signs turned. */
  function Negated(deltas: map<int, int>, window: seq<CheckRun>): seq<int>
    requires forall i :: 0 < i < |window| ==> window[i].id in deltas
  {
    if |window| < 2 then [] else seq(|window| - 1, i requires 0 <= i < |window| - 1 => -deltas[window[i + 1].id])
  }

  /**
   The bars of a host are the negatives of its fail deltas exactly when no run in its window
   has zero signal (or the window holds no step at all). They are never cut by `[-limit:]`.
   */
  lemma TrendsNegateDeltas(runs: seq<CheckRun>, listed: seq<CheckRun>, limit: nat, host: int)
    requires RunsOrdered(runs) && exists r :: r in listed && r.hostId == host
    ensures var window := Window(runs, limit, host);
      && var deltas := Deltas(History(runs, listed));
      && var bars := Improvements(Fails(Where(WindowRows(runs, limit), SignalOf(host))));
      && (forall i :: 0 < i < |window| ==> window[i].id in deltas)
      && LastOf(bars, limit) == bars
      && (bars == Negated(deltas, window) <==> |window| < 2 || forall r :: r in window ==> HasSignal(r))
  {
    hide Where, Deltas, History, Improvements, Negated, WindowRows, HasSignal, RunsOrdered, StepsOf, LastOf, StepSeq;
    var window := Window(runs, limit, host);
    var deltas := Deltas(History(runs, listed));
    DeltasTelescope(runs, listed, host);
    SignalRows(runs, limit, host);
    SelectedFewer(window, Signal());
    SuffixSteps(deltas, Where(runs, SuccessOf(host)), limit + 1);
    BarsAre(window, deltas);
    ImprovementCount(Fails(Where(window, Signal())));
    WindowSize(Where(runs, SuccessOf(host)), limit + 1);
    Uncut(Improvements(Fails(Where(window, Signal()))), limit);
  }

  lemma Uncut<T>(xs: seq<T>, n: nat)
    requires |xs| <= n
    ensures LastOf(xs, n) == xs
  {
  }

  lemma WindowSize<T>(xs: seq<T>, n: nat)
    ensures n > 0 ==> |LastOf(xs, n)| <= n
  {
  }

  lemma SuffixSteps(deltas: map<int, int>, own: seq<CheckRun>, n: nat)
    requires StepsOf(deltas, own)
    ensures var window := LastOf(own, n);
      forall i :: 0 < i < |window| ==>
        window[i].id in deltas && deltas[window[i].id] == window[i].counts.fail - window[i - 1].counts.fail
  {
  }

  lemma BarsAre(window: seq<CheckRun>, deltas: map<int, int>)
    requires forall i :: 0 < i < |window| ==>
      window[i].id in deltas && deltas[window[i].id] == window[i].counts.fail - window[i - 1].counts.fail
    ensures var bars := Improvements(Fails(Where(window, Signal())));
      bars == Negated(deltas, window) <==> |window| < 2 || forall r :: r in window ==> HasSignal(r)
  {
    hide Where, HasSignal;
    SelectedFewer(window, Signal());
    var kept := Where(window, Signal());
    ImprovementCount(Fails(kept));
    if forall r :: r in window ==> Signal()(r) {
      WhereAll(window, Signal());
      NegatedSteps(window, deltas);
    } else {
      assert |kept| < |window|;
    }
  }

  lemma NegatedSteps(window: seq<CheckRun>, deltas: map<int, int>)
    requires forall i :: 0 < i < |window| ==>
      window[i].id in deltas && deltas[window[i].id] == window[i].counts.fail - window[i - 1].counts.fail
    ensures Improvements(Fails(window)) == Negated(deltas, window)
  {
  }
}
