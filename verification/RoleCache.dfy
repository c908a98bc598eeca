/**
 Account roles (app/auth.py): `resolve_roles` and its ten-second cache under arbitrary thread
 interleaving. `canon` stands for `.strip().lower()`; every result holds for any such function.
 Clock values are real seconds of the monotonic clock.
 */
module RoleCache {
  import opened Queries

  const ROLE_LABELS: seq<string> := ["full_admin", "readonly"]
  const DEFAULT: string := "readonly"
  const ROLES_TTL: real := 10.0

  datatype Account = Account(username: string, role: string)

  predicate Grants(a: Account, username: string, canon: string -> string) {
    canon(a.username) == canon(username) && a.role in ROLE_LABELS
  }

  function Granted(accounts: seq<Account>, username: string, canon: string -> string): set<string> {
    set a | a in accounts && Grants(a, username, canon) :: a.role
  }

  function LabelOrder(roles: set<string>): seq<string> {
    Where(ROLE_LABELS, (r: string) => r in roles)
  }

  /** `None` for the account table stands for a database error. */
  function Roles(username: string, accounts: Option<seq<Account>>, defaultRole: string, canon: string -> string):
    seq<string>
  {
    var granted := if accounts.None? then {} else Granted(accounts.value, username, canon);
    if username == "admin" then ["full_admin"]
    else if granted != {} then LabelOrder(granted)
    else [if defaultRole in ROLE_LABELS then defaultRole else DEFAULT]
  }

  method ResolveRoles(username: string, accounts: Option<seq<Account>>, defaultRole: string, canon: string -> string)
    returns (list: seq<string>)
    ensures list == Roles(username, accounts, defaultRole, canon)
  {
    if username == "admin" {
      return ["full_admin"];
    }
    var roles: set<string> := {};
    if accounts.Some? {
      for i := 0 to |accounts.value|
        invariant roles == Granted(accounts.value[..i], username, canon)
      {
        var r := accounts.value[i];
        assert accounts.value[..i + 1] == accounts.value[..i] + [r];
        if canon(r.username) == canon(username) && r.role in ROLE_LABELS {
          assert Grants(r, username, canon);
          roles := roles + {r.role};
        }
      }
      assert accounts.value[..|accounts.value|] == accounts.value;
    }
    ghost var granted := roles;
    if roles == {} {
      roles := {if defaultRole in ROLE_LABELS then defaultRole else DEFAULT};
    }
    list := [];
    for i := 0 to |ROLE_LABELS|
      invariant list == Where(ROLE_LABELS[..i], (r: string) => r in roles)
    {
      assert ROLE_LABELS[..i + 1][..i] == ROLE_LABELS[..i];
      if ROLE_LABELS[i] in roles {
        list := list + [ROLE_LABELS[i]];
      }
    }
    assert ROLE_LABELS[..|ROLE_LABELS|] == ROLE_LABELS;
    OrderOf(roles);
  }

  lemma OrderOf(roles: set<string>)
    ensures LabelOrder(roles)
         == (if "full_admin" in roles then ["full_admin"] else []) + (if "readonly" in roles then ["readonly"] else [])
  {
    var p := (r: string) => r in roles;
    assert ROLE_LABELS[..1] == ["full_admin"] && ROLE_LABELS[..1][..0] == [];
    assert Where(ROLE_LABELS[..1], p) == if p("full_admin") then ["full_admin"] else [];
  }

  /** A row of the table gives this login this role. */
  ghost predicate HasRow(accounts: Option<seq<Account>>, username: string, role: string, canon: string -> string) {
    accounts.Some? && exists a :: a in accounts.value && canon(a.username) == canon(username) && a.role == role
  }

  /**
   What the answer means. The built-in account is the administrator; anybody else has the known
   roles that rows of the table give to that name, in the order administrator, read-only; and
   when no row (or no table) gives one, the configured default if it is a known role, else
   read-only.
   */
  lemma RolesMean(username: string, accounts: Option<seq<Account>>, defaultRole: string, canon: string -> string)
    ensures var admin, reader :=
        HasRow(accounts, username, "full_admin", canon), HasRow(accounts, username, "readonly", canon);
      Roles(username, accounts, defaultRole, canon)
      == if username == "admin" then ["full_admin"]
         else if admin && reader then ["full_admin", "readonly"]
         else if admin then ["full_admin"]
         else if reader then ["readonly"]
         else if defaultRole == "full_admin" then ["full_admin"]
         else ["readonly"]
  {
    if accounts.Some? {
      var granted := Granted(accounts.value, username, canon);
      OrderOf(granted);
      forall role | role in ROLE_LABELS ensures role in granted <==> HasRow(accounts, username, role, canon) {
        if a :| a in accounts.value && canon(a.username) == canon(username) && a.role == role {
          assert Grants(a, username, canon);
        }
      }
      assert "full_admin" in ROLE_LABELS && "readonly" in ROLE_LABELS by {
        assert ROLE_LABELS[0] == "full_admin" && ROLE_LABELS[1] == "readonly";
      }
      assert forall r :: r in granted ==> r == "full_admin" || r == "readonly";
      if granted != {} {
        var r :| r in granted;
      }
    }
  }

  /** Rows of other names, added or removed, never change an answer. */
  lemma OthersDoNotMatter(username: string, a: seq<Account>, b: seq<Account>, defaultRole: string, canon: string -> string)
    requires forall x: Account :: canon(x.username) == canon(username) ==> (x in a <==> x in b)
    ensures Roles(username, Some(a), defaultRole, canon) == Roles(username, Some(b), defaultRole, canon)
  {
    hide Roles;
    RolesMean(username, Some(a), defaultRole, canon);
    RolesMean(username, Some(b), defaultRole, canon);
  }

  // ----- the cache, one request at a time -----

  type Entries = map<string, (real, seq<string>)>

  predicate Fresh(entries: Entries, username: string, now: real) {
    username in entries && now - entries[username].0 < ROLES_TTL
  }

  class Cache {
    var entries: Entries

    constructor ()
      ensures entries == map[]
    {
      entries := map[];
    }

    /** `resolve_roles_cached`, undisturbed; `accounts` and `defaultRole` are what it would read. */
    method ResolveRolesCached(username: string, now: real, accounts: Option<seq<Account>>, defaultRole: string,
                              canon: string -> string) returns (roles: seq<string>)
      modifies this
      ensures Fresh(old(entries), username, now) ==> roles == old(entries)[username].1 && entries == old(entries)
      ensures !Fresh(old(entries), username, now) ==>
        roles == Roles(username, accounts, defaultRole, canon) && entries == old(entries)[username := (now, roles)]
    {
      if username in entries && now - entries[username].0 < ROLES_TTL {
        return entries[username].1;
      }
      roles := ResolveRoles(username, accounts, defaultRole, canon);
      entries := entries[username := (now, roles)];
    }
  }

  // ----- the cache under thread interleaving -----

  /** A value in force from `at` until the next version's `at`. */
  datatype Version<T> = Version(at: real, value: T)

  /** Where an answer came from: when its table read began and which versions it used. */
  datatype Source = Source(begun: real, table: Option<nat>, fallback: nat)

  datatype Entry = Entry(at: real, roles: seq<string>, source: Source)

  /** A request in `resolve_roles_cached`; `now` is its clock read. */
  datatype Phase =
    | Asked(user: string, now: real)
    | Reading(user: string, now: real, begun: real)
    | TableRead(user: string, now: real, begun: real, table: Option<nat>)
    | Resolved(user: string, now: real, roles: seq<string>, source: Source)
    | Answered(user: string, now: real, roles: seq<string>, source: Source)

  datatype System = System(
    clock: real,
    tables: seq<Version<seq<Account>>>,
    defaults: seq<Version<string>>,
    cache: map<string, Entry>,
    threads: map<nat, Phase>)

  datatype Step =
    | Tick(seconds: real)
    | EditTable(accounts: seq<Account>)
    | EditDefault(role: string)
    | Ask(t: nat, user: string)
    | Hit(t: nat)
    | Miss(t: nat)
    | ReadTable(t: nat)
    | FailTable(t: nat)   // the query raises
    | ReadDefault(t: nat)
    | Store(t: nat)

  predicate IsHit(s: System, user: string, now: real) {
    user in s.cache && now - s.cache[user].at < ROLES_TTL
  }

  predicate Enabled(s: System, step: Step) {
    match step
    case Tick(seconds) => seconds >= 0.0
    case EditTable(_) => true
    case EditDefault(_) => true
    case Ask(t, _) => t !in s.threads
    case Hit(t) => t in s.threads && s.threads[t].Asked? && IsHit(s, s.threads[t].user, s.threads[t].now)
    case Miss(t) => t in s.threads && s.threads[t].Asked? && !IsHit(s, s.threads[t].user, s.threads[t].now)
    case ReadTable(t) => t in s.threads && s.threads[t].Reading? && s.tables != []
    case FailTable(t) => t in s.threads && s.threads[t].Reading?
    case ReadDefault(t) =>
      && t in s.threads && s.threads[t].TableRead? && s.defaults != []
      && (s.threads[t].table.Some? ==> s.threads[t].table.value < |s.tables|)
    case Store(t) => t in s.threads && s.threads[t].Resolved?
  }

  /** The answer that a source stands for. */
  function AnswerFrom(s: System, user: string, source: Source, canon: string -> string): seq<string>
    requires source.fallback < |s.defaults|
    requires source.table.Some? ==> source.table.value < |s.tables|
  {
    var accounts := if source.table.None? then None else Some(s.tables[source.table.value].value);
    Roles(user, accounts, s.defaults[source.fallback].value, canon)
  }

  function Apply(s: System, step: Step, canon: string -> string): System
    requires Enabled(s, step)
  {
    match step
    case Tick(seconds) => s.(clock := s.clock + seconds)
    case EditTable(accounts) => s.(tables := s.tables + [Version(s.clock, accounts)])
    case EditDefault(role) => s.(defaults := s.defaults + [Version(s.clock, role)])
    case Ask(t, user) => s.(threads := s.threads[t := Asked(user, s.clock)])
    case Hit(t) =>
      var p := s.threads[t];
      var e := s.cache[p.user];
      s.(threads := s.threads[t := Answered(p.user, p.now, e.roles, e.source)])
    case Miss(t) => s.(threads := s.threads[t := Reading(s.threads[t].user, s.threads[t].now, s.clock)])
    case ReadTable(t) =>
      var p := s.threads[t];
      s.(threads := s.threads[t := TableRead(p.user, p.now, p.begun, Some(|s.tables| - 1))])
    case FailTable(t) =>
      var p := s.threads[t];
      s.(threads := s.threads[t := TableRead(p.user, p.now, p.begun, None)])
    case ReadDefault(t) =>
      var p := s.threads[t];
      var source := Source(p.begun, p.table, |s.defaults| - 1);
      s.(threads := s.threads[t := Resolved(p.user, p.now, AnswerFrom(s, p.user, source, canon), source)])
    case Store(t) =>
      var p := s.threads[t];
      // whatever another thread stored meanwhile is overwritten, even a newer entry
      s.(cache := s.cache[p.user := Entry(p.now, p.roles, p.source)],
         threads := s.threads[t := Answered(p.user, p.now, p.roles, p.source)])
  }

  /** Every version that came into force before `begun` is covered by version `k`. */
  ghost predicate Covers<T>(versions: seq<Version<T>>, k: nat, begun: real) {
    k < |versions| && forall j :: k < j < |versions| ==> versions[j].at >= begun
  }

  /** A source used a table read begun at or after `since`, and values no older than that read. */
  ghost predicate Sound(s: System, user: string, since: real, roles: seq<string>, source: Source,
                        canon: string -> string)
  {
    && since <= source.begun <= s.clock
    && (source.table.Some? ==> Covers(s.tables, source.table.value, source.begun))
    && Covers(s.defaults, source.fallback, source.begun)
    && roles == AnswerFrom(s, user, source, canon)
  }

  ghost predicate PhaseOk(s: System, p: Phase, canon: string -> string) {
    match p
    case Asked(_, now) => now <= s.clock
    case Reading(_, now, begun) => now <= begun <= s.clock
    case TableRead(_, now, begun, table) =>
      now <= begun <= s.clock && (table.Some? ==> Covers(s.tables, table.value, begun))
    case Resolved(user, now, roles, source) => now <= s.clock && Sound(s, user, now, roles, source, canon)
    case Answered(user, now, roles, source) =>
      source.begun > now - ROLES_TTL && Sound(s, user, source.begun, roles, source, canon)
  }

  ghost predicate Inv(s: System, canon: string -> string) {
    && s.tables != [] && s.defaults != []
    && (forall t :: t in s.threads ==> PhaseOk(s, s.threads[t], canon))
    && forall user :: user in s.cache ==>
         Sound(s, user, s.cache[user].at, s.cache[user].roles, s.cache[user].source, canon)
  }

  lemma SoundStays(s: System, step: Step, user: string, since: real, roles: seq<string>, source: Source,
                   canon: string -> string)
    requires Enabled(s, step) && Sound(s, user, since, roles, source, canon)
    ensures Sound(Apply(s, step, canon), user, since, roles, source, canon)
  {
  }

  lemma PhaseStep(s: System, step: Step, t: nat, canon: string -> string)
    requires Inv(s, canon) && Enabled(s, step) && t in Apply(s, step, canon).threads
    ensures PhaseOk(Apply(s, step, canon), Apply(s, step, canon).threads[t], canon)
  {
    if t in s.threads {
      assert PhaseOk(s, s.threads[t], canon);
      var p := s.threads[t];
      if p.Resolved? { SoundStays(s, step, p.user, p.now, p.roles, p.source, canon); }
      if p.Answered? { SoundStays(s, step, p.user, p.source.begun, p.roles, p.source, canon); }
      if step == Hit(t) {
        var e := s.cache[p.user];
        SoundStays(s, step, p.user, e.at, e.roles, e.source, canon);
      }
    }
  }

  lemma InvStep(s: System, step: Step, canon: string -> string)
    requires Inv(s, canon) && Enabled(s, step)
    ensures Inv(Apply(s, step, canon), canon)
  {
    hide PhaseOk, Sound;
    var after := Apply(s, step, canon);
    forall t | t in after.threads ensures PhaseOk(after, after.threads[t], canon) {
      PhaseStep(s, step, t, canon);
    }
    forall user | user in after.cache
      ensures Sound(after, user, after.cache[user].at, after.cache[user].roles, after.cache[user].source, canon)
    {
      CacheStep(s, step, user, canon);
    }
  }

  lemma CacheStep(s: System, step: Step, user: string, canon: string -> string)
    requires Inv(s, canon) && Enabled(s, step) && user in Apply(s, step, canon).cache
    ensures var after := Apply(s, step, canon);
      Sound(after, user, after.cache[user].at, after.cache[user].roles, after.cache[user].source, canon)
  {
    if step.Store? && s.threads[step.t].user == user {
      var p := s.threads[step.t];
      assert PhaseOk(s, p, canon);
      SoundStays(s, step, user, p.now, p.roles, p.source, canon);
    } else {
      var e := s.cache[user];
      SoundStays(s, step, user, e.at, e.roles, e.source, canon);
    }
  }

  ghost predicate IsRun(states: seq<System>, steps: seq<Step>, canon: string -> string) {
    && |states| == |steps| + 1
    && states[0].tables != [] && states[0].defaults != []
    && states[0].cache == map[] && states[0].threads == map[]
    && forall i :: 0 <= i < |steps| ==>
         Enabled(states[i], steps[i]) && states[i + 1] == Apply(states[i], steps[i], canon)
  }

  lemma {:induction false} InvRun(states: seq<System>, steps: seq<Step>, canon: string -> string, i: nat)
    requires IsRun(states, steps, canon) && i < |states|
    ensures Inv(states[i], canon)
  {
    if i > 0 {
      InvRun(states, steps, canon, i - 1);
      InvStep(states[i - 1], steps[i - 1], canon);
    }
  }

  /**
   The staleness bound. Under every interleaving of requests and edits, the answer to a request
   whose clock read is `now` comes from a table read begun later than ten seconds before that,
   even when a slow thread overwrote a newer entry with an older one. The answer is what
   `resolve_roles` gives on a table and a default that reflect every edit made at or before
   `now - 10`.
   */
  lemma StalenessBound(states: seq<System>, steps: seq<Step>, canon: string -> string, i: nat, t: nat)
    requires IsRun(states, steps, canon) && i < |states|
    requires t in states[i].threads && states[i].threads[t].Answered?
    ensures var s, p := states[i], states[i].threads[t];
      && p.source.begun > p.now - 10.0
      && p.source.fallback < |s.defaults| && (p.source.table.Some? ==> p.source.table.value < |s.tables|)
      && p.roles == AnswerFrom(s, p.user, p.source, canon)
      && (forall j :: 0 <= j < |s.defaults| && s.defaults[j].at <= p.now - 10.0 ==> j <= p.source.fallback)
      && (p.source.table.Some? ==>
            forall j :: 0 <= j < |s.tables| && s.tables[j].at <= p.now - 10.0 ==> j <= p.source.table.value)
  {
    InvRun(states, steps, canon, i);
    assert PhaseOk(states[i], states[i].threads[t], canon);
  }

  /** The dictionary as a single request sees it. */
  function EntriesOf(s: System): Entries { map u | u in s.cache :: (s.cache[u].at, s.cache[u].roles) }

  /** A request served without interruption, as steps. */
  function Alone(s: System, t: nat, user: string): seq<Step> {
    if IsHit(s, user, s.clock) then [Ask(t, user), Hit(t)]
    else [Ask(t, user), Miss(t), ReadTable(t), ReadDefault(t), Store(t)]
  }

  function After(s: System, steps: seq<Step>, canon: string -> string): Option<System>
    decreases |steps|
  {
    if steps == [] then Some(s)
    else if Enabled(s, steps[0]) then After(Apply(s, steps[0], canon), steps[1..], canon)
    else None
  }

  lemma AfterFirst(s: System, step: Step, rest: seq<Step>, next: System, canon: string -> string)
    requires Enabled(s, step) && Apply(s, step, canon) == next
    ensures After(s, [step] + rest, canon) == After(next, rest, canon)
    ensures After(next, [], canon) == Some(next)
  {
    assert ([step] + rest)[1..] == rest;
  }

  /** What the uninterrupted request read, when it had to. */
  function AloneSource(s: System): Source
    requires s.tables != [] && s.defaults != []
  {
    Source(s.clock, Some(|s.tables| - 1), |s.defaults| - 1)
  }

  function Served(s: System, t: nat, p: Phase): System { s.(threads := s.threads[t := p]) }

  lemma MissSteps(s: System, t: nat, user: string, canon: string -> string)
    requires t !in s.threads && s.tables != [] && !IsHit(s, user, s.clock)
    ensures var s1, s2 := Served(s, t, Asked(user, s.clock)), Served(s, t, Reading(user, s.clock, s.clock));
      && Enabled(s, Ask(t, user)) && Apply(s, Ask(t, user), canon) == s1
      && Enabled(s1, Miss(t)) && Apply(s1, Miss(t), canon) == s2
      && Enabled(s2, ReadTable(t))
      && Apply(s2, ReadTable(t), canon) == Served(s, t, TableRead(user, s.clock, s.clock, Some(|s.tables| - 1)))
  {
  }

  lemma StoreSteps(s: System, t: nat, user: string, canon: string -> string)
    requires s.tables != [] && s.defaults != []
    ensures var source := AloneSource(s);
      var answer := AnswerFrom(s, user, source, canon);
      var s3 := Served(s, t, TableRead(user, s.clock, s.clock, source.table));
      var s4 := Served(s, t, Resolved(user, s.clock, answer, source));
      && Enabled(s3, ReadDefault(t)) && Apply(s3, ReadDefault(t), canon) == s4
      && Enabled(s4, Store(t)) && Apply(s4, Store(t), canon) == Stored(s, t, user, answer, source)
  {
    hide Roles;
  }

  function Stored(s: System, t: nat, user: string, answer: seq<string>, source: Source): System {
    Served(s, t, Answered(user, s.clock, answer, source)).(cache := s.cache[user := Entry(s.clock, answer, source)])
  }

  lemma AloneMisses(s: System, t: nat, user: string, canon: string -> string)
    requires t !in s.threads && s.tables != [] && s.defaults != [] && !IsHit(s, user, s.clock)
    ensures var source := AloneSource(s);
      After(s, Alone(s, t, user), canon) == Some(Stored(s, t, user, AnswerFrom(s, user, source, canon), source))
  {
    hide AnswerFrom, After, Apply, Enabled, Served, Stored;
    var source := AloneSource(s);
    var answer := AnswerFrom(s, user, source, canon);
    var s1, s2 := Served(s, t, Asked(user, s.clock)), Served(s, t, Reading(user, s.clock, s.clock));
    var s3 := Served(s, t, TableRead(user, s.clock, s.clock, source.table));
    var s4 := Served(s, t, Resolved(user, s.clock, answer, source));
    MissSteps(s, t, user, canon);
    StoreSteps(s, t, user, canon);
    AfterFirst(s4, Store(t), [], Stored(s, t, user, answer, source), canon);
    AfterFirst(s3, ReadDefault(t), [Store(t)] + [], s4, canon);
    AfterFirst(s2, ReadTable(t), [ReadDefault(t)] + ([Store(t)] + []), s3, canon);
    AfterFirst(s1, Miss(t), [ReadTable(t)] + ([ReadDefault(t)] + ([Store(t)] + [])), s2, canon);
    var rest := [Miss(t)] + ([ReadTable(t)] + ([ReadDefault(t)] + ([Store(t)] + [])));
    AfterFirst(s, Ask(t, user), rest, s1, canon);
    assert Alone(s, t, user) == [Ask(t, user)] + rest;
  }

  lemma AloneHits(s: System, t: nat, user: string, canon: string -> string)
    requires t !in s.threads && IsHit(s, user, s.clock)
    ensures After(s, Alone(s, t, user), canon)
         == Some(Served(s, t, Answered(user, s.clock, s.cache[user].roles, s.cache[user].source)))
  {
    hide Roles;
    var s1 := Served(s, t, Asked(user, s.clock));
    AfterFirst(s, Ask(t, user), [Hit(t)], s1, canon);
    AfterFirst(s1, Hit(t), [], Served(s, t, Answered(user, s.clock, s.cache[user].roles, s.cache[user].source)), canon);
    assert [Hit(t)] == [Hit(t)] + [] && Alone(s, t, user) == [Ask(t, user)] + [Hit(t)];
  }

  /** The interleaved model, run without interruption, is the plain method. */
  lemma AloneIsThePlainCache(s: System, t: nat, user: string, canon: string -> string)
    requires t !in s.threads && s.tables != [] && s.defaults != []
    ensures var end := After(s, Alone(s, t, user), canon);
      && end.Some? && t in end.value.threads && end.value.threads[t].Answered?
      && var answer := end.value.threads[t].roles;
      && if Fresh(EntriesOf(s), user, s.clock) then
           answer == EntriesOf(s)[user].1 && EntriesOf(end.value) == EntriesOf(s)
         else
           && answer == Roles(user, Some(s.tables[|s.tables| - 1].value), s.defaults[|s.defaults| - 1].value, canon)
           && EntriesOf(end.value) == EntriesOf(s)[user := (s.clock, answer)]
  {
    hide Roles, After;
    if IsHit(s, user, s.clock) { AloneHits(s, t, user, canon); } else { AloneMisses(s, t, user, canon); }
  }

  // ----- answers may go backwards inside the window -----

  const ADMIN_ROW := Account("eve", "full_admin")
  const USER_ROW := Account("eve", "readonly")

  function StoryStep(i: nat): Step {
    match i
    // request 1 reads the old table
    case 0 => Ask(1, "eve")
    case 1 => Miss(1)
    case 2 => ReadTable(1)
    case 3 => ReadDefault(1)
    // the administrator row is replaced, and request 2 reads and caches the new table
    case 4 => Tick(1.0)
    case 5 => EditTable([USER_ROW])
    case 6 => Ask(2, "eve")
    case 7 => Miss(2)
    case 8 => ReadTable(2)
    case 9 => ReadDefault(2)
    case 10 => Store(2)
    // request 1 stores its older answer over it, and request 3 finds that one
    case 11 => Tick(1.0)
    case 12 => Store(1)
    case 13 => Ask(3, "eve")
    case _ => Hit(3)
  }

  function Threads(i: nat): map<nat, Phase> {
    var read := TableRead("eve", 0.0, 0.0, Some(0));
    var older := Resolved("eve", 0.0, ["full_admin"], Source(0.0, Some(0), 0));
    var answer := Source(1.0, Some(1), 0);
    var told := Answered("eve", 1.0, ["readonly"], answer);
    var stored := Answered("eve", 0.0, older.roles, older.source);
    if i == 0 then map[]
    else if i == 1 then map[1 := Asked("eve", 0.0)]
    else if i == 2 then map[1 := Reading("eve", 0.0, 0.0)]
    else if i == 3 then map[1 := read]
    else if i <= 6 then map[1 := older]
    else if i == 7 then map[1 := older, 2 := Asked("eve", 1.0)]
    else if i == 8 then map[1 := older, 2 := Reading("eve", 1.0, 1.0)]
    else if i == 9 then map[1 := older, 2 := TableRead("eve", 1.0, 1.0, Some(1))]
    else if i == 10 then map[1 := older, 2 := Resolved("eve", 1.0, ["readonly"], answer)]
    else if i <= 12 then map[1 := older, 2 := told]
    else if i == 13 then map[1 := stored, 2 := told]
    else if i == 14 then map[1 := stored, 2 := told, 3 := Asked("eve", 2.0)]
    else map[1 := stored, 2 := told, 3 := Answered("eve", 2.0, older.roles, older.source)]
  }

  function Story(i: nat): System {
    var before, after := Version(0.0, [ADMIN_ROW]), Version(1.0, [USER_ROW]);
    var newer := Entry(1.0, ["readonly"], Source(1.0, Some(1), 0));
    var older := Entry(0.0, ["full_admin"], Source(0.0, Some(0), 0));
    System(if i <= 4 then 0.0 else if i <= 11 then 1.0 else 2.0,
           if i <= 5 then [before] else [before, after],
           [Version(0.0, DEFAULT)],
           if i <= 10 then map[] else if i <= 12 then map["eve" := newer] else map["eve" := older],
           Threads(i))
  }

  lemma OneRow(a: Account, canon: string -> string)
    requires a == ADMIN_ROW || a == USER_ROW
    ensures Roles("eve", Some([a]), DEFAULT, canon) == [a.role]
  {
    assert Granted([a], "eve", canon) == {a.role} by {
      assert Grants(a, "eve", canon) && a in [a];
    }
    OrderOf({a.role});
  }

  lemma StoryBegins(i: nat, canon: string -> string)
    requires i < 5
    ensures Enabled(Story(i), StoryStep(i)) && Story(i + 1) == Apply(Story(i), StoryStep(i), canon)
  {
    OneRow(ADMIN_ROW, canon);
    hide Roles;
  }

  lemma StoryOvertakes(i: nat, canon: string -> string)
    requires 5 <= i < 10
    ensures Enabled(Story(i), StoryStep(i)) && Story(i + 1) == Apply(Story(i), StoryStep(i), canon)
  {
    OneRow(USER_ROW, canon);
    hide Roles;
  }

  lemma StoryEnds(i: nat, canon: string -> string)
    requires 10 <= i < 15
    ensures Enabled(Story(i), StoryStep(i)) && Story(i + 1) == Apply(Story(i), StoryStep(i), canon)
  {
    hide Roles;
  }

  /**
   The bound is all there is: request 2, made later than request 1, is told that eve is no
   administrator; then request 1 stores its older answer, and request 3 is told that she is one.
   */
  lemma OlderAnswerAfterNewer(canon: string -> string)
    ensures IsRun(seq(16, i requires 0 <= i < 16 => Story(i)), seq(15, i requires 0 <= i < 15 => StoryStep(i)), canon)
    ensures Story(15).threads[2].Answered? && Story(15).threads[2].roles == ["readonly"]
    ensures Story(15).threads[3].Answered? && Story(15).threads[3].roles == ["full_admin"]
    ensures Story(15).threads[2].now < Story(15).threads[3].now
  {
    forall i | 0 <= i < 15
      ensures Enabled(Story(i), StoryStep(i)) && Story(i + 1) == Apply(Story(i), StoryStep(i), canon)
    {
      if i < 5 { StoryBegins(i, canon); } else if i < 10 { StoryOvertakes(i, canon); } else { StoryEnds(i, canon); }
    }
    hide Enabled, Apply;
  }
}
