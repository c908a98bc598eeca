/**
 The PAN-OS evaluator of app/drivers/paloalto.py: the branches of `inspect`, one `add` for every
 arm, against a reference that judges item by item; what a lost endpoint and what a lost
 element may do.
 */
module PaloAlto {
  import opened Queries
  import opened Records
  import opened VersionLog
  import opened Devices
  import opened Readings

  datatype Endpoint = System | Setting | Users | PwdRules | Snmp | LogSettings | LogShared | PwdProfiles

  const ENDPOINTS: seq<Endpoint> := [System, Setting, Users, PwdRules, Snmp, LogSettings, LogShared, PwdProfiles]

  datatype Server = First | Second

  /** The paths the driver looks up. */
  datatype Path =
    | HostName | TimeZone | Banner | PermittedEntry | TelnetOff | HttpOff | NtpAddress(of: Server) | NtpNone(of: Server)
    | NtpMd5(of: Server) | ServerVerification | IdleTime | FailedAttempts | LockoutTime | LogHigh | Switch | MinLength
    | MinUpper | MinLower | MinNumeric | MinSpecial | DiffersBy | HistoryCount | ExpiryDays | ProfileEntry | UserEntry
    | SuperuserFlag | SnmpAccess | SnmpV2cNode | SendSyslog | SyslogEntry | SyslogNode

  datatype Entry = Entry(name: Option<string>, texts: map<Path, string>)

  /** An element, known by what `find`, `findtext` and `findall` answer for the paths asked. */
  datatype Element = Element(texts: map<Path, string>, entries: map<Path, seq<Entry>>) {
    function Find(p: Path): Option<string> { if p in texts then Some(texts[p]) else None }
    function TextAt(p: Path): string { if p in texts then texts[p] else "" }
    function All(p: Path): seq<Entry> { if p in entries then entries[p] else [] }

    /** `to_int(findtext(p))` */
    function Number(p: Path, py: Python): Option<int> { if p in texts then ToInt(Text(texts[p]), py) else None }
  }

  datatype ItemId =
    | Hostname | Timezone | LoginBanner | PermittedIp | DisableTelnet | DisableHttp | NtpServers | NtpAuth | UpdateVerify
    | IdleTimeout | Lockout | LogHighDp | PwdComplexity | PwdMinLen | PwdUppercase | PwdLowercase | PwdNumeric
    | PwdSpecial | PwdExpiry | PwdDiffers | PwdHistory | Profiles | Superuser | AdminDefault | SnmpV2c | LogForward

  /** A successful reply holds the `result` element, if there is one. */
  type Data = map<Endpoint, Option<Element>>

  /** `data.get(key)` */
  function Res(data: Data, key: Endpoint): Option<Element> { if key in data then data[key] else None }

  /** `_GROUP_IDS`: what has to be filled in when an endpoint could not be read. */
  function GroupIds(key: Endpoint): seq<ItemId> {
    match key
    case System => NAMES + SERVICES
    case Setting => [IdleTimeout, Lockout, LogHighDp]
    case PwdRules => CHARACTERS + [PwdExpiry, PwdDiffers, PwdHistory]
    case Users => [Superuser, AdminDefault]
    case Snmp => [SnmpV2c]
    case LogSettings => [LogForward]
    case LogShared => []
    case PwdProfiles => [Profiles]
  }

  const NAMES: seq<ItemId> := [Hostname, Timezone, LoginBanner, PermittedIp]
  const SERVICES: seq<ItemId> := [DisableTelnet, DisableHttp, NtpServers, NtpAuth, UpdateVerify]
  const CHARACTERS: seq<ItemId> := [PwdComplexity, PwdMinLen, PwdUppercase, PwdLowercase, PwdNumeric, PwdSpecial]

  /** When the password rules are read, the expiry comes last instead. */
  function PasswordIds(read: bool): seq<ItemId> {
    if read then CHARACTERS + [PwdDiffers, PwdHistory, PwdExpiry] else GroupIds(PwdRules)
  }

  const FIRST: seq<ItemId> := GroupIds(System) + GroupIds(Setting)
  const LAST: seq<ItemId> := GroupIds(PwdProfiles) + GroupIds(Users) + GroupIds(Snmp) + GroupIds(LogSettings)

  /** Every item, in the order in which a report lists them. */
  function Listing(passwordsRead: bool): seq<ItemId> { FIRST + PasswordIds(passwordsRead) + LAST }

  function KeyOf(id: ItemId): Endpoint {
    match id
    case IdleTimeout | Lockout | LogHighDp => Setting
    case PwdComplexity | PwdMinLen | PwdUppercase | PwdLowercase | PwdNumeric | PwdSpecial => PwdRules
    case PwdExpiry | PwdDiffers | PwdHistory => PwdRules
    case Superuser | AdminDefault => Users
    case SnmpV2c => Snmp
    case LogForward => LogSettings
    case Profiles => PwdProfiles
    case _ => System
  }

  // ----- the reference: one item, one element -----

  const YES := Some("yes")

  predicate Unrestricted(e: Entry) { e.name in [Some("0.0.0.0/0"), Some("::/0")] }

  /** A time server is set, and its authentication is switched off or broken. */
  predicate WeakServer(e: Element, s: Server) {
    e.TextAt(NtpAddress(s)) != "" && (NtpNone(s) in e.texts || NtpMd5(s) in e.texts)
  }

  function ServersStatus(first: string, second: string): Status {
    if first == "" then Fail else if second == "" then Warn else Pass
  }

  function IdleStatus(raw: Option<string>, minutes: Option<int>): Status {
    if raw.None? then Fail
    else if minutes.None? then Manual
    else PassIf(minutes.value != 0 && minutes.value <= 10)
  }

  function LockoutStatus(raw: Option<string>, attempts: Option<int>, time: Option<int>): Status {
    if raw.None? then Fail
    else if attempts.None? then Manual
    else if attempts.value == 0 then Fail
    else if time == Some(0) then Warn
    else Pass
  }

  function LengthStatus(e: Element, py: Python): Status {
    var n := e.Number(MinLength, py);
    if e.Find(Switch) != YES then Fail
    else if MinLength in e.texts && n.None? then Manual
    else PassIf(n.Some? && n.value >= 12)
  }

  /** `_pwd_min` */
  function PwdMin(e: Element, p: Path, floor: int, py: Python): Status {
    if e.Find(Switch) != YES then NotApplicable
    else PassIf(e.Number(p, py).Some? && e.Number(p, py).value >= floor)
  }

  function ExpiryStatus(e: Element, py: Python): Status {
    var days := e.Number(ExpiryDays, py);
    if e.Find(Switch) != YES then NotApplicable
    else PassIf(days.Some? && days.value != 0 && days.value <= 90)
  }

  function Super(): Entry -> bool { (e: Entry) => SuperuserFlag in e.texts && e.texts[SuperuserFlag] == "yes" }

  predicate HasAdmin(users: seq<Entry>) { exists i :: 0 <= i < |users| && users[i].name == Some("admin") }

  /** `_has_syslog` */
  predicate Forwards(element: Option<Element>) {
    && element.Some?
    && var texts := element.value.texts;
    SendSyslog in texts || SyslogEntry in texts || SyslogNode in texts
  }

  /** The item's status from the element of its endpoint; log forwarding looks in two places. */
  function Verdict(id: ItemId, e: Element, py: Python): Status {
    match id
    case Hostname => PassIf(e.TextAt(HostName) != "")
    case Timezone => PassIf(e.TextAt(TimeZone) != "")
    case LoginBanner => PassIf(e.TextAt(Banner) != "")
    case PermittedIp =>
      var sources := e.All(PermittedEntry);
      PassIf(sources != [] && forall s :: s in sources ==> !Unrestricted(s))
    case DisableTelnet => PassIf(e.Find(TelnetOff) == YES)
    case DisableHttp => PassIf(e.Find(HttpOff) == YES)
    case NtpServers => ServersStatus(e.TextAt(NtpAddress(First)), e.TextAt(NtpAddress(Second)))
    case NtpAuth =>
      if e.TextAt(NtpAddress(First)) == "" then NotApplicable
      else if exists s :: WeakServer(e, s) then Warn
      else Pass
    case UpdateVerify => PassIf(e.Find(ServerVerification) == YES)
    case IdleTimeout => IdleStatus(e.Find(IdleTime), e.Number(IdleTime, py))
    case Lockout => LockoutStatus(e.Find(FailedAttempts), e.Number(FailedAttempts, py), e.Number(LockoutTime, py))
    case LogHighDp => PassIf(e.Find(LogHigh) == YES)
    case PwdComplexity => PassIf(e.Find(Switch) == YES)
    case PwdMinLen => LengthStatus(e, py)
    case PwdUppercase => PwdMin(e, MinUpper, 1, py)
    case PwdLowercase => PwdMin(e, MinLower, 1, py)
    case PwdNumeric => PwdMin(e, MinNumeric, 1, py)
    case PwdSpecial => PwdMin(e, MinSpecial, 1, py)
    case PwdDiffers => PwdMin(e, DiffersBy, 3, py)
    case PwdHistory => PwdMin(e, HistoryCount, 24, py)
    case PwdExpiry => ExpiryStatus(e, py)
    case Profiles => if e.All(ProfileEntry) != [] then Warn else Pass
    case Superuser => if |Where(e.All(UserEntry), Super())| > 2 then Warn else Pass
    case AdminDefault => if HasAdmin(e.All(UserEntry)) then Manual else Pass
    case SnmpV2c => if SnmpAccess !in e.texts then Manual else PassIf(SnmpV2cNode !in e.texts)
    case LogForward => Manual
  }

  /** The item's status from whatever could be read. */
  function StatusOf(id: ItemId, data: Data, py: Python): Status {
    if id.LogForward? then
      var logs, shared := Res(data, LogSettings), Res(data, LogShared);
      if logs.None? && shared.None? then Manual else PassIf(Forwards(logs) || Forwards(shared))
    else if Res(data, KeyOf(id)).None? then Manual
    else Verdict(id, Res(data, KeyOf(id)).value, py)
  }

  function Judge(data: Data, py: Python): ItemId -> Status { (id: ItemId) => StatusOf(id, data, py) }

  // ----- the sections of `inspect`, one `add` for every arm -----

  /** An item of an endpoint that was read, judged on its element. */
  function Shown(e: Element, py: Python): ItemId -> Status { (id: ItemId) => Verdict(id, e, py) }

  lemma ReadGroup(key: Endpoint, ids: seq<ItemId>, data: Data, py: Python)
    requires Res(data, key).Some? && key != LogSettings && forall i :: 0 <= i < |ids| ==> KeyOf(ids[i]) == key
    ensures Judgement(ids, Judge(data, py)) == Judgement(ids, Shown(Res(data, key).value, py))
  {
    hide Verdict;
    KeysAre();
  }

  lemma LostGroup(key: Endpoint, ids: seq<ItemId>, data: Data, py: Python)
    requires Res(data, key).None? && key != LogSettings && forall i :: 0 <= i < |ids| ==> KeyOf(ids[i]) == key
    ensures Judgement(ids, Judge(data, py)) == Judgement(ids, Always(Manual))
  {
    hide Verdict;
    KeysAre();
  }

  lemma KeysOf(key: Endpoint)
    ensures forall i :: 0 <= i < |GroupIds(key)| ==> KeyOf(GroupIds(key)[i]) == key
    ensures forall i :: 0 <= i < |PasswordIds(true)| ==> KeyOf(PasswordIds(true)[i]) == PwdRules
    ensures forall i :: 0 <= i < |NAMES| ==> KeyOf(NAMES[i]) == System
    ensures forall i :: 0 <= i < |SERVICES| ==> KeyOf(SERVICES[i]) == System
  {
  }

  lemma KeysAre()
    ensures KeyOf(LogForward) == LogSettings
  {
  }

  method InspectNames(e: Element, py: Python) returns (items: seq<Item<ItemId>>)
    ensures items == Judgement(NAMES, Shown(e, py))
  {
    hide Unrestricted;
    items := [Item(Hostname, if e.TextAt(HostName) != "" then Pass else Fail)];
    items := items + [Item(Timezone, if e.TextAt(TimeZone) != "" then Pass else Fail)];
    items := items + [Item(LoginBanner, if e.TextAt(Banner) != "" then Pass else Fail)];
    var sources := e.All(PermittedEntry);
    var any := false;
    for i := 0 to |sources|
      invariant any <==> exists s :: s in sources[..i] && Unrestricted(s)
    {
      assert sources[..i + 1] == sources[..i] + [sources[i]];
      if Unrestricted(sources[i]) {
        any := true;
      }
    }
    assert sources[..|sources|] == sources;
    if sources == [] {
      items := items + [Item(PermittedIp, Fail)];
    } else if any {
      items := items + [Item(PermittedIp, Fail)];
    } else {
      items := items + [Item(PermittedIp, Pass)];
    }
  }

  /** The loop over the two time servers; one that is not set is passed over. */
  method CheckServers(e: Element) returns (weak: bool)
    ensures weak <==> exists s :: WeakServer(e, s)
  {
    weak := false;
    var servers := [First, Second];
    for i := 0 to |servers|
      invariant weak <==> exists j :: 0 <= j < i && WeakServer(e, servers[j])
    {
      if e.TextAt(NtpAddress(servers[i])) == "" {
        continue;
      }
      if NtpNone(servers[i]) in e.texts {
        weak := true;
      } else if NtpMd5(servers[i]) in e.texts {
        weak := true;
      }
    }
    forall s | WeakServer(e, s) ensures weak {
      assert s == servers[if s.First? then 0 else 1];
    }
  }

  lemma ServiceVerdicts(e: Element, py: Python)
    ensures Verdict(DisableTelnet, e, py) == PassIf(e.Find(TelnetOff) == YES)
    ensures Verdict(DisableHttp, e, py) == PassIf(e.Find(HttpOff) == YES)
    ensures Verdict(NtpServers, e, py) == ServersStatus(e.TextAt(NtpAddress(First)), e.TextAt(NtpAddress(Second)))
    ensures Verdict(UpdateVerify, e, py) == PassIf(e.Find(ServerVerification) == YES)
    ensures Verdict(NtpAuth, e, py)
         == if e.TextAt(NtpAddress(First)) == "" then NotApplicable else if exists s :: WeakServer(e, s) then Warn else Pass
  {
    hide WeakServer, ServersStatus, YES;
  }

  method InspectServices(e: Element, py: Python) returns (items: seq<Item<ItemId>>)
    ensures items == Judgement(SERVICES, Shown(e, py))
  {
    hide Verdict, WeakServer, YES;
    ServiceVerdicts(e, py);
    items := [Item(DisableTelnet, if e.Find(TelnetOff) == YES then Pass else Fail)];
    items := items + [Item(DisableHttp, if e.Find(HttpOff) == YES then Pass else Fail)];
    var first, second := e.TextAt(NtpAddress(First)), e.TextAt(NtpAddress(Second));
    if first != "" && second != "" {
      items := items + [Item(NtpServers, Pass)];
    } else if first != "" {
      items := items + [Item(NtpServers, Warn)];
    } else {
      items := items + [Item(NtpServers, Fail)];
    }
    if first != "" {
      var weak := CheckServers(e);
      items := items + [Item(NtpAuth, if weak then Warn else Pass)];
    } else {
      items := items + [Item(NtpAuth, NotApplicable)];
    }
    items := items + [Item(UpdateVerify, if e.Find(ServerVerification) == YES then Pass else Fail)];
  }

  method InspectSystem(data: Data, py: Python) returns (items: seq<Item<ItemId>>)
    ensures items == Judgement(GroupIds(System), Judge(data, py))
  {
    hide StatusOf, KeyOf, Verdict, NAMES, SERVICES;
    KeysOf(System);
    if Res(data, System).None? {
      LostGroup(System, GroupIds(System), data, py);
      items := EmitGroup(GroupIds(System), Manual);
      return;
    }
    var e := Res(data, System).value;
    ReadGroup(System, NAMES, data, py);
    ReadGroup(System, SERVICES, data, py);
    var names := InspectNames(e, py);
    var services := InspectServices(e, py);
    items := names + services;
  }

  lemma SettingVerdicts(e: Element, py: Python)
    ensures Verdict(IdleTimeout, e, py) == IdleStatus(e.Find(IdleTime), e.Number(IdleTime, py))
    ensures Verdict(Lockout, e, py)
         == LockoutStatus(e.Find(FailedAttempts), e.Number(FailedAttempts, py), e.Number(LockoutTime, py))
    ensures Verdict(LogHighDp, e, py) == PassIf(e.Find(LogHigh) == YES)
  {
    hide IdleStatus, LockoutStatus, ToInt, YES;
  }

  method InspectSetting(data: Data, py: Python) returns (items: seq<Item<ItemId>>)
    ensures items == Judgement(GroupIds(Setting), Judge(data, py))
  {
    hide StatusOf, KeyOf, Verdict, ToInt, YES;
    KeysOf(Setting);
    if Res(data, Setting).None? {
      LostGroup(Setting, GroupIds(Setting), data, py);
      items := EmitGroup(GroupIds(Setting), Manual);
      return;
    }
    ReadGroup(Setting, GroupIds(Setting), data, py);
    var e := Res(data, Setting).value;
    SettingVerdicts(e, py);
    items := [];
    var raw, minutes := e.Find(IdleTime), e.Number(IdleTime, py);
    if raw.None? {
      items := items + [Item(IdleTimeout, Fail)];
    } else if minutes.None? {
      items := items + [Item(IdleTimeout, Manual)];
    } else if minutes.value == 0 {
      items := items + [Item(IdleTimeout, Fail)];
    } else {
      items := items + [Item(IdleTimeout, if minutes.value <= 10 then Pass else Fail)];
    }
    var attempts, time := e.Number(FailedAttempts, py), e.Number(LockoutTime, py);
    if e.Find(FailedAttempts).None? {
      items := items + [Item(Lockout, Fail)];
    } else if attempts.None? {
      items := items + [Item(Lockout, Manual)];
    } else if attempts.value == 0 {
      items := items + [Item(Lockout, Fail)];
    } else if time.Some? && time.value == 0 {
      items := items + [Item(Lockout, Warn)];
    } else {
      items := items + [Item(Lockout, Pass)];
    }
    items := items + [Item(LogHighDp, if e.Find(LogHigh) == YES then Pass else Fail)];
  }

  lemma RuleVerdicts(e: Element, py: Python)
    ensures Verdict(PwdComplexity, e, py) == PassIf(e.Find(Switch) == YES)
    ensures Verdict(PwdMinLen, e, py) == LengthStatus(e, py)
    ensures Verdict(PwdExpiry, e, py) == ExpiryStatus(e, py)
  {
    hide LengthStatus, PwdMin, ExpiryStatus, YES, ToInt;
  }

  lemma MinimumVerdicts(e: Element, py: Python)
    ensures Verdict(PwdUppercase, e, py) == PwdMin(e, MinUpper, 1, py)
    ensures Verdict(PwdLowercase, e, py) == PwdMin(e, MinLower, 1, py)
    ensures Verdict(PwdNumeric, e, py) == PwdMin(e, MinNumeric, 1, py)
    ensures Verdict(PwdSpecial, e, py) == PwdMin(e, MinSpecial, 1, py)
    ensures Verdict(PwdDiffers, e, py) == PwdMin(e, DiffersBy, 3, py)
    ensures Verdict(PwdHistory, e, py) == PwdMin(e, HistoryCount, 24, py)
  {
    hide LengthStatus, PwdMin, ExpiryStatus, YES, ToInt;
  }

  /** The two arms of the password block. */
  method InspectLength(e: Element, py: Python) returns (items: seq<Item<ItemId>>)
    ensures items == [Item(PwdComplexity, PassIf(e.Find(Switch) == YES)), Item(PwdMinLen, LengthStatus(e, py))]
  {
    hide ToInt;
    var enabled, length := e.Find(Switch), e.Number(MinLength, py);
    items := [];
    if enabled != YES {
      items := items + [Item(PwdComplexity, Fail)];
      items := items + [Item(PwdMinLen, Fail)];
    } else {
      items := items + [Item(PwdComplexity, Pass)];
      if MinLength in e.texts && length.None? {
        items := items + [Item(PwdMinLen, Manual)];
      } else {
        items := items + [Item(PwdMinLen, if length.Some? && length.value >= 12 then Pass else Fail)];
      }
    }
  }

  /** The arms of the expiry. */
  method AddExpiry(before: seq<Item<ItemId>>, e: Element, py: Python) returns (items: seq<Item<ItemId>>)
    ensures items == before + [Item(PwdExpiry, ExpiryStatus(e, py))]
  {
    hide ToInt;
    var days := e.Number(ExpiryDays, py);
    if e.Find(Switch) != YES {
      items := before + [Item(PwdExpiry, NotApplicable)];
    } else if days.None? || days.value == 0 {
      items := before + [Item(PwdExpiry, Fail)];
    } else {
      items := before + [Item(PwdExpiry, if days.value <= 90 then Pass else Fail)];
    }
  }

  method InspectRules(e: Element, py: Python) returns (items: seq<Item<ItemId>>)
    ensures items == Judgement(PasswordIds(true), Shown(e, py))
  {
    hide Verdict, PwdMin, LengthStatus, ExpiryStatus, ToInt, YES;
    RuleVerdicts(e, py);
    MinimumVerdicts(e, py);
    items := InspectLength(e, py);
    items := items + [Item(PwdUppercase, PwdMin(e, MinUpper, 1, py)), Item(PwdLowercase, PwdMin(e, MinLower, 1, py))];
    items := items + [Item(PwdNumeric, PwdMin(e, MinNumeric, 1, py)), Item(PwdSpecial, PwdMin(e, MinSpecial, 1, py))];
    items := items + [Item(PwdDiffers, PwdMin(e, DiffersBy, 3, py)), Item(PwdHistory, PwdMin(e, HistoryCount, 24, py))];
    items := AddExpiry(items, e, py);
  }

  method InspectPasswords(data: Data, py: Python) returns (items: seq<Item<ItemId>>)
    ensures items == Judgement(PasswordIds(Res(data, PwdRules).Some?), Judge(data, py))
  {
    hide StatusOf, KeyOf, Verdict;
    KeysOf(PwdRules);
    if Res(data, PwdRules).None? {
      LostGroup(PwdRules, GroupIds(PwdRules), data, py);
      items := EmitGroup(GroupIds(PwdRules), Manual);
    } else {
      ReadGroup(PwdRules, PasswordIds(true), data, py);
      items := InspectRules(Res(data, PwdRules).value, py);
    }
  }

  method InspectProfiles(data: Data, py: Python) returns (items: seq<Item<ItemId>>)
    ensures items == Judgement(GroupIds(PwdProfiles), Judge(data, py))
  {
    if Res(data, PwdProfiles).None? {
      items := [Item(Profiles, Manual)];
    } else {
      items := [Item(Profiles, if Res(data, PwdProfiles).value.All(ProfileEntry) != [] then Warn else Pass)];
    }
  }

  lemma UsersVerdicts(e: Element, py: Python)
    ensures Verdict(Superuser, e, py) == if |Where(e.All(UserEntry), Super())| > 2 then Warn else Pass
    ensures Verdict(AdminDefault, e, py) == if HasAdmin(e.All(UserEntry)) then Manual else Pass
  {
    hide Where, HasAdmin;
  }

  method InspectUsers(data: Data, py: Python) returns (items: seq<Item<ItemId>>)
    ensures items == Judgement(GroupIds(Users), Judge(data, py))
  {
    hide StatusOf, KeyOf, Verdict;
    KeysOf(Users);
    if Res(data, Users).None? {
      LostGroup(Users, GroupIds(Users), data, py);
      items := EmitGroup(GroupIds(Users), Manual);
      return;
    }
    ReadGroup(Users, GroupIds(Users), data, py);
    UsersVerdicts(Res(data, Users).value, py);
    var users := Res(data, Users).value.All(UserEntry);
    var supers, hasAdmin := 0, false;
    for i := 0 to |users|
      invariant supers == |Where(users[..i], Super())|
      invariant hasAdmin <==> HasAdmin(users[..i])
    {
      assert users[..i + 1][..i] == users[..i];
      if SuperuserFlag in users[i].texts && users[i].texts[SuperuserFlag] == "yes" {
        supers := supers + 1;
      }
      if users[i].name == Some("admin") {
        hasAdmin := true;
      }
    }
    assert users[..|users|] == users;
    items := [Item(Superuser, if supers > 2 then Warn else Pass)];
    items := items + [Item(AdminDefault, if hasAdmin then Manual else Pass)];
  }

  method InspectSnmp(data: Data, py: Python) returns (items: seq<Item<ItemId>>)
    ensures items == Judgement(GroupIds(Snmp), Judge(data, py))
  {
    if Res(data, Snmp).None? {
      return [Item(SnmpV2c, Manual)];
    }
    var snmp := Res(data, Snmp).value.texts;
    if SnmpAccess !in snmp {
      items := [Item(SnmpV2c, Manual)];
    } else if SnmpV2cNode in snmp {
      items := [Item(SnmpV2c, Fail)];
    } else {
      items := [Item(SnmpV2c, Pass)];
    }
  }

  method InspectLogs(data: Data, py: Python) returns (items: seq<Item<ItemId>>)
    ensures items == Judgement(GroupIds(LogSettings), Judge(data, py))
  {
    var logs, shared := Res(data, LogSettings), Res(data, LogShared);
    if logs.None? && shared.None? {
      return [Item(LogForward, Manual)];
    }
    var found := Forwards(logs) || Forwards(shared);
    items := [Item(LogForward, if found then Pass else Fail)];
  }

  method InspectLast(data: Data, py: Python) returns (items: seq<Item<ItemId>>)
    ensures items == Judgement(LAST, Judge(data, py))
  {
    hide GroupIds, StatusOf;
    var profiles := InspectProfiles(data, py);
    var users := InspectUsers(data, py);
    var snmp := InspectSnmp(data, py);
    var logs := InspectLogs(data, py);
    items := profiles + users + snmp + logs;
  }

  /** `inspect`: fetch what can be fetched, then emit every section. */
  method Inspect(replies: Endpoint -> Reply<Option<Element>>, py: Python) returns (outcome: Outcome<ItemId>)
    ensures outcome == Inspected(replies, py)
    ensures outcome.Report? ==>
      Ids(outcome.items) == Listing(Res(Held(ENDPOINTS, replies), PwdRules).Some?)
  {
    hide GroupIds, PasswordIds, StatusOf, LAST, ENDPOINTS;
    var fetched := Fetch(ENDPOINTS, replies);
    if fetched.None? {
      return Raised;
    }
    var data := fetched.value;
    var system := InspectSystem(data, py);
    var setting := InspectSetting(data, py);
    var passwords := InspectPasswords(data, py);
    var last := InspectLast(data, py);
    outcome := Report(system + setting + passwords + last);
  }

  /** The reference: every item of the listing judged from whatever could be read. */
  function Inspected(replies: Endpoint -> Reply<Option<Element>>, py: Python): Outcome<ItemId> {
    var data := Held(ENDPOINTS, replies);
    if !Connected(ENDPOINTS, replies) || data == map[] then Raised
    else Report(Judgement(Listing(Res(data, PwdRules).Some?), Judge(data, py)))
  }

  function Rank(id: ItemId): nat {
    match id
    case Hostname => 0
    case Timezone => 1
    case LoginBanner => 2
    case PermittedIp => 3
    case DisableTelnet => 4
    case DisableHttp => 5
    case NtpServers => 6
    case NtpAuth => 7
    case UpdateVerify => 8
    case IdleTimeout => 9
    case Lockout => 10
    case LogHighDp => 11
    case PwdComplexity => 12
    case PwdMinLen => 13
    case PwdUppercase => 14
    case PwdLowercase => 15
    case PwdNumeric => 16
    case PwdSpecial => 17
    case PwdExpiry => 18
    case PwdDiffers => 19
    case PwdHistory => 20
    case Profiles => 21
    case Superuser => 22
    case AdminDefault => 23
    case SnmpV2c => 24
    case LogForward => 25
  }

  lemma RankFirst()
    ensures |FIRST| == 12 && forall i :: 0 <= i < 12 ==> Rank(FIRST[i]) == i
  {
  }

  lemma RankPasswords()
    ensures |PasswordIds(false)| == 9 && forall i :: 0 <= i < 9 ==> Rank(PasswordIds(false)[i]) == 12 + i
  {
  }

  lemma RankLast()
    ensures |LAST| == 5 && forall i :: 0 <= i < 5 ==> Rank(LAST[i]) == 21 + i
  {
  }

  lemma RankIsOne(id: ItemId)
    ensures Rank(id) < 26
    ensures forall other :: Rank(id) == Rank(other) ==> id == other
  {
  }

  lemma SamePasswords()
    ensures multiset(PasswordIds(true)) == multiset(PasswordIds(false))
  {
    hide CHARACTERS;
    var read, lost := [PwdDiffers, PwdHistory, PwdExpiry], [PwdExpiry, PwdDiffers, PwdHistory];
    assert multiset(read) == multiset{PwdDiffers, PwdHistory, PwdExpiry} == multiset(lost);
    assert PasswordIds(true) == CHARACTERS + read && PasswordIds(false) == CHARACTERS + lost;
  }

  /** Both listings hold every item once, in two orders. */
  lemma ListingOnce(read: bool)
    ensures multiset(Listing(read)) == multiset(Listing(false))
    ensures Once(Listing(read))
    ensures forall id :: id in Listing(read)
  {
    RankFirst();
    RankPasswords();
    RankLast();
    SamePasswords();
    hide FIRST, PasswordIds, LAST, Rank;
    var all := Listing(false);
    assert |all| == 26;
    forall i | 0 <= i < 26 ensures Rank(all[i]) == i {}
    forall id ensures id in all {
      RankIsOne(id);
      assert all[Rank(id)] == id;
    }
    assert Once(all);
    SameMembersOnce(all, Listing(read));
  }

  // ----- lost endpoints -----

  /** The place that showed log forwarding was lost, and the other one, still read, shows none. */
  predicate ForwardingLost(id: ItemId, data: Data, lost: set<Endpoint>) {
    var logs, shared := Res(data, LogSettings), Res(data, LogShared);
    && id.LogForward?
    && ((LogSettings in lost && Forwards(logs) && LogShared !in lost && shared.Some? && !Forwards(shared))
        || (LogShared in lost && Forwards(shared) && LogSettings !in lost && logs.Some? && !Forwards(logs)))
  }

  function Needs(id: ItemId): set<Endpoint> { {KeyOf(id)} + if id.LogForward? then {LogShared} else {} }

  predicate Safe(id: ItemId, data: Data, lost: set<Endpoint>, py: Python) {
    var full, partial := StatusOf(id, data, py), StatusOf(id, data - lost, py);
    && (partial.Pass? ==> full.Pass?)
    && (Degrades(full, partial) <==> !ForwardingLost(id, data, lost))
    && (ForwardingLost(id, data, lost) ==> full.Pass? && partial.Fail?)
    && (full != partial ==> Needs(id) * lost != {})
  }

  lemma KeyLost(id: ItemId, data: Data, lost: set<Endpoint>, py: Python)
    requires KeyOf(id) in lost && !id.LogForward?
    ensures StatusOf(id, data - lost, py).Manual? && KeyOf(id) in Needs(id) * lost
  {
    hide Verdict;
  }

  lemma KeyKept(id: ItemId, data: Data, lost: set<Endpoint>, py: Python)
    requires KeyOf(id) !in lost && !id.LogForward?
    ensures StatusOf(id, data - lost, py) == StatusOf(id, data, py)
  {
    hide Verdict;
  }

  lemma StatusUnderLoss(id: ItemId, data: Data, lost: set<Endpoint>, py: Python)
    ensures Safe(id, data, lost, py)
  {
    hide KeyOf, StatusOf;
    if id.LogForward? {
      ForwardUnderLoss(data, lost, py);
    } else if KeyOf(id) in lost {
      KeyLost(id, data, lost, py);
    } else {
      KeyKept(id, data, lost, py);
    }
  }

  /** Log forwarding, whatever is lost: manual, unchanged, or the one exception. */
  lemma ForwardUnderLoss(data: Data, lost: set<Endpoint>, py: Python)
    ensures Safe(LogForward, data, lost, py)
  {
    hide Verdict;
  }

  predicate SafeItem(before: Item<ItemId>, after: Item<ItemId>, data: Data, lost: set<Endpoint>) {
    && (after.status.Pass? ==> before.status.Pass?)
    && (Degrades(before.status, after.status) <==> !ForwardingLost(after.id, data, lost))
    && (before.status != after.status ==> Needs(after.id) * lost != {})
  }

  /**
   Endpoint loss is safe. Whatever the replies and whatever further endpoints are lost, as long
   as one is left: the same items are listed, each once (the password items may change places),
   and none becomes pass. An item changes only when an endpoint it needs was lost, and then to
   manual, with one exception: log forwarding turns from pass to fail, not to manual, exactly
   when the one of its two places that showed it is lost and the other, still read, shows none.
   */
  lemma LossIsSafe(replies: Endpoint -> Reply<Option<Element>>, lost: set<Endpoint>, py: Python)
    requires Inspected(replies, py).Report?
    requires exists k :: k in ENDPOINTS && replies(k).Body? && k !in lost
    ensures var full, partial := Inspected(replies, py), Inspected(Losing(replies, lost), py);
      && partial.Report?
      && multiset(Ids(full.items)) == multiset(Ids(partial.items)) && Once(Ids(full.items)) && Once(Ids(partial.items))
      && (forall id :: id in Ids(full.items))
      && forall i, j :: 0 <= i < |full.items| && 0 <= j < |partial.items| && full.items[i].id == partial.items[j].id ==>
           SafeItem(full.items[i], partial.items[j], Held(ENDPOINTS, replies), lost)
  {
    hide Listing, StatusOf, ENDPOINTS, ForwardingLost, Once;
    LosingHeld(ENDPOINTS, replies, lost);
    var data := Held(ENDPOINTS, replies);
    var k :| k in ENDPOINTS && replies(k).Body? && k !in lost;
    assert k in data - lost;
    var before, after := Listing(Res(data, PwdRules).Some?), Listing(Res(data - lost, PwdRules).Some?);
    ListingOnce(Res(data, PwdRules).Some?);
    ListingOnce(Res(data - lost, PwdRules).Some?);
    JudgementIds(before, Judge(data, py));
    JudgementIds(after, Judge(data - lost, py));
    forall j | 0 <= j < |after| ensures Safe(after[j], data, lost, py) {
      StatusUnderLoss(after[j], data, lost, py);
    }
  }

  /** Forwarding set in the shared log settings only, both places read. */
  function ForwardReplies(): Endpoint -> Reply<Option<Element>> {
    (k: Endpoint) =>
      if k.LogSettings? then Body(Some(Element(map[], map[])))
      else if k.LogShared? then Body(Some(Element(map[SyslogNode := ""], map[])))
      else Refused
  }

  /** The exception is met: with the shared settings lost, forwarding goes from pass to fail. */
  lemma ForwardingLostWitness(py: Python)
    ensures var full, partial := Inspected(ForwardReplies(), py), Inspected(Losing(ForwardReplies(), {LogShared}), py);
      && full.Report? && Item(LogForward, Pass) in full.items
      && partial.Report? && Item(LogForward, Fail) in partial.items
  {
    hide ENDPOINTS, Connected, Held, Listing;
    var replies := ForwardReplies();
    var data, rest := Held(ENDPOINTS, replies), Held(ENDPOINTS, Losing(replies, {LogShared}));
    ForwardData();
    ListedAs(LogForward, data, py);
    ListedAs(LogForward, rest, py);
  }

  lemma ForwardData()
    ensures var replies := ForwardReplies();
      && Connected(ENDPOINTS, replies) && Connected(ENDPOINTS, Losing(replies, {LogShared}))
      && Held(ENDPOINTS, replies) == map[LogSettings := replies(LogSettings).body, LogShared := replies(LogShared).body]
      && Held(ENDPOINTS, Losing(replies, {LogShared})) == map[LogSettings := replies(LogSettings).body]
      && Forwards(replies(LogShared).body) && !Forwards(replies(LogSettings).body)
  {
    assert LogSettings in ENDPOINTS && LogShared in ENDPOINTS by {
      assert ENDPOINTS[5] == LogSettings && ENDPOINTS[6] == LogShared;
    }
  }

  lemma ListedAs(id: ItemId, data: Data, py: Python)
    ensures Item(id, StatusOf(id, data, py)) in Judgement(Listing(Res(data, PwdRules).Some?), Judge(data, py))
  {
    hide Listing, StatusOf;
    var listing := Listing(Res(data, PwdRules).Some?);
    ListingOnce(Res(data, PwdRules).Some?);
    assert id in listing;
    var i :| 0 <= i < |listing| && listing[i] == id;
    assert Judgement(listing, Judge(data, py))[i] == Item(id, StatusOf(id, data, py));
  }

  /**
   So two visits, whatever each of them could read, leave no new and no gone rows in the version
   log: they list the same items.
   */
  lemma VisitsAreSilent(before: Endpoint -> Reply<Option<Element>>, after: Endpoint -> Reply<Option<Element>>, py: Python,
                        log: seq<ItemVersion>, first: Stamp, second: Stamp,
                        name: ItemId -> string, descA: Item<ItemId> -> string, descB: Item<ItemId> -> string,
                        disabled: set<string>)
    requires Inspected(before, py).Report? && Inspected(after, py).Report?
    requires Fits(log) && Naming(name)
    ensures var a := Kept(Collect(Inspected(before, py).items, Reported(name, descA)), disabled);
      var b := Kept(Collect(Inspected(after, py).items, Reported(name, descB)), disabled);
      a != [] ==> forall v :: v in Recorded(Record(log, first, a, disabled), second, b, disabled) ==> Changed(v)
  {
    hide Listing, Kept, Recorded, Record, StatusOf, ENDPOINTS, Once;
    var dataA, dataB := Held(ENDPOINTS, before), Held(ENDPOINTS, after);
    ListingOnce(Res(dataA, PwdRules).Some?);
    ListingOnce(Res(dataB, PwdRules).Some?);
    JudgementIds(Listing(Res(dataA, PwdRules).Some?), Judge(dataA, py));
    JudgementIds(Listing(Res(dataB, PwdRules).Some?), Judge(dataB, py));
    OutageIsNoChurn(log, first, Inspected(before, py).items, second, Inspected(after, py).items,
                    name, descA, descB, disabled);
  }

  // ----- numbers that cannot be read -----

  /** The numeric elements of an item. */
  function NumbersOf(id: ItemId): set<Path> {
    match id
    case IdleTimeout => {IdleTime}
    case Lockout => {FailedAttempts, LockoutTime}
    case PwdMinLen => {MinLength}
    case PwdUppercase => {MinUpper}
    case PwdLowercase => {MinLower}
    case PwdNumeric => {MinNumeric}
    case PwdSpecial => {MinSpecial}
    case PwdDiffers => {DiffersBy}
    case PwdHistory => {HistoryCount}
    case PwdExpiry => {ExpiryDays}
    case _ => {}
  }

  /**
   A numeric element that is absent or not a number never lets its item pass, except for the
   lockout time; one of the first three that is there but is not a number makes its item
   manual, unless the password rules are switched off altogether.
   */
  lemma NumbersFailSafe(id: ItemId, p: Path, data: Data, py: Python)
    requires p in NumbersOf(id) && Res(data, KeyOf(id)).Some? && Res(data, KeyOf(id)).value.Number(p, py).None?
    ensures !p.LockoutTime? ==> !StatusOf(id, data, py).Pass?
    ensures var e := Res(data, KeyOf(id)).value;
      p in e.texts && (p.IdleTime? || p.FailedAttempts? || (p.MinLength? && e.Find(Switch) == YES)) ==>
        StatusOf(id, data, py).Manual?
  {
    hide ToInt;
  }

  /** The lockout item passes exactly when the attempts are limited and the time is not zero, read or unread. */
  lemma LockoutPasses(data: Data, py: Python)
    requires Res(data, Setting).Some?
    ensures var e := Res(data, Setting).value;
      var attempts := e.Number(FailedAttempts, py);
      StatusOf(Lockout, data, py).Pass? <==> attempts.Some? && attempts.value != 0 && e.Number(LockoutTime, py) != Some(0)
  {
    hide ToInt;
  }

  // ----- lost elements -----

  /**
   The elements whose absence reads as compliance: a weak authentication that is not shown, a
   second time server that is not, a lockout time of zero, password profiles, accounts, the
   superuser flag, and SNMP v2c.
   */
  function Exposed(id: ItemId): set<Path> {
    match id
    case NtpAuth => {NtpAddress(Second), NtpNone(First), NtpNone(Second), NtpMd5(First), NtpMd5(Second)}
    case Lockout => {LockoutTime}
    case Profiles => {ProfileEntry}
    case Superuser => {UserEntry, SuperuserFlag}
    case AdminDefault => {UserEntry}
    case SnmpV2c => {SnmpV2cNode}
    case _ => {}
  }

  function PrunedEntry(gone: set<Path>): Entry -> Entry { (e: Entry) => Entry(e.name, e.texts - gone) }

  /** The same element without what some paths lead to. */
  function Pruned(e: Element, gone: set<Path>): Element {
    Element(e.texts - gone, map p | p in e.entries && p !in gone :: Collect(e.entries[p], PrunedEntry(gone)))
  }

  function Pruning(gone: Endpoint -> set<Path>): (Endpoint, Option<Element>) -> Option<Element> {
    (k: Endpoint, e: Option<Element>) => if e.None? then None else Some(Pruned(e.value, gone(k)))
  }

  lemma {:induction false} SupersUnderPruning(users: seq<Entry>, gone: set<Path>)
    requires SuperuserFlag !in gone
    ensures |Where(Collect(users, PrunedEntry(gone)), Super())| == |Where(users, Super())|
  {
    if users != [] {
      var n := |users| - 1;
      SupersUnderPruning(users[..n], gone);
      assert Collect(users, PrunedEntry(gone))[..n] == Collect(users[..n], PrunedEntry(gone));
    }
  }

  lemma EntriesUnderPruning(id: ItemId, e: Element, gone: set<Path>, py: Python)
    requires gone !! Exposed(id) && (id.PermittedIp? || id.Superuser? || id.AdminDefault? || id.Profiles?)
    ensures Verdict(id, Pruned(e, gone), py).Pass? ==> Verdict(id, e, py).Pass?
  {
    var pruned := Pruned(e, gone);
    if id.Superuser? {
      SupersUnderPruning(e.All(UserEntry), gone);
    } else if id.AdminDefault? {
      var users, rest := e.All(UserEntry), pruned.All(UserEntry);
      assert |users| == |rest| && forall i :: 0 <= i < |users| ==> rest[i].name == users[i].name;
    } else if id.PermittedIp? && PermittedEntry !in gone {
      var sources, rest := e.All(PermittedEntry), pruned.All(PermittedEntry);
      assert |sources| == |rest| && forall i :: 0 <= i < |sources| ==> rest[i].name == sources[i].name;
      forall s | s in sources ensures exists r :: r in rest && Unrestricted(r) == Unrestricted(s) {
        var i :| 0 <= i < |sources| && sources[i] == s;
        assert rest[i] in rest;
      }
    }
  }

  lemma FieldsUnderPruning(id: ItemId, e: Element, gone: set<Path>, py: Python)
    requires gone !! Exposed(id) && !id.PermittedIp? && !id.Superuser? && !id.AdminDefault? && !id.Profiles?
    ensures Verdict(id, Pruned(e, gone), py).Pass? ==> Verdict(id, e, py).Pass?
  {
    hide ToInt;
    if id.NtpAuth? && NtpAddress(First) !in gone {
      forall s: Server ensures WeakServer(Pruned(e, gone), s) == WeakServer(e, s) {
        assert NtpAddress(s) !in gone && NtpNone(s) !in gone && NtpMd5(s) !in gone by {
          if s.First? {} else {}
        }
      }
    }
  }

  lemma VerdictUnderPruning(id: ItemId, e: Element, gone: set<Path>, py: Python)
    requires gone !! Exposed(id)
    ensures Verdict(id, Pruned(e, gone), py).Pass? ==> Verdict(id, e, py).Pass?
  {
    hide Verdict, Exposed;
    if id.PermittedIp? || id.Superuser? || id.AdminDefault? || id.Profiles? {
      EntriesUnderPruning(id, e, gone, py);
    } else {
      FieldsUnderPruning(id, e, gone, py);
    }
  }

  lemma StatusUnderPruning(id: ItemId, data: Data, gone: Endpoint -> set<Path>, py: Python)
    requires gone(KeyOf(id)) !! Exposed(id)
    ensures StatusOf(id, AlteredData(data, Pruning(gone)), py).Pass? ==> StatusOf(id, data, py).Pass?
  {
    hide Verdict;
    if Res(data, KeyOf(id)).Some? {
      VerdictUnderPruning(id, Res(data, KeyOf(id)).value, gone(KeyOf(id)), py);
    }
  }

  /**
   Element loss is safe. Whatever paths lead nowhere any more, the same items are listed and
   none becomes pass, unless the paths are the ones `Exposed` names.
   */
  lemma ElementLossIsSafe(replies: Endpoint -> Reply<Option<Element>>, gone: Endpoint -> set<Path>, py: Python)
    requires Inspected(replies, py).Report?
    ensures var full, partial := Inspected(replies, py), Inspected(Altered(replies, Pruning(gone)), py);
      && partial.Report? && Ids(full.items) == Ids(partial.items)
      && forall i :: 0 <= i < |full.items| && gone(KeyOf(full.items[i].id)) !! Exposed(full.items[i].id) ==>
           partial.items[i].status.Pass? ==> full.items[i].status.Pass?
  {
    hide Listing, ENDPOINTS, StatusOf;
    AlteredHeld(ENDPOINTS, replies, Pruning(gone));
    var data := Held(ENDPOINTS, replies);
    var cut := AlteredData(data, Pruning(gone));
    var k :| k in data;
    assert k in cut;
    assert Res(cut, PwdRules).Some? == Res(data, PwdRules).Some?;
    var listing := Listing(Res(data, PwdRules).Some?);
    JudgementIds(listing, Judge(data, py));
    JudgementIds(listing, Judge(cut, py));
    forall i | 0 <= i < |listing| && gone(KeyOf(listing[i])) !! Exposed(listing[i])
      ensures StatusOf(listing[i], cut, py).Pass? ==> StatusOf(listing[i], data, py).Pass?
    {
      StatusUnderPruning(listing[i], data, gone, py);
    }
  }

  /** Losing one path turns an item that did not pass into one that does. */
  predicate Conceals(id: ItemId, p: Path, data: Data, py: Python) {
    && !StatusOf(id, data, py).Pass?
    && StatusOf(id, AlteredData(data, Pruning((k: Endpoint) => if k == KeyOf(id) then {p} else {})), py).Pass?
  }

  /** An element in which the given path is what stands between its item and a pass. */
  function Telling(p: Path): Element {
    match p
    case NtpNone(s) => Element(map[NtpAddress(First) := "a", NtpAddress(s) := "a", p := ""], map[])
    case NtpMd5(s) => Element(map[NtpAddress(First) := "a", NtpAddress(s) := "a", p := ""], map[])
    case NtpAddress(_) => Element(map[NtpAddress(First) := "a", p := "b", NtpNone(Second) := ""], map[])
    case LockoutTime => Element(map[FailedAttempts := "3", LockoutTime := "0"], map[])
    case SnmpV2cNode => Element(map[SnmpAccess := "", SnmpV2cNode := ""], map[])
    case ProfileEntry => Element(map[], map[ProfileEntry := [BOSS]])
    case _ => Element(map[], map[UserEntry := [BOSS, BOSS, BOSS]])
  }

  const BOSS: Entry := Entry(Some("admin"), map[SuperuserFlag := "yes"])

  lemma ThreeAlike(e: Entry)
    ensures |Where([e, e, e], Super())| == if Super()(e) then 3 else 0
  {
    var one, two := [e], [e, e];
    assert one[..0] == [] && |Where(one, Super())| == if Super()(e) then 1 else 0;
    assert two[..1] == one && |Where(two, Super())| == if Super()(e) then 2 else 0;
    assert [e, e, e][..2] == two;
  }

  lemma ReadDigits(py: Python)
    ensures ToInt(Text("3"), py) == Some(3) && ToInt(Text("0"), py) == Some(0)
  {
    assert forall s: string :: |s| == 1 ==> s[1..] == "" && s[..0] == "";
  }

  lemma TellingFlag(p: Path)
    requires p.NtpNone? || p.NtpMd5?
    ensures Telling(p).TextAt(NtpAddress(First)) != "" && Pruned(Telling(p), {p}).TextAt(NtpAddress(First)) != ""
    ensures WeakServer(Telling(p), p.of)
    ensures forall s :: !WeakServer(Pruned(Telling(p), {p}), s)
  {
    var left := Pruned(Telling(p), {p}).texts;
    assert forall q :: q in left ==> q.NtpAddress?;
  }

  lemma TellingAddress()
    ensures var p := NtpAddress(Second);
      && Telling(p).TextAt(NtpAddress(First)) != "" && Pruned(Telling(p), {p}).TextAt(NtpAddress(First)) != ""
      && WeakServer(Telling(p), Second)
      && forall s :: !WeakServer(Pruned(Telling(p), {p}), s)
  {
    var p := NtpAddress(Second);
    var left := Pruned(Telling(p), {p});
    assert left.texts == map[NtpAddress(First) := "a", NtpNone(Second) := ""];
    forall s ensures !WeakServer(left, s) {
      if s.First? {} else {}
    }
  }

  lemma TellingFields(id: ItemId, p: Path, py: Python)
    requires p in Exposed(id) && (id.NtpAuth? || id.Lockout? || id.SnmpV2c?)
    ensures !Verdict(id, Telling(p), py).Pass? && Verdict(id, Pruned(Telling(p), {p}), py).Pass?
  {
    hide ToInt, WeakServer;
    ReadDigits(py);
    if id.NtpAuth? {
      if p.NtpAddress? {
        TellingAddress();
      } else {
        TellingFlag(p);
      }
    }
  }

  lemma TellingSupers(p: Path)
    requires p == UserEntry || p == SuperuserFlag
    ensures |Where(Telling(p).All(UserEntry), Super())| == 3
    ensures |Where(Pruned(Telling(p), {p}).All(UserEntry), Super())| == 0
  {
    var e := Entry(Some("admin"), map[]);
    assert BOSS.texts - {SuperuserFlag} == map[];
    assert Pruned(Telling(p), {p}).All(UserEntry) == if p == UserEntry then [] else [e, e, e];
    ThreeAlike(BOSS);
    ThreeAlike(e);
  }

  lemma TellingEntries(id: ItemId, p: Path, py: Python)
    requires p in Exposed(id) && (id.Profiles? || id.Superuser? || id.AdminDefault?)
    ensures !Verdict(id, Telling(p), py).Pass? && Verdict(id, Pruned(Telling(p), {p}), py).Pass?
  {
    hide Where;
    if id.Superuser? {
      TellingSupers(p);
    } else if id.AdminDefault? {
      assert Telling(p).All(UserEntry)[0] == BOSS;
    }
  }

  /** And the paths that `Exposed` names are exactly those that can do it. */
  lemma ExposedExactly(id: ItemId, p: Path, py: Python)
    ensures p in Exposed(id) <==> exists data :: Conceals(id, p, data, py)
  {
    hide Verdict, Telling, Pruned;
    var only := (k: Endpoint) => if k == KeyOf(id) then {p} else {};
    if p in Exposed(id) {
      var data: Data := map[KeyOf(id) := Some(Telling(p))];
      if id.NtpAuth? || id.Lockout? || id.SnmpV2c? {
        TellingFields(id, p, py);
      } else {
        TellingEntries(id, p, py);
      }
      assert Conceals(id, p, data, py);
    } else {
      forall data ensures !Conceals(id, p, data, py) {
        StatusUnderPruning(id, data, only, py);
      }
    }
  }

  // ----- what every status means, said of the reply -----

  /**
   A visit reports unless the connection goes down or nothing can be read, and the report lists
   every item with its status from exactly the bodies that could be read.
   */
  lemma ReportIs(replies: Endpoint -> Reply<Option<Element>>, py: Python)
    ensures var data, outcome := Held(ENDPOINTS, replies), Inspected(replies, py);
      && (forall k :: k in data <==> replies(k).Body?) && (forall k :: k in data ==> data[k] == replies(k).body)
      && (outcome.Report? <==>
            (forall k :: !replies(k).Down?) && (exists k :: replies(k).Body?))
      && (outcome.Report? ==>
            && (forall it :: it in outcome.items ==> it.status == StatusOf(it.id, data, py))
            && (forall id :: Item(id, StatusOf(id, data, py)) in outcome.items))
  {
    hide Listing, StatusOf, ENDPOINTS;
    AllEndpoints();
    var data, outcome := Held(ENDPOINTS, replies), Inspected(replies, py);
    if outcome.Report? {
      forall id ensures Item(id, StatusOf(id, data, py)) in outcome.items {
        ListedAs(id, data, py);
      }
    }
  }

  lemma AllEndpoints()
    ensures forall k :: k in ENDPOINTS
  {
    forall k ensures k in ENDPOINTS {
      assert k.System? ==> ENDPOINTS[0] == k;
      assert k.Setting? ==> ENDPOINTS[1] == k;
      assert k.Users? ==> ENDPOINTS[2] == k;
      assert k.PwdRules? ==> ENDPOINTS[3] == k;
      assert k.Snmp? ==> ENDPOINTS[4] == k;
      assert k.LogSettings? ==> ENDPOINTS[5] == k;
      assert k.LogShared? ==> ENDPOINTS[6] == k;
      assert k.PwdProfiles? ==> ENDPOINTS[7] == k;
    }
  }

  ghost predicate Sent(data: Data, key: Endpoint) { key in data && data[key].Some? }

  lemma SentIs(data: Data, key: Endpoint)
    ensures Res(data, key).Some? <==> Sent(data, key)
    ensures Sent(data, key) ==> Res(data, key) == data[key]
  {
  }

  /** The path is there with a text; or with this one; or with this number. */
  ghost predicate Filled(e: Element, p: Path) { p in e.texts && e.texts[p] != "" }
  ghost predicate SaysAt(e: Element, p: Path, word: string) { p in e.texts && e.texts[p] == word }
  ghost predicate ReadsAt(e: Element, p: Path, n: int, py: Python) { p in e.texts && ReadsText(e.texts[p], n, py) }

  lemma ReadsAtIs(e: Element, p: Path, py: Python)
    ensures forall n :: e.Number(p, py) == Some(n) <==> ReadsAt(e, p, n, py)
    ensures e.Number(p, py).None? <==> forall n :: !ReadsAt(e, p, n, py)
  {
    hide ReadsText, ToInt;
    if p in e.texts {
      forall n ensures ToInt(Text(e.texts[p]), py) == Some(n) <==> ReadsText(e.texts[p], n, py) {
        ReadsTextIs(e.texts[p], n, py);
      }
    }
    if e.Number(p, py).Some? { assert ReadsAt(e, p, e.Number(p, py).value, py); }
  }

  lemma StatusIs(id: ItemId, data: Data, py: Python)
    requires !id.LogForward?
    ensures Sent(data, KeyOf(id)) ==> StatusOf(id, data, py) == Verdict(id, data[KeyOf(id)].value, py)
    ensures !Sent(data, KeyOf(id)) ==> StatusOf(id, data, py).Manual?
  {
    hide Verdict, KeyOf;
  }

  /** Sources are listed, and none is every address. */
  ghost predicate Narrow(e: Element) {
    && PermittedEntry in e.entries && e.entries[PermittedEntry] != []
    && forall s :: s in e.entries[PermittedEntry] ==> s.name != Some("0.0.0.0/0") && s.name != Some("::/0")
  }

  lemma NamesMean(data: Data, py: Python)
    ensures !Sent(data, System) ==>
      forall id :: id in {Hostname, Timezone, LoginBanner, PermittedIp} ==> StatusOf(id, data, py).Manual?
    ensures Sent(data, System) ==>
      var e := data[System].value;
      && StatusOf(Hostname, data, py) == (if Filled(e, HostName) then Pass else Fail)
      && StatusOf(Timezone, data, py) == (if Filled(e, TimeZone) then Pass else Fail)
      && StatusOf(LoginBanner, data, py) == (if Filled(e, Banner) then Pass else Fail)
      && StatusOf(PermittedIp, data, py) == (if Narrow(e) then Pass else Fail)
  {
    SentIs(data, System);
  }

  /** The server is set, and its authentication is off or broken. */
  ghost predicate WeakAt(e: Element, s: Server) {
    Filled(e, NtpAddress(s)) && (NtpNone(s) in e.texts || NtpMd5(s) in e.texts)
  }

  lemma TwoServers(e: Element)
    ensures (exists s :: WeakServer(e, s)) <==> WeakServer(e, First) || WeakServer(e, Second)
  {
    forall s | WeakServer(e, s) ensures WeakServer(e, First) || WeakServer(e, Second) {
      assert s == First || s == Second;
    }
  }

  lemma ServersAre(e: Element)
    ensures var first, second := Filled(e, NtpAddress(First)), Filled(e, NtpAddress(Second));
      ServersStatus(e.TextAt(NtpAddress(First)), e.TextAt(NtpAddress(Second)))
        == (if first && second then Pass else if first then Warn else Fail)
    ensures forall s :: WeakServer(e, s) <==> WeakAt(e, s)
  {
  }

  lemma ServicesMean(data: Data, py: Python)
    ensures !Sent(data, System) ==>
      forall id :: id in {DisableTelnet, DisableHttp, NtpServers, NtpAuth, UpdateVerify} ==> StatusOf(id, data, py).Manual?
    ensures Sent(data, System) ==>
      var e := data[System].value;
      var first, second := Filled(e, NtpAddress(First)), Filled(e, NtpAddress(Second));
      && StatusOf(DisableTelnet, data, py) == (if SaysAt(e, TelnetOff, "yes") then Pass else Fail)
      && StatusOf(DisableHttp, data, py) == (if SaysAt(e, HttpOff, "yes") then Pass else Fail)
      && StatusOf(NtpServers, data, py) == (if first && second then Pass else if first then Warn else Fail)
      && StatusOf(NtpAuth, data, py)
         == (if !first then NotApplicable else if WeakAt(e, First) || WeakAt(e, Second) then Warn else Pass)
      && StatusOf(UpdateVerify, data, py) == (if SaysAt(e, ServerVerification, "yes") then Pass else Fail)
  {
    hide StatusOf, Verdict, ServersStatus, WeakServer, WeakAt;
    StatusIs(DisableTelnet, data, py);
    StatusIs(DisableHttp, data, py);
    StatusIs(NtpServers, data, py);
    StatusIs(NtpAuth, data, py);
    StatusIs(UpdateVerify, data, py);
    if Sent(data, System) {
      var e := data[System].value;
      ServiceVerdicts(e, py);
      TwoServers(e);
      ServersAre(e);
    }
  }

  ghost function Idle(e: Element, py: Python): Status {
    if IdleTime !in e.texts then Fail
    else if exists n :: n != 0 && n <= 10 && ReadsAt(e, IdleTime, n, py) then Pass
    else if exists n :: ReadsAt(e, IdleTime, n, py) then Fail
    else Manual
  }

  /** Attempts are limited; that the lockout never ends is worth a warning. */
  ghost function Locks(e: Element, py: Python): Status {
    if FailedAttempts !in e.texts || ReadsAt(e, FailedAttempts, 0, py) then Fail
    else if forall n :: !ReadsAt(e, FailedAttempts, n, py) then Manual
    else if ReadsAt(e, LockoutTime, 0, py) then Warn
    else Pass
  }

  lemma IdleIs(e: Element, py: Python)
    ensures IdleStatus(e.Find(IdleTime), e.Number(IdleTime, py)) == Idle(e, py)
  {
    hide ToInt, ReadsText;
    ReadsAtIs(e, IdleTime, py);
  }

  lemma LocksIs(e: Element, py: Python)
    ensures LockoutStatus(e.Find(FailedAttempts), e.Number(FailedAttempts, py), e.Number(LockoutTime, py)) == Locks(e, py)
  {
    hide ToInt, ReadsText;
    ReadsAtIs(e, FailedAttempts, py);
    ReadsAtIs(e, LockoutTime, py);
  }

  lemma SettingMeans(data: Data, py: Python)
    ensures !Sent(data, Setting) ==>
      forall id :: id in {IdleTimeout, Lockout, LogHighDp} ==> StatusOf(id, data, py).Manual?
    ensures Sent(data, Setting) ==>
      var e := data[Setting].value;
      && StatusOf(IdleTimeout, data, py) == Idle(e, py)
      && StatusOf(Lockout, data, py) == Locks(e, py)
      && StatusOf(LogHighDp, data, py) == (if SaysAt(e, LogHigh, "yes") then Pass else Fail)
  {
    hide ToInt, ReadsText, IdleStatus, LockoutStatus, Idle, Locks;
    SentIs(data, Setting);
    if Sent(data, Setting) {
      IdleIs(data[Setting].value, py);
      LocksIs(data[Setting].value, py);
    }
  }

  /** With the complexity rules on: the length is a number and at least twelve. */
  ghost function Length(e: Element, py: Python): Status {
    if !SaysAt(e, Switch, "yes") then Fail
    else if exists n :: n >= 12 && ReadsAt(e, MinLength, n, py) then Pass
    else if MinLength in e.texts && forall n :: !ReadsAt(e, MinLength, n, py) then Manual
    else Fail
  }

  /** With the rules on: a number not below the floor. */
  ghost function Minimum(e: Element, p: Path, floor: int, py: Python): Status {
    if !SaysAt(e, Switch, "yes") then NotApplicable
    else if exists n :: n >= floor && ReadsAt(e, p, n, py) then Pass
    else Fail
  }

  /** With the rules on: passwords expire, within ninety days. */
  ghost function Expiry(e: Element, py: Python): Status {
    if !SaysAt(e, Switch, "yes") then NotApplicable
    else if exists n :: n != 0 && n <= 90 && ReadsAt(e, ExpiryDays, n, py) then Pass
    else Fail
  }

  lemma RulesAre(e: Element, p: Path, floor: int, py: Python)
    ensures LengthStatus(e, py) == Length(e, py)
    ensures PwdMin(e, p, floor, py) == Minimum(e, p, floor, py)
    ensures ExpiryStatus(e, py) == Expiry(e, py)
  {
    hide ToInt, ReadsText;
    ReadsAtIs(e, MinLength, py);
    ReadsAtIs(e, p, py);
    ReadsAtIs(e, ExpiryDays, py);
  }

  lemma PasswordsMean(data: Data, py: Python)
    ensures !Sent(data, PwdRules) ==> forall id :: KeyOf(id) == PwdRules ==> StatusOf(id, data, py).Manual?
    ensures Sent(data, PwdRules) ==>
      var e := data[PwdRules].value;
      && StatusOf(PwdComplexity, data, py) == (if SaysAt(e, Switch, "yes") then Pass else Fail)
      && StatusOf(PwdMinLen, data, py) == Length(e, py)
      && StatusOf(PwdUppercase, data, py) == Minimum(e, MinUpper, 1, py)
      && StatusOf(PwdLowercase, data, py) == Minimum(e, MinLower, 1, py)
      && StatusOf(PwdNumeric, data, py) == Minimum(e, MinNumeric, 1, py)
      && StatusOf(PwdSpecial, data, py) == Minimum(e, MinSpecial, 1, py)
      && StatusOf(PwdDiffers, data, py) == Minimum(e, DiffersBy, 3, py)
      && StatusOf(PwdHistory, data, py) == Minimum(e, HistoryCount, 24, py)
      && StatusOf(PwdExpiry, data, py) == Expiry(e, py)
  {
    hide ToInt, ReadsText, LengthStatus, PwdMin, ExpiryStatus, Length, Minimum, Expiry;
    SentIs(data, PwdRules);
    if Sent(data, PwdRules) {
      var e := data[PwdRules].value;
      RulesAre(e, MinUpper, 1, py);
      RulesAre(e, MinLower, 1, py);
      RulesAre(e, MinNumeric, 1, py);
      RulesAre(e, MinSpecial, 1, py);
      RulesAre(e, DiffersBy, 3, py);
      RulesAre(e, HistoryCount, 24, py);
    }
  }

  lemma ProfilesMean(data: Data, py: Python)
    ensures StatusOf(Profiles, data, py)
         == if !Sent(data, PwdProfiles) then Manual
            else
              var entries := data[PwdProfiles].value.entries;
              if ProfileEntry in entries && entries[ProfileEntry] != [] then Warn else Pass
  {
  }

  /** The entries of the user list; none when it is not there. */
  ghost function UserList(e: Element): seq<Entry> { if UserEntry in e.entries then e.entries[UserEntry] else [] }

  ghost function Superusers(users: seq<Entry>): set<int> {
    set i | 0 <= i < |users| && SuperuserFlag in users[i].texts && users[i].texts[SuperuserFlag] == "yes"
  }

  lemma UsersMean(data: Data, py: Python)
    ensures !Sent(data, Users) ==> StatusOf(Superuser, data, py).Manual? && StatusOf(AdminDefault, data, py).Manual?
    ensures Sent(data, Users) ==>
      var users := UserList(data[Users].value);
      && StatusOf(Superuser, data, py)
         == (if |Superusers(users)| > 2 then Warn else Pass)
      && StatusOf(AdminDefault, data, py)
         == (if exists i :: 0 <= i < |users| && users[i].name == Some("admin") then Manual else Pass)
  {
    hide Where;
    SentIs(data, Users);
    if Sent(data, Users) {
      var users := UserList(data[Users].value);
      UsersVerdicts(data[Users].value, py);
      WhereCounts(users, Super());
      assert Superusers(users) == Places(users, Super());
    }
  }

  lemma SnmpMeans(data: Data, py: Python)
    ensures StatusOf(SnmpV2c, data, py)
         == if !Sent(data, Snmp) || SnmpAccess !in data[Snmp].value.texts then Manual
            else if SnmpV2cNode in data[Snmp].value.texts then Fail
            else Pass
  {
  }

  /** The endpoint was read and shows syslog forwarding in one of three places. */
  ghost predicate ShowsSyslog(data: Data, key: Endpoint) {
    && Sent(data, key)
    && (SendSyslog in data[key].value.texts || SyslogEntry in data[key].value.texts || SyslogNode in data[key].value.texts)
  }

  lemma LogsMean(data: Data, py: Python)
    ensures StatusOf(LogForward, data, py)
         == if !Sent(data, LogSettings) && !Sent(data, LogShared) then Manual
            else if ShowsSyslog(data, LogSettings) || ShowsSyslog(data, LogShared) then Pass
            else Fail
  {
    SentIs(data, LogSettings);
    SentIs(data, LogShared);
  }
}
