/**
 The F5 BIG-IP evaluator of app/drivers/f5.py: the branches of `inspect`, one `add` for every
 arm, against a reference that judges item by item; what a lost endpoint and what a lost field
 may do.
 */
module F5 {
  import opened Queries
  import opened Texts
  import opened Records
  import opened VersionLog
  import opened Devices
  import opened Readings

  datatype Endpoint =
    | Version | GlobalSettings | Sshd | Httpd | Ntp | Syslog | Snmp | PwdPolicy | Users | Cli | AuthSource | RemoteUser

  const ENDPOINTS: seq<Endpoint> :=
    [Version, GlobalSettings, Sshd, Httpd, Ntp, Syslog, Snmp, PwdPolicy, Users, Cli, AuthSource, RemoteUser]

  /** The fields of the replies, spelt as in iControl REST. */
  datatype Field =
    | GuiSecurityBanner | GuiSecurityBannerText | ConsoleInactivityTimeout | HostName | Banner | BannerText
    | InactivityTimeout | Allow | Include | AuthPamIdleTimeout | SslProtocol | IdleTimeout | Servers | TimeZone
    | PolicyEnforcement | MinimumLength | RequiredUppercase | RequiredLowercase | RequiredNumeric | RequiredSpecial
    | MaxLoginFailures | MaxDuration | PasswordMemory | ExpirationWarning | Accounts | Name | Type | DefaultRole
    | DefaultPartition | RemoteConsoleAccess | Communities | V3Users | RemoteServers

  type Body = Dict<Field>
  type Data = map<Endpoint, Body>

  datatype ItemId =
    | GuiBanner | ConsoleTimeout | SshdBanner | SshdTimeout | SshdAllow | SshAlgos | HttpdAllow | GuiTimeout | TlsVersion
    | TmshTimeout | Hostname | NtpServers | Timezone | PwdEnforced | PwdMinLen | PwdComplexity | LoginFailures | PwdMaxAge
    | PwdMemory | PwdWarning | AdminDefault | RemoteRole | RemotePartition | RemoteConsole | SnmpV1V2c | SyslogRemote

  /** `_GROUP_IDS`: what has to be filled in when an endpoint could not be read. */
  function GroupIds(key: Endpoint): seq<ItemId> {
    match key
    case GlobalSettings => [GuiBanner, ConsoleTimeout]
    case Sshd => [SshdBanner, SshdTimeout, SshdAllow, SshAlgos]
    case Httpd => [HttpdAllow, GuiTimeout, TlsVersion]
    case Ntp => [NtpServers, Timezone]
    case PwdPolicy => [PwdEnforced, PwdMinLen, PwdComplexity, LoginFailures, PwdMaxAge, PwdMemory, PwdWarning]
    case Users => [AdminDefault]
    case Syslog => [SyslogRemote]
    case Cli => [TmshTimeout]
    case RemoteUser => [RemoteRole, RemotePartition, RemoteConsole]
    case _ => []
  }

  /** Every item, in the order in which a full report lists them. */
  const MANAGEMENT: seq<ItemId> := GroupIds(GlobalSettings) + GroupIds(Sshd) + GroupIds(Httpd) + GroupIds(Cli)
  const SYSTEM: seq<ItemId> := [Hostname] + GroupIds(Ntp)
  const ACCOUNTS: seq<ItemId> := GroupIds(PwdPolicy) + GroupIds(Users) + GroupIds(RemoteUser)
  const REST: seq<ItemId> := [SnmpV1V2c] + GroupIds(Syslog)
  const CATALOGUE: seq<ItemId> := MANAGEMENT + SYSTEM + ACCOUNTS + REST

  function KeyOf(id: ItemId): Endpoint {
    match id
    case GuiBanner | ConsoleTimeout | Hostname => GlobalSettings
    case SshdBanner | SshdTimeout | SshdAllow | SshAlgos => Sshd
    case HttpdAllow | GuiTimeout | TlsVersion => Httpd
    case TmshTimeout => Cli
    case NtpServers | Timezone => Ntp
    case PwdEnforced | PwdMinLen | PwdComplexity | LoginFailures | PwdMaxAge | PwdMemory | PwdWarning => PwdPolicy
    case AdminDefault => Users
    case RemoteRole | RemotePartition | RemoteConsole => RemoteUser
    case SnmpV1V2c => Snmp
    case SyslogRemote => Syslog
  }

  // ----- the reference: one item, one body -----

  /** A numeric item: the field, and the range that passes. */
  datatype Bounds = Between(field: Field, low: int, high: int) | AtLeast(field: Field, low: int)

  predicate Numeric(id: ItemId) {
    || id.ConsoleTimeout? || id.SshdTimeout? || id.GuiTimeout? || id.PwdMinLen? || id.LoginFailures? || id.PwdMaxAge?
    || id.PwdMemory? || id.PwdWarning?
  }

  function BoundsOf(id: ItemId): Bounds
    requires Numeric(id)
  {
    match id
    case ConsoleTimeout => Between(ConsoleInactivityTimeout, 1, 600)
    case SshdTimeout => Between(InactivityTimeout, 1, 600)
    case GuiTimeout => Between(AuthPamIdleTimeout, 1, 600)
    case PwdMinLen => AtLeast(MinimumLength, 12)
    case LoginFailures => Between(MaxLoginFailures, 1, 3)
    case PwdMaxAge => Between(MaxDuration, 1, 180)
    case PwdMemory => AtLeast(PasswordMemory, 24)
    case PwdWarning => AtLeast(ExpirationWarning, 14)
  }

  predicate Inside(n: int, b: Bounds) { b.low <= n && (b.Between? ==> n <= b.high) }

  /** The status of a field that has to be a number in a range. */
  function RangeStatus(d: Body, b: Bounds, py: Python): Status {
    match Num(d.values, b.field, py)
    case None => Manual
    case Some(n) => if Inside(n, b) then Pass else Fail
  }

  function BannerStatus(on: Scalar, text: Scalar): Status {
    if on != Text("enabled") then Fail else if Trimmed(text) == "" then Warn else Pass
  }

  /** A list of management sources restricts them when it is there and names no wildcard. */
  function AllowStatus(sources: seq<string>, fold: string -> string, wildcard: string): Status {
    if sources != [] && forall a :: a in sources ==> fold(a) != wildcard then Pass else Fail
  }

  function AlgorithmStatus(algorithms: string, py: Python): Status {
    if algorithms == "" || py.lower(algorithms) == "none" then Warn
    else if py.matches(WeakSshAlgorithm, algorithms) then Fail
    else Pass
  }

  const WEAK_PROTOCOLS: seq<string> := ["SSLv2", "SSLv3", "TLSv1", "TLSv1.1"]

  predicate Excludes(token: string, p: string, py: Python) {
    StartsWith(token, "-") && py.lower(token[1..]) == py.lower(p)
  }

  function DropPlus(token: string): string { if StartsWith(token, "+") then DropPlus(token[1..]) else token }

  predicate Names(token: string, p: string, py: Python) {
    !StartsWith(token, "-") && py.lower(DropPlus(token)) == p
  }

  /** A protocol is on if it is named, or if all are and it is not taken back. */
  predicate On(tokens: seq<string>, p: string, py: Python) {
    if exists t :: t in tokens && Names(t, "all", py) then forall t :: t in tokens ==> !Excludes(t, p, py)
    else exists t :: t in tokens && Names(t, py.lower(p), py)
  }

  function TlsStatus(protocols: string, py: Python): Status {
    if protocols == "" then Manual
    else if exists p :: p in WEAK_PROTOCOLS && On(Words(protocols), p, py) then Fail
    else Pass
  }

  function TmshStatus(raw: Scalar, py: Python): Status {
    if raw.Null? then Manual
    else if py.lower(Str(raw)) == "disabled" then Fail
    else
      match ToInt(raw, py)
      case None => Manual
      case Some(n) => if n == 0 || n > 10 then Fail else Pass
  }

  const COMPLEXITY: seq<Field> := [RequiredUppercase, RequiredLowercase, RequiredNumeric, RequiredSpecial]

  function ComplexityStatus(d: Body, py: Python): Status {
    if exists k :: k in COMPLEXITY && Num(d.values, k, py).None? then Manual
    else if forall k :: k in COMPLEXITY ==> Num(d.values, k, py).value >= 1 then Pass
    else Fail
  }

  function SnmpStatus(d: Body): Status {
    if Communities !in d.tables then Manual
    else if d.tables[Communities] != [] then Fail
    else if RowsAt(d, V3Users) != [] then Pass
    else Warn
  }

  /** The item's status from the body of its endpoint. */
  function Verdict(id: ItemId, d: Body, py: Python): Status {
    match id
    case GuiBanner => BannerStatus(Value(d.values, GuiSecurityBanner), Value(d.values, GuiSecurityBannerText))
    case SshdBanner => BannerStatus(Value(d.values, Banner), Value(d.values, BannerText))
    case SshdAllow => AllowStatus(TextsAt(d, Allow), py.upper, "ALL")
    case HttpdAllow => AllowStatus(TextsAt(d, Allow), py.lower, "all")
    case SshAlgos => AlgorithmStatus(Trimmed(Value(d.values, Include)), py)
    case TlsVersion => TlsStatus(Trimmed(Value(d.values, SslProtocol)), py)
    case TmshTimeout => TmshStatus(Value(d.values, IdleTimeout), py)
    case Hostname => PassIf(Truthy(Value(d.values, HostName)))
    case NtpServers =>
      var n := |TextsAt(d, Servers)|;
      if n >= 2 then Pass else if n == 1 then Warn else Fail
    case Timezone => PassIf(Truthy(Value(d.values, TimeZone)))
    case PwdEnforced => PassIf(Value(d.values, PolicyEnforcement) == Text("enabled"))
    case PwdComplexity => ComplexityStatus(d, py)
    case AdminDefault => if HasText(RowsAt(d, Accounts), Name, "admin") then Manual else Pass
    case RemoteRole => Required(Value(d.values, DefaultRole), Value(d.values, DefaultRole) == Text("no-access"))
    case RemotePartition =>
      Required(Value(d.values, DefaultPartition), py.lower(Str(Value(d.values, DefaultPartition))) != "all")
    case RemoteConsole =>
      Required(Value(d.values, RemoteConsoleAccess), Value(d.values, RemoteConsoleAccess) == Text("disabled"))
    case SnmpV1V2c => SnmpStatus(d)
    case SyslogRemote => if RowsAt(d, RemoteServers) != [] then Pass else Warn
    case _ => RangeStatus(d, BoundsOf(id), py)
  }

  predicate LocalUsers(source: Body) { Get(source.values, Type, Text("local")) in [Text("local"), Text("")] }

  /** The item's status from whatever could be read. */
  function StatusOf(id: ItemId, data: Data, py: Python): Status {
    if KeyOf(id) !in data then Manual
    else if KeyOf(id).RemoteUser? && AuthSource !in data then Manual
    else if KeyOf(id).RemoteUser? && LocalUsers(data[AuthSource]) then NotApplicable
    else Verdict(id, data[KeyOf(id)], py)
  }

  function Judge(data: Data, py: Python): ItemId -> Status { (id: ItemId) => StatusOf(id, data, py) }

  // ----- the sections of `inspect`, one `add` for every arm -----

  /** An item of an endpoint that was read, judged on its body. */
  function Shown(d: Body, py: Python): ItemId -> Status { (id: ItemId) => Verdict(id, d, py) }

  lemma ReadGroup(key: Endpoint, data: Data, py: Python)
    requires key in data && !key.RemoteUser?
    ensures Judgement(GroupIds(key), Judge(data, py)) == Judgement(GroupIds(key), Shown(data[key], py))
  {
    hide Verdict;
  }

  lemma LostGroup(key: Endpoint, data: Data, py: Python)
    requires key !in data
    ensures Judgement(GroupIds(key), Judge(data, py)) == Judgement(GroupIds(key), Always(Manual))
  {
    hide Verdict;
  }

  /** `num` and its two arms: manual when the field could not be read, else by its range. */
  method AddNumber(before: seq<Item<ItemId>>, id: ItemId, d: Body, b: Bounds, py: Python)
    returns (items: seq<Item<ItemId>>)
    ensures items == before + [Item(id, RangeStatus(d, b, py))]
  {
    var n := Num(d.values, b.field, py);
    if n.None? {
      items := before + [Item(id, Manual)];
    } else {
      items := before + [Item(id, if Inside(n.value, b) then Pass else Fail)];
    }
  }

  /** A login banner has to be switched on and to say something. */
  method AddBanner(before: seq<Item<ItemId>>, id: ItemId, on: Scalar, text: Scalar) returns (items: seq<Item<ItemId>>)
    ensures items == before + [Item(id, BannerStatus(on, text))]
  {
    if on != Text("enabled") {
      items := before + [Item(id, Fail)];
    } else if Trimmed(text) == "" {
      items := before + [Item(id, Warn)];
    } else {
      items := before + [Item(id, Pass)];
    }
  }

  method InspectGlobal(data: Data, py: Python) returns (items: seq<Item<ItemId>>)
    ensures items == Judgement(GroupIds(GlobalSettings), Judge(data, py))
  {
    hide StatusOf;
    if GlobalSettings !in data {
      LostGroup(GlobalSettings, data, py);
      items := EmitGroup(GroupIds(GlobalSettings), Manual);
      return;
    }
    ReadGroup(GlobalSettings, data, py);
    var g := data[GlobalSettings];
    items := [];
    items := AddBanner(items, GuiBanner, Value(g.values, GuiSecurityBanner), Value(g.values, GuiSecurityBannerText));
    items := AddNumber(items, ConsoleTimeout, g, Between(ConsoleInactivityTimeout, 1, 600), py);
  }

  lemma SshdVerdicts(d: Body, py: Python)
    ensures Verdict(SshdBanner, d, py) == BannerStatus(Value(d.values, Banner), Value(d.values, BannerText))
    ensures Verdict(SshdTimeout, d, py) == RangeStatus(d, Between(InactivityTimeout, 1, 600), py)
    ensures Verdict(SshdAllow, d, py) == AllowStatus(TextsAt(d, Allow), py.upper, "ALL")
    ensures Verdict(SshAlgos, d, py) == AlgorithmStatus(Trimmed(Value(d.values, Include)), py)
  {
    hide BannerStatus, RangeStatus, AllowStatus, AlgorithmStatus, Trimmed, Value, TextsAt;
  }

  method InspectSshd(data: Data, py: Python) returns (items: seq<Item<ItemId>>)
    ensures items == Judgement(GroupIds(Sshd), Judge(data, py))
  {
    hide StatusOf, KeyOf, Verdict, RangeStatus, BannerStatus, Trimmed, Value, Num;
    if Sshd !in data {
      LostGroup(Sshd, data, py);
      items := EmitGroup(GroupIds(Sshd), Manual);
      return;
    }
    ReadGroup(Sshd, data, py);
    var sshd := data[Sshd];
    SshdVerdicts(sshd, py);
    items := [];
    items := AddBanner(items, SshdBanner, Value(sshd.values, Banner), Value(sshd.values, BannerText));
    items := AddNumber(items, SshdTimeout, sshd, Between(InactivityTimeout, 1, 600), py);
    var allow := TextsAt(sshd, Allow);
    var openAll := AnyIs(allow, py.upper, "ALL");
    items := items + [Item(SshdAllow, if openAll || allow == [] then Fail else Pass)];
    var algorithms := Trimmed(Value(sshd.values, Include));
    if algorithms == "" || py.lower(algorithms) == "none" {
      items := items + [Item(SshAlgos, Warn)];
    } else {
      items := items + [Item(SshAlgos, if py.matches(WeakSshAlgorithm, algorithms) then Fail else Pass)];
    }
  }

  /** The two token sets of `sslProtocol`, and which weak protocols they leave on. */
  method CheckTls(protocols: string, py: Python) returns (weak: seq<string>)
    ensures weak == Where(WEAK_PROTOCOLS, LeftOn(Words(protocols), py))
  {
    var tokens := Words(protocols);
    var negated := set t | t in tokens && StartsWith(t, "-") :: py.lower(t[1..]);
    var positive := set t | t in tokens && !StartsWith(t, "-") :: py.lower(DropPlus(t));
    assert forall s :: s in positive <==> exists t :: t in tokens && Names(t, s, py);
    weak := [];
    for i := 0 to |WEAK_PROTOCOLS|
      invariant weak == Where(WEAK_PROTOCOLS[..i], LeftOn(tokens, py))
    {
      var p := WEAK_PROTOCOLS[i];
      var enabled := if "all" in positive then py.lower(p) !in negated else py.lower(p) in positive;
      assert enabled == On(tokens, p, py);
      if enabled {
        weak := weak + [p];
      }
      assert WEAK_PROTOCOLS[..i + 1][..i] == WEAK_PROTOCOLS[..i];
    }
    assert WEAK_PROTOCOLS[..|WEAK_PROTOCOLS|] == WEAK_PROTOCOLS;
  }

  function LeftOn(tokens: seq<string>, py: Python): string -> bool { (p: string) => On(tokens, p, py) }

  method AddTls(before: seq<Item<ItemId>>, protocols: string, py: Python) returns (items: seq<Item<ItemId>>)
    ensures items == before + [Item(TlsVersion, TlsStatus(protocols, py))]
  {
    hide On, Words;
    if protocols == "" {
      items := before + [Item(TlsVersion, Manual)];
    } else {
      var weak := CheckTls(protocols, py);
      SomeSelected(WEAK_PROTOCOLS, LeftOn(Words(protocols), py));
      items := before + [Item(TlsVersion, if weak != [] then Fail else Pass)];
    }
  }

  lemma HttpdVerdicts(d: Body, py: Python)
    ensures Verdict(HttpdAllow, d, py) == AllowStatus(TextsAt(d, Allow), py.lower, "all")
    ensures Verdict(GuiTimeout, d, py) == RangeStatus(d, Between(AuthPamIdleTimeout, 1, 600), py)
    ensures Verdict(TlsVersion, d, py) == TlsStatus(Trimmed(Value(d.values, SslProtocol)), py)
  {
    hide AllowStatus, RangeStatus, TlsStatus, Trimmed, Value, TextsAt;
  }

  method InspectHttpd(data: Data, py: Python) returns (items: seq<Item<ItemId>>)
    ensures items == Judgement(GroupIds(Httpd), Judge(data, py))
  {
    hide StatusOf, KeyOf, Verdict, TlsStatus, RangeStatus, Trimmed, Value;
    if Httpd !in data {
      LostGroup(Httpd, data, py);
      items := EmitGroup(GroupIds(Httpd), Manual);
      return;
    }
    ReadGroup(Httpd, data, py);
    var httpd := data[Httpd];
    HttpdVerdicts(httpd, py);
    items := [];
    var allow := TextsAt(httpd, Allow);
    var openAll := AnyIs(allow, py.lower, "all");
    items := items + [Item(HttpdAllow, if openAll || allow == [] then Fail else Pass)];
    items := AddNumber(items, GuiTimeout, httpd, Between(AuthPamIdleTimeout, 1, 600), py);
    var protocols := Trimmed(Value(httpd.values, SslProtocol));
    items := AddTls(items, protocols, py);
  }

  method InspectCli(data: Data, py: Python) returns (items: seq<Item<ItemId>>)
    ensures items == Judgement(GroupIds(Cli), Judge(data, py))
  {
    hide StatusOf;
    if Cli !in data {
      LostGroup(Cli, data, py);
      items := EmitGroup(GroupIds(Cli), Manual);
      return;
    }
    ReadGroup(Cli, data, py);
    var raw := Value(data[Cli].values, IdleTimeout);
    var timeout := ToInt(raw, py);
    items := [];
    if raw.Null? {
      items := items + [Item(TmshTimeout, Manual)];
    } else if py.lower(Str(raw)) == "disabled" || timeout == Some(0) {
      items := items + [Item(TmshTimeout, Fail)];
    } else if timeout.None? {
      items := items + [Item(TmshTimeout, Manual)];
    } else {
      items := items + [Item(TmshTimeout, if timeout.value <= 10 then Pass else Fail)];
    }
  }

  method InspectHostname(data: Data, py: Python) returns (items: seq<Item<ItemId>>)
    ensures items == Judgement([Hostname], Judge(data, py))
  {
    if GlobalSettings in data {
      items := [Item(Hostname, if Truthy(Value(data[GlobalSettings].values, HostName)) then Pass else Fail)];
    } else {
      items := [Item(Hostname, Manual)];
    }
  }

  method InspectNtp(data: Data, py: Python) returns (items: seq<Item<ItemId>>)
    ensures items == Judgement(GroupIds(Ntp), Judge(data, py))
  {
    hide StatusOf;
    if Ntp !in data {
      LostGroup(Ntp, data, py);
      items := EmitGroup(GroupIds(Ntp), Manual);
      return;
    }
    ReadGroup(Ntp, data, py);
    var ntp := data[Ntp];
    items := [];
    var servers := TextsAt(ntp, Servers);
    if |servers| >= 2 {
      items := items + [Item(NtpServers, Pass)];
    } else if servers != [] {
      items := items + [Item(NtpServers, Warn)];
    } else {
      items := items + [Item(NtpServers, Fail)];
    }
    items := items + [Item(Timezone, if Truthy(Value(ntp.values, TimeZone)) then Pass else Fail)];
  }

  /** The four required-character fields: one that cannot be read decides, else all have to be positive. */
  method CheckComplexity(d: Body, py: Python) returns (status: Status)
    ensures status == ComplexityStatus(d, py)
  {
    var unread, positive := 0, 0;
    for i := 0 to |COMPLEXITY|
      invariant 0 <= unread && 0 <= positive && unread + positive <= i
      invariant unread == 0 <==> forall j :: 0 <= j < i ==> Num(d.values, COMPLEXITY[j], py).Some?
      invariant positive == i <==>
        forall j :: 0 <= j < i ==> Num(d.values, COMPLEXITY[j], py).Some? && Num(d.values, COMPLEXITY[j], py).value >= 1
    {
      var n := Num(d.values, COMPLEXITY[i], py);
      if n.None? {
        unread := unread + 1;
      } else if n.value >= 1 {
        positive := positive + 1;
      }
    }
    if unread != 0 {
      status := Manual;
    } else {
      status := if positive == 4 then Pass else Fail;
    }
  }

  lemma PasswordVerdicts(d: Body, py: Python)
    ensures Verdict(PwdEnforced, d, py) == PassIf(Value(d.values, PolicyEnforcement) == Text("enabled"))
    ensures Verdict(PwdMinLen, d, py) == RangeStatus(d, AtLeast(MinimumLength, 12), py)
    ensures Verdict(PwdComplexity, d, py) == ComplexityStatus(d, py)
    ensures Verdict(LoginFailures, d, py) == RangeStatus(d, Between(MaxLoginFailures, 1, 3), py)
    ensures Verdict(PwdMaxAge, d, py) == RangeStatus(d, Between(MaxDuration, 1, 180), py)
    ensures Verdict(PwdMemory, d, py) == RangeStatus(d, AtLeast(PasswordMemory, 24), py)
    ensures Verdict(PwdWarning, d, py) == RangeStatus(d, AtLeast(ExpirationWarning, 14), py)
  {
    hide RangeStatus, ComplexityStatus, Value, Num;
  }

  method InspectPasswords(data: Data, py: Python) returns (items: seq<Item<ItemId>>)
    ensures items == Judgement(GroupIds(PwdPolicy), Judge(data, py))
  {
    hide StatusOf, KeyOf, Verdict, RangeStatus, ComplexityStatus, Num, Value;
    if PwdPolicy !in data {
      LostGroup(PwdPolicy, data, py);
      items := EmitGroup(GroupIds(PwdPolicy), Manual);
      return;
    }
    ReadGroup(PwdPolicy, data, py);
    var pp := data[PwdPolicy];
    PasswordVerdicts(pp, py);
    items := [Item(PwdEnforced, if Value(pp.values, PolicyEnforcement) == Text("enabled") then Pass else Fail)];
    items := AddNumber(items, PwdMinLen, pp, AtLeast(MinimumLength, 12), py);
    var complexity := CheckComplexity(pp, py);
    items := items + [Item(PwdComplexity, complexity)];
    items := AddNumber(items, LoginFailures, pp, Between(MaxLoginFailures, 1, 3), py);
    items := AddNumber(items, PwdMaxAge, pp, Between(MaxDuration, 1, 180), py);
    items := AddNumber(items, PwdMemory, pp, AtLeast(PasswordMemory, 24), py);
    items := AddNumber(items, PwdWarning, pp, AtLeast(ExpirationWarning, 14), py);
  }

  lemma UsersStatus(data: Data, py: Python)
    requires Users in data
    ensures StatusOf(AdminDefault, data, py)
         == (if HasText(RowsAt(data[Users], Accounts), Name, "admin") then Manual else Pass)
  {
    hide HasText;
  }

  method InspectUsers(data: Data, py: Python) returns (items: seq<Item<ItemId>>)
    ensures items == Judgement(GroupIds(Users), Judge(data, py))
  {
    hide StatusOf, KeyOf, HasText;
    if Users !in data {
      LostGroup(Users, data, py);
      items := EmitGroup(GroupIds(Users), Manual);
      return;
    }
    UsersStatus(data, py);
    var hasAdmin := AnyHas(RowsAt(data[Users], Accounts), Name, "admin");
    items := [Item(AdminDefault, if hasAdmin then Manual else Pass)];
  }

  lemma RemoteGroup(data: Data, py: Python)
    requires RemoteUser in data
    ensures AuthSource !in data ==>
      Judgement(GroupIds(RemoteUser), Judge(data, py)) == Judgement(GroupIds(RemoteUser), Always(Manual))
    ensures AuthSource in data && LocalUsers(data[AuthSource]) ==>
      Judgement(GroupIds(RemoteUser), Judge(data, py)) == Judgement(GroupIds(RemoteUser), Always(NotApplicable))
    ensures AuthSource in data && !LocalUsers(data[AuthSource]) ==>
      Judgement(GroupIds(RemoteUser), Judge(data, py)) == Judgement(GroupIds(RemoteUser), Shown(data[RemoteUser], py))
  {
    hide Verdict, LocalUsers;
  }

  lemma RemoteVerdicts(d: Body, py: Python)
    ensures var role, partition, console :=
        Value(d.values, DefaultRole), Value(d.values, DefaultPartition), Value(d.values, RemoteConsoleAccess);
      && Verdict(RemoteRole, d, py) == Required(role, role == Text("no-access"))
      && Verdict(RemotePartition, d, py) == Required(partition, py.lower(Str(partition)) != "all")
      && Verdict(RemoteConsole, d, py) == Required(console, console == Text("disabled"))
  {
    hide Required, Value, Str;
  }

  /** External users: judged only when neither of two endpoints was lost and users are not local. */
  method InspectRemoteUsers(data: Data, py: Python) returns (items: seq<Item<ItemId>>)
    ensures items == Judgement(GroupIds(RemoteUser), Judge(data, py))
  {
    hide StatusOf, KeyOf, Verdict, Required, LocalUsers, Value, Str;
    if RemoteUser !in data {
      LostGroup(RemoteUser, data, py);
      items := EmitGroup(GroupIds(RemoteUser), Manual);
      return;
    }
    RemoteGroup(data, py);
    if AuthSource !in data {
      items := EmitGroup(GroupIds(RemoteUser), Manual);
    } else if LocalUsers(data[AuthSource]) {
      items := EmitGroup(GroupIds(RemoteUser), NotApplicable);
    } else {
      var ru := data[RemoteUser].values;
      RemoteVerdicts(data[RemoteUser], py);
      items := AddRequired([], RemoteRole, Value(ru, DefaultRole), Value(ru, DefaultRole) == Text("no-access"));
      items := AddRequired(items, RemotePartition, Value(ru, DefaultPartition),
                           py.lower(Str(Value(ru, DefaultPartition))) != "all");
      items := AddRequired(items, RemoteConsole, Value(ru, RemoteConsoleAccess),
                           Value(ru, RemoteConsoleAccess) == Text("disabled"));
    }
  }

  method InspectSnmp(data: Data, py: Python) returns (items: seq<Item<ItemId>>)
    ensures items == Judgement([SnmpV1V2c], Judge(data, py))
  {
    if Snmp !in data {
      items := [Item(SnmpV1V2c, Manual)];
    } else if Communities !in data[Snmp].tables {
      items := [Item(SnmpV1V2c, Manual)];
    } else if data[Snmp].tables[Communities] != [] {
      items := [Item(SnmpV1V2c, Fail)];
    } else {
      items := [Item(SnmpV1V2c, if RowsAt(data[Snmp], V3Users) != [] then Pass else Warn)];
    }
  }

  method InspectSyslog(data: Data, py: Python) returns (items: seq<Item<ItemId>>)
    ensures items == Judgement(GroupIds(Syslog), Judge(data, py))
  {
    hide StatusOf;
    if Syslog !in data {
      LostGroup(Syslog, data, py);
      items := EmitGroup(GroupIds(Syslog), Manual);
    } else {
      ReadGroup(Syslog, data, py);
      items := [Item(SyslogRemote, if RowsAt(data[Syslog], RemoteServers) != [] then Pass else Warn)];
    }
  }

  method InspectManagement(data: Data, py: Python) returns (items: seq<Item<ItemId>>)
    ensures items == Judgement(MANAGEMENT, Judge(data, py))
  {
    hide GroupIds, StatusOf;
    var global := InspectGlobal(data, py);
    var sshd := InspectSshd(data, py);
    var httpd := InspectHttpd(data, py);
    var cli := InspectCli(data, py);
    items := global + sshd + httpd + cli;
  }

  method InspectAccounts(data: Data, py: Python) returns (items: seq<Item<ItemId>>)
    ensures items == Judgement(ACCOUNTS, Judge(data, py))
  {
    hide GroupIds, StatusOf;
    var passwords := InspectPasswords(data, py);
    var users := InspectUsers(data, py);
    var remote := InspectRemoteUsers(data, py);
    items := passwords + users + remote;
  }

  /** `inspect`: fetch what can be fetched, then emit every section. */
  method Inspect(replies: Endpoint -> Reply<Body>, py: Python) returns (outcome: Outcome<ItemId>)
    ensures outcome == Inspected(replies, py)
    ensures outcome.Report? ==> Ids(outcome.items) == CATALOGUE
  {
    hide GroupIds, StatusOf, MANAGEMENT, ACCOUNTS, ENDPOINTS, Held, Connected;
    var fetched := Fetch(ENDPOINTS, replies);
    if fetched.None? {
      return Raised;
    }
    var data := fetched.value;
    var management := InspectManagement(data, py);
    var hostname := InspectHostname(data, py);
    var ntp := InspectNtp(data, py);
    var accounts := InspectAccounts(data, py);
    var snmp := InspectSnmp(data, py);
    var syslog := InspectSyslog(data, py);
    outcome := Report(management + hostname + ntp + accounts + snmp + syslog);
  }

  /** The reference: every catalogue item judged from whatever could be read. */
  function Inspected(replies: Endpoint -> Reply<Body>, py: Python): Outcome<ItemId> {
    var data := Held(ENDPOINTS, replies);
    if !Connected(ENDPOINTS, replies) || data == map[] then Raised
    else Report(Judgement(CATALOGUE, Judge(data, py)))
  }

  function Rank(id: ItemId): nat {
    match id
    case GuiBanner => 0
    case ConsoleTimeout => 1
    case SshdBanner => 2
    case SshdTimeout => 3
    case SshdAllow => 4
    case SshAlgos => 5
    case HttpdAllow => 6
    case GuiTimeout => 7
    case TlsVersion => 8
    case TmshTimeout => 9
    case Hostname => 10
    case NtpServers => 11
    case Timezone => 12
    case PwdEnforced => 13
    case PwdMinLen => 14
    case PwdComplexity => 15
    case LoginFailures => 16
    case PwdMaxAge => 17
    case PwdMemory => 18
    case PwdWarning => 19
    case AdminDefault => 20
    case RemoteRole => 21
    case RemotePartition => 22
    case RemoteConsole => 23
    case SnmpV1V2c => 24
    case SyslogRemote => 25
  }

  lemma RankManagement()
    ensures |MANAGEMENT| == 10 && forall i :: 0 <= i < 10 ==> Rank(MANAGEMENT[i]) == i
  {
  }

  lemma RankSystem()
    ensures |SYSTEM| == 3 && forall i :: 0 <= i < 3 ==> Rank(SYSTEM[i]) == 10 + i
  {
  }

  lemma RankAccounts()
    ensures |ACCOUNTS| == 11 && forall i :: 0 <= i < 11 ==> Rank(ACCOUNTS[i]) == 13 + i
  {
  }

  lemma RankRest()
    ensures |REST| == 2 && forall i :: 0 <= i < 2 ==> Rank(REST[i]) == 24 + i
  {
  }

  lemma RankIsOne(id: ItemId)
    ensures Rank(id) < 26
    ensures forall other :: Rank(id) == Rank(other) ==> id == other
  {
  }

  /** The catalogue lists every item, and lists it once. */
  lemma CatalogueOnce()
    ensures Once(CATALOGUE)
    ensures forall id :: id in CATALOGUE
  {
    RankManagement();
    RankSystem();
    RankAccounts();
    RankRest();
    hide MANAGEMENT, SYSTEM, ACCOUNTS, REST, Rank;
    assert |CATALOGUE| == 26;
    forall i | 0 <= i < 26 ensures Rank(CATALOGUE[i]) == i {}
    forall id ensures id in CATALOGUE {
      RankIsOne(id);
      assert CATALOGUE[Rank(id)] == id;
    }
  }

  // ----- lost endpoints -----

  function Needs(id: ItemId): set<Endpoint> { {KeyOf(id)} + if KeyOf(id) == RemoteUser then {AuthSource} else {} }

  predicate Safe(id: ItemId, data: Data, lost: set<Endpoint>, py: Python) {
    && Degrades(StatusOf(id, data, py), StatusOf(id, data - lost, py))
    && (StatusOf(id, data, py) != StatusOf(id, data - lost, py) ==> Needs(id) * lost != {})
  }

  lemma StatusUnderLoss(id: ItemId, data: Data, lost: set<Endpoint>, py: Python)
    ensures Safe(id, data, lost, py)
  {
    hide Verdict, LocalUsers;
  }

  /**
   Endpoint loss is safe. Whatever the replies and whatever further endpoints are lost, as long
   as one is left: the same items are listed in the same order, each once; an item changes its
   status only when an endpoint it needs was lost, and then only to manual, so no item becomes
   pass.
   */
  lemma LossIsSafe(replies: Endpoint -> Reply<Body>, lost: set<Endpoint>, py: Python)
    requires Inspected(replies, py).Report?
    requires exists k :: k in ENDPOINTS && replies(k).Body? && k !in lost
    ensures var full, partial := Inspected(replies, py), Inspected(Losing(replies, lost), py);
      && partial.Report?
      && Ids(full.items) == Ids(partial.items) == CATALOGUE && Once(CATALOGUE)
      && (forall i :: 0 <= i < |CATALOGUE| ==>
            && Degrades(full.items[i].status, partial.items[i].status)
            && (full.items[i].status != partial.items[i].status ==> Needs(CATALOGUE[i]) * lost != {}))
  {
    hide CATALOGUE, StatusOf, ENDPOINTS;
    LosingHeld(ENDPOINTS, replies, lost);
    CatalogueOnce();
    var data := Held(ENDPOINTS, replies);
    var k :| k in ENDPOINTS && replies(k).Body? && k !in lost;
    assert k in data - lost;
    JudgementIds(CATALOGUE, Judge(data, py));
    JudgementIds(CATALOGUE, Judge(data - lost, py));
    forall i | 0 <= i < |CATALOGUE| ensures Safe(CATALOGUE[i], data, lost, py) {
      StatusUnderLoss(CATALOGUE[i], data, lost, py);
    }
  }

  /**
   So two visits, whatever each of them could read, leave no new and no gone rows in the version
   log: they list the same items.
   */
  lemma VisitsAreSilent(before: Endpoint -> Reply<Body>, after: Endpoint -> Reply<Body>, py: Python,
                        log: seq<ItemVersion>, first: Stamp, second: Stamp,
                        name: ItemId -> string, descA: Item<ItemId> -> string, descB: Item<ItemId> -> string,
                        disabled: set<string>)
    requires Inspected(before, py).Report? && Inspected(after, py).Report?
    requires Fits(log) && Naming(name)
    ensures var a := Kept(Collect(Inspected(before, py).items, Reported(name, descA)), disabled);
      var b := Kept(Collect(Inspected(after, py).items, Reported(name, descB)), disabled);
      a != [] ==> forall v :: v in Recorded(Record(log, first, a, disabled), second, b, disabled) ==> Changed(v)
  {
    hide CATALOGUE, Kept, Recorded, Record, StatusOf, ENDPOINTS;
    CatalogueOnce();
    JudgementIds(CATALOGUE, Judge(Held(ENDPOINTS, before), py));
    JudgementIds(CATALOGUE, Judge(Held(ENDPOINTS, after), py));
    OutageIsNoChurn(log, first, Inspected(before, py).items, second, Inspected(after, py).items,
                    name, descA, descB, disabled);
  }

  // ----- numbers that cannot be read -----

  /** The numeric fields of an item. */
  function NumbersOf(id: ItemId): set<Field> {
    if Numeric(id) then {BoundsOf(id).field}
    else if id.PwdComplexity? then set k | k in COMPLEXITY
    else if id.TmshTimeout? then {IdleTimeout}
    else {}
  }

  /** The range that passes; the tmsh timeout has no lower end, but zero is out. */
  predicate InBounds(id: ItemId, n: int) {
    if Numeric(id) then Inside(n, BoundsOf(id))
    else if id.PwdComplexity? then n >= 1
    else id.TmshTimeout? ==> n != 0 && n <= 10
  }

  /** The one word that is read without being a number. */
  predicate SaysDisabled(id: ItemId, row: Row<Field>, py: Python) {
    var raw := Value(row, IdleTimeout);
    id.TmshTimeout? && !raw.Null? && py.lower(Str(raw)) == "disabled"
  }

  predicate FailSafe(id: ItemId, d: Body, py: Python) {
    var row, status := d.values, Verdict(id, d, py);
    if SaysDisabled(id, row, py) then status.Fail?
    else if exists f :: f in NumbersOf(id) && Num(row, f, py).None? then status.Manual?
    else if forall f :: f in NumbersOf(id) ==> InBounds(id, Num(row, f, py).value) then status.Pass?
    else status.Fail?
  }

  lemma ComplexityFailSafe(d: Body, py: Python)
    ensures FailSafe(PwdComplexity, d, py)
  {
    hide Num;
    assert forall f :: f in NumbersOf(PwdComplexity) <==> f in COMPLEXITY;
  }

  lemma TmshFailSafe(d: Body, py: Python)
    ensures FailSafe(TmshTimeout, d, py)
  {
    assert NumbersOf(TmshTimeout) == {IdleTimeout};
  }

  lemma RangeFailSafe(id: ItemId, d: Body, py: Python)
    requires Numeric(id)
    ensures FailSafe(id, d, py)
  {
    hide Num;
    assert NumbersOf(id) == {BoundsOf(id).field};
  }

  /**
   A numeric item is manual when one of its fields is absent or not a number, and otherwise it
   passes if and only if all of them are in range; it is never judged on a guess. The one word
   that is read without being a number is `disabled`, for the tmsh timeout, and it fails.
   */
  lemma NumbersFailSafe(id: ItemId, data: Data, py: Python)
    requires NumbersOf(id) != {} && KeyOf(id) in data
    ensures StatusOf(id, data, py) == Verdict(id, data[KeyOf(id)], py)
    ensures FailSafe(id, data[KeyOf(id)], py)
  {
    hide Verdict, FailSafe;
    if id.PwdComplexity? {
      ComplexityFailSafe(data[KeyOf(id)], py);
    } else if id.TmshTimeout? {
      TmshFailSafe(data[KeyOf(id)], py);
    } else {
      RangeFailSafe(id, data[KeyOf(id)], py);
    }
  }

  // ----- lost fields -----

  /** The fields whose absence reads as compliance: without the account list there is no `admin`. */
  function Exposed(id: ItemId): set<Field> { if id.AdminDefault? then {Accounts, Name} else {} }

  function Cutting(gone: Endpoint -> set<Field>): (Endpoint, Body) -> Body {
    (k: Endpoint, d: Body) => Without(d, gone(k))
  }

  lemma NumberUnderCut(d: Body, gone: set<Field>, b: Bounds, py: Python)
    ensures RangeStatus(Without(d, gone), b, py).Pass? ==> RangeStatus(d, b, py).Pass?
  {
  }

  lemma ComplexityUnderCut(d: Body, gone: set<Field>, py: Python)
    ensures ComplexityStatus(Without(d, gone), py).Pass? ==> ComplexityStatus(d, py).Pass?
  {
    var cut := Without(d, gone);
    if ComplexityStatus(cut, py).Pass? {
      forall k | k in COMPLEXITY ensures Num(d.values, k, py) == Num(cut.values, k, py) {
        assert Num(cut.values, k, py).Some?;
      }
    }
  }

  lemma AccountsUnderCut(d: Body, gone: set<Field>)
    requires Accounts !in gone && Name !in gone
    ensures HasText(RowsAt(d, Accounts), Name, "admin") ==> HasText(RowsAt(Without(d, gone), Accounts), Name, "admin")
  {
    hide HasText;
    var rows, cut := RowsAt(d, Accounts), RowsAt(Without(d, gone), Accounts);
    assert |cut| == |rows| && forall i :: 0 <= i < |rows| ==> Value(cut[i], Name) == Value(rows[i], Name);
    SameTexts(rows, cut, Name, "admin");
  }

  lemma VerdictUnderCut(id: ItemId, d: Body, gone: set<Field>, py: Python)
    requires gone !! Exposed(id)
    ensures Verdict(id, Without(d, gone), py).Pass? ==> Verdict(id, d, py).Pass?
  {
    hide RangeStatus, ComplexityStatus, BoundsOf, ToInt, Digits, Words, On, Strip;
    var cut := Without(d, gone);
    if Numeric(id) {
      NumberUnderCut(d, gone, BoundsOf(id), py);
    }
    ComplexityUnderCut(d, gone, py);
    NothingRead(py);
    if id.AdminDefault? {
      AccountsUnderCut(d, gone);
    }
  }

  /**
   Field loss is safe. Whatever fields vanish from whatever bodies, at the top or inside a
   table, the same items are listed and none becomes pass, unless the fields that vanish are
   the ones `Exposed` names.
   */
  lemma FieldLossIsSafe(replies: Endpoint -> Reply<Body>, gone: Endpoint -> set<Field>, py: Python)
    requires Inspected(replies, py).Report?
    ensures var full, partial := Inspected(replies, py), Inspected(Altered(replies, Cutting(gone)), py);
      && partial.Report? && Ids(full.items) == Ids(partial.items) == CATALOGUE
      && forall i :: 0 <= i < |CATALOGUE| && gone(KeyOf(CATALOGUE[i])) !! Exposed(CATALOGUE[i]) ==>
           partial.items[i].status.Pass? ==> full.items[i].status.Pass?
  {
    hide CATALOGUE, ENDPOINTS;
    AlteredHeld(ENDPOINTS, replies, Cutting(gone));
    var data := Held(ENDPOINTS, replies);
    var k :| k in data;
    assert k in AlteredData(data, Cutting(gone));
    JudgementIds(CATALOGUE, Judge(data, py));
    JudgementIds(CATALOGUE, Judge(AlteredData(data, Cutting(gone)), py));
    forall i | 0 <= i < |CATALOGUE| && gone(KeyOf(CATALOGUE[i])) !! Exposed(CATALOGUE[i])
      ensures StatusOf(CATALOGUE[i], AlteredData(data, Cutting(gone)), py).Pass? ==> StatusOf(CATALOGUE[i], data, py).Pass?
    {
      StatusUnderCut(CATALOGUE[i], data, gone, py);
    }
  }

  lemma StatusUnderCut(id: ItemId, data: Data, gone: Endpoint -> set<Field>, py: Python)
    requires gone(KeyOf(id)) !! Exposed(id)
    ensures StatusOf(id, AlteredData(data, Cutting(gone)), py).Pass? ==> StatusOf(id, data, py).Pass?
  {
    hide Verdict, Without;
    if KeyOf(id) in data {
      VerdictUnderCut(id, data[KeyOf(id)], gone(KeyOf(id)), py);
    }
    if AuthSource in data && LocalUsers(data[AuthSource]) {
      SourceUnderCut(data, gone);
    }
  }

  lemma SourceUnderCut(data: Data, gone: Endpoint -> set<Field>)
    requires AuthSource in data && LocalUsers(data[AuthSource])
    ensures LocalUsers(Without(data[AuthSource], gone(AuthSource)))
  {
  }

  /** Losing one field turns an item that did not pass into one that does. */
  predicate Conceals(id: ItemId, f: Field, data: Data, py: Python) {
    && !StatusOf(id, data, py).Pass?
    && StatusOf(id, AlteredData(data, Cutting((k: Endpoint) => if k == KeyOf(id) then {f} else {})), py).Pass?
  }

  const ADMIN: Row<Field> := map[Name := Text("admin")]
  const ONE_ADMIN: Body := Dict(map[], map[], map[Accounts := [ADMIN]])

  lemma HiddenAdmin(f: Field)
    requires f == Accounts || f == Name
    ensures HasText(RowsAt(ONE_ADMIN, Accounts), Name, "admin")
    ensures !HasText(RowsAt(Without(ONE_ADMIN, {f}), Accounts), Name, "admin")
  {
    assert RowsAt(ONE_ADMIN, Accounts) == [ADMIN] && Value([ADMIN][0], Name) == Text("admin");
    assert RowsAt(Without(ONE_ADMIN, {f}), Accounts) == if f == Accounts then [] else [ADMIN - {Name}];
  }

  /** And the fields that `Exposed` names are exactly those that can do it. */
  lemma ExposedExactly(id: ItemId, f: Field, py: Python)
    ensures f in Exposed(id) <==> exists data :: Conceals(id, f, data, py)
  {
    hide StatusOf, HasText, Without, RowsAt, ONE_ADMIN;
    if f in Exposed(id) {
      HiddenAdmin(f);
      var only := (k: Endpoint) => if k == KeyOf(id) then {f} else {};
      var data := map[Users := ONE_ADMIN];
      UsersStatus(data, py);
      UsersStatus(AlteredData(data, Cutting(only)), py);
      assert Conceals(id, f, data, py);
    } else {
      forall data ensures !Conceals(id, f, data, py) {
        StatusUnderCut(id, data, (k: Endpoint) => if k == KeyOf(id) then {f} else {}, py);
      }
    }
  }

  // ----- what every status means, said of the reply -----

  /**
   A visit reports unless the connection goes down or nothing can be read, and the report lists
   every item with its status from exactly the bodies that could be read.
   */
  lemma ReportIs(replies: Endpoint -> Reply<Body>, py: Python)
    ensures var data, outcome := Held(ENDPOINTS, replies), Inspected(replies, py);
      && (forall k :: k in data <==> replies(k).Body?) && (forall k :: k in data ==> data[k] == replies(k).body)
      && (outcome.Report? <==>
            (forall k :: !replies(k).Down?) && (exists k :: replies(k).Body?))
      && (outcome.Report? ==>
            && (forall it :: it in outcome.items ==> it.status == StatusOf(it.id, data, py))
            && (forall id :: Item(id, StatusOf(id, data, py)) in outcome.items))
  {
    hide CATALOGUE, StatusOf, ENDPOINTS;
    AllEndpoints();
    var data, outcome := Held(ENDPOINTS, replies), Inspected(replies, py);
    CatalogueOnce();
    if outcome.Report? {
      forall id ensures Item(id, StatusOf(id, data, py)) in outcome.items {
        assert id in CATALOGUE;
        var i :| 0 <= i < |CATALOGUE| && CATALOGUE[i] == id;
        assert outcome.items[i] == Item(id, StatusOf(id, data, py));
      }
    }
  }

  lemma AllEndpoints()
    ensures forall k :: k in ENDPOINTS
  {
    forall k ensures k in ENDPOINTS {
      assert k.Version? ==> ENDPOINTS[0] == k;
      assert k.GlobalSettings? ==> ENDPOINTS[1] == k;
      assert k.Sshd? ==> ENDPOINTS[2] == k;
      assert k.Httpd? ==> ENDPOINTS[3] == k;
      assert k.Ntp? ==> ENDPOINTS[4] == k;
      assert k.Syslog? ==> ENDPOINTS[5] == k;
      assert k.Snmp? ==> ENDPOINTS[6] == k;
      assert k.PwdPolicy? ==> ENDPOINTS[7] == k;
      assert k.Users? ==> ENDPOINTS[8] == k;
      assert k.Cli? ==> ENDPOINTS[9] == k;
      assert k.AuthSource? ==> ENDPOINTS[10] == k;
      assert k.RemoteUser? ==> ENDPOINTS[11] == k;
    }
  }

  /** A login banner: switched on, and saying something. */
  ghost function Greets(v: Row<Field>, on: Field, text: Field): Status {
    if !Says(v, on, "enabled") then Fail else if Spells(v, text, "") then Warn else Pass
  }

  lemma GreetsIs(v: Row<Field>, on: Field, text: Field)
    ensures BannerStatus(Value(v, on), Value(v, text)) == Greets(v, on, text)
  {
    hide Trimmed, Spells;
    SpellsIs(v, text, "");
  }

  lemma BoundedIs(d: Body, f: Field, low: int, high: int, py: Python)
    ensures RangeStatus(d, Between(f, low, high), py) == Ranged(d.values, f, low, high, py)
    ensures RangeStatus(d, AtLeast(f, low), py) == RangedFrom(d.values, f, low, py)
  {
    hide Num, Ranged, RangedFrom;
    RangedIs(d.values, f, low, high, py);
  }

  lemma GlobalMeans(data: Data, py: Python)
    ensures GlobalSettings !in data ==>
      forall id :: id in {GuiBanner, ConsoleTimeout, Hostname} ==> StatusOf(id, data, py).Manual?
    ensures GlobalSettings in data ==>
      var v := data[GlobalSettings].values;
      && StatusOf(GuiBanner, data, py) == Greets(v, GuiSecurityBanner, GuiSecurityBannerText)
      && StatusOf(ConsoleTimeout, data, py) == Ranged(v, ConsoleInactivityTimeout, 1, 600, py)
      && StatusOf(Hostname, data, py) == if Holds(v, HostName) then Pass else Fail
  {
    hide BannerStatus, RangeStatus, Value, Truthy, Greets, Ranged, Holds;
    if GlobalSettings in data {
      var d := data[GlobalSettings];
      GreetsIs(d.values, GuiSecurityBanner, GuiSecurityBannerText);
      BoundedIs(d, ConsoleInactivityTimeout, 1, 600, py);
      HoldsIs(d.values, HostName);
    }
  }

  /** A list of sources that is there, is not empty and has no entry that folds to the wildcard. */
  ghost predicate Narrow(d: Body, fold: string -> string, wildcard: string) {
    Allow in d.texts && d.texts[Allow] != [] && forall a :: a in d.texts[Allow] ==> fold(a) != wildcard
  }

  lemma NarrowIs(d: Body, fold: string -> string, wildcard: string)
    ensures AllowStatus(TextsAt(d, Allow), fold, wildcard) == if Narrow(d, fold, wildcard) then Pass else Fail
  {
  }

  /** The included configuration names algorithms, none of them known to be weak. */
  ghost function Algorithms(v: Row<Field>, py: Python): Status {
    if exists t :: Spells(v, Include, t) && (t == "" || py.lower(t) == "none") then Warn
    else if exists t :: Spells(v, Include, t) && py.matches(WeakSshAlgorithm, t) then Fail
    else Pass
  }

  lemma AlgorithmsIs(v: Row<Field>, py: Python)
    ensures AlgorithmStatus(Trimmed(Value(v, Include)), py) == Algorithms(v, py)
  {
    hide Trimmed, Spells;
    forall t ensures Spells(v, Include, t) <==> t == Trimmed(Value(v, Include)) { SpellsIs(v, Include, t); }
    assert Spells(v, Include, Trimmed(Value(v, Include)));
  }

  lemma SshdMeans(data: Data, py: Python)
    ensures Sshd !in data ==>
      forall id :: id in {SshdBanner, SshdTimeout, SshdAllow, SshAlgos} ==> StatusOf(id, data, py).Manual?
    ensures Sshd in data ==>
      var d := data[Sshd];
      && StatusOf(SshdBanner, data, py) == Greets(d.values, Banner, BannerText)
      && StatusOf(SshdTimeout, data, py) == Ranged(d.values, InactivityTimeout, 1, 600, py)
      && StatusOf(SshdAllow, data, py) == (if Narrow(d, py.upper, "ALL") then Pass else Fail)
      && StatusOf(SshAlgos, data, py) == Algorithms(d.values, py)
  {
    hide BannerStatus, RangeStatus, AllowStatus, AlgorithmStatus, Value, Trimmed, TextsAt;
    hide Greets, Ranged, Narrow, Algorithms;
    if Sshd in data {
      var d := data[Sshd];
      GreetsIs(d.values, Banner, BannerText);
      BoundedIs(d, InactivityTimeout, 1, 600, py);
      NarrowIs(d, py.upper, "ALL");
      AlgorithmsIs(d.values, py);
    }
  }

  /** The protocols name this one, a leading `+` aside; or take this one back. */
  ghost predicate NamedIn(t: string, p: string, py: Python) {
    exists plus, name ::
      && IsWordOf(t, plus + name) && (forall i :: 0 <= i < |plus| ==> plus[i] == '+')
      && (name != "" ==> name[0] != '+') && (plus == "" && name != "" ==> name[0] != '-') && py.lower(name) == p
  }

  ghost predicate TakenBack(t: string, p: string, py: Python) {
    exists name :: IsWordOf(t, "-" + name) && py.lower(name) == py.lower(p)
  }

  /** A protocol is left on: all are named and it is not taken back, or else it is named itself. */
  ghost predicate LeavesOn(t: string, p: string, py: Python) {
    if NamedIn(t, "all", py) then !TakenBack(t, p, py) else NamedIn(t, py.lower(p), py)
  }

  lemma {:induction false} DropPlusIs(w: string)
    ensures exists plus :: && w == plus + DropPlus(w) && (forall i :: 0 <= i < |plus| ==> plus[i] == '+')
                           && (w != "" && w[0] != '+' ==> plus == "")
    ensures DropPlus(w) != "" ==> DropPlus(w)[0] != '+'
  {
    if StartsWith(w, "+") {
      DropPlusIs(w[1..]);
      var plus :| w[1..] == plus + DropPlus(w[1..]) && forall i :: 0 <= i < |plus| ==> plus[i] == '+';
      assert w == ("+" + plus) + DropPlus(w);
    } else {
      assert w != "" ==> w[..1] == [w[0]];
      assert w == "" + DropPlus(w);
    }
  }

  lemma {:induction false} PlusDropped(plus: string, name: string)
    requires (forall i :: 0 <= i < |plus| ==> plus[i] == '+') && (name != "" ==> name[0] != '+')
    ensures DropPlus(plus + name) == name
  {
    if plus == "" {
      assert plus + name == name;
      assert name != "" ==> name[..1] == [name[0]];
    } else {
      assert (plus + name)[..1] == "+" && (plus + name)[1..] == plus[1..] + name;
      PlusDropped(plus[1..], name);
    }
  }

  lemma NamedInIs(t: string, p: string, py: Python)
    ensures NamedIn(t, p, py) <==> exists w :: w in Words(t) && Names(w, p, py)
  {
    hide Words, IsWordOf;
    if NamedIn(t, p, py) {
      var plus, name :|
        && IsWordOf(t, plus + name) && (forall i :: 0 <= i < |plus| ==> plus[i] == '+')
        && (name != "" ==> name[0] != '+') && (plus == "" && name != "" ==> name[0] != '-') && py.lower(name) == p;
      WordsAre(t, plus + name);
      PlusDropped(plus, name);
      assert Names(plus + name, p, py);
    }
    if w :| w in Words(t) && Names(w, p, py) {
      WordsAre(t, w);
      DropPlusIs(w);
      var plus :| && w == plus + DropPlus(w) && (forall i :: 0 <= i < |plus| ==> plus[i] == '+')
                  && (w != "" && w[0] != '+' ==> plus == "");
      assert w[..1] == [w[0]];
    }
  }

  lemma TakenBackIs(t: string, p: string, py: Python)
    ensures TakenBack(t, p, py) <==> exists w :: w in Words(t) && Excludes(w, p, py)
  {
    hide Words, IsWordOf;
    if TakenBack(t, p, py) {
      var name :| IsWordOf(t, "-" + name) && py.lower(name) == py.lower(p);
      WordsAre(t, "-" + name);
      assert ("-" + name)[1..] == name && ("-" + name)[..1] == "-";
    }
    if w :| w in Words(t) && Excludes(w, p, py) {
      WordsAre(t, w);
      assert w == "-" + w[1..];
    }
  }

  lemma LeavesOnIs(t: string, p: string, py: Python)
    ensures On(Words(t), p, py) <==> LeavesOn(t, p, py)
  {
    hide Words, Names, Excludes, NamedIn, TakenBack;
    NamedInIs(t, "all", py);
    NamedInIs(t, py.lower(p), py);
    TakenBackIs(t, p, py);
  }

  /** TLS versions: one of the four weak protocols is left on. */
  ghost function Protocols(v: Row<Field>, py: Python): Status {
    if Spells(v, SslProtocol, "") then Manual
    else if exists t, p ::
      Spells(v, SslProtocol, t) && p in {"SSLv2", "SSLv3", "TLSv1", "TLSv1.1"} && LeavesOn(t, p, py)
    then Fail
    else Pass
  }

  lemma ProtocolsIs(v: Row<Field>, py: Python)
    ensures TlsStatus(Trimmed(Value(v, SslProtocol)), py) == Protocols(v, py)
  {
    hide Trimmed, Spells, Words, On, LeavesOn;
    var t := Trimmed(Value(v, SslProtocol));
    forall u ensures Spells(v, SslProtocol, u) <==> u == t { SpellsIs(v, SslProtocol, u); }
    forall p ensures On(Words(t), p, py) <==> LeavesOn(t, p, py) { LeavesOnIs(t, p, py); }
    forall p ensures p in WEAK_PROTOCOLS <==> p in {"SSLv2", "SSLv3", "TLSv1", "TLSv1.1"} {}
  }

  lemma HttpdMeans(data: Data, py: Python)
    ensures Httpd !in data ==>
      forall id :: id in {HttpdAllow, GuiTimeout, TlsVersion} ==> StatusOf(id, data, py).Manual?
    ensures Httpd in data ==>
      var d := data[Httpd];
      && StatusOf(HttpdAllow, data, py) == (if Narrow(d, py.lower, "all") then Pass else Fail)
      && StatusOf(GuiTimeout, data, py) == Ranged(d.values, AuthPamIdleTimeout, 1, 600, py)
      && StatusOf(TlsVersion, data, py) == Protocols(d.values, py)
  {
    hide RangeStatus, AllowStatus, TlsStatus, Value, Trimmed, TextsAt;
    hide Ranged, Narrow, Protocols;
    if Httpd in data {
      var d := data[Httpd];
      NarrowIs(d, py.lower, "all");
      BoundedIs(d, AuthPamIdleTimeout, 1, 600, py);
      ProtocolsIs(d.values, py);
    }
  }

  /** The tmsh timeout: `disabled` and zero fail, a number up to ten passes. */
  ghost function Tmsh(v: Row<Field>, py: Python): Status {
    if IdleTimeout !in v || v[IdleTimeout].Null? then Manual
    else if py.lower(Str(v[IdleTimeout])) == "disabled" then Fail
    else if exists n :: n <= 10 && n != 0 && Reads(v, IdleTimeout, n, py) then Pass
    else if exists n :: Reads(v, IdleTimeout, n, py) then Fail
    else Manual
  }

  lemma TmshIs(v: Row<Field>, py: Python)
    ensures TmshStatus(Value(v, IdleTimeout), py) == Tmsh(v, py)
  {
    hide Reads, ToInt, Str;
    var read := ToInt(Value(v, IdleTimeout), py);
    forall n ensures read == Some(n) <==> Reads(v, IdleTimeout, n, py) { ReadsIs(v, IdleTimeout, n, py); }
    if read.Some? { assert Reads(v, IdleTimeout, read.value, py); }
  }

  lemma CliMeans(data: Data, py: Python)
    ensures StatusOf(TmshTimeout, data, py) == if Cli in data then Tmsh(data[Cli].values, py) else Manual
  {
    hide TmshStatus, Value, Tmsh;
    if Cli in data { TmshIs(data[Cli].values, py); }
  }

  lemma NtpMeans(data: Data, py: Python)
    ensures Ntp !in data ==> StatusOf(NtpServers, data, py).Manual? && StatusOf(Timezone, data, py).Manual?
    ensures Ntp in data ==>
      var d := data[Ntp];
      && (StatusOf(NtpServers, data, py).Pass? <==> Servers in d.texts && |d.texts[Servers]| >= 2)
      && (StatusOf(NtpServers, data, py).Warn? <==> Servers in d.texts && |d.texts[Servers]| == 1)
      && (StatusOf(NtpServers, data, py).Fail? <==> Servers !in d.texts || d.texts[Servers] == [])
      && StatusOf(Timezone, data, py) == if Holds(d.values, TimeZone) then Pass else Fail
  {
    hide Truthy, Value, Holds;
    if Ntp in data { HoldsIs(data[Ntp].values, TimeZone); }
  }

  ghost predicate CharacterField(f: Field) {
    f.RequiredUppercase? || f.RequiredLowercase? || f.RequiredNumeric? || f.RequiredSpecial?
  }

  /** The four required-character fields, all at least one. */
  ghost function Complexity(v: Row<Field>, py: Python): Status {
    if exists f :: CharacterField(f) && forall n :: !Reads(v, f, n, py) then Manual
    else if forall f :: CharacterField(f) ==> exists n :: n >= 1 && Reads(v, f, n, py) then Pass
    else Fail
  }

  lemma ComplexityCases(d: Body, py: Python)
    ensures var status := ComplexityStatus(d, py);
      && (status.Manual? <==> exists k :: k in COMPLEXITY && Num(d.values, k, py).None?)
      && (status.Pass? <==> forall k :: k in COMPLEXITY ==> Num(d.values, k, py).Some? && Num(d.values, k, py).value >= 1)
      && (status.Fail? <==> !status.Manual? && !status.Pass?)
  {
    hide Num;
    assert COMPLEXITY[0] in COMPLEXITY;
  }

  lemma ComplexityIs(d: Body, py: Python)
    ensures ComplexityStatus(d, py) == Complexity(d.values, py)
  {
    hide Num, Reads;
    forall f ensures f in COMPLEXITY <==> CharacterField(f) {}
    forall f
      ensures Num(d.values, f, py).None? <==> forall n :: !Reads(d.values, f, n, py)
      ensures (Num(d.values, f, py).Some? && Num(d.values, f, py).value >= 1)
              <==> exists n :: n >= 1 && Reads(d.values, f, n, py)
    {
      forall n ensures Num(d.values, f, py) == Some(n) <==> Reads(d.values, f, n, py) { ReadsIs(d.values, f, n, py); }
      if Num(d.values, f, py).Some? { assert Reads(d.values, f, Num(d.values, f, py).value, py); }
    }
    ComplexityCases(d, py);
  }

  lemma PasswordsMean(data: Data, py: Python)
    ensures PwdPolicy !in data ==>
      forall id :: id in {PwdEnforced, PwdMinLen, PwdComplexity, LoginFailures, PwdMaxAge, PwdMemory, PwdWarning} ==>
        StatusOf(id, data, py).Manual?
    ensures PwdPolicy in data ==>
      var v := data[PwdPolicy].values;
      && StatusOf(PwdEnforced, data, py)
         == (if Says(v, PolicyEnforcement, "enabled") then Pass else Fail)
      && StatusOf(PwdMinLen, data, py) == RangedFrom(v, MinimumLength, 12, py)
      && StatusOf(PwdComplexity, data, py) == Complexity(v, py)
      && StatusOf(LoginFailures, data, py) == Ranged(v, MaxLoginFailures, 1, 3, py)
      && StatusOf(PwdMaxAge, data, py) == Ranged(v, MaxDuration, 1, 180, py)
      && StatusOf(PwdMemory, data, py) == RangedFrom(v, PasswordMemory, 24, py)
      && StatusOf(PwdWarning, data, py) == RangedFrom(v, ExpirationWarning, 14, py)
  {
    hide RangeStatus, ComplexityStatus, Ranged, RangedFrom, Complexity;
    if PwdPolicy in data {
      var d := data[PwdPolicy];
      ComplexityIs(d, py);
      BoundedIs(d, MinimumLength, 12, 0, py);
      BoundedIs(d, MaxLoginFailures, 1, 3, py);
      BoundedIs(d, MaxDuration, 1, 180, py);
      BoundedIs(d, PasswordMemory, 24, 0, py);
      BoundedIs(d, ExpirationWarning, 14, 0, py);
    }
  }

  lemma UsersMean(data: Data, py: Python)
    ensures StatusOf(AdminDefault, data, py)
         == if Users !in data then Manual
            else
              var t := data[Users].tables;
              if Accounts in t && exists row :: row in t[Accounts] && Says(row, Name, "admin") then Manual else Pass
  {
    if Users in data {
      UsersStatus(data, py);
      HasTextIs(RowsAt(data[Users], Accounts), Name, "admin");
    }
  }

  /** Users are kept on the device: the reply says so, or says nothing. */
  ghost predicate KeptHere(v: Row<Field>) { Type !in v || v[Type] == Text("local") || v[Type] == Text("") }

  lemma RemoteMeans(data: Data, py: Python)
    ensures RemoteUser !in data || AuthSource !in data ==>
      forall id :: id in {RemoteRole, RemotePartition, RemoteConsole} ==> StatusOf(id, data, py).Manual?
    ensures RemoteUser in data && AuthSource in data && KeptHere(data[AuthSource].values) ==>
      forall id :: id in {RemoteRole, RemotePartition, RemoteConsole} ==> StatusOf(id, data, py).NotApplicable?
    ensures RemoteUser in data && AuthSource in data && !KeptHere(data[AuthSource].values) ==>
      var v := data[RemoteUser].values;
      && StatusOf(RemoteRole, data, py)
         == Wanted(v, DefaultRole, Says(v, DefaultRole, "no-access"))
      && StatusOf(RemotePartition, data, py)
         == Wanted(v, DefaultPartition, DefaultPartition in v && py.lower(Str(v[DefaultPartition])) != "all")
      && StatusOf(RemoteConsole, data, py)
         == Wanted(v, RemoteConsoleAccess, Says(v, RemoteConsoleAccess, "disabled"))
  {
    hide Str;
    if RemoteUser in data { RemoteVerdicts(data[RemoteUser], py); }
  }

  lemma SnmpMeans(data: Data, py: Python)
    ensures var status := StatusOf(SnmpV1V2c, data, py);
      if Snmp !in data || Communities !in data[Snmp].tables then status.Manual?
      else
        var t := data[Snmp].tables;
        && (status.Fail? <==> t[Communities] != [])
        && (status.Pass? <==> t[Communities] == [] && V3Users in t && t[V3Users] != [])
        && (status.Warn? <==> t[Communities] == [] && (V3Users !in t || t[V3Users] == []))
  {
  }

  lemma SyslogMeans(data: Data, py: Python)
    ensures StatusOf(SyslogRemote, data, py)
         == if Syslog !in data then Manual
            else if RemoteServers in data[Syslog].tables && data[Syslog].tables[RemoteServers] != [] then Pass
            else Warn
  {
  }
}
