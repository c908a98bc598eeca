/**
 The FortiGate evaluator of app/drivers/fortigate.py: the branches of `inspect`, one `add` for
 every arm, against a reference that judges item by item; what a lost endpoint and what a lost
 field may do.
 */
module FortiGate {
  import opened Queries
  import opened Texts
  import opened Records
  import opened VersionLog
  import opened Devices
  import opened Readings

  datatype Endpoint =
    | Global | Dns | Ntp | SnmpSysinfo | SnmpCommunity | Admin | PwdPolicy | Interface | Syslog | AutoInstall
    | EventFilter | Faz

  const ENDPOINTS: seq<Endpoint> :=
    [Global, Dns, Ntp, SnmpSysinfo, SnmpCommunity, Admin, PwdPolicy, Interface, Syslog, AutoInstall, EventFilter, Faz]

  /** The fields of the results; the trusted hosts of an account are numbered. */
  datatype Field =
    | Primary | PreLoginBanner | PostLoginBanner | HostName | TimeZone | SslVersions | AdminTimeout | LockoutThreshold
    | LockoutDuration | StrongCryptography | TelnetAdmin | AdminSport | AdminPort | HttpsRedirect | StaticKeyCiphers
    | DisplayHostname | SingleCpuHigh | Role | AllowAccess | TrustHost4(n: nat) | TrustHost6(n: nat) | Name | Switch
    | MinimumLength | ApplyTo | Synchronise | EventLog | Reliable | EncAlgorithm | InstallConfig | InstallImage

  datatype ItemId =
    | DnsServers | WanMgmt | PreloginBanner | PostloginBanner | Hostname | Timezone | TlsVersion | IdleTimeout | Lockout
    | StrongCrypto | AdminTelnet | AdminPorts | SslStaticKeys | GuiHostname | CpuLog | EncryptedMgmt | TrustHost
    | AdminDefault | PwdStrength | NtpSync | SnmpV1V2c | SyslogRemote | EventLogging | FazEncryption | UsbAutoInstall

  /** Results are a dictionary or a list of them. */
  datatype Results = Settings(values: Row<Field>) | Entries(rows: seq<Row<Field>>) {
    /** The fields of a dictionary; a list has none. */
    function Fields(): Row<Field> { if Settings? then values else map[] }
    function Rows(): seq<Row<Field>> { if Entries? then rows else [] }
    predicate Empty() { this == Settings(map[]) || this == Entries([]) }
  }

  /** A successful reply: its `results`, which may be absent, and the serial number beside them. */
  datatype Answer = Answer(results: Option<Results>, serial: string)

  type Data = map<Endpoint, Answer>

  /** `res(key)` */
  function Res(data: Data, key: Endpoint): Option<Results> { if key in data then data[key].results else None }

  /** The serial number comes from whichever endpoint answered first. */
  function Serial(data: Data, endpoints: seq<Endpoint>): string {
    if endpoints == [] then "?"
    else if endpoints[0] in data then data[endpoints[0]].serial
    else Serial(data, endpoints[1..])
  }

  /** `_GLOBAL_IDS`, and the items of the endpoints that cover more or less than one. */
  function GroupIds(key: Endpoint): seq<ItemId> {
    match key
    case Global => GREETING + SESSIONS + SERVICES
    case Dns => [DnsServers]
    case Admin => [TrustHost, AdminDefault]
    case PwdPolicy => [PwdStrength]
    case Ntp => [NtpSync]
    case EventFilter => [EventLogging]
    case Faz => [FazEncryption]
    case AutoInstall => [UsbAutoInstall]
    case _ => []
  }

  const GREETING: seq<ItemId> := [PreloginBanner, PostloginBanner, Hostname, Timezone]
  const SESSIONS: seq<ItemId> := [TlsVersion, IdleTimeout, Lockout]
  const SERVICES: seq<ItemId> := [StrongCrypto, AdminTelnet, AdminPorts, SslStaticKeys, GuiHostname, CpuLog]

  /** Every item, in the order in which a full report lists them. */
  const BASICS: seq<ItemId> := GroupIds(Dns) + [WanMgmt]
  const SYSTEM: seq<ItemId> :=
    GroupIds(Global) + [EncryptedMgmt] + GroupIds(Admin) + GroupIds(PwdPolicy) + GroupIds(Ntp)
  const LOGGING: seq<ItemId> :=
    [SnmpV1V2c, SyslogRemote] + GroupIds(EventFilter) + GroupIds(Faz) + GroupIds(AutoInstall)
  const CATALOGUE: seq<ItemId> := BASICS + SYSTEM + LOGGING

  function KeyOf(id: ItemId): Endpoint {
    match id
    case DnsServers => Dns
    case WanMgmt | EncryptedMgmt => Interface
    case TrustHost | AdminDefault => Admin
    case PwdStrength => PwdPolicy
    case NtpSync => Ntp
    case SnmpV1V2c => SnmpSysinfo
    case SyslogRemote => Syslog
    case EventLogging => EventFilter
    case FazEncryption => Faz
    case UsbAutoInstall => AutoInstall
    case _ => Global
  }

  /**
   Results that no section trips over: dictionaries and lists where they are read as such
   without a test, and a host name that is a text. Anything else raises.
   */
  predicate Readable(data: Data) {
    && (forall k :: k in [Dns, Ntp, PwdPolicy, Syslog, AutoInstall] && Res(data, k).Some? ==>
          Res(data, k).value.Settings?)
    && (forall k :: k in [Interface, Admin] && Res(data, k).Some? ==>
          Res(data, k).value.Entries? || Res(data, k).value.Empty())
    && (Res(data, Global).Some? ==>
          var r := Res(data, Global).value;
          r.Empty() || (r.Settings? && Get(r.values, HostName, Text("")).Text?))
  }

  // ----- the reference: one item, one endpoint's results -----

  const ENABLE := Text("enable")
  const DISABLE := Text("disable")

  const WAN_WEAK_ACCESS: set<string> := {"http", "https", "ssh", "telnet", "ping", "snmp", "radius-acct", "fgfm"}
  const PLAIN_ACCESS: set<string> := {"http", "telnet"}

  function Access(row: Row<Field>): seq<string> { Words(Str(Get(row, AllowAccess, Text("")))) }

  /** An interface lets one of the given services in. */
  predicate LetsIn(row: Row<Field>, services: set<string>) { exists t :: t in Access(row) && t in services }

  predicate WanExposed(row: Row<Field>) { Value(row, Role) == Text("wan") && LetsIn(row, WAN_WEAK_ACCESS) }

  const WEAK_TLS: set<string> := {"tlsv1-0", "tlsv1-1", "sslv3"}

  function TlsStatus(versions: string): Status {
    if versions == "" then Manual
    else if exists t :: t in Words(versions) && t in WEAK_TLS then Fail
    else if "tlsv1-2" in Words(versions) then Warn
    else Pass
  }

  function TimeoutStatus(minutes: Option<int>): Status {
    match minutes
    case None => Manual
    case Some(n) => if n <= 5 then Pass else if n <= 15 then Warn else Fail
  }

  function LockoutStatus(threshold: Option<int>, duration: Option<int>): Status {
    if threshold.None? || duration.None? then Manual
    else PassIf(threshold.value <= 3 && 60 <= duration.value <= 900)
  }

  /** A host name that is set and is neither a model name nor the serial number. */
  function NameStatus(name: Scalar, serial: string, py: Python): Status {
    if name.Text? && name.text != "" && !py.matches(DefaultHostname, name.text)
       && (serial in ["", "?"] || py.lower(name.text) != py.lower(serial))
    then Pass
    else Warn
  }

  predicate PortsMoved(v: Row<Field>) {
    && Str(Value(v, AdminSport)) !in ["443", "None"] && Str(Value(v, AdminPort)) !in ["80", "None"]
    && Value(v, HttpsRedirect) == DISABLE
  }

  /** A trusted host that restricts: neither blank nor all addresses. */
  predicate Restricts(row: Row<Field>, f: Field) {
    Str(Get(row, f, Text(""))) !in ["", "0.0.0.0 0.0.0.0", "::/0"]
  }

  predicate Trusted(row: Row<Field>) {
    exists n :: 1 <= n <= 10 && (Restricts(row, TrustHost4(n)) || Restricts(row, TrustHost6(n)))
  }

  function StrengthStatus(v: Row<Field>, py: Python): Status {
    var length := ToInt(Value(v, MinimumLength), py);
    if Value(v, Switch).Null? || length.None? || Value(v, ApplyTo).Null? then Manual
    else PassIf(Value(v, Switch) == ENABLE && length.value >= 14 && Contains(Str(Value(v, ApplyTo)), "admin-password"))
  }

  function SnmpStatus(sysinfo: Results, comm: Option<Results>): Status {
    var on := Value(sysinfo.Fields(), Switch);
    if on.Null? then Manual
    else if on != ENABLE then Pass
    else if comm.None? || !comm.value.Entries? then Manual
    else PassIf(comm.value.rows == [])
  }

  predicate Enabled(r: Option<Results>) { r.Some? && Value(r.value.Fields(), Switch) == ENABLE }

  function SyslogStatus(sl: Results, faz: Option<Results>): Status {
    if Enabled(Some(sl)) then Pass else if Enabled(faz) then Warn else Fail
  }

  function FazStatus(v: Row<Field>): Status {
    if Value(v, Switch) != ENABLE then NotApplicable
    else PassIf(Value(v, Reliable) == ENABLE && Value(v, EncAlgorithm) == Text("high"))
  }

  /** The item's status from the results of its endpoint; the two that need more come below. */
  function Verdict(id: ItemId, r: Results, serial: string, py: Python): Status {
    var v, rows := r.Fields(), r.Rows();
    match id
    case DnsServers => PassIf(Get(v, Primary, Text("0.0.0.0")) !in [Text(""), Text("0.0.0.0")])
    case WanMgmt => PassIf(forall i :: 0 <= i < |rows| ==> !WanExposed(rows[i]))
    case EncryptedMgmt => PassIf(forall i :: 0 <= i < |rows| ==> !LetsIn(rows[i], PLAIN_ACCESS))
    case PreloginBanner => PassIf(Value(v, PreLoginBanner) == ENABLE)
    case PostloginBanner => PassIf(Value(v, PostLoginBanner) == ENABLE)
    case Hostname => NameStatus(Get(v, HostName, Text("")), serial, py)
    case Timezone => PassIf(Truthy(Value(v, TimeZone)))
    case TlsVersion => TlsStatus(Trimmed(Value(v, SslVersions)))
    case IdleTimeout => TimeoutStatus(ToInt(Value(v, AdminTimeout), py))
    case Lockout => LockoutStatus(ToInt(Value(v, LockoutThreshold), py), ToInt(Value(v, LockoutDuration), py))
    case StrongCrypto => PassIf(Value(v, StrongCryptography) == ENABLE)
    case AdminTelnet => Required(Value(v, TelnetAdmin), Value(v, TelnetAdmin) == DISABLE)
    case AdminPorts => PassIf(PortsMoved(v))
    case SslStaticKeys => Required(Value(v, StaticKeyCiphers), Value(v, StaticKeyCiphers) == DISABLE)
    case GuiHostname => Required(Value(v, DisplayHostname), Value(v, DisplayHostname) == DISABLE)
    case CpuLog => Required(Value(v, SingleCpuHigh), Value(v, SingleCpuHigh) == ENABLE)
    case TrustHost => PassIf(forall i :: 0 <= i < |rows| ==> Trusted(rows[i]))
    case AdminDefault => if HasText(rows, Name, "admin") then Manual else Pass
    case PwdStrength => StrengthStatus(v, py)
    case NtpSync => PassIf(Value(v, Synchronise) == ENABLE)
    case EventLogging => Required(Value(v, EventLog), Value(v, EventLog) == ENABLE)
    case FazEncryption => FazStatus(v)
    case UsbAutoInstall => PassIf(Value(v, InstallConfig) == DISABLE && Value(v, InstallImage) == DISABLE)
    case _ => Manual
  }

  /** The endpoint was read, and for `system/global` it holds something. */
  predicate Read(data: Data, key: Endpoint) {
    Res(data, key).Some? && (key.Global? ==> !Res(data, key).value.Empty())
  }

  /** The item's status from whatever could be read. */
  function StatusOf(id: ItemId, data: Data, py: Python): Status {
    if !Read(data, KeyOf(id)) then Manual
    else
      var r := Res(data, KeyOf(id)).value;
      match id
      case SnmpV1V2c => SnmpStatus(r, Res(data, SnmpCommunity))
      case SyslogRemote => SyslogStatus(r, Res(data, Faz))
      case _ => Verdict(id, r, data[KeyOf(id)].serial, py)
  }

  function Judge(data: Data, py: Python): ItemId -> Status { (id: ItemId) => StatusOf(id, data, py) }

  // ----- the sections of `inspect`, one `add` for every arm -----

  /** An item of an endpoint that was read, judged on its results. */
  function Shown(r: Results, serial: string, py: Python): ItemId -> Status { (id: ItemId) => Verdict(id, r, serial, py) }

  lemma ReadGroup(key: Endpoint, ids: seq<ItemId>, data: Data, py: Python)
    requires Read(data, key)
    requires forall i :: 0 <= i < |ids| ==> KeyOf(ids[i]) == key && !ids[i].SnmpV1V2c? && !ids[i].SyslogRemote?
    ensures Judgement(ids, Judge(data, py)) == Judgement(ids, Shown(Res(data, key).value, data[key].serial, py))
  {
    hide Verdict;
  }

  lemma LostGroup(key: Endpoint, ids: seq<ItemId>, data: Data, py: Python)
    requires !Read(data, key) && forall i :: 0 <= i < |ids| ==> KeyOf(ids[i]) == key
    ensures Judgement(ids, Judge(data, py)) == Judgement(ids, Always(Manual))
  {
    hide Verdict;
  }

  lemma KeysOf(key: Endpoint)
    ensures forall i :: 0 <= i < |GroupIds(key)| ==> KeyOf(GroupIds(key)[i]) == key
    ensures forall i :: 0 <= i < |GREETING| ==> KeyOf(GREETING[i]) == Global
    ensures forall i :: 0 <= i < |SESSIONS| ==> KeyOf(SESSIONS[i]) == Global
    ensures forall i :: 0 <= i < |SERVICES| ==> KeyOf(SERVICES[i]) == Global
  {
  }

  lemma SerialOfGlobal(data: Data)
    requires Global in data
    ensures Serial(data, ENDPOINTS) == data[Global].serial
  {
  }

  lemma GreetingVerdicts(r: Results, serial: string, py: Python)
    ensures var v := r.Fields();
      && Verdict(PreloginBanner, r, serial, py) == PassIf(Value(v, PreLoginBanner) == ENABLE)
      && Verdict(PostloginBanner, r, serial, py) == PassIf(Value(v, PostLoginBanner) == ENABLE)
      && Verdict(Hostname, r, serial, py) == NameStatus(Get(v, HostName, Text("")), serial, py)
      && Verdict(Timezone, r, serial, py) == PassIf(Truthy(Value(v, TimeZone)))
  {
    hide NameStatus, Value, Get, Truthy, ENABLE;
  }

  lemma SessionVerdicts(r: Results, serial: string, py: Python)
    ensures var v := r.Fields();
      && Verdict(TlsVersion, r, serial, py) == TlsStatus(Trimmed(Value(v, SslVersions)))
      && Verdict(IdleTimeout, r, serial, py) == TimeoutStatus(ToInt(Value(v, AdminTimeout), py))
      && Verdict(Lockout, r, serial, py)
         == LockoutStatus(ToInt(Value(v, LockoutThreshold), py), ToInt(Value(v, LockoutDuration), py))
  {
    hide TlsStatus, TimeoutStatus, LockoutStatus, ToInt, Value, Trimmed;
  }

  method CheckTls(versions: string) returns (status: Status)
    ensures status == TlsStatus(versions)
  {
    if versions == "" {
      status := Manual;
    } else {
      var toks := set t | t in Words(versions);
      var weak := toks * WEAK_TLS;
      assert forall t :: t in weak <==> t in Words(versions) && t in WEAK_TLS;
      if weak != {} {
        assert exists t :: t in weak;
        status := Fail;
      } else if "tlsv1-2" in toks {
        status := Warn;
      } else {
        status := Pass;
      }
    }
  }

  /** The section on `system/global`, in three parts. */
  method InspectGreeting(r: Results, serial: string, py: Python) returns (items: seq<Item<ItemId>>)
    requires Get(r.Fields(), HostName, Text("")).Text?
    ensures items == Judgement(GREETING, Shown(r, serial, py))
  {
    hide Verdict, Value, Get, Truthy, ENABLE;
    GreetingVerdicts(r, serial, py);
    var g := r.Fields();
    items := [Item(PreloginBanner, if Value(g, PreLoginBanner) == ENABLE then Pass else Fail)];
    items := items + [Item(PostloginBanner, if Value(g, PostLoginBanner) == ENABLE then Pass else Fail)];
    var hn := Get(g, HostName, Text("")).text;
    var isDefault := py.matches(DefaultHostname, hn) || (serial !in ["", "?"] && py.lower(hn) == py.lower(serial));
    items := items + [Item(Hostname, if hn != "" && !isDefault then Pass else Warn)];
    items := items + [Item(Timezone, if Truthy(Value(g, TimeZone)) then Pass else Fail)];
  }

  method InspectSessions(r: Results, serial: string, py: Python) returns (items: seq<Item<ItemId>>)
    ensures items == Judgement(SESSIONS, Shown(r, serial, py))
  {
    hide Verdict, TlsStatus, ToInt, Value, Trimmed;
    SessionVerdicts(r, serial, py);
    var g := r.Fields();
    var tls := CheckTls(Trimmed(Value(g, SslVersions)));
    items := [Item(TlsVersion, tls)];
    var timeout := ToInt(Value(g, AdminTimeout), py);
    if timeout.None? {
      items := items + [Item(IdleTimeout, Manual)];
    } else {
      items := items + [Item(IdleTimeout, if timeout.value <= 5 then Pass else if timeout.value <= 15 then Warn else Fail)];
    }
    var threshold, duration := ToInt(Value(g, LockoutThreshold), py), ToInt(Value(g, LockoutDuration), py);
    if threshold.None? || duration.None? {
      items := items + [Item(Lockout, Manual)];
    } else {
      var ok := threshold.value <= 3 && 60 <= duration.value <= 900;
      items := items + [Item(Lockout, if ok then Pass else Fail)];
    }
  }

  lemma ServiceVerdicts(r: Results, serial: string, py: Python)
    ensures var v := r.Fields();
      var telnet, keys, shown, log :=
        Value(v, TelnetAdmin), Value(v, StaticKeyCiphers), Value(v, DisplayHostname), Value(v, SingleCpuHigh);
      && Verdict(StrongCrypto, r, serial, py) == PassIf(Value(v, StrongCryptography) == ENABLE)
      && Verdict(AdminTelnet, r, serial, py) == Required(telnet, telnet == DISABLE)
      && Verdict(AdminPorts, r, serial, py) == PassIf(PortsMoved(v))
      && Verdict(SslStaticKeys, r, serial, py) == Required(keys, keys == DISABLE)
      && Verdict(GuiHostname, r, serial, py) == Required(shown, shown == DISABLE)
      && Verdict(CpuLog, r, serial, py) == Required(log, log == ENABLE)
  {
    hide PortsMoved, Required, Value, ENABLE, DISABLE;
  }

  method InspectServices(r: Results, serial: string, py: Python) returns (items: seq<Item<ItemId>>)
    ensures items == Judgement(SERVICES, Shown(r, serial, py))
  {
    hide Verdict, Required, Value, ENABLE, DISABLE, Str;
    ServiceVerdicts(r, serial, py);
    var g := r.Fields();
    items := [Item(StrongCrypto, if Value(g, StrongCryptography) == ENABLE then Pass else Fail)];
    items := AddRequired(items, AdminTelnet, Value(g, TelnetAdmin), Value(g, TelnetAdmin) == DISABLE);
    var moved := Str(Value(g, AdminSport)) !in ["443", "None"] && Str(Value(g, AdminPort)) !in ["80", "None"];
    items := items + [Item(AdminPorts, if moved && Value(g, HttpsRedirect) == DISABLE then Pass else Fail)];
    items := AddRequired(items, SslStaticKeys, Value(g, StaticKeyCiphers), Value(g, StaticKeyCiphers) == DISABLE);
    items := AddRequired(items, GuiHostname, Value(g, DisplayHostname), Value(g, DisplayHostname) == DISABLE);
    items := AddRequired(items, CpuLog, Value(g, SingleCpuHigh), Value(g, SingleCpuHigh) == ENABLE);
  }

  method InspectGlobal(data: Data, py: Python) returns (items: seq<Item<ItemId>>)
    requires Readable(data)
    ensures items == Judgement(GroupIds(Global), Judge(data, py))
  {
    hide StatusOf, KeyOf, Verdict, GREETING, SESSIONS, SERVICES, ENDPOINTS, Serial;
    KeysOf(Global);
    var serial := Serial(data, ENDPOINTS);
    if Res(data, Global).None? || Res(data, Global).value.Empty() {
      LostGroup(Global, GroupIds(Global), data, py);
      items := EmitGroup(GroupIds(Global), Manual);
    } else {
      SerialOfGlobal(data);
      var g := Res(data, Global).value;
      GlobalGroups(data, py);
      var greeting := InspectGreeting(g, serial, py);
      var sessions := InspectSessions(g, serial, py);
      var services := InspectServices(g, serial, py);
      items := greeting + sessions + services;
    }
  }

  lemma GlobalGroups(data: Data, py: Python)
    requires Read(data, Global)
    ensures var shown := Shown(Res(data, Global).value, data[Global].serial, py);
      Judgement(GroupIds(Global), Judge(data, py))
        == Judgement(GREETING, shown) + Judgement(SESSIONS, shown) + Judgement(SERVICES, shown)
  {
    hide StatusOf, Verdict, Read;
    KeysOf(Global);
    ReadGroup(Global, GREETING, data, py);
    ReadGroup(Global, SESSIONS, data, py);
    ReadGroup(Global, SERVICES, data, py);
  }

  /** The loop that collects interfaces which let in a service they should not. */
  method AnyLetsIn(ifaces: seq<Row<Field>>, wanOnly: bool, services: set<string>) returns (bad: bool)
    ensures bad <==> exists i :: 0 <= i < |ifaces|
                       && (wanOnly ==> Value(ifaces[i], Role) == Text("wan")) && LetsIn(ifaces[i], services)
  {
    bad := false;
    for i := 0 to |ifaces|
      invariant bad <==> exists j :: 0 <= j < i
                           && (wanOnly ==> Value(ifaces[j], Role) == Text("wan")) && LetsIn(ifaces[j], services)
    {
      if wanOnly && Value(ifaces[i], Role) != Text("wan") {
        continue;
      }
      var acc := set t | t in Access(ifaces[i]);
      var weak := acc * services;
      assert forall t :: t in weak <==> t in Access(ifaces[i]) && t in services;
      if weak != {} {
        assert exists t :: t in weak;
        bad := true;
      }
    }
  }

  method InspectWan(data: Data, py: Python) returns (items: seq<Item<ItemId>>)
    ensures items == Judgement([WanMgmt], Judge(data, py))
  {
    hide LetsIn;
    var ifaces := Res(data, Interface);
    if ifaces.None? {
      items := [Item(WanMgmt, Manual)];
    } else {
      var bad := AnyLetsIn(ifaces.value.Rows(), true, WAN_WEAK_ACCESS);
      if bad {
        items := [Item(WanMgmt, Fail)];
      } else {
        items := [Item(WanMgmt, Pass)];
      }
    }
  }

  method InspectEncrypted(data: Data, py: Python) returns (items: seq<Item<ItemId>>)
    ensures items == Judgement([EncryptedMgmt], Judge(data, py))
  {
    hide LetsIn;
    var ifaces := Res(data, Interface);
    if ifaces.Some? {
      var plain := AnyLetsIn(ifaces.value.Rows(), false, PLAIN_ACCESS);
      items := [Item(EncryptedMgmt, if plain then Fail else Pass)];
    } else {
      items := [Item(EncryptedMgmt, Manual)];
    }
  }

  method InspectDns(data: Data, py: Python) returns (items: seq<Item<ItemId>>)
    ensures items == Judgement(GroupIds(Dns), Judge(data, py))
  {
    var dns := Res(data, Dns);
    if dns.None? {
      items := [Item(DnsServers, Manual)];
    } else if Get(dns.value.Fields(), Primary, Text("0.0.0.0")) !in [Text(""), Text("0.0.0.0")] {
      items := [Item(DnsServers, Pass)];
    } else {
      items := [Item(DnsServers, Fail)];
    }
  }

  /** Whether one of an account's twenty trusted-host fields restricts it. */
  method CheckTrusted(row: Row<Field>) returns (trusted: bool)
    ensures trusted == Trusted(row)
  {
    hide Restricts;
    trusted := false;
    for n := 1 to 11
      invariant trusted <==> exists m :: 1 <= m < n && (Restricts(row, TrustHost4(m)) || Restricts(row, TrustHost6(m)))
    {
      if Restricts(row, TrustHost4(n)) || Restricts(row, TrustHost6(n)) {
        trusted := true;
      }
    }
  }

  method InspectAdmins(data: Data, py: Python) returns (items: seq<Item<ItemId>>)
    ensures items == Judgement(GroupIds(Admin), Judge(data, py))
  {
    hide Trusted, HasText;
    var admins := Res(data, Admin);
    if admins.None? {
      items := [Item(TrustHost, Manual)];
      items := items + [Item(AdminDefault, Manual)];
      return;
    }
    var rows := admins.value.Rows();
    var open := false;
    for i := 0 to |rows|
      invariant open <==> exists j :: 0 <= j < i && !Trusted(rows[j])
    {
      var trusted := CheckTrusted(rows[i]);
      if !trusted {
        open := true;
      }
    }
    items := [Item(TrustHost, if open then Fail else Pass)];
    var hasDefault := AnyHas(rows, Name, "admin");
    items := items + [Item(AdminDefault, if hasDefault then Manual else Pass)];
  }

  method InspectPasswords(data: Data, py: Python) returns (items: seq<Item<ItemId>>)
    ensures items == Judgement(GroupIds(PwdPolicy), Judge(data, py))
  {
    hide ToInt, Contains, Str;
    if Res(data, PwdPolicy).None? {
      items := [Item(PwdStrength, Manual)];
      return;
    }
    var pwd := Res(data, PwdPolicy).value.Fields();
    var st, length, applyTo := Value(pwd, Switch), ToInt(Value(pwd, MinimumLength), py), Value(pwd, ApplyTo);
    if st.Null? || length.None? {
      items := [Item(PwdStrength, Manual)];
    } else if applyTo.Null? {
      items := [Item(PwdStrength, Manual)];
    } else {
      var ok := st == ENABLE && length.value >= 14 && Contains(Str(applyTo), "admin-password");
      items := [Item(PwdStrength, if ok then Pass else Fail)];
    }
  }

  method InspectNtp(data: Data, py: Python) returns (items: seq<Item<ItemId>>)
    ensures items == Judgement(GroupIds(Ntp), Judge(data, py))
  {
    var ntp := Res(data, Ntp);
    if ntp.None? {
      items := [Item(NtpSync, Manual)];
    } else {
      items := [Item(NtpSync, if Value(ntp.value.Fields(), Synchronise) == ENABLE then Pass else Fail)];
    }
  }

  method InspectSnmp(data: Data, py: Python) returns (items: seq<Item<ItemId>>)
    ensures items == Judgement([SnmpV1V2c], Judge(data, py))
  {
    var sysinfo, comm := Res(data, SnmpSysinfo), Res(data, SnmpCommunity);
    if sysinfo.None? {
      return [Item(SnmpV1V2c, Manual)];
    }
    var status := if sysinfo.value.Settings? then Value(sysinfo.value.values, Switch) else Null;
    var count := if comm.Some? && comm.value.Entries? then Some(|comm.value.rows|) else None;
    if status.Null? {
      items := [Item(SnmpV1V2c, Manual)];
    } else if status != ENABLE {
      items := [Item(SnmpV1V2c, Pass)];
    } else if count.None? {
      items := [Item(SnmpV1V2c, Manual)];
    } else if count.value == 0 {
      items := [Item(SnmpV1V2c, Pass)];
    } else {
      items := [Item(SnmpV1V2c, Fail)];
    }
  }

  method InspectSyslog(data: Data, py: Python) returns (items: seq<Item<ItemId>>)
    ensures items == Judgement([SyslogRemote], Judge(data, py))
  {
    var sl, faz := Res(data, Syslog), Res(data, Faz);
    if sl.None? {
      items := [Item(SyslogRemote, Manual)];
    } else if Value(sl.value.Fields(), Switch) == ENABLE {
      items := [Item(SyslogRemote, Pass)];
    } else if faz.Some? && faz.value.Settings? && Value(faz.value.values, Switch) == ENABLE {
      items := [Item(SyslogRemote, Warn)];
    } else {
      items := [Item(SyslogRemote, Fail)];
    }
  }

  method InspectEvents(data: Data, py: Python) returns (items: seq<Item<ItemId>>)
    ensures items == Judgement(GroupIds(EventFilter), Judge(data, py))
  {
    var ef := Res(data, EventFilter);
    if ef.None? {
      items := [Item(EventLogging, Manual)];
    } else {
      var ev := if ef.value.Settings? then Value(ef.value.values, EventLog) else Null;
      items := AddRequired([], EventLogging, ev, ev == ENABLE);
    }
  }

  method InspectFaz(data: Data, py: Python) returns (items: seq<Item<ItemId>>)
    ensures items == Judgement(GroupIds(Faz), Judge(data, py))
  {
    var faz := Res(data, Faz);
    if faz.None? {
      items := [Item(FazEncryption, Manual)];
    } else if !faz.value.Settings? || Value(faz.value.values, Switch) != ENABLE {
      items := [Item(FazEncryption, NotApplicable)];
    } else {
      var ok := Value(faz.value.values, Reliable) == ENABLE && Value(faz.value.values, EncAlgorithm) == Text("high");
      items := [Item(FazEncryption, if ok then Pass else Fail)];
    }
  }

  method InspectUsb(data: Data, py: Python) returns (items: seq<Item<ItemId>>)
    ensures items == Judgement(GroupIds(AutoInstall), Judge(data, py))
  {
    var ai := Res(data, AutoInstall);
    if ai.None? {
      items := [Item(UsbAutoInstall, Manual)];
    } else {
      var ok := Value(ai.value.Fields(), InstallConfig) == DISABLE && Value(ai.value.Fields(), InstallImage) == DISABLE;
      items := [Item(UsbAutoInstall, if ok then Pass else Fail)];
    }
  }

  method InspectSystem(data: Data, py: Python) returns (items: seq<Item<ItemId>>)
    requires Readable(data)
    ensures items == Judgement(SYSTEM, Judge(data, py))
  {
    hide GroupIds, StatusOf;
    var global := InspectGlobal(data, py);
    var encrypted := InspectEncrypted(data, py);
    var admins := InspectAdmins(data, py);
    var passwords := InspectPasswords(data, py);
    var ntp := InspectNtp(data, py);
    items := global + encrypted + admins + passwords + ntp;
  }

  method InspectLogging(data: Data, py: Python) returns (items: seq<Item<ItemId>>)
    ensures items == Judgement(LOGGING, Judge(data, py))
  {
    hide GroupIds, StatusOf;
    var snmp := InspectSnmp(data, py);
    var syslog := InspectSyslog(data, py);
    var events := InspectEvents(data, py);
    var faz := InspectFaz(data, py);
    var usb := InspectUsb(data, py);
    items := snmp + syslog + events + faz + usb;
  }

  /** `inspect`: fetch what can be fetched, then emit every section. */
  method Inspect(replies: Endpoint -> Reply<Answer>, py: Python) returns (outcome: Outcome<ItemId>)
    ensures outcome == Inspected(replies, py)
    ensures outcome.Report? ==> Ids(outcome.items) == CATALOGUE
  {
    hide GroupIds, StatusOf, SYSTEM, LOGGING, ENDPOINTS, Readable;
    var fetched := Fetch(ENDPOINTS, replies);
    if fetched.None? || !Readable(fetched.value) {
      return Raised;
    }
    var data := fetched.value;
    var dns := InspectDns(data, py);
    var wan := InspectWan(data, py);
    var system := InspectSystem(data, py);
    var logging := InspectLogging(data, py);
    outcome := Report(dns + wan + system + logging);
  }

  /** The reference: every catalogue item judged from whatever could be read. */
  function Inspected(replies: Endpoint -> Reply<Answer>, py: Python): Outcome<ItemId> {
    var data := Held(ENDPOINTS, replies);
    if !Connected(ENDPOINTS, replies) || data == map[] || !Readable(data) then Raised
    else Report(Judgement(CATALOGUE, Judge(data, py)))
  }

  function Rank(id: ItemId): nat {
    match id
    case DnsServers => 0
    case WanMgmt => 1
    case PreloginBanner => 2
    case PostloginBanner => 3
    case Hostname => 4
    case Timezone => 5
    case TlsVersion => 6
    case IdleTimeout => 7
    case Lockout => 8
    case StrongCrypto => 9
    case AdminTelnet => 10
    case AdminPorts => 11
    case SslStaticKeys => 12
    case GuiHostname => 13
    case CpuLog => 14
    case EncryptedMgmt => 15
    case TrustHost => 16
    case AdminDefault => 17
    case PwdStrength => 18
    case NtpSync => 19
    case SnmpV1V2c => 20
    case SyslogRemote => 21
    case EventLogging => 22
    case FazEncryption => 23
    case UsbAutoInstall => 24
  }

  lemma RankBasics()
    ensures |BASICS| == 2 && forall i :: 0 <= i < 2 ==> Rank(BASICS[i]) == i
  {
  }

  lemma RankSystem()
    ensures |SYSTEM| == 18 && forall i :: 0 <= i < 18 ==> Rank(SYSTEM[i]) == 2 + i
  {
  }

  lemma RankLogging()
    ensures |LOGGING| == 5 && forall i :: 0 <= i < 5 ==> Rank(LOGGING[i]) == 20 + i
  {
  }

  lemma RankIsOne(id: ItemId)
    ensures Rank(id) < 25
    ensures forall other :: Rank(id) == Rank(other) ==> id == other
  {
  }

  /** The catalogue lists every item, and lists it once. */
  lemma CatalogueOnce()
    ensures Once(CATALOGUE)
    ensures forall id :: id in CATALOGUE
  {
    RankBasics();
    RankSystem();
    RankLogging();
    hide BASICS, SYSTEM, LOGGING, Rank;
    assert |CATALOGUE| == 25;
    forall i | 0 <= i < 25 ensures Rank(CATALOGUE[i]) == i {}
    forall id ensures id in CATALOGUE {
      RankIsOne(id);
      assert CATALOGUE[Rank(id)] == id;
    }
  }

  // ----- lost endpoints -----

  /** FortiAnalyzer stood in for an idle syslog, and only FortiAnalyzer was lost. */
  predicate StandInLost(id: ItemId, data: Data, lost: set<Endpoint>) {
    && id.SyslogRemote? && Faz in lost && Syslog !in lost
    && Res(data, Syslog).Some? && !Enabled(Res(data, Syslog)) && Enabled(Res(data, Faz))
  }

  function Needs(id: ItemId): set<Endpoint> {
    {KeyOf(id)}
    + (if id.SnmpV1V2c? then {SnmpCommunity} else {})
    + (if id.SyslogRemote? then {Faz} else {})
  }

  predicate Safe(id: ItemId, data: Data, lost: set<Endpoint>, py: Python) {
    var full, partial := StatusOf(id, data, py), StatusOf(id, data - lost, py);
    && (partial.Pass? ==> full.Pass?)
    && (Degrades(full, partial) <==> !StandInLost(id, data, lost))
    && (StandInLost(id, data, lost) ==> full.Warn? && partial.Fail?)
    && (full != partial ==> Needs(id) * lost != {})
  }

  lemma KeyLost(id: ItemId, data: Data, lost: set<Endpoint>, py: Python)
    requires KeyOf(id) in lost
    ensures StatusOf(id, data - lost, py).Manual?
    ensures KeyOf(id) in Needs(id) * lost
  {
    hide Verdict, SnmpStatus, SyslogStatus;
  }

  lemma KeyKept(id: ItemId, data: Data, lost: set<Endpoint>, py: Python)
    requires KeyOf(id) !in lost && !id.SnmpV1V2c? && !id.SyslogRemote?
    ensures StatusOf(id, data - lost, py) == StatusOf(id, data, py)
  {
    hide Verdict, SnmpStatus, SyslogStatus;
  }

  /** Losing the community list can only hand the SNMP item to a person. */
  lemma SnmpKept(data: Data, lost: set<Endpoint>, py: Python)
    requires SnmpSysinfo !in lost
    ensures var full, partial := StatusOf(SnmpV1V2c, data, py), StatusOf(SnmpV1V2c, data - lost, py);
      Degrades(full, partial) && (full != partial ==> SnmpCommunity in Needs(SnmpV1V2c) * lost)
  {
    hide Verdict;
  }

  /** With syslog still read, its item changes exactly when the stand-in was lost, and then from warn to fail. */
  lemma SyslogKept(data: Data, lost: set<Endpoint>, py: Python)
    requires Syslog !in lost
    ensures var full, partial := StatusOf(SyslogRemote, data, py), StatusOf(SyslogRemote, data - lost, py);
      && (full == partial || (full.Warn? && partial.Fail?))
      && (full != partial <==> StandInLost(SyslogRemote, data, lost))
      && (full != partial ==> Faz in Needs(SyslogRemote) * lost)
  {
    hide Verdict;
  }

  lemma KeysAre()
    ensures KeyOf(SnmpV1V2c) == SnmpSysinfo && KeyOf(SyslogRemote) == Syslog
  {
  }

  lemma StatusUnderLoss(id: ItemId, data: Data, lost: set<Endpoint>, py: Python)
    ensures Safe(id, data, lost, py)
  {
    KeysAre();
    hide KeyOf, StatusOf, Needs;
    if KeyOf(id) in lost {
      KeyLost(id, data, lost, py);
    } else if id.SnmpV1V2c? {
      SnmpKept(data, lost, py);
    } else if id.SyslogRemote? {
      SyslogKept(data, lost, py);
    } else {
      KeyKept(id, data, lost, py);
    }
  }

  lemma ReadableStays(data: Data, lost: set<Endpoint>)
    requires Readable(data)
    ensures Readable(data - lost)
  {
    forall k ensures Res(data - lost, k).Some? ==> Res(data - lost, k) == Res(data, k) {}
  }

  /**
   Endpoint loss is safe. Whatever the replies and whatever further endpoints are lost, as long
   as one is left: the same items are listed in the same order, each once, and none becomes
   pass. An item changes only when an endpoint it needs was lost, and then to manual, with one
   exception: a syslog item covered by FortiAnalyzer turns from warn to fail, not to manual,
   exactly when FortiAnalyzer alone is lost.
   */
  lemma LossIsSafe(replies: Endpoint -> Reply<Answer>, lost: set<Endpoint>, py: Python)
    requires Inspected(replies, py).Report?
    requires exists k :: k in ENDPOINTS && replies(k).Body? && k !in lost
    ensures var full, partial := Inspected(replies, py), Inspected(Losing(replies, lost), py);
      && partial.Report?
      && Ids(full.items) == Ids(partial.items) == CATALOGUE && Once(CATALOGUE)
      && forall i :: 0 <= i < |CATALOGUE| ==>
           var id, before, after := CATALOGUE[i], full.items[i].status, partial.items[i].status;
           && (after.Pass? ==> before.Pass?)
           && (Degrades(before, after) <==> !StandInLost(id, Held(ENDPOINTS, replies), lost))
           && (before != after ==> Needs(id) * lost != {})
  {
    hide CATALOGUE, StatusOf, ENDPOINTS, StandInLost, Readable;
    LosingHeld(ENDPOINTS, replies, lost);
    CatalogueOnce();
    var data := Held(ENDPOINTS, replies);
    var k :| k in ENDPOINTS && replies(k).Body? && k !in lost;
    assert k in data - lost;
    ReadableStays(data, lost);
    JudgementIds(CATALOGUE, Judge(data, py));
    JudgementIds(CATALOGUE, Judge(data - lost, py));
    forall i | 0 <= i < |CATALOGUE| ensures Safe(CATALOGUE[i], data, lost, py) {
      StatusUnderLoss(CATALOGUE[i], data, lost, py);
    }
  }

  /** Syslog switched off, FortiAnalyzer switched on, nothing else read. */
  function StandInReplies(): Endpoint -> Reply<Answer> {
    (k: Endpoint) =>
      if k.Syslog? then Body(Answer(Some(Settings(map[Switch := DISABLE])), "FG1"))
      else if k.Faz? then Body(Answer(Some(Settings(map[Switch := ENABLE])), "FG1"))
      else Refused
  }

  /** The exception is met: with the FortiAnalyzer endpoint lost, syslog goes from warn to fail. */
  lemma StandInLostWitness(py: Python)
    ensures var full, partial := Inspected(StandInReplies(), py), Inspected(Losing(StandInReplies(), {Faz}), py);
      && full.Report? && Item(SyslogRemote, Warn) in full.items
      && partial.Report? && Item(SyslogRemote, Fail) in partial.items
  {
    var replies := StandInReplies();
    var data, rest := Held(ENDPOINTS, replies), Held(ENDPOINTS, Losing(replies, {Faz}));
    hide StatusOf, CATALOGUE, ENDPOINTS, Connected, Held, Readable;
    StandInData();
    ReadableStandIn(data);
    ReadableStandIn(rest);
    SyslogOf(data, py);
    SyslogOf(rest, py);
    ListedAs(SyslogRemote, data, py);
    ListedAs(SyslogRemote, rest, py);
  }

  lemma StandInData()
    ensures var replies := StandInReplies();
      && Connected(ENDPOINTS, replies) && Connected(ENDPOINTS, Losing(replies, {Faz}))
      && Held(ENDPOINTS, replies) == map[Syslog := replies(Syslog).body, Faz := replies(Faz).body]
      && Held(ENDPOINTS, Losing(replies, {Faz})) == map[Syslog := replies(Syslog).body]
  {
    assert Syslog in ENDPOINTS && Faz in ENDPOINTS by {
      assert ENDPOINTS[8] == Syslog && ENDPOINTS[11] == Faz;
    }
  }

  lemma SyslogOf(data: Data, py: Python)
    requires Res(data, Syslog).Some?
    ensures StatusOf(SyslogRemote, data, py) == SyslogStatus(Res(data, Syslog).value, Res(data, Faz))
  {
    hide SyslogStatus;
  }

  lemma ReadableStandIn(data: Data)
    requires data.Keys <= {Syslog, Faz} && Res(data, Syslog).Some? && Res(data, Syslog).value.Settings?
    ensures Readable(data)
  {
  }

  lemma ListedAs(id: ItemId, data: Data, py: Python)
    ensures Item(id, StatusOf(id, data, py)) in Judgement(CATALOGUE, Judge(data, py))
  {
    hide CATALOGUE, StatusOf;
    CatalogueOnce();
    assert id in CATALOGUE;
    var i :| 0 <= i < |CATALOGUE| && CATALOGUE[i] == id;
    assert Judgement(CATALOGUE, Judge(data, py))[i] == Item(id, StatusOf(id, data, py));
  }

  /**
   So two visits, whatever each of them could read, leave no new and no gone rows in the version
   log: they list the same items.
   */
  lemma VisitsAreSilent(before: Endpoint -> Reply<Answer>, after: Endpoint -> Reply<Answer>, py: Python,
                        log: seq<ItemVersion>, first: Stamp, second: Stamp,
                        name: ItemId -> string, descA: Item<ItemId> -> string, descB: Item<ItemId> -> string,
                        disabled: set<string>)
    requires Inspected(before, py).Report? && Inspected(after, py).Report?
    requires Fits(log) && Naming(name)
    ensures var a := Kept(Collect(Inspected(before, py).items, Reported(name, descA)), disabled);
      var b := Kept(Collect(Inspected(after, py).items, Reported(name, descB)), disabled);
      a != [] ==> forall v :: v in Recorded(Record(log, first, a, disabled), second, b, disabled) ==> Changed(v)
  {
    hide CATALOGUE, Kept, Recorded, Record, StatusOf, ENDPOINTS, Readable;
    CatalogueOnce();
    JudgementIds(CATALOGUE, Judge(Held(ENDPOINTS, before), py));
    JudgementIds(CATALOGUE, Judge(Held(ENDPOINTS, after), py));
    OutageIsNoChurn(log, first, Inspected(before, py).items, second, Inspected(after, py).items,
                    name, descA, descB, disabled);
  }

  // ----- numbers that cannot be read -----

  /** The numeric fields of an item. */
  function NumbersOf(id: ItemId): set<Field> {
    match id
    case IdleTimeout => {AdminTimeout}
    case Lockout => {LockoutThreshold, LockoutDuration}
    case PwdStrength => {MinimumLength}
    case _ => {}
  }

  /** What the numbers of an item have to satisfy for a pass. */
  predicate InBounds(f: Field, n: int) {
    match f
    case AdminTimeout => n <= 5
    case LockoutThreshold => n <= 3
    case LockoutDuration => 60 <= n <= 900
    case _ => n >= 14
  }

  /**
   A numeric item is manual when one of its fields is absent or not a number, and it passes
   only when all of them are in range; the timeout and the lockout pass exactly then.
   */
  lemma NumbersFailSafe(id: ItemId, data: Data, py: Python)
    requires NumbersOf(id) != {} && Read(data, KeyOf(id))
    ensures var row, status := Res(data, KeyOf(id)).value.Fields(), StatusOf(id, data, py);
      if exists f :: f in NumbersOf(id) && ToInt(Value(row, f), py).None? then status.Manual?
      else
        var good := forall f :: f in NumbersOf(id) ==> InBounds(f, ToInt(Value(row, f), py).value);
        (status.Pass? ==> good) && (!id.PwdStrength? ==> (status.Pass? <==> good))
  {
    hide ToInt, Str, Contains;
    var row := Res(data, KeyOf(id)).value.Fields();
    assert forall f :: f in NumbersOf(id) ==> f in {AdminTimeout, LockoutThreshold, LockoutDuration, MinimumLength};
    if id.Lockout? {
      assert LockoutThreshold in NumbersOf(id) && LockoutDuration in NumbersOf(id);
    } else if id.IdleTimeout? {
      assert AdminTimeout in NumbersOf(id);
    } else {
      assert MinimumLength in NumbersOf(id);
    }
  }

  // ----- lost fields -----

  /**
   The fields whose absence reads as compliance: an interface without a role is no WAN
   interface, one without an access list lets nothing in, and an account without a name is not
   `admin`.
   */
  function Exposed(id: ItemId): set<Field> {
    match id
    case WanMgmt => {Role, AllowAccess}
    case EncryptedMgmt => {AllowAccess}
    case AdminDefault => {Name}
    case _ => {}
  }

  /** The same results without some fields. */
  function Stripped(r: Results, gone: set<Field>): Results {
    match r
    case Settings(values) => Settings(values - gone)
    case Entries(rows) => Entries(Collect(rows, WithoutIn(gone)))
  }

  function Cutting(gone: Endpoint -> set<Field>): (Endpoint, Answer) -> Answer {
    (k: Endpoint, a: Answer) =>
      Answer(if a.results.None? then None else Some(Stripped(a.results.value, gone(k))), a.serial)
  }

  lemma RowUnderCut(row: Row<Field>, gone: set<Field>)
    ensures Role !in gone && AllowAccess !in gone ==> WanExposed(row - gone) == WanExposed(row)
    ensures AllowAccess !in gone ==> LetsIn(row - gone, PLAIN_ACCESS) == LetsIn(row, PLAIN_ACCESS)
    ensures Trusted(row - gone) ==> Trusted(row)
  {
    hide Words;
    forall f | Restricts(row - gone, f) ensures Restricts(row, f) {}
  }

  lemma RowsUnderCut(id: ItemId, r: Results, gone: set<Field>, serial: string, py: Python)
    requires gone !! Exposed(id) && (id.WanMgmt? || id.EncryptedMgmt? || id.TrustHost? || id.AdminDefault?)
    ensures Verdict(id, Stripped(r, gone), serial, py).Pass? ==> Verdict(id, r, serial, py).Pass?
  {
    hide WanExposed, LetsIn, Trusted, HasText;
    var rows, cut := r.Rows(), Stripped(r, gone).Rows();
    assert |cut| == |rows| && forall i :: 0 <= i < |rows| ==> cut[i] == rows[i] - gone;
    forall i | 0 <= i < |rows|
      ensures Trusted(cut[i]) ==> Trusted(rows[i])
      ensures id.WanMgmt? ==> WanExposed(cut[i]) == WanExposed(rows[i])
      ensures id.EncryptedMgmt? ==> LetsIn(cut[i], PLAIN_ACCESS) == LetsIn(rows[i], PLAIN_ACCESS)
    {
      RowUnderCut(rows[i], gone);
    }
    if id.AdminDefault? {
      SameTexts(rows, cut, Name, "admin");
    }
  }

  lemma VerdictUnderCut(id: ItemId, r: Results, gone: set<Field>, serial: string, py: Python)
    requires gone !! Exposed(id)
    ensures Verdict(id, Stripped(r, gone), serial, py).Pass? ==> Verdict(id, r, serial, py).Pass?
  {
    NothingRead(py);
    hide WanExposed, LetsIn, Trusted, HasText, ToInt, Contains, Words, Strip;
    if id.WanMgmt? || id.EncryptedMgmt? || id.TrustHost? || id.AdminDefault? {
      RowsUnderCut(id, r, gone, serial, py);
    }
  }

  lemma StatusUnderCut(id: ItemId, data: Data, gone: Endpoint -> set<Field>, py: Python)
    requires gone(KeyOf(id)) !! Exposed(id)
    ensures StatusOf(id, AlteredData(data, Cutting(gone)), py).Pass? ==> StatusOf(id, data, py).Pass?
  {
    hide Verdict;
    if Read(data, KeyOf(id)) {
      VerdictUnderCut(id, Res(data, KeyOf(id)).value, gone(KeyOf(id)), data[KeyOf(id)].serial, py);
    }
  }

  lemma ReadableUnderCut(data: Data, gone: Endpoint -> set<Field>)
    requires Readable(data)
    ensures Readable(AlteredData(data, Cutting(gone)))
  {
    var cut := AlteredData(data, Cutting(gone));
    forall k | Res(cut, k).Some?
      ensures Res(data, k).Some? && Res(cut, k).value == Stripped(Res(data, k).value, gone(k))
      ensures Res(data, k).value.Empty() ==> Res(cut, k).value.Empty()
    {
    }
  }

  /**
   Field loss is safe. Whatever fields vanish from whatever results, of a dictionary or of the
   rows of a list, the same items are listed and none becomes pass, unless the fields that
   vanish are the ones `Exposed` names.
   */
  lemma FieldLossIsSafe(replies: Endpoint -> Reply<Answer>, gone: Endpoint -> set<Field>, py: Python)
    requires Inspected(replies, py).Report?
    ensures var full, partial := Inspected(replies, py), Inspected(Altered(replies, Cutting(gone)), py);
      && partial.Report? && Ids(full.items) == Ids(partial.items) == CATALOGUE
      && forall i :: 0 <= i < |CATALOGUE| && gone(KeyOf(CATALOGUE[i])) !! Exposed(CATALOGUE[i]) ==>
           partial.items[i].status.Pass? ==> full.items[i].status.Pass?
  {
    hide CATALOGUE, ENDPOINTS, StatusOf, Readable;
    AlteredHeld(ENDPOINTS, replies, Cutting(gone));
    var data := Held(ENDPOINTS, replies);
    var k :| k in data;
    assert k in AlteredData(data, Cutting(gone));
    ReadableUnderCut(data, gone);
    JudgementIds(CATALOGUE, Judge(data, py));
    JudgementIds(CATALOGUE, Judge(AlteredData(data, Cutting(gone)), py));
    forall i | 0 <= i < |CATALOGUE| && gone(KeyOf(CATALOGUE[i])) !! Exposed(CATALOGUE[i])
      ensures StatusOf(CATALOGUE[i], AlteredData(data, Cutting(gone)), py).Pass? ==> StatusOf(CATALOGUE[i], data, py).Pass?
    {
      StatusUnderCut(CATALOGUE[i], data, gone, py);
    }
  }

  /** Losing one field turns an item that did not pass into one that does. */
  predicate Conceals(id: ItemId, f: Field, data: Data, py: Python) {
    && !StatusOf(id, data, py).Pass?
    && StatusOf(id, AlteredData(data, Cutting((k: Endpoint) => if k == KeyOf(id) then {f} else {})), py).Pass?
  }

  const OPEN_WAN: Row<Field> := map[Role := Text("wan"), AllowAccess := Text("http")]
  const ADMIN: Row<Field> := map[Name := Text("admin")]

  function OneRow(key: Endpoint, row: Row<Field>): Data { map[key := Answer(Some(Entries([row])), "")] }

  lemma HttpIsLetIn()
    ensures "http" in Access(OPEN_WAN) && Access(OPEN_WAN - {AllowAccess}) == []
  {
    var s := "http";
    assert s[3..] == "p" && s[2..] == "tp" && s[1..] == "ttp" && s[2..][1..] == "p" && s[1..][1..] == "tp";
    assert WordLength("p") == 1 && WordLength("tp") == 2 && WordLength("ttp") == 3 && WordLength(s) == 4;
    assert s[..4] == s;
    assert Words(s)[0] == s;
  }

  /** The three items judged row by row, for a list of one row. */
  lemma OneRowVerdict(row: Row<Field>, py: Python)
    ensures var r := Entries([row]);
      && Verdict(WanMgmt, r, "", py) == PassIf(!WanExposed(row))
      && Verdict(EncryptedMgmt, r, "", py) == PassIf(!LetsIn(row, PLAIN_ACCESS))
      && Verdict(AdminDefault, r, "", py) == if Value(row, Name) == Text("admin") then Manual else Pass
  {
    hide WanExposed, LetsIn, Value;
    var rows := Entries([row]).Rows();
    assert |rows| == 1 && rows[0] == row;
    assert Value(rows[0], Name) == Text("admin") ==> HasText(rows, Name, "admin");
  }

  lemma OneRowStatus(id: ItemId, row: Row<Field>, py: Python)
    requires Exposed(id) != {}
    ensures StatusOf(id, OneRow(KeyOf(id), row), py) == Verdict(id, Entries([row]), "", py)
  {
    hide Verdict;
  }

  lemma OneRowCut(key: Endpoint, row: Row<Field>, f: Field)
    ensures AlteredData(OneRow(key, row), Cutting((k: Endpoint) => if k == key then {f} else {})) == OneRow(key, row - {f})
  {
    assert Collect([row], WithoutIn({f})) == [row - {f}];
    assert Stripped(Entries([row]), {f}) == Entries([row - {f}]);
    var only := (k: Endpoint) => if k == key then {f} else {};
    assert Cutting(only)(key, OneRow(key, row)[key]) == OneRow(key, row - {f})[key];
  }

  /** And the fields that `Exposed` names are exactly those that can do it. */
  lemma ExposedExactly(id: ItemId, f: Field, py: Python)
    ensures f in Exposed(id) <==> exists data :: Conceals(id, f, data, py)
  {
    hide StatusOf, Verdict, LetsIn;
    if f in Exposed(id) {
      var row := if id.AdminDefault? then ADMIN else OPEN_WAN;
      RowConceals(f);
      OneRowVerdict(row, py);
      OneRowVerdict(row - {f}, py);
      OneRowStatus(id, row, py);
      OneRowStatus(id, row - {f}, py);
      OneRowCut(KeyOf(id), row, f);
      assert Conceals(id, f, OneRow(KeyOf(id), row), py);
    } else {
      forall data ensures !Conceals(id, f, data, py) {
        StatusUnderCut(id, data, (k: Endpoint) => if k == KeyOf(id) then {f} else {}, py);
      }
    }
  }

  lemma RowConceals(f: Field)
    ensures WanExposed(OPEN_WAN) && LetsIn(OPEN_WAN, PLAIN_ACCESS) && Value(ADMIN, Name) == Text("admin")
    ensures f == Role || f == AllowAccess ==> !WanExposed(OPEN_WAN - {f})
    ensures f == AllowAccess ==> !LetsIn(OPEN_WAN - {f}, PLAIN_ACCESS)
    ensures f == Name ==> Value(ADMIN - {f}, Name) == Null
  {
    HttpIsLetIn();
    hide Access;
    assert "http" in PLAIN_ACCESS && "http" in WAN_WEAK_ACCESS;
  }

  // ----- what every status means, said of the reply -----

  /**
   A visit reports unless the connection goes down, nothing can be read or a result has a shape
   that no section expects; and the report lists every item with its status from exactly the
   answers that could be read.
   */
  lemma ReportIs(replies: Endpoint -> Reply<Answer>, py: Python)
    ensures var data, outcome := Held(ENDPOINTS, replies), Inspected(replies, py);
      && (forall k :: k in data <==> replies(k).Body?) && (forall k :: k in data ==> data[k] == replies(k).body)
      && (outcome.Report? <==>
            (forall k :: !replies(k).Down?) && (exists k :: replies(k).Body?) && Expected(data))
      && (outcome.Report? ==>
            && (forall it :: it in outcome.items ==> it.status == StatusOf(it.id, data, py))
            && (forall id :: Item(id, StatusOf(id, data, py)) in outcome.items))
  {
    hide CATALOGUE, StatusOf, ENDPOINTS, Expected, Readable;
    AllEndpoints();
    var data, outcome := Held(ENDPOINTS, replies), Inspected(replies, py);
    CatalogueOnce();
    ExpectedIs(data);
    if outcome.Report? {
      forall id ensures Item(id, StatusOf(id, data, py)) in outcome.items {
        assert id in CATALOGUE;
        var i :| 0 <= i < |CATALOGUE| && CATALOGUE[i] == id;
        assert outcome.items[i] == Item(id, StatusOf(id, data, py));
      }
    }
  }

  lemma AllEndpoints()
    ensures forall k :: k in ENDPOINTS
  {
    forall k ensures k in ENDPOINTS {
      assert k.Global? ==> ENDPOINTS[0] == k;
      assert k.Dns? ==> ENDPOINTS[1] == k;
      assert k.Ntp? ==> ENDPOINTS[2] == k;
      assert k.SnmpSysinfo? ==> ENDPOINTS[3] == k;
      assert k.SnmpCommunity? ==> ENDPOINTS[4] == k;
      assert k.Admin? ==> ENDPOINTS[5] == k;
      assert k.PwdPolicy? ==> ENDPOINTS[6] == k;
      assert k.Interface? ==> ENDPOINTS[7] == k;
      assert k.Syslog? ==> ENDPOINTS[8] == k;
      assert k.AutoInstall? ==> ENDPOINTS[9] == k;
      assert k.EventFilter? ==> ENDPOINTS[10] == k;
      assert k.Faz? ==> ENDPOINTS[11] == k;
    }
  }

  /** Every answer has the shape its section reads. */
  ghost predicate Expected(data: Data) {
    && (forall k: Endpoint :: (k.Dns? || k.Ntp? || k.PwdPolicy? || k.Syslog? || k.AutoInstall?) && Answered(data, k) ==>
          data[k].results.value.Settings?)
    && (forall k: Endpoint :: (k.Interface? || k.Admin?) && Answered(data, k) ==>
          data[k].results.value.Entries? || data[k].results.value == Settings(map[]))
    && (Answered(data, Global) ==>
          match data[Global].results.value
          case Settings(v) => HostName !in v || v[HostName].Text?
          case Entries(rows) => rows == [])
  }

  lemma ExpectedIs(data: Data)
    ensures Expected(data) <==> Readable(data)
  {
    forall k: Endpoint
      ensures k in [Dns, Ntp, PwdPolicy, Syslog, AutoInstall] <==>
        k.Dns? || k.Ntp? || k.PwdPolicy? || k.Syslog? || k.AutoInstall?
      ensures k in [Interface, Admin] <==> k.Interface? || k.Admin?
    {
    }
    forall k ensures Res(data, k) == if Answered(data, k) then data[k].results else None {}
  }

  ghost predicate Answered(data: Data, key: Endpoint) { key in data && data[key].results.Some? }

  /** The fields of the results, none when they are a list; and the list, empty when they are fields. */
  ghost function Top(data: Data, key: Endpoint): Row<Field>
    requires Answered(data, key)
  {
    match data[key].results.value
    case Settings(values) => values
    case Entries(_) => map[]
  }

  ghost function Listed(data: Data, key: Endpoint): seq<Row<Field>>
    requires Answered(data, key)
  {
    match data[key].results.value
    case Settings(_) => []
    case Entries(rows) => rows
  }

  lemma AnswerIs(data: Data, key: Endpoint)
    ensures Res(data, key).Some? <==> Answered(data, key)
    ensures Answered(data, key) ==>
      Res(data, key).value.Fields() == Top(data, key) && Res(data, key).value.Rows() == Listed(data, key)
  {
  }

  /** The interface lets this service in. */
  ghost predicate Serves(row: Row<Field>, w: string) {
    AllowAccess in row && row[AllowAccess].Text? && IsWordOf(row[AllowAccess].text, w)
  }

  /** A text without white space is its only word. */
  lemma LoneWord(s: string, w: string)
    requires NoSpace(s) && IsWordOf(s, w)
    ensures w == s
  {
    hide Space;
    var a, b := WordParts(s, w);
    assert forall i :: 0 <= i < |a| ==> a[i] == s[i];
    assert forall i :: 0 <= i < |b| ==> b[i] == s[|a| + |w| + i];
  }

  lemma PlainNoSpace(c: char)
    requires c in {'N', 'o', 'n', 'e', 'T', 'r', 'u', 'F', 'a', 'l', 's'}
    ensures !Space(c)
  {
    assert 0x41 <= c as int <= 0x7A;
  }

  /** A value that is not a text is one word, and not in lower case. */
  lemma OtherWord(s: Scalar, w: string)
    requires !s.Text? && IsWordOf(Str(s), w)
    ensures !('a' <= w[0] <= 'z')
  {
    hide Space, Digits, NumeralValue, IsWordOf;
    var t := Str(s);
    if s.Number? {
      NumberText(s.value);
      assert s.value >= 0 ==> Digit(t[0]);
    } else {
      forall i | 0 <= i < |t| ensures !Space(t[i]) { PlainNoSpace(t[i]); }
    }
    LoneWord(t, w);
  }

  lemma ServesIs(row: Row<Field>, services: set<string>)
    requires forall w :: w in services ==> w != "" && 'a' <= w[0] <= 'z'
    ensures LetsIn(row, services) <==> exists w :: w in services && Serves(row, w)
  {
    hide Words, Str, IsWordOf;
    var s := Get(row, AllowAccess, Text(""));
    forall w ensures w in Access(row) <==> IsWordOf(Str(s), w) { WordsAre(Str(s), w); }
    NoWords();
    TextStr(s);
    forall w | IsWordOf(Str(s), w) && !s.Text? && w != "" ensures !('a' <= w[0] <= 'z') { OtherWord(s, w); }
  }

  lemma TextStr(s: Scalar)
    ensures s.Text? ==> Str(s) == s.text
  {
  }

  lemma NoWords()
    ensures Str(Text("")) == "" && forall w :: !IsWordOf("", w)
  {
  }

  lemma DnsMeans(data: Data, py: Python)
    ensures StatusOf(DnsServers, data, py)
         == if !Answered(data, Dns) then Manual
            else
              var v := Top(data, Dns);
              if Primary in v && v[Primary] != Text("") && v[Primary] != Text("0.0.0.0") then Pass else Fail
  {
  }

  ghost predicate WanService(w: string) {
    w in {"http", "https", "ssh", "telnet", "ping", "snmp", "radius-acct", "fgfm"}
  }

  ghost predicate PlainService(w: string) { w == "http" || w == "telnet" }

  lemma InterfacesMean(data: Data, py: Python)
    ensures !Answered(data, Interface) ==>
      StatusOf(WanMgmt, data, py).Manual? && StatusOf(EncryptedMgmt, data, py).Manual?
    ensures Answered(data, Interface) ==>
      var rows := Listed(data, Interface);
      && StatusOf(WanMgmt, data, py)
         == (if exists row, w :: row in rows && Says(row, Role, "wan") && WanService(w) && Serves(row, w)
             then Fail else Pass)
      && StatusOf(EncryptedMgmt, data, py)
         == (if exists row, w :: row in rows && PlainService(w) && Serves(row, w) then Fail else Pass)
  {
    hide LetsIn, Serves;
    AnswerIs(data, Interface);
    if Answered(data, Interface) {
      var rows := Listed(data, Interface);
      forall w ensures w in WAN_WEAK_ACCESS <==> WanService(w) {}
      forall w ensures w in PLAIN_ACCESS <==> PlainService(w) {}
      forall row
        ensures LetsIn(row, WAN_WEAK_ACCESS) <==> exists w :: WanService(w) && Serves(row, w)
        ensures LetsIn(row, PLAIN_ACCESS) <==> exists w :: PlainService(w) && Serves(row, w)
      {
        ServesIs(row, WAN_WEAK_ACCESS);
        ServesIs(row, PLAIN_ACCESS);
      }
      InterfaceStatus(data, py);
      hide WanService, PlainService;
      AnyRow(rows);
    }
  }

  lemma InterfaceStatus(data: Data, py: Python)
    requires Res(data, Interface).Some?
    ensures var rows := Res(data, Interface).value.Rows();
      && StatusOf(WanMgmt, data, py) == PassIf(forall i :: 0 <= i < |rows| ==> !WanExposed(rows[i]))
      && StatusOf(EncryptedMgmt, data, py) == PassIf(forall i :: 0 <= i < |rows| ==> !LetsIn(rows[i], PLAIN_ACCESS))
  {
    hide WanExposed, LetsIn, PLAIN_ACCESS;
  }

  lemma AnyRow(rows: seq<Row<Field>>)
    ensures forall row :: row in rows <==> exists i :: 0 <= i < |rows| && rows[i] == row
  {
  }

  /** A host name that is set, matches no factory pattern and is not the serial number. */
  ghost predicate OwnName(v: Row<Field>, serial: string, py: Python) {
    && HostName in v && v[HostName].Text? && v[HostName].text != ""
    && !py.matches(DefaultHostname, v[HostName].text)
    && (serial == "" || serial == "?" || py.lower(v[HostName].text) != py.lower(serial))
  }

  lemma OwnNameIs(v: Row<Field>, serial: string, py: Python)
    ensures NameStatus(Get(v, HostName, Text("")), serial, py) == if OwnName(v, serial, py) then Pass else Warn
  {
  }

  /** The global settings were read and hold something. */
  ghost predicate GlobalRead(data: Data) {
    Answered(data, Global) && data[Global].results.value != Settings(map[]) && data[Global].results.value != Entries([])
  }

  lemma GlobalStatus(id: ItemId, data: Data, py: Python)
    requires KeyOf(id) == Global
    ensures StatusOf(id, data, py)
         == if GlobalRead(data) then Verdict(id, Res(data, Global).value, data[Global].serial, py) else Manual
  {
    hide Verdict, SnmpStatus, SyslogStatus;
  }

  lemma GreetingMeans(data: Data, py: Python)
    ensures !GlobalRead(data) ==>
      forall id :: id in {PreloginBanner, PostloginBanner, Hostname, Timezone} ==> StatusOf(id, data, py).Manual?
    ensures GlobalRead(data) ==>
      var v, serial := Top(data, Global), data[Global].serial;
      && StatusOf(PreloginBanner, data, py) == (if Says(v, PreLoginBanner, "enable") then Pass else Fail)
      && StatusOf(PostloginBanner, data, py) == (if Says(v, PostLoginBanner, "enable") then Pass else Fail)
      && StatusOf(Hostname, data, py) == (if OwnName(v, serial, py) then Pass else Warn)
      && StatusOf(Timezone, data, py) == (if Holds(v, TimeZone) then Pass else Fail)
  {
    hide StatusOf, NameStatus, OwnName, Truthy, Holds, Value, Get, Says, Verdict, GlobalRead;
    GlobalStatus(PreloginBanner, data, py);
    GlobalStatus(PostloginBanner, data, py);
    GlobalStatus(Hostname, data, py);
    GlobalStatus(Timezone, data, py);
    GlobalTop(data);
    if GlobalRead(data) {
      var v, serial := Top(data, Global), data[Global].serial;
      GreetingVerdicts(Res(data, Global).value, serial, py);
      SaysIs(v, PreLoginBanner, "enable");
      SaysIs(v, PostLoginBanner, "enable");
      OwnNameIs(v, serial, py);
      HoldsIs(v, TimeZone);
    }
  }

  lemma GlobalTop(data: Data)
    ensures GlobalRead(data) ==> Answered(data, Global) && Res(data, Global).Some?
    ensures GlobalRead(data) ==> Res(data, Global).value.Fields() == Top(data, Global)
  {
  }

  ghost predicate WeakTls(w: string) { w == "tlsv1-0" || w == "tlsv1-1" || w == "sslv3" }

  /** TLS versions: none named, a weak one named, `tlsv1-2` named, or neither. */
  ghost function TlsVersions(v: Row<Field>): Status {
    if Spells(v, SslVersions, "") then Manual
    else if exists t, w :: Spells(v, SslVersions, t) && IsWordOf(t, w) && WeakTls(w) then Fail
    else if exists t :: Spells(v, SslVersions, t) && IsWordOf(t, "tlsv1-2") then Warn
    else Pass
  }

  lemma TlsVersionsIs(v: Row<Field>)
    ensures TlsStatus(Trimmed(Value(v, SslVersions))) == TlsVersions(v)
  {
    hide Trimmed, Spells, Words, IsWordOf;
    var t := Trimmed(Value(v, SslVersions));
    forall u ensures Spells(v, SslVersions, u) <==> u == t { SpellsIs(v, SslVersions, u); }
    forall w ensures w in Words(t) <==> IsWordOf(t, w) { WordsAre(t, w); }
    forall w ensures w in WEAK_TLS <==> WeakTls(w) {}
  }

  /** Minutes until an idle administrator is logged out. */
  ghost function Idle(v: Row<Field>, py: Python): Status {
    if exists n :: n <= 5 && Reads(v, AdminTimeout, n, py) then Pass
    else if exists n :: n <= 15 && Reads(v, AdminTimeout, n, py) then Warn
    else if exists n :: Reads(v, AdminTimeout, n, py) then Fail
    else Manual
  }

  lemma ReadIs(v: Row<Field>, f: Field, py: Python)
    ensures forall n :: ToInt(Value(v, f), py) == Some(n) <==> Reads(v, f, n, py)
    ensures ToInt(Value(v, f), py).None? <==> forall n :: !Reads(v, f, n, py)
  {
    hide Reads, ToInt, Value;
    forall n ensures ToInt(Value(v, f), py) == Some(n) <==> Reads(v, f, n, py) { ReadsIs(v, f, n, py); }
    if ToInt(Value(v, f), py).Some? { assert Reads(v, f, ToInt(Value(v, f), py).value, py); }
  }

  lemma IdleIs(v: Row<Field>, py: Python)
    ensures TimeoutStatus(ToInt(Value(v, AdminTimeout), py)) == Idle(v, py)
  {
    hide Reads, ToInt, Value;
    ReadIs(v, AdminTimeout, py);
  }

  /** At most three attempts, and a lockout between one and fifteen minutes. */
  ghost function Locks(v: Row<Field>, py: Python): Status {
    if exists n, t :: n <= 3 && 60 <= t <= 900 && Reads(v, LockoutThreshold, n, py) && Reads(v, LockoutDuration, t, py)
    then Pass
    else if exists n, t :: Reads(v, LockoutThreshold, n, py) && Reads(v, LockoutDuration, t, py) then Fail
    else Manual
  }

  lemma LocksIs(v: Row<Field>, py: Python)
    ensures LockoutStatus(ToInt(Value(v, LockoutThreshold), py), ToInt(Value(v, LockoutDuration), py)) == Locks(v, py)
  {
    hide Reads, ToInt, Value;
    ReadIs(v, LockoutThreshold, py);
    ReadIs(v, LockoutDuration, py);
  }

  lemma SessionsMean(data: Data, py: Python)
    ensures !GlobalRead(data) ==>
      forall id :: id in {TlsVersion, IdleTimeout, Lockout} ==> StatusOf(id, data, py).Manual?
    ensures GlobalRead(data) ==>
      var v := Top(data, Global);
      && StatusOf(TlsVersion, data, py) == TlsVersions(v)
      && StatusOf(IdleTimeout, data, py) == Idle(v, py)
      && StatusOf(Lockout, data, py) == Locks(v, py)
  {
    hide StatusOf, TlsVersions, Idle, Locks, TlsStatus, Trimmed, ToInt, Value, Verdict, GlobalRead;
    GlobalStatus(TlsVersion, data, py);
    GlobalStatus(IdleTimeout, data, py);
    GlobalStatus(Lockout, data, py);
    GlobalTop(data);
    if GlobalRead(data) {
      var v := Top(data, Global);
      SessionVerdicts(Res(data, Global).value, data[Global].serial, py);
      TlsVersionsIs(v);
      IdleIs(v, py);
      LocksIs(v, py);
    }
  }

  /** The port is sent and is not the well-known one. */
  ghost predicate Moved(v: Row<Field>, f: Field, text: string, port: nat) {
    f in v && v[f] != Null && v[f] != Number(port) && v[f] != Text(text) && v[f] != Text("None")
  }

  lemma MovedIs(v: Row<Field>, f: Field, text: string, port: nat)
    requires Numeral(text) && NumeralValue(text) == port && Digits(port) == text
    ensures Moved(v, f, text, port) <==> Str(Value(v, f)) !in [text, "None"]
  {
    hide Str, Digits, NumeralValue, Numeral;
    PortIs(Value(v, f), text, port);
  }

  lemma WebPorts()
    ensures Digits(443) == "443" && Digits(80) == "80"
  {
    assert Digits(4) == "4" && Digits(44) == "44" && Digits(8) == "8";
  }

  lemma PortsMovedIs(v: Row<Field>)
    ensures PortsMoved(v) <==>
      Moved(v, AdminSport, "443", 443) && Moved(v, AdminPort, "80", 80) && Says(v, HttpsRedirect, "disable")
  {
    hide Str, Moved, Numeral, NumeralValue, Digits;
    WebPorts();
    DigitsRoundTrip(443);
    DigitsRoundTrip(80);
    MovedIs(v, AdminSport, "443", 443);
    MovedIs(v, AdminPort, "80", 80);
  }

  lemma ServicesMean(data: Data, py: Python)
    ensures !GlobalRead(data) ==>
      forall id :: id in {StrongCrypto, AdminTelnet, AdminPorts, SslStaticKeys, GuiHostname, CpuLog} ==>
        StatusOf(id, data, py).Manual?
    ensures GlobalRead(data) ==>
      var v := Top(data, Global);
      && StatusOf(StrongCrypto, data, py) == (if Says(v, StrongCryptography, "enable") then Pass else Fail)
      && StatusOf(AdminTelnet, data, py) == Wanted(v, TelnetAdmin, Says(v, TelnetAdmin, "disable"))
      && StatusOf(AdminPorts, data, py)
         == (if Moved(v, AdminSport, "443", 443) && Moved(v, AdminPort, "80", 80) && Says(v, HttpsRedirect, "disable")
             then Pass else Fail)
      && StatusOf(SslStaticKeys, data, py) == Wanted(v, StaticKeyCiphers, Says(v, StaticKeyCiphers, "disable"))
      && StatusOf(GuiHostname, data, py) == Wanted(v, DisplayHostname, Says(v, DisplayHostname, "disable"))
      && StatusOf(CpuLog, data, py) == Wanted(v, SingleCpuHigh, Says(v, SingleCpuHigh, "enable"))
  {
    hide StatusOf, PortsMoved, Moved, Says, Wanted, Required, Value, Verdict, GlobalRead;
    GlobalStatus(StrongCrypto, data, py);
    GlobalStatus(AdminTelnet, data, py);
    GlobalStatus(AdminPorts, data, py);
    GlobalStatus(SslStaticKeys, data, py);
    GlobalStatus(GuiHostname, data, py);
    GlobalStatus(CpuLog, data, py);
    GlobalTop(data);
    if GlobalRead(data) {
      var v := Top(data, Global);
      ServiceVerdicts(Res(data, Global).value, data[Global].serial, py);
      SaysIs(v, StrongCryptography, "enable");
      PortsMovedIs(v);
      WantedIs(v, TelnetAdmin, "disable");
      WantedIs(v, StaticKeyCiphers, "disable");
      WantedIs(v, DisplayHostname, "disable");
      WantedIs(v, SingleCpuHigh, "enable");
    }
  }

  /** One trusted host that is neither blank nor every address. */
  ghost predicate Restricted(row: Row<Field>) {
    exists n, f ::
      && 1 <= n <= 10 && (f == TrustHost4(n) || f == TrustHost6(n))
      && f in row && row[f] != Text("") && row[f] != Text("0.0.0.0 0.0.0.0") && row[f] != Text("::/0")
  }

  lemma RestrictedIs(row: Row<Field>)
    ensures Trusted(row) <==> Restricted(row)
  {
    hide Restricts;
    forall f
      ensures Restricts(row, f) <==>
        f in row && row[f] != Text("") && row[f] != Text("0.0.0.0 0.0.0.0") && row[f] != Text("::/0")
    {
      RestrictsIs(row, f);
    }
  }

  lemma RestrictsIs(row: Row<Field>, f: Field)
    ensures Restricts(row, f) <==>
      f in row && row[f] != Text("") && row[f] != Text("0.0.0.0 0.0.0.0") && row[f] != Text("::/0")
  {
    var s := Get(row, f, Text(""));
    AllAddresses("0.0.0.0 0.0.0.0", "::/0");
    hide Str, Numeral;
    StrIs(s, "");
    StrIs(s, "0.0.0.0 0.0.0.0");
    StrIs(s, "::/0");
  }

  lemma AllAddresses(a: string, b: string)
    requires a == "0.0.0.0 0.0.0.0" && b == "::/0"
    ensures !Numeral(a) && !Numeral(b) && !Numeral("")
  {
    assert a[1] == '.' && b[0] == ':';
  }

  lemma AdminsMean(data: Data, py: Python)
    ensures !Answered(data, Admin) ==> StatusOf(TrustHost, data, py).Manual? && StatusOf(AdminDefault, data, py).Manual?
    ensures Answered(data, Admin) ==>
      var rows := Listed(data, Admin);
      && StatusOf(TrustHost, data, py) == (if forall row :: row in rows ==> Restricted(row) then Pass else Fail)
      && StatusOf(AdminDefault, data, py)
         == (if exists row :: row in rows && Says(row, Name, "admin") then Manual else Pass)
  {
    hide Trusted, Restricted, HasText, Says;
    AnswerIs(data, Admin);
    if Answered(data, Admin) {
      var rows := Listed(data, Admin);
      forall row ensures Trusted(row) <==> Restricted(row) { RestrictedIs(row); }
      HasTextIs(rows, Name, "admin");
      AnyRow(rows);
    }
  }

  /** The policy applies to administrators and asks for fourteen characters. */
  ghost function Strength(v: Row<Field>, py: Python): Status {
    if Switch !in v || v[Switch].Null? || ApplyTo !in v || v[ApplyTo].Null? || forall n :: !Reads(v, MinimumLength, n, py)
    then Manual
    else if && Says(v, Switch, "enable") && (exists n :: n >= 14 && Reads(v, MinimumLength, n, py))
            && exists a, b :: Str(v[ApplyTo]) == a + "admin-password" + b
    then Pass
    else Fail
  }

  lemma PasswordsMean(data: Data, py: Python)
    ensures StatusOf(PwdStrength, data, py)
         == if Answered(data, PwdPolicy) then Strength(Top(data, PwdPolicy), py) else Manual
  {
    hide Reads, ToInt, Str, Contains;
    AnswerIs(data, PwdPolicy);
    if Answered(data, PwdPolicy) {
      var v := Top(data, PwdPolicy);
      ReadIs(v, MinimumLength, py);
      ContainsIs(Str(Value(v, ApplyTo)), "admin-password");
    }
  }

  lemma NtpMeans(data: Data, py: Python)
    ensures StatusOf(NtpSync, data, py)
         == if !Answered(data, Ntp) then Manual
            else if Says(Top(data, Ntp), Synchronise, "enable") then Pass else Fail
  {
  }

  /** SNMP: off, on without a v1/v2c community, or on with one; a list of communities that is not there decides nothing. */
  lemma SnmpMeans(data: Data, py: Python)
    ensures StatusOf(SnmpV1V2c, data, py)
         == if !Answered(data, SnmpSysinfo) then Manual
            else
              var v := Top(data, SnmpSysinfo);
              if Switch !in v || v[Switch].Null? then Manual
              else if v[Switch] != Text("enable") then Pass
              else if !Answered(data, SnmpCommunity) || data[SnmpCommunity].results.value.Settings? then Manual
              else if Listed(data, SnmpCommunity) == [] then Pass else Fail
  {
    hide Verdict;
  }

  /** Syslog: on, or covered by FortiAnalyzer, or off. */
  lemma SyslogMeans(data: Data, py: Python)
    ensures StatusOf(SyslogRemote, data, py)
         == if !Answered(data, Syslog) then Manual
            else if Says(Top(data, Syslog), Switch, "enable") then Pass
            else if Answered(data, Faz) && Says(Top(data, Faz), Switch, "enable") then Warn
            else Fail
  {
    hide Verdict;
  }

  lemma LoggingMeans(data: Data, py: Python)
    ensures StatusOf(EventLogging, data, py)
         == if !Answered(data, EventFilter) then Manual
            else
              var v := Top(data, EventFilter);
              Wanted(v, EventLog, Says(v, EventLog, "enable"))
    ensures StatusOf(FazEncryption, data, py)
         == if !Answered(data, Faz) then Manual
            else
              var v := Top(data, Faz);
              if !Says(v, Switch, "enable") then NotApplicable
              else if Says(v, Reliable, "enable") && Says(v, EncAlgorithm, "high") then Pass
              else Fail
    ensures StatusOf(UsbAutoInstall, data, py)
         == if !Answered(data, AutoInstall) then Manual
            else
              var v := Top(data, AutoInstall);
              if Says(v, InstallConfig, "disable") && Says(v, InstallImage, "disable") then Pass else Fail
  {
  }
}
