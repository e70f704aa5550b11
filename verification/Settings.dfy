/** Profiles as NetworkManager settings dictionaries, and back (src/dbus/convert.rs). */
module Settings {
  import opened Model
  import opened Wrappers
  import opened Bytes
  import opened IpTypes
  import opened Profiles

  datatype V6RouteEntry = V6RouteEntry(dest: seq<byte>, prefix: u32, nextHop: seq<byte>, metric: u32)

  /** The variants the conversion writes or reads. */
  datatype Value =
    | Str(str: string)
    | U32(word: u32)
    | I32(number: i32)
    | Bool(flag: bool)
    | ByteArray(bytes: seq<byte>)
    | StrArray(strs: seq<string>)
    | DictArray(dicts: seq<map<string, Value>>)
    | U32Arrays(arrays: seq<seq<u32>>)
    | V6Routes(entries: seq<V6RouteEntry>)

  type Section = map<string, Value>
  type Dict = map<string, Section>

  datatype FacadeError = MissingSetting(key: string) | InvalidProperty(reason: string) | InvalidSetting(reason: string)

  /** How addresses are written and read as text, and the uuid derived from an id. */
  datatype Texts = Texts(show: IpAddr -> string, parse: string -> Option<IpAddr>, uuid: string -> string) {
    /** Reading back what was written. */
    ghost predicate Lawful() {
      forall a :: parse(show(a)) == Some(a)
    }
  }

  // --- Accessors -------------------------------------------------------------------------------

  function GetStr(s: Section, key: string): Option<string> {
    if key in s && s[key].Str? then Some(s[key].str) else None
  }

  function GetStrArray(s: Section, key: string): Option<seq<string>> {
    if key in s && s[key].StrArray? then Some(s[key].strs) else None
  }

  function GetU32(s: Section, key: string): Option<u32> {
    if key in s && s[key].U32? then Some(s[key].word) else None
  }

  function GetI32(s: Section, key: string): Option<i32> {
    if key in s && s[key].I32? then Some(s[key].number) else None
  }

  function GetBool(s: Section, key: string): Option<bool> {
    if key in s && s[key].Bool? then Some(s[key].flag) else None
  }

  function GetBytes(s: Section, key: string): Option<seq<byte>> {
    if key in s && s[key].ByteArray? then Some(s[key].bytes) else None
  }

  function GetDictArray(s: Section, key: string): Option<seq<Section>> {
    if key in s && s[key].DictArray? then Some(s[key].dicts) else None
  }

  // --- Routes --------------------------------------------------------------------------------------

  function ScopeFor(prefix: nat): RouteScope {
    if prefix == 0 then Universe else Link
  }

  function NonZeroMetric(metric: u32): Option<u32> {
    if metric == 0 then None else Some(metric)
  }

  function V4Route(entry: seq<u32>): Result<Route, FacadeError> {
    if |entry| != 4 then Failure(InvalidProperty("ipv4.routes entry is not [dest, prefix, next-hop, metric]"))
    else if entry[1] > 32 then Failure(InvalidProperty("ipv4.routes prefix exceeds 32"))
    else
      Success(Route(FamilyV4, V4(Le32(entry[0])), entry[1],
                    if entry[2] == 0 then None else Some(V4(Le32(entry[2]))),
                    None, NonZeroMetric(entry[3]), Unicast, ScopeFor(entry[1])))
  }

  function V6Route(entry: V6RouteEntry): Result<Route, FacadeError> {
    if |entry.dest| != 16 || |entry.nextHop| != 16 then
      Failure(InvalidProperty("ipv6.routes addresses are not 16 octets"))
    else if entry.prefix > 128 then Failure(InvalidProperty("ipv6.routes prefix exceeds 128"))
    else
      Success(Route(FamilyV6, V6(entry.dest), entry.prefix,
                    if entry.nextHop == UNSPECIFIED_V6 then None else Some(V6(entry.nextHop)),
                    None, NonZeroMetric(entry.metric), Unicast, ScopeFor(entry.prefix)))
  }

  function V4RouteList(entries: seq<seq<u32>>): Result<seq<Route>, FacadeError> {
    if entries == [] then Success([])
    else
      var first :- V4Route(entries[0]);
      var rest :- V4RouteList(entries[1..]);
      Success([first] + rest)
  }

  function V6RouteList(entries: seq<V6RouteEntry>): Result<seq<Route>, FacadeError> {
    if entries == [] then Success([])
    else
      var first :- V6Route(entries[0]);
      var rest :- V6RouteList(entries[1..]);
      Success([first] + rest)
  }

  function ParseRoutes(s: Section, expectV4: bool): Result<seq<Route>, FacadeError> {
    if "routes" !in s then Success([])
    else if expectV4 then
      if s["routes"].U32Arrays? then V4RouteList(s["routes"].arrays)
      else Failure(InvalidProperty("ipv4.routes is not an array of u32 tuples"))
    else
      if s["routes"].V6Routes? then V6RouteList(s["routes"].entries)
      else Failure(InvalidProperty("ipv6.routes is not a(ayuayu)"))
  }

  function V4RouteEntryOf(route: Route): seq<u32> {
    var destination := if route.destination.V4? then route.destination.v4 else UNSPECIFIED_V4;
    var nextHop := if route.gateway.Some? && route.gateway.value.V4? then route.gateway.value.v4 else UNSPECIFIED_V4;
    [FromLe32(destination), route.prefixLength, FromLe32(nextHop), route.metric.GetOr(0)]
  }

  function V6RouteEntryOf(route: Route): V6RouteEntry {
    var destination := if route.destination.V6? then route.destination.v6 else UNSPECIFIED_V6;
    var nextHop := if route.gateway.Some? && route.gateway.value.V6? then route.gateway.value.v6 else UNSPECIFIED_V6;
    V6RouteEntry(destination, route.prefixLength, nextHop, route.metric.GetOr(0))
  }

  function V4Entries(routes: seq<Route>): seq<seq<u32>> {
    if routes == [] then []
    else (if routes[0].family.FamilyV4? then [V4RouteEntryOf(routes[0])] else []) + V4Entries(routes[1..])
  }

  function V6Entries(routes: seq<Route>): seq<V6RouteEntry> {
    if routes == [] then []
    else (if routes[0].family.FamilyV6? then [V6RouteEntryOf(routes[0])] else []) + V6Entries(routes[1..])
  }

  // --- IP sections --------------------------------------------------------------------------------------

  const DEFAULT_IP := IpConfig(Automatic, None, None, None, [], [])

  function MethodName(ipMethod: IpMethod): string {
    match ipMethod
    case Automatic => "auto"
    case Manual => "manual"
    case Disabled => "disabled"
  }

  function ParseAll(servers: seq<string>, parse: string -> Option<IpAddr>): seq<IpAddr> {
    if servers == [] then []
    else
      var first := parse(servers[0]);
      (if first.None? then [] else [first.value]) + ParseAll(servers[1..], parse)
  }

  function AddressEntry(config: IpConfig, t: Texts): Section
    requires config.address.Some?
  {
    map["address" := Str(t.show(config.address.value))]
    + (if config.prefixLength.None? then map[] else map["prefix" := U32(config.prefixLength.value)])
  }

  /** A section with one key, or none. */
  function Entry(key: string, value: Option<Value>): Section {
    if value.None? then map[] else map[key := value.value]
  }

  function AddressValue(config: IpConfig, t: Texts): Option<Value> {
    if config.ipMethod.Manual? && config.address.Some? then Some(DictArray([AddressEntry(config, t)])) else None
  }

  function GatewayValue(config: IpConfig, t: Texts): Option<Value> {
    if config.ipMethod.Manual? && config.gateway.Some? then Some(Str(t.show(config.gateway.value))) else None
  }

  function DnsValue(config: IpConfig, t: Texts): Option<Value> {
    if config.ipMethod.Manual? && config.dnsServers != [] then Some(StrArray(ShowAll(config.dnsServers, t.show)))
    else None
  }

  function RoutesValue(config: IpConfig, expectV4: bool): Option<Value> {
    if config.routes == [] then None
    else Some(if expectV4 then U32Arrays(V4Entries(config.routes)) else V6Routes(V6Entries(config.routes)))
  }

  function IpConfigSection(config: IpConfig, expectV4: bool, t: Texts): Section {
    Entry("method", Some(Str(MethodName(config.ipMethod))))
    + Entry("address-data", AddressValue(config, t))
    + Entry("gateway", GatewayValue(config, t))
    + Entry("dns", DnsValue(config, t))
    + Entry("routes", RoutesValue(config, expectV4))
  }

  function ParseMethod(s: Section): Result<IpMethod, FacadeError> {
    var name := GetStr(s, "method").GetOr("auto");
    if name == "auto" || name == "" then Success(Automatic)
    else if name == "manual" then Success(Manual)
    else if name == "disabled" then Success(Disabled)
    else Failure(InvalidSetting("unsupported IP method"))
  }

  function ParseManual(s: Section, expectV4: bool, t: Texts): Result<IpConfig, FacadeError> {
    var data := GetDictArray(s, "address-data");
    if data.None? then Failure(MissingSetting("ip method requires address-data"))
    else if data.value == [] then Failure(MissingSetting("manual IP configuration requires an address"))
    else
      var text := GetStr(data.value[0], "address");
      if text.None? then Failure(InvalidProperty("address missing"))
      else
        var address := t.parse(text.value);
        if address.None? then Failure(InvalidProperty("address is not a valid IP address"))
        else if address.value.V4? != expectV4 then Failure(InvalidProperty("address family does not match the setting"))
        else
          var prefix := GetU32(data.value[0], "prefix");
          if prefix.None? then Failure(MissingSetting("address prefix required"))
          else
            var gateway := GetStr(s, "gateway");
            var dns := GetStrArray(s, "dns");
            Success(IpConfig(Manual, address, Some(prefix.value % 0x100),
                             if gateway.None? then None else t.parse(gateway.value),
                             if dns.None? then [] else ParseAll(dns.value, t.parse), []))
  }

  function ParseIpConfig(s: Section, expectV4: bool, t: Texts): Result<IpConfig, FacadeError> {
    var ipMethod :- ParseMethod(s);
    var config :- if ipMethod.Manual? then ParseManual(s, expectV4, t) else Success(DEFAULT_IP.(ipMethod := ipMethod));
    var routes :- ParseRoutes(s, expectV4);
    Success(config.(routes := routes))
  }

  // --- Profiles ------------------------------------------------------------------------------------------

  function KeyManagementName(k: KeyManagement): string {
    match k
    case Open => "none"
    case WpaPsk => "wpa-psk"
    case WpaEap => "wpa-eap"
    case Sae => "sae"
    case Owe => "owe"
  }

  function SecurityFor(k: KeyManagement): WifiSecurity {
    match k
    case Open => WifiSecurity(Open, None, None)
    case Owe => WifiSecurity(Owe, None, None)
    case WpaPsk => WifiSecurity(WpaPsk, Some(Keyring("nmd/wifi-psk")), None)
    case Sae => WifiSecurity(Sae, Some(Keyring("nmd/wifi-sae")), None)
    case WpaEap => WifiSecurity(WpaEap, None, Some("nmd-enterprise"))
  }

  function ParseKeyManagement(name: string): Result<WifiSecurity, FacadeError> {
    if name == "none" || name == "" then Success(SecurityFor(Open))
    else if name == "owe" then Success(SecurityFor(Owe))
    else if name == "wpa-psk" then Success(SecurityFor(WpaPsk))
    else if name == "sae" then Success(SecurityFor(Sae))
    else if name == "wpa-eap" then Success(SecurityFor(WpaEap))
    else Failure(InvalidSetting("unsupported key management"))
  }

  const WIFI := "802-11-wireless"
  const WIFI_SECURITY := "802-11-wireless-security"
  const ETHERNET := "802-3-ethernet"

  function ConnectionSection(p: ConnectionProfile, t: Texts): Section {
    map["id" := Str(p.id), "uuid" := Str(t.uuid(p.id)),
        "type" := Str(if p.connectionType.Wifi? then WIFI else ETHERNET),
        "autoconnect" := Bool(p.autoconnect), "priority" := I32(p.priority)]
    + (if p.deviceMatch.interfaceName.None? then map[]
       else map["interface-name" := Str(p.deviceMatch.interfaceName.value)])
  }

  function WifiSection(w: WifiSettings): Section {
    map["ssid" := ByteArray(w.ssid), "mode" := Str("infrastructure")]
    + (if w.hidden then map["hidden" := Bool(true)] else map[])
    + (if w.security.keyManagement.Open? then map[] else map["security" := Str(WIFI_SECURITY)])
  }

  function SecuritySection(w: WifiSettings): Section {
    map["key-mgmt" := Str(KeyManagementName(w.security.keyManagement))]
  }

  function TypeSections(connectionType: ConnectionType): Dict {
    match connectionType
    case Ethernet(_) => map[]
    case Wifi(w) =>
      map[WIFI := WifiSection(w)]
      + (if w.security.keyManagement.Open? then map[] else map[WIFI_SECURITY := SecuritySection(w)])
  }

  function ProfileToSettings(p: ConnectionProfile, t: Texts): Dict {
    map["connection" := ConnectionSection(p, t)]
    + TypeSections(p.connectionType)
    + map["ipv4" := IpConfigSection(p.ipv4, true, t), "ipv6" := IpConfigSection(p.ipv6, false, t)]
  }

  function NewProfile(id: string, connectionType: ConnectionType): Result<ConnectionProfile, FacadeError> {
    var p := ConnectionProfile(id, id, connectionType, DeviceMatch(None, None), 0, true, true, DEFAULT_IP, DEFAULT_IP);
    if Validate(p).Some? then Failure(InvalidSetting("invalid profile")) else Success(p)
  }

  function ParseType(d: Dict, typeName: string): Result<ConnectionType, FacadeError> {
    if typeName == WIFI then
      if WIFI !in d then Failure(MissingSetting(WIFI))
      else
        var ssid := GetBytes(d[WIFI], "ssid");
        if ssid.None? then Failure(InvalidProperty("802-11-wireless.ssid is required"))
        else if |ssid.value| > 32 then Failure(InvalidProperty("802-11-wireless.ssid exceeds 32 octets"))
        else
          var name := if WIFI_SECURITY in d then GetStr(d[WIFI_SECURITY], "key-mgmt").GetOr("none") else "none";
          var security :- ParseKeyManagement(name);
          Success(Wifi(WifiSettings(ssid.value, None, false, security)))
    else if typeName == ETHERNET then Success(Ethernet(EthernetSettings(None, None, None)))
    else Failure(InvalidSetting("unsupported connection type"))
  }

  function ParseIpOr(d: Dict, key: string, expectV4: bool, t: Texts): Result<IpConfig, FacadeError> {
    if key in d then ParseIpConfig(d[key], expectV4, t) else Success(DEFAULT_IP)
  }

  function SettingsToProfile(d: Dict, t: Texts): Result<ConnectionProfile, FacadeError> {
    if "connection" !in d then Failure(MissingSetting("connection"))
    else
      var connection := d["connection"];
      var id := GetStr(connection, "id");
      var typeName := GetStr(connection, "type");
      if id.None? then Failure(InvalidProperty("connection.id is required"))
      else if typeName.None? then Failure(MissingSetting("connection.type"))
      else
        var connectionType :- ParseType(d, typeName.value);
        var p :- NewProfile(id.value, connectionType);
        var ipv4 :- ParseIpOr(d, "ipv4", true, t);
        var ipv6 :- ParseIpOr(d, "ipv6", false, t);
        var profile := p.(
          deviceMatch := DeviceMatch(GetStr(connection, "interface-name"), None),
          autoconnect := GetBool(connection, "autoconnect").GetOr(true),
          priority := GetI32(connection, "priority").GetOr(0),
          ipv4 := ipv4, ipv6 := ipv6);
        if Validate(profile).Some? then Failure(InvalidSetting("invalid profile")) else Success(profile)
  }

  // --- What survives -----------------------------------------------------------------------------------------

  predicate RouteInRange(route: Route, expectV4: bool) {
    if expectV4 then route.family.FamilyV4? ==> route.prefixLength <= 32
    else route.family.FamilyV6? ==> route.prefixLength <= 128
  }

  predicate RoutesInRange(routes: seq<Route>, expectV4: bool) {
    forall i :: 0 <= i < |routes| ==> RouteInRange(routes[i], expectV4)
  }

  function CanonicalV4(route: Route): Route {
    Route(FamilyV4, if route.destination.V4? then route.destination else V4(UNSPECIFIED_V4), route.prefixLength,
          if route.gateway.Some? && route.gateway.value.V4? && route.gateway.value.v4 != UNSPECIFIED_V4
          then route.gateway else None,
          None, NonZeroMetric(route.metric.GetOr(0)), Unicast, ScopeFor(route.prefixLength))
  }

  function CanonicalV6(route: Route): Route {
    Route(FamilyV6, if route.destination.V6? then route.destination else V6(UNSPECIFIED_V6), route.prefixLength,
          if route.gateway.Some? && route.gateway.value.V6? && route.gateway.value.v6 != UNSPECIFIED_V6
          then route.gateway else None,
          None, NonZeroMetric(route.metric.GetOr(0)), Unicast, ScopeFor(route.prefixLength))
  }

  function CanonicalRoutes(routes: seq<Route>, expectV4: bool): seq<Route> {
    if routes == [] then []
    else
      var first := routes[0];
      (if first.family.FamilyV4? == expectV4 then [if expectV4 then CanonicalV4(first) else CanonicalV6(first)] else [])
      + CanonicalRoutes(routes[1..], expectV4)
  }

  function CanonicalIp(config: IpConfig, expectV4: bool): IpConfig {
    var routes := CanonicalRoutes(config.routes, expectV4);
    if config.ipMethod.Manual? then config.(routes := routes)
    else DEFAULT_IP.(ipMethod := config.ipMethod, routes := routes)
  }

  function CanonicalType(connectionType: ConnectionType): ConnectionType {
    match connectionType
    case Wifi(w) => Wifi(WifiSettings(w.ssid, None, false, SecurityFor(w.security.keyManagement)))
    case Ethernet(_) => Ethernet(EthernetSettings(None, None, None))
  }

  /** The part of a profile that a settings dictionary can carry. */
  function Canonical(p: ConnectionProfile): ConnectionProfile {
    ConnectionProfile(p.id, p.id, CanonicalType(p.connectionType),
                      DeviceMatch(p.deviceMatch.interfaceName, None), p.priority, p.autoconnect, true,
                      CanonicalIp(p.ipv4, true), CanonicalIp(p.ipv6, false))
  }
}
