/** What a settings dictionary says and what is assumed where it says nothing, key by key (src/dbus/convert.rs). */
module SettingsMeaning {
  import opened Model
  import opened Wrappers
  import opened Bytes
  import opened IpTypes
  import opened Profiles
  import opened Settings
  import opened SettingsRoundTrip

  // --- Reading --------------------------------------------------------------------------------------

  /** The connection section: the id is also the name; without the other keys a profile connects automatically,
      with priority 0, on any interface. */
  ghost predicate ConnectionSays(p: ConnectionProfile, s: Section) {
    && "id" in s && s["id"] == Str(p.id) && p.name == p.id
    && p.enabled && p.deviceMatch.macAddress.None?
    && ("autoconnect" !in s ==> p.autoconnect)
    && ("autoconnect" in s && s["autoconnect"].Bool? ==> p.autoconnect == s["autoconnect"].flag)
    && ("priority" !in s ==> p.priority == 0)
    && ("priority" in s && s["priority"].I32? ==> p.priority == s["priority"].number)
    && ("interface-name" !in s ==> p.deviceMatch.interfaceName.None?)
    && ("interface-name" in s && s["interface-name"].Str?
        ==> p.deviceMatch.interfaceName == Some(s["interface-name"].str))
  }

  /** How a Wi-Fi network is secured: by nothing unless a key management is named, and never with a secret taken
      from the dictionary. */
  predicate SecurityNamed(security: WifiSecurity, name: string) {
    || ((name == "none" || name == "") && security == WifiSecurity(Open, None, None))
    || (name == "owe" && security == WifiSecurity(Owe, None, None))
    || (name == "wpa-psk" && security == WifiSecurity(WpaPsk, Some(Keyring("nmd/wifi-psk")), None))
    || (name == "sae" && security == WifiSecurity(Sae, Some(Keyring("nmd/wifi-sae")), None))
    || (name == "wpa-eap" && security == WifiSecurity(WpaEap, None, Some("nmd-enterprise")))
  }

  function KeyManagementIn(d: Dict): string {
    if "802-11-wireless-security" in d then
      var s := d["802-11-wireless-security"];
      if "key-mgmt" in s && s["key-mgmt"].Str? then s["key-mgmt"].str else "none"
    else "none"
  }

  /** The type: a Wi-Fi network with its name and key management, or Ethernet; nothing else is read. */
  ghost predicate TypeSays(t: ConnectionType, d: Dict, name: string) {
    match t
    case Wifi(w) =>
      && name == "802-11-wireless" && "802-11-wireless" in d
      && "ssid" in d["802-11-wireless"] && d["802-11-wireless"]["ssid"] == ByteArray(w.ssid) && |w.ssid| <= 32
      && w.bssid.None? && !w.hidden && SecurityNamed(w.security, KeyManagementIn(d))
    case Ethernet(e) => name == "802-3-ethernet" && e == EthernetSettings(None, None, None)
  }

  lemma TypeMeans(d: Dict, name: string)
    requires ParseType(d, name).Success?
    ensures TypeSays(ParseType(d, name).value, d, name)
  {
  }

  /** The method of an IP section; automatic unless it says otherwise. */
  predicate MethodSays(m: IpMethod, s: Section) {
    var name := if "method" in s && s["method"].Str? then s["method"].str else "auto";
    match m
    case Automatic => name == "auto" || name == ""
    case Manual => name == "manual"
    case Disabled => name == "disabled"
  }

  lemma MethodMeans(s: Section)
    requires ParseMethod(s).Success?
    ensures MethodSays(ParseMethod(s).value, s)
  {
  }

  /** Manual addressing: the first address with its prefix, whose low byte counts; a gateway that can be read, and
      the name servers that can be read, in order. */
  ghost predicate ManualSays(c: IpConfig, s: Section, expectV4: bool, t: Texts) {
    && "address-data" in s && s["address-data"].DictArray? && |s["address-data"].dicts| > 0
    && (var first := s["address-data"].dicts[0];
        && "address" in first && first["address"].Str? && c.address.Some?
        && t.parse(first["address"].str) == c.address && (c.address.value.V4? <==> expectV4)
        && "prefix" in first && first["prefix"].U32? && c.prefixLength == Some(first["prefix"].word % 256))
    && c.gateway == (if "gateway" in s && s["gateway"].Str? then t.parse(s["gateway"].str) else None)
    && c.dnsServers == (if "dns" in s && s["dns"].StrArray? then ParseAll(s["dns"].strs, t.parse) else [])
  }

  /** Any other method leaves the addresses empty. */
  predicate NothingManual(c: IpConfig) {
    c.address.None? && c.prefixLength.None? && c.gateway.None? && c.dnsServers == []
  }

  ghost predicate IpSays(c: IpConfig, s: Section, expectV4: bool, t: Texts) {
    && MethodSays(c.ipMethod, s)
    && (if c.ipMethod.Manual? then ManualSays(c, s, expectV4, t) else NothingManual(c))
    && ("routes" !in s ==> c.routes == [])
    && ("routes" in s && expectV4 ==> s["routes"].U32Arrays? && V4RoutesSay(c.routes, s["routes"].arrays))
    && ("routes" in s && !expectV4 ==> s["routes"].V6Routes? && V6RoutesSay(c.routes, s["routes"].entries))
  }

  lemma IpMeans(s: Section, expectV4: bool, t: Texts)
    requires ParseIpConfig(s, expectV4, t).Success?
    ensures IpSays(ParseIpConfig(s, expectV4, t).value, s, expectV4, t)
  {
    MethodMeans(s);
    if "routes" in s {
      if expectV4 {
        V4Means(s["routes"].arrays);
      } else {
        V6Means(s["routes"].entries);
      }
    }
  }

  // --- Routes ----------------------------------------------------------------------------------------------

  /** A word holds an address with its first octet lowest. */
  function WordOctets(n: u32): seq<byte> {
    [n % 256, n / 256 % 256, n / 65536 % 256, n / 16777216 % 256]
  }

  lemma WordOctetsIsLe32(n: u32)
    ensures WordOctets(n) == Le32(n)
  {
    assert n / 65536 == n / 256 / 256 && n / 16777216 == n / 256 / 256 / 256;
  }

  predicate RouteBasics(r: Route, prefix: u32, metric: u32) {
    && r.prefixLength == prefix && r.outputInterface.None? && r.kind.Unicast?
    && r.metric == (if metric == 0 then None else Some(metric))
    && r.scope == (if prefix == 0 then Universe else Link)
  }

  /** Destination, prefix, next hop and metric; a zero next hop is no gateway and metric 0 is none. */
  predicate V4RouteSays(r: Route, e: seq<u32>) {
    && |e| == 4 && e[1] <= 32 && r.family.FamilyV4? && RouteBasics(r, e[1], e[3])
    && r.destination.V4? && r.destination.v4 == WordOctets(e[0])
    && (if e[2] == 0 then r.gateway.None?
        else r.gateway.Some? && r.gateway.value.V4? && r.gateway.value.v4 == WordOctets(e[2]))
  }

  predicate V6RouteSays(r: Route, e: V6RouteEntry) {
    && |e.dest| == 16 && |e.nextHop| == 16 && e.prefix <= 128
    && r.family.FamilyV6? && RouteBasics(r, e.prefix, e.metric)
    && r.destination == V6(e.dest)
    && (if forall i :: 0 <= i < 16 ==> e.nextHop[i] == 0 then r.gateway.None? else r.gateway == Some(V6(e.nextHop)))
  }

  ghost predicate V4RoutesSay(rs: seq<Route>, es: seq<seq<u32>>) {
    |rs| == |es| && forall i :: 0 <= i < |es| ==> V4RouteSays(rs[i], es[i])
  }

  ghost predicate V6RoutesSay(rs: seq<Route>, es: seq<V6RouteEntry>) {
    |rs| == |es| && forall i :: 0 <= i < |es| ==> V6RouteSays(rs[i], es[i])
  }

  lemma V4RouteMeans(e: seq<u32>)
    requires V4Route(e).Success?
    ensures V4RouteSays(V4Route(e).value, e)
  {
    WordOctetsIsLe32(e[0]);
    WordOctetsIsLe32(e[2]);
  }

  lemma V6RouteMeans(e: V6RouteEntry)
    requires V6Route(e).Success?
    ensures V6RouteSays(V6Route(e).value, e)
  {
    if forall i :: 0 <= i < 16 ==> e.nextHop[i] == 0 {
      assert e.nextHop == UNSPECIFIED_V6;
    }
  }

  lemma {:induction false} V4Means(es: seq<seq<u32>>)
    requires V4RouteList(es).Success?
    ensures V4RoutesSay(V4RouteList(es).value, es)
  {
    if es != [] {
      V4RouteMeans(es[0]);
      V4Means(es[1..]);
    }
  }

  lemma {:induction false} V6Means(es: seq<V6RouteEntry>)
    requires V6RouteList(es).Success?
    ensures V6RoutesSay(V6RouteList(es).value, es)
  {
    if es != [] {
      V6RouteMeans(es[0]);
      V6Means(es[1..]);
    }
  }

  // --- Whole dictionaries ----------------------------------------------------------------------------------------

  /** The IP configuration of a section that may be missing: then it is automatic. */
  ghost predicate IpOrDefault(c: IpConfig, d: Dict, key: string, expectV4: bool, t: Texts) {
    if key in d then IpSays(c, d[key], expectV4, t)
    else c.ipMethod.Automatic? && NothingManual(c) && c.routes == []
  }

  /** What every dictionary that decodes means: each field of the profile by the key it comes from, and its value
      where the key is missing. */
  lemma DecodedProfileSays(d: Dict, t: Texts)
    requires SettingsToProfile(d, t).Success?
    ensures var p := SettingsToProfile(d, t).value;
            && Validate(p).None?
            && "connection" in d && ConnectionSays(p, d["connection"])
            && "type" in d["connection"] && d["connection"]["type"].Str?
            && TypeSays(p.connectionType, d, d["connection"]["type"].str)
            && IpOrDefault(p.ipv4, d, "ipv4", true, t) && IpOrDefault(p.ipv6, d, "ipv6", false, t)
  {
    TypeMeans(d, d["connection"]["type"].str);
    if "ipv4" in d {
      IpMeans(d["ipv4"], true, t);
    }
    if "ipv6" in d {
      IpMeans(d["ipv6"], false, t);
    }
  }

  // --- Writing ---------------------------------------------------------------------------------------------------

  function EntryOf(s: Section, key: string): Option<Value> {
    if key in s then Some(s[key]) else None
  }

  lemma ConnectionEntries(p: ConnectionProfile, t: Texts)
    ensures var s := ConnectionSection(p, t);
            && EntryOf(s, "id") == Some(Str(p.id)) && EntryOf(s, "uuid") == Some(Str(t.uuid(p.id)))
            && EntryOf(s, "type") == Some(Str(if p.connectionType.Wifi? then "802-11-wireless" else "802-3-ethernet"))
            && EntryOf(s, "autoconnect") == Some(Bool(p.autoconnect)) && EntryOf(s, "priority") == Some(I32(p.priority))
            && EntryOf(s, "interface-name") == (if p.deviceMatch.interfaceName.None? then None
                                                else Some(Str(p.deviceMatch.interfaceName.value)))
  {
  }

  lemma WifiEntries(w: WifiSettings)
    ensures var s := WifiSection(w);
            && EntryOf(s, "ssid") == Some(ByteArray(w.ssid)) && EntryOf(s, "mode") == Some(Str("infrastructure"))
            && EntryOf(s, "hidden") == (if w.hidden then Some(Bool(true)) else None)
  {
  }

  function KeyManagementText(k: KeyManagement): string {
    match k
    case Open => "none"
    case WpaPsk => "wpa-psk"
    case WpaEap => "wpa-eap"
    case Sae => "sae"
    case Owe => "owe"
  }

  lemma SecurityEntries(w: WifiSettings)
    ensures SecuritySection(w) == map["key-mgmt" := Str(KeyManagementText(w.security.keyManagement))]
  {
  }

  /** The connection section of every profile, key by key. */
  lemma EncodedConnectionSays(p: ConnectionProfile, t: Texts)
    ensures var d := ProfileToSettings(p, t);
            && "connection" in d
            && (var s := d["connection"];
                && EntryOf(s, "id") == Some(Str(p.id)) && EntryOf(s, "uuid") == Some(Str(t.uuid(p.id)))
                && EntryOf(s, "type")
                   == Some(Str(if p.connectionType.Wifi? then "802-11-wireless" else "802-3-ethernet"))
                && EntryOf(s, "autoconnect") == Some(Bool(p.autoconnect))
                && EntryOf(s, "priority") == Some(I32(p.priority))
                && EntryOf(s, "interface-name") == (if p.deviceMatch.interfaceName.None? then None
                                                    else Some(Str(p.deviceMatch.interfaceName.value))))
  {
    SectionsOf(p, t);
    ConnectionEntries(p, t);
  }

  /** The Wi-Fi sections of every Wi-Fi profile, key by key; no secret is among them. */
  lemma EncodedWifiSays(p: ConnectionProfile, t: Texts)
    requires p.connectionType.Wifi?
    ensures var d, w := ProfileToSettings(p, t), p.connectionType.wifi;
            && "802-11-wireless" in d
            && (var s := d["802-11-wireless"];
                && EntryOf(s, "ssid") == Some(ByteArray(w.ssid)) && EntryOf(s, "mode") == Some(Str("infrastructure"))
                && EntryOf(s, "hidden") == (if w.hidden then Some(Bool(true)) else None))
            && ("802-11-wireless-security" in d <==> !w.security.keyManagement.Open?)
            && ("802-11-wireless-security" in d ==>
                  d["802-11-wireless-security"] == map["key-mgmt" := Str(KeyManagementText(w.security.keyManagement))])
  {
    SectionsOf(p, t);
    WifiEntries(p.connectionType.wifi);
    SecurityEntries(p.connectionType.wifi);
  }

  /** The IP section of every configuration, key by key: addresses only with the manual method. */
  lemma EncodedIpSays(c: IpConfig, expectV4: bool, t: Texts)
    ensures var s := IpConfigSection(c, expectV4, t);
            && EntryOf(s, "method") == Some(Str(match c.ipMethod
                                                case Automatic => "auto"
                                                case Manual => "manual"
                                                case Disabled => "disabled"))
            && EntryOf(s, "gateway") == (if c.ipMethod.Manual? && c.gateway.Some?
                                         then Some(Str(t.show(c.gateway.value))) else None)
            && EntryOf(s, "dns") == (if c.ipMethod.Manual? && c.dnsServers != []
                                     then Some(StrArray(ShowAll(c.dnsServers, t.show))) else None)
            && ("address-data" in s <==> c.ipMethod.Manual? && c.address.Some?)
            && ("routes" in s <==> c.routes != [])
  {
    SectionLookups(c, expectV4, t);
  }
}
