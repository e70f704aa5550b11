/** The conversions as the program writes them: dictionaries filled key by key, profiles field by field
    (src/dbus/convert.rs). */
module SettingsSteps {
  import opened Model
  import opened Wrappers
  import opened IpTypes
  import opened Profiles
  import opened Settings

  /** One insertion into a dictionary, if there is something to insert. */
  method Insert(section: Section, key: string, value: Option<Value>) returns (out: Section)
    ensures out == section + Entry(key, value)
  {
    out := section;
    if value.Some? {
      out := out[key := value.value];
    }
  }

  method WriteAddress(config: IpConfig, t: Texts) returns (value: Option<Value>)
    ensures value == AddressValue(config, t)
  {
    value := None;
    if config.ipMethod.Manual? && config.address.Some? {
      var entry: Section := map["address" := Str(t.show(config.address.value))];
      if config.prefixLength.Some? {
        entry := entry["prefix" := U32(config.prefixLength.value)];
      }
      assert entry == AddressEntry(config, t);
      value := Some(DictArray([entry]));
    }
  }

  method WriteRoutes(config: IpConfig, expectV4: bool) returns (value: Option<Value>)
    ensures value == RoutesValue(config, expectV4)
  {
    if config.routes == [] {
      value := None;
    } else if expectV4 {
      var entries := CollectV4(config.routes);
      value := Some(U32Arrays(entries));
    } else {
      var entries := CollectV6(config.routes);
      value := Some(V6Routes(entries));
    }
  }

  method WriteIpSection(config: IpConfig, expectV4: bool, t: Texts) returns (section: Section)
    ensures section == IpConfigSection(config, expectV4, t)
  {
    section := map["method" := Str(MethodName(config.ipMethod))];
    var address := WriteAddress(config, t);
    section := Insert(section, "address-data", address);
    section := Insert(section, "gateway", GatewayValue(config, t));
    section := Insert(section, "dns", DnsValue(config, t));
    var routes := WriteRoutes(config, expectV4);
    section := Insert(section, "routes", routes);
  }

  lemma V4EntriesFrom(before: seq<seq<u32>>, routes: seq<Route>, i: nat)
    requires i < |routes|
    ensures before + V4Entries(routes[i..])
            == before + (if routes[i].family.FamilyV4? then [V4RouteEntryOf(routes[i])] else [])
               + V4Entries(routes[i + 1..])
  {
    assert routes[i..][1..] == routes[i + 1..];
    var added := if routes[i].family.FamilyV4? then [V4RouteEntryOf(routes[i])] else [];
    var rest := V4Entries(routes[i + 1..]);
    assert before + (added + rest) == before + added + rest;
  }

  method CollectV4(routes: seq<Route>) returns (entries: seq<seq<u32>>)
    ensures entries == V4Entries(routes)
  {
    entries := [];
    assert routes[0..] == routes && entries + V4Entries(routes) == V4Entries(routes);
    for i := 0 to |routes|
      invariant V4Entries(routes) == entries + V4Entries(routes[i..])
    {
      V4EntriesFrom(entries, routes, i);
      entries := entries + if routes[i].family.FamilyV4? then [V4RouteEntryOf(routes[i])] else [];
    }
    assert routes[|routes|..] == [];
  }

  lemma V6EntriesFrom(before: seq<V6RouteEntry>, routes: seq<Route>, i: nat)
    requires i < |routes|
    ensures before + V6Entries(routes[i..])
            == before + (if routes[i].family.FamilyV6? then [V6RouteEntryOf(routes[i])] else [])
               + V6Entries(routes[i + 1..])
  {
    assert routes[i..][1..] == routes[i + 1..];
    var added := if routes[i].family.FamilyV6? then [V6RouteEntryOf(routes[i])] else [];
    var rest := V6Entries(routes[i + 1..]);
    assert before + (added + rest) == before + added + rest;
  }

  method CollectV6(routes: seq<Route>) returns (entries: seq<V6RouteEntry>)
    ensures entries == V6Entries(routes)
  {
    entries := [];
    assert routes[0..] == routes && entries + V6Entries(routes) == V6Entries(routes);
    for i := 0 to |routes|
      invariant V6Entries(routes) == entries + V6Entries(routes[i..])
    {
      V6EntriesFrom(entries, routes, i);
      entries := entries + if routes[i].family.FamilyV6? then [V6RouteEntryOf(routes[i])] else [];
    }
    assert routes[|routes|..] == [];
  }

  method WriteConnection(p: ConnectionProfile, t: Texts) returns (connection: Section)
    ensures connection == ConnectionSection(p, t)
  {
    connection := map["id" := Str(p.id)];
    connection := connection["uuid" := Str(t.uuid(p.id))];
    connection := connection["type" := Str(if p.connectionType.Wifi? then WIFI else ETHERNET)];
    if p.deviceMatch.interfaceName.Some? {
      connection := connection["interface-name" := Str(p.deviceMatch.interfaceName.value)];
    }
    connection := connection["autoconnect" := Bool(p.autoconnect)];
    connection := connection["priority" := I32(p.priority)];
  }

  method WriteTypeSections(connectionType: ConnectionType) returns (dict: Dict)
    ensures dict == TypeSections(connectionType)
  {
    dict := map[];
    if connectionType.Wifi? {
      dict := dict[WIFI := WifiSection(connectionType.wifi)];
      if !connectionType.wifi.security.keyManagement.Open? {
        dict := dict[WIFI_SECURITY := SecuritySection(connectionType.wifi)];
      }
    }
  }

  method WriteSettings(p: ConnectionProfile, t: Texts) returns (dict: Dict)
    ensures dict == ProfileToSettings(p, t)
  {
    var connection := WriteConnection(p, t);
    var types := WriteTypeSections(p.connectionType);
    var ipv4 := WriteIpSection(p.ipv4, true, t);
    var ipv6 := WriteIpSection(p.ipv6, false, t);
    dict := map["connection" := connection] + types + map["ipv4" := ipv4, "ipv6" := ipv6];
  }

  /** Validates the bare profile, fills in its fields, and validates again. */
  method ReadProfile(d: Dict, t: Texts) returns (r: Result<ConnectionProfile, FacadeError>)
    ensures r == SettingsToProfile(d, t)
  {
    if "connection" !in d {
      return Failure(MissingSetting("connection"));
    }
    var connection := d["connection"];
    var id := GetStr(connection, "id");
    if id.None? {
      return Failure(InvalidProperty("connection.id is required"));
    }
    var typeName := GetStr(connection, "type");
    if typeName.None? {
      return Failure(MissingSetting("connection.type"));
    }
    var connectionType := ParseType(d, typeName.value);
    if connectionType.Failure? {
      return Failure(connectionType.error);
    }
    var bare := NewProfile(id.value, connectionType.value);
    if bare.Failure? {
      return Failure(bare.error);
    }
    var profile := bare.value;
    var interfaceName := GetStr(connection, "interface-name");
    if interfaceName.Some? {
      profile := profile.(deviceMatch := profile.deviceMatch.(interfaceName := interfaceName));
    }
    var autoconnect := GetBool(connection, "autoconnect");
    if autoconnect.Some? {
      profile := profile.(autoconnect := autoconnect.value);
    }
    var priority := GetI32(connection, "priority");
    if priority.Some? {
      profile := profile.(priority := priority.value);
    }
    var ipv4 := ParseIpOr(d, "ipv4", true, t);
    if ipv4.Failure? {
      return Failure(ipv4.error);
    }
    var ipv6 := ParseIpOr(d, "ipv6", false, t);
    if ipv6.Failure? {
      return Failure(ipv6.error);
    }
    profile := profile.(ipv4 := ipv4.value, ipv6 := ipv6.value);
    if Validate(profile).Some? {
      return Failure(InvalidSetting("invalid profile"));
    }
    r := Success(profile);
  }
}
