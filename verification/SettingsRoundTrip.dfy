/** Decoding settings is a retraction: what survives encoding, and that decoded profiles survive whole. */
module SettingsRoundTrip {
  import opened Model
  import opened Wrappers
  import opened Bytes
  import opened IpTypes
  import opened Profiles
  import opened Settings

  // --- Routes ----------------------------------------------------------------------------------

  lemma ZeroWord(o: Octets4)
    ensures FromLe32(o) == 0 <==> o == UNSPECIFIED_V4
  {
    if FromLe32(o) == 0 {
      assert o[0] == 0 && o[1] == 0 && o[2] == 0 && o[3] == 0;
    }
  }

  lemma V4RouteReadsBack(route: Route)
    ensures V4Route(V4RouteEntryOf(route)).Success? <==> route.prefixLength <= 32
    ensures route.prefixLength <= 32 ==> V4Route(V4RouteEntryOf(route)) == Success(CanonicalV4(route))
  {
    var destination := if route.destination.V4? then route.destination.v4 else UNSPECIFIED_V4;
    var nextHop := if route.gateway.Some? && route.gateway.value.V4? then route.gateway.value.v4 else UNSPECIFIED_V4;
    Le32ReadBack(destination);
    Le32ReadBack(nextHop);
    ZeroWord(nextHop);
  }

  lemma V6RouteReadsBack(route: Route)
    ensures V6Route(V6RouteEntryOf(route)).Success? <==> route.prefixLength <= 128
    ensures route.prefixLength <= 128 ==> V6Route(V6RouteEntryOf(route)) == Success(CanonicalV6(route))
  {
  }

  lemma {:induction false} V4RoutesReadBack(routes: seq<Route>)
    ensures V4RouteList(V4Entries(routes)).Success? <==> RoutesInRange(routes, true)
    ensures RoutesInRange(routes, true) ==> V4RouteList(V4Entries(routes)) == Success(CanonicalRoutes(routes, true))
  {
    if routes != [] {
      var first, rest := routes[0], routes[1..];
      assert routes == [first] + rest;
      V4RoutesReadBack(rest);
      V4RouteReadsBack(first);
      assert RoutesInRange(routes, true) <==> RouteInRange(first, true) && RoutesInRange(rest, true);
      if first.family.FamilyV4? {
        assert V4Entries(routes)[1..] == V4Entries(rest);
      } else {
        assert V4Entries(routes) == V4Entries(rest);
        assert CanonicalRoutes(routes, true) == CanonicalRoutes(rest, true);
      }
    }
  }

  lemma {:induction false} V6RoutesReadBack(routes: seq<Route>)
    ensures V6RouteList(V6Entries(routes)).Success? <==> RoutesInRange(routes, false)
    ensures RoutesInRange(routes, false) ==> V6RouteList(V6Entries(routes)) == Success(CanonicalRoutes(routes, false))
  {
    if routes != [] {
      var first, rest := routes[0], routes[1..];
      assert routes == [first] + rest;
      V6RoutesReadBack(rest);
      V6RouteReadsBack(first);
      assert RoutesInRange(routes, false) <==> RouteInRange(first, false) && RoutesInRange(rest, false);
      if first.family.FamilyV6? {
        assert V6Entries(routes)[1..] == V6Entries(rest);
      } else {
        assert V6Entries(routes) == V6Entries(rest);
        assert CanonicalRoutes(routes, false) == CanonicalRoutes(rest, false);
      }
    }
  }

  // --- IP sections --------------------------------------------------------------------------------

  lemma {:induction false} ServersReadBack(servers: seq<IpAddr>, t: Texts)
    requires t.Lawful()
    ensures ParseAll(ShowAll(servers, t.show), t.parse) == servers
  {
    if servers != [] {
      ServersReadBack(servers[1..], t);
      assert ShowAll(servers, t.show)[1..] == ShowAll(servers[1..], t.show);
      assert t.parse(t.show(servers[0])) == Some(servers[0]);
      assert servers == [servers[0]] + servers[1..];
    }
  }

  function Lookup(s: Section, key: string): Option<Value> {
    if key in s then Some(s[key]) else None
  }

  lemma IpKeysDiffer()
    ensures var keys := ["method", "address-data", "gateway", "dns", "routes"];
            forall i, j :: 0 <= i < j < 5 ==> keys[i] != keys[j]
  {
    assert |"method"| == 6 && |"address-data"| == 12 && |"gateway"| == 7 && |"dns"| == 3 && |"routes"| == 6;
    assert "method"[0] != "routes"[0];
  }

  /** The keys of an encoded IP section, one by one. */
  lemma SectionLookups(c: IpConfig, expectV4: bool, t: Texts)
    ensures var s := IpConfigSection(c, expectV4, t);
            && Lookup(s, "method") == Some(Str(MethodName(c.ipMethod)))
            && Lookup(s, "address-data") == AddressValue(c, t)
            && Lookup(s, "gateway") == GatewayValue(c, t)
            && Lookup(s, "dns") == DnsValue(c, t)
            && Lookup(s, "routes") == RoutesValue(c, expectV4)
  {
    var keys := ["method", "address-data", "gateway", "dns", "routes"];
    IpKeysDiffer();
    assert forall i :: 0 <= i < 5 ==> forall j :: i < j < 5 ==> keys[i] != keys[j];
    var m, a, g, d, r := keys[0], keys[1], keys[2], keys[3], keys[4];
    FiveLookups(m, a, g, d, r, Some(Str(MethodName(c.ipMethod))), AddressValue(c, t), GatewayValue(c, t),
                DnsValue(c, t), RoutesValue(c, expectV4));
  }

  /** Adding one entry under a new key. */
  lemma LookupAdded(s: Section, key: string, value: Option<Value>)
    requires key !in s
    ensures Lookup(s + Entry(key, value), key) == value
    ensures forall other :: other != key ==> Lookup(s + Entry(key, value), other) == Lookup(s, other)
  {
  }

  lemma FiveLookups(
      m: string, a: string, g: string, d: string, r: string,
      mv: Option<Value>, av: Option<Value>, gv: Option<Value>, dv: Option<Value>, rv: Option<Value>)
    requires m != a && m != g && m != d && m != r && a != g && a != d && a != r && g != d && g != r && d != r
    ensures var s := Entry(m, mv) + Entry(a, av) + Entry(g, gv) + Entry(d, dv) + Entry(r, rv);
            && Lookup(s, m) == mv && Lookup(s, a) == av && Lookup(s, g) == gv
            && Lookup(s, d) == dv && Lookup(s, r) == rv
  {
    var one := Entry(m, mv);
    var two := one + Entry(a, av);
    var three := two + Entry(g, gv);
    var four := three + Entry(d, dv);
    LookupAdded(one, a, av);
    LookupAdded(two, g, gv);
    LookupAdded(three, d, dv);
    LookupAdded(four, r, rv);
  }

  lemma SectionKeys(c: IpConfig, expectV4: bool, t: Texts)
    ensures var s := IpConfigSection(c, expectV4, t);
            && GetStr(s, "method") == Some(MethodName(c.ipMethod))
            && (c.ipMethod.Manual? ==>
                  && GetDictArray(s, "address-data") == (if c.address.None? then None else Some([AddressEntry(c, t)]))
                  && GetStr(s, "gateway") == (if c.gateway.None? then None else Some(t.show(c.gateway.value)))
                  && GetStrArray(s, "dns")
                     == (if c.dnsServers == [] then None else Some(ShowAll(c.dnsServers, t.show))))
            && ("routes" in s <==> c.routes != [])
            && (c.routes != [] ==> s["routes"] == RoutesValue(c, expectV4).value)
  {
    SectionLookups(c, expectV4, t);
  }

  lemma MethodReadsBack(c: IpConfig, expectV4: bool, t: Texts)
    ensures ParseMethod(IpConfigSection(c, expectV4, t)) == Success(c.ipMethod)
  {
    SectionKeys(c, expectV4, t);
  }

  lemma RoutesReadBack(c: IpConfig, expectV4: bool, t: Texts)
    ensures ParseRoutes(IpConfigSection(c, expectV4, t), expectV4).Success? <==> RoutesInRange(c.routes, expectV4)
    ensures RoutesInRange(c.routes, expectV4)
            ==> ParseRoutes(IpConfigSection(c, expectV4, t), expectV4) == Success(CanonicalRoutes(c.routes, expectV4))
  {
    SectionKeys(c, expectV4, t);
    V4RoutesReadBack(c.routes);
    V6RoutesReadBack(c.routes);
  }

  lemma AddressReadsBack(c: IpConfig, t: Texts)
    requires c.address.Some? && c.prefixLength.Some?
    ensures GetStr(AddressEntry(c, t), "address") == Some(t.show(c.address.value))
    ensures GetU32(AddressEntry(c, t), "prefix") == Some(c.prefixLength.value)
  {
  }

  /** Manual addressing out of any section that holds its four parts. */
  lemma ManualFrom(s: Section, entry: Section, c: IpConfig, expectV4: bool, t: Texts)
    requires t.Lawful() && c.ipMethod.Manual? && ValidateIpConfig(c, expectV4).None?
    requires GetDictArray(s, "address-data") == Some([entry])
    requires GetStr(entry, "address") == Some(t.show(c.address.value))
    requires GetU32(entry, "prefix") == Some(c.prefixLength.value)
    requires GetStr(s, "gateway") == (if c.gateway.None? then None else Some(t.show(c.gateway.value)))
    requires GetStrArray(s, "dns") == (if c.dnsServers == [] then None else Some(ShowAll(c.dnsServers, t.show)))
    ensures ParseManual(s, expectV4, t) == Success(c.(routes := []))
  {
    ServersReadBack(c.dnsServers, t);
    assert t.parse(t.show(c.address.value)) == c.address;
    if c.gateway.Some? {
      assert t.parse(t.show(c.gateway.value)) == c.gateway;
    }
  }

  lemma ManualReadsBack(c: IpConfig, expectV4: bool, t: Texts)
    requires t.Lawful() && c.ipMethod.Manual? && ValidateIpConfig(c, expectV4).None?
    ensures ParseManual(IpConfigSection(c, expectV4, t), expectV4, t) == Success(c.(routes := []))
  {
    SectionKeys(c, expectV4, t);
    AddressReadsBack(c, t);
    ManualFrom(IpConfigSection(c, expectV4, t), AddressEntry(c, t), c, expectV4, t);
  }

  lemma IpConfigReadsBack(c: IpConfig, expectV4: bool, t: Texts)
    requires t.Lawful() && ValidateIpConfig(c, expectV4).None?
    ensures var r := ParseIpConfig(IpConfigSection(c, expectV4, t), expectV4, t);
            if RoutesInRange(c.routes, expectV4) then r == Success(CanonicalIp(c, expectV4)) else r.Failure?
  {
    MethodReadsBack(c, expectV4, t);
    RoutesReadBack(c, expectV4, t);
    if c.ipMethod.Manual? {
      ManualReadsBack(c, expectV4, t);
    }
  }

  // --- Profiles --------------------------------------------------------------------------------------

  lemma KeyManagementReadsBack(k: KeyManagement)
    ensures ParseKeyManagement(KeyManagementName(k)) == Success(SecurityFor(k))
    ensures ValidateSecurity(SecurityFor(k)).None?
  {
  }

  lemma SectionNamesDiffer()
    ensures "connection" != WIFI && "connection" != WIFI_SECURITY && "connection" != "ipv4" && "connection" != "ipv6"
    ensures WIFI != WIFI_SECURITY && WIFI != "ipv4" && WIFI != "ipv6" && WIFI != ETHERNET
    ensures WIFI_SECURITY != "ipv4" && WIFI_SECURITY != "ipv6" && "ipv4" != "ipv6"
  {
    assert |"connection"| == 10 && |WIFI| == 15 && |WIFI_SECURITY| == 24 && |"ipv4"| == 4 && |ETHERNET| == 14;
    assert "ipv4"[3] != "ipv6"[3];
  }

  lemma TypeSectionsLookup(connectionType: ConnectionType)
    ensures var d := TypeSections(connectionType);
            && "connection" !in d && "ipv4" !in d && "ipv6" !in d
            && (connectionType.Wifi? ==>
                  && WIFI in d && d[WIFI] == WifiSection(connectionType.wifi)
                  && (WIFI_SECURITY in d <==> !connectionType.wifi.security.keyManagement.Open?)
                  && (WIFI_SECURITY in d ==> d[WIFI_SECURITY] == SecuritySection(connectionType.wifi)))
  {
    SectionNamesDiffer();
  }

  /** Three layers of sections with separate names. */
  lemma LayeredLookup(connection: Section, types: Dict, ipv4: Section, ipv6: Section)
    requires "connection" !in types && "ipv4" !in types && "ipv6" !in types
    ensures var d := map["connection" := connection] + types + map["ipv4" := ipv4, "ipv6" := ipv6];
            && "connection" in d && d["connection"] == connection
            && "ipv4" in d && d["ipv4"] == ipv4 && "ipv6" in d && d["ipv6"] == ipv6
            && (WIFI in d <==> WIFI in types) && (WIFI in types ==> d[WIFI] == types[WIFI])
            && (WIFI_SECURITY in d <==> WIFI_SECURITY in types)
            && (WIFI_SECURITY in types ==> d[WIFI_SECURITY] == types[WIFI_SECURITY])
  {
    SectionNamesDiffer();
  }

  lemma SectionsOf(p: ConnectionProfile, t: Texts)
    ensures var d := ProfileToSettings(p, t);
            && "connection" in d && d["connection"] == ConnectionSection(p, t)
            && "ipv4" in d && d["ipv4"] == IpConfigSection(p.ipv4, true, t)
            && "ipv6" in d && d["ipv6"] == IpConfigSection(p.ipv6, false, t)
            && (p.connectionType.Wifi? ==>
                  && WIFI in d && d[WIFI] == WifiSection(p.connectionType.wifi)
                  && (WIFI_SECURITY in d <==> !p.connectionType.wifi.security.keyManagement.Open?)
                  && (WIFI_SECURITY in d ==> d[WIFI_SECURITY] == SecuritySection(p.connectionType.wifi)))
  {
    TypeSectionsLookup(p.connectionType);
    LayeredLookup(ConnectionSection(p, t), TypeSections(p.connectionType),
                  IpConfigSection(p.ipv4, true, t), IpConfigSection(p.ipv6, false, t));
  }

  lemma ConnectionKeys(p: ConnectionProfile, t: Texts)
    ensures var s := ConnectionSection(p, t);
            && GetStr(s, "id") == Some(p.id)
            && GetStr(s, "type") == Some(if p.connectionType.Wifi? then WIFI else ETHERNET)
            && GetStr(s, "interface-name") == p.deviceMatch.interfaceName
            && GetBool(s, "autoconnect") == Some(p.autoconnect)
            && GetI32(s, "priority") == Some(p.priority)
  {
  }

  lemma WifiKeys(w: WifiSettings)
    ensures GetBytes(WifiSection(w), "ssid") == Some(w.ssid)
    ensures GetStr(SecuritySection(w), "key-mgmt") == Some(KeyManagementName(w.security.keyManagement))
  {
  }

  lemma WifiReadsBack(d: Dict, w: WifiSettings)
    requires |w.ssid| <= 32
    requires WIFI in d && d[WIFI] == WifiSection(w)
    requires WIFI_SECURITY in d <==> !w.security.keyManagement.Open?
    requires WIFI_SECURITY in d ==> d[WIFI_SECURITY] == SecuritySection(w)
    ensures ParseType(d, WIFI) == Success(CanonicalType(Wifi(w)))
  {
    WifiKeys(w);
    KeyManagementReadsBack(w.security.keyManagement);
  }

  lemma TypeReadsBack(p: ConnectionProfile, t: Texts)
    requires ValidateType(p.connectionType).None?
    ensures ParseType(ProfileToSettings(p, t), if p.connectionType.Wifi? then WIFI else ETHERNET)
            == Success(CanonicalType(p.connectionType))
    ensures ValidateType(CanonicalType(p.connectionType)).None?
  {
    SectionsOf(p, t);
    SectionNamesDiffer();
    if p.connectionType.Wifi? {
      WifiReadsBack(ProfileToSettings(p, t), p.connectionType.wifi);
      KeyManagementReadsBack(p.connectionType.wifi.security.keyManagement);
    }
  }

  predicate AllRoutesInRange(p: ConnectionProfile) {
    RoutesInRange(p.ipv4.routes, true) && RoutesInRange(p.ipv6.routes, false)
  }

  lemma CanonicalIsValid(p: ConnectionProfile)
    requires Validate(p).None? && ValidateType(CanonicalType(p.connectionType)).None?
    ensures Validate(Canonical(p)).None?
    ensures NewProfile(p.id, CanonicalType(p.connectionType)).Success?
  {
  }

  /** Decoding any dictionary whose parts decode as those of `p`. */
  lemma DecodeFrom(d: Dict, connection: Section, p: ConnectionProfile, typeName: string, t: Texts)
    requires Validate(p).None? && ValidateType(CanonicalType(p.connectionType)).None?
    requires "connection" in d && d["connection"] == connection
    requires GetStr(connection, "id") == Some(p.id) && GetStr(connection, "type") == Some(typeName)
    requires GetStr(connection, "interface-name") == p.deviceMatch.interfaceName
    requires GetBool(connection, "autoconnect") == Some(p.autoconnect)
    requires GetI32(connection, "priority") == Some(p.priority)
    requires ParseType(d, typeName) == Success(CanonicalType(p.connectionType))
    ensures var four, six := ParseIpOr(d, "ipv4", true, t), ParseIpOr(d, "ipv6", false, t);
            && (four == Success(CanonicalIp(p.ipv4, true)) && six == Success(CanonicalIp(p.ipv6, false))
                ==> SettingsToProfile(d, t) == Success(Canonical(p)))
            && (four.Failure? || six.Failure? ==> SettingsToProfile(d, t).Failure?)
  {
    CanonicalIsValid(p);
  }

  lemma ValidParts(p: ConnectionProfile)
    requires Validate(p).None?
    ensures ValidateType(p.connectionType).None?
    ensures ValidateIpConfig(p.ipv4, true).None? && ValidateIpConfig(p.ipv6, false).None?
  {
  }

  /** The IP sections of any dictionary that holds those of a valid profile. */
  lemma IpPartsReadBack(d: Dict, p: ConnectionProfile, t: Texts)
    requires t.Lawful() && ValidateIpConfig(p.ipv4, true).None? && ValidateIpConfig(p.ipv6, false).None?
    requires "ipv4" in d && d["ipv4"] == IpConfigSection(p.ipv4, true, t)
    requires "ipv6" in d && d["ipv6"] == IpConfigSection(p.ipv6, false, t)
    ensures var four, six := ParseIpOr(d, "ipv4", true, t), ParseIpOr(d, "ipv6", false, t);
            if AllRoutesInRange(p)
            then four == Success(CanonicalIp(p.ipv4, true)) && six == Success(CanonicalIp(p.ipv6, false))
            else four.Failure? || six.Failure?
  {
    IpConfigReadsBack(p.ipv4, true, t);
    IpConfigReadsBack(p.ipv6, false, t);
  }

  /** A valid profile decodes from its own encoding if and only if its routes' prefixes are in range,
      and then as exactly its canonical part. */
  lemma ValidProfilesDecode(p: ConnectionProfile, t: Texts)
    requires t.Lawful() && Validate(p).None?
    ensures var r := SettingsToProfile(ProfileToSettings(p, t), t);
            if AllRoutesInRange(p) then r == Success(Canonical(p)) else r.Failure?
  {
    ValidParts(p);
    SectionsOf(p, t);
    ConnectionKeys(p, t);
    TypeReadsBack(p, t);
    IpPartsReadBack(ProfileToSettings(p, t), p, t);
    DecodeFrom(ProfileToSettings(p, t), ConnectionSection(p, t), p,
               if p.connectionType.Wifi? then WIFI else ETHERNET, t);
  }

  // --- Decoded profiles ----------------------------------------------------------------------------------

  lemma V4RouteIsCanonical(entry: seq<u32>)
    requires V4Route(entry).Success?
    ensures var r := V4Route(entry).value;
            CanonicalV4(r) == r && r.family.FamilyV4? && r.prefixLength <= 32
  {
    if entry[2] != 0 {
      Le32RoundTrip(entry[2]);
      ZeroWord(Le32(entry[2]));
    }
  }

  lemma {:induction false} V4ListIsCanonical(entries: seq<seq<u32>>)
    requires V4RouteList(entries).Success?
    ensures var rs := V4RouteList(entries).value; CanonicalRoutes(rs, true) == rs && RoutesInRange(rs, true)
  {
    if entries != [] {
      V4RouteIsCanonical(entries[0]);
      V4ListIsCanonical(entries[1..]);
      var rs := V4RouteList(entries).value;
      assert rs[1..] == V4RouteList(entries[1..]).value;
    }
  }

  lemma {:induction false} V6ListIsCanonical(entries: seq<V6RouteEntry>)
    requires V6RouteList(entries).Success?
    ensures var rs := V6RouteList(entries).value; CanonicalRoutes(rs, false) == rs && RoutesInRange(rs, false)
  {
    if entries != [] {
      V6ListIsCanonical(entries[1..]);
      var rs := V6RouteList(entries).value;
      assert rs[1..] == V6RouteList(entries[1..]).value;
    }
  }

  lemma DecodedIpIsCanonical(s: Section, expectV4: bool, t: Texts)
    requires ParseIpConfig(s, expectV4, t).Success?
    ensures var c := ParseIpConfig(s, expectV4, t).value;
            CanonicalIp(c, expectV4) == c && RoutesInRange(c.routes, expectV4)
  {
    if "routes" in s {
      if expectV4 {
        V4ListIsCanonical(s["routes"].arrays);
      } else {
        V6ListIsCanonical(s["routes"].entries);
      }
    }
  }

  lemma DecodedTypeIsCanonical(d: Dict, typeName: string)
    requires ParseType(d, typeName).Success?
    ensures CanonicalType(ParseType(d, typeName).value) == ParseType(d, typeName).value
  {
  }

  lemma DecodedProfileIsCanonical(d: Dict, t: Texts)
    requires SettingsToProfile(d, t).Success?
    ensures var p := SettingsToProfile(d, t).value;
            Validate(p).None? && AllRoutesInRange(p) && Canonical(p) == p
  {
    DecodedTypeIsCanonical(d, GetStr(d["connection"], "type").value);
    if "ipv4" in d {
      DecodedIpIsCanonical(d["ipv4"], true, t);
    }
    if "ipv6" in d {
      DecodedIpIsCanonical(d["ipv6"], false, t);
    }
  }

  /** Decoding is a retraction: a decoded profile, encoded and decoded again, is unchanged. */
  lemma DecodingIsARetraction(d: Dict, t: Texts)
    requires t.Lawful() && SettingsToProfile(d, t).Success?
    ensures SettingsToProfile(ProfileToSettings(SettingsToProfile(d, t).value, t), t) == SettingsToProfile(d, t)
  {
    DecodedProfileIsCanonical(d, t);
    ValidProfilesDecode(SettingsToProfile(d, t).value, t);
  }

  /** Among valid profiles with routes in range, the round trip keeps exactly the canonical ones. */
  lemma RoundTripKeepsExactlyCanonicalProfiles(p: ConnectionProfile, t: Texts)
    requires t.Lawful() && Validate(p).None?
    ensures SettingsToProfile(ProfileToSettings(p, t), t) == Success(p) <==> AllRoutesInRange(p) && Canonical(p) == p
  {
    ValidProfilesDecode(p, t);
  }

  /** A valid profile of a hidden network does not survive: it comes back as one that is not hidden. */
  lemma HiddenIsLost(p: ConnectionProfile, t: Texts)
    requires t.Lawful() && Validate(p).None? && AllRoutesInRange(p)
    requires p.connectionType.Wifi? && p.connectionType.wifi.hidden
    ensures var r := SettingsToProfile(ProfileToSettings(p, t), t);
            r.Success? && r.value.connectionType.Wifi? && !r.value.connectionType.wifi.hidden && r.value != p
  {
    ValidProfilesDecode(p, t);
  }
}
