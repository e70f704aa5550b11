/** Plain data exchanged between activation and the IP layer (src/connection/ip.rs, src/connection/profile.rs). */
module IpTypes {
  import opened Model
  import opened Wrappers

  datatype IpMethod = Automatic | Manual | Disabled

  datatype IpConfig = IpConfig(
    ipMethod: IpMethod,
    address: Option<IpAddr>,
    prefixLength: Option<byte>,
    gateway: Option<IpAddr>,
    dnsServers: seq<IpAddr>,
    routes: seq<Route>)

  /** Addresses in their text form, one by one. */
  function ShowAll(servers: seq<IpAddr>, show: IpAddr -> string): seq<string> {
    if servers == [] then [] else [show(servers[0])] + ShowAll(servers[1..], show)
  }

  datatype DhcpLease = DhcpLease(
    interfaceIndex: i32,
    interfaceName: string,
    address: Octets4,
    prefixLength: byte,
    netmask: Octets4,
    gateway: Option<Octets4>,
    dnsServers: seq<Octets4>,
    searchDomains: seq<string>,
    serverIdentifier: Option<Octets4>,
    leaseSeconds: Option<u32>,
    t1Seconds: Option<u32>,
    t2Seconds: Option<u32>)

  datatype Ipv6Source = AutomaticLinkLocal | ManualV6 | DisabledV6

  datatype ActiveIpv4 = ActiveIpv4(
    interfaceIndex: i32,
    address: Octets4,
    prefixLength: byte,
    lease: Option<DhcpLease>,
    routes: seq<Route>)

  datatype ActiveIpv6 = ActiveIpv6(
    interfaceIndex: i32,
    linkLocal: Option<Octets16>,
    prefixLength: byte,
    routes: seq<Route>,
    source: Ipv6Source)

  /** What one activation owns and must later tear down. */
  datatype ActiveIpState = ActiveIpState(
    ipv4: Option<ActiveIpv4>,
    ipv6: Option<ActiveIpv6>,
    dnsOwner: Option<string>)

  const NOTHING_ACTIVE := ActiveIpState(None, None, None)
}
