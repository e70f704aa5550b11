/** Bringing IP configuration up and down for one activation (src/linux/ip_engine.rs). */
module IpEngine {
  import opened Model
  import opened Wrappers
  import opened IpTypes
  import opened Kernel
  import Dns
  import Prefix

  datatype EngineError =
    | IpConfigError(call: CallError)
    | DhcpError
    | DnsError(dns: Dns.DnsError)
    | InvalidConfig(reason: string)

  function Lift(error: CallError): EngineError {
    match error
    case DnsFailed(dns) => DnsError(dns)
    case _ => IpConfigError(error)
  }

  function LiftOption(error: Option<CallError>): Option<EngineError> {
    if error.None? then None else Some(Lift(error.value))
  }

  /** One activation: what the caller passes, the DHCP server's answer, and how addresses are
      written out in the resolver file. */
  datatype Request = Request(
    interfaceIndex: i32,
    ipv4: IpConfig,
    ipv6: IpConfig,
    dnsOwner: string,
    offer: Option<DhcpLease>,
    show: IpAddr -> string)

  // --- Routes a configuration implies ----------------------------------------------------

  function ConnectedRoute(interfaceIndex: i32, address: IpAddr, prefixLength: byte): Route {
    Route(FamilyOf(address), Prefix.NetworkAddress(address, prefixLength), prefixLength, None,
          Some(interfaceIndex), None, Unicast, Link)
  }

  function DefaultRoute(interfaceIndex: i32, gateway: IpAddr): Route {
    Route(FamilyOf(gateway), UnspecifiedAddress(FamilyOf(gateway)), 0, Some(gateway),
          Some(interfaceIndex), None, Unicast, Universe)
  }

  function DefaultRoutes(interfaceIndex: i32, gateway: Option<IpAddr>): seq<Route> {
    if gateway.None? then [] else [DefaultRoute(interfaceIndex, gateway.value)]
  }

  /** The routes of one family; a route of the other family is ignored. */
  function StaticRoutes(routes: seq<Route>, family: IpFamily): seq<Route> {
    if routes == [] then []
    else (if routes[0].family == family then [routes[0]] else []) + StaticRoutes(routes[1..], family)
  }

  function AddRoutes(routes: seq<Route>): seq<Call> {
    if routes == [] then [] else [AddRoute(routes[0])] + AddRoutes(routes[1..])
  }

  function RemoveRoutes(routes: seq<Route>): seq<Call> {
    if routes == [] then [] else [RemoveRoute(routes[0])] + RemoveRoutes(routes[1..])
  }

  // --- What each family sets out to install -----------------------------------------------

  /** The configuration one family settles on before touching the kernel. */
  datatype Target = Target(
    address: IpAddr,
    prefixLength: byte,
    gateway: Option<IpAddr>,
    lease: Option<DhcpLease>,
    statics: seq<Route>,
    dns: Dns.DnsConfig)

  const NO_DNS := Dns.DnsConfig([], [])

  function SameFamily(address: Option<IpAddr>, family: IpFamily): Option<IpAddr> {
    if address.Some? && FamilyOf(address.value) == family then address else None
  }

  function LeaseServers(servers: seq<Octets4>): seq<IpAddr> {
    seq(|servers|, i requires 0 <= i < |servers| => V4(servers[i]))
  }

  function ManualTarget(config: IpConfig, family: IpFamily, dns: Dns.DnsConfig): Result<Target, EngineError> {
    if SameFamily(config.address, family).None? then
      Failure(InvalidConfig("manual configuration needs a valid address"))
    else if config.prefixLength.None? then
      Failure(InvalidConfig("manual configuration needs a prefix length"))
    else
      Success(Target(config.address.value, config.prefixLength.value, SameFamily(config.gateway, family),
                     None, StaticRoutes(config.routes, family), dns))
  }

  function Ipv4Target(req: Request): Result<Target, EngineError> {
    match req.ipv4.ipMethod
    case Automatic =>
      if req.offer.None? then Failure(DhcpError)
      else
        var lease := req.offer.value;
        Success(Target(V4(lease.address), lease.prefixLength,
                       if lease.gateway.None? then None else Some(V4(lease.gateway.value)),
                       Some(lease), StaticRoutes(req.ipv4.routes, FamilyV4),
                       Dns.DnsConfig(lease.searchDomains, ShowAll(LeaseServers(lease.dnsServers), req.show))))
    case _ =>
      ManualTarget(req.ipv4, FamilyV4, Dns.DnsConfig([], ShowAll(req.ipv4.dnsServers, req.show)))
  }

  function Ipv6Target(req: Request): Result<Target, EngineError> {
    ManualTarget(req.ipv6, FamilyV6, NO_DNS)
  }

  function Routes(interfaceIndex: i32, t: Target): seq<Route> {
    [ConnectedRoute(interfaceIndex, t.address, t.prefixLength)]
    + DefaultRoutes(interfaceIndex, t.gateway) + t.statics
  }

  function DnsCalls(owner: string, config: Dns.DnsConfig): seq<Call> {
    if config == NO_DNS then [] else [ApplyDns(owner, config)]
  }

  /** The install calls of one family, in order. */
  function Installs(interfaceIndex: i32, owner: string, t: Target): seq<Call> {
    [AddAddress(Address(interfaceIndex, t.address, t.prefixLength))]
    + AddRoutes(DefaultRoutes(interfaceIndex, t.gateway))
    + AddRoutes(t.statics)
    + DnsCalls(owner, t.dns)
  }

  const PREFIX_TOO_LONG := IpConfigError(InvalidPrefix)

  /** What the engine records for a family before it starts installing. */
  function Record4(interfaceIndex: i32, t: Target): Option<ActiveIpv4>
    requires t.address.V4?
  {
    Some(ActiveIpv4(interfaceIndex, t.address.v4, t.prefixLength, t.lease, Routes(interfaceIndex, t)))
  }

  function Record6(interfaceIndex: i32, t: Target): Option<ActiveIpv6>
    requires t.address.V6?
  {
    Some(ActiveIpv6(interfaceIndex, Some(t.address.v6), t.prefixLength, Routes(interfaceIndex, t), ManualV6))
  }

  function GrantLease(w: World, lease: Option<DhcpLease>): World {
    if lease.None? then w
    else w.(host := w.host.(leases := w.host.leases + {lease.value}))
  }

  // --- Activation and teardown ----------------------------------------------------------------

  /** Everything an activation did: the world it reached, what it recorded, which installs were
      accepted, and why it stopped. */
  datatype Attempt = Attempt(
    world: World,
    state: ActiveIpState,
    installed: seq<Call>,
    error: Option<EngineError>)

  function Attempt4(w: World, req: Request): Attempt {
    if req.ipv4.ipMethod.Disabled? then Attempt(w, NOTHING_ACTIVE, [], None)
    else match Ipv4Target(req)
      case Failure(error) => Attempt(w, NOTHING_ACTIVE, [], Some(error))
      case Success(t) =>
        var granted := GrantLease(w, t.lease);
        var state := ActiveIpState(Record4(req.interfaceIndex, t), None, None);
        if t.prefixLength > 32 then Attempt(granted, state, [], Some(PREFIX_TOO_LONG))
        else
          var calls := Installs(req.interfaceIndex, req.dnsOwner, t);
          var run := RunUntilFailure(granted, calls);
          var owner := if run.error.None? && t.dns != NO_DNS then Some(req.dnsOwner) else None;
          Attempt(run.world, state.(dnsOwner := owner), calls[..run.done], LiftOption(run.error))
  }

  function Attempt6(w: World, req: Request, state: ActiveIpState): Attempt {
    if !req.ipv6.ipMethod.Manual? then Attempt(w, state, [], None)
    else match Ipv6Target(req)
      case Failure(error) => Attempt(w, state, [], Some(error))
      case Success(t) =>
        var recorded := state.(ipv6 := Record6(req.interfaceIndex, t));
        if t.prefixLength > 128 then Attempt(w, recorded, [], Some(PREFIX_TOO_LONG))
        else
          var calls := Installs(req.interfaceIndex, req.dnsOwner, t);
          var run := RunUntilFailure(w, calls);
          Attempt(run.world, recorded, calls[..run.done], LiftOption(run.error))
  }

  function AttemptBoth(w: World, req: Request): Attempt {
    var first := Attempt4(w, req);
    if first.error.Some? then first
    else
      var second := Attempt6(first.world, req, first.state);
      second.(installed := first.installed + second.installed)
  }

  function FirstGateway(routes: seq<Route>): Option<IpAddr> {
    if routes == [] then None
    else if routes[0].gateway.Some? && routes[0].gateway.value.V4? then routes[0].gateway
    else FirstGateway(routes[1..])
  }

  function TeardownCalls4(ipv4: ActiveIpv4): seq<Call> {
    RemoveRoutes(ipv4.routes)
    + (if ipv4.lease.None? then [] else [ReleaseLease(ipv4.lease.value)])
    + RemoveRoutes(DefaultRoutes(ipv4.interfaceIndex, FirstGateway(ipv4.routes)))
    + [RemoveAddress(Address(ipv4.interfaceIndex, V4(ipv4.address), ipv4.prefixLength))]
  }

  function TeardownCalls6(ipv6: ActiveIpv6): seq<Call> {
    RemoveRoutes(ipv6.routes)
    + (if ipv6.source.ManualV6? && ipv6.linkLocal.Some?
       then [RemoveAddress(Address(ipv6.interfaceIndex, V6(ipv6.linkLocal.value), ipv6.prefixLength))]
       else [])
  }

  function DnsTeardown(dnsOwner: Option<string>): seq<Call> {
    if dnsOwner.None? then [] else [RemoveDns(dnsOwner.value)]
  }

  function IpTeardown(state: ActiveIpState): seq<Call> {
    (if state.ipv4.None? then [] else TeardownCalls4(state.ipv4.value))
    + (if state.ipv6.None? then [] else TeardownCalls6(state.ipv6.value))
  }

  /** The calls a teardown makes: a function of the recorded state alone. */
  function TeardownCalls(state: ActiveIpState): seq<Call> {
    DnsTeardown(state.dnsOwner) + IpTeardown(state)
  }

  /** Failed route removals and releases are ignored; the others are reported. */
  predicate Reported(call: Call) {
    call.RemoveDns? || call.RemoveAddress?
  }

  function Teardown(w: World, state: ActiveIpState): (World, Option<EngineError>) {
    var calls := TeardownCalls(state);
    (RunAll(w, calls), LiftOption(FirstError(w, calls, Reported)))
  }

  function Activate(w: World, req: Request): (World, Result<ActiveIpState, EngineError>) {
    var a := AttemptBoth(w, req);
    if a.error.Some? then (RunAll(a.world, TeardownCalls(a.state)), Failure(a.error.value))
    else (a.world, Success(a.state))
  }
}
