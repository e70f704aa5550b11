/** What a successful activation leaves on the host, read off the request and the lease alone. */
module ActivationEffect {
  import opened Model
  import opened Wrappers
  import opened IpTypes
  import opened Kernel
  import opened KernelEffects
  import opened IpEngine
  import opened Rollback
  import opened SafeFailure
  import Dns
  import Prefix

  // --- What a request asks for ----------------------------------------------------------------------

  /** Each configured family has what it needs: a lease or an address of its own family, and a prefix in range. */
  predicate WellFormed(req: Request) {
    && (match req.ipv4.ipMethod
        case Automatic => req.offer.Some? && req.offer.value.prefixLength <= 32
        case Manual =>
          && req.ipv4.address.Some? && req.ipv4.address.value.V4?
          && req.ipv4.prefixLength.Some? && req.ipv4.prefixLength.value <= 32
        case Disabled => true)
    && (req.ipv6.ipMethod.Manual? ==>
          && req.ipv6.address.Some? && req.ipv6.address.value.V6?
          && req.ipv6.prefixLength.Some? && req.ipv6.prefixLength.value <= 128)
  }

  function AskedAddress4(req: Request): Option<Address>
    requires WellFormed(req)
  {
    match req.ipv4.ipMethod
    case Automatic => Some(Address(req.interfaceIndex, V4(req.offer.value.address), req.offer.value.prefixLength))
    case Manual => Some(Address(req.interfaceIndex, req.ipv4.address.value, req.ipv4.prefixLength.value))
    case Disabled => None
  }

  function AskedAddress6(req: Request): Option<Address>
    requires WellFormed(req)
  {
    if req.ipv6.ipMethod.Manual?
    then Some(Address(req.interfaceIndex, req.ipv6.address.value, req.ipv6.prefixLength.value))
    else None
  }

  /** The gateway of the lease, or the configured one if it is an IPv4 address. */
  function AskedGateway4(req: Request): Option<IpAddr>
    requires WellFormed(req)
  {
    match req.ipv4.ipMethod
    case Automatic => if req.offer.value.gateway.Some? then Some(V4(req.offer.value.gateway.value)) else None
    case Manual => if req.ipv4.gateway.Some? && req.ipv4.gateway.value.V4? then req.ipv4.gateway else None
    case Disabled => None
  }

  function AskedGateway6(req: Request): Option<IpAddr> {
    if req.ipv6.ipMethod.Manual? && req.ipv6.gateway.Some? && req.ipv6.gateway.value.V6? then req.ipv6.gateway else None
  }

  function AskedRoutes4(req: Request): seq<Route> {
    if req.ipv4.ipMethod.Disabled? then [] else req.ipv4.routes
  }

  function AskedRoutes6(req: Request): seq<Route> {
    if req.ipv6.ipMethod.Manual? then req.ipv6.routes else []
  }

  /** The domains and servers the resolver file must name. */
  function AskedDomains(req: Request): seq<string>
    requires WellFormed(req)
  {
    if req.ipv4.ipMethod.Automatic? then req.offer.value.searchDomains else []
  }

  function AskedServers(req: Request): seq<IpAddr>
    requires WellFormed(req)
  {
    match req.ipv4.ipMethod
    case Automatic =>
      var servers := req.offer.value.dnsServers;
      seq(|servers|, k requires 0 <= k < |servers| => V4(servers[k]))
    case Manual => req.ipv4.dnsServers
    case Disabled => []
  }

  // --- What it must leave -------------------------------------------------------------------------------

  function Slot(r: Route): RouteKey {
    RouteKey(r.family, r.destination, r.prefixLength, if r.metric.Some? then r.metric.value else 0)
  }

  function Contents(r: Route): RouteEntry {
    RouteEntry(r.gateway, if r.outputInterface.Some? then r.outputInterface.value else 0,
               KindCode(r.kind), ScopeCode(r.scope))
  }

  const DEFAULT4 := RouteKey(FamilyV4, V4([0, 0, 0, 0]), 0, 0)
  const DEFAULT6 := RouteKey(FamilyV6, V6([0, 0, 0, 0, 0, 0, 0, 0, 0, 0, 0, 0, 0, 0, 0, 0]), 0, 0)

  /** The `i`-th requested route is of the family and takes the slot. */
  predicate Takes(routes: seq<Route>, family: IpFamily, i: nat, slot: RouteKey)
    requires i < |routes|
  {
    routes[i].family == family && Slot(routes[i]) == slot
  }

  /** No requested route of the family from position `from` on takes the slot. */
  ghost predicate NoneTakes(routes: seq<Route>, family: IpFamily, from: nat, slot: RouteKey) {
    forall j :: from <= j < |routes| ==> !Takes(routes, family, j, slot)
  }

  /** One family's part of the table: the last requested route of each slot, then the default route through
      the gateway where no requested route takes its slot, and every other slot of the family as before. */
  ghost predicate RoutesInstalled(
      before: RouteTable, after: RouteTable, interfaceIndex: i32,
      family: IpFamily, default: RouteKey, gateway: Option<IpAddr>, routes: seq<Route>)
  {
    && (forall i :: 0 <= i < |routes| && routes[i].family == family && NoneTakes(routes, family, i + 1, Slot(routes[i]))
                    ==> Slot(routes[i]) in after && after[Slot(routes[i])] == Contents(routes[i]))
    && (gateway.Some? && NoneTakes(routes, family, 0, default)
        ==> default in after && after[default] == RouteEntry(gateway, interfaceIndex, 1, 0))
    && (forall k: RouteKey :: k.family == family && NoneTakes(routes, family, 0, k) && (gateway.Some? ==> k != default)
                    ==> (k in after <==> k in before) && (k in after ==> after[k] == before[k]))
  }

  /** The text of the resolver file: the sentinel line, the search line if there are domains, the servers. */
  function ResolverText(owner: string, domains: seq<string>, servers: seq<IpAddr>, show: IpAddr -> string): string {
    "# nmd-owned owner=" + owner + "\n"
    + (if domains == [] then "" else "search " + Spaced(domains) + "\n")
    + ServerLines(servers, show)
  }

  function Spaced(words: seq<string>): string {
    if words == [] then "" else words[0] + (if |words| == 1 then "" else " " + Spaced(words[1..]))
  }

  function ServerLines(servers: seq<IpAddr>, show: IpAddr -> string): string {
    if servers == [] then "" else "nameserver " + show(servers[0]) + "\n" + ServerLines(servers[1..], show)
  }

  // --- Route tables ---------------------------------------------------------------------------------------

  function RoutesOf(calls: seq<Call>): seq<Route> {
    if calls == [] then []
    else (if calls[0].AddRoute? then [calls[0].route] else []) + RoutesOf(calls[1..])
  }

  lemma {:induction false} RoutesOfSplits(a: seq<Call>, b: seq<Call>)
    ensures RoutesOf(a + b) == RoutesOf(a) + RoutesOf(b)
  {
    if a == [] {
      assert a + b == b;
    } else {
      assert (a + b)[1..] == a[1..] + b;
      RoutesOfSplits(a[1..], b);
      var first := if a[0].AddRoute? then [a[0].route] else [];
      assert first + (RoutesOf(a[1..]) + RoutesOf(b)) == (first + RoutesOf(a[1..])) + RoutesOf(b);
    }
  }

  lemma RoutesOfCons(route: Route, rest: seq<Call>)
    ensures RoutesOf([AddRoute(route)] + rest) == [route] + RoutesOf(rest)
  {
    assert ([AddRoute(route)] + rest)[1..] == rest;
  }

  lemma {:induction false} RoutesOfAdded(routes: seq<Route>)
    ensures RoutesOf(AddRoutes(routes)) == routes
  {
    if routes != [] {
      RoutesOfAdded(routes[1..]);
      RoutesOfCons(routes[0], AddRoutes(routes[1..]));
      assert routes == [routes[0]] + routes[1..];
    }
  }

  /** The last of the routes that takes a slot. */
  function LastFor(routes: seq<Route>, slot: RouteKey): Option<Route> {
    if routes == [] then None
    else
      var later := LastFor(routes[1..], slot);
      if later.Some? then later else if Slot(routes[0]) == slot then Some(routes[0]) else None
  }

  lemma {:induction false} LastForSplits(a: seq<Route>, b: seq<Route>, slot: RouteKey)
    ensures LastFor(a + b, slot) == if LastFor(b, slot).Some? then LastFor(b, slot) else LastFor(a, slot)
  {
    if a == [] {
      assert a + b == b;
    } else {
      assert (a + b)[1..] == a[1..] + b;
      LastForSplits(a[1..], b, slot);
    }
  }

  /** The table after installs: each slot holds the last route that took it, or what it held. */
  lemma {:induction false} TableAfter(host: Host, calls: seq<Call>, slot: RouteKey)
    requires AllInstalls(calls)
    ensures var after, last := Install(host, calls).routes, LastFor(RoutesOf(calls), slot);
            if last.Some? then slot in after && after[slot] == Contents(last.value)
            else (slot in after <==> slot in host.routes) && (slot in after ==> after[slot] == host.routes[slot])
    decreases |calls|
  {
    if calls != [] {
      assert calls[0] in calls;
      TableAfter(Place(host, calls[0]), calls[1..], slot);
      if calls[0].AddRoute? {
        assert RoutesOf(calls)[1..] == RoutesOf(calls[1..]);
      } else {
        assert RoutesOf(calls) == RoutesOf(calls[1..]);
      }
    }
  }

  /** The last static route of a slot is the requested one with no later rival. */
  lemma {:induction false} LastStatic(routes: seq<Route>, family: IpFamily, i: nat)
    requires i < |routes| && routes[i].family == family && NoneTakes(routes, family, i + 1, Slot(routes[i]))
    ensures LastFor(StaticRoutes(routes, family), Slot(routes[i])) == Some(routes[i])
    decreases |routes|
  {
    var first, rest := routes[0], routes[1..];
    var later := StaticRoutes(rest, family);
    if i > 0 {
      forall j | i <= j < |rest| ensures !Takes(rest, family, j, Slot(routes[i])) {
        assert !Takes(routes, family, j + 1, Slot(routes[i]));
      }
      LastStatic(rest, family, i - 1);
    } else {
      forall j | 0 <= j < |rest| ensures !Takes(rest, family, j, Slot(first)) {
        assert !Takes(routes, family, j + 1, Slot(first));
      }
      NoStatic(rest, family, Slot(first));
    }
    if first.family == family {
      assert StaticRoutes(routes, family)[1..] == later;
    } else {
      assert StaticRoutes(routes, family) == later;
    }
  }

  lemma {:induction false} NoStatic(routes: seq<Route>, family: IpFamily, slot: RouteKey)
    requires NoneTakes(routes, family, 0, slot)
    ensures LastFor(StaticRoutes(routes, family), slot).None?
    decreases |routes|
  {
    if routes != [] {
      var rest := routes[1..];
      assert !Takes(routes, family, 0, slot);
      forall j | 0 <= j < |rest| ensures !Takes(rest, family, j, slot) {
        assert !Takes(routes, family, j + 1, slot);
      }
      NoStatic(rest, family, slot);
      if routes[0].family == family {
        assert StaticRoutes(routes, family)[1..] == StaticRoutes(rest, family);
      } else {
        assert StaticRoutes(routes, family) == StaticRoutes(rest, family);
      }
    }
  }

  /** In one family, `after` is `before` with a list of routes put in, the last one of each slot staying. */
  ghost predicate Overlaid(before: RouteTable, after: RouteTable, family: IpFamily, list: seq<Route>) {
    forall k: RouteKey :: k.family == family ==>
      var last := LastFor(list, k);
      if last.Some? then k in after && after[k] == Contents(last.value)
      else (k in after <==> k in before) && (k in after ==> after[k] == before[k])
  }

  function DefaultSlot(family: IpFamily): RouteKey {
    if family.FamilyV4? then DEFAULT4 else DEFAULT6
  }

  lemma DefaultRouteTakes(interfaceIndex: i32, family: IpFamily, gateway: Option<IpAddr>, k: RouteKey)
    requires gateway.Some? ==> FamilyOf(gateway.value) == family
    ensures var list := DefaultRoutes(interfaceIndex, gateway);
            LastFor(list, k) == if gateway.Some? && k == DefaultSlot(family) then Some(list[0]) else None
    ensures gateway.Some?
            ==> Contents(DefaultRoute(interfaceIndex, gateway.value)) == RouteEntry(gateway, interfaceIndex, 1, 0)
  {
    var list := DefaultRoutes(interfaceIndex, gateway);
    if gateway.Some? {
      assert list[1..] == [] && LastFor([], k).None?;
      assert Slot(list[0]) == DefaultSlot(family);
    }
  }

  lemma OverlaidIsInstalled(
      before: RouteTable, after: RouteTable, interfaceIndex: i32,
      family: IpFamily, gateway: Option<IpAddr>, routes: seq<Route>)
    requires gateway.Some? ==> FamilyOf(gateway.value) == family
    requires Overlaid(before, after, family, DefaultRoutes(interfaceIndex, gateway) + StaticRoutes(routes, family))
    ensures RoutesInstalled(before, after, interfaceIndex, family, DefaultSlot(family), gateway, routes)
  {
    var defaults, statics := DefaultRoutes(interfaceIndex, gateway), StaticRoutes(routes, family);
    forall i | 0 <= i < |routes| && routes[i].family == family && NoneTakes(routes, family, i + 1, Slot(routes[i]))
      ensures Slot(routes[i]) in after && after[Slot(routes[i])] == Contents(routes[i])
    {
      LastStatic(routes, family, i);
      LastForSplits(defaults, statics, Slot(routes[i]));
    }
    forall k: RouteKey | k.family == family && NoneTakes(routes, family, 0, k)
      ensures LastFor(defaults + statics, k) == LastFor(defaults, k)
    {
      NoStatic(routes, family, k);
      LastForSplits(defaults, statics, k);
    }
    forall k: RouteKey | k.family == family
      ensures LastFor(defaults, k).Some? <==> gateway.Some? && k == DefaultSlot(family)
    {
      DefaultRouteTakes(interfaceIndex, family, gateway, k);
    }
    DefaultRouteTakes(interfaceIndex, family, gateway, DefaultSlot(family));
  }

  lemma {:induction false} OtherFamily(list: seq<Route>, k: RouteKey)
    requires forall r :: r in list ==> r.family != k.family
    ensures LastFor(list, k).None?
  {
    if list != [] {
      assert list[0] in list;
      OtherFamily(list[1..], k);
    }
  }

  lemma {:induction false} StaticsAreOfTheFamily(routes: seq<Route>, family: IpFamily)
    ensures forall r :: r in StaticRoutes(routes, family) <==> r in routes && r.family == family
  {
    if routes != [] {
      assert routes == [routes[0]] + routes[1..];
      StaticsAreOfTheFamily(routes[1..], family);
    }
  }

  /** The routes one family asks for, in order. */
  function AskedList(interfaceIndex: i32, family: IpFamily, gateway: Option<IpAddr>, routes: seq<Route>): seq<Route> {
    DefaultRoutes(interfaceIndex, gateway) + StaticRoutes(routes, family)
  }

  lemma AskedListFamily(interfaceIndex: i32, family: IpFamily, gateway: Option<IpAddr>, routes: seq<Route>)
    requires gateway.Some? ==> FamilyOf(gateway.value) == family
    ensures forall r :: r in AskedList(interfaceIndex, family, gateway, routes) ==> r.family == family
  {
    StaticsAreOfTheFamily(routes, family);
  }

  /** Two families' lists, one after the other, do not disturb each other. */
  lemma FamiliesOverlay(host: Host, calls: seq<Call>, four: seq<Route>, six: seq<Route>)
    requires AllInstalls(calls) && RoutesOf(calls) == four + six
    requires (forall r :: r in four ==> r.family.FamilyV4?) && (forall r :: r in six ==> r.family.FamilyV6?)
    ensures Overlaid(host.routes, Install(host, calls).routes, FamilyV4, four)
    ensures Overlaid(host.routes, Install(host, calls).routes, FamilyV6, six)
  {
    forall k: RouteKey
      ensures k.family.FamilyV4? ==> LastFor(RoutesOf(calls), k) == LastFor(four, k)
      ensures k.family.FamilyV6? ==> LastFor(RoutesOf(calls), k) == LastFor(six, k)
    {
      LastForSplits(four, six, k);
      if k.family.FamilyV4? {
        OtherFamily(six, k);
      } else {
        OtherFamily(four, k);
      }
    }
    forall k: RouteKey
      ensures var after, last := Install(host, calls).routes, LastFor(RoutesOf(calls), k);
              if last.Some? then k in after && after[k] == Contents(last.value)
              else (k in after <==> k in host.routes) && (k in after ==> after[k] == host.routes[k])
    {
      TableAfter(host, calls, k);
    }
  }

  // --- From the request to the installs --------------------------------------------------------------------

  lemma InstalledRoutes(interfaceIndex: i32, owner: string, t: Target)
    ensures RoutesOf(Installs(interfaceIndex, owner, t)) == DefaultRoutes(interfaceIndex, t.gateway) + t.statics
  {
    var address := [AddAddress(Address(interfaceIndex, t.address, t.prefixLength))];
    var defaults, statics := AddRoutes(DefaultRoutes(interfaceIndex, t.gateway)), AddRoutes(t.statics);
    RoutesOfAdded(DefaultRoutes(interfaceIndex, t.gateway));
    RoutesOfAdded(t.statics);
    RoutesOfSplits(address + defaults + statics, DnsCalls(owner, t.dns));
    RoutesOfSplits(address + defaults, statics);
    RoutesOfSplits(address, defaults);
    assert RoutesOf(address) == [] by {
      assert address[1..] == [];
    }
    assert RoutesOf(DnsCalls(owner, t.dns)) == [] by {
      assert t.dns != NO_DNS ==> DnsCalls(owner, t.dns)[1..] == [];
    }
  }

  /** The IPv4 target is what the request asks for. */
  lemma Target4IsAsked(req: Request)
    requires WellFormed(req) && !req.ipv4.ipMethod.Disabled?
    ensures Ipv4Target(req).Success?
    ensures var t := Ipv4Target(req).value;
            && Some(Address(req.interfaceIndex, t.address, t.prefixLength)) == AskedAddress4(req)
            && t.gateway == AskedGateway4(req) && t.statics == StaticRoutes(req.ipv4.routes, FamilyV4)
            && t.dns == Dns.DnsConfig(AskedDomains(req), ShowAll(AskedServers(req), req.show))
            && t.lease == if req.ipv4.ipMethod.Automatic? then req.offer else None
  {
    if req.ipv4.ipMethod.Automatic? {
      assert LeaseServers(req.offer.value.dnsServers) == AskedServers(req);
    }
  }

  lemma Target6IsAsked(req: Request)
    requires WellFormed(req) && req.ipv6.ipMethod.Manual?
    ensures Ipv6Target(req).Success?
    ensures var t := Ipv6Target(req).value;
            && Some(Address(req.interfaceIndex, t.address, t.prefixLength)) == AskedAddress6(req)
            && t.gateway == AskedGateway6(req) && t.statics == StaticRoutes(req.ipv6.routes, FamilyV6)
            && t.dns == NO_DNS
  {
  }

  lemma SuccessIsWellFormed(w: World, req: Request)
    requires AttemptBoth(w, req).error.None?
    ensures WellFormed(req)
  {
  }

  lemma PlannedRoutes4(req: Request)
    requires WellFormed(req)
    ensures RoutesOf(PlannedInstalls4(req))
            == AskedList(req.interfaceIndex, FamilyV4, AskedGateway4(req), AskedRoutes4(req))
  {
    if !req.ipv4.ipMethod.Disabled? {
      Target4IsAsked(req);
      InstalledRoutes(req.interfaceIndex, req.dnsOwner, Ipv4Target(req).value);
    }
  }

  lemma PlannedRoutes6(req: Request)
    requires WellFormed(req)
    ensures RoutesOf(PlannedInstalls6(req))
            == AskedList(req.interfaceIndex, FamilyV6, AskedGateway6(req), AskedRoutes6(req))
  {
    if req.ipv6.ipMethod.Manual? {
      Target6IsAsked(req);
      InstalledRoutes(req.interfaceIndex, req.dnsOwner, Ipv6Target(req).value);
    }
  }

  lemma PlannedAddresses4(req: Request)
    requires WellFormed(req)
    ensures AllInstalls(PlannedInstalls4(req))
    ensures forall a :: AddAddress(a) in PlannedInstalls4(req) <==> Some(a) == AskedAddress4(req)
  {
    if !req.ipv4.ipMethod.Disabled? {
      Target4IsAsked(req);
      InstallsMembers(req.interfaceIndex, req.dnsOwner, Ipv4Target(req).value);
      assert PlannedInstalls4(req)[0] == AddAddress(AskedAddress4(req).value);
    }
  }

  lemma PlannedAddresses6(req: Request)
    requires WellFormed(req)
    ensures AllInstalls(PlannedInstalls6(req))
    ensures forall a :: AddAddress(a) in PlannedInstalls6(req) <==> Some(a) == AskedAddress6(req)
  {
    if req.ipv6.ipMethod.Manual? {
      Target6IsAsked(req);
      InstallsMembers(req.interfaceIndex, req.dnsOwner, Ipv6Target(req).value);
      assert PlannedInstalls6(req)[0] == AddAddress(AskedAddress6(req).value);
    }
  }

  // --- The resolver file --------------------------------------------------------------------------------------

  lemma {:induction false} SpacedWords(words: seq<string>)
    ensures Spaced(words) == Dns.JoinWords(words)
  {
    if |words| > 1 {
      SpacedWords(words[1..]);
    }
  }

  lemma {:induction false} ServerText(servers: seq<IpAddr>, show: IpAddr -> string)
    ensures ServerLines(servers, show) == Dns.NameserverLines(ShowAll(servers, show))
  {
    if servers != [] {
      ServerText(servers[1..], show);
      assert ShowAll(servers, show)[1..] == ShowAll(servers[1..], show);
    }
  }

  lemma MarkedText(owner: string, domains: seq<string>, servers: seq<IpAddr>, show: IpAddr -> string)
    ensures Dns.Marked(owner, Dns.DnsConfig(domains, ShowAll(servers, show)))
            == ResolverText(owner, domains, servers, show)
  {
    SpacedWords(domains);
    ServerText(servers, show);
  }

  predicate WantsResolver(req: Request)
    requires WellFormed(req)
  {
    AskedDomains(req) != [] || AskedServers(req) != []
  }

  lemma PlannedTakeover(req: Request)
    requires WellFormed(req)
    ensures var last := Takeover(PlannedInstalls4(req) + PlannedInstalls6(req));
            var config := Dns.DnsConfig(AskedDomains(req), ShowAll(AskedServers(req), req.show));
            if WantsResolver(req) then last == Some(ApplyDns(req.dnsOwner, config))
            else last.None?
  {
    NoTakeover6(req, PlannedInstalls6(req));
    TakeoverSplits(PlannedInstalls4(req), PlannedInstalls6(req));
    if !req.ipv4.ipMethod.Disabled? {
      Target4IsAsked(req);
      var t, calls := Ipv4Target(req).value, PlannedInstalls4(req);
      InstallsMembers(req.interfaceIndex, req.dnsOwner, t);
      if t.dns == NO_DNS {
        assert calls[..|calls|] == calls;
      } else {
        assert calls == calls[..|calls| - 1] + [ApplyDns(req.dnsOwner, t.dns)];
        LastTakeover(calls[..|calls| - 1], req.dnsOwner, t.dns);
      }
    }
  }

  // --- Results ---------------------------------------------------------------------------------------------------

  /** The host that a request must lead to. */
  ghost predicate Configured(before: Host, after: Host, req: Request)
    requires WellFormed(req)
  {
    && (forall a :: a in after.addresses
                    <==> a in before.addresses || Some(a) == AskedAddress4(req) || Some(a) == AskedAddress6(req))
    && (forall l :: l in after.leases
                    <==> l in before.leases || (req.ipv4.ipMethod.Automatic? && Some(l) == req.offer))
    && RoutesInstalled(before.routes, after.routes, req.interfaceIndex,
                       FamilyV4, DEFAULT4, AskedGateway4(req), AskedRoutes4(req))
    && RoutesInstalled(before.routes, after.routes, req.interfaceIndex,
                       FamilyV6, DEFAULT6, AskedGateway6(req), AskedRoutes6(req))
    && after.resolver == (if WantsResolver(req)
                          then Some(ResolverText(req.dnsOwner, AskedDomains(req), AskedServers(req), req.show))
                          else before.resolver)
  }

  lemma PlanConfigures(host: Host, req: Request)
    requires WellFormed(req)
    ensures AllInstalls(PlannedInstalls4(req) + PlannedInstalls6(req))
    ensures var calls := PlannedInstalls4(req) + PlannedInstalls6(req);
            Configured(host, Install(Granted(host, PlannedState(req)), calls), req)
  {
    var start := Granted(host, PlannedState(req));
    PlannedAddresses4(req);
    PlannedAddresses6(req);
    InstallSets(start, PlannedInstalls4(req) + PlannedInstalls6(req));
    PlannedLease(req);
    PlannedTables(start, req);
    PlannedResolver(start, req);
  }

  lemma PlannedResolver(host: Host, req: Request)
    requires WellFormed(req) && AllInstalls(PlannedInstalls4(req) + PlannedInstalls6(req))
    ensures Install(host, PlannedInstalls4(req) + PlannedInstalls6(req)).resolver
            == if WantsResolver(req)
               then Some(ResolverText(req.dnsOwner, AskedDomains(req), AskedServers(req), req.show))
               else host.resolver
  {
    PlannedTakeover(req);
    InstallResolver(host, PlannedInstalls4(req) + PlannedInstalls6(req));
    MarkedText(req.dnsOwner, AskedDomains(req), AskedServers(req), req.show);
  }

  lemma PlannedLease(req: Request)
    requires WellFormed(req)
    ensures var state := PlannedState(req);
            (if state.ipv4.Some? then state.ipv4.value.lease else None)
            == if req.ipv4.ipMethod.Automatic? then req.offer else None
  {
    if !req.ipv4.ipMethod.Disabled? {
      Target4IsAsked(req);
    }
  }

  lemma PlannedTables(host: Host, req: Request)
    requires WellFormed(req) && AllInstalls(PlannedInstalls4(req) + PlannedInstalls6(req))
    ensures var after := Install(host, PlannedInstalls4(req) + PlannedInstalls6(req)).routes;
            && RoutesInstalled(host.routes, after, req.interfaceIndex, FamilyV4, DEFAULT4,
                               AskedGateway4(req), AskedRoutes4(req))
            && RoutesInstalled(host.routes, after, req.interfaceIndex, FamilyV6, DEFAULT6,
                               AskedGateway6(req), AskedRoutes6(req))
  {
    var index := req.interfaceIndex;
    var calls := PlannedInstalls4(req) + PlannedInstalls6(req);
    PlannedRoutes4(req);
    PlannedRoutes6(req);
    RoutesOfSplits(PlannedInstalls4(req), PlannedInstalls6(req));
    AskedListFamily(index, FamilyV4, AskedGateway4(req), AskedRoutes4(req));
    AskedListFamily(index, FamilyV6, AskedGateway6(req), AskedRoutes6(req));
    FamiliesOverlay(host, calls, AskedList(index, FamilyV4, AskedGateway4(req), AskedRoutes4(req)),
                    AskedList(index, FamilyV6, AskedGateway6(req), AskedRoutes6(req)));
    var after := Install(host, calls).routes;
    OverlaidIsInstalled(host.routes, after, index, FamilyV4, AskedGateway4(req), AskedRoutes4(req));
    OverlaidIsInstalled(host.routes, after, index, FamilyV6, AskedGateway6(req), AskedRoutes6(req));
  }

  /** What an activation that succeeds does, for every world and request: exactly the address, lease,
      default route, last static route per slot and resolver file that the request and its lease ask for,
      in both families, and no other change. */
  lemma SuccessConfiguresTheHost(w: World, req: Request)
    requires Activate(w, req).1.Success?
    ensures WellFormed(req) && Configured(w.host, Activate(w, req).0.host, req)
  {
    SuccessIsWellFormed(w, req);
    AttemptAccounted(w, req);
    SuccessIsThePlan(w, req);
    PlanConfigures(w.host, req);
  }

  /** The addresses are free and the resolver file, if wanted, has no other owner. */
  predicate Free(host: Host, req: Request)
    requires WellFormed(req)
  {
    && (AskedAddress4(req).Some? ==> AskedAddress4(req).value !in host.addresses)
    && (AskedAddress6(req).Some? ==> AskedAddress6(req).value !in host.addresses)
    && (WantsResolver(req) ==> ResolverOpen(host.resolver, req.dnsOwner))
  }

  /** Which activations can succeed: exactly the well-formed ones whose addresses and resolver file are free. */
  lemma CanSucceedExactly(host: Host, req: Request)
    ensures (exists w: World :: w.host == host && Activate(w, req).1.Success?) <==> WellFormed(req) && Free(host, req)
  {
    forall w: World | w.host == host && Activate(w, req).1.Success? ensures WellFormed(req) && Free(host, req) {
      SuccessIsWellFormed(w, req);
      SuccessFindsFree(w, req);
    }
    if WellFormed(req) && Free(host, req) {
      var w := FreeSucceeds(host, req);
    }
  }

  lemma Free4(host: Host, req: Request)
    requires WellFormed(req)
    ensures Ipv4CanSucceed(host, req)
            <==> && (AskedAddress4(req).Some? ==> AskedAddress4(req).value !in host.addresses)
                 && (WantsResolver(req) ==> ResolverOpen(host.resolver, req.dnsOwner))
  {
    if !req.ipv4.ipMethod.Disabled? {
      Target4IsAsked(req);
      assert ShowAll(AskedServers(req), req.show) == [] <==> AskedServers(req) == [];
    }
  }

  lemma SuccessFindsFree(w: World, req: Request)
    requires WellFormed(req) && AttemptBoth(w, req).error.None?
    ensures Free(w.host, req)
  {
    var first := Attempt4(w, req);
    SuccessWasPossible(w, req);
    Free4(w.host, req);
    if req.ipv6.ipMethod.Manual? {
      Target6IsAsked(req);
      var calls := PlannedInstalls6(req);
      assert calls[0] == AddAddress(AskedAddress6(req).value);
      assert Exec(first.world, calls[0]).error.None?;
      SuccessfulIpv4(w, req);
      InstallSets(Granted(w.host, first.state), first.installed);
    }
  }

  lemma FreeSucceeds(host: Host, req: Request) returns (w: World)
    requires WellFormed(req) && Free(host, req)
    ensures w.host == host && Activate(w, req).1.Success?
  {
    var six := PlannedInstalls6(req);
    w := World(host, Passing(|PlannedInstalls4(req)|) + (Passing(|six|) + []), [], []);
    Free4(host, req);
    LetThrough4(w, req, Passing(|six|) + []);
    if req.ipv6.ipMethod.Manual? {
      Target6IsAsked(req);
      var first := Attempt4(w, req);
      OtherFamilyStaysFree(w, req, AskedAddress6(req).value);
      Scripted6(first.world, req, first.state, |six|, []);
    }
  }

  // --- What is recorded ----------------------------------------------------------------------------------------------

  /** The routes recorded for one family: the connected network, the default route through the gateway and
      every requested route of the family. */
  ghost predicate RecordsRoutes(
      recorded: seq<Route>, address: Address, network: IpAddr,
      family: IpFamily, default: RouteKey, gateway: Option<IpAddr>, routes: seq<Route>)
  {
    var connected :=
      Route(family, network, address.prefixLength, None, Some(address.interfaceIndex), None, Unicast, Link);
    forall r :: r in recorded
                <==> || r == connected
                     || (gateway.Some?
                         && r == Route(family, default.destination, 0, gateway, Some(address.interfaceIndex), None,
                                       Unicast, Universe))
                     || (r in routes && r.family == family)
  }

  /** The IPv4 record of a request. */
  ghost predicate Records4(four: ActiveIpv4, req: Request)
    requires WellFormed(req) && !req.ipv4.ipMethod.Disabled?
  {
    var asked := AskedAddress4(req).value;
    && Address(four.interfaceIndex, V4(four.address), four.prefixLength) == asked
    && four.lease == (if req.ipv4.ipMethod.Automatic? then req.offer else None)
    && RecordsRoutes(four.routes, asked, V4(Prefix.NetworkOctets(four.address, four.prefixLength)),
                     FamilyV4, DEFAULT4, AskedGateway4(req), AskedRoutes4(req))
  }

  ghost predicate Records6(six: ActiveIpv6, req: Request)
    requires WellFormed(req) && req.ipv6.ipMethod.Manual?
  {
    var asked := AskedAddress6(req).value;
    && six.source.ManualV6? && six.linkLocal.Some?
    && Address(six.interfaceIndex, V6(six.linkLocal.value), six.prefixLength) == asked
    && RecordsRoutes(six.routes, asked, V6(Prefix.NetworkOctets(six.linkLocal.value, six.prefixLength)),
                     FamilyV6, DEFAULT6, AskedGateway6(req), AskedRoutes6(req))
  }

  lemma PlanRecords4(req: Request)
    requires WellFormed(req) && !req.ipv4.ipMethod.Disabled?
    ensures var state := PlannedState(req);
            && state.ipv4.Some? && Records4(state.ipv4.value, req)
            && state.dnsOwner == (if WantsResolver(req) then Some(req.dnsOwner) else None)
  {
    Target4IsAsked(req);
    StaticsAreOfTheFamily(req.ipv4.routes, FamilyV4);
    assert ShowAll(AskedServers(req), req.show) == [] <==> AskedServers(req) == [];
  }

  lemma PlanRecords6(req: Request)
    requires WellFormed(req) && req.ipv6.ipMethod.Manual?
    ensures var state := PlannedState(req);
            state.ipv6.Some? && Records6(state.ipv6.value, req)
  {
    Target6IsAsked(req);
    StaticsAreOfTheFamily(req.ipv6.routes, FamilyV6);
  }

  /** What an activation that succeeds records: per configured family the interface, the address, the prefix
      and the routes asked for; the lease if there is one, and the owner if the resolver file was written. */
  lemma SuccessRecordsTheRequest(w: World, req: Request)
    requires Activate(w, req).1.Success?
    ensures WellFormed(req)
    ensures var state := Activate(w, req).1.value;
            && (if req.ipv4.ipMethod.Disabled? then state.ipv4.None?
                else state.ipv4.Some? && Records4(state.ipv4.value, req))
            && (if req.ipv6.ipMethod.Manual? then state.ipv6.Some? && Records6(state.ipv6.value, req)
                else state.ipv6.None?)
            && state.dnsOwner == (if WantsResolver(req) then Some(req.dnsOwner) else None)
  {
    SuccessIsWellFormed(w, req);
    SuccessIsThePlan(w, req);
    if !req.ipv4.ipMethod.Disabled? {
      PlanRecords4(req);
    }
    if req.ipv6.ipMethod.Manual? {
      PlanRecords6(req);
    }
  }

  /** A first half that is not well-formed fails before any call: no lease, no usable address, or no prefix.
      A lease or a configuration with too long a prefix makes no install call either. */
  lemma IllFormedFailsEarly(w: World, req: Request)
    requires !req.ipv4.ipMethod.Disabled?
    ensures req.ipv4.ipMethod.Automatic? && req.offer.None? ==> Activate(w, req) == (w, Failure(DhcpError))
    ensures req.ipv4.ipMethod.Manual?
            && (req.ipv4.address.None? || req.ipv4.address.value.V6? || req.ipv4.prefixLength.None?)
            ==> Activate(w, req).0 == w && Activate(w, req).1.Failure? && Activate(w, req).1.error.InvalidConfig?
  {
  }
}
