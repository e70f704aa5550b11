/** The machine under the IP engine: addresses, routes, leases and the resolver file, changed one
    backend call at a time (src/linux/ipconfig.rs, src/linux/dns.rs, src/linux/dhcp/mod.rs). */
module Kernel {
  import opened Model
  import opened Wrappers
  import opened IpTypes
  import Dns

  datatype Address = Address(interfaceIndex: i32, address: IpAddr, prefixLength: byte)

  /** What makes two routes the same slot of the table; a missing metric is metric 0. */
  datatype RouteKey = RouteKey(family: IpFamily, destination: IpAddr, prefixLength: byte, metric: u32)

  /** The rest of what a route message says. */
  datatype RouteEntry = RouteEntry(gateway: Option<IpAddr>, outputInterface: i32, kindCode: byte, scopeCode: byte)

  type RouteTable = map<RouteKey, RouteEntry>

  function Key(route: Route): RouteKey {
    RouteKey(route.family, route.destination, route.prefixLength, route.metric.GetOr(0))
  }

  function Entry(route: Route): RouteEntry {
    RouteEntry(route.gateway, route.outputInterface.GetOr(0), KindCode(route.kind), ScopeCode(route.scope))
  }

  datatype Host = Host(
    addresses: set<Address>,
    routes: RouteTable,
    leases: set<DhcpLease>,
    resolver: Dns.File)

  datatype Call =
    | AddAddress(address: Address)
    | AddRoute(route: Route)
    | ApplyDns(owner: string, config: Dns.DnsConfig)
    | RemoveAddress(address: Address)
    | RemoveRoute(route: Route)
    | ReleaseLease(lease: DhcpLease)
    | RemoveDns(owner: string)

  datatype CallError =
    | KernelRefused
    | AddressExists
    | NotPresent
    | InvalidPrefix
    | DhcpFailed
    | DnsFailed(dns: Dns.DnsError)

  /** A host together with how its backends will answer: one script for installs and one for
      removals, every call taking the next reply, and a log of the calls made. An exhausted
      script accepts. */
  datatype World = World(
    host: Host,
    installs: seq<Dns.Reply>,
    removals: seq<Dns.Reply>,
    log: seq<Call>)

  function NextReply(script: seq<Dns.Reply>): Dns.Reply {
    if script == [] then Dns.Accept else script[0]
  }

  function LaterReplies(script: seq<Dns.Reply>): seq<Dns.Reply> {
    if script == [] then [] else script[1..]
  }

  predicate IsInstall(call: Call) {
    call.AddAddress? || call.AddRoute? || call.ApplyDns?
  }

  predicate Holds(routes: RouteTable, route: Route) {
    Key(route) in routes && routes[Key(route)] == Entry(route)
  }

  /** One backend call: what it does to the host, and how it fails. */
  function Effect(host: Host, call: Call, reply: Dns.Reply): (Host, Option<CallError>) {
    match call
    case ApplyDns(owner, config) =>
      var (file, error) := Dns.Apply(host.resolver, owner, config, reply);
      (host.(resolver := file), if error.None? then None else Some(DnsFailed(error.value)))
    case RemoveDns(owner) =>
      var (file, error) := Dns.Remove(host.resolver, owner, reply);
      (host.(resolver := file), if error.None? then None else Some(DnsFailed(error.value)))
    case AddAddress(address) =>
      if reply.Refuse? then (host, Some(KernelRefused))
      else if address in host.addresses then (host, Some(AddressExists))
      else (host.(addresses := host.addresses + {address}), None)
    case AddRoute(route) =>
      if reply.Refuse? then (host, Some(KernelRefused))
      else (host.(routes := host.routes[Key(route) := Entry(route)]), None)
    case RemoveAddress(address) =>
      if reply.Refuse? then (host, Some(KernelRefused))
      else if address !in host.addresses then (host, Some(NotPresent))
      else (host.(addresses := host.addresses - {address}), None)
    case RemoveRoute(route) =>
      if reply.Refuse? then (host, Some(KernelRefused))
      else if !Holds(host.routes, route) then (host, Some(NotPresent))
      else (host.(routes := host.routes - {Key(route)}), None)
    case ReleaseLease(lease) =>
      if reply.Refuse? then (host, Some(DhcpFailed))
      else (host.(leases := host.leases - {lease}), None)
  }

  datatype Step = Step(world: World, error: Option<CallError>)

  function Exec(w: World, call: Call): Step {
    if IsInstall(call) then
      var (host, error) := Effect(w.host, call, NextReply(w.installs));
      Step(World(host, LaterReplies(w.installs), w.removals, w.log + [call]), error)
    else
      var (host, error) := Effect(w.host, call, NextReply(w.removals));
      Step(World(host, w.installs, LaterReplies(w.removals), w.log + [call]), error)
  }

  datatype Run = Run(world: World, done: nat, error: Option<CallError>)

  /** Makes calls in order until one fails; `done` counts the ones that worked. */
  function RunUntilFailure(w: World, calls: seq<Call>): (run: Run)
    ensures run.done <= |calls|
    ensures run.error.None? ==> run.done == |calls|
    decreases |calls|
  {
    if calls == [] then Run(w, 0, None)
    else
      var step := Exec(w, calls[0]);
      if step.error.Some? then Run(step.world, 0, step.error)
      else
        var rest := RunUntilFailure(step.world, calls[1..]);
        Run(rest.world, rest.done + 1, rest.error)
  }

  /** Makes every call, whatever fails. */
  function RunAll(w: World, calls: seq<Call>): World
    decreases |calls|
  {
    if calls == [] then w else RunAll(Exec(w, calls[0]).world, calls[1..])
  }

  /** The first failure of a call selected by `reported`, over a run that makes every call. */
  function FirstError(w: World, calls: seq<Call>, reported: Call -> bool): Option<CallError>
    decreases |calls|
  {
    if calls == [] then None
    else
      var step := Exec(w, calls[0]);
      if step.error.Some? && reported(calls[0]) then step.error
      else FirstError(step.world, calls[1..], reported)
  }

  // --- Splitting runs ----------------------------------------------------------------

  lemma {:induction false} RunAllSplits(w: World, first: seq<Call>, second: seq<Call>)
    ensures RunAll(w, first + second) == RunAll(RunAll(w, first), second)
    decreases |first|
  {
    if first == [] {
      assert first + second == second;
    } else {
      assert (first + second)[1..] == first[1..] + second;
      RunAllSplits(Exec(w, first[0]).world, first[1..], second);
    }
  }

  lemma {:induction false} FirstErrorSplits(w: World, first: seq<Call>, second: seq<Call>, reported: Call -> bool)
    ensures FirstError(w, first + second, reported)
            == if FirstError(w, first, reported).Some? then FirstError(w, first, reported)
               else FirstError(RunAll(w, first), second, reported)
    decreases |first|
  {
    if first == [] {
      assert first + second == second;
    } else {
      assert (first + second)[1..] == first[1..] + second;
      FirstErrorSplits(Exec(w, first[0]).world, first[1..], second, reported);
    }
  }

  lemma {:induction false} RunUntilFailureSplits(w: World, first: seq<Call>, second: seq<Call>)
    ensures var run := RunUntilFailure(w, first);
            RunUntilFailure(w, first + second)
            == if run.error.Some? then run
               else var rest := RunUntilFailure(run.world, second); rest.(done := |first| + rest.done)
    decreases |first|
  {
    if first == [] {
      assert first + second == second;
    } else {
      assert (first + second)[1..] == first[1..] + second;
      RunUntilFailureSplits(Exec(w, first[0]).world, first[1..], second);
    }
  }

  lemma {:induction false} RunAllLogs(w: World, calls: seq<Call>)
    ensures RunAll(w, calls).log == w.log + calls
    decreases |calls|
  {
    if calls != [] {
      RunAllLogs(Exec(w, calls[0]).world, calls[1..]);
    }
  }

  /** The backends as one object. */
  class Machine {
    var world: World

    constructor (initial: World)
      ensures world == initial
    {
      world := initial;
    }

    method Perform(call: Call) returns (error: Option<CallError>)
      modifies this
      ensures Step(world, error) == Exec(old(world), call)
    {
      var step := Exec(world, call);
      world := step.world;
      error := step.error;
    }

    /** A lease granted by a server. */
    method RecordLease(lease: DhcpLease)
      modifies this
      ensures world == old(world).(host := old(world).host.(leases := old(world).host.leases + {lease}))
    {
      world := world.(host := world.host.(leases := world.host.leases + {lease}));
    }
  }
}
