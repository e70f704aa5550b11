/** The IP engine as the program runs it: step by step against a machine (src/linux/ip_engine.rs,
    src/linux/ipconfig.rs). */
module IpEngineObject {
  import opened Model
  import opened Wrappers
  import opened IpTypes
  import opened Kernel
  import opened IpEngine
  import opened Rollback
  import Dns

  /** Where a run of install calls stands: the world and the error, without the count. */
  predicate Reached(w: World, calls: seq<Call>, world: World, error: Option<EngineError>) {
    var run := RunUntilFailure(w, calls);
    run.world == world && LiftOption(run.error) == error
  }

  lemma ReachedThen(
      w: World, first: seq<Call>, middle: World, second: seq<Call>, world: World, error: Option<EngineError>)
    requires Reached(w, first, middle, None) && Reached(middle, second, world, error)
    ensures Reached(w, first + second, world, error)
  {
    RunUntilFailureSplits(w, first, second);
  }

  lemma ReachedFailure(w: World, first: seq<Call>, world: World, error: Option<EngineError>, second: seq<Call>)
    requires Reached(w, first, world, error) && error.Some?
    ensures Reached(w, first + second, world, error)
  {
    RunUntilFailureSplits(w, first, second);
  }

  class LinuxIpEngine {
    const machine: Machine

    constructor (machine: Machine)
      ensures this.machine == machine
    {
      this.machine := machine;
    }

    method Install(call: Call) returns (error: Option<EngineError>)
      modifies machine
      ensures Reached(old(machine.world), [call], machine.world, error)
    {
      var failure := machine.Perform(call);
      error := LiftOption(failure);
      assert RunUntilFailure(Exec(old(machine.world), call).world, [call][1..])
             == Run(Exec(old(machine.world), call).world, 0, None);
    }

    /** The address and then the default route; a prefix that is too long touches nothing. */
    method Configure(interfaceIndex: i32, address: IpAddr, prefixLength: byte, gateway: Option<IpAddr>)
      returns (error: Option<EngineError>)
      modifies machine
      ensures var limit := if address.V4? then 32 else 128;
              if prefixLength > limit then machine.world == old(machine.world) && error == Some(PREFIX_TOO_LONG)
              else Reached(old(machine.world),
                           [AddAddress(Address(interfaceIndex, address, prefixLength))]
                           + AddRoutes(DefaultRoutes(interfaceIndex, gateway)),
                           machine.world, error)
    {
      if address.V4? && prefixLength > 32 {
        return Some(PREFIX_TOO_LONG);
      }
      if address.V6? && prefixLength > 128 {
        return Some(PREFIX_TOO_LONG);
      }
      ghost var start := machine.world;
      var add := AddAddress(Address(interfaceIndex, address, prefixLength));
      error := Install(add);
      ghost var middle := machine.world;
      if error.Some? {
        ReachedFailure(start, [add], middle, error, AddRoutes(DefaultRoutes(interfaceIndex, gateway)));
        return;
      }
      if gateway.Some? {
        error := Install(AddRoute(DefaultRoute(interfaceIndex, gateway.value)));
        assert AddRoutes(DefaultRoutes(interfaceIndex, gateway))
               == [AddRoute(DefaultRoute(interfaceIndex, gateway.value))];
      }
      ReachedThen(start, [add], middle, AddRoutes(DefaultRoutes(interfaceIndex, gateway)), machine.world, error);
    }

    /** Installs each requested route, one at a time, stopping at the first failure. */
    method InstallRoutes(routes: seq<Route>) returns (error: Option<EngineError>)
      modifies machine
      ensures Reached(old(machine.world), AddRoutes(routes), machine.world, error)
    {
      ghost var whole := RunUntilFailure(machine.world, AddRoutes(routes));
      var next := 0;
      while next < |routes|
        invariant 0 <= next <= |routes|
        invariant var rest := RunUntilFailure(machine.world, AddRoutes(routes[next..]));
                  rest.world == whole.world && rest.error == whole.error
      {
        assert AddRoutes(routes[next..])[1..] == AddRoutes(routes[next + 1..]) by {
          assert routes[next..][1..] == routes[next + 1..];
        }
        var failure := machine.Perform(AddRoute(routes[next]));
        if failure.Some? {
          return Some(Lift(failure.value));
        }
        next := next + 1;
      }
      error := None;
    }

    method ApplyResolver(owner: string, config: Dns.DnsConfig) returns (error: Option<EngineError>)
      modifies machine
      ensures Reached(old(machine.world), DnsCalls(owner, config), machine.world, error)
    {
      if config.servers == [] && config.searchDomains == [] {
        error := None;
      } else {
        error := Install(ApplyDns(owner, config));
      }
    }

    /** One family's installs once its target is known. */
    method InstallTarget(interfaceIndex: i32, owner: string, t: Target) returns (error: Option<EngineError>)
      modifies machine
      ensures var limit := if t.address.V4? then 32 else 128;
              if t.prefixLength > limit then machine.world == old(machine.world) && error == Some(PREFIX_TOO_LONG)
              else Reached(old(machine.world), Installs(interfaceIndex, owner, t), machine.world, error)
    {
      ghost var start := machine.world;
      ghost var first := [AddAddress(Address(interfaceIndex, t.address, t.prefixLength))]
                         + AddRoutes(DefaultRoutes(interfaceIndex, t.gateway));
      error := Configure(interfaceIndex, t.address, t.prefixLength, t.gateway);
      if t.prefixLength > (if t.address.V4? then 32 else 128) {
        return;
      }
      assert Installs(interfaceIndex, owner, t) == first + (AddRoutes(t.statics) + DnsCalls(owner, t.dns));
      ghost var configured := machine.world;
      if error.Some? {
        ReachedFailure(start, first, configured, error, AddRoutes(t.statics) + DnsCalls(owner, t.dns));
        return;
      }
      error := InstallRoutes(t.statics);
      ghost var routed := machine.world;
      if error.Some? {
        ReachedFailure(configured, AddRoutes(t.statics), routed, error, DnsCalls(owner, t.dns));
      } else {
        error := ApplyResolver(owner, t.dns);
        ReachedThen(configured, AddRoutes(t.statics), routed, DnsCalls(owner, t.dns), machine.world, error);
      }
      ReachedThen(start, first, configured, AddRoutes(t.statics) + DnsCalls(owner, t.dns), machine.world, error);
    }

    method ActivateIpv4(req: Request) returns (state: ActiveIpState, error: Option<EngineError>)
      modifies machine
      ensures var a := Attempt4(old(machine.world), req);
              machine.world == a.world && state == a.state && error == a.error
    {
      state := NOTHING_ACTIVE;
      if req.ipv4.ipMethod.Disabled? {
        return state, None;
      }
      var target := Ipv4Target(req);
      if target.Failure? {
        return state, Some(target.error);
      }
      var t := target.value;
      if t.lease.Some? {
        machine.RecordLease(t.lease.value);
      }
      // Recorded before anything is installed, so that a rollback knows what to undo.
      state := state.(ipv4 := Record4(req.interfaceIndex, t));
      error := InstallTarget(req.interfaceIndex, req.dnsOwner, t);
      if error.None? && t.dns != NO_DNS {
        state := state.(dnsOwner := Some(req.dnsOwner));
      }
    }

    method ActivateIpv6(req: Request, before: ActiveIpState) returns (state: ActiveIpState, error: Option<EngineError>)
      modifies machine
      ensures var a := Attempt6(old(machine.world), req, before);
              machine.world == a.world && state == a.state && error == a.error
    {
      state := before;
      if !req.ipv6.ipMethod.Manual? {
        return state, None;
      }
      var target := Ipv6Target(req);
      if target.Failure? {
        return state, Some(target.error);
      }
      state := state.(ipv6 := Record6(req.interfaceIndex, target.value));
      error := InstallTarget(req.interfaceIndex, req.dnsOwner, target.value);
    }

    /** Brings both families up, or tears down whatever was installed. */
    method Bring(req: Request) returns (result: Result<ActiveIpState, EngineError>)
      modifies machine
      ensures (machine.world, result) == Activate(old(machine.world), req)
    {
      var state, error := ActivateIpv4(req);
      if error.None? {
        state, error := ActivateIpv6(req, state);
      }
      if error.Some? {
        var ignored := TearDown(state);
        return Failure(error.value);
      }
      result := Success(state);
    }

    /** Removes routes one by one, ignoring failures. */
    method RemoveAll(routes: seq<Route>)
      modifies machine
      ensures machine.world == RunAll(old(machine.world), RemoveRoutes(routes))
    {
      ghost var whole := RunAll(machine.world, RemoveRoutes(routes));
      var next := 0;
      while next < |routes|
        invariant 0 <= next <= |routes|
        invariant RunAll(machine.world, RemoveRoutes(routes[next..])) == whole
      {
        assert RemoveRoutes(routes[next..])[1..] == RemoveRoutes(routes[next + 1..]) by {
          assert routes[next..][1..] == routes[next + 1..];
        }
        var ignored := machine.Perform(RemoveRoute(routes[next]));
        next := next + 1;
      }
    }

    /** Makes one removal after others and returns its failure. */
    method RemoveLast(ghost start: World, ghost early: seq<Call>, call: Call) returns (error: Option<EngineError>)
      requires machine.world == RunAll(start, early) && Reported(call)
      modifies machine
      ensures machine.world == RunAll(start, early + [call])
      ensures error == LiftOption(LastFailure(start, early + [call]))
    {
      RunAllSplits(start, early, [call]);
      assert [call][1..] == [];
      assert RunAll(machine.world, [call]) == Exec(machine.world, call).world;
      assert (early + [call])[..|early|] == early;
      var failure := machine.Perform(call);
      error := LiftOption(failure);
    }

    method TearDownIpv4(ipv4: ActiveIpv4) returns (error: Option<EngineError>)
      modifies machine
      ensures machine.world == RunAll(old(machine.world), TeardownCalls4(ipv4))
      ensures error == LiftOption(LastFailure(old(machine.world), TeardownCalls4(ipv4)))
    {
      ghost var start := machine.world;
      ghost var done := RemoveRoutes(ipv4.routes);
      RemoveAll(ipv4.routes);
      if ipv4.lease.Some? {
        ghost var release := [ReleaseLease(ipv4.lease.value)];
        RunAllSplits(start, done, release);
        assert RunAll(Exec(machine.world, release[0]).world, release[1..]) == Exec(machine.world, release[0]).world;
        var ignored := machine.Perform(ReleaseLease(ipv4.lease.value));
        done := done + release;
      } else {
        assert done + [] == done;
      }
      var gateway := FirstGateway(ipv4.routes);
      ghost var default := RemoveRoutes(DefaultRoutes(ipv4.interfaceIndex, gateway));
      RunAllSplits(start, done, default);
      RemoveAll(DefaultRoutes(ipv4.interfaceIndex, gateway));
      error := RemoveLast(start, done + default,
                          RemoveAddress(Address(ipv4.interfaceIndex, V4(ipv4.address), ipv4.prefixLength)));
    }

    method TearDownIpv6(ipv6: ActiveIpv6) returns (error: Option<EngineError>)
      modifies machine
      ensures machine.world == RunAll(old(machine.world), TeardownCalls6(ipv6))
      ensures error == LiftOption(LastFailure(old(machine.world), TeardownCalls6(ipv6)))
    {
      ghost var start := machine.world;
      RemoveAll(ipv6.routes);
      if ipv6.source.ManualV6? && ipv6.linkLocal.Some? {
        error := RemoveLast(start, RemoveRoutes(ipv6.routes),
                            RemoveAddress(Address(ipv6.interfaceIndex, V6(ipv6.linkLocal.value), ipv6.prefixLength)));
      } else {
        error := None;
        RemoveRoutesMembers(ipv6.routes);
        assert TeardownCalls6(ipv6) == RemoveRoutes(ipv6.routes);
      }
    }

    /** Attempts every removal and reports the first failure that counts. */
    method TearDown(state: ActiveIpState) returns (error: Option<EngineError>)
      modifies machine
      ensures (machine.world, error) == Teardown(old(machine.world), state)
    {
      ghost var start := machine.world;
      ghost var dns := DnsTeardown(state.dnsOwner);
      ghost var four := if state.ipv4.None? then [] else TeardownCalls4(state.ipv4.value);
      ghost var six := if state.ipv6.None? then [] else TeardownCalls6(state.ipv6.value);
      TeardownMakesEveryCall(start, state);
      RunAllSplits(start, dns, four + six);
      RunAllSplits(RunAll(start, dns), four, six);
      RunAllSplits(start, dns, four);
      error := None;
      if state.dnsOwner.Some? {
        error := RemoveLast(start, [], RemoveDns(state.dnsOwner.value));
        assert [] + dns == dns;
      }
      if state.ipv4.Some? {
        var failure := TearDownIpv4(state.ipv4.value);
        error := if error.Some? then error else failure;
      }
      if state.ipv6.Some? {
        var failure := TearDownIpv6(state.ipv6.value);
        error := if error.Some? then error else failure;
      }
    }
  }
}
