/** All-or-nothing activation: exactly when a rollback or a teardown restores the host. */
module Rollback {
  import opened Model
  import opened Wrappers
  import opened IpTypes
  import opened Kernel
  import opened KernelEffects
  import opened IpEngine
  import Dns

  // --- Membership in the call lists -----------------------------------------------------------

  lemma {:induction false} AddRoutesMembers(routes: seq<Route>)
    ensures AllInstalls(AddRoutes(routes)) && NoDns(AddRoutes(routes))
    ensures forall r :: AddRoute(r) in AddRoutes(routes) <==> r in routes
    ensures forall a :: AddAddress(a) !in AddRoutes(routes)
  {
    if routes != [] {
      AddRoutesMembers(routes[1..]);
      assert routes == [routes[0]] + routes[1..];
    }
  }

  lemma {:induction false} RemoveRoutesMembers(routes: seq<Route>)
    ensures AllRemovals(RemoveRoutes(routes)) && NoDns(RemoveRoutes(routes))
    ensures forall r :: RemoveRoute(r) in RemoveRoutes(routes) <==> r in routes
    ensures forall a :: RemoveAddress(a) !in RemoveRoutes(routes)
    ensures forall l :: ReleaseLease(l) !in RemoveRoutes(routes)
  {
    if routes != [] {
      RemoveRoutesMembers(routes[1..]);
      assert routes == [routes[0]] + routes[1..];
    }
  }

  lemma InstallsMembers(interfaceIndex: i32, owner: string, t: Target)
    ensures var calls := Installs(interfaceIndex, owner, t);
            && AllInstalls(calls)
            && NoDns(calls[..|calls| - |DnsCalls(owner, t.dns)|])
            && (forall a :: AddAddress(a) in calls ==> a == Address(interfaceIndex, t.address, t.prefixLength))
            && (forall r :: AddRoute(r) in calls ==> r in Routes(interfaceIndex, t))
  {
    AddRoutesMembers(DefaultRoutes(interfaceIndex, t.gateway));
    AddRoutesMembers(t.statics);
    var calls := Installs(interfaceIndex, owner, t);
    var early := [AddAddress(Address(interfaceIndex, t.address, t.prefixLength))]
                 + AddRoutes(DefaultRoutes(interfaceIndex, t.gateway)) + AddRoutes(t.statics);
    assert calls == early + DnsCalls(owner, t.dns);
    assert calls[..|early|] == early;
  }

  lemma Teardown4Members(ipv4: ActiveIpv4)
    ensures var calls := TeardownCalls4(ipv4);
            && AllRemovals(calls) && NoDns(calls)
            && (forall a :: RemoveAddress(a) in calls
                            <==> a == Address(ipv4.interfaceIndex, V4(ipv4.address), ipv4.prefixLength))
            && (forall l :: ReleaseLease(l) in calls <==> ipv4.lease == Some(l))
            && (forall r :: r in ipv4.routes ==> RemoveRoute(r) in calls)
  {
    RemoveRoutesMembers(ipv4.routes);
    RemoveRoutesMembers(DefaultRoutes(ipv4.interfaceIndex, FirstGateway(ipv4.routes)));
  }

  lemma Teardown6Members(ipv6: ActiveIpv6)
    ensures var calls := TeardownCalls6(ipv6);
            && AllRemovals(calls) && NoDns(calls)
            && (forall a :: RemoveAddress(a) in calls
                            <==> && ipv6.source.ManualV6? && ipv6.linkLocal.Some?
                                 && a == Address(ipv6.interfaceIndex, V6(ipv6.linkLocal.value), ipv6.prefixLength))
            && (forall l :: ReleaseLease(l) !in calls)
            && (forall r :: r in ipv6.routes ==> RemoveRoute(r) in calls)
  {
    RemoveRoutesMembers(ipv6.routes);
  }

  lemma IpTeardownMembers(state: ActiveIpState)
    ensures AllRemovals(IpTeardown(state)) && NoDns(IpTeardown(state))
    ensures forall l :: ReleaseLease(l) in IpTeardown(state)
                        <==> state.ipv4.Some? && state.ipv4.value.lease == Some(l)
    ensures AllRemovals(TeardownCalls(state))
  {
    if state.ipv4.Some? { Teardown4Members(state.ipv4.value); }
    if state.ipv6.Some? { Teardown6Members(state.ipv6.value); }
  }

  // --- What an attempt leaves behind ---------------------------------------------------------------

  /** The host once the lease the attempt recorded, if any, is granted. */
  function Granted(host: Host, state: ActiveIpState): Host {
    if state.ipv4.Some? && state.ipv4.value.lease.Some?
    then host.(leases := host.leases + {state.ipv4.value.lease.value})
    else host
  }

  /** The resolver part of the accepted installs: none, or one takeover that the file allowed. */
  predicate DnsPart(resolver: Dns.File, installed: seq<Call>, owner: Option<string>) {
    var last := Takeover(installed);
    if owner.None? then last.None?
    else
      && last.Some? && last.value.owner == owner.value
      && (Dns.Owner(resolver).None? || Dns.Owner(resolver) == owner)
  }

  /** The attempt's host is the initial one plus the lease and the accepted installs, all of which
      the recorded state names. */
  ghost predicate Accounted(w: World, a: Attempt) {
    && a.world.removals == w.removals
    && AllInstalls(a.installed)
    && a.world.host == Install(Granted(w.host, a.state), a.installed)
    && Covers(TeardownCalls(a.state), a.installed)
    && DnsPart(w.host.resolver, a.installed, a.state.dnsOwner)
  }

  lemma RunOne(w: World, call: Call)
    ensures RunUntilFailure(w, [call]).error == Exec(w, call).error
  {
    assert [call][1..] == [];
  }

  lemma AcceptedTakeover(w: World, owner: string, config: Dns.DnsConfig)
    requires Exec(w, ApplyDns(owner, config)).error.None?
    ensures owner != [] && (Dns.Owner(w.host.resolver).None? || Dns.Owner(w.host.resolver) == Some(owner))
  {
    Dns.ApplyFindsNoOtherOwner(w.host.resolver, owner, config, NextReply(w.installs));
  }

  /** Installs that leave the resolver alone, and then one more that worked. */
  lemma RunThenOne(w: World, early: seq<Call>, last: Call) returns (middle: World)
    requires AllInstalls(early) && NoDns(early) && RunUntilFailure(w, early + [last]).error.None?
    ensures middle.host.resolver == w.host.resolver && Exec(middle, last).error.None?
  {
    RunUntilFailureSplits(w, early, [last]);
    RunInstalls(w, early);
    middle := RunUntilFailure(w, early).world;
    assert early[..|early|] == early;
    InstallResolver(w.host, early);
    RunOne(middle, last);
  }

  lemma LastTakeover(early: seq<Call>, owner: string, config: Dns.DnsConfig)
    ensures Takeover(early + [ApplyDns(owner, config)]) == Some(ApplyDns(owner, config))
  {
    TakeoverSplits(early, [ApplyDns(owner, config)]);
    assert Takeover([ApplyDns(owner, config)]) == Some(ApplyDns(owner, config));
  }

  lemma RunWithDns(w: World, early: seq<Call>, owner: string, config: Dns.DnsConfig)
    requires AllInstalls(early) && NoDns(early)
    requires RunUntilFailure(w, early + [ApplyDns(owner, config)]).error.None?
    ensures DnsPart(w.host.resolver, early + [ApplyDns(owner, config)], Some(owner))
  {
    var middle := RunThenOne(w, early, ApplyDns(owner, config));
    AcceptedTakeover(middle, owner, config);
    LastTakeover(early, owner, config);
  }

  /** Stopping inside a list whose only resolver call is its last leaves no resolver call done. */
  lemma PartialInstallsHaveNoDns(calls: seq<Call>, dns: nat, done: nat)
    requires dns <= 1 && dns <= |calls| && NoDns(calls[..|calls| - dns])
    requires done < |calls|
    ensures Takeover(calls[..done]).None?
  {
    assert calls[..done] == calls[..|calls| - dns][..done];
  }

  /** The accepted installs of one family, and what they mean for the resolver. */
  lemma FamilyInstalls(w: World, interfaceIndex: i32, owner: string, t: Target)
    ensures var calls := Installs(interfaceIndex, owner, t);
            var run := RunUntilFailure(w, calls);
            && AllInstalls(calls[..run.done])
            && run.world.host == Install(w.host, calls[..run.done])
            && run.world.removals == w.removals
            && DnsPart(w.host.resolver, calls[..run.done],
                       if run.error.None? && t.dns != NO_DNS then Some(owner) else None)
  {
    InstallsMembers(interfaceIndex, owner, t);
    var calls := Installs(interfaceIndex, owner, t);
    RunInstalls(w, calls);
    var run := RunUntilFailure(w, calls);
    if run.error.Some? {
      FailedRunStopsEarly(w, calls);
      PartialInstallsHaveNoDns(calls, |DnsCalls(owner, t.dns)|, run.done);
    } else {
      assert calls[..run.done] == calls;
      if t.dns != NO_DNS {
        var early := calls[..|calls| - 1];
        assert calls == early + [ApplyDns(owner, t.dns)];
        RunWithDns(w, early, owner, t.dns);
      } else {
        assert calls[..|calls|] == calls;
      }
    }
  }

  /** Whatever part of a family's installs was accepted, its teardown names it all. */
  lemma Teardown4Covers(interfaceIndex: i32, owner: string, t: Target, done: nat)
    requires t.address.V4? && done <= |Installs(interfaceIndex, owner, t)|
    ensures Covers(TeardownCalls4(Record4(interfaceIndex, t).value), Installs(interfaceIndex, owner, t)[..done])
  {
    InstallsMembers(interfaceIndex, owner, t);
    Teardown4Members(Record4(interfaceIndex, t).value);
  }

  lemma Teardown6Covers(interfaceIndex: i32, owner: string, t: Target, done: nat)
    requires t.address.V6? && done <= |Installs(interfaceIndex, owner, t)|
    ensures Covers(TeardownCalls6(Record6(interfaceIndex, t).value), Installs(interfaceIndex, owner, t)[..done])
  {
    InstallsMembers(interfaceIndex, owner, t);
    Teardown6Members(Record6(interfaceIndex, t).value);
  }

  lemma TeardownIncludes(state: ActiveIpState, installs: seq<Call>)
    ensures state.ipv4.Some? && Covers(TeardownCalls4(state.ipv4.value), installs)
            ==> Covers(TeardownCalls(state), installs)
    ensures state.ipv6.Some? && Covers(TeardownCalls6(state.ipv6.value), installs)
            ==> Covers(TeardownCalls(state), installs)
  {
    assert forall c :: c in IpTeardown(state) ==> c in TeardownCalls(state);
  }

  lemma Attempt4Accounted(w: World, req: Request)
    ensures Accounted(w, Attempt4(w, req))
  {
    var a := Attempt4(w, req);
    if a.state.ipv4.Some? {
      var t := Ipv4Target(req).value;
      TeardownIncludes(a.state, a.installed);
      if t.prefixLength <= 32 {
        FamilyInstalls(GrantLease(w, t.lease), req.interfaceIndex, req.dnsOwner, t);
        Teardown4Covers(req.interfaceIndex, req.dnsOwner, t, |a.installed|);
      }
    }
  }

  lemma {:induction false} FailedRunStopsEarly(w: World, calls: seq<Call>)
    requires RunUntilFailure(w, calls).error.Some?
    ensures RunUntilFailure(w, calls).done < |calls|
    decreases |calls|
  {
    if Exec(w, calls[0]).error.None? {
      FailedRunStopsEarly(Exec(w, calls[0]).world, calls[1..]);
    }
  }

  lemma Attempt6Accounted(w: World, req: Request, state: ActiveIpState)
    requires state.ipv6.None?
    ensures var a := Attempt6(w, req, state);
            && a.world.removals == w.removals
            && AllInstalls(a.installed) && Takeover(a.installed).None?
            && a.world.host == Install(w.host, a.installed)
            && a.state == state.(ipv6 := a.state.ipv6)
            && Covers(TeardownCalls(a.state), a.installed)
  {
    var a := Attempt6(w, req, state);
    if a.state.ipv6.Some? {
      var t := Ipv6Target(req).value;
      TeardownIncludes(a.state, a.installed);
      if t.prefixLength <= 128 {
        FamilyInstalls(w, req.interfaceIndex, req.dnsOwner, t);
        Teardown6Covers(req.interfaceIndex, req.dnsOwner, t, |a.installed|);
      }
    }
  }

  /** Every attempt, wherever it stops, is fully accounted for. */
  lemma AttemptAccounted(w: World, req: Request)
    ensures Accounted(w, AttemptBoth(w, req))
  {
    var first := Attempt4(w, req);
    Attempt4Accounted(w, req);
    if first.error.None? {
      Attempt6Accounted(first.world, req, first.state);
      var second := Attempt6(first.world, req, first.state);
      InstallSplits(Granted(w.host, first.state), first.installed, second.installed);
      TakeoverSplits(first.installed, second.installed);
    }
  }

  // --- When a teardown restores the host ----------------------------------------------------------

  predicate ResolverFree(file: Dns.File, takeover: Option<Call>)
    requires takeover.Some? ==> takeover.value.ApplyDns?
  {
    takeover.Some? ==> Dns.GivesBack(file, takeover.value.owner, takeover.value.config)
  }

  /** Nothing the activation recorded was there before, no key it installed was taken, and its
      resolver takeover, if any, can be given back. */
  ghost predicate NoCollision(host: Host, installed: seq<Call>, state: ActiveIpState) {
    var removals := TeardownCalls(state);
    && (forall a :: RemoveAddress(a) in removals ==> a !in host.addresses)
    && (forall r :: AddRoute(r) in installed ==> Key(r) !in host.routes)
    && (forall r :: RemoveRoute(r) in removals ==> !Holds(host.routes, r))
    && (forall l :: ReleaseLease(l) in removals ==> l !in host.leases)
    && ResolverFree(host.resolver, Takeover(installed))
  }

  lemma LeasesUndone(host: Host, a: Attempt)
    requires AllInstalls(a.installed) && AllRemovals(TeardownCalls(a.state))
    ensures Drop(Install(Granted(host, a.state), a.installed), TeardownCalls(a.state)).leases == host.leases
            <==> (forall l :: ReleaseLease(l) in TeardownCalls(a.state) ==> l !in host.leases)
  {
    IpTeardownMembers(a.state);
    var removals := TeardownCalls(a.state);
    InstallSets(Granted(host, a.state), a.installed);
    DropSets(Install(Granted(host, a.state), a.installed), removals);
    assert forall l :: ReleaseLease(l) in removals <==> ReleaseLease(l) in IpTeardown(a.state);
  }

  lemma RemovedFile(host: Host, owner: string)
    ensures Effect(host, RemoveDns(owner), Dns.Accept).0
            == host.(resolver := Dns.Remove(host.resolver, owner, Dns.Accept).0)
  {
  }

  lemma ResolverRestored(host: Host, installed: seq<Call>, state: ActiveIpState)
    requires AllInstalls(installed) && DnsPart(host.resolver, installed, state.dnsOwner)
    ensures Drop(Install(host, installed), TeardownCalls(state)).resolver == host.resolver
            <==> ResolverFree(host.resolver, Takeover(installed))
  {
    var middle := Install(host, installed);
    InstallResolver(host, installed);
    IpTeardownMembers(state);
    if state.dnsOwner.None? {
      assert TeardownCalls(state) == IpTeardown(state);
      DropWithoutDns(middle, IpTeardown(state));
    } else {
      var takeover := Takeover(installed).value;
      assert TeardownCalls(state)[1..] == IpTeardown(state);
      RemovedFile(middle, state.dnsOwner.value);
      var next := Effect(middle, RemoveDns(state.dnsOwner.value), Dns.Accept).0;
      DropWithoutDns(next, IpTeardown(state));
      Dns.TakeoverGivenBack(host.resolver, takeover.owner, takeover.config);
    }
  }

  /** An accounted attempt, torn down with no removal refused, gives the host back exactly when
      there was no collision. */
  lemma TeardownRestoresExactly(w: World, a: Attempt)
    requires Accounted(w, a) && w.removals == []
    ensures RunAll(a.world, TeardownCalls(a.state)).host == w.host <==> NoCollision(w.host, a.installed, a.state)
  {
    var removals := TeardownCalls(a.state);
    IpTeardownMembers(a.state);
    RunRemovals(a.world, removals);
    var start := Granted(w.host, a.state);
    AddressesUndone(start, a.installed, removals);
    RoutesUndone(start, a.installed, removals);
    LeasesUndone(w.host, a);
    ResolverRestored(start, a.installed, a.state);
  }

  /** All or nothing: a failed activation, wherever it failed, leaves the host exactly as it was
      if and only if there was no collision. */
  lemma FailedActivationRestoresExactly(w: World, req: Request)
    requires w.removals == []
    ensures var a := AttemptBoth(w, req);
            Activate(w, req).1.Failure?
            ==> (Activate(w, req).0.host == w.host <==> NoCollision(w.host, a.installed, a.state))
  {
    AttemptAccounted(w, req);
    TeardownRestoresExactly(w, AttemptBoth(w, req));
  }

  // --- A condition on the request alone ----------------------------------------------------------------

  function PlannedState(req: Request): ActiveIpState {
    var four := if req.ipv4.ipMethod.Disabled? then Failure(DhcpError) else Ipv4Target(req);
    var six := if req.ipv6.ipMethod.Manual? then Ipv6Target(req) else Failure(DhcpError);
    ActiveIpState(
      if four.Success? then Record4(req.interfaceIndex, four.value) else None,
      if six.Success? then Record6(req.interfaceIndex, six.value) else None,
      if four.Success? && four.value.dns != NO_DNS then Some(req.dnsOwner) else None)
  }

  /** What the IPv4 half would install if every step worked; nothing for a refused configuration. */
  function PlannedInstalls4(req: Request): seq<Call> {
    if req.ipv4.ipMethod.Disabled? || Ipv4Target(req).Failure? || Ipv4Target(req).value.prefixLength > 32 then []
    else Installs(req.interfaceIndex, req.dnsOwner, Ipv4Target(req).value)
  }

  function PlannedInstalls6(req: Request): seq<Call> {
    if !req.ipv6.ipMethod.Manual? || Ipv6Target(req).Failure? || Ipv6Target(req).value.prefixLength > 128 then []
    else Installs(req.interfaceIndex, req.dnsOwner, Ipv6Target(req).value)
  }

  /** The host holds nothing that the request names: checkable before the call. */
  ghost predicate Fresh(host: Host, req: Request) {
    NoCollision(host, PlannedInstalls4(req) + PlannedInstalls6(req), PlannedState(req))
  }

  /** However far the IPv4 half gets, it stays within the plan; success is the whole plan. */
  lemma Attempt4FollowsPlan(w: World, req: Request)
    ensures var a, planned := Attempt4(w, req), PlannedState(req);
            && a.installed <= PlannedInstalls4(req) && a.state.ipv6.None?
            && (a.state.ipv4.None? || a.state.ipv4 == planned.ipv4)
            && (a.error.None? ==> a.installed == PlannedInstalls4(req)
                                  && a.state == ActiveIpState(planned.ipv4, None, planned.dnsOwner))
  {
  }

  lemma Attempt6FollowsPlan(w: World, req: Request, state: ActiveIpState)
    requires state.ipv6.None?
    ensures var a, planned := Attempt6(w, req, state), PlannedState(req);
            && a.installed <= PlannedInstalls6(req) && a.state == state.(ipv6 := a.state.ipv6)
            && a.state.ipv6 == planned.ipv6
            && (a.error.None? ==> a.installed == PlannedInstalls6(req))
  {
  }

  /** A successful activation did all that was planned. */
  lemma SuccessIsThePlan(w: World, req: Request)
    requires AttemptBoth(w, req).error.None?
    ensures AttemptBoth(w, req).installed == PlannedInstalls4(req) + PlannedInstalls6(req)
    ensures AttemptBoth(w, req).state == PlannedState(req)
  {
    var first := Attempt4(w, req);
    Attempt4FollowsPlan(w, req);
    Attempt6FollowsPlan(first.world, req, first.state);
  }

  /** Activation followed by teardown is the identity on the host if and only if the host was fresh. */
  lemma ActivateThenTeardownIsIdentityExactlyWhenFresh(w: World, req: Request)
    requires w.removals == []
    ensures var (after, result) := Activate(w, req);
            result.Success? ==> (Teardown(after, result.value).0.host == w.host <==> Fresh(w.host, req))
  {
    if AttemptBoth(w, req).error.None? {
      AttemptAccounted(w, req);
      TeardownRestoresExactly(w, AttemptBoth(w, req));
      SuccessIsThePlan(w, req);
    }
  }

  // --- What is recorded, and what is never touched -----------------------------------------------------

  /** Every difference an attempt made to the host is named by the state it recorded, whatever
      failed and however the requested routes duplicate or replace each other. */
  lemma EverythingInstalledIsRecorded(w: World, req: Request)
    ensures var a := AttemptBoth(w, req);
            var removals := TeardownCalls(a.state);
            && (forall x :: x in a.world.host.addresses && x !in w.host.addresses ==> RemoveAddress(x) in removals)
            && (forall k :: k in a.world.host.routes
                            && (k !in w.host.routes || w.host.routes[k] != a.world.host.routes[k])
                            ==> Doomed(k, a.world.host.routes[k], removals))
            && (forall l :: l in a.world.host.leases && l !in w.host.leases ==> ReleaseLease(l) in removals)
            && (a.world.host.resolver != w.host.resolver ==> a.state.dnsOwner.Some?)
  {
    var a := AttemptBoth(w, req);
    AttemptAccounted(w, req);
    var start := Granted(w.host, a.state);
    InstallSets(start, a.installed);
    InstallRoutes(start, a.installed);
    InstallResolver(start, a.installed);
    IpTeardownMembers(a.state);
    var after := a.world.host.routes;
    forall k | k in after && (k !in w.host.routes || w.host.routes[k] != after[k])
      ensures Doomed(k, after[k], TeardownCalls(a.state))
    {
      assert RequestedAs(k, after[k], a.installed);
    }
  }

  /** From `before` to `after` things were only taken away, and only things that `calls` name. */
  ghost predicate OnlyTakes(before: Host, after: Host, calls: seq<Call>) {
    && after.addresses <= before.addresses && after.leases <= before.leases
    && (forall a :: a in before.addresses && a !in after.addresses ==> RemoveAddress(a) in calls)
    && (forall l :: l in before.leases && l !in after.leases ==> ReleaseLease(l) in calls)
    && (forall k :: k in after.routes ==> k in before.routes && after.routes[k] == before.routes[k])
    && (forall k :: k in before.routes && k !in after.routes ==> Doomed(k, before.routes[k], calls))
    && (after.resolver == before.resolver || after.resolver.None?)
  }

  lemma OneRemovalOnlyTakes(w: World, call: Call, calls: seq<Call>)
    requires AllRemovals([call]) && call in calls
    ensures OnlyTakes(w.host, Exec(w, call).world.host, calls)
  {
    assert call in [call];
  }

  lemma OnlyTakesTwice(first: Host, second: Host, third: Host, calls: seq<Call>)
    requires calls != [] && OnlyTakes(first, second, calls) && OnlyTakes(second, third, calls[1..])
    ensures OnlyTakes(first, third, calls)
  {
    assert forall c :: c in calls[1..] ==> c in calls;
    forall k | k in first.routes && k !in third.routes ensures Doomed(k, first.routes[k], calls) {
      if k in second.routes {
        assert Doomed(k, first.routes[k], calls[1..]);
      }
    }
  }

  /** Under any refusals, removals only take away, and only what they name. */
  lemma {:induction false} RemovalsTouchOnlyWhatTheyName(w: World, calls: seq<Call>)
    requires AllRemovals(calls)
    ensures OnlyTakes(w.host, RunAll(w, calls).host, calls)
    decreases |calls|
  {
    if calls != [] {
      assert calls == [calls[0]] + calls[1..];
      OneRemovalOnlyTakes(w, calls[0], calls);
      var next := Exec(w, calls[0]).world;
      RemovalsTouchOnlyWhatTheyName(next, calls[1..]);
      OnlyTakesTwice(w.host, next.host, RunAll(w, calls).host, calls);
    }
  }

  // --- Teardown's own behaviour ---------------------------------------------------------------------------

  function OrElse(first: Option<CallError>, second: Option<CallError>): Option<CallError> {
    if first.Some? then first else second
  }

  /** The failure of the last call of a list, when that call is reported. */
  function LastFailure(w: World, calls: seq<Call>): Option<CallError> {
    if calls == [] || !Reported(calls[|calls| - 1]) then None
    else Exec(RunAll(w, calls[..|calls| - 1]), calls[|calls| - 1]).error
  }

  lemma {:induction false} UnreportedCallsReportNothing(w: World, calls: seq<Call>)
    requires forall c :: c in calls ==> !Reported(c)
    ensures FirstError(w, calls, Reported).None?
    decreases |calls|
  {
    if calls != [] {
      assert calls[0] in calls;
      UnreportedCallsReportNothing(Exec(w, calls[0]).world, calls[1..]);
    }
  }

  lemma OnlyLastCallReports(w: World, calls: seq<Call>)
    requires calls != [] ==> forall c :: c in calls[..|calls| - 1] ==> !Reported(c)
    ensures FirstError(w, calls, Reported) == LastFailure(w, calls)
  {
    if calls != [] {
      var early, last := calls[..|calls| - 1], calls[|calls| - 1];
      assert calls == early + [last];
      FirstErrorSplits(w, early, [last], Reported);
      UnreportedCallsReportNothing(w, early);
      var middle := RunAll(w, early);
      assert [last][1..] == [];
      assert FirstError(Exec(middle, last).world, [], Reported).None?;
    }
  }

  lemma TeardownPartsReportLast(state: ActiveIpState)
    ensures state.ipv4.Some? ==>
              var calls := TeardownCalls4(state.ipv4.value);
              calls != [] && forall c :: c in calls[..|calls| - 1] ==> !Reported(c)
    ensures state.ipv6.Some? ==>
              var calls := TeardownCalls6(state.ipv6.value);
              calls != [] ==> forall c :: c in calls[..|calls| - 1] ==> !Reported(c)
  {
    if state.ipv4.Some? {
      var ipv4 := state.ipv4.value;
      RemoveRoutesMembers(ipv4.routes);
      RemoveRoutesMembers(DefaultRoutes(ipv4.interfaceIndex, FirstGateway(ipv4.routes)));
      var calls := TeardownCalls4(ipv4);
      assert calls[..|calls| - 1]
             == RemoveRoutes(ipv4.routes)
                + (if ipv4.lease.None? then [] else [ReleaseLease(ipv4.lease.value)])
                + RemoveRoutes(DefaultRoutes(ipv4.interfaceIndex, FirstGateway(ipv4.routes)));
    }
    if state.ipv6.Some? {
      var calls := TeardownCalls6(state.ipv6.value);
      var routes := RemoveRoutes(state.ipv6.value.routes);
      RemoveRoutesMembers(state.ipv6.value.routes);
      if |calls| > |routes| {
        assert calls[..|calls| - 1] == routes;
      } else if calls != [] {
        assert calls == routes;
      }
    }
  }

  /** Whatever fails, teardown makes the same calls in the same order, and its result is the first
      failure among removing the resolver file, the IPv4 address and the IPv6 address. */
  lemma TeardownMakesEveryCall(w: World, state: ActiveIpState)
    ensures var (after, error) := Teardown(w, state);
            var dns := DnsTeardown(state.dnsOwner);
            var four := if state.ipv4.None? then [] else TeardownCalls4(state.ipv4.value);
            var six := if state.ipv6.None? then [] else TeardownCalls6(state.ipv6.value);
            && after.log == w.log + TeardownCalls(state)
            && error == LiftOption(OrElse(LastFailure(w, dns),
                                          OrElse(LastFailure(RunAll(w, dns), four),
                                                 LastFailure(RunAll(w, dns + four), six))))
  {
    var dns := DnsTeardown(state.dnsOwner);
    var four := if state.ipv4.None? then [] else TeardownCalls4(state.ipv4.value);
    var six := if state.ipv6.None? then [] else TeardownCalls6(state.ipv6.value);
    RunAllLogs(w, TeardownCalls(state));
    FirstErrorSplits(w, dns, four + six, Reported);
    FirstErrorSplits(RunAll(w, dns), four, six, Reported);
    RunAllSplits(w, dns, four);
    TeardownPartsReportLast(state);
    OnlyLastCallReports(w, dns);
    OnlyLastCallReports(RunAll(w, dns), four);
    OnlyLastCallReports(RunAll(w, dns + four), six);
  }

  // --- Where the naive statement fails -------------------------------------------------------------------

  function ManualRequest(address: Octets4, routes: seq<Route>): Request {
    Request(7, IpConfig(Manual, Some(V4(address)), Some(24), None, [], routes),
            IpConfig(Disabled, None, None, None, [], []), "nmd/home/wlan0", None, _ => "")
  }

  /** Asking for an address that is already there fails, and the rollback takes that address away. */
  lemma ExistingAddressIsLost()
    ensures var present := Address(7, V4([10, 0, 0, 5]), 24);
            var w := World(Host({present}, map[], {}, None), [], [], []);
            var (after, result) := Activate(w, ManualRequest([10, 0, 0, 5], []));
            result.Failure? && after.host.addresses == {}
  {
    var present := Address(7, V4([10, 0, 0, 5]), 24);
    var w := World(Host({present}, map[], {}, None), [], [], []);
    var req := ManualRequest([10, 0, 0, 5], []);
    var a := AttemptBoth(w, req);
    assert Installs(7, "nmd/home/wlan0", Ipv4Target(req).value)[0] == AddAddress(present);
    assert a.error.Some? && a.world.host == w.host;
    IpTeardownMembers(a.state);
    Teardown4Members(a.state.ipv4.value);
    assert RemoveAddress(present) in TeardownCalls(a.state);
    RunRemovals(a.world, TeardownCalls(a.state));
    DropSets(a.world.host, TeardownCalls(a.state));
  }

  /** Whatever the request, taking its state down deletes a default route of metric 0 through the first
      gateway among its tracked IPv4 routes, whoever installed it. */
  lemma TeardownDeletesDefaultRoute(w: World, state: ActiveIpState, gateway: IpAddr)
    requires w.removals == [] && state.ipv4.Some? && FirstGateway(state.ipv4.value.routes) == Some(gateway)
    ensures !Holds(Teardown(w, state).0.host.routes, DefaultRoute(state.ipv4.value.interfaceIndex, gateway))
  {
    var ipv4 := state.ipv4.value;
    var default := DefaultRoute(ipv4.interfaceIndex, gateway);
    RemoveRoutesMembers([default]);
    assert RemoveRoute(default) in RemoveRoutes([default]);
    assert RemoveRoute(default) in TeardownCalls4(ipv4);
    assert RemoveRoute(default) in TeardownCalls(state);
    IpTeardownMembers(state);
    RunRemovals(w, TeardownCalls(state));
    DropRoutes(w.host, TeardownCalls(state));
  }

  lemma AddressThenRoute(w: World, address: Address, route: Route)
    requires w.installs == [] && address !in w.host.addresses
    ensures var run := RunUntilFailure(w, [AddAddress(address), AddRoute(route)]);
            run.error.None? && run.world.removals == w.removals
            && run.world.host.routes == w.host.routes[Key(route) := Entry(route)]
  {
    var calls := [AddAddress(address), AddRoute(route)];
    var next := Exec(w, calls[0]).world;
    assert calls[1..] == [AddRoute(route)] && calls[1..][1..] == [];
    assert RunUntilFailure(next, calls[1..]).error.None?;
  }

  /** A request that names no default route, on a host with one through the gateway of its static route:
      activation leaves that default route alone and teardown deletes it. */
  lemma ExistingDefaultRouteIsLost(default: Route, branch: Route, w: World)
    requires default == DefaultRoute(7, V4([10, 0, 0, 1]))
    requires branch == Route(FamilyV4, V4([10, 1, 0, 0]), 16, default.gateway, None, Some(100), Unicast, Universe)
    requires w == World(Host({}, map[Key(default) := Entry(default)], {}, None), [], [], [])
    ensures var (up, result) := Activate(w, ManualRequest([10, 0, 0, 5], [branch]));
            && result.Success? && Holds(up.host.routes, default)
            && !Holds(Teardown(up, result.value).0.host.routes, default)
  {
    var req := ManualRequest([10, 0, 0, 5], [branch]);
    var t := Ipv4Target(req).value;
    assert StaticRoutes([branch], FamilyV4) == [branch] by {
      assert [branch][1..] == [] && StaticRoutes([], FamilyV4) == [];
    }
    var address := Address(7, V4([10, 0, 0, 5]), 24);
    assert AddRoutes([branch]) == [AddRoute(branch)] by {
      assert [branch][1..] == [];
    }
    assert Installs(7, "nmd/home/wlan0", t) == [AddAddress(address), AddRoute(branch)];
    AddressThenRoute(w, address, branch);
    var a := AttemptBoth(w, req);
    var routes := a.state.ipv4.value.routes;
    assert routes[1..] == [branch];
    TeardownDeletesDefaultRoute(a.world, a.state, V4([10, 0, 0, 1]));
  }
}
