/** Which requests are safe to fail: all-or-nothing as a condition on the host and the request alone. */
module SafeFailure {
  import opened Model
  import opened Wrappers
  import opened IpTypes
  import opened Kernel
  import opened KernelEffects
  import opened IpEngine
  import opened Rollback
  import Dns

  // --- The condition ------------------------------------------------------------------------------

  /** Whether the resolver file lets `owner` take it over when the backends do their best. */
  predicate ResolverOpen(file: Dns.File, owner: string) {
    owner != [] && (Dns.Owner(file).None? || Dns.Owner(file) == Some(owner))
  }

  /** Whether the host could accept all of a family's installs. */
  predicate Installable(host: Host, interfaceIndex: i32, owner: string, t: Target) {
    && Address(interfaceIndex, t.address, t.prefixLength) !in host.addresses
    && (t.dns != NO_DNS ==> ResolverOpen(host.resolver, owner))
  }

  predicate Ipv4CanSucceed(host: Host, req: Request) {
    || req.ipv4.ipMethod.Disabled?
    || (Ipv4Target(req).Success? && Ipv4Target(req).value.prefixLength <= 32
        && Installable(host, req.interfaceIndex, req.dnsOwner, Ipv4Target(req).value))
  }

  function AllButLast(calls: seq<Call>): seq<Call> {
    if calls == [] then [] else calls[..|calls| - 1]
  }

  /** The farthest that an activation can get and still fail: to the last IPv6 call if the IPv4 half can
      succeed and IPv6 is configured, and to the last IPv4 call otherwise. */
  function LongestFailure(host: Host, req: Request): (seq<Call>, ActiveIpState) {
    if Ipv4CanSucceed(host, req) && req.ipv6.ipMethod.Manual? then
      (PlannedInstalls4(req) + AllButLast(PlannedInstalls6(req)), PlannedState(req))
    else
      (AllButLast(PlannedInstalls4(req)), PlannedState(req).(ipv6 := None, dnsOwner := None))
  }

  /** The longest failure collides with nothing: checkable before the call. */
  ghost predicate SafeToFail(host: Host, req: Request) {
    var (installed, state) := LongestFailure(host, req);
    NoCollision(host, installed, state)
  }

  // --- No failure gets farther ------------------------------------------------------------------------

  /** `small` names no more than `large`: the same takeover or none, and no other install or removal. */
  ghost predicate Within(installed: seq<Call>, state: ActiveIpState, more: seq<Call>, larger: ActiveIpState) {
    && (forall c :: c in installed ==> c in more)
    && (Takeover(installed).Some? ==> Takeover(installed) == Takeover(more))
    && (state.ipv4.None? || state.ipv4 == larger.ipv4)
    && (state.ipv6.None? || state.ipv6 == larger.ipv6)
  }

  lemma NoCollisionWithin(
      host: Host, installed: seq<Call>, state: ActiveIpState, more: seq<Call>, larger: ActiveIpState)
    requires Within(installed, state, more, larger) && NoCollision(host, more, larger)
    ensures NoCollision(host, installed, state)
  {
    forall c | c in TeardownCalls(state) && !c.RemoveDns? ensures c in TeardownCalls(larger) {
      assert c in IpTeardown(state);
      assert c in IpTeardown(larger);
    }
  }

  lemma Failed4Within(w: World, req: Request)
    requires Attempt4(w, req).error.Some?
    ensures var a := Attempt4(w, req);
            && a.installed <= AllButLast(PlannedInstalls4(req)) && Takeover(a.installed).None?
            && (a.state.ipv4.None? || a.state.ipv4 == PlannedState(req).ipv4) && a.state.ipv6.None?
  {
    Attempt4Accounted(w, req);
    Attempt4FollowsPlan(w, req);
    if PlannedInstalls4(req) != [] {
      FailedRunStopsEarly(GrantLease(w, Ipv4Target(req).value.lease), PlannedInstalls4(req));
    }
  }

  lemma Failed6Within(w: World, req: Request, state: ActiveIpState)
    requires state.ipv6.None? && Attempt6(w, req, state).error.Some?
    ensures var a := Attempt6(w, req, state);
            && req.ipv6.ipMethod.Manual? && a.installed <= AllButLast(PlannedInstalls6(req))
            && a.state == state.(ipv6 := a.state.ipv6)
            && (a.state.ipv6.None? || a.state.ipv6 == PlannedState(req).ipv6)
  {
    Attempt6FollowsPlan(w, req, state);
    if PlannedInstalls6(req) != [] {
      FailedRunStopsEarly(w, PlannedInstalls6(req));
    }
  }

  /** An IPv4 half that succeeded could succeed. */
  lemma SuccessWasPossible(w: World, req: Request)
    requires Attempt4(w, req).error.None?
    ensures Ipv4CanSucceed(w.host, req)
  {
    if !req.ipv4.ipMethod.Disabled? {
      var t := Ipv4Target(req).value;
      var granted := GrantLease(w, t.lease);
      var calls := Installs(req.interfaceIndex, req.dnsOwner, t);
      assert Exec(granted, calls[0]).error.None?;
      assert calls[0] == AddAddress(Address(req.interfaceIndex, t.address, t.prefixLength));
      if t.dns != NO_DNS {
        InstallsMembers(req.interfaceIndex, req.dnsOwner, t);
        var early := calls[..|calls| - 1];
        assert calls == early + [ApplyDns(req.dnsOwner, t.dns)];
        var middle := RunThenOne(granted, early, ApplyDns(req.dnsOwner, t.dns));
        AcceptedTakeover(middle, req.dnsOwner, t.dns);
      }
    }
  }

  lemma NoTakeover6(req: Request, calls: seq<Call>)
    requires calls <= PlannedInstalls6(req)
    ensures Takeover(calls).None?
  {
    var planned := PlannedInstalls6(req);
    if planned != [] {
      InstallsMembers(req.interfaceIndex, req.dnsOwner, Ipv6Target(req).value);
      assert planned[..|planned|] == planned;
    }
  }

  /** Every failed attempt stays within the longest. */
  lemma FailureWithinLongest(w: World, req: Request)
    requires AttemptBoth(w, req).error.Some?
    ensures var a := AttemptBoth(w, req);
            var (installed, state) := LongestFailure(w.host, req);
            Within(a.installed, a.state, installed, state)
  {
    var first := Attempt4(w, req);
    if first.error.Some? {
      Failed4Within(w, req);
    } else {
      SuccessWasPossible(w, req);
      Attempt4FollowsPlan(w, req);
      var second := Attempt6(first.world, req, first.state);
      Failed6Within(first.world, req, first.state);
      NoTakeover6(req, second.installed);
      NoTakeover6(req, AllButLast(PlannedInstalls6(req)));
      TakeoverSplits(first.installed, second.installed);
      TakeoverSplits(first.installed, AllButLast(PlannedInstalls6(req)));
    }
  }

  // --- The longest failure happens -------------------------------------------------------------------------

  /** Replies that let everything through, even past a foreign resolver file. */
  function Passing(n: nat): (script: seq<Dns.Reply>)
    ensures |script| == n
  {
    seq(n, _ => Dns.Glitch)
  }

  /** Calls that all work, one after another, on such replies. */
  predicate Welcome(host: Host, calls: seq<Call>)
    decreases |calls|
  {
    calls == []
    || (Effect(host, calls[0], Dns.Glitch).1.None? && Welcome(Effect(host, calls[0], Dns.Glitch).0, calls[1..]))
  }

  lemma RefusedInstallFails(w: World, call: Call)
    requires IsInstall(call) && NextReply(w.installs) == Dns.Refuse
    ensures Exec(w, call).error.Some?
  {
  }

  lemma PassingStep(w: World, call: Call, n: nat, rest: seq<Dns.Reply>)
    requires IsInstall(call) && n > 0 && w.installs == Passing(n) + rest
    ensures var step := Exec(w, call);
            && step.world.installs == Passing(n - 1) + rest
            && (step.world.host, step.error) == Effect(w.host, call, Dns.Glitch)
  {
    assert w.installs[1..] == Passing(n - 1) + rest;
  }

  /** A script that passes `n` calls and then refuses stops a run exactly there. */
  lemma {:induction false} ScriptedRun(w: World, calls: seq<Call>, n: nat, rest: seq<Dns.Reply>)
    requires AllInstalls(calls) && n <= |calls| && Welcome(w.host, calls[..n])
    requires w.installs == Passing(n) + rest && (n < |calls| ==> rest != [] && rest[0] == Dns.Refuse)
    ensures var run := RunUntilFailure(w, calls);
            && run.done == n && (run.error.Some? <==> n < |calls|)
            && (n == |calls| ==> run.world.installs == rest)
    decreases n
  {
    if n == 0 {
      assert Passing(0) + rest == rest;
      if calls != [] {
        assert calls[0] in calls;
        RefusedInstallFails(w, calls[0]);
      }
    } else {
      assert calls[0] in calls;
      PassingStep(w, calls[0], n, rest);
      assert calls[..n][1..] == calls[1..][..n - 1];
      ScriptedRun(Exec(w, calls[0]).world, calls[1..], n - 1, rest);
    }
  }

  lemma {:induction false} RoutesAreWelcome(host: Host, calls: seq<Call>)
    requires forall c :: c in calls ==> c.AddRoute?
    ensures Welcome(host, calls)
    decreases |calls|
  {
    if calls != [] {
      assert calls[0] in calls;
      RoutesAreWelcome(Effect(host, calls[0], Dns.Glitch).0, calls[1..]);
    }
  }

  lemma OpenResolverAccepts(host: Host, owner: string, config: Dns.DnsConfig)
    requires ResolverOpen(host.resolver, owner)
    ensures Effect(host, ApplyDns(owner, config), Dns.Glitch).1.None?
  {
  }

  lemma {:induction false} RoutesThenDnsAreWelcome(host: Host, calls: seq<Call>, owner: string, config: Dns.DnsConfig)
    requires (forall c :: c in calls ==> c.AddRoute?) && ResolverOpen(host.resolver, owner)
    ensures Welcome(host, calls + [ApplyDns(owner, config)])
    decreases |calls|
  {
    var all := calls + [ApplyDns(owner, config)];
    if calls == [] {
      assert all[1..] == [];
      OpenResolverAccepts(host, owner, config);
    } else {
      assert calls[0] in calls;
      assert all[1..] == calls[1..] + [ApplyDns(owner, config)];
      RoutesThenDnsAreWelcome(Effect(host, calls[0], Dns.Glitch).0, calls[1..], owner, config);
    }
  }

  /** A family's installs after its address. */
  function LaterInstalls(interfaceIndex: i32, owner: string, t: Target): seq<Call> {
    AddRoutes(DefaultRoutes(interfaceIndex, t.gateway)) + AddRoutes(t.statics) + DnsCalls(owner, t.dns)
  }

  lemma {:induction false} AddRoutesOnlyAdd(routes: seq<Route>)
    ensures forall c :: c in AddRoutes(routes) ==> c.AddRoute?
  {
    if routes != [] {
      AddRoutesOnlyAdd(routes[1..]);
    }
  }

  lemma LaterAreWelcome(host: Host, interfaceIndex: i32, owner: string, t: Target, n: nat)
    requires n <= |LaterInstalls(interfaceIndex, owner, t)|
    requires n == |LaterInstalls(interfaceIndex, owner, t)| && t.dns != NO_DNS ==> ResolverOpen(host.resolver, owner)
    ensures Welcome(host, LaterInstalls(interfaceIndex, owner, t)[..n])
  {
    AddRoutesOnlyAdd(DefaultRoutes(interfaceIndex, t.gateway));
    AddRoutesOnlyAdd(t.statics);
    var routes := AddRoutes(DefaultRoutes(interfaceIndex, t.gateway)) + AddRoutes(t.statics);
    var later := LaterInstalls(interfaceIndex, owner, t);
    if n <= |routes| {
      assert later[..n] == routes[..n];
      RoutesAreWelcome(host, later[..n]);
    } else {
      assert later[..n] == routes + [ApplyDns(owner, t.dns)];
      RoutesThenDnsAreWelcome(host, routes, owner, t.dns);
    }
  }

  /** The first `n` installs of a family work if its address is free and, when the resolver call is
      among them, the resolver file is open. */
  lemma InstallsAreWelcome(host: Host, interfaceIndex: i32, owner: string, t: Target, n: nat)
    requires n <= |Installs(interfaceIndex, owner, t)|
    requires n > 0 ==> Address(interfaceIndex, t.address, t.prefixLength) !in host.addresses
    requires n == |Installs(interfaceIndex, owner, t)| && t.dns != NO_DNS ==> ResolverOpen(host.resolver, owner)
    ensures Welcome(host, Installs(interfaceIndex, owner, t)[..n])
  {
    if n > 0 {
      var calls := Installs(interfaceIndex, owner, t);
      var later := LaterInstalls(interfaceIndex, owner, t);
      assert calls == [calls[0]] + later;
      assert calls[..n][1..] == later[..n - 1];
      LaterAreWelcome(Effect(host, calls[0], Dns.Glitch).0, interfaceIndex, owner, t, n - 1);
    }
  }

  lemma GrantedLease(w: World, req: Request)
    requires Ipv4Target(req).Success?
    ensures var granted := GrantLease(w, Ipv4Target(req).value.lease);
            && granted.installs == w.installs && granted.host.addresses == w.host.addresses
            && granted.host.resolver == w.host.resolver
  {
  }

  /** The IPv4 half stopped after `n` of its calls, or let through whole. */
  lemma Scripted4(w: World, req: Request, n: nat, rest: seq<Dns.Reply>)
    requires PlannedInstalls4(req) != [] && n <= |PlannedInstalls4(req)| && w.installs == Passing(n) + rest
    requires n > 0 ==> var t := Ipv4Target(req).value;
                       Address(req.interfaceIndex, t.address, t.prefixLength) !in w.host.addresses
    requires n < |PlannedInstalls4(req)| ==> rest != [] && rest[0] == Dns.Refuse
    requires n == |PlannedInstalls4(req)| ==> Ipv4CanSucceed(w.host, req)
    ensures var a := Attempt4(w, req);
            && a.installed == PlannedInstalls4(req)[..n] && (a.error.Some? <==> n < |PlannedInstalls4(req)|)
            && (a.error.None? ==> a.world.installs == rest)
  {
    var t := Ipv4Target(req).value;
    var granted := GrantLease(w, t.lease);
    GrantedLease(w, req);
    InstallsMembers(req.interfaceIndex, req.dnsOwner, t);
    InstallsAreWelcome(granted.host, req.interfaceIndex, req.dnsOwner, t, n);
    ScriptedRun(granted, PlannedInstalls4(req), n, rest);
  }

  lemma Scripted6(w: World, req: Request, state: ActiveIpState, n: nat, rest: seq<Dns.Reply>)
    requires PlannedInstalls6(req) != [] && n <= |PlannedInstalls6(req)| && w.installs == Passing(n) + rest
    requires n > 0 ==> var t := Ipv6Target(req).value;
                       Address(req.interfaceIndex, t.address, t.prefixLength) !in w.host.addresses
    requires n < |PlannedInstalls6(req)| ==> rest != [] && rest[0] == Dns.Refuse
    ensures var a := Attempt6(w, req, state);
            a.installed == PlannedInstalls6(req)[..n] && (a.error.Some? <==> n < |PlannedInstalls6(req)|)
  {
    var t := Ipv6Target(req).value;
    InstallsMembers(req.interfaceIndex, req.dnsOwner, t);
    InstallsAreWelcome(w.host, req.interfaceIndex, req.dnsOwner, t, n);
    ScriptedRun(w, PlannedInstalls6(req), n, rest);
  }

  /** An attempt that failed with a collision was not restored. */
  lemma CollisionIsNotRestored(w: World, req: Request)
    requires w.removals == [] && AttemptBoth(w, req).error.Some?
    requires !NoCollision(w.host, AttemptBoth(w, req).installed, AttemptBoth(w, req).state)
    ensures Activate(w, req).1.Failure? && Activate(w, req).0.host != w.host
  {
    FailedActivationRestoresExactly(w, req);
  }

  /** A record that names a present address collides. */
  lemma NamedAddressCollides(host: Host, installed: seq<Call>, state: ActiveIpState, a: Address)
    requires a in host.addresses
    requires || (state.ipv4.Some? && RemoveAddress(a) in TeardownCalls4(state.ipv4.value))
             || (state.ipv6.Some? && RemoveAddress(a) in TeardownCalls6(state.ipv6.value))
    ensures !NoCollision(host, installed, state)
  {
    assert RemoveAddress(a) in IpTeardown(state);
    assert RemoveAddress(a) in TeardownCalls(state);
  }

  lemma Planned4Collides(host: Host, req: Request, installed: seq<Call>, state: ActiveIpState)
    requires !req.ipv4.ipMethod.Disabled? && Ipv4Target(req).Success? && state.ipv4 == PlannedState(req).ipv4
    requires var t := Ipv4Target(req).value; Address(req.interfaceIndex, t.address, t.prefixLength) in host.addresses
    ensures !NoCollision(host, installed, state)
  {
    var t := Ipv4Target(req).value;
    Teardown4Members(state.ipv4.value);
    NamedAddressCollides(host, installed, state, Address(req.interfaceIndex, t.address, t.prefixLength));
  }

  lemma Record6Names(interfaceIndex: i32, t: Target)
    requires t.address.V6?
    ensures RemoveAddress(Address(interfaceIndex, t.address, t.prefixLength))
            in TeardownCalls6(Record6(interfaceIndex, t).value)
  {
    Teardown6Members(Record6(interfaceIndex, t).value);
  }

  lemma Planned6Record(req: Request)
    requires PlannedInstalls6(req) != []
    ensures Ipv6Target(req).value.address.V6?
    ensures PlannedState(req).ipv6 == Record6(req.interfaceIndex, Ipv6Target(req).value)
  {
  }

  lemma Planned6Collides(host: Host, req: Request, installed: seq<Call>)
    requires PlannedInstalls6(req) != []
    requires var t := Ipv6Target(req).value; Address(req.interfaceIndex, t.address, t.prefixLength) in host.addresses
    ensures !NoCollision(host, installed, PlannedState(req))
  {
    var t := Ipv6Target(req).value;
    Planned6Record(req);
    Record6Names(req.interfaceIndex, t);
    NamedAddressCollides(host, installed, PlannedState(req), Address(req.interfaceIndex, t.address, t.prefixLength));
  }

  predicate Taken6(host: Host, req: Request)
    requires PlannedInstalls6(req) != []
  {
    var t := Ipv6Target(req).value;
    Address(req.interfaceIndex, t.address, t.prefixLength) in host.addresses
  }

  /** Replies that let the IPv4 half through. */
  lemma LetThrough4(w: World, req: Request, rest: seq<Dns.Reply>)
    requires Ipv4CanSucceed(w.host, req) && w.installs == Passing(|PlannedInstalls4(req)|) + rest
    ensures var a := Attempt4(w, req); a.error.None? && a.world.installs == rest
  {
    if req.ipv4.ipMethod.Disabled? {
      assert Passing(0) + rest == rest;
    } else {
      Scripted4(w, req, |PlannedInstalls4(req)|, rest);
    }
  }

  lemma Planned4AddressesAreV4(req: Request)
    ensures AllInstalls(PlannedInstalls4(req))
    ensures forall a :: AddAddress(a) in PlannedInstalls4(req) ==> a.address.V4?
  {
    if PlannedInstalls4(req) != [] {
      InstallsMembers(req.interfaceIndex, req.dnsOwner, Ipv4Target(req).value);
    }
  }

  lemma SuccessfulIpv4(w: World, req: Request)
    requires Attempt4(w, req).error.None?
    ensures var a := Attempt4(w, req);
            AllInstalls(a.installed) && a.world.host == Install(Granted(w.host, a.state), a.installed)
  {
    Attempt4Accounted(w, req);
  }

  /** The IPv4 half takes no IPv6 address. */
  lemma OtherFamilyStaysFree(w: World, req: Request, address: Address)
    requires Attempt4(w, req).error.None? && address.address.V6?
    ensures address in Attempt4(w, req).world.host.addresses ==> address in w.host.addresses
  {
    var a := Attempt4(w, req);
    var installed := a.installed;
    SuccessfulIpv4(w, req);
    Attempt4FollowsPlan(w, req);
    Planned4AddressesAreV4(req);
    InstallSets(Granted(w.host, a.state), installed);
  }

  /** Replies under which the IPv4 half fails and the host is not restored. */
  lemma UnsafeIpv4(host: Host, req: Request) returns (w: World)
    requires !NoCollision(host, AllButLast(PlannedInstalls4(req)), PlannedState(req).(ipv6 := None, dnsOwner := None))
    ensures w.host == host && w.removals == [] && Activate(w, req).1.Failure? && Activate(w, req).0.host != host
  {
    var planned := PlannedInstalls4(req);
    if planned == [] {
      w := World(host, [], [], []);
    } else {
      var t := Ipv4Target(req).value;
      var taken := Address(req.interfaceIndex, t.address, t.prefixLength) in host.addresses;
      var n := if taken then 0 else |planned| - 1;
      w := World(host, Passing(n) + [Dns.Refuse], [], []);
      Scripted4(w, req, n, [Dns.Refuse]);
      if taken {
        Planned4Collides(host, req, planned[..n], Attempt4(w, req).state);
      }
    }
    CollisionIsNotRestored(w, req);
  }

  /** Replies that let the IPv4 half through and stop the IPv6 half after `n` of its calls. */
  lemma ScriptedBoth(w: World, req: Request, n: nat)
    requires Ipv4CanSucceed(w.host, req) && req.ipv6.ipMethod.Manual?
    requires w.installs == Passing(|PlannedInstalls4(req)|) + (Passing(n) + [Dns.Refuse])
    requires if PlannedInstalls6(req) == [] then n == 0 else n < |PlannedInstalls6(req)|
    requires n > 0 ==> !Taken6(w.host, req)
    ensures var a := AttemptBoth(w, req);
            && a.error.Some? && a.state == PlannedState(req)
            && a.installed == PlannedInstalls4(req) + PlannedInstalls6(req)[..n]
  {
    var first := Attempt4(w, req);
    LetThrough4(w, req, Passing(n) + [Dns.Refuse]);
    Attempt4FollowsPlan(w, req);
    Attempt6FollowsPlan(first.world, req, first.state);
    if PlannedInstalls6(req) != [] {
      var t := Ipv6Target(req).value;
      OtherFamilyStaysFree(w, req, Address(req.interfaceIndex, t.address, t.prefixLength));
      Scripted6(first.world, req, first.state, n, [Dns.Refuse]);
    }
  }

  /** Replies under which the IPv4 half succeeds, the IPv6 half fails and the host is not restored. */
  lemma UnsafeIpv6(host: Host, req: Request) returns (w: World)
    requires Ipv4CanSucceed(host, req) && req.ipv6.ipMethod.Manual?
    requires !NoCollision(host, PlannedInstalls4(req) + AllButLast(PlannedInstalls6(req)), PlannedState(req))
    ensures w.host == host && w.removals == [] && Activate(w, req).1.Failure? && Activate(w, req).0.host != host
  {
    var four, six := PlannedInstalls4(req), PlannedInstalls6(req);
    var taken := six != [] && Taken6(host, req);
    var n := if six == [] || taken then 0 else |six| - 1;
    w := World(host, Passing(|four|) + (Passing(n) + [Dns.Refuse]), [], []);
    ScriptedBoth(w, req, n);
    if taken {
      Planned6Collides(host, req, four + six[..n]);
    } else {
      assert six[..n] == AllButLast(six);
    }
    CollisionIsNotRestored(w, req);
  }

  /** Exactly which requests are all or nothing: every activation that fails, at whichever step and for
      whatever reason, gives the host back if and only if the longest possible failure collides with nothing. */
  lemma EveryFailureRestoresExactlyWhenSafe(host: Host, req: Request)
    ensures (forall w: World :: w.host == host && w.removals == [] && Activate(w, req).1.Failure?
                                ==> Activate(w, req).0.host == host)
            <==> SafeToFail(host, req)
  {
    if SafeToFail(host, req) {
      forall w: World | w.host == host && w.removals == [] && Activate(w, req).1.Failure?
        ensures Activate(w, req).0.host == host
      {
        SafeFailureIsRestored(w, req);
      }
    } else if Ipv4CanSucceed(host, req) && req.ipv6.ipMethod.Manual? {
      var w := UnsafeIpv6(host, req);
    } else {
      var w := UnsafeIpv4(host, req);
    }
  }

  lemma SafeFailureIsRestored(w: World, req: Request)
    requires SafeToFail(w.host, req) && w.removals == [] && Activate(w, req).1.Failure?
    ensures Activate(w, req).0.host == w.host
  {
    var a := AttemptBoth(w, req);
    var (installed, state) := LongestFailure(w.host, req);
    FailureWithinLongest(w, req);
    NoCollisionWithin(w.host, a.installed, a.state, installed, state);
    FailedActivationRestoresExactly(w, req);
  }

  // --- Fresh hosts ------------------------------------------------------------------------------------------

  lemma FreshIsSafe(host: Host, req: Request)
    requires Fresh(host, req)
    ensures SafeToFail(host, req)
  {
    var four, six := PlannedInstalls4(req), PlannedInstalls6(req);
    var (installed, state) := LongestFailure(host, req);
    NoTakeover6(req, six);
    NoTakeover6(req, AllButLast(six));
    TakeoverSplits(four, six);
    TakeoverSplits(four, AllButLast(six));
    if four != [] {
      var t := Ipv4Target(req).value;
      InstallsMembers(req.interfaceIndex, req.dnsOwner, t);
      PartialInstallsHaveNoDns(four, |DnsCalls(req.dnsOwner, t.dns)|, |four| - 1);
    }
    NoCollisionWithin(host, installed, state, four + six, PlannedState(req));
  }

  /** On a fresh host every failure, at any install step, rolls back to exactly the initial host. */
  lemma FreshActivationIsAllOrNothing(w: World, req: Request)
    requires w.removals == [] && Fresh(w.host, req)
    ensures Activate(w, req).1.Failure? ==> Activate(w, req).0.host == w.host
  {
    FreshIsSafe(w.host, req);
    if Activate(w, req).1.Failure? {
      SafeFailureIsRestored(w, req);
    }
  }
}
