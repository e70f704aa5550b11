/** What runs of installs and removals do to a host, in closed form. */
module KernelEffects {
  import opened Wrappers
  import opened Kernel
  import Dns

  predicate AllInstalls(calls: seq<Call>) {
    forall c :: c in calls ==> IsInstall(c)
  }

  predicate AllRemovals(calls: seq<Call>) {
    forall c :: c in calls ==> !IsInstall(c)
  }

  /** An accepted install. */
  function Place(host: Host, call: Call): Host
    requires IsInstall(call)
  {
    match call
    case AddAddress(address) => host.(addresses := host.addresses + {address})
    case AddRoute(route) => host.(routes := host.routes[Key(route) := Entry(route)])
    case ApplyDns(owner, config) => host.(resolver := Some(Dns.Marked(owner, config)))
  }

  /** The host after installs that were all accepted. */
  function Install(host: Host, calls: seq<Call>): Host
    requires AllInstalls(calls)
    decreases |calls|
  {
    if calls == [] then host else Install(Place(host, calls[0]), calls[1..])
  }

  /** The host after removals that nothing refused. */
  function Drop(host: Host, calls: seq<Call>): Host
    decreases |calls|
  {
    if calls == [] then host else Drop(Effect(host, calls[0], Dns.Accept).0, calls[1..])
  }

  /** A run that stops at its first failure has done exactly its accepted installs. */
  lemma {:induction false} RunInstalls(w: World, calls: seq<Call>)
    requires AllInstalls(calls)
    ensures var run := RunUntilFailure(w, calls);
            && run.world.host == Install(w.host, calls[..run.done])
            && run.world.removals == w.removals
    decreases |calls|
  {
    if calls != [] {
      var step := Exec(w, calls[0]);
      if step.error.None? {
        RunInstalls(step.world, calls[1..]);
        var done := RunUntilFailure(step.world, calls[1..]).done;
        assert calls[..done + 1][1..] == calls[1..][..done];
      }
    }
  }

  lemma {:induction false} RunRemovals(w: World, calls: seq<Call>)
    requires AllRemovals(calls) && w.removals == []
    ensures RunAll(w, calls).host == Drop(w.host, calls)
    decreases |calls|
  {
    if calls != [] {
      RunRemovals(Exec(w, calls[0]).world, calls[1..]);
    }
  }

  // --- Addresses and leases ------------------------------------------------------------

  lemma {:induction false} InstallSets(host: Host, calls: seq<Call>)
    requires AllInstalls(calls)
    ensures var after := Install(host, calls);
            && after.leases == host.leases
            && (forall a :: a in after.addresses <==> a in host.addresses || AddAddress(a) in calls)
    decreases |calls|
  {
    if calls != [] {
      assert calls == [calls[0]] + calls[1..];
      InstallSets(Place(host, calls[0]), calls[1..]);
    }
  }

  lemma {:induction false} DropSets(host: Host, calls: seq<Call>)
    requires AllRemovals(calls)
    ensures var after := Drop(host, calls);
            && (forall a :: a in after.addresses <==> a in host.addresses && RemoveAddress(a) !in calls)
            && (forall l :: l in after.leases <==> l in host.leases && ReleaseLease(l) !in calls)
    decreases |calls|
  {
    if calls != [] {
      assert calls == [calls[0]] + calls[1..];
      assert calls[0] in calls;
      DropSets(Effect(host, calls[0], Dns.Accept).0, calls[1..]);
    }
  }

  // --- Routes ------------------------------------------------------------------------------

  ghost predicate Requested(key: RouteKey, calls: seq<Call>) {
    exists r :: AddRoute(r) in calls && Key(r) == key
  }

  ghost predicate RequestedAs(key: RouteKey, entry: RouteEntry, calls: seq<Call>) {
    exists r :: AddRoute(r) in calls && Key(r) == key && Entry(r) == entry
  }

  ghost predicate Doomed(key: RouteKey, entry: RouteEntry, calls: seq<Call>) {
    exists r :: RemoveRoute(r) in calls && Key(r) == key && Entry(r) == entry
  }

  /** Requested keys hold one of the requested entries; every other key is as before. */
  lemma {:induction false} InstallRoutes(host: Host, calls: seq<Call>)
    requires AllInstalls(calls)
    ensures var after := Install(host, calls).routes;
            && (forall k :: k in after <==> k in host.routes || Requested(k, calls))
            && (forall k :: k in after && Requested(k, calls) ==> RequestedAs(k, after[k], calls))
            && (forall k :: k in host.routes && !Requested(k, calls) ==> after[k] == host.routes[k])
    decreases |calls|
  {
    if calls != [] {
      var first, rest := calls[0], calls[1..];
      assert calls == [first] + rest;
      InstallRoutes(Place(host, first), rest);
      var after := Install(host, calls).routes;
      forall k | k in after && Requested(k, calls) ensures RequestedAs(k, after[k], calls) {
        if Requested(k, rest) {
          assert RequestedAs(k, after[k], rest);
        }
      }
    }
  }

  /** Removals delete exactly the entries one of them names; nothing else changes. */
  lemma {:induction false} DropRoutes(host: Host, calls: seq<Call>)
    requires AllRemovals(calls)
    ensures var after := Drop(host, calls).routes;
            && (forall k :: k in after <==> k in host.routes && !Doomed(k, host.routes[k], calls))
            && (forall k :: k in after ==> after[k] == host.routes[k])
    decreases |calls|
  {
    if calls != [] {
      var first, rest := calls[0], calls[1..];
      assert calls == [first] + rest;
      assert first in calls;
      DropRoutes(Effect(host, first, Dns.Accept).0, rest);
    }
  }

  // --- The resolver ------------------------------------------------------------------------------

  predicate NoDns(calls: seq<Call>) {
    forall c :: c in calls ==> !c.ApplyDns? && !c.RemoveDns?
  }

  /** The last resolver takeover among install calls. */
  function Takeover(calls: seq<Call>): (last: Option<Call>)
    ensures last.Some? ==> last.value.ApplyDns? && last.value in calls
    decreases |calls|
  {
    if calls == [] then None
    else
      var later := Takeover(calls[1..]);
      if later.Some? then later else if calls[0].ApplyDns? then Some(calls[0]) else None
  }

  lemma {:induction false} TakeoverSplits(first: seq<Call>, second: seq<Call>)
    ensures Takeover(first + second) == if Takeover(second).Some? then Takeover(second) else Takeover(first)
    decreases |first|
  {
    if first == [] {
      assert first + second == second;
    } else {
      assert (first + second)[1..] == first[1..] + second;
      TakeoverSplits(first[1..], second);
    }
  }

  lemma {:induction false} InstallResolver(host: Host, calls: seq<Call>)
    requires AllInstalls(calls)
    ensures Install(host, calls).resolver
            == match Takeover(calls)
               case None => host.resolver
               case Some(call) => Some(Dns.Marked(call.owner, call.config))
    decreases |calls|
  {
    if calls != [] {
      assert calls[0] in calls;
      InstallResolver(Place(host, calls[0]), calls[1..]);
    }
  }

  lemma {:induction false} DropWithoutDns(host: Host, calls: seq<Call>)
    requires NoDns(calls)
    ensures Drop(host, calls).resolver == host.resolver
    decreases |calls|
  {
    if calls != [] {
      DropWithoutDns(Effect(host, calls[0], Dns.Accept).0, calls[1..]);
    }
  }

  lemma {:induction false} InstallSplits(host: Host, first: seq<Call>, second: seq<Call>)
    requires AllInstalls(first) && AllInstalls(second)
    ensures Install(host, first + second) == Install(Install(host, first), second)
    decreases |first|
  {
    if first == [] {
      assert first + second == second;
    } else {
      assert (first + second)[1..] == first[1..] + second;
      InstallSplits(Place(host, first[0]), first[1..], second);
    }
  }

  // --- Undoing ------------------------------------------------------------------------------------

  /** Every accepted install is matched by a removal. */
  ghost predicate Covers(removals: seq<Call>, installs: seq<Call>) {
    && (forall a :: AddAddress(a) in installs ==> RemoveAddress(a) in removals)
    && (forall r :: AddRoute(r) in installs ==> RemoveRoute(r) in removals)
  }

  /** No installed key survives removals that cover the installs. */
  lemma InstalledKeyIsGone(host: Host, installs: seq<Call>, removals: seq<Call>, k: RouteKey)
    requires AllInstalls(installs) && AllRemovals(removals) && Covers(removals, installs)
    requires Requested(k, installs)
    ensures k !in Drop(Install(host, installs), removals).routes
  {
    var middle := Install(host, installs);
    InstallRoutes(host, installs);
    DropRoutes(middle, removals);
    assert RequestedAs(k, middle.routes[k], installs);
    assert Doomed(k, middle.routes[k], removals);
  }

  /** The routes end as they began exactly when no installed key was taken and nothing that the
      removals name was already there. */
  lemma RoutesUndone(host: Host, installs: seq<Call>, removals: seq<Call>)
    requires AllInstalls(installs) && AllRemovals(removals) && Covers(removals, installs)
    ensures Drop(Install(host, installs), removals).routes == host.routes
            <==> && (forall r :: AddRoute(r) in installs ==> Key(r) !in host.routes)
                 && (forall r :: RemoveRoute(r) in removals ==> !Holds(host.routes, r))
  {
    var middle := Install(host, installs);
    var after := Drop(middle, removals).routes;
    InstallRoutes(host, installs);
    DropRoutes(middle, removals);
    forall r | AddRoute(r) in installs ensures Key(r) !in after {
      InstalledKeyIsGone(host, installs, removals, Key(r));
    }
    if (forall r :: AddRoute(r) in installs ==> Key(r) !in host.routes)
       && (forall r :: RemoveRoute(r) in removals ==> !Holds(host.routes, r))
    {
      forall k ensures k in after <==> k in host.routes {
        if k in host.routes {
          assert !Requested(k, installs);
        }
      }
    }
  }

  lemma AddressesUndone(host: Host, installs: seq<Call>, removals: seq<Call>)
    requires AllInstalls(installs) && AllRemovals(removals) && Covers(removals, installs)
    ensures Drop(Install(host, installs), removals).addresses == host.addresses
            <==> (forall a :: RemoveAddress(a) in removals ==> a !in host.addresses)
  {
    InstallSets(host, installs);
    DropSets(Install(host, installs), removals);
  }
}
