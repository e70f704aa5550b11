/** What whole runs of manager calls do to the host, and which connections can leave the manager. */
module HostRuns {
  import opened Wrappers
  import opened IpTypes
  import opened Kernel
  import opened KernelEffects
  import opened IpEngine
  import opened Rollback
  import opened Profiles
  import opened Supplicant
  import opened Composite
  import opened Autoconnect
  import opened Manager
  import opened ManagerRuns
  import SafeFailure
  import Dns

  // --- What the active record names is there -------------------------------------------------------

  /** Every address and lease the record names is on the host, and its resolver file names an owner:
      the recorded one exactly when that name is recognisable. */
  ghost predicate Present(host: Host, state: ActiveIpState) {
    && (forall a :: RemoveAddress(a) in TeardownCalls(state) ==> a in host.addresses)
    && (forall l :: ReleaseLease(l) in TeardownCalls(state) ==> l in host.leases)
    && (state.dnsOwner.Some? ==>
          && Dns.Owner(host.resolver).Some?
          && (Dns.Owner(host.resolver) == state.dnsOwner <==> Dns.Recognisable(state.dnsOwner.value)))
  }

  ghost predicate RecordIsPresent(e: EngineState) {
    e.active.Some? ==> Present(e.world.host, e.active.value.1)
  }

  lemma PlannedAddress4(req: Request, a: Address)
    requires PlannedInstalls4(req) != [] && RemoveAddress(a) in TeardownCalls4(PlannedState(req).ipv4.value)
    ensures AddAddress(a) in PlannedInstalls4(req)
  {
    Teardown4Members(PlannedState(req).ipv4.value);
    assert PlannedInstalls4(req)[0] == AddAddress(a);
  }

  lemma PlannedAddress6(req: Request, a: Address)
    requires PlannedInstalls6(req) != [] && RemoveAddress(a) in TeardownCalls6(PlannedState(req).ipv6.value)
    ensures AddAddress(a) in PlannedInstalls6(req)
  {
    Teardown6Members(PlannedState(req).ipv6.value);
    assert PlannedInstalls6(req)[0] == AddAddress(a);
  }

  /** Every family that the plan records, it installs. */
  ghost predicate Complete(req: Request) {
    && (PlannedState(req).ipv4.Some? ==> PlannedInstalls4(req) != [])
    && (PlannedState(req).ipv6.Some? ==> PlannedInstalls6(req) != [])
  }

  lemma PlannedAddressesAreInstalled(req: Request, a: Address)
    requires Complete(req) && RemoveAddress(a) in TeardownCalls(PlannedState(req))
    ensures AddAddress(a) in PlannedInstalls4(req) + PlannedInstalls6(req)
  {
    var state := PlannedState(req);
    assert RemoveAddress(a) in IpTeardown(state);
    if state.ipv4.Some? && RemoveAddress(a) in TeardownCalls4(state.ipv4.value) {
      PlannedAddress4(req, a);
    } else {
      PlannedAddress6(req, a);
    }
  }

  lemma SuccessIsComplete(w: World, req: Request)
    requires AttemptBoth(w, req).error.None?
    ensures Complete(req)
  {
  }

  lemma TakenOverFile(host: Host, installed: seq<Call>, owner: string)
    requires AllInstalls(installed) && DnsPart(host.resolver, installed, Some(owner))
    requires owner != [] && !Dns.IsWhitespace(owner[0])
    ensures var file := Install(host, installed).resolver;
            Dns.Owner(file).Some? && (Dns.Owner(file) == Some(owner) <==> Dns.Recognisable(owner))
  {
    InstallResolver(host, installed);
    var takeover := Takeover(installed).value;
    Dns.MarkedNamesOwner(owner, takeover.config);
    Dns.MarkedNamesSomebody(owner, takeover.config);
  }

  /** Named owners start with a visible character. */
  predicate VisibleOwner(owner: string) {
    owner != [] && !Dns.IsWhitespace(owner[0])
  }

  /** Installs that cover the addresses a record names, and its takeover, make the record present. */
  lemma InstalledIsPresent(host: Host, installed: seq<Call>, state: ActiveIpState)
    requires AllInstalls(installed) && DnsPart(host.resolver, installed, state.dnsOwner)
    requires forall x :: RemoveAddress(x) in TeardownCalls(state) ==> AddAddress(x) in installed
    requires state.dnsOwner.Some? ==> VisibleOwner(state.dnsOwner.value)
    ensures Present(Install(Rollback.Granted(host, state), installed), state)
  {
    var start := Rollback.Granted(host, state);
    InstallSets(start, installed);
    IpTeardownMembers(state);
    if state.dnsOwner.Some? {
      TakenOverFile(start, installed, state.dnsOwner.value);
    }
  }

  /** What a successful activation recorded is on the host. */
  lemma ActivationIsPresent(w: World, req: Request)
    requires AttemptBoth(w, req).error.None? && VisibleOwner(req.dnsOwner)
    ensures Present(AttemptBoth(w, req).world.host, AttemptBoth(w, req).state)
  {
    var a := AttemptBoth(w, req);
    AttemptAccounted(w, req);
    SuccessIsThePlan(w, req);
    SuccessIsComplete(w, req);
    forall x | RemoveAddress(x) in TeardownCalls(a.state) ensures AddAddress(x) in a.installed {
      PlannedAddressesAreInstalled(req, x);
    }
    InstalledIsPresent(w.host, a.installed, a.state);
  }

  lemma EngineUpKeepsPresent(e: EngineState, profile: ConnectionProfile, device: DeviceInfo, outside: Outside)
    requires RecordIsPresent(e)
    ensures RecordIsPresent(EngineUp(e, profile, device, outside).0)
  {
    var (up, fault) := EngineUp(e, profile, device, outside);
    if e.active.None? && up.active.Some? {
      var req := RequestFor(profile, device, outside.interfaceIndex.value, outside);
      assert req.dnsOwner[0] == 'n';
      ActivationIsPresent(e.world, req);
    }
  }

  lemma PerformKeepsPresent(s: System, op: Op)
    requires RecordIsPresent(s.manager.engine)
    ensures RecordIsPresent(Perform(s, op).manager.engine)
  {
    var e := s.manager.engine;
    match op
    case BestOp(store, device, outside) =>
      var choice := Choose(store, device, TrackedProfiles(s.manager.active));
      if choice.Success? && choice.value.Some? {
        EngineUpKeepsPresent(e, choice.value.value, device, outside);
      }
    case ProfileOp(store, id, device, outside) =>
      if store.Get(id).Success? {
        EngineUpKeepsPresent(e, store.Get(id).value, device, outside);
      }
    case DeactivateOp(id) =>
    case DrainOp =>
  }

  lemma {:induction false} RunKeepsPresent(s: System, ops: seq<Op>)
    requires RecordIsPresent(s.manager.engine)
    ensures RecordIsPresent(PerformAll(s, ops).manager.engine)
    decreases |ops|
  {
    if ops != [] {
      PerformKeepsPresent(s, ops[0]);
      RunKeepsPresent(Perform(s, ops[0]), ops[1..]);
    }
  }

  // --- When a teardown reports no failure -------------------------------------------------------------

  function ReplyAt(script: seq<Dns.Reply>, k: nat): Dns.Reply {
    if k < |script| then script[k] else Dns.Accept
  }

  /** No reported call of the list is refused. */
  ghost predicate ReportedGranted(script: seq<Dns.Reply>, calls: seq<Call>) {
    forall k :: 0 <= k < |calls| && Reported(calls[k]) ==> !ReplyAt(script, k).Refuse?
  }

  lemma GrantedShift(script: seq<Dns.Reply>, call: Call, rest: seq<Call>)
    ensures ReportedGranted(script, [call] + rest)
            <==> (Reported(call) ==> !NextReply(script).Refuse?) && ReportedGranted(LaterReplies(script), rest)
  {
    var all := [call] + rest;
    assert all[0] == call;
    forall k | 0 <= k < |rest|
      ensures all[k + 1] == rest[k] && ReplyAt(LaterReplies(script), k) == ReplyAt(script, k + 1)
    {
    }
    if ReportedGranted(script, all) {
      forall k | 0 <= k < |rest| && Reported(rest[k]) ensures !ReplyAt(LaterReplies(script), k).Refuse? {
        assert Reported(all[k + 1]);
      }
    }
  }

  /** Reported removals that find what they name, none of them twice. */
  ghost predicate Finds(host: Host, calls: seq<Call>) {
    && (forall a :: RemoveAddress(a) in calls ==> a in host.addresses)
    && (forall i, j :: 0 <= i < j < |calls| && Reported(calls[i]) ==> calls[i] != calls[j])
  }

  lemma FindsRest(w: World, calls: seq<Call>)
    requires calls != [] && AllRemovals(calls) && Finds(w.host, calls)
    ensures Finds(Exec(w, calls[0]).world.host, calls[1..])
  {
    var first, rest := calls[0], calls[1..];
    assert first in calls;
    forall a | RemoveAddress(a) in rest ensures a in Exec(w, first).world.host.addresses {
      var j :| 0 <= j < |rest| && rest[j] == RemoveAddress(a);
      assert calls[j + 1] == RemoveAddress(a);
    }
    forall i, j | 0 <= i < j < |rest| && Reported(rest[i]) ensures rest[i] != rest[j] {
      assert calls[i + 1] == rest[i] && calls[j + 1] == rest[j];
    }
  }

  /** Removals that find what they name fail exactly when they are refused. */
  lemma {:induction false} FoundRemovalsFailExactlyOnRefusal(w: World, calls: seq<Call>)
    requires AllRemovals(calls) && NoDns(calls) && Finds(w.host, calls)
    ensures FirstError(w, calls, Reported).None? <==> ReportedGranted(w.removals, calls)
    decreases |calls|
  {
    if calls != [] {
      assert calls == [calls[0]] + calls[1..];
      assert calls[0] in calls;
      GrantedShift(w.removals, calls[0], calls[1..]);
      FindsRest(w, calls);
      FoundRemovalsFailExactlyOnRefusal(Exec(w, calls[0]).world, calls[1..]);
    }
  }

  lemma ReportedAreDistinct(state: ActiveIpState)
    ensures forall i, j :: 0 <= i < j < |IpTeardown(state)| && Reported(IpTeardown(state)[i])
                           ==> IpTeardown(state)[i] != IpTeardown(state)[j]
  {
    var four := if state.ipv4.None? then [] else TeardownCalls4(state.ipv4.value);
    var six := if state.ipv6.None? then [] else TeardownCalls6(state.ipv6.value);
    var all := IpTeardown(state);
    assert all == four + six;
    TeardownPartsReportLast(state);
    forall i | 0 <= i < |all| && i != |four| - 1 && i != |all| - 1 ensures !Reported(all[i]) {
      if i < |four| {
        assert all[i] == four[..|four| - 1][i];
      } else {
        assert all[i] == six[..|six| - 1][i - |four|];
      }
    }
    forall j | |four| <= j < |all| ensures four != [] ==> all[j] != four[|four| - 1] {
      Teardown6Members(state.ipv6.value);
      assert all[j] in six;
    }
  }

  /** The exact condition for a teardown without a reported failure. */
  ghost predicate TeardownGranted(script: seq<Dns.Reply>, state: ActiveIpState) {
    && ReportedGranted(script, TeardownCalls(state))
    && (state.dnsOwner.Some? ==> Dns.Recognisable(state.dnsOwner.value))
  }

  lemma RemoveDnsSucceedsExactly(w: World, owner: string)
    requires Dns.Owner(w.host.resolver).Some?
    requires Dns.Owner(w.host.resolver) == Some(owner) <==> Dns.Recognisable(owner)
    ensures var step := Exec(w, RemoveDns(owner));
            && (step.error.None? <==> !NextReply(w.removals).Refuse? && Dns.Recognisable(owner))
            && step.world.host.addresses == w.host.addresses && step.world.removals == LaterReplies(w.removals)
  {
  }

  lemma TeardownSucceedsExactlyWhenGranted(w: World, state: ActiveIpState)
    requires Present(w.host, state)
    ensures Teardown(w, state).1.None? <==> TeardownGranted(w.removals, state)
  {
    var ip, calls := IpTeardown(state), TeardownCalls(state);
    IpTeardownMembers(state);
    ReportedAreDistinct(state);
    assert Finds(w.host, ip) by {
      assert forall c :: c in ip ==> c in calls;
    }
    if state.dnsOwner.None? {
      assert calls == ip;
      FoundRemovalsFailExactlyOnRefusal(w, ip);
    } else {
      var remove := RemoveDns(state.dnsOwner.value);
      assert calls == [remove] + ip && calls[1..] == ip;
      GrantedShift(w.removals, remove, ip);
      RemoveDnsSucceedsExactly(w, state.dnsOwner.value);
      FoundRemovalsFailExactlyOnRefusal(Exec(w, remove).world, ip);
    }
  }


  // --- Which connections leave ---------------------------------------------------------------------------

  /** The coming disconnect and removal are granted, and so is every reported removal of the IP teardown. */
  ghost predicate WillLeave(e: EngineState) {
    && e.active.Some? && GrantedAt(e.link.control, 0) && GrantedAt(e.link.control, 1)
    && TeardownGranted(e.world.removals, e.active.value.1)
  }

  lemma EngineDownSucceedsExactly(e: EngineState, profileId: ProfileId)
    requires Agreeing(e) && RecordIsPresent(e) && e.active.Some? && e.active.value.0 == profileId
    ensures EngineDown(e, profileId).1.None? <==> WillLeave(e)
  {
    TeardownSucceedsExactlyWhenGranted(e.world, e.active.value.1);
    LinkDownSucceedsExactly(e.link, profileId);
  }

  predicate Tracks(m: ManagerState, id: ActiveConnectionId) {
    Position(m.active, id) < |m.active|
  }

  lemma TracksMember(m: ManagerState, k: nat)
    requires k < |m.active|
    ensures Tracks(m, m.active[k].id)
  {
  }

  /** Among tracked connections with distinct ids, dropping or marking one leaves the others. */
  lemma OthersStay(m: ManagerState, i: nat, fault: Option<EngineFault>, k: nat)
    requires IdsFresh(m) && i < |m.active| && k < |m.active|
    ensures Tracks(RecordDeactivation(m, i, fault).0, m.active[k].id) <==> k != i || fault.Some?
  {
    var after := RecordDeactivation(m, i, fault).0;
    if fault.Some? {
      assert after.active[k].id == m.active[k].id;
      TracksMember(after, k);
    } else if k != i {
      var moved := if k < i then k else k - 1;
      assert after.active[moved] == m.active[k];
      TracksMember(after, moved);
    } else {
      forall j | 0 <= j < |after.active| ensures after.active[j].id != m.active[k].id {
        assert after.active[j] == m.active[if j < i then j else j + 1];
      }
    }
  }

  lemma DeactivateLeavesExactly(m: ManagerState, id: ActiveConnectionId, k: nat)
    requires LayersAgree(m) && IdsFresh(m) && RecordIsPresent(m.engine) && k < |m.active|
    ensures Tracks(Deactivate(m, id).0, m.active[k].id)
            <==> !(id == m.active[k].id && Up(m.active[k]) && WillLeave(m.engine))
  {
    var i := Position(m.active, id);
    if i < |m.active| && Up(m.active[i]) {
      var pid := m.active[i].profile.id;
      EngineDownSucceedsExactly(m.engine, pid);
      var (engine, fault) := EngineDown(m.engine, pid);
      OthersStay(m.(engine := engine), i, fault, k);
      assert k != i ==> m.active[k].id != id;
    } else {
      TracksMember(m, k);
    }
  }

  lemma ReachableIsSound(s: System, ops: seq<Op>)
    requires Initial(s) && StoresValid(ops)
    ensures Consistent(PerformAll(s, ops)) && RecordIsPresent(PerformAll(s, ops).manager.engine)
  {
    RunKeepsConsistent(s, ops);
    RunKeepsPresent(s, ops);
  }

  /** Exactly when a tracked connection leaves: in every reachable state, a call drops it if and only if the
      call deactivates it, it is activated, and its teardown is granted. */
  lemma ConnectionLeavesExactly(s: System, ops: seq<Op>, op: Op, k: nat)
    requires Initial(s) && StoresValid(ops) && k < |PerformAll(s, ops).manager.active|
    ensures var now := PerformAll(s, ops);
            var c := now.manager.active[k];
            !Tracks(Perform(now, op).manager, c.id)
            <==> op == DeactivateOp(c.id) && Up(c) && WillLeave(now.manager.engine)
  {
    var now := PerformAll(s, ops);
    ReachableIsSound(s, ops);
    if op.DeactivateOp? {
      DeactivateLeavesExactly(now.manager, op.id, k);
    } else {
      var after := Perform(now, op).manager;
      assert now.manager.active <= after.active;
      TracksMember(after, k);
    }
  }

  /** So an activated connection's profile is accepted again after its deactivation if and only if the
      teardown was granted; otherwise its entry stays, failed. */
  lemma ProfileIsFreedExactly(
      s: System, ops: seq<Op>, k: nat, store: Store, device: DeviceInfo, outside: Outside)
    requires Initial(s) && StoresValid(ops) && k < |PerformAll(s, ops).manager.active|
    requires var c := PerformAll(s, ops).manager.active[k];
             Up(c) && store.Get(c.profile.id).Success? && Matches(store.Get(c.profile.id).value, device)
    ensures var m := PerformAll(s, ops).manager;
            var c := m.active[k];
            var (after, error) := Deactivate(m, c.id);
            var again := ActivateProfile(after, store, c.profile.id, device, outside).1;
            && (error.None? <==> WillLeave(m.engine))
            && (again != Failure(AlreadyActive(c.profile.id)) <==> WillLeave(m.engine))
            && (!WillLeave(m.engine) ==> c.(state := Failed) in after.active)
  {
    ReachableIsSound(s, ops);
    DeactivationFrees(PerformAll(s, ops).manager, k);
  }

  lemma DeactivationFrees(m: ManagerState, k: nat)
    requires LayersAgree(m) && IdsFresh(m) && RecordIsPresent(m.engine) && k < |m.active| && Up(m.active[k])
    ensures var (after, error) := Deactivate(m, m.active[k].id);
            && (error.None? <==> WillLeave(m.engine))
            && (m.active[k].profile.id !in TrackedProfiles(after.active) <==> WillLeave(m.engine))
            && (!WillLeave(m.engine) ==> m.active[k].(state := Failed) in after.active)
  {
    var pid := m.active[k].profile.id;
    assert Position(m.active, m.active[k].id) == k;
    EngineDownSucceedsExactly(m.engine, pid);
    var (engine, fault) := EngineDown(m.engine, pid);
    var after := RecordDeactivation(m.(engine := engine), k, fault).0;
    if fault.Some? {
      assert after.active[k] == m.active[k].(state := Failed);
      assert after.active[k].profile.id in TrackedProfiles(after.active);
    } else {
      forall j | 0 <= j < |after.active| ensures after.active[j].profile.id != pid {
        assert after.active[j] == m.active[if j < k then j else j + 1];
      }
    }
  }

  /** From a new manager, one activation whose interface is not found leaves its profile tracked as failed,
      and so refused through every later run. */
  lemma OneFailureBlocksForever(
      s: System, store: Store, id: ProfileId, device: DeviceInfo, outside: Outside, later: seq<Op>)
    requires Initial(s) && store.Valid() && StoresValid(later) && outside.interfaceIndex.None?
    requires store.Get(id).Success? && Matches(store.Get(id).value, device)
    ensures var failed := Perform(s, ProfileOp(store, id, device, outside));
            && |failed.manager.active| == 1 && failed.manager.active[0].state.Failed?
            && failed.manager.active[0].profile.id == id
            && ActivateProfile(PerformAll(failed, later).manager, store, id, device, outside).1
               == Failure(AlreadyActive(id))
  {
    var failed := Perform(s, ProfileOp(store, id, device, outside));
    GetReturnsItsId(store, id);
    var c := failed.manager.active[0];
    assert c in failed.manager.active;
    FailedProfileIsBlockedForever(failed, later, c, store, device, outside);
    assert c.profile.id in TrackedProfiles(PerformAll(failed, later).manager.active);
  }

  // --- The host over whole runs --------------------------------------------------------------------------------

  /** Taking the active record down, if there is one, gives `h` back. */
  ghost predicate Conserves(h: Host, e: EngineState) {
    && e.world.removals == []
    && (if e.active.None? then e.world.host == h
        else RunAll(e.world, TeardownCalls(e.active.value.1)).host == h)
  }

  /** Whatever profile the call may bring up, `h` holds nothing that its request names. */
  ghost predicate FreshFor(h: Host, op: Op) {
    (op.BestOp? || op.ProfileOp?) && op.outside.interfaceIndex.Some?
    ==> forall p: ConnectionProfile :: op.store.Get(p.id) == Success(p)
                    ==> Fresh(h, RequestFor(p, op.device, op.outside.interfaceIndex.value, op.outside))
  }

  lemma {:induction false} RunAllKeepsNoRefusals(w: World, calls: seq<Call>)
    requires w.removals == []
    ensures RunAll(w, calls).removals == []
    decreases |calls|
  {
    if calls != [] {
      RunAllKeepsNoRefusals(Exec(w, calls[0]).world, calls[1..]);
    }
  }

  lemma ActivateConserves(w: World, req: Request)
    requires w.removals == [] && Fresh(w.host, req)
    ensures var (after, result) := Activate(w, req);
            && after.removals == []
            && (result.Failure? ==> after.host == w.host)
            && (result.Success? ==> RunAll(after, TeardownCalls(result.value)).host == w.host)
  {
    AttemptAccounted(w, req);
    var a := AttemptBoth(w, req);
    RunAllKeepsNoRefusals(a.world, TeardownCalls(a.state));
    SafeFailure.FreshActivationIsAllOrNothing(w, req);
    ActivateThenTeardownIsIdentityExactlyWhenFresh(w, req);
  }

  lemma EngineUpConserves(h: Host, e: EngineState, profile: ConnectionProfile, device: DeviceInfo, outside: Outside)
    requires Conserves(h, e)
    requires outside.interfaceIndex.Some?
             ==> Fresh(h, RequestFor(profile, device, outside.interfaceIndex.value, outside))
    ensures Conserves(h, EngineUp(e, profile, device, outside).0)
  {
    if e.active.None? && outside.interfaceIndex.Some? {
      ActivateConserves(e.world, RequestFor(profile, device, outside.interfaceIndex.value, outside));
    }
  }

  lemma EngineDownConserves(h: Host, e: EngineState, profileId: ProfileId)
    requires Conserves(h, e)
    ensures Conserves(h, EngineDown(e, profileId).0)
  {
    if e.active.Some? {
      RunAllKeepsNoRefusals(e.world, TeardownCalls(e.active.value.1));
    }
  }

  lemma PerformConserves(h: Host, s: System, op: Op)
    requires Conserves(h, s.manager.engine) && FreshFor(h, op)
    requires op.BestOp? || op.ProfileOp? ==> op.store.Valid()
    ensures Conserves(h, Perform(s, op).manager.engine)
  {
    var m := s.manager;
    match op
    case BestOp(store, device, outside) =>
      var choice := Choose(store, device, TrackedProfiles(m.active));
      if choice.Success? && choice.value.Some? {
        var p := choice.value.value;
        ChoosesTheBest(store, device, TrackedProfiles(m.active), p);
        assert store.Get(p.id) == Success(p);
        EngineUpConserves(h, m.engine, p, device, outside);
      }
    case ProfileOp(store, id, device, outside) =>
      if store.Get(id).Success? {
        GetReturnsItsId(store, id);
        EngineUpConserves(h, m.engine, store.Get(id).value, device, outside);
      }
    case DeactivateOp(id) =>
      var i := Position(m.active, id);
      if i < |m.active| {
        EngineDownConserves(h, m.engine, m.active[i].profile.id);
      }
    case DrainOp =>
  }

  lemma {:induction false} RunConserves(h: Host, s: System, ops: seq<Op>)
    requires Conserves(h, s.manager.engine) && StoresValid(ops)
    requires forall i :: 0 <= i < |ops| ==> FreshFor(h, ops[i])
    ensures Conserves(h, PerformAll(s, ops).manager.engine)
    decreases |ops|
  {
    if ops != [] {
      PerformConserves(h, s, ops[0]);
      RunConserves(h, Perform(s, ops[0]), ops[1..]);
    }
  }

  /** The host is `h` and what the record names: exactly its addresses and leases, no route or resolver
      file beyond it, and nothing of `h` missing or changed. */
  ghost predicate HostPlusRecord(h: Host, host: Host, state: ActiveIpState) {
    var named := TeardownCalls(state);
    && OnlyTakes(host, h, named)
    && (forall a :: a in host.addresses <==> a in h.addresses || RemoveAddress(a) in named)
    && (forall l :: l in host.leases <==> l in h.leases || ReleaseLease(l) in named)
    && (state.dnsOwner.None? ==> host.resolver == h.resolver)
  }

  /** Over every run with no removal refused, in which each request is fresh for the starting host: whenever
      nothing is active the host is the starting one, and otherwise it is that plus what the record names. */
  lemma EveryRunConservesTheHost(s: System, ops: seq<Op>)
    requires Initial(s) && StoresValid(ops) && s.manager.engine.world.removals == []
    requires forall i :: 0 <= i < |ops| ==> FreshFor(s.manager.engine.world.host, ops[i])
    ensures var h, e := s.manager.engine.world.host, PerformAll(s, ops).manager.engine;
            if e.active.None? then e.world.host == h else HostPlusRecord(h, e.world.host, e.active.value.1)
  {
    var h, e := s.manager.engine.world.host, PerformAll(s, ops).manager.engine;
    RunConserves(h, s, ops);
    RunKeepsPresent(s, ops);
    if e.active.Some? {
      var named := TeardownCalls(e.active.value.1);
      IpTeardownMembers(e.active.value.1);
      RemovalsTouchOnlyWhatTheyName(e.world, named);
      RunRemovals(e.world, named);
      DropSets(e.world.host, named);
      if e.active.value.1.dnsOwner.None? {
        assert named == IpTeardown(e.active.value.1);
        DropWithoutDns(e.world.host, named);
      }
    }
  }
}
