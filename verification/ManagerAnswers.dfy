/** What each manager call answers, tracks, logs and brings up, in terms of the engine's answer. */
module ManagerAnswers {
  import opened Model
  import opened Wrappers
  import opened IpTypes
  import opened Profiles
  import opened Supplicant
  import opened Composite
  import opened Autoconnect
  import opened Manager
  import ActivationEffect
  import IpEngine

  // --- The engine underneath ---------------------------------------------------------------------------

  /** The IP request of a profile on an interface. */
  function Asked(profile: ConnectionProfile, device: DeviceInfo, interfaceIndex: i32, outside: Outside):
    IpEngine.Request
  {
    IpEngine.Request(interfaceIndex, profile.ipv4, profile.ipv6,
                     "nmd/" + profile.id + "/" + device.interfaceName, outside.offer, outside.show)
  }

  /** What an engine that comes up without a fault has done: it was idle, the device's link is associated for
      the profile on the network it registered and selected, and the host is configured as the profile asks. */
  lemma EngineUpDoesWhatTheProfileAsks(e: EngineState, profile: ConnectionProfile, device: DeviceInfo, outside: Outside)
    requires EngineUp(e, profile, device, outside).1.None?
    ensures var up := EngineUp(e, profile, device, outside).0;
            && e.active.None? && outside.interfaceIndex.Some?
            && profile.connectionType.Wifi? && e.link.control.ifname == device.interfaceName
            && up.active.Some? && up.active.value.0 == profile.id
            && up.link.activeNetwork.Some? && up.link.activeNetwork.value.0 == profile.id
            && up.link.control.selected == Some(up.link.activeNetwork.value.1)
            && up.link.control.networks == e.link.control.networks + {up.link.activeNetwork.value.1}
            && (var req := Asked(profile, device, outside.interfaceIndex.value, outside);
                ActivationEffect.WellFormed(req) && ActivationEffect.Configured(e.world.host, up.world.host, req))
  {
    var req := RequestFor(profile, device, outside.interfaceIndex.value, outside);
    assert req == Asked(profile, device, outside.interfaceIndex.value, outside);
    AssociatedIsSelected(e.link, profile, device, outside.secretFound);
    ActivationEffect.SuccessConfiguresTheHost(e.world, req);
  }

  /** Every way in which bringing the engine up is refused or fails, and taking it down. */
  lemma EngineFaults(e: EngineState, profile: ConnectionProfile, device: DeviceInfo, outside: Outside, id: ProfileId)
    ensures var fault := EngineUp(e, profile, device, outside).1;
            if e.active.Some? then fault == Some(InProgress)
            else if outside.interfaceIndex.None? then fault == Some(InterfaceNotFound)
            else
              var link := LinkUp(e.link, profile, device, outside.secretFound).1;
              if link.Some? then fault == Some(LinkFault(link.value))
              else
                var ip := IpEngine.Activate(e.world, Asked(profile, device, outside.interfaceIndex.value, outside)).1;
                fault == if ip.Failure? then Some(IpFault(ip.error)) else None
    ensures var fault := EngineDown(e, id).1;
            if e.active.None? then fault == Some(NothingActive)
            else if e.active.value.0 != id then fault == Some(DifferentProfile)
            else
              var ip, link := IpEngine.Teardown(e.world, e.active.value.1).1, LinkDown(e.link, id).1;
              && (fault.None? <==> ip.None? && link.None?)
              && (ip.Some? && link.Some? ==> fault == Some(RollbackFault([IpFault(ip.value), LinkFault(link.value)])))
              && (ip.Some? && link.None? ==> fault == Some(RollbackFault([IpFault(ip.value)])))
              && (ip.None? && link.Some? ==> fault == Some(RollbackFault([LinkFault(link.value)])))
  {
    if e.active.Some? && e.active.value.0 == id {
      ListedFailures(IpEngine.Teardown(e.world, e.active.value.1).1, LinkDown(e.link, id).1);
    }
  }

  lemma ListedFailures(ip: Option<IpEngine.EngineError>, link: Option<LinkError>)
    ensures Failures(ip, link)
            == if ip.Some? && link.Some? then [IpFault(ip.value), LinkFault(link.value)]
               else if ip.Some? then [IpFault(ip.value)]
               else if link.Some? then [LinkFault(link.value)]
               else []
  {
  }

  /** The request of a valid profile is well-formed as soon as a lease, if one is needed, has a prefix that fits. */
  lemma ValidProfilesAskWell(profile: ConnectionProfile, device: DeviceInfo, interfaceIndex: i32, outside: Outside)
    requires Validate(profile).None?
    ensures ActivationEffect.WellFormed(Asked(profile, device, interfaceIndex, outside))
            <==> (profile.ipv4.ipMethod.Automatic? ==> outside.offer.Some? && outside.offer.value.prefixLength <= 32)
  {
    ValidExactly(profile);
  }

  // --- What is logged -------------------------------------------------------------------------------------

  /** A call adds state changes of one connection and then exactly one closing event. */
  ghost predicate Logged(
      before: seq<Event>, after: seq<Event>, id: ActiveConnectionId, profileId: ProfileId, closing: Event)
  {
    && before <= after && |after| > |before| && after[|after| - 1] == closing && !closing.StateChanged?
    && closing.id == id && closing.profileId == profileId
    && (forall i :: |before| <= i < |after| - 1 ==>
          after[i].StateChanged? && after[i].id == id && after[i].profileId == profileId)
  }

  // --- Activations -------------------------------------------------------------------------------------------

  /** How an activation ends once the engine has answered with `fault`. */
  ghost predicate Answered(
      m: ManagerState, after: ManagerState, result: Result<ActiveConnection, ActivationError>,
      profile: ConnectionProfile, device: DeviceInfo, engine: EngineState, fault: Option<EngineFault>)
  {
    && after.engine == engine && after.nextId == m.nextId + 1
    && |after.active| == |m.active| + 1 && m.active <= after.active
    && (var c := after.active[|m.active|];
        && c.id == m.nextId && c.profile == profile && c.device == device
        && (if fault.None? then
              && result == Success(c) && c.state.Activated?
              && Logged(m.events, after.events, c.id, profile.id, ActivatedEvent(c.id, profile.id))
            else
              && result == Failure(EngineFailed(fault.value)) && c.state.Failed?
              && Logged(m.events, after.events, c.id, profile.id, FailedEvent(c.id, profile.id, fault.value))))
  }

  ghost predicate Refused(
      m: ManagerState, after: ManagerState, result: Result<ActiveConnection, ActivationError>, error: ActivationError)
  {
    after == m && result == Failure(error)
  }

  lemma MatchingAnswers(m: ManagerState, profile: ConnectionProfile, device: DeviceInfo, outside: Outside)
    ensures var (after, result) := ActivateMatching(m, profile, device, outside);
            var (engine, fault) := EngineUp(m.engine, profile, device, outside);
            Answered(m, after, result, profile, device, engine, fault)
  {
  }

  predicate IsTracked(m: ManagerState, id: ProfileId) {
    exists i :: 0 <= i < |m.active| && m.active[i].profile.id == id
  }

  /** Activating a profile by id, in every state: the refusals in their order, each without effect, and
      otherwise the engine's answer, with the new entry and the events that go with it. */
  lemma ActivateProfileAnswers(m: ManagerState, store: Store, id: ProfileId, device: DeviceInfo, outside: Outside)
    ensures var (after, result) := ActivateProfile(m, store, id, device, outside);
            var found := store.Get(id);
            if found == Failure(NotFound) then Refused(m, after, result, ProfileNotFound(id))
            else if found.Failure? then Refused(m, after, result, StoreFailed(found.error))
            else if !Matches(found.value, device) then Refused(m, after, result, DeviceIncompatible(id))
            else if IsTracked(m, id) then Refused(m, after, result, AlreadyActive(id))
            else
              var (engine, fault) := EngineUp(m.engine, found.value, device, outside);
              Answered(m, after, result, found.value, device, engine, fault)
  {
    if store.Get(id).Success? {
      MatchingAnswers(m, store.Get(id).value, device, outside);
    }
  }

  /** Automatic activation, in every state: a store that cannot be listed and a store without a usable
      profile are refused without effect; otherwise the engine's answer for the winning profile. */
  lemma ActivateBestAnswers(m: ManagerState, store: Store, device: DeviceInfo, outside: Outside)
    requires store.Valid()
    ensures var (after, result) := ActivateBest(m, store, device, outside);
            var tracked := TrackedProfiles(m.active);
            if store.List().Failure? then Refused(m, after, result, StoreFailed(store.List().error))
            else if forall q :: !Usable(q, store, device, tracked) then Refused(m, after, result, NoSuitableProfile)
            else
              exists p :: && Usable(p, store, device, tracked)
                          && (forall q :: Usable(q, store, device, tracked) && q != p ==> Wins(p, q))
                          && (var (engine, fault) := EngineUp(m.engine, p, device, outside);
                              Answered(m, after, result, p, device, engine, fault))
  {
    var tracked := TrackedProfiles(m.active);
    if store.List().Success? {
      var choice := Choose(store, device, tracked).value;
      if choice.Some? {
        ChoosesTheWinner(store, device, tracked, choice.value);
        MatchingAnswers(m, choice.value, device, outside);
      } else if p: ConnectionProfile :| Usable(p, store, device, tracked) {
        ChoosesTheWinner(store, device, tracked, p);
        assert false;
      }
    }
  }

  // --- Deactivations ------------------------------------------------------------------------------------------

  /** Deactivating, in every state with distinct ids: unknown and non-activated ids are refused without effect.
      Otherwise the engine's answer decides: the entry goes and its closing event is logged, or it stays as
      failed with the fault; no other entry changes. */
  lemma DeactivateAnswers(m: ManagerState, id: ActiveConnectionId, k: nat)
    requires k < |m.active| && m.active[k].id == id
    requires forall i :: 0 <= i < |m.active| && i != k ==> m.active[i].id != id
    ensures var (after, error) := Deactivate(m, id);
            var c := m.active[k];
            if !c.state.Activated? then after == m && error == Some(InvalidState(id, c.state))
            else
              var (engine, fault) := EngineDown(m.engine, c.profile.id);
              && after.engine == engine && after.nextId == m.nextId
              && (if fault.None? then
                    && error.None? && after.active == m.active[..k] + m.active[k + 1..]
                    && Logged(m.events, after.events, id, c.profile.id, DeactivatedEvent(id, c.profile.id))
                  else
                    && error == Some(EngineFailed(fault.value))
                    && after.active == m.active[k := c.(state := Failed)]
                    && Logged(m.events, after.events, id, c.profile.id, FailedEvent(id, c.profile.id, fault.value)))
  {
    assert Position(m.active, id) == k;
  }

  lemma DeactivateUnknown(m: ManagerState, id: ActiveConnectionId)
    requires forall i :: 0 <= i < |m.active| ==> m.active[i].id != id
    ensures Deactivate(m, id) == (m, Some(UnknownActiveConnection(id)))
  {
  }

  // --- The state machine ---------------------------------------------------------------------------------------

  /** Exactly these steps are legal. */
  lemma LegalSteps(current: ConnectionState, next: ConnectionState)
    ensures CanTransition(current, next)
            <==> (current, next) in {
                   (Unknown, Disconnected), (Disconnected, Preparing),
                   (Preparing, Configuring), (Preparing, Failed), (Configuring, Activating), (Configuring, Failed),
                   (Activating, Activated), (Activating, Failed), (Activated, Deactivating), (Activated, Failed),
                   (Deactivating, Disconnected), (Deactivating, Failed), (Failed, Disconnected)}
  {
  }
}
