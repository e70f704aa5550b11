/** The composite engine: the Wi-Fi link first, then IP (src/linux/activation.rs). */
module Composite {
  import opened Model
  import opened Wrappers
  import opened IpTypes
  import opened Kernel
  import opened Profiles
  import opened Supplicant
  import IpEngine
  import IpEngineObject
  import Rollback
  import SafeFailure

  datatype EngineFault =
    | InProgress | InterfaceNotFound | NothingActive | DifferentProfile
    | LinkFault(link: LinkError)
    | IpFault(ip: IpEngine.EngineError)
    | RollbackFault(failures: seq<EngineFault>)

  /** What the outside answers during one activation. */
  datatype Outside = Outside(
    interfaceIndex: Option<i32>,
    secretFound: bool,
    offer: Option<DhcpLease>,
    show: IpAddr -> string)

  datatype EngineState = EngineState(
    link: LinkState,
    world: World,
    active: Option<(ProfileId, ActiveIpState)>)

  function RequestFor(
      profile: ConnectionProfile, device: DeviceInfo, interfaceIndex: i32, outside: Outside): IpEngine.Request {
    IpEngine.Request(interfaceIndex, profile.ipv4, profile.ipv6,
                     "nmd/" + profile.id + "/" + device.interfaceName, outside.offer, outside.show)
  }

  function EngineUp(e: EngineState, profile: ConnectionProfile, device: DeviceInfo, outside: Outside):
    (EngineState, Option<EngineFault>)
  {
    if e.active.Some? then (e, Some(InProgress))
    else if outside.interfaceIndex.None? then (e, Some(InterfaceNotFound))
    else
      var (linked, linkError) := LinkUp(e.link, profile, device, outside.secretFound);
      if linkError.Some? then (e.(link := linked), Some(LinkFault(linkError.value)))
      else
        var (world, result) :=
          IpEngine.Activate(e.world, RequestFor(profile, device, outside.interfaceIndex.value, outside));
        match result
        case Success(state) => (EngineState(linked, world, Some((profile.id, state))), None)
        case Failure(error) =>
          (EngineState(LinkDown(linked, profile.id).0, world, None), Some(IpFault(error)))
  }

  function Failures(ip: Option<IpEngine.EngineError>, link: Option<LinkError>): seq<EngineFault> {
    (if ip.None? then [] else [IpFault(ip.value)]) + (if link.None? then [] else [LinkFault(link.value)])
  }

  function EngineDown(e: EngineState, profileId: ProfileId): (EngineState, Option<EngineFault>) {
    if e.active.None? then (e, Some(NothingActive))
    else if e.active.value.0 != profileId then (e, Some(DifferentProfile))
    else
      var (world, ipError) := IpEngine.Teardown(e.world, e.active.value.1);
      var (link, linkError) := LinkDown(e.link, profileId);
      var failures := Failures(ipError, linkError);
      (EngineState(link, world, None), if failures == [] then None else Some(RollbackFault(failures)))
  }

  /** The link's record and the engine's record are both empty or name the same profile. */
  predicate Agreeing(e: EngineState) {
    match (e.active, e.link.activeNetwork)
    case (None, None) => true
    case (Some(active), Some(network)) => active.0 == network.0
    case _ => false
  }

  /** Every activation keeps the two records in agreement: set by success, empty after failure
      unless something was already active. */
  lemma EngineUpKeepsAgreement(e: EngineState, profile: ConnectionProfile, device: DeviceInfo, outside: Outside)
    requires Agreeing(e)
    ensures var (after, fault) := EngineUp(e, profile, device, outside);
            && Agreeing(after)
            && (fault.None? ==> e.active.None? && after.active.Some? && after.active.value.0 == profile.id)
            && (fault.Some? ==> after.active == e.active)
  {
  }

  /** Taking the active profile down empties both records whatever fails; any other request changes nothing. */
  lemma EngineDownKeepsAgreement(e: EngineState, profileId: ProfileId)
    requires Agreeing(e)
    ensures var (after, fault) := EngineDown(e, profileId);
            && Agreeing(after)
            && (e.active.Some? && e.active.value.0 == profileId ==> after.active.None?)
            && (!(e.active.Some? && e.active.value.0 == profileId) ==> after == e && fault.Some?)
  {
  }

  /** The activation leaves no registered network: it never gets to the link, or the link leaves none. */
  predicate LeavesNoTrace(e: EngineState, profile: ConnectionProfile, device: DeviceInfo, outside: Outside) {
    || e.active.Some? || outside.interfaceIndex.None?
    || LeavesNoNetwork(e.link, profile, device, outside.secretFound)
  }

  /** The engine after an activation and, if that succeeded, the deactivation of its profile. */
  function UpAndDown(e: EngineState, profile: ConnectionProfile, device: DeviceInfo, outside: Outside): EngineState {
    var (up, fault) := EngineUp(e, profile, device, outside);
    if fault.Some? then up else EngineDown(up, profile.id).0
  }

  /** The supplicant's side: an activation that fails, or is taken down again, leaves the link's record as
      it was, and the registered networks exactly when it leaves no trace. */
  lemma LinkIsUndoneExactly(e: EngineState, profile: ConnectionProfile, device: DeviceInfo, outside: Outside)
    requires Agreeing(e)
    ensures var after := UpAndDown(e, profile, device, outside);
            && after.link.activeNetwork == e.link.activeNetwork
            && (after.link.control.networks == e.link.control.networks <==> LeavesNoTrace(e, profile, device, outside))
  {
    if e.active.None? && outside.interfaceIndex.Some? {
      FailedLinkIsUndoneExactly(e.link, profile, device, outside.secretFound);
      if LinkUp(e.link, profile, device, outside.secretFound).1.None? {
        LinkUpThenDown(e.link, profile, device, outside.secretFound);
      }
    }
  }

  /** The whole stack is all or nothing: on a fresh host with no removal refused, an activation that fails,
      or is taken down again, leaves the host and both records as they were, and the supplicant's networks
      exactly when it leaves no trace. */
  lemma StackIsAllOrNothing(e: EngineState, profile: ConnectionProfile, device: DeviceInfo, outside: Outside)
    requires Agreeing(e) && e.world.removals == []
    requires outside.interfaceIndex.Some?
             ==> Rollback.Fresh(e.world.host, RequestFor(profile, device, outside.interfaceIndex.value, outside))
    ensures var after := UpAndDown(e, profile, device, outside);
            && after.world.host == e.world.host && after.active == e.active
            && after.link.activeNetwork == e.link.activeNetwork
            && (after.link.control.networks == e.link.control.networks <==> LeavesNoTrace(e, profile, device, outside))
  {
    LinkIsUndoneExactly(e, profile, device, outside);
    if e.active.None? && outside.interfaceIndex.Some? {
      var req := RequestFor(profile, device, outside.interfaceIndex.value, outside);
      SafeFailure.FreshActivationIsAllOrNothing(e.world, req);
      Rollback.ActivateThenTeardownIsIdentityExactlyWhenFresh(e.world, req);
    }
  }

  /** The engine object. */
  class LinuxActivationEngine {
    const supplicant: WpaSupplicantActivationEngine
    const ip: IpEngineObject.LinuxIpEngine
    var active: Option<(ProfileId, ActiveIpState)>

    constructor (supplicant: WpaSupplicantActivationEngine, ip: IpEngineObject.LinuxIpEngine)
      ensures this.supplicant == supplicant && this.ip == ip && active == None
    {
      this.supplicant := supplicant;
      this.ip := ip;
      active := None;
    }

    ghost function View(): EngineState
      reads this, supplicant, ip.machine
    {
      EngineState(supplicant.link, ip.machine.world, active)
    }

    method BringUp(
        profile: ConnectionProfile, device: DeviceInfo, outside: Outside) returns (fault: Option<EngineFault>)
      modifies this, supplicant, ip.machine
      ensures (View(), fault) == EngineUp(old(View()), profile, device, outside)
    {
      if active.Some? {
        return Some(InProgress);
      }
      if outside.interfaceIndex.None? {
        return Some(InterfaceNotFound);
      }
      var linkError := supplicant.BringUp(profile, device, outside.secretFound);
      if linkError.Some? {
        return Some(LinkFault(linkError.value));
      }
      var result := ip.Bring(RequestFor(profile, device, outside.interfaceIndex.value, outside));
      match result
      case Success(state) =>
        active := Some((profile.id, state));
        fault := None;
      case Failure(error) =>
        var ignored := supplicant.TakeDown(profile.id);
        fault := Some(IpFault(error));
    }

    method TakeDown(profileId: ProfileId) returns (fault: Option<EngineFault>)
      modifies this, supplicant, ip.machine
      ensures (View(), fault) == EngineDown(old(View()), profileId)
    {
      if active.None? {
        return Some(NothingActive);
      }
      if active.value.0 != profileId {
        return Some(DifferentProfile);
      }
      var state := active.value.1;
      active := None;
      var failures: seq<EngineFault> := [];
      var ipError := ip.TearDown(state);
      if ipError.Some? {
        failures := failures + [IpFault(ipError.value)];
      }
      var linkError := supplicant.TakeDown(profileId);
      if linkError.Some? {
        failures := failures + [LinkFault(linkError.value)];
      }
      assert failures == Failures(ipError, linkError);
      fault := if failures == [] then None else Some(RollbackFault(failures));
    }
  }
}
