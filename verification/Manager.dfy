/** The activation manager: ids, tracked connections and the event log
    (src/connection/activation.rs, src/connection/state.rs). */
module Manager {
  import opened Wrappers
  import opened Profiles
  import opened Composite
  import opened Autoconnect

  // --- The state machine --------------------------------------------------------------------

  datatype ConnectionState =
    | Unknown | Disconnected | Preparing | Configuring | Activating | Activated | Deactivating | Failed

  predicate CanTransition(current: ConnectionState, next: ConnectionState) {
    match current
    case Unknown => next.Disconnected?
    case Disconnected => next.Preparing?
    case Preparing => next.Configuring? || next.Failed?
    case Configuring => next.Activating? || next.Failed?
    case Activating => next.Activated? || next.Failed?
    case Activated => next.Deactivating? || next.Failed?
    case Deactivating => next.Disconnected? || next.Failed?
    case Failed => next.Disconnected?
  }

  type ActiveConnectionId = nat

  datatype Event =
    | StateChanged(id: ActiveConnectionId, profileId: ProfileId, previous: ConnectionState, current: ConnectionState)
    | ActivatedEvent(id: ActiveConnectionId, profileId: ProfileId)
    | DeactivatedEvent(id: ActiveConnectionId, profileId: ProfileId)
    | FailedEvent(id: ActiveConnectionId, profileId: ProfileId, reason: EngineFault)

  datatype ActiveConnection = ActiveConnection(
    id: ActiveConnectionId,
    profile: ConnectionProfile,
    device: DeviceInfo,
    state: ConnectionState)

  datatype ActivationError =
    | ProfileNotFound(missing: ProfileId)
    | DeviceIncompatible(incompatible: ProfileId)
    | NoSuitableProfile
    | AlreadyActive(profileId: ProfileId)
    | UnknownActiveConnection(unknown: ActiveConnectionId)
    | InvalidState(id: ActiveConnectionId, from: ConnectionState)
    | StoreFailed(store: StoreError)
    | EngineFailed(fault: EngineFault)

  // --- The manager's operations ------------------------------------------------------------------

  datatype ManagerState = ManagerState(
    engine: EngineState,
    nextId: ActiveConnectionId,
    active: seq<ActiveConnection>,
    events: seq<Event>)

  function Change(c: ActiveConnection, next: ConnectionState): Event {
    StateChanged(c.id, c.profile.id, c.state, next)
  }

  function TrackedProfiles(active: seq<ActiveConnection>): set<ProfileId> {
    set i | 0 <= i < |active| :: active[i].profile.id
  }

  /** The events of one activation, after the step into `Preparing`. */
  function ActivationEvents(id: ActiveConnectionId, pid: ProfileId, fault: Option<EngineFault>): seq<Event> {
    if fault.None? then
      [StateChanged(id, pid, Preparing, Configuring), StateChanged(id, pid, Configuring, Activating),
       StateChanged(id, pid, Activating, Activated), ActivatedEvent(id, pid)]
    else
      [StateChanged(id, pid, Preparing, Failed), FailedEvent(id, pid, fault.value)]
  }

  /** Everything but the engine: the new entry and the events, given how the engine answered. */
  function RecordActivation(
      m: ManagerState, profile: ConnectionProfile, device: DeviceInfo, fault: Option<EngineFault>):
    (ManagerState, Result<ActiveConnection, ActivationError>)
  {
    var id := m.nextId;
    var connection := ActiveConnection(id, profile, device, if fault.None? then Activated else Failed);
    var events := m.events + [StateChanged(id, profile.id, Disconnected, Preparing)]
                  + ActivationEvents(id, profile.id, fault);
    (m.(nextId := id + 1, active := m.active + [connection], events := events),
     if fault.None? then Success(connection) else Failure(EngineFailed(fault.value)))
  }

  function ActivateMatching(m: ManagerState, profile: ConnectionProfile, device: DeviceInfo, outside: Outside):
    (ManagerState, Result<ActiveConnection, ActivationError>)
  {
    var (engine, fault) := EngineUp(m.engine, profile, device, outside);
    RecordActivation(m.(engine := engine), profile, device, fault)
  }

  function ActivateBest(m: ManagerState, store: Store, device: DeviceInfo, outside: Outside):
    (ManagerState, Result<ActiveConnection, ActivationError>)
  {
    match Choose(store, device, TrackedProfiles(m.active))
    case Failure(error) => (m, Failure(StoreFailed(error)))
    case Success(None) => (m, Failure(NoSuitableProfile))
    case Success(Some(profile)) => ActivateMatching(m, profile, device, outside)
  }

  function ActivateProfile(m: ManagerState, store: Store, profileId: ProfileId, device: DeviceInfo, outside: Outside):
    (ManagerState, Result<ActiveConnection, ActivationError>)
  {
    match store.Get(profileId)
    case Failure(NotFound) => (m, Failure(ProfileNotFound(profileId)))
    case Failure(other) => (m, Failure(StoreFailed(other)))
    case Success(profile) =>
      if !Matches(profile, device) then (m, Failure(DeviceIncompatible(profileId)))
      else if profileId in TrackedProfiles(m.active) then (m, Failure(AlreadyActive(profileId)))
      else ActivateMatching(m, profile, device, outside)
  }

  /** The position of a tracked connection, or the number of connections if there is none. */
  function Position(active: seq<ActiveConnection>, id: ActiveConnectionId): (i: nat)
    ensures i <= |active|
    ensures i < |active| ==> active[i].id == id
    ensures forall j :: 0 <= j < i ==> active[j].id != id
  {
    if active == [] then 0
    else if active[0].id == id then 0
    else 1 + Position(active[1..], id)
  }

  /** The last two events of a deactivation. */
  function DeactivationEvents(id: ActiveConnectionId, pid: ProfileId, fault: Option<EngineFault>): seq<Event> {
    if fault.None? then [StateChanged(id, pid, Deactivating, Disconnected), DeactivatedEvent(id, pid)]
    else [StateChanged(id, pid, Deactivating, Failed), FailedEvent(id, pid, fault.value)]
  }

  function RecordDeactivation(
      m: ManagerState, i: nat, fault: Option<EngineFault>): (ManagerState, Option<ActivationError>)
    requires i < |m.active|
  {
    var id, pid := m.active[i].id, m.active[i].profile.id;
    var events := m.events + [StateChanged(id, pid, Activated, Deactivating)] + DeactivationEvents(id, pid, fault);
    if fault.None? then
      (m.(active := m.active[..i] + m.active[i + 1..], events := events), None)
    else
      (m.(active := m.active[i := m.active[i].(state := Failed)], events := events), Some(EngineFailed(fault.value)))
  }

  function Deactivate(m: ManagerState, id: ActiveConnectionId): (ManagerState, Option<ActivationError>) {
    var i := Position(m.active, id);
    if i == |m.active| then (m, Some(UnknownActiveConnection(id)))
    else if !m.active[i].state.Activated? then (m, Some(InvalidState(id, m.active[i].state)))
    else
      var (engine, fault) := EngineDown(m.engine, m.active[i].profile.id);
      RecordDeactivation(m.(engine := engine), i, fault)
  }

  // --- Runs ----------------------------------------------------------------------------------------

  datatype Op =
    | BestOp(store: Store, device: DeviceInfo, outside: Outside)
    | ProfileOp(store: Store, profileId: ProfileId, device: DeviceInfo, outside: Outside)
    | DeactivateOp(id: ActiveConnectionId)
    | DrainOp

  /** A manager together with every event it has handed out so far. */
  datatype System = System(manager: ManagerState, drained: seq<Event>)

  function History(s: System): seq<Event> {
    s.drained + s.manager.events
  }

  function Perform(s: System, op: Op): System {
    match op
    case BestOp(store, device, outside) => s.(manager := ActivateBest(s.manager, store, device, outside).0)
    case ProfileOp(store, id, device, outside) =>
      s.(manager := ActivateProfile(s.manager, store, id, device, outside).0)
    case DeactivateOp(id) => s.(manager := Deactivate(s.manager, id).0)
    case DrainOp => System(s.manager.(events := []), s.drained + s.manager.events)
  }

  function PerformAll(s: System, ops: seq<Op>): System
    decreases |ops|
  {
    if ops == [] then s else PerformAll(Perform(s, ops[0]), ops[1..])
  }

  ghost predicate StoresValid(ops: seq<Op>) {
    forall i :: 0 <= i < |ops| && (ops[i].BestOp? || ops[i].ProfileOp?) ==> ops[i].store.Valid()
  }

  /** A new manager over an engine that has nothing active. */
  predicate Initial(s: System) {
    && s.manager.nextId == 1 && s.manager.active == [] && s.manager.events == [] && s.drained == []
    && s.manager.engine.active.None? && s.manager.engine.link.activeNetwork.None?
  }
}
