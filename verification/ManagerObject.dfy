/** The activation manager as the program runs it (src/connection/activation.rs). */
module ManagerObject {
  import opened Wrappers
  import opened Profiles
  import opened Composite
  import opened Autoconnect
  import opened Manager

  class ActivationManager {
    const engine: LinuxActivationEngine
    var nextId: ActiveConnectionId
    var active: seq<ActiveConnection>
    var events: seq<Event>

    constructor (engine: LinuxActivationEngine)
      ensures this.engine == engine
      ensures nextId == 1 && active == [] && events == []
    {
      this.engine := engine;
      nextId, active, events := 1, [], [];
    }

    ghost function View(): ManagerState
      reads this, engine, engine.supplicant, engine.ip.machine
    {
      ManagerState(engine.View(), nextId, active, events)
    }

    /** Moves one connection and logs the change; an illegal move changes nothing and is reported. */
    method Transition(connection: ActiveConnection, next: ConnectionState)
      returns (moved: ActiveConnection, illegal: bool)
      modifies this`events
      ensures illegal <==> !CanTransition(connection.state, next)
      ensures illegal ==> moved == connection && events == old(events)
      ensures !illegal ==> moved == connection.(state := next) && events == old(events) + [Change(connection, next)]
    {
      if !CanTransition(connection.state, next) {
        return connection, true;
      }
      events := events + [Change(connection, next)];
      return connection.(state := next), false;
    }

    /** Walks the new connection to its final state and tracks it. */
    method Record(
        profile: ConnectionProfile, device: DeviceInfo, fault: Option<EngineFault>, ghost before: ManagerState)
      returns (result: Result<ActiveConnection, ActivationError>)
      requires nextId == before.nextId + 1 && active == before.active
      requires events == before.events + [StateChanged(before.nextId, profile.id, Disconnected, Preparing)]
      modifies this
      ensures var (after, expected) := RecordActivation(before, profile, device, fault);
              && nextId == after.nextId && active == after.active && events == after.events
              && result == expected
    {
      var id := nextId - 1;
      var connection := ActiveConnection(id, profile, device, Preparing);
      var illegal;
      ghost var started := events;
      if fault.None? {
        connection, illegal := Transition(connection, Configuring);
        if illegal { assert false; }
        connection, illegal := Transition(connection, Activating);
        if illegal { assert false; }
        connection, illegal := Transition(connection, Activated);
        if illegal { assert false; }
        events := events + [ActivatedEvent(id, profile.id)];
        result := Success(connection);
      } else {
        connection, illegal := Transition(connection, Failed);
        if illegal { assert false; }
        events := events + [FailedEvent(id, profile.id, fault.value)];
        result := Failure(EngineFailed(fault.value));
      }
      active := active + [connection];
      assert events == started + ActivationEvents(id, profile.id, fault);
    }

    method BringUp(profile: ConnectionProfile, device: DeviceInfo, outside: Outside)
      returns (result: Result<ActiveConnection, ActivationError>)
      modifies this, engine, engine.supplicant, engine.ip.machine
      ensures (View(), result) == ActivateMatching(old(View()), profile, device, outside)
    {
      ghost var before := View();
      var id := nextId;
      nextId := nextId + 1;
      events := events + [StateChanged(id, profile.id, Disconnected, Preparing)];
      var fault := engine.BringUp(profile, device, outside);
      result := Record(profile, device, fault, before.(engine := engine.View()));
    }

    /** Tries the candidates in order and takes the first that fits and is not tracked. */
    method Select(store: Store, device: DeviceInfo) returns (choice: Result<Option<ConnectionProfile>, StoreError>)
      ensures choice == Choose(store, device, TrackedProfiles(active))
    {
      var listed := store.List();
      if listed.Failure? {
        return Failure(listed.error);
      }
      var order := OrderForAutoconnect(listed.value);
      ghost var tracked := TrackedProfiles(active);
      var next := 0;
      while next < |order|
        invariant 0 <= next <= |order|
        invariant FirstSuitable(order, store, device, tracked) == FirstSuitable(order[next..], store, device, tracked)
      {
        var found := store.Get(order[next]);
        if found.Success? && Matches(found.value, device) {
          var busy := IsTracked(found.value.id);
          if !busy {
            return Success(Some(found.value));
          }
        }
        assert order[next..][1..] == order[next + 1..];
        next := next + 1;
      }
      choice := Success(None);
    }

    method ActivateFor(store: Store, device: DeviceInfo, outside: Outside)
      returns (result: Result<ActiveConnection, ActivationError>)
      modifies this, engine, engine.supplicant, engine.ip.machine
      ensures (View(), result) == ActivateBest(old(View()), store, device, outside)
    {
      var choice := Select(store, device);
      if choice.Failure? {
        return Failure(StoreFailed(choice.error));
      }
      if choice.value.None? {
        return Failure(NoSuitableProfile);
      }
      result := BringUp(choice.value.value, device, outside);
    }

    method ActivateNamed(store: Store, profileId: ProfileId, device: DeviceInfo, outside: Outside)
      returns (result: Result<ActiveConnection, ActivationError>)
      modifies this, engine, engine.supplicant, engine.ip.machine
      ensures (View(), result) == ActivateProfile(old(View()), store, profileId, device, outside)
    {
      var found := store.Get(profileId);
      if found.Failure? {
        return Failure(if found.error.NotFound? then ProfileNotFound(profileId) else StoreFailed(found.error));
      }
      if !Matches(found.value, device) {
        return Failure(DeviceIncompatible(profileId));
      }
      var busy := IsTracked(profileId);
      if busy {
        return Failure(AlreadyActive(profileId));
      }
      result := BringUp(found.value, device, outside);
    }

    method IsTracked(profileId: ProfileId) returns (found: bool)
      ensures found <==> profileId in TrackedProfiles(active)
    {
      for i := 0 to |active|
        invariant forall j :: 0 <= j < i ==> active[j].profile.id != profileId
      {
        if active[i].profile.id == profileId {
          return true;
        }
      }
      found := false;
    }

    method FindIndex(id: ActiveConnectionId) returns (i: nat)
      ensures i == Position(active, id)
    {
      i := 0;
      while i < |active| && active[i].id != id
        invariant i <= |active|
        invariant forall j :: 0 <= j < i ==> active[j].id != id
      {
        i := i + 1;
      }
    }

    method TakeDown(id: ActiveConnectionId) returns (error: Option<ActivationError>)
      modifies this, engine, engine.supplicant, engine.ip.machine
      ensures (View(), error) == Deactivate(old(View()), id)
    {
      ghost var before := View();
      var i := FindIndex(id);
      if i == |active| {
        return Some(UnknownActiveConnection(id));
      }
      if !active[i].state.Activated? {
        return Some(InvalidState(id, active[i].state));
      }
      var pid := active[i].profile.id;
      var connection, illegal := Transition(active[i], Deactivating);
      if illegal { assert false; }
      active := active[i := connection];
      var fault := engine.TakeDown(pid);
      error := Conclude(i, fault, before.(engine := engine.View()));
    }

    /** The second half of a deactivation, once the engine has answered. */
    method Conclude(i: nat, fault: Option<EngineFault>, ghost before: ManagerState)
      returns (error: Option<ActivationError>)
      requires i < |before.active| && before.active[i].state.Activated?
      requires active == before.active[i := before.active[i].(state := Deactivating)]
      requires nextId == before.nextId
      requires events == before.events + [Change(before.active[i], Deactivating)]
      modifies this
      ensures var (after, expected) := RecordDeactivation(before, i, fault);
              && nextId == after.nextId && active == after.active && events == after.events
              && error == expected
    {
      ghost var started := events;
      var id, pid := active[i].id, active[i].profile.id;
      if fault.None? {
        var connection, illegal := Transition(active[i], Disconnected);
        if illegal { assert false; }
        active := active[..i] + active[i + 1..];
        events := events + [DeactivatedEvent(id, pid)];
        error := None;
      } else {
        var connection, illegal := Transition(active[i], Failed);
        if illegal { assert false; }
        active := active[i := connection];
        events := events + [FailedEvent(id, pid, fault.value)];
        error := Some(EngineFailed(fault.value));
      }
      assert events == started + DeactivationEvents(id, pid, fault);
    }

    method DrainEvents() returns (taken: seq<Event>)
      modifies this`events
      ensures taken == old(events) && events == []
    {
      taken := events;
      events := [];
    }
  }
}
