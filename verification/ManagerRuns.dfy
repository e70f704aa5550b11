/** What every run of manager calls keeps, whatever the backends answer. */
module ManagerRuns {
  import opened Wrappers
  import opened Profiles
  import opened Composite
  import opened Autoconnect
  import opened Manager

  // --- What every run keeps: the records ---------------------------------------------------------------

  predicate Up(c: ActiveConnection) {
    c.state.Activated?
  }

  /** The three layers agree: the engine's two records match, and exactly the profile they name is
      tracked as activated. */
  ghost predicate LayersAgree(m: ManagerState) {
    && Agreeing(m.engine)
    && (forall i :: 0 <= i < |m.active| ==> m.active[i].state.Activated? || m.active[i].state.Failed?)
    && (forall i :: 0 <= i < |m.active| && Up(m.active[i]) ==>
          m.engine.active.Some? && m.engine.active.value.0 == m.active[i].profile.id)
    && (forall i, j :: 0 <= i < j < |m.active| ==> !(Up(m.active[i]) && Up(m.active[j])))
    && (m.engine.active.Some? ==> exists i :: 0 <= i < |m.active| && Up(m.active[i]))
  }

  /** Ids grow and are never used twice; no profile is tracked twice. */
  ghost predicate IdsFresh(m: ManagerState) {
    && (forall i :: 0 <= i < |m.active| ==> m.active[i].id < m.nextId)
    && (forall i, j :: 0 <= i < j < |m.active| ==> m.active[i].id < m.active[j].id)
    && (forall i, j :: 0 <= i < j < |m.active| ==> m.active[i].profile.id != m.active[j].profile.id)
  }

  lemma AppendKeepsIds(m: ManagerState, c: ActiveConnection)
    requires IdsFresh(m) && c.id == m.nextId && c.profile.id !in TrackedProfiles(m.active)
    ensures IdsFresh(m.(nextId := c.id + 1, active := m.active + [c]))
  {
    forall i | 0 <= i < |m.active| ensures m.active[i].profile.id != c.profile.id {
      assert m.active[i].profile.id in TrackedProfiles(m.active);
    }
  }

  lemma AppendKeepsLayers(m: ManagerState, engine: EngineState, c: ActiveConnection)
    requires LayersAgree(m) && Agreeing(engine) && (c.state.Activated? || c.state.Failed?)
    requires Up(c) ==> m.engine.active.None? && engine.active.Some? && engine.active.value.0 == c.profile.id
    requires !Up(c) ==> engine.active == m.engine.active
    ensures LayersAgree(m.(engine := engine, active := m.active + [c]))
  {
    var all := m.active + [c];
    assert all[|m.active|] == c;
    if m.engine.active.Some? {
      var i :| 0 <= i < |m.active| && Up(m.active[i]);
      assert Up(all[i]);
    }
  }

  lemma ActivateMatchingKeepsLayers(m: ManagerState, profile: ConnectionProfile, device: DeviceInfo, outside: Outside)
    requires LayersAgree(m) && IdsFresh(m) && profile.id !in TrackedProfiles(m.active)
    ensures LayersAgree(ActivateMatching(m, profile, device, outside).0)
    ensures IdsFresh(ActivateMatching(m, profile, device, outside).0)
  {
    EngineUpKeepsAgreement(m.engine, profile, device, outside);
    var (engine, fault) := EngineUp(m.engine, profile, device, outside);
    var c := ActiveConnection(m.nextId, profile, device, if fault.None? then Activated else Failed);
    AppendKeepsLayers(m, engine, c);
    AppendKeepsIds(m, c);
  }

  /** Taking out one element keeps any relation that holds between all earlier and later ones. */
  lemma RemovalKeepsIds(m: ManagerState, i: nat)
    requires i < |m.active| && IdsFresh(m)
    ensures IdsFresh(m.(active := m.active[..i] + m.active[i + 1..]))
  {
    var after := m.active[..i] + m.active[i + 1..];
    forall j, k | 0 <= j < k < |after|
      ensures after[j].id < after[k].id && after[j].profile.id != after[k].profile.id
    {
      var j', k' := if j < i then j else j + 1, if k < i then k else k + 1;
      assert after[j] == m.active[j'] && after[k] == m.active[k'] && j' < k';
    }
    forall j | 0 <= j < |after| ensures after[j].id < m.nextId {
      assert after[j] == m.active[if j < i then j else j + 1];
    }
  }

  lemma UpdateKeepsIds(m: ManagerState, i: nat, state: ConnectionState)
    requires i < |m.active| && IdsFresh(m)
    ensures IdsFresh(m.(active := m.active[i := m.active[i].(state := state)]))
  {
  }

  lemma DeactivateKeepsLayers(m: ManagerState, id: ActiveConnectionId)
    requires LayersAgree(m) && IdsFresh(m)
    ensures LayersAgree(Deactivate(m, id).0)
    ensures IdsFresh(Deactivate(m, id).0)
  {
    var i := Position(m.active, id);
    if i < |m.active| && Up(m.active[i]) {
      var pid := m.active[i].profile.id;
      EngineDownKeepsAgreement(m.engine, pid);
      var engine := EngineDown(m.engine, pid).0;
      RecordDeactivationKeepsLayers(m, engine, i, EngineDown(m.engine, pid).1);
    }
  }

  lemma RecordDeactivationKeepsLayers(m: ManagerState, engine: EngineState, i: nat, fault: Option<EngineFault>)
    requires LayersAgree(m) && IdsFresh(m) && i < |m.active| && Up(m.active[i])
    requires Agreeing(engine) && engine.active.None?
    ensures LayersAgree(RecordDeactivation(m.(engine := engine), i, fault).0)
    ensures IdsFresh(RecordDeactivation(m.(engine := engine), i, fault).0)
  {
    var after := RecordDeactivation(m.(engine := engine), i, fault).0;
    forall j | 0 <= j < |m.active| && j != i ensures m.active[j].state.Failed? {
      assert !(Up(m.active[if i < j then i else j]) && Up(m.active[if i < j then j else i]));
    }
    if fault.None? {
      RemovalKeepsIds(m.(engine := engine), i);
      forall j | 0 <= j < |after.active| ensures after.active[j].state.Failed? {
        assert after.active[j] == m.active[if j < i then j else j + 1];
      }
    } else {
      UpdateKeepsIds(m.(engine := engine), i, Failed);
    }
  }

  // --- What every run keeps: the history ------------------------------------------------------------------

  /** One event advances the walk of `id`: a change must start where the walk stands and be legal,
      and a notice must fit the state reached. `None` is an illegal walk. */
  function Advance(state: Option<ConnectionState>, event: Event, id: ActiveConnectionId): Option<ConnectionState> {
    if state.None? || event.id != id then state
    else match event
      case StateChanged(_, _, previous, current) =>
        if previous == state.value && CanTransition(previous, current) then Some(current) else None
      case ActivatedEvent(_, _) => if state.value.Activated? then state else None
      case DeactivatedEvent(_, _) => if state.value.Disconnected? then state else None
      case FailedEvent(_, _, _) => if state.value.Failed? then state else None
  }

  /** Where the events of `id` lead, starting from `Disconnected`. */
  function Walk(events: seq<Event>, id: ActiveConnectionId): Option<ConnectionState> {
    if events == [] then Some(Disconnected)
    else Advance(Walk(events[..|events| - 1], id), events[|events| - 1], id)
  }

  lemma WalkOneMore(events: seq<Event>, event: Event, id: ActiveConnectionId)
    ensures Walk(events + [event], id) == Advance(Walk(events, id), event, id)
  {
    assert (events + [event])[..|events|] == events;
  }

  /** The tracked state of an id; an id that is not tracked is disconnected. */
  function TrackedState(active: seq<ActiveConnection>, id: ActiveConnectionId): ConnectionState {
    var i := Position(active, id);
    if i < |active| then active[i].state else Disconnected
  }

  /** Each id's events are a legal walk from `Disconnected` to its tracked state, and no event
      mentions an id that has not been allocated. */
  ghost predicate HistoryLegal(s: System) {
    && (forall id :: Walk(History(s), id) == Some(TrackedState(s.manager.active, id)))
    && (forall e :: e in History(s) ==> e.id < s.manager.nextId)
  }

  lemma {:induction false} PositionIsUnique(active: seq<ActiveConnection>, i: nat)
    requires i < |active|
    requires forall j :: 0 <= j < i ==> active[j].id != active[i].id
    ensures Position(active, active[i].id) == i
  {
  }

  lemma SuccessWalk(history: seq<Event>, id: ActiveConnectionId, pid: ProfileId, other: ActiveConnectionId)
    requires Walk(history, id) == Some(Preparing)
    ensures Walk(history + ActivationEvents(id, pid, None), other)
            == if other == id then Some(Activated) else Walk(history, other)
  {
    var events := ActivationEvents(id, pid, None);
    var h1 := history + [events[0]];
    var h2 := h1 + [events[1]];
    var h3 := h2 + [events[2]];
    WalkOneMore(history, events[0], other);
    WalkOneMore(h1, events[1], other);
    WalkOneMore(h2, events[2], other);
    WalkOneMore(h3, events[3], other);
    assert h3 + [events[3]] == history + events;
  }

  lemma FailureWalk(
      history: seq<Event>, id: ActiveConnectionId, pid: ProfileId, fault: EngineFault, other: ActiveConnectionId)
    requires Walk(history, id) == Some(Preparing)
    ensures Walk(history + ActivationEvents(id, pid, Some(fault)), other)
            == if other == id then Some(Failed) else Walk(history, other)
  {
    var events := ActivationEvents(id, pid, Some(fault));
    var h1 := history + [events[0]];
    WalkOneMore(history, events[0], other);
    WalkOneMore(h1, events[1], other);
    assert h1 + [events[1]] == history + events;
  }

  lemma ActivationWalk(
      history: seq<Event>, id: ActiveConnectionId, pid: ProfileId,
      fault: Option<EngineFault>, other: ActiveConnectionId)
    requires Walk(history, id) == Some(Disconnected)
    ensures var after := history + [StateChanged(id, pid, Disconnected, Preparing)] + ActivationEvents(id, pid, fault);
            Walk(after, other) == if other == id then Some(if fault.None? then Activated else Failed)
                                  else Walk(history, other)
  {
    var first := StateChanged(id, pid, Disconnected, Preparing);
    WalkOneMore(history, first, id);
    WalkOneMore(history, first, other);
    if fault.None? {
      SuccessWalk(history + [first], id, pid, other);
    } else {
      FailureWalk(history + [first], id, pid, fault.value, other);
    }
  }

  lemma TrackedAfterAppend(active: seq<ActiveConnection>, c: ActiveConnection, id: ActiveConnectionId)
    requires forall i :: 0 <= i < |active| ==> active[i].id != c.id
    ensures TrackedState(active + [c], id) == if id == c.id then c.state else TrackedState(active, id)
  {
    var all := active + [c];
    var i := Position(active, id);
    if i < |active| {
      assert all[i] == active[i];
      forall j | 0 <= j < i ensures all[j].id != id { assert all[j] == active[j]; }
      PositionIsUnique(all, i);
    } else if id == c.id {
      assert all[|active|] == c;
      forall j | 0 <= j < |active| ensures all[j].id != id { assert all[j] == active[j]; }
      PositionIsUnique(all, |active|);
    }
  }

  lemma ActivateMatchingKeepsHistory(s: System, profile: ConnectionProfile, device: DeviceInfo, outside: Outside)
    requires HistoryLegal(s) && IdsFresh(s.manager)
    ensures HistoryLegal(s.(manager := ActivateMatching(s.manager, profile, device, outside).0))
  {
    var (engine, fault) := EngineUp(s.manager.engine, profile, device, outside);
    RecordActivationKeepsHistory(s, engine, profile, device, fault);
  }

  lemma RecordActivationKeepsHistory(
      s: System, engine: EngineState, profile: ConnectionProfile, device: DeviceInfo, fault: Option<EngineFault>)
    requires HistoryLegal(s) && IdsFresh(s.manager)
    ensures HistoryLegal(s.(manager := RecordActivation(s.manager.(engine := engine), profile, device, fault).0))
  {
    var m, id := s.manager, s.manager.nextId;
    var after := RecordActivation(m.(engine := engine), profile, device, fault).0;
    var next := s.(manager := after);
    var first := StateChanged(id, profile.id, Disconnected, Preparing);
    assert History(next) == History(s) + [first] + ActivationEvents(id, profile.id, fault);
    assert Position(m.active, id) == |m.active|;
    forall other ensures Walk(History(next), other) == Some(TrackedState(after.active, other)) {
      ActivationWalk(History(s), id, profile.id, fault, other);
      TrackedAfterAppend(m.active, after.active[|m.active|], other);
    }
  }

  lemma DeactivationWalk(
      history: seq<Event>, id: ActiveConnectionId, pid: ProfileId,
      fault: Option<EngineFault>, other: ActiveConnectionId)
    requires Walk(history, id) == Some(Activated)
    ensures var after := history + [StateChanged(id, pid, Activated, Deactivating)]
                         + DeactivationEvents(id, pid, fault);
            Walk(after, other) == if other == id then Some(if fault.None? then Disconnected else Failed)
                                  else Walk(history, other)
  {
    var events := DeactivationEvents(id, pid, fault);
    var h1 := history + [StateChanged(id, pid, Activated, Deactivating)];
    var h2 := h1 + [events[0]];
    WalkOneMore(history, StateChanged(id, pid, Activated, Deactivating), other);
    WalkOneMore(h1, events[0], other);
    WalkOneMore(h2, events[1], other);
    assert h2 + [events[1]] == h1 + events;
  }

  lemma TrackedAfterUpdate(active: seq<ActiveConnection>, i: nat, state: ConnectionState, id: ActiveConnectionId)
    requires i < |active| && Position(active, active[i].id) == i
    ensures TrackedState(active[i := active[i].(state := state)], id)
            == if id == active[i].id then state else TrackedState(active, id)
  {
    var all := active[i := active[i].(state := state)];
    var k := Position(active, id);
    if k < |active| {
      PositionIsUnique(all, k);
    }
  }

  lemma TrackedAfterRemoval(active: seq<ActiveConnection>, i: nat, id: ActiveConnectionId)
    requires i < |active|
    requires forall j, k :: 0 <= j < k < |active| ==> active[j].id != active[k].id
    ensures TrackedState(active[..i] + active[i + 1..], id)
            == if id == active[i].id then Disconnected else TrackedState(active, id)
  {
    var all := active[..i] + active[i + 1..];
    assert forall j :: 0 <= j < i ==> all[j] == active[j];
    assert forall j :: i <= j < |all| ==> all[j] == active[j + 1];
    var k := Position(active, id);
    if k < |active| && k != i {
      var moved := if k < i then k else k - 1;
      assert all[moved] == active[k];
      PositionIsUnique(all, moved);
    }
  }

  lemma DeactivateKeepsHistory(s: System, id: ActiveConnectionId)
    requires HistoryLegal(s) && IdsFresh(s.manager)
    ensures HistoryLegal(s.(manager := Deactivate(s.manager, id).0))
  {
    var i := Position(s.manager.active, id);
    if i < |s.manager.active| && Up(s.manager.active[i]) {
      var (engine, fault) := EngineDown(s.manager.engine, s.manager.active[i].profile.id);
      RecordDeactivationKeepsHistory(s, engine, i, fault);
    }
  }

  lemma RecordDeactivationKeepsHistory(s: System, engine: EngineState, i: nat, fault: Option<EngineFault>)
    requires HistoryLegal(s) && IdsFresh(s.manager)
    requires i < |s.manager.active| && Up(s.manager.active[i])
    ensures HistoryLegal(s.(manager := RecordDeactivation(s.manager.(engine := engine), i, fault).0))
  {
    var m := s.manager;
    var id, pid := m.active[i].id, m.active[i].profile.id;
    var after := RecordDeactivation(m.(engine := engine), i, fault).0;
    var next := s.(manager := after);
    var added := [StateChanged(id, pid, Activated, Deactivating)] + DeactivationEvents(id, pid, fault);
    assert History(next) == History(s) + added;
    assert History(s) + added
           == History(s) + [StateChanged(id, pid, Activated, Deactivating)] + DeactivationEvents(id, pid, fault);
    PositionIsUnique(m.active, i);
    assert Walk(History(s), id) == Some(Activated);
    forall other ensures Walk(History(next), other) == Some(TrackedState(after.active, other)) {
      DeactivationWalk(History(s), id, pid, fault, other);
      if fault.None? {
        TrackedAfterRemoval(m.active, i, other);
      } else {
        TrackedAfterUpdate(m.active, i, Failed, other);
      }
    }
  }

  // --- Results over whole runs ----------------------------------------------------------------------------

  ghost predicate Consistent(s: System) {
    LayersAgree(s.manager) && IdsFresh(s.manager) && HistoryLegal(s)
  }

  lemma ChosenIsUntracked(m: ManagerState, store: Store, device: DeviceInfo)
    requires store.Valid()
    ensures var choice := Choose(store, device, TrackedProfiles(m.active));
            choice.Success? && choice.value.Some? ==> choice.value.value.id !in TrackedProfiles(m.active)
  {
    var choice := Choose(store, device, TrackedProfiles(m.active));
    if choice.Success? && choice.value.Some? {
      ChoosesTheBest(store, device, TrackedProfiles(m.active), choice.value.value);
    }
  }

  ghost predicate Extends(s: System, next: System) {
    Consistent(next) && History(s) <= History(next) && s.manager.nextId <= next.manager.nextId
  }

  lemma ActivateMatchingExtends(s: System, profile: ConnectionProfile, device: DeviceInfo, outside: Outside)
    requires Consistent(s) && profile.id !in TrackedProfiles(s.manager.active)
    ensures Extends(s, s.(manager := ActivateMatching(s.manager, profile, device, outside).0))
  {
    ActivateMatchingKeepsLayers(s.manager, profile, device, outside);
    ActivateMatchingKeepsHistory(s, profile, device, outside);
  }

  lemma ActivateBestExtends(s: System, store: Store, device: DeviceInfo, outside: Outside)
    requires Consistent(s) && store.Valid()
    ensures Extends(s, s.(manager := ActivateBest(s.manager, store, device, outside).0))
  {
    var choice := Choose(store, device, TrackedProfiles(s.manager.active));
    ChosenIsUntracked(s.manager, store, device);
    if choice.Success? && choice.value.Some? {
      ActivateMatchingExtends(s, choice.value.value, device, outside);
    }
  }

  lemma ActivateProfileExtends(s: System, store: Store, id: ProfileId, device: DeviceInfo, outside: Outside)
    requires Consistent(s) && store.Valid()
    ensures Extends(s, s.(manager := ActivateProfile(s.manager, store, id, device, outside).0))
  {
    if store.Get(id).Success? {
      GetReturnsItsId(store, id);
      var profile := store.Get(id).value;
      if Matches(profile, device) && id !in TrackedProfiles(s.manager.active) {
        ActivateMatchingExtends(s, profile, device, outside);
      }
    }
  }

  lemma DeactivateExtends(s: System, id: ActiveConnectionId)
    requires Consistent(s)
    ensures Extends(s, s.(manager := Deactivate(s.manager, id).0))
  {
    DeactivateKeepsLayers(s.manager, id);
    DeactivateKeepsHistory(s, id);
  }

  lemma PerformKeepsConsistent(s: System, op: Op)
    requires Consistent(s)
    requires op.BestOp? || op.ProfileOp? ==> op.store.Valid()
    ensures Extends(s, Perform(s, op))
  {
    match op
    case BestOp(store, device, outside) => ActivateBestExtends(s, store, device, outside);
    case ProfileOp(store, id, device, outside) => ActivateProfileExtends(s, store, id, device, outside);
    case DeactivateOp(id) => DeactivateExtends(s, id);
    case DrainOp => assert History(Perform(s, op)) == History(s);
  }

  lemma {:induction false} RunKeepsConsistent(s: System, ops: seq<Op>)
    requires Consistent(s) && StoresValid(ops)
    ensures Extends(s, PerformAll(s, ops))
    decreases |ops|
  {
    if ops != [] {
      PerformKeepsConsistent(s, ops[0]);
      RunKeepsConsistent(Perform(s, ops[0]), ops[1..]);
    }
  }

  /** Every run of manager calls from a new manager, whatever the backends answer, keeps the three
      layers in agreement, ids and profiles unique, and each id's history a legal walk; continuing
      the run only extends that history. */
  lemma EveryRunIsConsistent(s: System, ops: seq<Op>, more: seq<Op>)
    requires Initial(s) && StoresValid(ops) && StoresValid(more)
    ensures Consistent(PerformAll(s, ops))
    ensures Extends(PerformAll(s, ops), PerformAll(PerformAll(s, ops), more))
  {
    RunKeepsConsistent(s, ops);
    RunKeepsConsistent(PerformAll(s, ops), more);
  }

  // --- A failed connection never leaves ---------------------------------------------------------------------

  lemma DeactivationKeepsFailed(m: ManagerState, i: nat, fault: Option<EngineFault>, c: ActiveConnection)
    requires i < |m.active| && Up(m.active[i]) && c in m.active && c.state.Failed?
    ensures c in RecordDeactivation(m, i, fault).0.active
  {
    var k :| 0 <= k < |m.active| && m.active[k] == c;
    var after := RecordDeactivation(m, i, fault).0.active;
    assert after[if fault.None? && i < k then k - 1 else k] == c;
  }

  lemma StepKeepsFailed(s: System, op: Op, c: ActiveConnection)
    requires c in s.manager.active && c.state.Failed?
    ensures c in Perform(s, op).manager.active
  {
    var m := s.manager;
    if op.DeactivateOp? {
      var i := Position(m.active, op.id);
      if i < |m.active| && Up(m.active[i]) {
        var (engine, fault) := EngineDown(m.engine, m.active[i].profile.id);
        DeactivationKeepsFailed(m.(engine := engine), i, fault, c);
      }
    } else {
      assert m.active <= Perform(s, op).manager.active;
    }
  }

  /** Nothing the manager offers clears a failed connection: through every later run it stays
      tracked, so activating its profile is refused for good and never chosen automatically. */
  lemma {:induction false} FailedProfileIsBlockedForever(
      s: System, ops: seq<Op>, c: ActiveConnection, store: Store, device: DeviceInfo, outside: Outside)
    requires c in s.manager.active && c.state.Failed? && StoresValid(ops) && store.Valid()
    ensures var later := PerformAll(s, ops).manager;
            && c in later.active
            && ActivateProfile(later, store, c.profile.id, device, outside).1.Failure?
            && ActivateProfile(later, store, c.profile.id, device, outside).0 == later
            && (var choice := Choose(store, device, TrackedProfiles(later.active));
                choice.Success? && choice.value.Some? ==> choice.value.value.id != c.profile.id)
    decreases |ops|
  {
    if ops == [] {
      assert c.profile.id in TrackedProfiles(s.manager.active);
      ChosenIsUntracked(s.manager, store, device);
    } else {
      StepKeepsFailed(s, ops[0], c);
      FailedProfileIsBlockedForever(Perform(s, ops[0]), ops[1..], c, store, device, outside);
    }
  }
}
