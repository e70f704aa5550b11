/** The Wi-Fi link: association through wpa_supplicant (src/connection/supplicant_engine.rs). */
module Supplicant {
  import opened Wrappers
  import opened Profiles

  /** How the supplicant answers one control call; a granted registration names its network. */
  datatype Answer = Granted(path: string) | Denied

  /** The control interface: registered networks, the selected one, and the answers to come.
      An exhausted script denies. */
  datatype Control = Control(
    ifname: string,
    networks: set<string>,
    selected: Option<string>,
    answers: seq<Answer>)

  datatype LinkError =
    | LinkInProgress | NotWifi | WrongInterface | EnterpriseUnsupported | SecretUnavailable
    | ControlDenied | NoNetwork | OtherProfilesNetwork

  function NextAnswer(control: Control): Answer {
    if control.answers == [] then Denied else control.answers[0]
  }

  function Later(control: Control): Control {
    control.(answers := if control.answers == [] then [] else control.answers[1..])
  }

  function AddNetwork(control: Control): (Control, Answer) {
    var answer := NextAnswer(control);
    var next := Later(control);
    if answer.Denied? then (next, answer) else (next.(networks := next.networks + {answer.path}), answer)
  }

  function SelectNetwork(control: Control, path: string): (Control, bool) {
    var next := Later(control);
    if NextAnswer(control).Denied? then (next, false) else (next.(selected := Some(path)), true)
  }

  function WaitForCompleted(control: Control): (Control, bool) {
    (Later(control), NextAnswer(control).Granted?)
  }

  function RemoveNetwork(control: Control, path: string): (Control, bool) {
    var next := Later(control);
    if NextAnswer(control).Denied? then (next, false) else (next.(networks := next.networks - {path}), true)
  }

  function Disconnect(control: Control): (Control, bool) {
    var next := Later(control);
    if NextAnswer(control).Denied? then (next, false) else (next.(selected := None), true)
  }

  /** The engine's record of the network it associated, keyed by the profile that asked. */
  datatype LinkState = LinkState(control: Control, activeNetwork: Option<(ProfileId, string)>)

  function NeedsSecret(security: WifiSecurity): bool {
    security.keyManagement.WpaPsk? || security.keyManagement.Sae?
  }

  /** Why an activation is refused before the supplicant is asked anything. */
  function Refusal(
      link: LinkState, profile: ConnectionProfile, device: DeviceInfo, secretFound: bool): Option<LinkError> {
    if link.activeNetwork.Some? then Some(LinkInProgress)
    else if !profile.connectionType.Wifi? then Some(NotWifi)
    else if link.control.ifname != device.interfaceName then Some(WrongInterface)
    else
      var security := profile.connectionType.wifi.security;
      if security.keyManagement.WpaEap? then Some(EnterpriseUnsupported)
      else if NeedsSecret(security) && (security.secret.None? || !secretFound) then Some(SecretUnavailable)
      else None
  }

  /** Registers a network, selects it and waits; a failure after registration removes it again. */
  function Associate(control: Control): (Control, Option<string>) {
    var (added, answer) := AddNetwork(control);
    if answer.Denied? then (added, None)
    else
      var (selected, ok) := SelectNetwork(added, answer.path);
      if !ok then (RemoveNetwork(selected, answer.path).0, None)
      else
        var (waited, completed) := WaitForCompleted(selected);
        if !completed then (RemoveNetwork(waited, answer.path).0, None)
        else (waited, Some(answer.path))
  }

  function LinkUp(link: LinkState, profile: ConnectionProfile, device: DeviceInfo, secretFound: bool):
    (LinkState, Option<LinkError>)
  {
    var refusal := Refusal(link, profile, device, secretFound);
    if refusal.Some? then (link, refusal)
    else
      var (control, path) := Associate(link.control);
      if path.None? then (link.(control := control), Some(ControlDenied))
      else (LinkState(control, Some((profile.id, path.value))), None)
  }

  function LinkDown(link: LinkState, profileId: ProfileId): (LinkState, Option<LinkError>) {
    if link.activeNetwork.None? then (link, Some(NoNetwork))
    else if link.activeNetwork.value.0 != profileId then (link, Some(OtherProfilesNetwork))
    else
      var (off, disconnected) := Disconnect(link.control);
      var (gone, removed) := RemoveNetwork(off, link.activeNetwork.value.1);
      (LinkState(gone, None), if disconnected && removed then None else Some(ControlDenied))
  }

  // --- What is left at the supplicant ---------------------------------------------------------------

  predicate GrantedAt(control: Control, call: nat) {
    call < |control.answers| && control.answers[call].Granted?
  }

  /** The call that removes a registered network again: after a denied selection, after a denied wait, or
      after the disconnect of an association that worked. */
  function CleanupCall(control: Control): nat {
    if !GrantedAt(control, 1) then 2 else if !GrantedAt(control, 2) then 3 else 4
  }

  /** Nothing is registered, or the network has a new name and its removal is granted. */
  predicate LeavesNoNetwork(link: LinkState, profile: ConnectionProfile, device: DeviceInfo, secretFound: bool) {
    || Refusal(link, profile, device, secretFound).Some? || !GrantedAt(link.control, 0)
    || (link.control.answers[0].path !in link.control.networks
        <==> GrantedAt(link.control, CleanupCall(link.control)))
  }

  /** A failed activation leaves the record as it was, and the registered networks exactly when it leaves
      no network behind. */
  lemma FailedLinkIsUndoneExactly(link: LinkState, profile: ConnectionProfile, device: DeviceInfo, secretFound: bool)
    ensures var (after, error) := LinkUp(link, profile, device, secretFound);
            error.Some? ==>
              && after.activeNetwork == link.activeNetwork
              && (after.control.networks == link.control.networks
                  <==> LeavesNoNetwork(link, profile, device, secretFound))
  {
    var control := link.control;
    var (added, answer) := AddNetwork(control);
    if answer.Granted? {
      var left := SelectNetwork(added, answer.path).0;
      var waited := WaitForCompleted(left).0;
      assert GrantedAt(control, 2) == GrantedAt(left, 0) && GrantedAt(control, 3) == GrantedAt(waited, 0);
    }
  }

  /** Associating and leaving again empties the record whatever fails, restores the networks exactly when
      no network is left behind, and succeeds exactly when both steps of leaving were granted. */
  lemma LinkUpThenDown(link: LinkState, profile: ConnectionProfile, device: DeviceInfo, secretFound: bool)
    requires LinkUp(link, profile, device, secretFound).1.None?
    ensures var control := link.control;
            var (down, error) := LinkDown(LinkUp(link, profile, device, secretFound).0, profile.id);
            && down.activeNetwork.None?
            && (down.control.networks == control.networks <==> LeavesNoNetwork(link, profile, device, secretFound))
            && (error.None? <==> GrantedAt(control, 3) && GrantedAt(control, 4))
  {
    var control := link.control;
    var up := LinkUp(link, profile, device, secretFound).0;
    assert up.control.answers == control.answers[3..];
    assert GrantedAt(control, 3) == GrantedAt(up.control, 0) && GrantedAt(control, 4) == GrantedAt(up.control, 1);
  }

  /** An association that works registers one network, named by the supplicant, selects that very network and
      records it for the profile. */
  lemma AssociatedIsSelected(link: LinkState, profile: ConnectionProfile, device: DeviceInfo, secretFound: bool)
    requires LinkUp(link, profile, device, secretFound).1.None?
    ensures var up, path := LinkUp(link, profile, device, secretFound).0, link.control.answers[0].path;
            && up.activeNetwork == Some((profile.id, path)) && up.control.selected == Some(path)
            && up.control.networks == link.control.networks + {path}
            && GrantedAt(link.control, 0) && GrantedAt(link.control, 1) && GrantedAt(link.control, 2)
            && up.control.ifname == link.control.ifname
  {
  }

  /** When an association works: nothing is active, it is a Wi-Fi profile for the interface the supplicant
      controls, it is not an enterprise network, a needed secret is there, and all three calls are granted. */
  lemma AssociatesExactly(link: LinkState, profile: ConnectionProfile, device: DeviceInfo, secretFound: bool)
    ensures LinkUp(link, profile, device, secretFound).1.None?
            <==> && link.activeNetwork.None? && link.control.ifname == device.interfaceName
                 && profile.connectionType.Wifi?
                 && (match profile.connectionType.wifi.security.keyManagement
                     case WpaPsk => profile.connectionType.wifi.security.secret.Some? && secretFound
                     case Sae => profile.connectionType.wifi.security.secret.Some? && secretFound
                     case WpaEap => false
                     case Open => true
                     case Owe => true)
                 && GrantedAt(link.control, 0) && GrantedAt(link.control, 1) && GrantedAt(link.control, 2)
  {
    var control := link.control;
    var (added, answer) := AddNetwork(control);
    if answer.Granted? {
      var left := SelectNetwork(added, answer.path).0;
      assert GrantedAt(control, 1) == GrantedAt(added, 0) && GrantedAt(control, 2) == GrantedAt(left, 0);
    }
  }

  /** A disconnect that is granted leaves nothing selected. */
  lemma LeavingDeselects(link: LinkState, profileId: ProfileId)
    requires link.activeNetwork.Some? && link.activeNetwork.value.0 == profileId && GrantedAt(link.control, 0)
    ensures var down := LinkDown(link, profileId).0;
            && down.activeNetwork.None? && down.control.selected.None?
            && (GrantedAt(link.control, 1)
                ==> down.control.networks == link.control.networks - {link.activeNetwork.value.1})
  {
  }

  /** Leaving the recorded network succeeds exactly when the disconnect and the removal are granted. */
  lemma LinkDownSucceedsExactly(link: LinkState, profileId: ProfileId)
    requires link.activeNetwork.Some? && link.activeNetwork.value.0 == profileId
    ensures LinkDown(link, profileId).1.None? <==> GrantedAt(link.control, 0) && GrantedAt(link.control, 1)
  {
  }

  /** The engine object. */
  class WpaSupplicantActivationEngine {
    var link: LinkState

    constructor (control: Control)
      ensures link == LinkState(control, None)
    {
      link := LinkState(control, None);
    }

    method BringUp(profile: ConnectionProfile, device: DeviceInfo, secretFound: bool) returns (error: Option<LinkError>)
      modifies this
      ensures (link, error) == LinkUp(old(link), profile, device, secretFound)
    {
      if link.activeNetwork.Some? {
        return Some(LinkInProgress);
      }
      if !profile.connectionType.Wifi? {
        return Some(NotWifi);
      }
      if link.control.ifname != device.interfaceName {
        return Some(WrongInterface);
      }
      var security := profile.connectionType.wifi.security;
      if security.keyManagement.WpaEap? {
        return Some(EnterpriseUnsupported);
      }
      if NeedsSecret(security) && (security.secret.None? || !secretFound) {
        return Some(SecretUnavailable);
      }
      var (added, answer) := AddNetwork(link.control);
      link := link.(control := added);
      if answer.Denied? {
        return Some(ControlDenied);
      }
      var (selected, ok) := SelectNetwork(link.control, answer.path);
      link := link.(control := selected);
      if ok {
        var (waited, completed) := WaitForCompleted(link.control);
        link := link.(control := waited);
        ok := completed;
      }
      if !ok {
        var (cleaned, ignored) := RemoveNetwork(link.control, answer.path);
        link := link.(control := cleaned);
        return Some(ControlDenied);
      }
      link := link.(activeNetwork := Some((profile.id, answer.path)));
      error := None;
    }

    method TakeDown(profileId: ProfileId) returns (error: Option<LinkError>)
      modifies this
      ensures (link, error) == LinkDown(old(link), profileId)
    {
      if link.activeNetwork.None? {
        return Some(NoNetwork);
      }
      var (owner, path) := link.activeNetwork.value;
      if owner != profileId {
        return Some(OtherProfilesNetwork);
      }
      var (off, disconnected) := Disconnect(link.control);
      link := link.(control := off);
      var (gone, removed) := RemoveNetwork(link.control, path);
      link := LinkState(gone, None);
      error := if disconnected && removed then None else Some(ControlDenied);
    }
  }
}
